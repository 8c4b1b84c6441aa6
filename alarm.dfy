/** The alarm check at the end of `update()` in script.js, and the marker
    `lastAlarmFire` that debounces it.

    A tick sees whether the alarm is enabled, the alarm time ("HH:MM", or
    "" when unset) and the current time in the 24-hour "HH:MM" form. The
    marker holds the last time at which the alarm fired; it starts as ""
    and is written only when the alarm fires. */
module Alarm {

  /** What one tick of the render loop sees. */
  datatype Tick = Tick(enabled: bool, alarmTime: string, now: string)

  /** The alarm fires when it is enabled, its time is set, the current
      "HH:MM" equals it and the marker does not already hold it. */
  predicate Fires(t: Tick, lastFire: string): (r: bool)
    ensures r ==> t.enabled && t.now != "" && t.now == t.alarmTime
    ensures r ==> lastFire != t.now
  {
    t.enabled && t.alarmTime != "" && t.now == t.alarmTime && lastFire != t.now
  }

  /** The marker after the tick: the current time if the alarm fired,
      unchanged otherwise. */
  function Marker(t: Tick, lastFire: string): (m: string)
    ensures m == lastFire || m == t.now
    ensures m != lastFire ==> t.enabled && m == t.alarmTime
  {
    if Fires(t, lastFire) then t.now else lastFire
  }

  /** The times at which the alarm fires over a run of ticks, in order,
      starting from the marker `lastFire`. */
  function Firings(ticks: seq<Tick>, lastFire: string): (f: seq<string>)
    ensures |f| <= |ticks|
    ensures forall x :: x in f ==> x != ""
  {
    if ticks == [] then []
    else
      (if Fires(ticks[0], lastFire) then [ticks[0].now] else [])
      + Firings(ticks[1..], Marker(ticks[0], lastFire))
  }

  /** The marker at the end of a run of ticks. */
  function FinalMarker(ticks: seq<Tick>, lastFire: string): (m: string)
    ensures m == lastFire || exists i :: 0 <= i < |ticks| && m == ticks[i].alarmTime
  {
    if ticks == [] then lastFire else FinalMarker(ticks[1..], Marker(ticks[0], lastFire))
  }

  /** A tick fires only on an enabled, set alarm whose time is the current
      time; firing records that time, and another tick in the same minute
      then stays quiet whatever the settings. */
  lemma FiringDebounces(t: Tick, lastFire: string, u: Tick)
    requires Fires(t, lastFire)
    requires u.now == t.now
    ensures t.enabled && t.alarmTime != "" && t.now == t.alarmTime
    ensures Marker(t, lastFire) == t.now
    ensures !Fires(u, Marker(t, lastFire))
  {
  }

  /** A tick that does not fire leaves the marker as it was. */
  lemma QuietTickKeepsMarker(t: Tick, lastFire: string)
    requires !Fires(t, lastFire)
    ensures Marker(t, lastFire) == lastFire
  {
  }

  /** The marker only ever holds "" or a time at which the alarm fired:
      it is the last firing of the run, or the starting marker if none. */
  lemma {:induction false} MarkerIsLastFiring(ticks: seq<Tick>, lastFire: string)
    ensures var f := Firings(ticks, lastFire);
      FinalMarker(ticks, lastFire) == if f == [] then lastFire else f[|f| - 1]
  {
    if ticks != [] {
      MarkerIsLastFiring(ticks[1..], Marker(ticks[0], lastFire));
    }
  }

  /** Every firing happens at the alarm time that tick saw. */
  lemma {:induction false} FiringsAtAlarmTime(ticks: seq<Tick>, lastFire: string, time: string)
    requires forall i :: 0 <= i < |ticks| ==> ticks[i].alarmTime == time
    ensures forall x :: x in Firings(ticks, lastFire) ==> x == time
  {
    if ticks != [] {
      FiringsAtAlarmTime(ticks[1..], Marker(ticks[0], lastFire), time);
    }
  }

  /** Between two firings at the same time there is a firing at another
      time: the first firing differs from the starting marker, no two
      consecutive firings are at the same time, and so a run fires at
      `time` at most as often as it fires elsewhere, plus one if the marker
      does not hold `time` at the start. */
  lemma {:induction false} SameTimeNeedsInterveningFiring(ticks: seq<Tick>, lastFire: string, time: string)
    ensures var f := Firings(ticks, lastFire); f != [] ==> f[0] != lastFire
    ensures var f := Firings(ticks, lastFire); forall i :: 0 <= i < |f| - 1 ==> f[i] != f[i + 1]
    ensures var f := Firings(ticks, lastFire);
      multiset(f)[time] <= (if lastFire == time then 0 else 1) + (|f| - multiset(f)[time])
  {
    if ticks != [] {
      var t, rest := ticks[0], ticks[1..];
      var m := Marker(t, lastFire);
      SameTimeNeedsInterveningFiring(rest, m, time);
      var head := if Fires(t, lastFire) then [t.now] else [];
      assert Firings(ticks, lastFire) == head + Firings(rest, m);
    }
  }

  /** With the alarm time fixed, the alarm fires at most once over the
      whole life of the marker, and never if the marker already holds that
      time: the marker is not cleared when the minute passes, so the same
      "HH:MM" on a later day does not fire again. */
  lemma {:induction false} FixedAlarmFiresAtMostOnce(ticks: seq<Tick>, lastFire: string, time: string)
    requires forall i :: 0 <= i < |ticks| ==> ticks[i].alarmTime == time
    ensures |Firings(ticks, lastFire)| <= 1
    ensures lastFire == time ==> Firings(ticks, lastFire) == []
  {
    var f := Firings(ticks, lastFire);
    FiringsAtAlarmTime(ticks, lastFire, time);
    SameTimeNeedsInterveningFiring(ticks, lastFire, time);
    MultisetAllSame(f, time);
  }

  /** A sequence whose elements all equal `x` holds `x` as many times as it is long. */
  lemma {:induction false} MultisetAllSame(s: seq<string>, x: string)
    requires forall y :: y in s ==> y == x
    ensures multiset(s)[x] == |s|
  {
    if s != [] {
      assert s == [s[0]] + s[1..];
      assert forall y :: y in s[1..] ==> y in s;
      MultisetAllSame(s[1..], x);
      assert s[0] in s;
      assert multiset(s) == multiset{s[0]} + multiset(s[1..]);
      assert multiset{s[0]}[x] == 1;
    }
  }

  /** The alarm set for 07:30 fires at 07:30, stays quiet through the
      following ticks of that minute and the next minute, and stays quiet
      when 07:30 comes round again. */
  lemma NoRearmExample()
    ensures Firings([Tick(true, "07:30", "07:30"), Tick(true, "07:30", "07:30"),
                     Tick(true, "07:30", "07:31"), Tick(true, "07:30", "07:30")], "")
         == ["07:30"]
  {
  }

  /** Only a firing at another time re-arms it: moving the alarm to 07:31
      and letting it fire, then moving it back, lets 07:30 fire again. */
  lemma RearmAfterOtherFiringExample()
    ensures Firings([Tick(true, "07:30", "07:30"), Tick(true, "07:31", "07:31"),
                     Tick(true, "07:30", "07:30")], "")
         == ["07:30", "07:31", "07:30"]
  {
  }
}
