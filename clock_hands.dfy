/** Rotation of the three hands of the analog clock, as `update()` in
    script.js computes it from the hour, minute and second readings.

    Angles are measured clockwise from 12 o'clock in TENTHS OF A DEGREE, so
    the source's 0.5 degree step of the hour hand and 0.1 degree step of the
    minute hand are the whole numbers 5 and 1. */
module ClockHands {

  /** The hour, minute and second fields as read from the formatted time.
      In the 12-hour format the hour reads 1 to 12 (or 0 to 11); in the
      24-hour format it reads 0 to 23, and some browsers render midnight
      as 24, which is why the source reduces it modulo the cycle. */
  datatype Reading = Reading(hour: nat, minute: nat, second: nat) {
    predicate Valid() {
      hour <= 24 && minute < 60 && second < 60
    }
  }

  /** The three angles, in tenths of a degree. */
  datatype Hands = Hands(hour: nat, minute: nat, second: nat)

  /** The hour cycle: 12 exactly when the format setting is "12", and 24
      for any other value. */
  function Cycle(format: string): (c: nat)
    ensures c == 12 || c == 24
    ensures c == 12 <==> format == "12"
  {
    if format == "12" then 12 else 24
  }

  /** The hour position on the dial, 0 to 11. The reading is reduced
      modulo the cycle and then modulo 12; whichever cycle was used, this
      is the reading modulo 12. */
  function DialHour(format: string, hour: nat): (d: nat)
    ensures d < 12
    ensures d == hour % 12
  {
    (hour % Cycle(format)) % 12
  }

  /** Hour hand: 30 degrees per hour plus half a degree per minute. The
      angle splits back into the hour sector it lies in (300 tenths per
      hour) and the minute within it (5 tenths per minute). */
  function HourAngle(format: string, hour: nat, minute: nat): (r: nat)
    ensures minute < 60 ==> r < 3600 && r / 300 == hour % 12 && r % 300 == 5 * minute
  {
    DialHour(format, hour) * 300 + minute * 5
  }

  /** Minute hand: 6 degrees per minute plus a tenth of a degree per
      second. The angle splits back into the minute (60 tenths each) and
      the second. */
  function MinuteAngle(minute: nat, second: nat): (r: nat)
    ensures minute < 60 && second < 60 ==> r < 3600 && r / 60 == minute && r % 60 == second
  {
    minute * 60 + second
  }

  /** Second hand: 6 degrees per second, landing on whole 6 degree steps. */
  function SecondAngle(second: nat): (r: nat)
    ensures second < 60 ==> r <= 3540 && r % 60 == 0 && r / 60 == second
  {
    second * 60
  }

  /** The three hands for a reading; on a valid reading each one lies in
      [0, 360) degrees and gives back its part of the reading. */
  function HandAngles(format: string, t: Reading): (h: Hands)
    ensures t.Valid() ==> h.hour < 3600 && h.minute < 3600 && h.second < 3600
    ensures t.Valid() ==> h.hour / 300 == t.hour % 12 && h.minute / 60 == t.minute && h.second / 60 == t.second
  {
    Hands(HourAngle(format, t.hour, t.minute), MinuteAngle(t.minute, t.second), SecondAngle(t.second))
  }

  /** Every valid reading puts every hand in [0, 360) degrees; the largest
      angles are 359.5, 359.9 and 354 degrees. */
  lemma HandsInRange(format: string, t: Reading)
    requires t.Valid()
    ensures HandAngles(format, t).hour <= 3595
    ensures HandAngles(format, t).minute <= 3599
    ensures HandAngles(format, t).second <= 3540
  {
  }

  /** The largest angles are attained, at 23:59:59. */
  lemma HandMaxima()
    ensures HandAngles("24", Reading(23, 59, 59)) == Hands(3595, 3599, 3540)
  {
  }

  /** How a 12-hour clock renders the hour of a 24-hour reading: 0 and 12
      become 12, 13 becomes 1, and so on. A formatter that renders the
      12-hour cycle as 0 to 11 instead is covered by `HourHandIgnoresCycle`,
      since its reading also agrees with the 24-hour one modulo 12. */
  function TwelveHourReading(hour24: nat): (h: nat)
    ensures 1 <= h <= 12
    ensures h % 12 == hour24 % 12
  {
    if hour24 % 12 == 0 then 12 else hour24 % 12
  }

  /** The 12-hour and the 24-hour reading of the same instant give the same
      hour hand. */
  lemma {:induction false} FormatsAgree(hour24: nat, minute: nat)
    ensures HourAngle("12", TwelveHourReading(hour24), minute) == HourAngle("24", hour24, minute)
  {
    assert DialHour("12", TwelveHourReading(hour24)) == DialHour("24", hour24);
  }

  /** More generally, the hour hand depends on the format only through the
      reading modulo 12: any two readings equal modulo 12 agree, in any two
      formats. */
  lemma {:induction false} HourHandIgnoresCycle(f1: string, h1: nat, f2: string, h2: nat, minute: nat)
    requires h1 % 12 == h2 % 12
    ensures HourAngle(f1, h1, minute) == HourAngle(f2, h2, minute)
  {
    assert DialHour(f1, h1) == DialHour(f2, h2);
  }

  /** Within an hour the hour hand sweeps one twelfth of what the minute
      hand sweeps, and within a minute the minute hand sweeps one sixtieth
      of what the second hand sweeps: the hands move smoothly together. */
  lemma HandsMoveTogether(format: string, t: Reading)
    requires t.Valid()
    ensures 12 * (HourAngle(format, t.hour, t.minute) % 300) == MinuteAngle(t.minute, 0)
    ensures 60 * (MinuteAngle(t.minute, t.second) % 60) == SecondAngle(t.second)
  {
  }

  /** The angles determine the time on the dial: two valid readings with
      the same hands agree on the hour modulo 12, the minute and the second. */
  lemma HandsDetermineReading(f1: string, t1: Reading, f2: string, t2: Reading)
    requires t1.Valid() && t2.Valid()
    requires HandAngles(f1, t1) == HandAngles(f2, t2)
    ensures t1.hour % 12 == t2.hour % 12 && t1.minute == t2.minute && t1.second == t2.second
  {
    assert HourAngle(f1, t1.hour, t1.minute) / 300 == HourAngle(f2, t2.hour, t2.minute) / 300;
    assert MinuteAngle(t1.minute, t1.second) / 60 == MinuteAngle(t2.minute, t2.second) / 60;
    assert SecondAngle(t1.second) / 60 == SecondAngle(t2.second) / 60;
  }

  /** 13:05:30 in the 24-hour format: 32.5, 33.0 and 180 degrees; in the
      12-hour format (reading 1) the hands are the same. */
  lemma AfternoonExample()
    ensures HandAngles("24", Reading(13, 5, 30)) == Hands(325, 330, 1800)
    ensures HandAngles("12", Reading(1, 5, 30)) == Hands(325, 330, 1800)
  {
  }

  /** Noon puts the hour hand at 12 o'clock in either format. */
  lemma NoonExample()
    ensures HourAngle("12", 12, 0) == 0
    ensures HourAngle("24", 12, 0) == 0
  {
  }

  /** So does midnight, including its rendering as 24. */
  lemma MidnightExample()
    ensures HourAngle("24", 0, 0) == 0
    ensures HourAngle("24", 24, 0) == 0
  {
    assert DialHour("24", 0) == 0;
    assert DialHour("24", 24) == 0;
  }
}
