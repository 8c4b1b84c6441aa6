/** The 60 tick marks of the analog dial, as `buildTicks()` in script.js
    lays them out. */
module Dial {
  import ClockHands

  /** One tick mark: its rotation in whole degrees and whether it is a
      major (hour) mark. */
  datatype Mark = Mark(angle: nat, major: bool)

  /** The i-th mark: 6 degrees per step, every fifth one major. */
  function MarkAt(i: nat): (m: Mark)
    ensures m.angle % 6 == 0 && m.angle / 6 == i
    ensures i < 60 ==> m.angle <= 354
    ensures m.major <==> i % 5 == 0
  {
    Mark(6 * i, i % 5 == 0)
  }

  /** The number of major marks in a sequence of marks. */
  function MajorCount(marks: seq<Mark>): nat {
    if marks == [] then 0
    else MajorCount(marks[..|marks| - 1]) + (if marks[|marks| - 1].major then 1 else 0)
  }

  /** The loop of `buildTicks()`, appending one mark per step. */
  method BuildTicks() returns (marks: seq<Mark>)
    ensures |marks| == 60
    ensures forall i :: 0 <= i < 60 ==> marks[i] == MarkAt(i)
  {
    marks := [];
    for i := 0 to 60
      invariant |marks| == i
      invariant forall j :: 0 <= j < i ==> marks[j] == MarkAt(j)
    {
      marks := marks + [Mark(i * 6, i % 5 == 0)];
    }
  }

  /** The first n marks hold one major mark per started group of five. */
  lemma {:induction false} MajorCountPrefix(marks: seq<Mark>, n: nat)
    requires n <= |marks|
    requires forall i :: 0 <= i < |marks| ==> marks[i] == MarkAt(i)
    ensures MajorCount(marks[..n]) == (n + 4) / 5
  {
    if n > 0 {
      MajorCountPrefix(marks, n - 1);
      assert marks[..n][..n - 1] == marks[..n - 1];
    }
  }

  /** The dial has twelve major marks, every mark lies in [0, 354]
      degrees, and the marks are in increasing order of angle. */
  lemma DialLayout(marks: seq<Mark>)
    requires |marks| == 60
    requires forall i :: 0 <= i < 60 ==> marks[i] == MarkAt(i)
    ensures MajorCount(marks) == 12
    ensures forall i :: 0 <= i < 60 ==> marks[i].angle <= 354
    ensures forall i, j :: 0 <= i < j < 60 ==> marks[i].angle < marks[j].angle
  {
    MajorCountPrefix(marks, 60);
    assert marks[..60] == marks;
  }

  /** The marks line up with the hands: the second hand at s seconds and
      the minute hand at s minutes sharp point at mark s, and the hour hand
      at h o'clock sharp points at mark 5h, which is a major mark. */
  lemma MarksMatchHands(marks: seq<Mark>, format: string)
    requires |marks| == 60
    requires forall i :: 0 <= i < 60 ==> marks[i] == MarkAt(i)
    ensures forall s :: 0 <= s < 60 ==> 10 * marks[s].angle == ClockHands.SecondAngle(s) == ClockHands.MinuteAngle(s, 0)
    ensures forall h :: 0 <= h < 12 ==> marks[5 * h].major && 10 * marks[5 * h].angle == ClockHands.HourAngle(format, h, 0)
  {
    forall h | 0 <= h < 12
      ensures marks[5 * h].major && 10 * marks[5 * h].angle == ClockHands.HourAngle(format, h, 0)
    {
      assert ClockHands.DialHour(format, h) == h;
    }
  }
}
