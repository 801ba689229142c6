/** A time zone as its list of offset changes, and the two conversions the scheduler makes
    (apps/api/app/scheduling.py). Instants and wall times are integers on one scale. */
module Zone {

  datatype Change = Change(at: int, offset: int)

  /** base is the UTC offset before the first change. */
  datatype Zone = Zone(base: int, changes: seq<Change>)

  function Abs(x: int): (y: nat) {
    if x < 0 then -x else x
  }

  function Max(x: int, y: int): (z: int) {
    if x < y then y else x
  }

  /** The offset in force once k changes have happened. */
  function Offset(z: Zone, k: nat): (offset: int)
    requires k <= |z.changes|
  {
    if k == 0 then z.base else z.changes[k - 1].offset
  }

  function Shift(z: Zone, k: nat): (shift: int)
    requires k < |z.changes|
  {
    Offset(z, k + 1) - Offset(z, k)
  }

  predicate ApartAt(z: Zone, k: nat)
    requires 0 < k < |z.changes|
  {
    z.changes[k].at - z.changes[k - 1].at > Max(Abs(Shift(z, k - 1)), Abs(Shift(z, k)))
  }

  /** Changes are further apart than either of the two shifts. */
  predicate Separated(z: Zone) {
    forall k | 0 < k < |z.changes| :: ApartAt(z, k)
  }

  // ----- UTC to local -----

  /** How many of the first k changes have happened by the instant. */
  function Era(z: Zone, instant: int, k: nat): (e: nat)
    requires k <= |z.changes|
    ensures e <= k
    ensures e > 0 ==> z.changes[e - 1].at <= instant
    ensures e < k ==> instant < z.changes[e].at
  {
    if k == 0 || z.changes[k - 1].at <= instant then k else Era(z, instant, k - 1)
  }

  function ToLocal(z: Zone, instant: int): (wall: int) {
    instant + Offset(z, Era(z, instant, |z.changes|))
  }

  // ----- local to UTC, first occurrence -----

  /** The wall time from which change k governs a first occurrence: its larger wall reading. */
  function WallChange(z: Zone, k: nat): (wall: int)
    requires k < |z.changes|
  {
    z.changes[k].at + Max(Offset(z, k), Offset(z, k + 1))
  }

  function WallEra(z: Zone, wall: int, k: nat): (e: nat)
    requires k <= |z.changes|
    ensures e <= k
    ensures e > 0 ==> WallChange(z, e - 1) <= wall
    ensures e < k ==> wall < WallChange(z, e)
  {
    if k == 0 || WallChange(z, k - 1) <= wall then k else WallEra(z, wall, k - 1)
  }

  function EraOf(z: Zone, wall: int): (e: nat)
    ensures e <= |z.changes|
    ensures e > 0 ==> WallChange(z, e - 1) <= wall
    ensures e < |z.changes| ==> wall < WallChange(z, e)
  {
    WallEra(z, wall, |z.changes|)
  }

  /** fold=0: the first occurrence of a repeated wall time, the offset before a skipped one. */
  function ToUtc(z: Zone, wall: int): (instant: int) {
    wall - Offset(z, EraOf(z, wall))
  }

  /** The scheduler's round-trip test. */
  predicate IsReal(z: Zone, wall: int) {
    ToLocal(z, ToUtc(z, wall)) == wall
  }

  // ----- facts that hold of every zone -----

  lemma RealIsInjective(z: Zone, a: int, b: int)
    requires IsReal(z, a) && IsReal(z, b) && ToUtc(z, a) == ToUtc(z, b)
    ensures a == b
  {
  }

  // ----- facts that need the changes apart -----

  /** Changes, their wall readings, and the wall readings just after them all come in order. */
  lemma {:induction false} InOrder(z: Zone, i: nat, j: nat)
    requires Separated(z) && i <= j < |z.changes|
    ensures z.changes[i].at <= z.changes[j].at
    ensures WallChange(z, i) <= WallChange(z, j)
    ensures z.changes[i].at + Offset(z, i + 1) <= z.changes[j].at + Offset(z, j + 1)
    ensures i < j ==> z.changes[i].at + Abs(Shift(z, i)) < z.changes[j].at
  {
    if i < j {
      InOrder(z, i, j - 1);
      assert ApartAt(z, j);
    }
  }

  lemma EraIs(z: Zone, instant: int, e: nat)
    requires Separated(z) && e <= |z.changes|
    requires e > 0 ==> z.changes[e - 1].at <= instant
    requires e < |z.changes| ==> instant < z.changes[e].at
    ensures Era(z, instant, |z.changes|) == e
  {
    var e' := Era(z, instant, |z.changes|);
    if e' < e {
      InOrder(z, e', e - 1);
    } else if e < e' {
      InOrder(z, e, e' - 1);
    }
  }

  /** A wall time the clock skips: at or past the reading at which change e strikes, before
      the reading it jumps to. */
  predicate Skipped(z: Zone, wall: int) {
    var e := EraOf(z, wall);
    e < |z.changes| && z.changes[e].at + Offset(z, e) <= wall
  }

  /** The offset before the k-th change. */
  function Before(z: Zone, k: nat): (offset: int)
    requires k < |z.changes|
  {
    if k == 0 then z.base else z.changes[k - 1].offset
  }

  /** In local time: the base offset up to the first change, then the offset of the last change so far. */
  lemma ToLocalIs(z: Zone, instant: int, k: nat)
    requires Separated(z) && k <= |z.changes|
    requires k > 0 ==> z.changes[k - 1].at <= instant
    requires k < |z.changes| ==> instant < z.changes[k].at
    ensures ToLocal(z, instant) == instant + if k == 0 then z.base else z.changes[k - 1].offset
  {
    EraIs(z, instant, k);
  }

  lemma EraOfIs(z: Zone, wall: int, e: nat)
    requires Separated(z) && e <= |z.changes|
    requires e > 0 ==> WallChange(z, e - 1) <= wall
    requires e < |z.changes| ==> wall < WallChange(z, e)
    ensures EraOf(z, wall) == e
  {
    var e' := EraOf(z, wall);
    if e' < e {
      InOrder(z, e', e - 1);
    } else if e < e' {
      InOrder(z, e, e' - 1);
    }
  }

  /** A wall time is skipped exactly when some change moves the clock from it, or before it, to past it; it is
      converted with the offset before that change. */
  lemma SkippedIff(z: Zone, wall: int)
    requires Separated(z)
    ensures Skipped(z, wall) <==> exists k: nat :: k < |z.changes| && JumpsOver(z, k, wall)
    ensures forall k: nat | k < |z.changes| && JumpsOver(z, k, wall) :: ToUtc(z, wall) == wall - Before(z, k)
  {
    forall k: nat | k < |z.changes| && JumpsOver(z, k, wall) ensures EraOf(z, wall) == k {
      if k > 0 {
        InOrder(z, k - 1, k);
        assert ApartAt(z, k);
      }
      EraOfIs(z, wall, k);
    }
    if Skipped(z, wall) {
      assert JumpsOver(z, EraOf(z, wall), wall);
    }
  }

  predicate JumpsOver(z: Zone, k: nat, wall: int)
    requires k < |z.changes|
  {
    z.changes[k].at + Before(z, k) <= wall < z.changes[k].at + z.changes[k].offset
  }

  /** The round-trip test rejects exactly the skipped wall times; an accepted one lies in its era. */
  lemma RealIffNotSkipped(z: Zone, wall: int)
    requires Separated(z)
    ensures IsReal(z, wall) <==> !Skipped(z, wall)
    ensures var e := EraOf(z, wall);
            && (e > 0 ==> z.changes[e - 1].at <= ToUtc(z, wall))
            && (e < |z.changes| && IsReal(z, wall) ==> ToUtc(z, wall) < z.changes[e].at)
            && (e < |z.changes| && !IsReal(z, wall) ==>
                  z.changes[e].at <= ToUtc(z, wall) < z.changes[e].at + Shift(z, e))
  {
    var e := EraOf(z, wall);
    var u := ToUtc(z, wall);
    if Skipped(z, wall) {
      if e + 1 < |z.changes| {
        InOrder(z, e, e + 1);
      }
      EraIs(z, u, e + 1);
    } else {
      EraIs(z, u, e);
    }
  }

  lemma ErasInOrder(z: Zone, a: int, b: int)
    requires Separated(z) && a <= b
    ensures EraOf(z, a) <= EraOf(z, b)
  {
    var i, j := EraOf(z, a), EraOf(z, b);
    if j < i {
      InOrder(z, j, i - 1);
    }
  }

  /** A real wall time comes, in UTC, before every later wall time. */
  lemma LaterIsLater(z: Zone, a: int, b: int)
    requires Separated(z) && IsReal(z, a) && a < b
    ensures ToUtc(z, a) < ToUtc(z, b)
  {
    var i, j := EraOf(z, a), EraOf(z, b);
    ErasInOrder(z, a, b);
    RealIffNotSkipped(z, a);
    RealIffNotSkipped(z, b);
    if i < j {
      InOrder(z, i, j - 1);
    }
  }

  /** No instant shows a skipped wall time, and none before ToUtc shows any wall time. */
  lemma FirstOccurrence(z: Zone, wall: int, instant: int)
    requires Separated(z) && ToLocal(z, instant) == wall
    ensures IsReal(z, wall) && ToUtc(z, wall) <= instant
  {
    var e, j := EraOf(z, wall), Era(z, instant, |z.changes|);
    if j < e {
      InOrder(z, j, e - 1);
    }
    RealIffNotSkipped(z, wall);
    if e < j {
      InOrder(z, e, j - 1);
    }
  }

  /** ToUtc is the first instant at which the clock shows the wall time, and the filter keeps
      exactly the wall times some clock reading shows. */
  lemma RealIffShown(z: Zone, wall: int)
    requires Separated(z)
    ensures IsReal(z, wall) <==> exists instant :: ToLocal(z, instant) == wall
    ensures forall instant :: ToLocal(z, instant) == wall ==> ToUtc(z, wall) <= instant
  {
    forall instant | ToLocal(z, instant) == wall
      ensures IsReal(z, wall) && ToUtc(z, wall) <= instant
    {
      FirstOccurrence(z, wall, instant);
    }
    if IsReal(z, wall) {
      assert ToLocal(z, ToUtc(z, wall)) == wall;
    }
  }

  /** A skipped end is at least the skipped stretch away from a start of a later era. */
  lemma FarEraStart(z: Zone, end: int, start: int)
    requires Separated(z) && Skipped(z, end) && EraOf(z, end) + 1 < EraOf(z, start)
    ensures start - end >= Shift(z, EraOf(z, end))
  {
    var e, j := EraOf(z, end), EraOf(z, start);
    InOrder(z, e, e + 1);
    InOrder(z, e + 1, j - 1);
  }

  /** A skipped end and a start in the very next era: their distance is compared with the jump. */
  lemma NextEraStart(z: Zone, end: int, start: int)
    requires EraOf(z, end) + 1 == EraOf(z, start)
    ensures ToUtc(z, end) <= ToUtc(z, start) <==> start - end >= Shift(z, EraOf(z, end))
  {
  }

  /** An end and a later real start keep their order in UTC exactly when the end is real, or
      the start is at least the skipped stretch's length after it. */
  lemma EndBeforeStartIff(z: Zone, end: int, start: int)
    requires Separated(z) && IsReal(z, start) && end <= start
    ensures ToUtc(z, end) <= ToUtc(z, start)
       <==> IsReal(z, end) || start - end >= Shift(z, EraOf(z, end))
  {
    RealIffNotSkipped(z, end);
    RealIffNotSkipped(z, start);
    ErasInOrder(z, end, start);
    var e, j := EraOf(z, end), EraOf(z, start);
    if IsReal(z, end) {
      if end < start {
        LaterIsLater(z, end, start);
      }
    } else if e + 1 == j {
      NextEraStart(z, end, start);
    } else {
      FarEraStart(z, end, start);
      InOrder(z, e, j - 1);
    }
  }
}
