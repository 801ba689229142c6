/** Interview slot generation in the recruiter's local time, emitted in UTC
    (apps/api/app/scheduling.py). Dates are day ordinals, times microseconds. */
module Scheduling {
  import opened Common
  import opened Zone

  const DAY := 86_400_000_000

  datatype Rule = Rule(
    localStart: nat, localEnd: nat, duration: int, buffer: int, weekendDays: set<int>, excludedDates: set<int>)

  /** Times of day, and the lengths the API admits: a positive duration, no negative buffer. */
  predicate ValidRule(rule: Rule) {
    rule.localStart < DAY && rule.localEnd < DAY && rule.duration > 0 && rule.buffer >= 0
  }

  datatype Slot = Slot(start: int, end: int)

  function StartOf(slot: Slot): (start: int) {
    slot.start
  }

  /** Monday is 0, and the day of ordinal 1 is one. */
  function Weekday(day: int): (weekday: int) {
    (day + 6) % 7
  }

  predicate Allowed(rule: Rule, day: int) {
    Weekday(day) !in rule.weekendDays && day !in rule.excludedDates
  }

  function DayStart(rule: Rule, day: int): (wall: int) {
    day * DAY + rule.localStart
  }

  function DayEnd(rule: Rule, day: int): (wall: int) {
    day * DAY + rule.localEnd
  }

  // ----- the wall times tried -----

  function CursorsFrom(rule: Rule, day: int, cursor: int): (cursors: seq<int>)
    requires ValidRule(rule)
    decreases DayEnd(rule, day) - cursor
  {
    if cursor + rule.duration > DayEnd(rule, day) then []
    else [cursor] + CursorsFrom(rule, day, cursor + rule.duration + rule.buffer)
  }

  function DayCursors(rule: Rule, day: int): (cursors: seq<int>)
    requires ValidRule(rule)
  {
    if Allowed(rule, day) then CursorsFrom(rule, day, DayStart(rule, day)) else []
  }

  /** All wall times tried on the dates first..last. */
  function Cursors(rule: Rule, first: int, last: int): (cursors: seq<int>)
    requires ValidRule(rule)
    decreases last - first
  {
    if last < first then [] else Cursors(rule, first, last - 1) + DayCursors(rule, last)
  }

  // Which wall times those are, without walking through them.

  lemma WeekdayIs(day: int)
    ensures Weekday(1) == 0 && 0 <= Weekday(day) < 7
    ensures Weekday(day + 1) == if Weekday(day) == 6 then 0 else Weekday(day) + 1
  {
  }

  /** The k-th start of the day, a duration and a buffer after the one before, ends within the day's hours. */
  predicate Fits(rule: Rule, day: int, k: nat, wall: int) {
    var midnight := day * 24 * 60 * 60 * 1_000_000;
    && wall == midnight + rule.localStart + k * (rule.duration + rule.buffer)
    && wall + rule.duration <= midnight + rule.localEnd
  }

  /** The date is on none of the rule's off days. */
  predicate WorkingDate(rule: Rule, day: int) {
    (forall d | d in rule.excludedDates :: d != day) && (forall w | w in rule.weekendDays :: w != Weekday(day))
  }

  /** A start on a working date of the range. */
  ghost predicate Offered(rule: Rule, first: int, last: int, wall: int) {
    exists day, k: nat :: first <= day <= last && WorkingDate(rule, day) && Fits(rule, day, k, wall)
  }

  /** The k-th start from this cursor on. */
  predicate StepAt(rule: Rule, day: int, cursor: int, k: nat, wall: int) {
    wall == cursor + k * (rule.duration + rule.buffer) && wall + rule.duration <= DayEnd(rule, day)
  }

  ghost predicate StepsOn(rule: Rule, day: int, cursor: int, wall: int) {
    exists k: nat :: StepAt(rule, day, cursor, k, wall)
  }

  lemma StepsOnFrom(rule: Rule, day: int, cursor: int, wall: int)
    requires ValidRule(rule)
    ensures StepsOn(rule, day, cursor, wall) <==>
            cursor + rule.duration <= DayEnd(rule, day)
            && (wall == cursor || StepsOn(rule, day, cursor + rule.duration + rule.buffer, wall))
  {
    var step := rule.duration + rule.buffer;
    var next := cursor + rule.duration + rule.buffer;
    if k: nat :| StepAt(rule, day, cursor, k, wall) {
      TimesStep(k, step);
      if k > 0 {
        assert StepAt(rule, day, next, k - 1, wall);
      }
    }
    if k: nat :| StepAt(rule, day, next, k, wall) {
      TimesStep(k + 1, step);
      assert StepAt(rule, day, cursor, k + 1, wall);
    }
    if wall == cursor && cursor + rule.duration <= DayEnd(rule, day) {
      assert StepAt(rule, day, cursor, 0, wall);
    }
  }

  lemma TimesStep(k: nat, step: int)
    requires step > 0
    ensures k * step >= 0 && (k > 0 ==> k * step == step + (k - 1) * step)
  {
  }

  lemma {:induction false} CursorsFromAre(rule: Rule, day: int, cursor: int, wall: int)
    requires ValidRule(rule)
    ensures wall in CursorsFrom(rule, day, cursor) <==> StepsOn(rule, day, cursor, wall)
    decreases DayEnd(rule, day) - cursor
  {
    StepsOnFrom(rule, day, cursor, wall);
    if cursor + rule.duration <= DayEnd(rule, day) {
      CursorsFromAre(rule, day, cursor + rule.duration + rule.buffer, wall);
    }
  }

  lemma FitsIff(rule: Rule, day: int, wall: int)
    ensures StepsOn(rule, day, DayStart(rule, day), wall) <==> exists k: nat :: Fits(rule, day, k, wall)
  {
    assert forall k: nat :: StepAt(rule, day, DayStart(rule, day), k, wall) <==> Fits(rule, day, k, wall);
  }

  lemma DayCursorsAre(rule: Rule, day: int, wall: int)
    requires ValidRule(rule)
    ensures wall in DayCursors(rule, day) <==> WorkingDate(rule, day) && exists k: nat :: Fits(rule, day, k, wall)
  {
    CursorsFromAre(rule, day, DayStart(rule, day), wall);
    FitsIff(rule, day, wall);
  }

  /** The wall times tried are exactly those offered by the rule on the range's dates. */
  lemma {:induction false} CursorsAre(rule: Rule, first: int, last: int, wall: int)
    requires ValidRule(rule)
    ensures wall in Cursors(rule, first, last) <==> Offered(rule, first, last, wall)
    decreases last - first
  {
    if last < first {
      assert Cursors(rule, first, last) == [];
    } else {
      CursorsAre(rule, first, last - 1, wall);
      DayCursorsAre(rule, last, wall);
      if k: nat :| WorkingDate(rule, last) && Fits(rule, last, k, wall) {
        assert Offered(rule, first, last, wall);
      }
      if Offered(rule, first, last, wall) {
        var day, k: nat :| first <= day <= last && WorkingDate(rule, day) && Fits(rule, day, k, wall);
        assert day < last ==> Offered(rule, first, last - 1, wall);
      }
    }
  }

  /** Each leaves room for the one before it to end. */
  predicate Spaced(rule: Rule, cursors: seq<int>) {
    forall i, j | 0 <= i < j < |cursors| :: cursors[i] + rule.duration <= cursors[j]
  }

  lemma {:induction false} CursorsFromSpaced(rule: Rule, day: int, cursor: int)
    requires ValidRule(rule)
    ensures Spaced(rule, CursorsFrom(rule, day, cursor))
    ensures forall c | c in CursorsFrom(rule, day, cursor) :: cursor <= c && c + rule.duration <= DayEnd(rule, day)
    decreases DayEnd(rule, day) - cursor
  {
    if cursor + rule.duration <= DayEnd(rule, day) {
      var later := CursorsFrom(rule, day, cursor + rule.duration + rule.buffer);
      CursorsFromSpaced(rule, day, cursor + rule.duration + rule.buffer);
      forall j | 0 <= j < |later| ensures cursor + rule.duration <= later[j] {
        assert later[j] in later;
      }
    }
  }

  lemma {:induction false} CursorsSpaced(rule: Rule, first: int, last: int)
    requires ValidRule(rule)
    ensures Spaced(rule, Cursors(rule, first, last))
    ensures forall c | c in Cursors(rule, first, last) :: c + rule.duration < (last + 1) * DAY
    decreases last - first
  {
    if first <= last {
      CursorsSpaced(rule, first, last - 1);
      CursorsFromSpaced(rule, last, DayStart(rule, last));
      var before, today := Cursors(rule, first, last - 1), DayCursors(rule, last);
      forall i, j | 0 <= i < |before| && 0 <= j < |today| ensures before[i] + rule.duration <= today[j] {
        assert before[i] in before && today[j] in today;
      }
    }
  }

  // ----- the slots emitted -----

  function SlotAt(z: Zone, rule: Rule, cursor: int): (slot: Slot) {
    Slot(ToUtc(z, cursor), ToUtc(z, cursor + rule.duration))
  }

  function RealOnes(z: Zone, cursors: seq<int>): (kept: seq<int>) {
    if cursors == [] then []
    else
      var k := |cursors| - 1;
      RealOnes(z, cursors[..k]) + if IsReal(z, cursors[k]) then [cursors[k]] else []
  }

  function Emit(z: Zone, rule: Rule, cursors: seq<int>): (slots: seq<Slot>) {
    var kept := RealOnes(z, cursors);
    seq(|kept|, i requires 0 <= i < |kept| => SlotAt(z, rule, kept[i]))
  }

  lemma {:induction false} RealOnesSpaced(z: Zone, rule: Rule, cursors: seq<int>)
    requires Spaced(rule, cursors)
    ensures Spaced(rule, RealOnes(z, cursors))
    ensures forall c :: c in RealOnes(z, cursors) <==> c in cursors && IsReal(z, c)
  {
    if cursors != [] {
      var k := |cursors| - 1;
      RealOnesSpaced(z, rule, cursors[..k]);
      assert cursors == cursors[..k] + [cursors[k]];
      var kept := RealOnes(z, cursors[..k]);
      forall i | 0 <= i < |kept| ensures kept[i] + rule.duration <= cursors[k] {
        assert kept[i] in kept;
      }
    }
  }

  lemma EmitOneMore(z: Zone, rule: Rule, cursors: seq<int>, cursor: int)
    ensures Emit(z, rule, cursors + [cursor])
         == Emit(z, rule, cursors) + if IsReal(z, cursor) then [SlotAt(z, rule, cursor)] else []
  {
    assert (cursors + [cursor])[..|cursors|] == cursors;
  }

  predicate StrictlyByStart(slots: seq<Slot>) {
    forall i, j | 0 <= i < j < |slots| :: slots[i].start < slots[j].start
  }

  /** In every zone the real-wall-time filter alone keeps the starts distinct. */
  lemma EmitDistinct(z: Zone, rule: Rule, cursors: seq<int>)
    requires ValidRule(rule) && Spaced(rule, cursors)
    ensures DistinctBy(Emit(z, rule, cursors), StartOf)
  {
    RealOnesSpaced(z, rule, cursors);
    var kept := RealOnes(z, cursors);
    forall i, j | 0 <= i < j < |kept| ensures ToUtc(z, kept[i]) != ToUtc(z, kept[j]) {
      assert kept[i] in kept && kept[j] in kept;
      if ToUtc(z, kept[i]) == ToUtc(z, kept[j]) {
        RealIsInjective(z, kept[i], kept[j]);
      }
    }
  }

  // ----- list.sort by start -----

  function SortSlots(slots: seq<Slot>): (sorted: seq<Slot>) {
    SortBy(slots, StartOf)
  }

  lemma SortSorts(slots: seq<Slot>)
    requires DistinctBy(slots, StartOf)
    ensures StrictlyByStart(SortSlots(slots)) && |SortSlots(slots)| == |slots|
    ensures forall s :: s in SortSlots(slots) <==> s in slots
  {
    SortOrders(slots, StartOf);
    SortKeepsDistinct(slots, StartOf, StartOf);
    var sorted := SortSlots(slots);
    forall i, j | 0 <= i < j < |sorted| ensures sorted[i].start < sorted[j].start {
      assert StartOf(sorted[i]) <= StartOf(sorted[j]) && StartOf(sorted[i]) != StartOf(sorted[j]);
    }
  }

  lemma SortKeepsSorted(slots: seq<Slot>)
    requires StrictlyByStart(slots)
    ensures SortSlots(slots) == slots
  {
    SortKeepsOrdered(slots, StartOf);
  }

  // ----- the generator -----

  function Starts(slots: seq<Slot>): (starts: set<int>) {
    set s | s in slots :: s.start
  }

  lemma NewStart(slots: seq<Slot>, candidate: Slot)
    requires DistinctBy(slots + [candidate], StartOf)
    ensures candidate.start !in Starts(slots)
    ensures Starts(slots + [candidate]) == Starts(slots) + {candidate.start}
  {
    var all := slots + [candidate];
    forall s | s in slots ensures s.start != candidate.start && s in all {
      var i :| 0 <= i < |slots| && slots[i] == s;
      assert all[i] == s && all[|slots|] == candidate;
    }
    assert all[|slots|] in all;
  }

  /** The innermost step: filter, convert, and drop a start already seen. */
  method TryCursor(z: Zone, rule: Rule, cursor: int, slots: seq<Slot>, seen: set<int>, ghost tried: seq<int>)
    returns (slots': seq<Slot>, seen': set<int>)
    requires ValidRule(rule) && Spaced(rule, tried + [cursor])
    requires Emitted(z, rule, tried, slots, seen)
    ensures Emitted(z, rule, tried + [cursor], slots', seen')
  {
    slots', seen' := slots, seen;
    EmitOneMore(z, rule, tried, cursor);
    if IsReal(z, cursor) {
      var candidate := Slot(ToUtc(z, cursor), ToUtc(z, cursor + rule.duration));
      EmitDistinct(z, rule, tried + [cursor]);
      assert slots + [candidate] == Emit(z, rule, tried + [cursor]);
      NewStart(slots, candidate);
      if candidate.start !in seen {
        seen' := seen + {candidate.start};
        slots' := slots + [candidate];
      }
    }
  }

  /** What a request for slots comes to: a listing, or one of the two errors. */
  datatype Generated = Listing(slots: seq<Slot>) | ReversedDates | UnknownZone

  /** Exactly one slot per real wall time tried, strictly by start; zones is the time zone database. */
  method GenerateSlots(rule: Rule, first: int, last: int, zones: map<string, Zone>, name: string)
    returns (g: Generated)
    requires ValidRule(rule)
    ensures g.ReversedDates? <==> first > last
    ensures g.UnknownZone? <==> first <= last && name !in zones
    ensures g.Listing? ==> g.slots == SortSlots(Emit(zones[name], rule, Cursors(rule, first, last)))
    ensures g.Listing? ==> StrictlyByStart(g.slots)
    ensures g.Listing? ==> forall i, j | 0 <= i < j < |g.slots| :: g.slots[i].start < g.slots[j].start
    ensures g.Listing? ==> forall s :: s in g.slots <==> SlotOffered(zones[name], rule, first, last, s)
  {
    if first > last {
      return ReversedDates;
    }
    if name !in zones {
      return UnknownZone;
    }
    var slots := GenerateListing(rule, first, last, zones[name]);
    ListingIsOffered(zones[name], rule, first, last);
    g := Listing(slots);
  }

  /** The slots of all the dates, sorted. */
  method GenerateListing(rule: Rule, first: int, last: int, z: Zone) returns (listing: seq<Slot>)
    requires ValidRule(rule) && first <= last
    ensures listing == SortSlots(Emit(z, rule, Cursors(rule, first, last)))
  {
    var slots := GenerateDays(rule, first, last, z);
    listing := SortSlots(slots);
  }

  /** What the loops keep: the slots of the wall times tried so far, and their starts. */
  predicate Emitted(z: Zone, rule: Rule, tried: seq<int>, slots: seq<Slot>, seen: set<int>) {
    slots == Emit(z, rule, tried) && seen == Starts(slots)
  }

  lemma NothingYet(z: Zone, rule: Rule)
    ensures Emitted(z, rule, [], [], {})
  {
  }

  /** The loop over the dates; before is the last one done. */
  method GenerateDays(rule: Rule, first: int, last: int, z: Zone) returns (slots: seq<Slot>)
    requires ValidRule(rule) && first <= last
    ensures slots == Emit(z, rule, Cursors(rule, first, last))
  {
    NothingYet(z, rule);
    var seen: set<int> := {};
    slots := [];
    var current := first;
    ghost var before := first - 1;
    while current <= last
      invariant first <= current <= last + 1 && before == current - 1
      invariant Emitted(z, rule, Cursors(rule, first, before), slots, seen)
    {
      slots, seen := GenerateDate(rule, first, before, current, z, slots, seen);
      before := current;
      current := current + 1;
    }
    assert before == last;
  }

  lemma NextDate(rule: Rule, first: int, day: int, tried: seq<int>)
    requires ValidRule(rule) && first <= day && tried == Cursors(rule, first, day - 1)
    ensures tried + DayCursors(rule, day) == Cursors(rule, first, day)
    ensures Spaced(rule, tried + DayCursors(rule, day))
  {
    CursorsSpaced(rule, first, day);
  }

  /** One date: its slots, if it is allowed. */
  method GenerateDate(
    rule: Rule, ghost first: int, ghost before: int, current: int, z: Zone, slots: seq<Slot>, seen: set<int>)
    returns (slots': seq<Slot>, seen': set<int>)
    requires ValidRule(rule) && first <= current && before == current - 1
    requires Emitted(z, rule, Cursors(rule, first, before), slots, seen)
    ensures Emitted(z, rule, Cursors(rule, first, current), slots', seen')
  {
    ghost var tried := Cursors(rule, first, before);
    NextDate(rule, first, current, tried);
    if Allowed(rule, current) {
      slots', seen' := TryDay(rule, current, z, slots, seen, tried);
    } else {
      assert tried + DayCursors(rule, current) == tried;
      slots', seen' := slots, seen;
    }
  }

  method TryDay(rule: Rule, current: int, z: Zone, slots: seq<Slot>, seen: set<int>, ghost before: seq<int>)
    returns (slots': seq<Slot>, seen': set<int>)
    requires ValidRule(rule) && Spaced(rule, before + CursorsFrom(rule, current, DayStart(rule, current)))
    requires Emitted(z, rule, before, slots, seen)
    ensures Emitted(z, rule, before + CursorsFrom(rule, current, DayStart(rule, current)), slots', seen')
  {
    slots', seen' := slots, seen;
    var dayEnd := DayEnd(rule, current);
    var cursor := DayStart(rule, current);
    ghost var all := before + CursorsFrom(rule, current, cursor);
    ghost var tried := before;
    while cursor + rule.duration <= dayEnd
      invariant tried + CursorsFrom(rule, current, cursor) == all
      invariant Emitted(z, rule, tried, slots', seen')
      decreases dayEnd - cursor
    {
      NextCursor(rule, current, cursor, tried, all);
      slots', seen' := TryCursor(z, rule, cursor, slots', seen', tried);
      tried := tried + [cursor];
      cursor := cursor + rule.duration + rule.buffer;
    }
    assert CursorsFrom(rule, current, cursor) == [] && tried + [] == tried;
  }

  lemma Regroup(a: seq<int>, x: int, b: seq<int>)
    ensures a + [x] + b == a + ([x] + b)
  {
  }

  lemma SpacedPrefix(rule: Rule, a: seq<int>, b: seq<int>)
    requires Spaced(rule, a + b)
    ensures Spaced(rule, a)
  {
    assert forall i | 0 <= i < |a| :: (a + b)[i] == a[i];
  }

  lemma NextCursor(rule: Rule, day: int, cursor: int, tried: seq<int>, all: seq<int>)
    requires ValidRule(rule) && cursor + rule.duration <= DayEnd(rule, day)
    requires tried + CursorsFrom(rule, day, cursor) == all && Spaced(rule, all)
    ensures tried + [cursor] + CursorsFrom(rule, day, cursor + rule.duration + rule.buffer) == all
    ensures Spaced(rule, tried + [cursor])
  {
    var later := CursorsFrom(rule, day, cursor + rule.duration + rule.buffer);
    Regroup(tried, cursor, later);
    SpacedPrefix(rule, tried + [cursor], later);
  }

  ghost predicate EmittedAt(z: Zone, rule: Rule, cursors: seq<int>, s: Slot) {
    exists c :: c in cursors && IsReal(z, c) && s == SlotAt(z, rule, c)
  }

  lemma EmittedFrom(z: Zone, rule: Rule, cursors: seq<int>, s: Slot)
    requires Spaced(rule, cursors)
    ensures s in Emit(z, rule, cursors) <==> EmittedAt(z, rule, cursors, s)
  {
    RealOnesSpaced(z, rule, cursors);
    var kept, emitted := RealOnes(z, cursors), Emit(z, rule, cursors);
    if s in emitted {
      var i :| 0 <= i < |emitted| && emitted[i] == s;
      assert kept[i] in kept;
    }
    if c :| c in cursors && IsReal(z, c) && s == SlotAt(z, rule, c) {
      var i :| 0 <= i < |kept| && kept[i] == c;
      assert emitted[i] == s;
    }
  }

  lemma ListingIs(z: Zone, rule: Rule, first: int, last: int)
    requires ValidRule(rule)
    ensures var cursors := Cursors(rule, first, last);
            var listing := SortSlots(Emit(z, rule, cursors));
            && StrictlyByStart(listing)
            && forall s :: s in listing <==> EmittedAt(z, rule, cursors, s)
  {
    var cursors := Cursors(rule, first, last);
    CursorsSpaced(rule, first, last);
    EmitDistinct(z, rule, cursors);
    SortSorts(Emit(z, rule, cursors));
    RealOnesSpaced(z, rule, cursors);
    var emitted := Emit(z, rule, cursors);
    forall s ensures s in emitted <==> EmittedAt(z, rule, cursors, s) {
      EmittedFrom(z, rule, cursors, s);
    }
  }

  /** The slot runs from an offered real wall time to the end of its duration, both in UTC. */
  ghost predicate SlotOffered(z: Zone, rule: Rule, first: int, last: int, s: Slot) {
    exists wall :: Offered(rule, first, last, wall) && RunsFrom(z, rule, wall, s)
  }

  /** From this wall time to the end of its duration, in UTC. */
  predicate RunsFrom(z: Zone, rule: Rule, wall: int, s: Slot) {
    IsReal(z, wall) && s.start == ToUtc(z, wall) && s.end == ToUtc(z, wall + rule.duration)
  }

  lemma RunsFromCursor(z: Zone, rule: Rule, cursors: seq<int>, wall: int, s: Slot)
    requires wall in cursors && RunsFrom(z, rule, wall, s)
    ensures EmittedAt(z, rule, cursors, s)
  {
    assert s == SlotAt(z, rule, wall);
  }

  lemma OfferedIsEmitted(z: Zone, rule: Rule, first: int, last: int, s: Slot)
    requires ValidRule(rule) && SlotOffered(z, rule, first, last, s)
    ensures EmittedAt(z, rule, Cursors(rule, first, last), s)
  {
    var wall :| Offered(rule, first, last, wall) && RunsFrom(z, rule, wall, s);
    CursorsAre(rule, first, last, wall);
    RunsFromCursor(z, rule, Cursors(rule, first, last), wall, s);
  }

  lemma EmittedIsOffered(z: Zone, rule: Rule, first: int, last: int, s: Slot)
    requires ValidRule(rule) && EmittedAt(z, rule, Cursors(rule, first, last), s)
    ensures SlotOffered(z, rule, first, last, s)
  {
    var c :| c in Cursors(rule, first, last) && IsReal(z, c) && s == SlotAt(z, rule, c);
    CursorsAre(rule, first, last, c);
  }

  lemma ListingIsOffered(z: Zone, rule: Rule, first: int, last: int)
    requires ValidRule(rule)
    ensures var listing := SortSlots(Emit(z, rule, Cursors(rule, first, last)));
            StrictlyByStart(listing) && forall s :: s in listing <==> SlotOffered(z, rule, first, last, s)
  {
    ListingIs(z, rule, first, last);
    forall s ensures EmittedAt(z, rule, Cursors(rule, first, last), s) <==> SlotOffered(z, rule, first, last, s) {
      if EmittedAt(z, rule, Cursors(rule, first, last), s) {
        EmittedIsOffered(z, rule, first, last, s);
      } else if SlotOffered(z, rule, first, last, s) {
        OfferedIsEmitted(z, rule, first, last, s);
      }
    }
  }

  // ----- what separated changes add -----

  lemma KeptPair(z: Zone, rule: Rule, cursors: seq<int>, i: nat, j: nat)
    requires Spaced(rule, cursors) && i < j < |RealOnes(z, cursors)|
    ensures var kept := RealOnes(z, cursors);
            && IsReal(z, kept[i]) && IsReal(z, kept[j]) && kept[i] + rule.duration <= kept[j]
            && kept[i] in cursors && kept[j] in cursors
  {
    RealOnesSpaced(z, rule, cursors);
    var kept := RealOnes(z, cursors);
    assert kept[i] in kept && kept[j] in kept;
  }

  /** The listing comes out in order already: sorting changes nothing. */
  lemma EmittedInOrder(z: Zone, rule: Rule, cursors: seq<int>)
    requires ValidRule(rule) && Separated(z) && Spaced(rule, cursors)
    ensures StrictlyByStart(Emit(z, rule, cursors))
    ensures SortSlots(Emit(z, rule, cursors)) == Emit(z, rule, cursors)
  {
    var kept := RealOnes(z, cursors);
    forall i, j | 0 <= i < j < |kept| ensures ToUtc(z, kept[i]) < ToUtc(z, kept[j]) {
      KeptPair(z, rule, cursors, i, j);
      LaterIsLater(z, kept[i], kept[j]);
    }
    SortKeepsSorted(Emit(z, rule, cursors));
  }

  /** The slot tried at a would end inside a skipped stretch, and the one at b starts before that
      stretch's length has gone by. */
  predicate Collide(z: Zone, rule: Rule, a: int, b: int) {
    var end := a + rule.duration;
    !IsReal(z, end) && EraOf(z, end) < |z.changes| && b - end < Shift(z, EraOf(z, end))
  }

  /** Two real wall times a full duration apart: each slot ends after it starts, and they overlap
      in UTC exactly when they collide. */
  lemma OverlapIffCollide(z: Zone, rule: Rule, a: int, b: int)
    requires ValidRule(rule) && Separated(z) && IsReal(z, a) && IsReal(z, b) && a + rule.duration <= b
    ensures SlotAt(z, rule, a).start < SlotAt(z, rule, a).end
    ensures SlotAt(z, rule, b).start < SlotAt(z, rule, a).end <==> Collide(z, rule, a, b)
  {
    var end := a + rule.duration;
    LaterIsLater(z, a, end);
    RealIffNotSkipped(z, end);
    EndBeforeStartIff(z, end, b);
  }

  /** The i-th slot of a listing ends after the j-th starts, for i < j. */
  predicate Overlap(slots: seq<Slot>, i: nat, j: nat)
    requires i < j < |slots|
  {
    slots[j].start < slots[i].end
  }

  lemma KeptOverlap(z: Zone, rule: Rule, cursors: seq<int>, i: nat, j: nat)
    requires ValidRule(rule) && Separated(z) && Spaced(rule, cursors) && i < j < |RealOnes(z, cursors)|
    ensures var kept := RealOnes(z, cursors);
            Overlap(Emit(z, rule, cursors), i, j) <==> Collide(z, rule, kept[i], kept[j])
  {
    KeptPair(z, rule, cursors, i, j);
    OverlapIffCollide(z, rule, RealOnes(z, cursors)[i], RealOnes(z, cursors)[j]);
  }

  lemma KeptIsReal(z: Zone, rule: Rule, cursors: seq<int>, i: nat)
    requires Spaced(rule, cursors) && i < |RealOnes(z, cursors)|
    ensures IsReal(z, RealOnes(z, cursors)[i])
  {
    RealOnesSpaced(z, rule, cursors);
    assert RealOnes(z, cursors)[i] in RealOnes(z, cursors);
  }

  lemma EmittedEndsLater(z: Zone, rule: Rule, cursors: seq<int>, i: nat)
    requires ValidRule(rule) && Separated(z) && Spaced(rule, cursors) && i < |RealOnes(z, cursors)|
    ensures var s := Emit(z, rule, cursors)[i]; s.start < s.end
  {
    var a := RealOnes(z, cursors)[i];
    KeptIsReal(z, rule, cursors, i);
    LaterIsLater(z, a, a + rule.duration);
  }

  /** In a listing every slot ends after it starts, and two slots overlap exactly when the wall
      times they come from collide: never, then, when the local ends are real. */
  lemma NoOverlapIff(z: Zone, rule: Rule, first: int, last: int)
    requires ValidRule(rule) && Separated(z)
    ensures var kept := RealOnes(z, Cursors(rule, first, last));
            var slots := SortSlots(Emit(z, rule, Cursors(rule, first, last)));
            && |slots| == |kept|
            && (forall i | 0 <= i < |slots| :: slots[i].start < slots[i].end)
            && forall i, j | 0 <= i < j < |slots| :: Overlap(slots, i, j) <==> Collide(z, rule, kept[i], kept[j])
  {
    var cursors := Cursors(rule, first, last);
    CursorsSpaced(rule, first, last);
    EmittedInOrder(z, rule, cursors);
    var kept, slots := RealOnes(z, cursors), Emit(z, rule, cursors);
    forall i | 0 <= i < |slots| ensures slots[i].start < slots[i].end {
      EmittedEndsLater(z, rule, cursors, i);
    }
    forall i, j | 0 <= i < j < |slots| ensures Overlap(slots, i, j) <==> Collide(z, rule, kept[i], kept[j]) {
      KeptOverlap(z, rule, cursors, i, j);
    }
  }

  /** Without it they can: clocks go from 02:00 to 03:00, the 01:30 slot of 45 minutes should end at
      the skipped 02:15, and it ends a quarter of an hour into the slot that starts at 03:00. */
  lemma SkippedEndOverlaps()
    ensures var m := 60_000_000;
            var z := Zone(0, [Change(DAY + 120 * m, 60 * m)]);
            var rule := Rule(0, 300 * m, 45 * m, 0, {}, {});
            && ValidRule(rule) && Separated(z)
            && Cursors(rule, 1, 1)
               == [DAY, DAY + 45 * m, DAY + 90 * m, DAY + 135 * m, DAY + 180 * m, DAY + 225 * m]
            && IsReal(z, DAY + 90 * m) && IsReal(z, DAY + 180 * m)
            && SlotAt(z, rule, DAY + 180 * m).start == DAY + 120 * m
            && SlotAt(z, rule, DAY + 90 * m).end == DAY + 135 * m
  {
    var m := 60_000_000;
    var rule := Rule(0, 300 * m, 45 * m, 0, {}, {});
    assert Cursors(rule, 1, 0) == [];
    assert CursorsFrom(rule, 1, DAY + 270 * m) == [];
    assert CursorsFrom(rule, 1, DAY + 180 * m) == [DAY + 180 * m, DAY + 225 * m];
    assert CursorsFrom(rule, 1, DAY + 90 * m) == [DAY + 90 * m, DAY + 135 * m, DAY + 180 * m, DAY + 225 * m];
    assert CursorsFrom(rule, 1, DAY)
        == [DAY, DAY + 45 * m, DAY + 90 * m, DAY + 135 * m, DAY + 180 * m, DAY + 225 * m];
  }
}
