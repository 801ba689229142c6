/** The interview_slots table under slot generation and booking
    (apps/api/app/routers_scheduling.py) and reminder runs (apps/api/app/routers_reminders.py). */
module SlotStore {
  import opened Common
  import Scheduling

  /** A row's position is its identity: rows are only ever added. */
  datatype Row = Row(
    org: nat, requisition: nat, start: int, end: int, open: bool, bookedFor: Option<string>,
    sent24h: Option<int>, sent1h: Option<int>)

  datatype Window = W24h | W1h

  const HOUR := 3_600_000_000

  function Windows(): (ws: seq<Window>)
    ensures |ws| == 2
  {
    [W24h, W1h]
  }

  function Span(w: Window): (span: int) {
    if w == W24h then 24 * HOUR else HOUR
  }

  function SentAt(row: Row, w: Window): (at: Option<int>) {
    if w == W24h then row.sent24h else row.sent1h
  }

  function Mark(row: Row, w: Window, now: int): (marked: Row) {
    if w == W24h then row.(sent24h := Some(now)) else row.(sent1h := Some(now))
  }

  /** A reminder sent for a slot. */
  datatype Sent = Sent(slot: nat, window: Window)

  // ----- generating -----

  function OpenStarts(rows: seq<Row>, requisition: nat): (starts: set<int>) {
    set row | row in rows && row.requisition == requisition && row.open :: row.start
  }

  function NewRow(org: nat, requisition: nat, slot: Scheduling.Slot): (row: Row) {
    Row(org, requisition, slot.start, slot.end, true, None, None, None)
  }

  function Added(existing: set<int>, org: nat, requisition: nat, slots: seq<Scheduling.Slot>): (added: seq<Row>) {
    if slots == [] then []
    else
      var k := |slots| - 1;
      Added(existing, org, requisition, slots[..k])
      + if slots[k].start in existing then [] else [NewRow(org, requisition, slots[k])]
  }

  function Generated(rows: seq<Row>, org: nat, requisition: nat, slots: seq<Scheduling.Slot>): (rows': seq<Row>) {
    rows + Added(OpenStarts(rows, requisition), org, requisition, slots)
  }

  // ----- reminding -----

  /** The row is picked by the query, and the window's reminder is due and unsent. */
  predicate Fires(row: Row, org: nat, now: int, w: Window) {
    row.org == org && !row.open && row.bookedFor.Some? && SentAt(row, w).None? && row.start <= now + Span(w)
  }

  function RemindRow(row: Row, org: nat, now: int, ws: seq<Window>): (row': Row) {
    if ws == [] then row
    else
      var before := RemindRow(row, org, now, ws[..|ws| - 1]);
      if Fires(before, org, now, ws[|ws| - 1]) then Mark(before, ws[|ws| - 1], now) else before
  }

  function RowSent(slot: nat, row: Row, org: nat, now: int, ws: seq<Window>): (sent: seq<Sent>) {
    if ws == [] then []
    else
      var w := ws[|ws| - 1];
      RowSent(slot, row, org, now, ws[..|ws| - 1])
      + if Fires(RemindRow(row, org, now, ws[..|ws| - 1]), org, now, w) then [Sent(slot, w)] else []
  }

  function Reminded(rows: seq<Row>, org: nat, now: int): (rows': seq<Row>) {
    seq(|rows|, i requires 0 <= i < |rows| => RemindRow(rows[i], org, now, Windows()))
  }

  function SentBy(rows: seq<Row>, org: nat, now: int): (sent: seq<Sent>) {
    if rows == [] then []
    else SentBy(rows[..|rows| - 1], org, now) + RowSent(|rows| - 1, rows[|rows| - 1], org, now, Windows())
  }

  // ----- the endpoints -----

  class Slots {
    var rows: seq<Row>

    constructor ()
      ensures rows == []
    {
      rows := [];
    }

    method Generate(org: nat, requisition: nat, slots: seq<Scheduling.Slot>) returns (created: nat)
      modifies this
      ensures rows == Generated(old(rows), org, requisition, slots)
      ensures created == |rows| - old(|rows|)
    {
      var existing := OpenStarts(rows, requisition);
      created := 0;
      ghost var was := rows;
      for i := 0 to |slots|
        invariant rows == was + Added(existing, org, requisition, slots[..i])
        invariant created == |rows| - |was|
      {
        assert slots[..i + 1][..i] == slots[..i];
        if slots[i].start in existing {
          continue;
        }
        rows := rows + [NewRow(org, requisition, slots[i])];
        created := created + 1;
      }
      assert slots[..|slots|] == slots;
    }

    /** email is the address lowered. */
    method Book(slot: nat, org: nat, email: string) returns (code: nat)
      modifies this
      ensures code == (if slot >= |old(rows)| || old(rows)[slot].org != org then 404
                       else if !old(rows)[slot].open then 409 else 200)
      ensures rows == Booked(old(rows), slot, org, email)
    {
      if slot >= |rows| || rows[slot].org != org { return 404; }
      if !rows[slot].open { return 409; }
      rows := rows[slot := rows[slot].(open := false, bookedFor := Some(email))];
      code := 200;
    }

    method RunReminders(org: nat, now: int) returns (sent: seq<Sent>)
      modifies this
      ensures rows == Reminded(old(rows), org, now)
      ensures sent == SentBy(old(rows), org, now)
    {
      sent := [];
      ghost var was := rows;
      for i := 0 to |rows|
        invariant |rows| == |was|
        invariant forall j | 0 <= j < i :: rows[j] == RemindRow(was[j], org, now, Windows())
        invariant forall j | i <= j < |rows| :: rows[j] == was[j]
        invariant sent == SentBy(was[..i], org, now)
      {
        ghost var rows0, sent0 := rows, sent;
        var ws := Windows();
        for k := 0 to |ws|
          invariant rows == rows0[i := RemindRow(was[i], org, now, ws[..k])]
          invariant sent == sent0 + RowSent(i, was[i], org, now, ws[..k])
        {
          assert ws[..k + 1][..k] == ws[..k];
          if Fires(rows[i], org, now, ws[k]) {
            rows := rows[i := Mark(rows[i], ws[k], now)];
            sent := sent + [Sent(i, ws[k])];
          }
        }
        assert ws[..|ws|] == ws && was[..i + 1][..i] == was[..i];
      }
      assert was[..|was|] == was;
    }
  }

  function Booked(rows: seq<Row>, slot: nat, org: nat, email: string): (rows': seq<Row>) {
    if slot < |rows| && rows[slot].org == org && rows[slot].open
    then rows[slot := rows[slot].(open := false, bookedFor := Some(email))] else rows
  }

  // ----- runs -----

  datatype Event =
    | Generate(org: nat, requisition: nat, slots: seq<Scheduling.Slot>)
    | Book(slot: nat, org: nat, email: string)
    | Remind(org: nat, now: int)

  datatype World = World(rows: seq<Row>, log: seq<Sent>)

  function Step(w: World, e: Event): (w': World) {
    match e
    case Generate(org, requisition, slots) => w.(rows := Generated(w.rows, org, requisition, slots))
    case Book(slot, org, email) => w.(rows := Booked(w.rows, slot, org, email))
    case Remind(org, now) => World(Reminded(w.rows, org, now), w.log + SentBy(w.rows, org, now))
  }

  function Run(events: seq<Event>): (w: World) {
    if events == [] then World([], [])
    else Step(Run(events[..|events| - 1]), events[|events| - 1])
  }

  /** Generation is only ever given what GenerateSlots returns, a listing strictly by start. */
  predicate Listings(events: seq<Event>) {
    forall e | e in events && e.Generate? :: Scheduling.StrictlyByStart(e.slots)
  }

  // ----- at most one open slot per requisition and start -----

  predicate OneOpen(rows: seq<Row>) {
    forall i, j | 0 <= i < j < |rows| && rows[i].open && rows[j].open && rows[i].requisition == rows[j].requisition ::
      rows[i].start != rows[j].start
  }

  lemma {:induction false} AddedRows(
    existing: set<int>, org: nat, requisition: nat, slots: seq<Scheduling.Slot>)
    requires DistinctBy(slots, Scheduling.StartOf)
    ensures var added := Added(existing, org, requisition, slots);
            && (forall row | row in added :: row.open && row.requisition == requisition && row.start !in existing)
            && (forall row | row in added :: exists s :: s in slots && row == NewRow(org, requisition, s))
            && (forall s | s in slots && s.start !in existing :: NewRow(org, requisition, s) in added)
            && OneOpen(added)
  {
    if slots != [] {
      var k := |slots| - 1;
      AddedRows(existing, org, requisition, slots[..k]);
      assert slots == slots[..k] + [slots[k]];
      var before := Added(existing, org, requisition, slots[..k]);
      forall i | 0 <= i < |before| ensures before[i].start != slots[k].start {
        assert before[i] in before;
        var s :| s in slots[..k] && before[i] == NewRow(org, requisition, s);
      }
    }
  }

  /** Generating keeps open slots unique, and leaves every listed start open. */
  lemma GenerateKeepsOneOpen(rows: seq<Row>, org: nat, requisition: nat, slots: seq<Scheduling.Slot>)
    requires OneOpen(rows) && DistinctBy(slots, Scheduling.StartOf)
    ensures OneOpen(Generated(rows, org, requisition, slots))
    ensures forall s | s in slots :: s.start in OpenStarts(Generated(rows, org, requisition, slots), requisition)
  {
    var existing := OpenStarts(rows, requisition);
    AddedRows(existing, org, requisition, slots);
    var added := Added(existing, org, requisition, slots);
    var all := rows + added;
    forall i, j | 0 <= i < j < |all| && all[i].open && all[j].open && all[i].requisition == all[j].requisition
      ensures all[i].start != all[j].start
    {
      if j >= |rows| {
        assert all[j] in added;
        if i < |rows| {
          assert all[i] in rows;
        } else {
          assert all[i] == added[i - |rows|] && all[j] == added[j - |rows|];
        }
      }
    }
    forall s | s in slots ensures s.start in OpenStarts(all, requisition) {
      if s.start in existing {
        var row :| row in rows && row.requisition == requisition && row.open && row.start == s.start;
        assert row in all;
      } else {
        assert NewRow(org, requisition, s) in all;
      }
    }
  }

  lemma {:induction false} RemindKeeps(row: Row, org: nat, now: int, ws: seq<Window>)
    ensures var row' := RemindRow(row, org, now, ws);
            row'.(sent24h := row.sent24h, sent1h := row.sent1h) == row
  {
    if ws != [] {
      RemindKeeps(row, org, now, ws[..|ws| - 1]);
    }
  }

  lemma {:induction false} EveryRunKeepsOneOpen(events: seq<Event>)
    requires Listings(events)
    ensures OneOpen(Run(events).rows)
  {
    if events != [] {
      var n := |events| - 1;
      assert events == events[..n] + [events[n]];
      EveryRunKeepsOneOpen(events[..n]);
      var before := Run(events[..n]);
      match events[n]
      case Generate(org, requisition, slots) => GenerateKeepsOneOpen(before.rows, org, requisition, slots);
      case Book(_, _, _) =>
      case Remind(org, now) =>
        forall i | 0 <= i < |before.rows|
          ensures var row, row' := before.rows[i], Reminded(before.rows, org, now)[i];
                  row'.(sent24h := row.sent24h, sent1h := row.sent1h) == row
        {
          RemindKeeps(before.rows[i], org, now, Windows());
        }
    }
  }

  // ----- reminders: once each, in order, and none forgotten -----

  /** The two windows written out. */
  lemma BothWindows(slot: nat, row: Row, org: nat, now: int)
    ensures RemindRow(row, org, now, Windows())
         == row.(sent24h := if Fires(row, org, now, W24h) then Some(now) else row.sent24h,
                 sent1h := if Fires(row, org, now, W1h) then Some(now) else row.sent1h)
    ensures RowSent(slot, row, org, now, Windows())
         == (if Fires(row, org, now, W24h) then [Sent(slot, W24h)] else [])
            + (if Fires(row, org, now, W1h) then [Sent(slot, W1h)] else [])
  {
    var none: seq<Window>, one, two := [], [W24h], Windows();
    assert two[..1] == one && one[..0] == none;
    assert RemindRow(row, org, now, none) == row && RowSent(slot, row, org, now, none) == [];
    assert one[0] == W24h && two[1] == W1h;
  }

  lemma RowSentCount(slot: nat, row: Row, org: nat, now: int, s: Sent)
    ensures multiset(RowSent(slot, row, org, now, Windows()))[s]
         == if s.slot == slot && Fires(row, org, now, s.window) then 1 else 0
  {
    BothWindows(slot, row, org, now);
  }

  lemma {:induction false} SentCount(rows: seq<Row>, org: nat, now: int, s: Sent)
    ensures multiset(SentBy(rows, org, now))[s]
         == if s.slot < |rows| && Fires(rows[s.slot], org, now, s.window) then 1 else 0
  {
    if rows != [] {
      var k := |rows| - 1;
      SentCount(rows[..k], org, now, s);
      RowSentCount(k, rows[k], org, now, s);
      MultisetOfSum(SentBy(rows[..k], org, now), RowSent(k, rows[k], org, now, Windows()), s);
    }
  }

  lemma MultisetOfSum(a: seq<Sent>, b: seq<Sent>, s: Sent)
    ensures multiset(a + b)[s] == multiset(a)[s] + multiset(b)[s]
  {
  }

  predicate IsMarked(rows: seq<Row>, s: Sent) {
    s.slot < |rows| && SentAt(rows[s.slot], s.window).Some?
  }

  /** Marked exactly when sent, and never sent twice. */
  ghost predicate Once(w: World) {
    forall s: Sent :: multiset(w.log)[s] == if IsMarked(w.rows, s) then 1 else 0
  }

  predicate MarkShows(row: Row, mark: Option<int>, w: Window, latest: int) {
    mark.Some? ==> !row.open && row.bookedFor.Some? && mark.value <= latest && row.start <= mark.value + Span(w)
  }

  /** What a marked row shows, by the latest run time: it was due, and the 24h reminder is no later. */
  predicate MarkedBy(row: Row, latest: int) {
    && MarkShows(row, row.sent24h, W24h, latest)
    && MarkShows(row, row.sent1h, W1h, latest)
    && (row.sent1h.Some? ==> row.sent24h.Some? && row.sent24h.value <= row.sent1h.value)
  }

  predicate RunTimesBy(events: seq<Event>, latest: int) {
    forall e | e in events && e.Remind? :: e.now <= latest
  }

  predicate InTimeOrder(events: seq<Event>) {
    forall i, j | 0 <= i < j < |events| && events[i].Remind? && events[j].Remind? :: events[i].now <= events[j].now
  }

  lemma RemindMarks(rows: seq<Row>, org: nat, now: int, s: Sent)
    ensures IsMarked(Reminded(rows, org, now), s)
       <==> IsMarked(rows, s) || (s.slot < |rows| && Fires(rows[s.slot], org, now, s.window))
  {
    if s.slot < |rows| {
      BothWindows(s.slot, rows[s.slot], org, now);
    }
  }

  lemma RemindKeepsOnce(w: World, org: nat, now: int)
    requires Once(w)
    ensures Once(Step(w, Remind(org, now)))
  {
    var w' := Step(w, Remind(org, now));
    forall s: Sent ensures multiset(w'.log)[s] == if IsMarked(w'.rows, s) then 1 else 0 {
      SentCount(w.rows, org, now, s);
      RemindMarks(w.rows, org, now, s);
      MultisetOfSum(w.log, SentBy(w.rows, org, now), s);
    }
  }

  lemma SameMarksKeepOnce(w: World, rows: seq<Row>)
    requires Once(w) && forall s: Sent :: IsMarked(rows, s) <==> IsMarked(w.rows, s)
    ensures Once(World(rows, w.log))
  {
  }

  /** Each reminder of each slot is sent at most once, and is on the log exactly when marked. */
  lemma {:induction false} SentOnce(events: seq<Event>)
    ensures Once(Run(events))
  {
    if events != [] {
      var n := |events| - 1;
      SentOnce(events[..n]);
      var before := Run(events[..n]);
      match events[n]
      case Generate(org, requisition, slots) =>
        var added := Added(OpenStarts(before.rows, requisition), org, requisition, slots);
        AddedUnmarked(OpenStarts(before.rows, requisition), org, requisition, slots);
        forall s: Sent ensures IsMarked(before.rows + added, s) <==> IsMarked(before.rows, s) {
          if |before.rows| <= s.slot < |before.rows + added| {
            assert (before.rows + added)[s.slot] in added;
          }
        }
        SameMarksKeepOnce(before, before.rows + added);
      case Book(slot, org, email) =>
        SameMarksKeepOnce(before, Booked(before.rows, slot, org, email));
      case Remind(org, now) =>
        RemindKeepsOnce(before, org, now);
    }
  }

  predicate MarkedNever(row: Row) {
    row.sent24h.None? && row.sent1h.None?
  }

  lemma {:induction false} AddedUnmarked(
    existing: set<int>, org: nat, requisition: nat, slots: seq<Scheduling.Slot>)
    ensures forall row | row in Added(existing, org, requisition, slots) :: MarkedNever(row)
  {
    if slots != [] {
      AddedUnmarked(existing, org, requisition, slots[..|slots| - 1]);
    }
  }

  /** With runs in time order, a 1h reminder is never sent before its 24h one. */
  lemma {:induction false} MarkedInOrder(events: seq<Event>, latest: int)
    requires InTimeOrder(events) && RunTimesBy(events, latest)
    ensures forall i | 0 <= i < |Run(events).rows| :: MarkedBy(Run(events).rows[i], latest)
  {
    if events != [] {
      var n := |events| - 1;
      assert events == events[..n] + [events[n]];
      var before, after := Run(events[..n]).rows, Run(events).rows;
      match events[n]
      case Generate(org, requisition, slots) =>
        MarkedInOrder(events[..n], latest);
        var existing := OpenStarts(before, requisition);
        AddedUnmarked(existing, org, requisition, slots);
        forall i | |before| <= i < |after| ensures MarkedNever(after[i]) {
          assert after[i] in Added(existing, org, requisition, slots);
        }
      case Book(_, _, _) =>
        MarkedInOrder(events[..n], latest);
      case Remind(org, now) =>
        forall e | e in events[..n] && e.Remind? ensures e.now <= now {
          var i :| 0 <= i < n && events[i] == e;
        }
        MarkedInOrder(events[..n], now);
        forall i | 0 <= i < |after| ensures MarkedBy(after[i], latest) {
          BothWindows(i, before[i], org, now);
        }
    }
  }

  function Unmarked(rows: seq<Row>): (rows': seq<Row>) {
    seq(|rows|, i requires 0 <= i < |rows| => rows[i].(sent24h := None, sent1h := None))
  }

  /** After a run, a row of the organization is marked for exactly the reminders due by then. */
  lemma MarkedIffDue(row: Row, org: nat, now: int, w: Window)
    requires row.org == org && MarkedBy(RemindRow(row, org, now, Windows()), now)
    ensures var row' := RemindRow(row, org, now, Windows());
            SentAt(row', w).Some? <==> Fires(row'.(sent24h := None, sent1h := None), org, now, w)
  {
    BothWindows(0, row, org, now);
  }

  /** None forgotten, none extra: after any schedule that ends in a run at the latest time, what
      has been sent for the organization is what that one run alone would send on the final bookings. */
  lemma SameAsOneRun(events: seq<Event>, org: nat, now: int, s: Sent)
    requires InTimeOrder(events + [Remind(org, now)])
    ensures var final := Run(events + [Remind(org, now)]);
            s.slot < |final.rows| && final.rows[s.slot].org == org ==>
              multiset(final.log)[s] == multiset(SentBy(Unmarked(final.rows), org, now))[s]
  {
    var all := events + [Remind(org, now)];
    assert all[..|events|] == events;
    forall e | e in all && e.Remind? ensures e.now <= now {
      var i :| 0 <= i < |all| && all[i] == e;
      assert all[|events|] == Remind(org, now);
    }
    MarkedInOrder(all, now);
    SentOnce(all);
    var rows := Run(events).rows;
    var final := Run(all);
    assert final == Step(Run(events), Remind(org, now));
    SentCount(Unmarked(final.rows), org, now, s);
    if s.slot < |final.rows| && final.rows[s.slot].org == org {
      RemindKeeps(rows[s.slot], org, now, Windows());
      MarkedIffDue(rows[s.slot], org, now, s.window);
    }
  }

  // ----- each event in terms of the columns -----

  /** The row is booked in the organization and starts within these hours. */
  predicate BookedWithin(row: Row, org: nat, now: int, hours: nat) {
    row.org == org && !row.open && row.bookedFor.Some? && row.start <= now + hours * 60 * 60 * 1_000_000
  }

  /** What a run does to a row, and which reminders it sends for it. */
  lemma RemindedIs(rows: seq<Row>, org: nat, now: int, i: nat)
    requires i < |rows|
    ensures var row := rows[i];
            var day, hour := BookedWithin(row, org, now, 24), BookedWithin(row, org, now, 1);
            && |Reminded(rows, org, now)| == |rows|
            && Reminded(rows, org, now)[i]
               == row.(sent24h := if day && row.sent24h.None? then Some(now) else row.sent24h,
                       sent1h := if hour && row.sent1h.None? then Some(now) else row.sent1h)
            && (Sent(i, W24h) in SentBy(rows, org, now) <==> day && row.sent24h.None?)
            && (Sent(i, W1h) in SentBy(rows, org, now) <==> hour && row.sent1h.None?)
  {
    BothWindows(i, rows[i], org, now);
    SentCount(rows, org, now, Sent(i, W24h));
    SentCount(rows, org, now, Sent(i, W1h));
  }

  /** After a run every booked slot of the organization that starts within a window has been reminded for it, and
      the run, or one before it, has sent that reminder. */
  lemma NobodyForgotten(events: seq<Event>, org: nat, now: int, i: nat)
    requires i < |Run(events).rows|
    ensures var w := Run(events + [Remind(org, now)]);
            var row := Run(events).rows[i];
            && (BookedWithin(row, org, now, 24) ==> w.rows[i].sent24h.Some? && Sent(i, W24h) in w.log)
            && (BookedWithin(row, org, now, 1) ==> w.rows[i].sent1h.Some? && Sent(i, W1h) in w.log)
  {
    var all := events + [Remind(org, now)];
    assert all[..|events|] == events;
    assert Run(all) == Step(Run(events), Remind(org, now));
    RemindedIs(Run(events).rows, org, now, i);
    SentOnce(all);
    assert multiset(Run(all).log)[Sent(i, W24h)] == if IsMarked(Run(all).rows, Sent(i, W24h)) then 1 else 0;
    assert multiset(Run(all).log)[Sent(i, W1h)] == if IsMarked(Run(all).rows, Sent(i, W1h)) then 1 else 0;
  }

  /** An open slot of the requisition already starts then. */
  predicate OpenAt(rows: seq<Row>, requisition: nat, start: int) {
    exists i | 0 <= i < |rows| :: rows[i].open && rows[i].requisition == requisition && rows[i].start == start
  }

  /** Generating keeps every row, and adds an open, unsent one for each slot whose start is not open yet. */
  lemma GeneratedIs(rows: seq<Row>, org: nat, requisition: nat, slots: seq<Scheduling.Slot>)
    requires Scheduling.StrictlyByStart(slots)
    ensures var added := Generated(rows, org, requisition, slots)[|rows|..];
            && Generated(rows, org, requisition, slots) == rows + added
            && forall row :: row in added <==>
                 exists s :: s in slots && !OpenAt(rows, requisition, s.start)
                             && row == Row(org, requisition, s.start, s.end, true, None, None, None)
  {
    var existing := OpenStarts(rows, requisition);
    var added := Added(existing, org, requisition, slots);
    AddedRows(existing, org, requisition, slots);
    forall start ensures start in existing <==> OpenAt(rows, requisition, start) {
      OpenStartsAre(rows, requisition, start);
    }
    assert Generated(rows, org, requisition, slots)[|rows|..] == added;
    forall s | s in slots
      ensures NewRow(org, requisition, s) == Row(org, requisition, s.start, s.end, true, None, None, None)
    {
    }
  }

  lemma OpenStartsAre(rows: seq<Row>, requisition: nat, start: int)
    ensures start in OpenStarts(rows, requisition) <==> OpenAt(rows, requisition, start)
  {
    if OpenAt(rows, requisition, start) {
      var i: nat :| i < |rows| && rows[i].open && rows[i].requisition == requisition && rows[i].start == start;
      assert rows[i] in rows;
    }
  }

  /** Booking changes an open slot of the organization, in two columns, and nothing else. */
  lemma BookedIs(rows: seq<Row>, slot: nat, org: nat, email: string)
    ensures var after := Booked(rows, slot, org, email);
            && |after| == |rows|
            && (forall i | 0 <= i < |rows| && (i != slot || rows[i].org != org || !rows[i].open) :: after[i] == rows[i])
            && (slot < |rows| && rows[slot].org == org && rows[slot].open ==>
                  after[slot] == rows[slot].(open := false, bookedFor := Some(email)))
  {
  }
}
