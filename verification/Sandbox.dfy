/** The sandbox's pool of uids (services/sandbox-runner/app/executors.py) and the
    acquire-run-release protocol of concurrent executions (services/sandbox-runner/app/main.py). */
module Sandbox {
  import opened Common

  function Range(start: int, size: nat): (uids: seq<int>) {
    seq(size, i => start + i)
  }

  /** Without the element at this position. */
  function Removed<T>(s: seq<T>, position: nat): (rest: seq<T>)
    requires position < |s|
  {
    s[..position] + s[position + 1..]
  }

  /** The pool: a FIFO queue of free uids, and the executions suspended in acquire, in order of asking. */
  class UidPool {
    const gid: int
    var available: seq<int>
    var waiting: seq<nat>

    constructor (startUid: int, size: nat, gid: int)
      requires size >= 1
      ensures this.gid == gid && available == Range(startUid, size) && waiting == []
    {
      this.gid := gid;
      waiting := [];
      var queue: seq<int> := [];
      for offset := 0 to size
        invariant queue == Range(startUid, offset)
      {
        queue := queue + [startUid + offset];
      }
      available := queue;
    }

    /** None: no uid is free, and the execution is suspended. */
    method Acquire(run: nat) returns (uid: Option<int>)
      modifies this`available, this`waiting
      ensures old(available) == [] ==> uid == None && available == [] && waiting == old(waiting) + [run]
      ensures old(available) != [] ==>
                uid == Some(old(available)[0]) && available == old(available)[1..] && waiting == old(waiting)
    {
      if available == [] {
        waiting := waiting + [run];
        return None;
      }
      uid := Some(available[0]);
      available := available[1..];
    }

    /** A suspended execution wakes up: it takes a uid, or, overtaken, waits again behind the others. */
    method Resume(position: nat) returns (uid: Option<int>)
      requires position < |waiting|
      modifies this`available, this`waiting
      ensures old(available) == [] ==>
                uid == None && available == []
                && waiting == Removed(old(waiting), position) + [old(waiting)[position]]
      ensures old(available) != [] ==>
                uid == Some(old(available)[0]) && available == old(available)[1..]
                && waiting == Removed(old(waiting), position)
    {
      var run := waiting[position];
      waiting := Removed(waiting, position);
      uid := Acquire(run);
    }

    method Release(uid: int)
      modifies this`available
      ensures available == old(available) + [uid]
    {
      available := available + [uid];
    }
  }

  /** UidPool(...): None is the ValueError. */
  method NewPool(startUid: int, size: int, gid: int) returns (pool: Option<UidPool>)
    ensures pool.None? <==> size < 1
    ensures pool.Some? ==> fresh(pool.value) && pool.value.gid == gid && pool.value.waiting == []
                           && pool.value.available == Range(startUid, size)
  {
    if size < 1 {
      return None;
    }
    var p := new UidPool(startUid, size, gid);
    pool := Some(p);
  }

  datatype Outcome = Finished(exitCode: Option<int>) | Unavailable

  /** execute, as far as it goes without waiting: rejected requests never touch the pool; the others give
      their uid back whether the run finishes or the isolation turns out to be unavailable. No reply means
      that the execution is suspended in acquire. */
  method Execute(pool: UidPool, run: nat, accepted: bool, outcome: Outcome) returns (reply: Option<nat>)
    modifies pool`available, pool`waiting
    ensures !accepted ==>
              reply == Some(400) && pool.available == old(pool.available) && pool.waiting == old(pool.waiting)
    ensures accepted && old(pool.available) == [] ==>
              reply == None && pool.available == [] && pool.waiting == old(pool.waiting) + [run]
    ensures accepted && old(pool.available) != [] ==>
              reply == Some(if outcome.Finished? then 200 else 503) && pool.waiting == old(pool.waiting)
              && pool.available == old(pool.available)[1..] + [old(pool.available)[0]]
  {
    if !accepted {
      return Some(400);
    }
    var uid := pool.Acquire(run);
    if uid.None? {
      return None;
    }
    pool.Release(uid.value);
    reply := Some(if outcome.Finished? then 200 else 503);
  }

  /** The rest of execute, from the wake-up of a suspended execution. */
  method Continue(pool: UidPool, position: nat, outcome: Outcome) returns (reply: Option<nat>)
    requires position < |pool.waiting|
    modifies pool`available, pool`waiting
    ensures old(pool.available) == [] ==>
              reply == None && pool.available == []
              && pool.waiting == Removed(old(pool.waiting), position) + [old(pool.waiting)[position]]
    ensures old(pool.available) != [] ==>
              reply == Some(if outcome.Finished? then 200 else 503)
              && pool.waiting == Removed(old(pool.waiting), position)
              && pool.available == old(pool.available)[1..] + [old(pool.available)[0]]
  {
    var uid := pool.Resume(position);
    if uid.None? {
      return None;
    }
    pool.Release(uid.value);
    reply := Some(if outcome.Finished? then 200 else 503);
  }

  // ----- any number of executions at once -----

  /** Executions are numbered. waiting are those that have asked and hold nothing yet, in order of
      asking; released lists the releases in order. */
  datatype State = State(free: seq<int>, waiting: seq<nat>, held: map<nat, int>, released: seq<nat>)

  datatype Step =
    | Arrive(run: nat)
    | Grant(position: nat)
    | Overtaken(position: nat)
    | Release(run: nat, outcome: Outcome)

  predicate Known(s: State, run: nat) {
    run in s.waiting || run in s.held || run in s.released
  }

  /** A step that is not enabled changes nothing. Grant serves any waiter, first or not; a waiter that wakes up
      too late is Overtaken; Release is the same whatever the outcome. */
  function Next(s: State, step: Step): (s': State) {
    match step
    case Arrive(run) => if Known(s, run) then s else s.(waiting := s.waiting + [run])
    case Grant(position) =>
      if s.free == [] || position >= |s.waiting| then s
      else s.(free := s.free[1..], held := s.held[s.waiting[position] := s.free[0]],
              waiting := Removed(s.waiting, position))
    case Overtaken(position) =>
      if s.free != [] || position >= |s.waiting| then s
      else s.(waiting := Removed(s.waiting, position) + [s.waiting[position]])
    case Release(run, _) =>
      if run !in s.held then s
      else s.(free := s.free + [s.held[run]], held := s.held - {run}, released := s.released + [run])
  }

  function Start(startUid: int, size: nat): (s: State) {
    State(Range(startUid, size), [], map[], [])
  }

  function Run(s: State, steps: seq<Step>): (s': State) {
    if steps == [] then s else Next(Run(s, steps[..|steps| - 1]), steps[|steps| - 1])
  }

  /** An execution that finds a uid free takes the pool through the same states as Execute. */
  lemma ExecuteIsSteps(s: State, run: nat, outcome: Outcome)
    requires s.free != [] && !Known(s, run)
    ensures var s' := Next(Next(Next(s, Arrive(run)), Grant(|s.waiting|)), Release(run, outcome));
            && s'.free == s.free[1..] + [s.free[0]] && s'.waiting == s.waiting && s'.held == s.held
            && s'.released == s.released + [run]
  {
    var s1 := Next(s, Arrive(run));
    assert Removed(s1.waiting, |s.waiting|) == s.waiting;
  }

  /** And one that was suspended, through the same states as Continue. */
  lemma ContinueIsSteps(s: State, position: nat, outcome: Outcome)
    requires OnePlace(s) && s.free != [] && position < |s.waiting|
    ensures var run := s.waiting[position];
            var s' := Next(Next(s, Grant(position)), Release(run, outcome));
            && s'.free == s.free[1..] + [s.free[0]] && s'.waiting == Removed(s.waiting, position)
            && s'.held == s.held && s'.released == s.released + [run]
  {
    assert s.waiting[position] in s.waiting;
  }

  /** One that wakes up too late waits again, as in Continue. */
  lemma OvertakenIsStep(s: State, position: nat)
    requires position < |s.waiting|
    ensures var s' := Next(s, Overtaken(position));
            s' == if s.free == [] then s.(waiting := Removed(s.waiting, position) + [s.waiting[position]]) else s
  {
  }

  predicate NoRepeats<T(==)>(s: seq<T>) {
    forall i, j | 0 <= i < j < |s| :: s[i] != s[j]
  }

  /** Free and held uids partition the pool, and no two executions hold the same uid. */
  ghost predicate Partition(s: State, startUid: int, size: nat) {
    && NoRepeats(s.free)
    && (forall r, q | r in s.held && q in s.held && r != q :: s.held[r] != s.held[q])
    && (forall r | r in s.held :: s.held[r] !in s.free)
    && (forall uid :: startUid <= uid < startUid + size
                      <==> uid in s.free || exists r :: r in s.held && s.held[r] == uid)
  }

  /** Every execution is in one place: waiting, holding, or released, and released once. */
  predicate OnePlace(s: State) {
    && NoRepeats(s.waiting) && NoRepeats(s.released)
    && (forall r | r in s.waiting :: r !in s.held && r !in s.released)
    && (forall r | r in s.held :: r !in s.released)
  }

  lemma GrantKeepsPartition(s: State, position: nat, startUid: int, size: nat)
    requires Partition(s, startUid, size) && OnePlace(s) && s.free != [] && position < |s.waiting|
    ensures Partition(Next(s, Grant(position)), startUid, size)
  {
    var s' := Next(s, Grant(position));
    var run, uid := s.waiting[position], s.free[0];
    assert run in s.waiting;
    assert s.free == [uid] + s'.free;
    assert s'.held[run] == uid;
    forall u ensures u in s.free || (exists r :: r in s.held && s.held[r] == u)
                <==> u in s'.free || exists r :: r in s'.held && s'.held[r] == u
    {
      if r :| r in s.held && s.held[r] == u {
        assert s'.held[r] == u;
      }
      if r :| r in s'.held && s'.held[r] == u {
        assert r == run || s.held[r] == u;
      }
    }
  }

  lemma ReleaseKeepsPartition(s: State, run: nat, outcome: Outcome, startUid: int, size: nat)
    requires Partition(s, startUid, size) && run in s.held
    ensures Partition(Next(s, Release(run, outcome)), startUid, size)
  {
    var s' := Next(s, Release(run, outcome));
    var uid := s.held[run];
    forall u ensures u in s.free || (exists r :: r in s.held && s.held[r] == u)
                <==> u in s'.free || exists r :: r in s'.held && s'.held[r] == u
    {
      if r :| r in s.held && s.held[r] == u {
        assert r == run || s'.held[r] == u;
      }
      if r :| r in s'.held && s'.held[r] == u {
        assert s.held[r] == u;
      }
    }
  }

  lemma OvertakenKeepsOnePlace(s: State, position: nat)
    requires OnePlace(s) && position < |s.waiting|
    ensures OnePlace(Next(s, Overtaken(position)))
  {
    var moved := Removed(s.waiting, position) + [s.waiting[position]];
    forall r | r in moved ensures r in s.waiting {
      var i :| 0 <= i < |moved| && moved[i] == r;
    }
  }

  lemma NextKeepsInv(s: State, step: Step, startUid: int, size: nat)
    requires Partition(s, startUid, size) && OnePlace(s)
    ensures Partition(Next(s, step), startUid, size) && OnePlace(Next(s, step))
  {
    match step
    case Arrive(_) =>
    case Grant(position) =>
      if s.free != [] && position < |s.waiting| {
        GrantKeepsPartition(s, position, startUid, size);
        assert s.waiting[position] in s.waiting;
      }
    case Overtaken(position) =>
      if position < |s.waiting| {
        OvertakenKeepsOnePlace(s, position);
      }
    case Release(run, outcome) =>
      if run in s.held {
        ReleaseKeepsPartition(s, run, outcome, startUid, size);
      }
  }

  /** In every reachable state of any number of executions, whichever waiter each grant serves: the
      uids are partitioned, none is shared, and every execution releases at most once. */
  lemma {:induction false} EveryRunPartitions(startUid: int, size: nat, steps: seq<Step>)
    ensures var s := Run(Start(startUid, size), steps); Partition(s, startUid, size) && OnePlace(s)
  {
    var s0 := Start(startUid, size);
    if steps == [] {
      forall uid | startUid <= uid < startUid + size ensures uid in s0.free {
        assert s0.free[uid - startUid] == uid;
      }
    } else {
      var n := |steps| - 1;
      EveryRunPartitions(startUid, size, steps[..n]);
      NextKeepsInv(Run(s0, steps[..n]), steps[n], startUid, size);
    }
  }

  // ----- no execution is lost -----

  /** The places the execution is in, counted. */
  function Places(s: State, run: nat): (n: nat) {
    multiset(s.waiting)[run] + (if run in s.held then 1 else 0) + multiset(s.released)[run]
  }

  /** It has been given a uid, once. */
  predicate Granted(s: State, run: nat) {
    run in s.held || run in s.released
  }

  lemma {:induction false} CountOne(s: seq<nat>, run: nat)
    requires NoRepeats(s)
    ensures multiset(s)[run] == if run in s then 1 else 0
  {
    if s != [] {
      var k := |s| - 1;
      assert s == s[..k] + [s[k]];
      CountOne(s[..k], run);
    }
  }

  lemma KnownIsInOnePlace(s: State, run: nat)
    requires OnePlace(s)
    ensures Places(s, run) == if Known(s, run) then 1 else 0
    ensures Granted(s, run) ==> multiset(s.released)[run] == if run in s.held then 0 else 1
  {
    CountOne(s.waiting, run);
    CountOne(s.released, run);
  }

  lemma StepKeepsKnown(s: State, step: Step, run: nat)
    ensures Known(s, run) ==> Known(Next(s, step), run)
    ensures Granted(s, run) ==> Granted(Next(s, step), run)
  {
    if (step.Grant? || step.Overtaken?) && step.position < |s.waiting| && run in s.waiting {
      var i :| 0 <= i < |s.waiting| && s.waiting[i] == run;
      var rest := Removed(s.waiting, step.position);
      assert i < step.position ==> rest[i] == run;
      assert i > step.position ==> rest[i - 1] == run;
    }
  }

  lemma {:induction false} StaysKnown(s0: State, steps: seq<Step>, more: seq<Step>, run: nat)
    ensures Known(Run(s0, steps), run) ==> Known(Run(s0, steps + more), run)
    ensures Granted(Run(s0, steps), run) ==> Granted(Run(s0, steps + more), run)
  {
    if more == [] {
      assert steps + more == steps;
    } else {
      var n := |more| - 1;
      StaysKnown(s0, steps, more[..n], run);
      assert (steps + more)[..|steps| + n] == steps + more[..n];
      StepKeepsKnown(Run(s0, steps + more[..n]), more[n], run);
    }
  }

  /** However it goes on, an execution that has arrived is waiting, or holds a uid, or has released it, in exactly
      one of these and once; and one that was given a uid holds it until its one release. */
  lemma NoneLost(startUid: int, size: nat, steps: seq<Step>, more: seq<Step>, run: nat)
    requires Known(Run(Start(startUid, size), steps), run)
    ensures var s, s' := Run(Start(startUid, size), steps), Run(Start(startUid, size), steps + more);
            && Places(s', run) == 1
            && (Granted(s, run) ==>
                  Granted(s', run) && multiset(s'.released)[run] == if run in s'.held then 0 else 1)
  {
    StaysKnown(Start(startUid, size), steps, more, run);
    EveryRunPartitions(startUid, size, steps + more);
    KnownIsInOnePlace(Run(Start(startUid, size), steps + more), run);
  }

  // ----- first come, first served -----

  /** Grants serve the first waiter, and nobody is overtaken. */
  predicate Fifo(steps: seq<Step>) {
    forall step | step in steps :: InOrder(step)
  }

  predicate InOrder(step: Step) {
    !step.Overtaken? && (step.Grant? ==> step.position == 0)
  }

  /** No grant is pending. */
  predicate Settled(s: State) {
    s.free == [] || s.waiting == []
  }

  /** From s to s', the execution first at `place` has come to place p, one place for each uid taken. */
  predicate MovedTo(s: State, s': State, run: nat, place: nat, p: nat) {
    && p <= place && p < |s'.waiting| && s'.waiting[p] == run
    && |s'.free| == |s.free| + |s'.released| - |s.released| - (place - p)
  }

  lemma MoveStep(s: State, before: State, step: Step, run: nat, place: nat, p: nat)
    requires MovedTo(s, before, run, place, p) && OnePlace(before) && InOrder(step)
    ensures var after := Next(before, step);
            MovedTo(s, after, run, place, p) || (p > 0 && MovedTo(s, after, run, place, p - 1)) || run in after.held
  {
  }

  /** Along a FIFO run a waiter moves up one place for each uid taken, until it holds one itself. */
  lemma {:induction false} MovesUp(s: State, steps: seq<Step>, place: nat)
    requires Fifo(steps) && place < |s.waiting| && OnePlace(s)
    ensures var run, s' := s.waiting[place], Run(s, steps);
            && OnePlace(s')
            && ((exists p :: MovedTo(s, s', run, place, p)) || run in s'.held || run in s'.released)
  {
    var run := s.waiting[place];
    if steps == [] {
      assert MovedTo(s, s, run, place, place);
    } else {
      var n := |steps| - 1;
      assert steps == steps[..n] + [steps[n]];
      assert steps[n] in steps;
      MovesUp(s, steps[..n], place);
      var before := Run(s, steps[..n]);
      StepKeepsPlace(before, steps[n]);
      if p :| MovedTo(s, before, run, place, p) {
        MoveStep(s, before, steps[n], run, place, p);
      }
    }
  }

  lemma StepKeepsPlace(s: State, step: Step)
    requires OnePlace(s)
    ensures OnePlace(Next(s, step))
  {
    if step.Grant? && s.free != [] && step.position < |s.waiting| {
      assert s.waiting[step.position] in s.waiting;
    } else if step.Overtaken? && step.position < |s.waiting| {
      OvertakenKeepsOnePlace(s, step.position);
    }
  }

  /** A waiter behind `place` others, with f uids free, is served once place + 1 - f executions have
      released theirs. */
  lemma WaiterServed(s: State, steps: seq<Step>, place: nat)
    requires Fifo(steps) && place < |s.waiting| && OnePlace(s)
    requires var s' := Run(s, steps);
             Settled(s') && |s'.released| - |s.released| >= place + 1 - |s.free|
    ensures var s' := Run(s, steps);
            s.waiting[place] in s'.held || s.waiting[place] in s'.released
  {
    MovesUp(s, steps, place);
  }
}
