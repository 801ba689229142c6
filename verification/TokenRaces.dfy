/** Concurrent refresh requests: each reads its row, and later revokes or updates, with other
    requests' steps in between (apps/api/app/auth_service.py). The conditional update, the insert
    and their commit are one step: the row lock is held throughout. */
module TokenRaces {
  import opened Common
  import opened RefreshTokens

  /** What a request in flight has decided from the row it read. */
  datatype Plan = ToRevoke(family: nat) | ToRotate(presented: nat)

  /** rotations counts the successful rotations of each family. */
  datatype State = State(tokens: seq<Token>, inFlight: map<nat, Plan>, rotations: multiset<nat>)

  datatype Step =
    | Login(user: nat, expires: int)
    | Read(req: nat, presented: nat, now: int)
    | RevokeFamily(req: nat, now: int)
    | Update(req: nat, now: int, active: bool, expires: int)

  /** A step that is not enabled changes nothing. */
  function Next(s: State, step: Step): (s': State) {
    match step
    case Login(user, expires) => s.(tokens := Mint(s.tokens, user, expires))
    case Read(req, presented, now) =>
      if req in s.inFlight || presented >= |s.tokens| then s
      else if Reused(s.tokens[presented]) then
        s.(inFlight := s.inFlight[req := ToRevoke(s.tokens[presented].family)])
      else if Live(s.tokens[presented], now) then s.(inFlight := s.inFlight[req := ToRotate(presented)])
      else s
    case RevokeFamily(req, now) =>
      if req in s.inFlight && s.inFlight[req].ToRevoke? then
        s.(tokens := Revoke(s.tokens, s.inFlight[req].family, now), inFlight := s.inFlight - {req})
      else s
    case Update(req, now, active, expires) =>
      if req in s.inFlight && s.inFlight[req].ToRotate? && s.inFlight[req].presented < |s.tokens| then
        var presented := s.inFlight[req].presented;
        var s' := s.(inFlight := s.inFlight - {req});
        if Reused(s.tokens[presented]) || !active then s'
        else s'.(tokens := Rotate(s.tokens, presented, now, expires),
                 rotations := s.rotations + multiset{s.tokens[presented].family})
      else s
  }

  function RunFrom(s: State, steps: seq<Step>): (s': State) {
    if steps == [] then s else Next(RunFrom(s, steps[..|steps| - 1]), steps[|steps| - 1])
  }

  function Run(steps: seq<Step>): (s: State) {
    RunFrom(State([], map[], multiset{}), steps)
  }

  /** No later row belongs to the same family. */
  predicate Newest(tokens: seq<Token>, i: nat)
    requires i < |tokens|
  {
    forall j | i < j < |tokens| :: tokens[j].family != tokens[i].family
  }

  function Families(tokens: seq<Token>): (families: seq<nat>) {
    seq(|tokens|, i requires 0 <= i < |tokens| => tokens[i].family)
  }

  /** 1 if a family with this id was minted. */
  function Minted(tokens: seq<Token>, family: nat): (n: nat) {
    if family < |tokens| && tokens[family].family == family then 1 else 0
  }

  ghost predicate Inv(s: State) {
    InShape(s.tokens, s.rotations)
  }

  /** A family's newest row is its one unrotated row, and there is a row more than there were rotations. */
  ghost predicate InShape(tokens: seq<Token>, rotations: multiset<nat>) {
    && FamiliesRooted(tokens)
    && (forall i | 0 <= i < |tokens| :: tokens[i].rotatedAt.None? <==> Newest(tokens, i))
    && (forall f: nat :: multiset(Families(tokens))[f] == Minted(tokens, f) + rotations[f])
  }

  lemma FamiliesAppend(tokens: seq<Token>, t: Token, f: nat)
    ensures multiset(Families(tokens + [t]))[f] == multiset(Families(tokens))[f] + if t.family == f then 1 else 0
  {
    assert Families(tokens + [t]) == Families(tokens) + [t.family];
  }

  lemma RotateKeepsCounts(s: State, presented: nat, now: int, expires: int)
    requires Inv(s) && presented < |s.tokens|
    ensures var tokens' := Rotate(s.tokens, presented, now, expires);
            forall f: nat :: multiset(Families(tokens'))[f]
                          == Minted(tokens', f) + (s.rotations + multiset{s.tokens[presented].family})[f]
  {
    var row := s.tokens[presented];
    var marked := s.tokens[presented := row.(rotatedAt := Some(now))];
    var heir := Token(row.family, row.user, expires, None, None);
    assert Families(marked) == Families(s.tokens);
    forall f: nat
      ensures multiset(Families(marked + [heir]))[f]
           == Minted(marked + [heir], f) + (s.rotations + multiset{row.family})[f]
    {
      FamiliesAppend(marked, heir, f);
    }
  }

  lemma RotateKeepsShape(tokens: seq<Token>, presented: nat, now: int, expires: int)
    requires FamiliesRooted(tokens) && presented < |tokens| && !Reused(tokens[presented])
    requires forall i | 0 <= i < |tokens| :: tokens[i].rotatedAt.None? <==> Newest(tokens, i)
    ensures var tokens' := Rotate(tokens, presented, now, expires);
            && FamiliesRooted(tokens')
            && forall i | 0 <= i < |tokens'| :: tokens'[i].rotatedAt.None? <==> Newest(tokens', i)
  {
    var tokens' := Rotate(tokens, presented, now, expires);
    var n := |tokens|;
    forall i | 0 <= i < n ensures tokens'[i].rotatedAt.None? <==> Newest(tokens', i) {
      assert tokens'[n].family == tokens[presented].family;
      if tokens[i].family == tokens[presented].family {
        assert !Newest(tokens', i);
      } else {
        assert forall j | 0 <= j < n :: tokens'[j].family == tokens[j].family;
        assert Newest(tokens', i) <==> Newest(tokens, i);
      }
    }
  }

  lemma MintKeepsShape(tokens: seq<Token>, user: nat, expires: int)
    requires FamiliesRooted(tokens)
    requires forall i | 0 <= i < |tokens| :: tokens[i].rotatedAt.None? <==> Newest(tokens, i)
    ensures var tokens' := Mint(tokens, user, expires);
            && FamiliesRooted(tokens')
            && forall i | 0 <= i < |tokens'| :: tokens'[i].rotatedAt.None? <==> Newest(tokens', i)
  {
    var n := |tokens|;
    var tokens' := Mint(tokens, user, expires);
    forall i | 0 <= i < n ensures Newest(tokens', i) <==> Newest(tokens, i) {
      assert tokens'[i].family <= i < n == tokens'[n].family;
      assert forall j | 0 <= j < n :: tokens'[j] == tokens[j];
    }
  }

  lemma MintKeepsCount(tokens: seq<Token>, rotations: multiset<nat>, user: nat, expires: int, f: nat)
    requires InShape(tokens, rotations)
    ensures var tokens' := Mint(tokens, user, expires);
            multiset(Families(tokens'))[f] == Minted(tokens', f) + rotations[f]
  {
    FamiliesAppend(tokens, Token(|tokens|, user, expires, None, None), f);
    FamilyCountZero(tokens, |tokens|);
  }

  lemma MintKeepsInv(s: State, user: nat, expires: int)
    requires Inv(s)
    ensures Inv(s.(tokens := Mint(s.tokens, user, expires)))
  {
    MintKeepsShape(s.tokens, user, expires);
    var tokens' := Mint(s.tokens, user, expires);
    forall f: nat ensures multiset(Families(tokens'))[f] == Minted(tokens', f) + s.rotations[f] {
      MintKeepsCount(s.tokens, s.rotations, user, expires, f);
    }
  }

  /** The id the next family will get is in nobody's use. */
  lemma FamilyCountZero(tokens: seq<Token>, f: nat)
    requires FamiliesRooted(tokens) && f >= |tokens|
    ensures multiset(Families(tokens))[f] == 0
  {
    assert forall i | 0 <= i < |tokens| :: Families(tokens)[i] <= i;
  }

  lemma RevokeKeepsInv(s: State, family: nat, now: int)
    requires Inv(s)
    ensures Inv(s.(tokens := Revoke(s.tokens, family, now)))
  {
    var tokens' := Revoke(s.tokens, family, now);
    assert Families(tokens') == Families(s.tokens);
    forall i | 0 <= i < |tokens'| ensures Newest(tokens', i) <==> Newest(s.tokens, i) {
      assert forall j | 0 <= j < |tokens'| :: tokens'[j].family == s.tokens[j].family;
    }
  }

  lemma RotateKeepsInv(s: State, presented: nat, now: int, expires: int)
    requires Inv(s) && presented < |s.tokens| && !Reused(s.tokens[presented])
    ensures InShape(Rotate(s.tokens, presented, now, expires), s.rotations + multiset{s.tokens[presented].family})
  {
    RotateKeepsShape(s.tokens, presented, now, expires);
    RotateKeepsCounts(s, presented, now, expires);
  }

  /** Every step of every request, interleaved at will, keeps the shape of all families. */
  lemma NextKeepsInv(s: State, step: Step)
    requires Inv(s)
    ensures Inv(Next(s, step))
  {
    match step
    case Login(user, expires) => MintKeepsInv(s, user, expires);
    case Read(_, _, _) =>
    case RevokeFamily(req, now) =>
      if req in s.inFlight && s.inFlight[req].ToRevoke? {
        RevokeKeepsInv(s, s.inFlight[req].family, now);
      }
    case Update(req, now, active, expires) =>
      if req in s.inFlight && s.inFlight[req].ToRotate? && s.inFlight[req].presented < |s.tokens| {
        var presented := s.inFlight[req].presented;
        if !Reused(s.tokens[presented]) {
          RotateKeepsInv(s, presented, now, expires);
        }
      }
  }

  lemma {:induction false} EveryRunKeepsInv(steps: seq<Step>)
    ensures Inv(Run(steps))
  {
    if steps == [] {
      assert Families([]) == [];
    } else {
      var n := |steps| - 1;
      EveryRunKeepsInv(steps[..n]);
      NextKeepsInv(Run(steps[..n]), steps[n]);
    }
  }

  lemma {:induction false} NewestOf(tokens: seq<Token>, i: nat) returns (last: nat)
    requires i < |tokens|
    ensures i <= last < |tokens| && tokens[last].family == tokens[i].family && Newest(tokens, last)
    decreases |tokens| - i
  {
    last := i;
    if j :| i < j < |tokens| && tokens[j].family == tokens[i].family {
      last := NewestOf(tokens, j);
    }
  }

  /** In any interleaving a minted family has exactly one unrotated token, so at most one live one,
      and its size is one plus its successful rotations. */
  lemma OneUnrotatedPerFamily(steps: seq<Step>, family: nat)
    requires Minted(Run(steps).tokens, family) == 1
    ensures var s := Run(steps);
            && (exists i | 0 <= i < |s.tokens| :: s.tokens[i].family == family && !Reused(s.tokens[i]))
            && (forall i, j | 0 <= i < j < |s.tokens| && s.tokens[i].family == s.tokens[j].family == family ::
                  !(!Reused(s.tokens[i]) && !Reused(s.tokens[j])))
            && (forall i, j, now: int | 0 <= i < j < |s.tokens| && s.tokens[i].family == s.tokens[j].family == family ::
                  !(Live(s.tokens[i], now) && Live(s.tokens[j], now)))
            && multiset(Families(s.tokens))[family] == 1 + s.rotations[family]
  {
    EveryRunKeepsInv(steps);
    var s := Run(steps);
    var last := NewestOf(s.tokens, family);
    forall i, j | 0 <= i < j < |s.tokens| && s.tokens[i].family == s.tokens[j].family == family
      ensures Reused(s.tokens[i])
    {
      assert !Newest(s.tokens, i);
    }
  }

  // ----- how the interleaved steps relate to whole requests -----

  /** With no step of another request in between, read then update is the serialised request. */
  lemma ReadThenActIsRefresh(s: State, req: nat, presented: nat, now: int, active: bool, expires: int)
    requires req !in s.inFlight
    ensures var read := Next(s, Read(req, presented, now));
            var done := Next(Next(read, RevokeFamily(req, now)), Update(req, now, active, expires));
            && done.tokens == Refreshed(s.tokens, presented, now, active, expires).0
            && done.inFlight == s.inFlight
  {
  }

  /** Rotating this token would not touch the family: it is of another one, or rotated already. */
  predicate Spent(tokens: seq<Token>, presented: nat, family: nat) {
    presented < |tokens| && tokens[presented].family == family ==> Reused(tokens[presented])
  }

  /** No request in flight has yet to rotate a token of the family. */
  predicate Quiet(s: State, family: nat) {
    forall r | r in s.inFlight && s.inFlight[r].ToRotate? :: Spent(s.tokens, s.inFlight[r].presented, family)
  }

  lemma NextKeepsDead(s: State, family: nat, step: Step)
    requires FamiliesRooted(s.tokens) && family < |s.tokens| && Dying(s.tokens, family) && Quiet(s, family)
    ensures var s' := Next(s, step);
            && FamiliesRooted(s'.tokens) && Frozen(s.tokens, s'.tokens, family)
            && Dying(s'.tokens, family) && Quiet(s', family)
  {
    match step
    case Login(user, expires) => ServeFreezesDying(s.tokens, family, RefreshTokens.Login(user, expires));
    case Read(_, presented, now) =>
      if presented < |s.tokens| && Live(s.tokens[presented], now) {
        assert s.tokens[presented] in s.tokens;
      }
    case RevokeFamily(req, now) =>
      if req in s.inFlight && s.inFlight[req].ToRevoke? {
        RevokeFreezesDying(s.tokens, family, s.inFlight[req].family, now);
      }
    case Update(req, now, active, expires) =>
      if Next(s, step).tokens != s.tokens {
        RotateFreezesDying(s.tokens, family, s.inFlight[req].presented, now, expires);
      }
  }

  lemma RevokeFreezesDying(tokens: seq<Token>, family: nat, other: nat, now: int)
    requires FamiliesRooted(tokens) && Dying(tokens, family)
    ensures var tokens' := Revoke(tokens, other, now);
            FamiliesRooted(tokens') && Frozen(tokens, tokens', family) && Dying(tokens', family)
  {
    assert forall i | 0 <= i < |tokens| :: tokens[i] in tokens;
  }

  lemma RotateFreezesDying(tokens: seq<Token>, family: nat, presented: nat, now: int, expires: int)
    requires FamiliesRooted(tokens) && Dying(tokens, family)
    requires presented < |tokens| && tokens[presented].family != family
    ensures var tokens' := Rotate(tokens, presented, now, expires);
            FamiliesRooted(tokens') && Frozen(tokens, tokens', family) && Dying(tokens', family)
  {
    assert forall i | 0 <= i < |tokens| :: tokens[i] in tokens;
  }

  /** A revoked family that no request in flight has yet to rotate stays as it is under every
      interleaving. */
  lemma {:induction false} RevokedStaysDead(s: State, family: nat, steps: seq<Step>)
    requires FamiliesRooted(s.tokens) && family < |s.tokens| && Dying(s.tokens, family) && Quiet(s, family)
    ensures var s' := RunFrom(s, steps);
            && FamiliesRooted(s'.tokens) && Frozen(s.tokens, s'.tokens, family)
            && Dying(s'.tokens, family) && Quiet(s', family)
  {
    if steps != [] {
      var n := |steps| - 1;
      RevokedStaysDead(s, family, steps[..n]);
      NextKeepsDead(RunFrom(s, steps[..n]), family, steps[n]);
    }
  }

  /** Some token of the family is live. */
  predicate LiveAt(tokens: seq<Token>, family: nat, now: int) {
    exists t | t in tokens :: t.family == family && Live(t, now)
  }

  /** One pending rotation is enough: taken now, it leaves the revoked family with a live token. */
  lemma PendingRotationRevives(s: State, family: nat, req: nat, now: int)
    requires req in s.inFlight && s.inFlight[req].ToRotate? && !Spent(s.tokens, s.inFlight[req].presented, family)
    ensures var later := RunFrom(s, [Update(req, now, true, now + 1)]).tokens;
            LiveAt(later, family, now) && !Frozen(s.tokens, later, family)
  {
    var step := Update(req, now, true, now + 1);
    assert [step][..0] == [];
    assert RunFrom(s, []) == s;
    var later := RunFrom(s, [step]).tokens;
    assert later == Next(s, step).tokens;
    assert later[|s.tokens|] in later && later[|s.tokens|].family == family;
  }

  /** Some continuation has a token of the family live at this time. */
  ghost predicate CanLive(s: State, family: nat, now: int) {
    exists steps :: LiveAt(RunFrom(s, steps).tokens, family, now)
  }

  lemma QuietIsFinal(s: State, family: nat, now: int)
    requires FamiliesRooted(s.tokens) && family < |s.tokens| && Dying(s.tokens, family) && Quiet(s, family)
    ensures forall steps :: Frozen(s.tokens, RunFrom(s, steps).tokens, family)
    ensures !CanLive(s, family, now)
  {
    forall steps
      ensures Frozen(s.tokens, RunFrom(s, steps).tokens, family) && !LiveAt(RunFrom(s, steps).tokens, family, now)
    {
      RevokedStaysDead(s, family, steps);
    }
  }

  lemma NotQuietIsNotFinal(s: State, family: nat, now: int)
    requires !Quiet(s, family)
    ensures CanLive(s, family, now) && exists steps :: !Frozen(s.tokens, RunFrom(s, steps).tokens, family)
  {
    var req :| req in s.inFlight && s.inFlight[req].ToRotate? && !Spent(s.tokens, s.inFlight[req].presented, family);
    PendingRotationRevives(s, family, req, now);
  }

  /** When a revocation is final: exactly when no request read a token of the family as live before it and
      has still to rotate it, since the conditional update rechecks the rotation alone. Otherwise the family
      has, for every time, a continuation with a token live then. */
  lemma RevocationFinalIff(s: State, family: nat)
    requires FamiliesRooted(s.tokens) && family < |s.tokens| && Dying(s.tokens, family)
    ensures Quiet(s, family) <==> forall steps :: Frozen(s.tokens, RunFrom(s, steps).tokens, family)
    ensures forall now: int :: CanLive(s, family, now) <==> !Quiet(s, family)
  {
    forall now: int ensures CanLive(s, family, now) <==> !Quiet(s, family) {
      if Quiet(s, family) {
        QuietIsFinal(s, family, now);
      } else {
        NotQuietIsNotFinal(s, family, now);
      }
    }
    if Quiet(s, family) {
      QuietIsFinal(s, family, 0);
    } else {
      NotQuietIsNotFinal(s, family, 0);
    }
  }

  /** Every revocation pending in a run is of a family the run has minted. */
  predicate RevokesKnown(s: State) {
    forall r | r in s.inFlight && s.inFlight[r].ToRevoke? :: s.inFlight[r].family < |s.tokens|
  }

  lemma NextRevokesKnown(s: State, step: Step)
    requires FamiliesRooted(s.tokens) && RevokesKnown(s)
    ensures RevokesKnown(Next(s, step))
  {
    assert |Next(s, step).tokens| >= |s.tokens|;
  }

  lemma {:induction false} RunRevokesKnown(steps: seq<Step>)
    ensures FamiliesRooted(Run(steps).tokens) && RevokesKnown(Run(steps))
  {
    EveryRunKeepsInv(steps);
    if steps != [] {
      var before := steps[..|steps| - 1];
      RunRevokesKnown(before);
      NextRevokesKnown(Run(before), steps[|steps| - 1]);
    }
  }

  lemma RevokeIsDying(tokens: seq<Token>, family: nat, now: int)
    requires FamiliesRooted(tokens)
    ensures Dying(Revoke(tokens, family, now), family) && FamiliesRooted(Revoke(tokens, family, now))
  {
  }

  /** In every run, a revocation step leaves its whole family revoked, and that is final exactly when no
      rotation of the family is pending. */
  lemma RunRevocationFinalIff(steps: seq<Step>, req: nat, at: int)
    requires req in Run(steps).inFlight && Run(steps).inFlight[req].ToRevoke?
    ensures var family := Run(steps).inFlight[req].family;
            var s := Next(Run(steps), RevokeFamily(req, at));
            && Dying(s.tokens, family)
            && forall now: int :: CanLive(s, family, now) <==> !Quiet(s, family)
  {
    RunRevokesKnown(steps);
    var family := Run(steps).inFlight[req].family;
    var s := Next(Run(steps), RevokeFamily(req, at));
    RevokeIsDying(Run(steps).tokens, family, at);
    RevocationFinalIff(s, family);
  }

  // ----- a revocation that is not final -----

  lemma RunOneMore(steps: seq<Step>, step: Step)
    ensures Run(steps + [step]) == Next(Run(steps), step)
  {
    assert (steps + [step])[..|steps|] == steps;
  }

  /** The third step rotates the first token, the fourth reads the second as live, the fifth the first as reused. */
  function OverlappingRefreshes(): (steps: seq<Step>) {
    [Step.Login(0, 100)] + [Read(0, 0, 1)] + [Update(0, 1, true, 100)] + [Read(1, 1, 2)] + [Read(2, 0, 3)]
  }

  lemma FirstRefreshReaches()
    ensures Run([Step.Login(0, 100)] + [Read(0, 0, 1)] + [Update(0, 1, true, 100)])
         == State([Token(0, 0, 100, Some(1), None), Token(0, 0, 100, None, None)], map[], multiset{0})
  {
    var first := [Step.Login(0, 100)];
    RunOneMore([], Step.Login(0, 100));
    assert [] + first == first;
    assert Run(first) == State([Token(0, 0, 100, None, None)], map[], multiset{});
    RunOneMore(first, Read(0, 0, 1));
    assert Run(first + [Read(0, 0, 1)]).inFlight == map[0 := ToRotate(0)];
    RunOneMore(first + [Read(0, 0, 1)], Update(0, 1, true, 100));
  }

  lemma OverlappingRefreshesReach()
    ensures Run(OverlappingRefreshes())
         == State([Token(0, 0, 100, Some(1), None), Token(0, 0, 100, None, None)],
                  map[1 := ToRotate(1), 2 := ToRevoke(0)], multiset{0})
  {
    var third := [Step.Login(0, 100)] + [Read(0, 0, 1)] + [Update(0, 1, true, 100)];
    FirstRefreshReaches();
    RunOneMore(third, Read(1, 1, 2));
    assert Run(third + [Read(1, 1, 2)]).inFlight == map[1 := ToRotate(1)];
    RunOneMore(third + [Read(1, 1, 2)], Read(2, 0, 3));
  }

  /** From there the fifth step's revocation runs before the rotation the fourth prepared: the family is
      revoked as a whole, and then has a live token again. */
  lemma RevocationCanBePending()
    ensures var s := Next(Run(OverlappingRefreshes()), RevokeFamily(2, 3));
            Dying(s.tokens, 0) && !Quiet(s, 0) && LiveAt(Next(s, Update(1, 4, true, 100)).tokens, 0, 5)
  {
    OverlappingRefreshesReach();
    var s := Next(Run(OverlappingRefreshes()), RevokeFamily(2, 3));
    assert s.inFlight[1] == ToRotate(1) && !Spent(s.tokens, 1, 0);
    var later := Next(s, Update(1, 4, true, 100)).tokens;
    assert later[2] in later && later[2] == Token(0, 0, 100, None, None);
  }
}
