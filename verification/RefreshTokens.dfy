/** Refresh-token families: serialised requests over committed rows
    (apps/api/app/auth_service.py, apps/api/app/deps.py). */
module RefreshTokens {
  import opened Common

  /** A row's position stands for its id and its digest, the position of a family's first row for
      the family's id: fresh ids are fresh positions. */
  datatype Token = Token(family: nat, user: nat, expires: int, rotatedAt: Option<int>, revokedAt: Option<int>)

  predicate Live(t: Token, now: int) {
    t.revokedAt.None? && t.rotatedAt.None? && t.expires > now
  }

  predicate Reused(t: Token) {
    t.rotatedAt.Some?
  }

  datatype Denial = Unknown | Reuse | Dead | Concurrent | Inactive

  datatype Reply = Issued(token: nat) | Denied(why: Denial)

  function RevokeRow(t: Token, family: nat, now: int): (t': Token) {
    if t.family == family && t.revokedAt.None? then t.(revokedAt := Some(now)) else t
  }

  function Revoke(tokens: seq<Token>, family: nat, now: int): (tokens': seq<Token>) {
    seq(|tokens|, i requires 0 <= i < |tokens| => RevokeRow(tokens[i], family, now))
  }

  function Mint(tokens: seq<Token>, user: nat, expires: int): (tokens': seq<Token>) {
    tokens + [Token(|tokens|, user, expires, None, None)]
  }

  function Rotate(tokens: seq<Token>, presented: nat, now: int, expires: int): (tokens': seq<Token>)
    requires presented < |tokens|
  {
    var row := tokens[presented];
    tokens[presented := row.(rotatedAt := Some(now))] + [Token(row.family, row.user, expires, None, None)]
  }

  /** What a refresh request leaves committed, and its reply. */
  function Refreshed(tokens: seq<Token>, presented: nat, now: int, active: bool, expires: int)
    : (result: (seq<Token>, Reply))
  {
    if presented >= |tokens| then (tokens, Denied(Unknown))
    else if Reused(tokens[presented]) then (Revoke(tokens, tokens[presented].family, now), Denied(Reuse))
    else if !Live(tokens[presented], now) then (tokens, Denied(Dead))
    else if !active then (tokens, Denied(Inactive))
    else (Rotate(tokens, presented, now, expires), Issued(|tokens|))
  }

  // ----- the code, with its transaction -----

  /** One database session at a time: rows as the open transaction sees them, and as committed. */
  class Database {
    var rows: seq<Token>
    var committed: seq<Token>

    constructor ()
      ensures rows == committed == []
    {
      rows, committed := [], [];
    }

    method Commit()
      modifies this`committed
      ensures committed == rows
    {
      committed := rows;
    }

    method Rollback()
      modifies this`rows
      ensures rows == committed
    {
      rows := committed;
    }

    method MintSession(user: nat, expires: int) returns (token: nat)
      modifies this`rows
      ensures rows == Mint(old(rows), user, expires) && token == |old(rows)|
    {
      token := |rows|;
      rows := rows + [Token(token, user, expires, None, None)];
    }

    /** UPDATE ... WHERE id = presented AND rotated_at IS NULL. */
    method MarkRotated(presented: nat, now: int) returns (rowcount: nat)
      requires presented < |rows|
      modifies this`rows
      ensures rowcount == if old(rows)[presented].rotatedAt.None? then 1 else 0
      ensures rows == if rowcount == 1 then old(rows)[presented := old(rows)[presented].(rotatedAt := Some(now))]
                      else old(rows)
    {
      rowcount := 0;
      if rows[presented].rotatedAt.None? {
        rows := rows[presented := rows[presented].(rotatedAt := Some(now))];
        rowcount := 1;
      }
    }

    /** The revocation is committed before the error is raised; nothing else is. */
    method RotateRefreshToken(presented: nat, now: int, active: bool, expires: int) returns (reply: Reply)
      requires rows == committed
      modifies this
      ensures reply == Refreshed(old(rows), presented, now, active, expires).1
      ensures reply.Issued? ==> rows == Refreshed(old(rows), presented, now, active, expires).0
      ensures reply.Denied? ==> committed == Refreshed(old(rows), presented, now, active, expires).0
    {
      if presented >= |rows| { return Denied(Unknown); }
      var row := rows[presented];
      if Reused(row) {
        rows := Revoke(rows, row.family, now);
        Commit();
        return Denied(Reuse);
      }
      if !Live(row, now) { return Denied(Dead); }
      var rowcount := MarkRotated(presented, now);
      if rowcount != 1 { return Denied(Concurrent); }
      if !active { return Denied(Inactive); }
      reply := Issued(|rows|);
      rows := rows + [Token(row.family, row.user, expires, None, None)];
    }

    /** The request: commit on success, roll back on any error. */
    method Refresh(presented: nat, now: int, active: bool, expires: int) returns (reply: Reply)
      requires rows == committed
      modifies this
      ensures rows == committed
      ensures (committed, reply) == Refreshed(old(committed), presented, now, active, expires)
    {
      reply := RotateRefreshToken(presented, now, active, expires);
      if reply.Issued? {
        Commit();
      } else {
        Rollback();
      }
    }

    method Login(user: nat, expires: int) returns (token: nat)
      requires rows == committed
      modifies this
      ensures rows == committed == Mint(old(committed), user, expires)
    {
      token := MintSession(user, expires);
      Commit();
    }
  }

  // ----- runs of serialised requests -----

  datatype Request = Login(user: nat, expires: int) | Refresh(presented: nat, now: int, active: bool, expires: int)

  function Serve(tokens: seq<Token>, req: Request): (tokens': seq<Token>) {
    match req
    case Login(user, expires) => Mint(tokens, user, expires)
    case Refresh(presented, now, active, expires) => Refreshed(tokens, presented, now, active, expires).0
  }

  function Run(tokens: seq<Token>, reqs: seq<Request>): (tokens': seq<Token>) {
    if reqs == [] then tokens else Serve(Run(tokens, reqs[..|reqs| - 1]), reqs[|reqs| - 1])
  }

  /** Family ids are positions of rows of the family. */
  predicate FamiliesRooted(tokens: seq<Token>) {
    forall i | 0 <= i < |tokens| :: tokens[i].family <= i && tokens[tokens[i].family].family == tokens[i].family
  }

  predicate Dying(tokens: seq<Token>, family: nat) {
    forall t | t in tokens && t.family == family :: t.revokedAt.Some?
  }

  /** Every row of the family in later was there before, as it was. */
  predicate Frozen(tokens: seq<Token>, later: seq<Token>, family: nat) {
    && |tokens| <= |later|
    && forall i | 0 <= i < |later| && later[i].family == family :: i < |tokens| && later[i] == tokens[i]
  }

  lemma ServeKeepsRooted(tokens: seq<Token>, req: Request)
    requires FamiliesRooted(tokens)
    ensures FamiliesRooted(Serve(tokens, req)) && |tokens| <= |Serve(tokens, req)|
    ensures forall i | 0 <= i < |tokens| :: Serve(tokens, req)[i].family == tokens[i].family
  {
  }

  lemma ServeFreezesDying(tokens: seq<Token>, family: nat, req: Request)
    requires FamiliesRooted(tokens) && family < |tokens| && Dying(tokens, family)
    ensures Frozen(tokens, Serve(tokens, req), family) && Dying(Serve(tokens, req), family)
  {
    var after := Serve(tokens, req);
    forall i | 0 <= i < |after| && after[i].family == family ensures i < |tokens| && after[i] == tokens[i] {
      if i < |tokens| {
        assert tokens[i] in tokens;
      }
    }
    forall t | t in after && t.family == family ensures t.revokedAt.Some? {
      var i :| 0 <= i < |after| && after[i] == t;
      assert tokens[i] in tokens;
    }
  }

  /** A family whose every row is revoked neither grows nor changes again, whatever is served. */
  lemma {:induction false} DyingIsForever(tokens: seq<Token>, family: nat, reqs: seq<Request>)
    requires FamiliesRooted(tokens) && family < |tokens| && Dying(tokens, family)
    ensures var later := Run(tokens, reqs);
            FamiliesRooted(later) && Frozen(tokens, later, family) && Dying(later, family)
  {
    if reqs != [] {
      var n := |reqs| - 1;
      DyingIsForever(tokens, family, reqs[..n]);
      ServeKeepsRooted(Run(tokens, reqs[..n]), reqs[n]);
      ServeFreezesDying(Run(tokens, reqs[..n]), family, reqs[n]);
    }
  }

  lemma {:induction false} RunKeepsRooted(reqs: seq<Request>)
    ensures FamiliesRooted(Run([], reqs))
  {
    if reqs != [] {
      var n := |reqs| - 1;
      RunKeepsRooted(reqs[..n]);
      ServeKeepsRooted(Run([], reqs[..n]), reqs[n]);
    }
  }

  /** Reuse detection holds although the request fails: after a rotated token is presented, no token
      of its family is live at any time in any continuation, the family never grows, and the request
      itself touched no other family. */
  lemma ReuseKillsFamily(
    before: seq<Request>, presented: nat, now: int, active: bool, expires: int, after: seq<Request>)
    requires var tokens := Run([], before); presented < |tokens| && Reused(tokens[presented])
    ensures var tokens := Run([], before);
            var family := tokens[presented].family;
            var (revoked, reply) := Refreshed(tokens, presented, now, active, expires);
            var later := Run(revoked, after);
            && reply == Denied(Reuse)
            && |revoked| == |tokens|
            && (forall i | 0 <= i < |tokens| && tokens[i].family != family :: revoked[i] == tokens[i])
            && Frozen(revoked, later, family)
            && forall t, time | t in later && t.family == family :: !Live(t, time)
  {
    RunKeepsRooted(before);
    var tokens := Run([], before);
    var family := tokens[presented].family;
    var revoked := Revoke(tokens, family, now);
    ServeKeepsRooted(tokens, Refresh(presented, now, active, expires));
    assert Dying(revoked, family);
    DyingIsForever(revoked, family, after);
  }

  // ----- each request in terms of the columns -----

  /** The presented token exists, is neither rotated nor revoked, and has not expired. */
  predicate Usable(tokens: seq<Token>, presented: nat, now: int) {
    && presented < |tokens|
    && tokens[presented].rotatedAt == None && tokens[presented].revokedAt == None && tokens[presented].expires > now
  }

  /** A token is issued exactly for a usable one of an active user: then the presented row is marked rotated, and
      one row is added, of its family and user, with the new expiry. */
  lemma IssuedIff(tokens: seq<Token>, presented: nat, now: int, active: bool, expires: int)
    ensures var (after, reply) := Refreshed(tokens, presented, now, active, expires);
            && (Usable(tokens, presented, now) <==> presented < |tokens| && Live(tokens[presented], now))
            && (reply.Issued? <==> Usable(tokens, presented, now) && active)
            && (reply.Issued? ==>
                  && reply.token == |tokens| && |after| == |tokens| + 1
                  && after[presented] == tokens[presented].(rotatedAt := Some(now))
                  && after[|tokens|] == Token(tokens[presented].family, tokens[presented].user, expires, None, None)
                  && forall i | 0 <= i < |tokens| && i != presented :: after[i] == tokens[i])
  {
  }

  /** How the others are denied: a rotated token is a reuse, which revokes what is not revoked of its family, and
      no other denial changes anything. */
  lemma DeniedIs(tokens: seq<Token>, presented: nat, now: int, active: bool, expires: int)
    ensures var (after, reply) := Refreshed(tokens, presented, now, active, expires);
            && (reply == Denied(Unknown) <==> presented >= |tokens|)
            && (reply == Denied(Reuse) <==> presented < |tokens| && tokens[presented].rotatedAt.Some?)
            && (reply == Denied(Inactive) <==> Usable(tokens, presented, now) && !active)
            && (reply == Denied(Dead) <==>
                  presented < |tokens| && tokens[presented].rotatedAt.None? && !Usable(tokens, presented, now))
            && (reply.Denied? && reply != Denied(Reuse) ==> after == tokens)
            && (reply == Denied(Reuse) ==>
                  |after| == |tokens|
                  && forall i | 0 <= i < |tokens| ::
                       after[i] == if tokens[i].family == tokens[presented].family && tokens[i].revokedAt.None?
                                   then tokens[i].(revokedAt := Some(now)) else tokens[i])
  {
  }

  lemma MintIs(tokens: seq<Token>, user: nat, expires: int)
    ensures Mint(tokens, user, expires) == tokens + [Token(|tokens|, user, expires, None, None)]
  {
  }

  lemma {:induction false} RunKeepsExpiry(tokens: seq<Token>, reqs: seq<Request>, i: nat)
    requires i < |tokens|
    ensures |Run(tokens, reqs)| >= |tokens|
    ensures var t, t' := tokens[i], Run(tokens, reqs)[i];
            t'.expires == t.expires && t'.family == t.family && t'.user == t.user
            && (t.rotatedAt.Some? ==> t'.rotatedAt == t.rotatedAt)
            && (t.revokedAt.Some? ==> t'.revokedAt == t.revokedAt)
  {
    if reqs != [] {
      RunKeepsExpiry(tokens, reqs[..|reqs| - 1], i);
    }
  }

  /** At or past its expiry a token never yields another, and neither does one that is rotated or revoked, whatever is
      served in between. */
  lemma SpentForGood(tokens: seq<Token>, i: nat, reqs: seq<Request>, now: int, active: bool, expires: int)
    requires i < |tokens| && (tokens[i].expires <= now || tokens[i].rotatedAt.Some? || tokens[i].revokedAt.Some?)
    ensures Refreshed(Run(tokens, reqs), i, now, active, expires).1.Denied?
  {
    RunKeepsExpiry(tokens, reqs, i);
    IssuedIff(Run(tokens, reqs), i, now, active, expires);
  }
}
