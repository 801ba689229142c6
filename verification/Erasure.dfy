/** Finding and redacting everything tied to a candidate's address
    (apps/api/app/routers_dsar.py). A row's position in its table is its identity: rows are never
    deleted. Columns nothing here reads or writes are left out. */
module Erasure {
  import opened Common

  datatype Text = Original(text: string) | Redacted

  datatype Resume = Resume(org: nat, email: Option<string>, filename: Text, fullText: Text, createdAt: int)
  datatype Field = Field(resume: nat, name: string, value: Text, quote: Text)
  datatype Invite = Invite(org: nat, uuid: string, email: string)
  datatype Response = Response(invite: nat, answers: map<string, string>, history: seq<string>)
  datatype Session = Session(org: nat, uuid: string, email: string)
  datatype Turn = Turn(session: nat, question: string, answer: Option<Text>)
  datatype Consent = Consent(session: nat, granted: bool)
  datatype Task = Task(session: nat, title: string)
  datatype Snapshot = Snapshot(task: nat, source: Text)
  datatype Execution = Execution(task: nat, source: Text, stdin: Text, stdout: Text, stderr: Text)
  datatype Stroke = Stroke(session: nat, payload: string)
  datatype Message = Message(session: nat, author: string, authorLabel: Text, body: Text)
  datatype Evaluation = Evaluation(org: nat, resume: nat, payload: map<string, Text>)

  datatype Db = Db(
    resumes: seq<Resume>, fields: seq<Field>, invites: seq<Invite>, responses: seq<Response>,
    sessions: seq<Session>, turns: seq<Turn>, consents: seq<Consent>, tasks: seq<Task>,
    snapshots: seq<Snapshot>, executions: seq<Execution>, strokes: seq<Stroke>, messages: seq<Message>,
    evaluations: seq<Evaluation>)

  /** The rows found for an address, by table. */
  datatype Records = Records(
    resumes: set<nat>, fields: set<nat>, invites: set<nat>, responses: set<nat>,
    sessions: set<nat>, turns: set<nat>, consents: set<nat>, tasks: set<nat>,
    snapshots: set<nat>, executions: set<nat>, strokes: set<nat>, messages: set<nat>,
    evaluations: set<nat>)

  function Normal(text: TextOps, email: string): (key: string) {
    text.lower(text.strip(email))
  }

  // ----- finding -----

  function ResumesOf(text: TextOps, db: Db, org: nat, key: string): (found: set<nat>) {
    set i: nat | i < |db.resumes| && db.resumes[i].org == org && db.resumes[i].email.Some?
                 && text.lower(db.resumes[i].email.value) == key
  }

  function InvitesOf(text: TextOps, db: Db, org: nat, key: string): (found: set<nat>) {
    set i: nat | i < |db.invites| && db.invites[i].org == org && text.lower(db.invites[i].email) == key
  }

  function SessionsOf(text: TextOps, db: Db, org: nat, key: string): (found: set<nat>) {
    set i: nat | i < |db.sessions| && db.sessions[i].org == org && text.lower(db.sessions[i].email) == key
  }

  function FieldsOf(db: Db, resumes: set<nat>): (found: set<nat>) {
    set i: nat | i < |db.fields| && db.fields[i].resume in resumes
  }

  function ResponsesOf(db: Db, invites: set<nat>): (found: set<nat>) {
    set i: nat | i < |db.responses| && db.responses[i].invite in invites
  }

  function TurnsOf(db: Db, sessions: set<nat>): (found: set<nat>) {
    set i: nat | i < |db.turns| && db.turns[i].session in sessions
  }

  function ConsentsOf(db: Db, sessions: set<nat>): (found: set<nat>) {
    set i: nat | i < |db.consents| && db.consents[i].session in sessions
  }

  function TasksOf(db: Db, sessions: set<nat>): (found: set<nat>) {
    set i: nat | i < |db.tasks| && db.tasks[i].session in sessions
  }

  function SnapshotsOf(db: Db, tasks: set<nat>): (found: set<nat>) {
    set i: nat | i < |db.snapshots| && db.snapshots[i].task in tasks
  }

  function ExecutionsOf(db: Db, tasks: set<nat>): (found: set<nat>) {
    set i: nat | i < |db.executions| && db.executions[i].task in tasks
  }

  function StrokesOf(db: Db, sessions: set<nat>): (found: set<nat>) {
    set i: nat | i < |db.strokes| && db.strokes[i].session in sessions
  }

  function MessagesOf(db: Db, sessions: set<nat>): (found: set<nat>) {
    set i: nat | i < |db.messages| && db.messages[i].session in sessions
  }

  function EvaluationsOf(db: Db, org: nat, resumes: set<nat>): (found: set<nat>) {
    set i: nat | i < |db.evaluations| && db.evaluations[i].org == org && db.evaluations[i].resume in resumes
  }

  /** Everything that hangs off these resumes, invites and sessions. */
  function Gather(db: Db, org: nat, resumes: set<nat>, invites: set<nat>, sessions: set<nat>): (records: Records) {
    var tasks := TasksOf(db, sessions);
    Records(resumes, FieldsOf(db, resumes), invites, ResponsesOf(db, invites), sessions, TurnsOf(db, sessions),
            ConsentsOf(db, sessions), tasks, SnapshotsOf(db, tasks), ExecutionsOf(db, tasks),
            StrokesOf(db, sessions), MessagesOf(db, sessions), EvaluationsOf(db, org, resumes))
  }

  function Find(text: TextOps, db: Db, org: nat, email: string): (records: Records) {
    var key := Normal(text, email);
    Gather(db, org, ResumesOf(text, db, org, key), InvitesOf(text, db, org, key), SessionsOf(text, db, org, key))
  }

  /** any(records.values()). */
  predicate Any(r: Records) {
    r.resumes != {} || r.fields != {} || r.invites != {} || r.responses != {} || r.sessions != {} || r.turns != {}
    || r.consents != {} || r.tasks != {} || r.snapshots != {} || r.executions != {} || r.strokes != {}
    || r.messages != {} || r.evaluations != {}
  }

  // ----- redacting -----

  function Alias(uuid: string): (email: string) {
    "redacted-" + uuid + "@invalid.example"
  }

  predicate IsPii(name: string) {
    name == "email" || name == "phone" || name == "name" || name == "full_name" || name == "linkedin"
  }

  function RedactResume(r: Resume): (redacted: Resume) {
    r.(email := None, fullText := Redacted, filename := Redacted)
  }

  function RedactField(f: Field): (redacted: Field) {
    if IsPii(f.name) then f.(value := Redacted, quote := Redacted) else f
  }

  function RedactInvite(i: Invite): (redacted: Invite) {
    i.(email := Alias(i.uuid))
  }

  function RedactResponse(r: Response): (redacted: Response) {
    r.(answers := map[], history := [])
  }

  function RedactSession(s: Session): (redacted: Session) {
    s.(email := Alias(s.uuid))
  }

  function RedactTurn(t: Turn): (redacted: Turn) {
    t.(answer := Overwritten(t.answer, Redacted))
  }

  function RedactSnapshot(s: Snapshot): (redacted: Snapshot) {
    s.(source := Redacted)
  }

  function RedactExecution(e: Execution): (redacted: Execution) {
    e.(source := Redacted, stdin := Redacted, stdout := Redacted, stderr := Redacted)
  }

  function RedactMessage(m: Message): (redacted: Message) {
    if m.author == "candidate" then m.(body := Redacted, authorLabel := Redacted) else m
  }

  function RedactEvaluation(e: Evaluation): (redacted: Evaluation) {
    e.(payload := e.payload["candidate_email" := Redacted])
  }

  function Rewrite<R>(rows: seq<R>, chosen: set<nat>, redact: R -> R): (rows': seq<R>)
    ensures |rows'| == |rows|
    ensures forall i | 0 <= i < |rows| && i !in chosen :: rows'[i] == rows[i]
    ensures forall i | 0 <= i < |rows| && i in chosen :: rows'[i] == redact(rows[i])
  {
    seq(|rows|, i requires 0 <= i < |rows| => if i in chosen then redact(rows[i]) else rows[i])
  }

  function Redact(db: Db, r: Records): (db': Db) {
    db.(resumes := Rewrite(db.resumes, r.resumes, RedactResume),
        fields := Rewrite(db.fields, r.fields, RedactField),
        invites := Rewrite(db.invites, r.invites, RedactInvite),
        responses := Rewrite(db.responses, r.responses, RedactResponse),
        sessions := Rewrite(db.sessions, r.sessions, RedactSession),
        turns := Rewrite(db.turns, r.turns, RedactTurn),
        snapshots := Rewrite(db.snapshots, r.snapshots, RedactSnapshot),
        executions := Rewrite(db.executions, r.executions, RedactExecution),
        messages := Rewrite(db.messages, r.messages, RedactMessage),
        evaluations := Rewrite(db.evaluations, r.evaluations, RedactEvaluation))
  }

  function Erase(text: TextOps, db: Db, org: nat, email: string): (db': Db) {
    Redact(db, Find(text, db, org, email))
  }

  // ----- the code -----

  /** One of the redaction loops: overwrite each found row in place. */
  method OverwriteRows<R>(rows: seq<R>, chosen: set<nat>, redact: R -> R) returns (rows': seq<R>)
    ensures rows' == Rewrite(rows, chosen, redact)
  {
    rows' := rows;
    for i := 0 to |rows|
      invariant |rows'| == |rows|
      invariant forall j | 0 <= j < i :: rows'[j] == if j in chosen then redact(rows[j]) else rows[j]
      invariant forall j | i <= j < |rows| :: rows'[j] == rows[j]
    {
      if i in chosen {
        rows' := rows'[i := redact(rows[i])];
      }
    }
  }

  class Store {
    var db: Db

    constructor (db: Db)
      ensures this.db == db
    {
      this.db := db;
    }

    method ApplyErasure(records: Records)
      modifies this
      ensures db == Redact(old(db), records)
    {
      var resumes := OverwriteRows(db.resumes, records.resumes, RedactResume);
      var fields := OverwriteRows(db.fields, records.fields, RedactField);
      var invites := OverwriteRows(db.invites, records.invites, RedactInvite);
      var responses := OverwriteRows(db.responses, records.responses, RedactResponse);
      var sessions := OverwriteRows(db.sessions, records.sessions, RedactSession);
      db := db.(resumes := resumes, fields := fields, invites := invites, responses := responses, sessions := sessions);
      var turns := OverwriteRows(db.turns, records.turns, RedactTurn);
      var snapshots := OverwriteRows(db.snapshots, records.snapshots, RedactSnapshot);
      var executions := OverwriteRows(db.executions, records.executions, RedactExecution);
      var messages := OverwriteRows(db.messages, records.messages, RedactMessage);
      var evaluations := OverwriteRows(db.evaluations, records.evaluations, RedactEvaluation);
      db := db.(turns := turns, snapshots := snapshots, executions := executions, messages := messages,
                evaluations := evaluations);
    }

    /** POST /dsar/erase. */
    method EraseCandidate(text: TextOps, org: nat, email: string, confirm: bool) returns (code: nat)
      modifies this
      ensures code == (if !confirm then 400 else if !Any(Find(text, old(db), org, email)) then 404 else 200)
      ensures db == if code == 200 then Erase(text, old(db), org, email) else old(db)
    {
      if !confirm { return 400; }
      var records := Find(text, db, org, email);
      if !Any(records) { return 404; }
      ApplyErasure(records);
      code := 200;
    }
  }

  // ----- rows that survive, and rows that are found again -----

  /** Erasure keeps every row and every key a lookup follows. */
  lemma GatherAfter(db: Db, r: Records, org: nat, resumes: set<nat>, invites: set<nat>, sessions: set<nat>)
    ensures Gather(Redact(db, r), org, resumes, invites, sessions) == Gather(db, org, resumes, invites, sessions)
  {
    var db' := Redact(db, r);
    assert FieldsOf(db', resumes) == FieldsOf(db, resumes);
    assert ResponsesOf(db', invites) == ResponsesOf(db, invites);
    assert TurnsOf(db', sessions) == TurnsOf(db, sessions);
    assert SnapshotsOf(db', TasksOf(db, sessions)) == SnapshotsOf(db, TasksOf(db, sessions));
    assert ExecutionsOf(db', TasksOf(db, sessions)) == ExecutionsOf(db, TasksOf(db, sessions));
    assert MessagesOf(db', sessions) == MessagesOf(db, sessions);
    assert EvaluationsOf(db', org, resumes) == EvaluationsOf(db, org, resumes);
  }

  /** The found invites whose generated address happens to be the looked-up one. */
  function AliasedInvites(text: TextOps, db: Db, found: set<nat>, key: string): (aliased: set<nat>) {
    set i | i in found && i < |db.invites| && text.lower(Alias(db.invites[i].uuid)) == key
  }

  function AliasedSessions(text: TextOps, db: Db, found: set<nat>, key: string): (aliased: set<nat>) {
    set i | i in found && i < |db.sessions| && text.lower(Alias(db.sessions[i].uuid)) == key
  }

  /** What any address finds after the erasure of one, in terms of what it found before. */
  lemma RootsAfter(text: TextOps, db: Db, org: nat, email: string, key: string)
    ensures var r := Find(text, db, org, email);
            var db' := Redact(db, r);
            && ResumesOf(text, db', org, key) == ResumesOf(text, db, org, key) - r.resumes
            && InvitesOf(text, db', org, key)
               == (InvitesOf(text, db, org, key) - r.invites) + AliasedInvites(text, db, r.invites, key)
            && SessionsOf(text, db', org, key)
               == (SessionsOf(text, db, org, key) - r.sessions) + AliasedSessions(text, db, r.sessions, key)
  {
  }

  predicate IsAlias(text: TextOps, db: Db, r: Records, key: string) {
    AliasedInvites(text, db, r.invites, key) != {} || AliasedSessions(text, db, r.sessions, key) != {}
  }

  lemma GatherNothing(db: Db, org: nat)
    ensures !Any(Gather(db, org, {}, {}, {}))
  {
    assert TasksOf(db, {}) == {};
  }

  /** An erased address finds nothing any more, unless it is itself an address the erasure generated. */
  lemma NothingLeftIff(text: TextOps, db: Db, org: nat, email: string)
    ensures var r := Find(text, db, org, email);
            !Any(Find(text, Redact(db, r), org, email)) <==> !IsAlias(text, db, r, Normal(text, email))
  {
    var key := Normal(text, email);
    var r := Find(text, db, org, email);
    var db' := Redact(db, r);
    RootsAfter(text, db, org, email, key);
    assert ResumesOf(text, db', org, key) == {};
    assert InvitesOf(text, db', org, key) == AliasedInvites(text, db, r.invites, key);
    assert SessionsOf(text, db', org, key) == AliasedSessions(text, db, r.sessions, key);
    if !IsAlias(text, db, r, key) {
      GatherNothing(db', org);
    }
  }

  /** An address is found by others only through itself: what two addresses find is disjoint. */
  predicate Apart(a: Records, b: Records) {
    && a.resumes !! b.resumes && a.fields !! b.fields && a.invites !! b.invites && a.responses !! b.responses
    && a.sessions !! b.sessions && a.turns !! b.turns && a.consents !! b.consents && a.tasks !! b.tasks
    && a.snapshots !! b.snapshots && a.executions !! b.executions && a.strokes !! b.strokes
    && a.messages !! b.messages && a.evaluations !! b.evaluations
  }

  lemma DifferentAddressesApart(text: TextOps, db: Db, org: nat, email: string, other: string)
    requires Normal(text, email) != Normal(text, other)
    ensures Apart(Find(text, db, org, email), Find(text, db, org, other))
  {
  }

  /** Every found row is the same in both databases. */
  predicate SameRows(db: Db, db': Db, r: Records) {
    && |db'.resumes| == |db.resumes| && |db'.fields| == |db.fields| && |db'.invites| == |db.invites|
    && |db'.responses| == |db.responses| && |db'.sessions| == |db.sessions| && |db'.turns| == |db.turns|
    && |db'.snapshots| == |db.snapshots| && |db'.executions| == |db.executions|
    && |db'.messages| == |db.messages| && |db'.evaluations| == |db.evaluations|
    && db'.consents == db.consents && db'.tasks == db.tasks && db'.strokes == db.strokes
    && (forall i | i in r.resumes && i < |db.resumes| :: db'.resumes[i] == db.resumes[i])
    && (forall i | i in r.fields && i < |db.fields| :: db'.fields[i] == db.fields[i])
    && (forall i | i in r.invites && i < |db.invites| :: db'.invites[i] == db.invites[i])
    && (forall i | i in r.responses && i < |db.responses| :: db'.responses[i] == db.responses[i])
    && (forall i | i in r.sessions && i < |db.sessions| :: db'.sessions[i] == db.sessions[i])
    && (forall i | i in r.turns && i < |db.turns| :: db'.turns[i] == db.turns[i])
    && (forall i | i in r.snapshots && i < |db.snapshots| :: db'.snapshots[i] == db.snapshots[i])
    && (forall i | i in r.executions && i < |db.executions| :: db'.executions[i] == db.executions[i])
    && (forall i | i in r.messages && i < |db.messages| :: db'.messages[i] == db.messages[i])
    && (forall i | i in r.evaluations && i < |db.evaluations| :: db'.evaluations[i] == db.evaluations[i])
  }

  lemma ApartRowsSame(db: Db, r: Records, others: Records)
    requires Apart(r, others)
    ensures SameRows(db, Redact(db, r), others)
  {
  }

  predicate Within(a: Records, b: Records) {
    && a.resumes <= b.resumes && a.fields <= b.fields && a.invites <= b.invites && a.responses <= b.responses
    && a.sessions <= b.sessions && a.turns <= b.turns && a.consents <= b.consents && a.tasks <= b.tasks
    && a.snapshots <= b.snapshots && a.executions <= b.executions && a.strokes <= b.strokes
    && a.messages <= b.messages && a.evaluations <= b.evaluations
  }

  lemma GatherWithin(db: Db, org: nat, resumes: set<nat>, invites: set<nat>, sessions: set<nat>, r: Records)
    requires resumes <= r.resumes && invites <= r.invites && sessions <= r.sessions
    requires r == Gather(db, org, r.resumes, r.invites, r.sessions)
    ensures Within(Gather(db, org, resumes, invites, sessions), r)
  {
    assert TasksOf(db, sessions) <= TasksOf(db, r.sessions);
  }

  /** Another address still finds what it found, and perhaps what got a generated address equal to it. */
  lemma OthersStillFound(text: TextOps, db: Db, org: nat, email: string, other: string)
    requires Normal(text, email) != Normal(text, other)
    ensures Within(Find(text, db, org, other), Find(text, Erase(text, db, org, email), org, other))
  {
    var r, before := Find(text, db, org, email), Find(text, db, org, other);
    var after := Find(text, Redact(db, r), org, other);
    DifferentAddressesApart(text, db, org, email, other);
    RootsAfter(text, db, org, email, Normal(text, other));
    GatherAfter(db, r, org, after.resumes, after.invites, after.sessions);
    assert before.resumes - r.resumes == before.resumes;
    assert before.invites - r.invites == before.invites;
    assert before.sessions - r.sessions == before.sessions;
    GatherWithin(db, org, before.resumes, before.invites, before.sessions, after);
  }

  /** Erasing one address keeps the size of every table, leaves every record of another address as it
      was, and leaves the other address finding what it found, unless that is a generated address. */
  lemma OthersUntouched(text: TextOps, db: Db, org: nat, email: string, other: string)
    requires Normal(text, email) != Normal(text, other)
    ensures var r := Find(text, db, org, email);
            var db' := Redact(db, r);
            && SameRows(db, db', Find(text, db, org, other))
            && (Find(text, db', org, other) == Find(text, db, org, other)
                <==> !IsAlias(text, db, r, Normal(text, other)))
  {
    var key := Normal(text, other);
    var r, before := Find(text, db, org, email), Find(text, db, org, other);
    var db' := Redact(db, r);
    DifferentAddressesApart(text, db, org, email, other);
    ApartRowsSame(db, r, before);
    RootsAfter(text, db, org, email, key);
    assert before.resumes - r.resumes == before.resumes;
    assert before.invites - r.invites == before.invites;
    assert before.sessions - r.sessions == before.sessions;
    var invites, sessions := AliasedInvites(text, db, r.invites, key), AliasedSessions(text, db, r.sessions, key);
    GatherAfter(db, r, org, before.resumes, before.invites + invites, before.sessions + sessions);
    if IsAlias(text, db, r, key) {
      assert invites !! before.invites && sessions !! before.sessions;
      assert before.invites + invites != before.invites || before.sessions + sessions != before.sessions by {
        if i :| i in invites {
          assert i in before.invites + invites;
        } else {
          var i :| i in sessions;
          assert i in before.sessions + sessions;
        }
      }
    } else {
      assert before.invites + {} == before.invites && before.sessions + {} == before.sessions;
    }
  }

  // ----- other organizations -----

  lemma OrganizationsApart(text: TextOps, db: Db, org: nat, email: string, org': nat, other: string)
    requires org != org'
    ensures Apart(Find(text, db, org, email), Find(text, db, org', other))
  {
  }

  lemma ForeignRootsKept(text: TextOps, db: Db, org: nat, email: string, org': nat, key: string)
    requires org != org'
    ensures var db' := Erase(text, db, org, email);
            && ResumesOf(text, db', org', key) == ResumesOf(text, db, org', key)
            && InvitesOf(text, db', org', key) == InvitesOf(text, db, org', key)
            && SessionsOf(text, db', org', key) == SessionsOf(text, db, org', key)
  {
  }

  /** Erasing in one organization leaves every record and every lookup of another as it was, whatever the
      addresses, generated ones included. */
  lemma OtherOrganizationsUntouched(text: TextOps, db: Db, org: nat, email: string, org': nat, other: string)
    requires org != org'
    ensures var db' := Erase(text, db, org, email);
            && SameRows(db, db', Find(text, db, org', other))
            && Find(text, db', org', other) == Find(text, db, org', other)
  {
    var r, before := Find(text, db, org, email), Find(text, db, org', other);
    OrganizationsApart(text, db, org, email, org', other);
    ApartRowsSame(db, r, before);
    ForeignRootsKept(text, db, org, email, org', Normal(text, other));
    GatherAfter(db, r, org', before.resumes, before.invites, before.sessions);
  }

  // ----- an address that is a generated one -----

  function NoRows(): (db: Db) {
    Db([], [], [], [], [], [], [], [], [], [], [], [], [])
  }

  /** Text calls that change nothing: everything is lower-case and unpadded. */
  function PlainText(): (text: TextOps) {
    TextOps(s => s, s => s)
  }

  /** A session invited under the very address its erasure generates is found again. */
  lemma AliasIsFoundAgain(org: nat, uuid: string)
    ensures var db := NoRows().(sessions := [Session(org, uuid, Alias(uuid))]);
            && IsAlias(PlainText(), db, Find(PlainText(), db, org, Alias(uuid)), Alias(uuid))
            && Any(Find(PlainText(), Erase(PlainText(), db, org, Alias(uuid)), org, Alias(uuid)))
  {
    var db := NoRows().(sessions := [Session(org, uuid, Alias(uuid))]);
    var r := Find(PlainText(), db, org, Alias(uuid));
    assert 0 in r.sessions;
    assert 0 in AliasedSessions(PlainText(), db, r.sessions, Alias(uuid));
    NothingLeftIff(PlainText(), db, org, Alias(uuid));
  }

  // ----- erasing twice -----

  lemma RewriteTwice<R(!new)>(rows: seq<R>, first: set<nat>, second: set<nat>, redact: R -> R)
    requires second <= first && forall r :: redact(redact(r)) == redact(r)
    ensures Rewrite(Rewrite(rows, first, redact), second, redact) == Rewrite(rows, first, redact)
  {
  }

  lemma RedactTwice(db: Db, r: Records, again: Records)
    requires Within(again, r)
    ensures Redact(Redact(db, r), again) == Redact(db, r)
  {
    RewriteTwice(db.resumes, r.resumes, again.resumes, RedactResume);
    RewriteTwice(db.fields, r.fields, again.fields, RedactField);
    RewriteTwice(db.invites, r.invites, again.invites, RedactInvite);
    RewriteTwice(db.responses, r.responses, again.responses, RedactResponse);
    RewriteTwice(db.sessions, r.sessions, again.sessions, RedactSession);
    RewriteTwice(db.turns, r.turns, again.turns, RedactTurn);
    RewriteTwice(db.snapshots, r.snapshots, again.snapshots, RedactSnapshot);
    RewriteTwice(db.executions, r.executions, again.executions, RedactExecution);
    RewriteTwice(db.messages, r.messages, again.messages, RedactMessage);
    forall e ensures RedactEvaluation(RedactEvaluation(e)) == RedactEvaluation(e) {
      var redacted := e.payload["candidate_email" := Redacted];
      assert redacted["candidate_email" := Redacted] == redacted;
    }
    RewriteTwice(db.evaluations, r.evaluations, again.evaluations, RedactEvaluation);
  }

  /** Erasing an address a second time changes nothing, even where it finds its own aliases. */
  lemma EraseIsIdempotent(text: TextOps, db: Db, org: nat, email: string)
    ensures var once := Erase(text, db, org, email); Erase(text, once, org, email) == once
  {
    var key := Normal(text, email);
    var r := Find(text, db, org, email);
    var once := Redact(db, r);
    RootsAfter(text, db, org, email, key);
    var resumes, invites, sessions :=
      ResumesOf(text, once, org, key), InvitesOf(text, once, org, key), SessionsOf(text, once, org, key);
    GatherAfter(db, r, org, resumes, invites, sessions);
    GatherWithin(db, org, resumes, invites, sessions, r);
    RedactTwice(db, r, Find(text, once, org, email));
  }

  /** Erasure never opens an answered turn nor closes an open one. */
  lemma TurnsStayAsOpen(text: TextOps, db: Db, org: nat, email: string, i: nat)
    requires i < |db.turns|
    ensures var t, t' := db.turns[i], Erase(text, db, org, email).turns[i];
            t'.session == t.session && t'.question == t.question && (t'.answer.None? <==> t.answer.None?)
  {
  }

  // ----- what is found, by the keys -----

  /** The roots: rows of the organization with the address, without its surrounding whitespace and in lower case. */
  lemma RootsFound(text: TextOps, db: Db, org: nat, email: string, i: nat)
    ensures var r := Find(text, db, org, email);
            var key := text.lower(text.strip(email));
            && (i in r.resumes <==> i < |db.resumes| && db.resumes[i].org == org && db.resumes[i].email.Some?
                                    && text.lower(db.resumes[i].email.value) == key)
            && (i in r.invites <==> i < |db.invites| && db.invites[i].org == org
                                    && text.lower(db.invites[i].email) == key)
            && (i in r.sessions <==> i < |db.sessions| && db.sessions[i].org == org
                                     && text.lower(db.sessions[i].email) == key)
  {
  }

  /** The rows below them: each is found exactly when the row it belongs to is. */
  lemma RowsFound(text: TextOps, db: Db, org: nat, email: string, i: nat)
    ensures var r := Find(text, db, org, email);
            && (i in r.fields <==> i < |db.fields| && db.fields[i].resume in r.resumes)
            && (i in r.responses <==> i < |db.responses| && db.responses[i].invite in r.invites)
            && (i in r.turns <==> i < |db.turns| && db.turns[i].session in r.sessions)
            && (i in r.consents <==> i < |db.consents| && db.consents[i].session in r.sessions)
            && (i in r.tasks <==> i < |db.tasks| && db.tasks[i].session in r.sessions)
            && (i in r.snapshots <==> i < |db.snapshots| && db.snapshots[i].task in r.tasks)
            && (i in r.executions <==> i < |db.executions| && db.executions[i].task in r.tasks)
            && (i in r.strokes <==> i < |db.strokes| && db.strokes[i].session in r.sessions)
            && (i in r.messages <==> i < |db.messages| && db.messages[i].session in r.sessions)
            && (i in r.evaluations <==> i < |db.evaluations| && db.evaluations[i].org == org
                                        && db.evaluations[i].resume in r.resumes)
  {
  }

  // ----- what is gone -----

  /** An erased resume has no address, text or file name left; an erased invite or session has a generated address. */
  lemma RootsErased(text: TextOps, db: Db, org: nat, email: string, i: nat)
    ensures var r := Find(text, db, org, email);
            var db' := Erase(text, db, org, email);
            && |db'.resumes| == |db.resumes| && |db'.invites| == |db.invites| && |db'.sessions| == |db.sessions|
            && (i in r.resumes ==>
                  db'.resumes[i] == Resume(db.resumes[i].org, None, Redacted, Redacted, db.resumes[i].createdAt))
            && (i in r.invites ==>
                  db'.invites[i] == Invite(db.invites[i].org, db.invites[i].uuid,
                                           "redacted-" + db.invites[i].uuid + "@invalid.example"))
            && (i in r.sessions ==>
                  db'.sessions[i] == Session(db.sessions[i].org, db.sessions[i].uuid,
                                             "redacted-" + db.sessions[i].uuid + "@invalid.example"))
  {
  }

  /** Of an erased field of one of the five names neither value nor quote is left; other fields stay. An erased response
      has no answers and no history, and an erased turn no answer, if there was one. */
  lemma AnswersErased(text: TextOps, db: Db, org: nat, email: string, i: nat)
    ensures var r := Find(text, db, org, email);
            var db' := Erase(text, db, org, email);
            && |db'.fields| == |db.fields| && |db'.responses| == |db.responses| && |db'.turns| == |db.turns|
            && (i in r.fields ==>
                  var f := db.fields[i];
                  db'.fields[i]
                  == if f.name == "email" || f.name == "phone" || f.name == "name" || f.name == "full_name"
                        || f.name == "linkedin" then Field(f.resume, f.name, Redacted, Redacted) else f)
            && (i in r.responses ==> db'.responses[i] == Response(db.responses[i].invite, map[], []))
            && (i in r.turns ==>
                  var t := db.turns[i];
                  db'.turns[i] == Turn(t.session, t.question, if t.answer.Some? then Some(Redacted) else None))
  {
  }

  /** An erased snapshot has no source left, and an erased execution no source, input or output. */
  lemma CodeErased(text: TextOps, db: Db, org: nat, email: string, i: nat)
    ensures var r := Find(text, db, org, email);
            var db' := Erase(text, db, org, email);
            && |db'.snapshots| == |db.snapshots| && |db'.executions| == |db.executions|
            && (i in r.snapshots ==> db'.snapshots[i] == Snapshot(db.snapshots[i].task, Redacted))
            && (i in r.executions ==>
                  db'.executions[i] == Execution(db.executions[i].task, Redacted, Redacted, Redacted, Redacted))
  {
  }

  /** An erased message of the candidate has no label and no body left, others stay; an erased evaluation has no
      address. */
  lemma WordsErased(text: TextOps, db: Db, org: nat, email: string, i: nat)
    ensures var r := Find(text, db, org, email);
            var db' := Erase(text, db, org, email);
            && |db'.messages| == |db.messages| && |db'.evaluations| == |db.evaluations|
            && (i in r.messages ==>
                  var m := db.messages[i];
                  db'.messages[i]
                  == if m.author == "candidate" then Message(m.session, m.author, Redacted, Redacted) else m)
            && (i in r.evaluations ==>
                  var e, e' := db.evaluations[i], db'.evaluations[i];
                  && e'.org == e.org && e'.resume == e.resume
                  && e'.payload.Keys == e.payload.Keys + {"candidate_email"}
                  && e'.payload["candidate_email"] == Redacted
                  && forall k | k in e.payload && k != "candidate_email" :: e'.payload[k] == e.payload[k])
  {
  }

  /** The rows that are not found, and the tables erasure only reads, stay as they are. */
  lemma RestKept(text: TextOps, db: Db, org: nat, email: string)
    ensures var r := Find(text, db, org, email);
            var db' := Erase(text, db, org, email);
            && db'.consents == db.consents && db'.tasks == db.tasks && db'.strokes == db.strokes
            && (forall i | 0 <= i < |db.resumes| && i !in r.resumes :: db'.resumes[i] == db.resumes[i])
            && (forall i | 0 <= i < |db.fields| && i !in r.fields :: db'.fields[i] == db.fields[i])
            && (forall i | 0 <= i < |db.invites| && i !in r.invites :: db'.invites[i] == db.invites[i])
            && (forall i | 0 <= i < |db.responses| && i !in r.responses :: db'.responses[i] == db.responses[i])
            && (forall i | 0 <= i < |db.sessions| && i !in r.sessions :: db'.sessions[i] == db.sessions[i])
            && (forall i | 0 <= i < |db.turns| && i !in r.turns :: db'.turns[i] == db.turns[i])
            && (forall i | 0 <= i < |db.snapshots| && i !in r.snapshots :: db'.snapshots[i] == db.snapshots[i])
            && (forall i | 0 <= i < |db.executions| && i !in r.executions :: db'.executions[i] == db.executions[i])
            && (forall i | 0 <= i < |db.messages| && i !in r.messages :: db'.messages[i] == db.messages[i])
            && (forall i | 0 <= i < |db.evaluations| && i !in r.evaluations :: db'.evaluations[i] == db.evaluations[i])
  {
  }

  /** A lookup comes up empty exactly when no resume, invite or session has the address. */
  lemma AnyIff(text: TextOps, db: Db, org: nat, email: string)
    ensures var r := Find(text, db, org, email);
            Any(r) <==> r.resumes != {} || r.invites != {} || r.sessions != {}
  {
    var r := Find(text, db, org, email);
    if r.resumes == {} && r.invites == {} && r.sessions == {} {
      GatherNothing(db, org);
    }
  }
}
