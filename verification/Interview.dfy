/** One interview session and the candidate's five endpoints
    (apps/api/app/routers_interview.py), with the erasure of its answers
    (apps/api/app/routers_dsar.py) as a sixth event. Requests are served one at a time and a
    rejected one changes nothing, its transaction being rolled back. */
module Interview {
  import opened Common
  import opened InterviewEngine
  import PreCheck

  const CONSENT_TEXT_VERSION := "2026.08-v1"

  datatype Status = PendingConsent | ConsentGranted | PrecheckPassed | Active | Completed | Declined | Aborted

  datatype Consent = Consent(granted: bool, version: string)

  /** The speech-to-text provenance stored with a spoken answer. */
  datatype Attribution = Attribution(confidence: real, modelId: string, audioSha: string)

  datatype Answer = Said(text: string) | Redacted

  datatype Turn = Turn(
    sequence: nat, kind: TurnKind, topicId: Option<string>, question: Prompt,
    answer: Option<Answer>, stt: Option<Attribution>)

  /** The report as stored: with the failures it was given. */
  datatype Filed = Filed(report: PreCheck.Report, failures: seq<PreCheck.Failure>)

  /** What creation fixes: the plan and the expiry; and the text calls in force. */
  datatype Env = Env(plan: Plan, text: TextOps, expiresAt: int)

  /** The mutable columns of the session row, and its consent and turn rows in insertion order. */
  datatype Record = Record(
    status: Status, consents: seq<Consent>, filed: Option<Filed>, precheckPassed: bool,
    asked: seq<Asked>, turns: seq<Turn>, startedAt: Option<int>, finishedAt: Option<int>)

  function Created(): (r: Record) {
    Record(PendingConsent, [], None, false, [], [], None, None)
  }

  predicate Terminal(status: Status) {
    status == Completed || status == Declined || status == Aborted
  }

  predicate Expired(env: Env, status: Status, now: int) {
    env.expiresAt < now && !Terminal(status)
  }

  // ----- requests -----

  /** What became of the audio: no gateway is configured, it is no base64, the gateway fails, or a transcript. */
  datatype Audio = NotConfigured | NotBase64 | Unreachable | Transcript(text: string, stt: Attribution)

  datatype Body = Body(text: Option<string>, audio: Option<Audio>)

  datatype Request =
    | DecideConsent(now: int, version: string, granted: bool)
    | SubmitPrecheck(now: int, report: PreCheck.Report)
    | Start(now: int)
    | SubmitTurn(now: int, body: Body)
    | Finish(now: int)
    | Erase

  datatype Heard = Heard(text: string, stt: Option<Attribution>) | Refused(code: nat)

  function Hear(strip: string -> string, body: Body): (heard: Heard) {
    if body.audio.Some? then
      match body.audio.value
      case NotConfigured => Refused(503)
      case NotBase64 => Refused(400)
      case Unreachable => Refused(503)
      case Transcript(text, stt) => if strip(text) == "" then Refused(422) else Heard(strip(text), Some(stt))
    else if body.text.Some? && strip(body.text.value) != "" then Heard(strip(body.text.value), None)
    else Refused(400)
  }

  /** The unanswered turn with the highest sequence number. */
  function OpenIndex(turns: seq<Turn>): (r: Option<nat>)
    ensures r.None? ==> forall t | t in turns :: t.answer.Some?
    ensures r.Some? ==> r.value < |turns| && turns[r.value].answer.None?
                        && forall t | t in turns && t.answer.None? :: t.sequence <= turns[r.value].sequence
  {
    if turns == [] then None
    else
      var k := |turns| - 1;
      var before := OpenIndex(turns[..k]);
      assert turns == turns[..k] + [turns[k]];
      if turns[k].answer.Some? then before
      else if before.Some? && turns[before.value].sequence > turns[k].sequence then before
      else Some(k)
  }

  function NewTurn(sequence: nat, d: Decision): (turn: Turn) {
    Turn(sequence, d.kind, d.topicId, d.prompt, None, None)
  }

  // ----- what each request does to the record -----

  datatype Outcome = Outcome(record: Record, code: nat)

  function ServeConsent(env: Env, r: Record, now: int, version: string, granted: bool): (outcome: Outcome) {
    if Expired(env, r.status, now) then Outcome(r, 410)
    else if r.status != PendingConsent then Outcome(r, 409)
    else if version != CONSENT_TEXT_VERSION then Outcome(r, 400)
    else
      var r' := r.(consents := r.consents + [Consent(granted, version)]);
      Outcome(if granted then r'.(status := ConsentGranted) else r'.(status := Declined, finishedAt := Some(now)), 200)
  }

  ghost function ServePrecheck(env: Env, r: Record, now: int, report: PreCheck.Report): (outcome: Outcome) {
    if Expired(env, r.status, now) then Outcome(r, 410)
    else if r.status != ConsentGranted && r.status != PrecheckPassed then Outcome(r, 409)
    else
      var passed := PreCheck.MeetsGate(report);
      Outcome(r.(filed := Some(Filed(report, PreCheck.Failures(report))), precheckPassed := passed,
                 status := if passed then PrecheckPassed else ConsentGranted), 200)
  }

  function ServeStart(env: Env, r: Record, now: int): (outcome: Outcome)
    requires ValidPlan(env.plan)
  {
    if Expired(env, r.status, now) then Outcome(r, 410)
    else if r.status != PrecheckPassed then Outcome(r, 409)
    else
      var d := Decide(env.text.lower, env.plan, [], "");
      Outcome(r.(status := Active, startedAt := Some(now), asked := [AskedOf(d)],
                 turns := r.turns + [NewTurn(0, d)]), 200)
  }

  /** The rows after open turn k is answered and the decided turn added. */
  function AnswerRow(turns: seq<Turn>, k: nat, text: string, stt: Option<Attribution>, d: Decision): (turns': seq<Turn>)
    requires k < |turns|
  {
    turns[k := turns[k].(answer := Some(Said(text)), stt := stt)] + [NewTurn(turns[k].sequence + 1, d)]
  }

  /** The record after the open turn k has been given an answer. */
  function Answered(env: Env, r: Record, now: int, k: nat, text: string, stt: Option<Attribution>): (r': Record)
    requires ValidPlan(env.plan) && k < |r.turns|
  {
    var d := Decide(env.text.lower, env.plan, r.asked, text);
    var turns := AnswerRow(r.turns, k, text, stt, d);
    if d.kind == Closing then r.(status := Completed, finishedAt := Some(now), turns := turns)
    else r.(asked := r.asked + [AskedOf(d)], turns := turns)
  }

  function ServeTurn(env: Env, r: Record, now: int, body: Body): (outcome: Outcome)
    requires ValidPlan(env.plan)
  {
    if Expired(env, r.status, now) then Outcome(r, 410)
    else if r.status != Active then Outcome(r, 409)
    else
      var open := OpenIndex(r.turns);
      if open.None? || r.turns[open.value].kind == Closing then Outcome(r, 409)
      else
        match Hear(env.text.strip, body)
        case Refused(code) => Outcome(r, code)
        case Heard(text, stt) => Outcome(Answered(env, r, now, open.value, text, stt), 200)
  }

  function ServeFinish(env: Env, r: Record, now: int): (outcome: Outcome) {
    if Expired(env, r.status, now) then Outcome(r, 410)
    else if r.status != Active then Outcome(r, 409)
    else Outcome(r.(status := Aborted, finishedAt := Some(now)), 200)
  }

  function RedactTurn(t: Turn): (redacted: Turn) {
    t.(answer := Overwritten(t.answer, Redacted))
  }

  function ServeErase(r: Record): (outcome: Outcome) {
    Outcome(r.(turns := seq(|r.turns|, i requires 0 <= i < |r.turns| => RedactTurn(r.turns[i]))), 200)
  }

  ghost function Serve(env: Env, r: Record, req: Request): (outcome: Outcome)
    requires ValidPlan(env.plan)
  {
    match req
    case DecideConsent(now, version, granted) => ServeConsent(env, r, now, version, granted)
    case SubmitPrecheck(now, report) => ServePrecheck(env, r, now, report)
    case Start(now) => ServeStart(env, r, now)
    case SubmitTurn(now, body) => ServeTurn(env, r, now, body)
    case Finish(now) => ServeFinish(env, r, now)
    case Erase => ServeErase(r)
  }

  /** The record after these requests, in order, from creation. */
  ghost function Run(env: Env, reqs: seq<Request>): (r: Record)
    requires ValidPlan(env.plan)
  {
    if reqs == [] then Created()
    else Serve(env, Run(env, reqs[..|reqs| - 1]), reqs[|reqs| - 1]).record
  }

  // ----- the endpoints -----

  class Session {
    const env: Env
    var status: Status
    var consents: seq<Consent>
    var filed: Option<Filed>
    var precheckPassed: bool
    var asked: seq<Asked>
    var turns: seq<Turn>
    var startedAt: Option<int>
    var finishedAt: Option<int>

    function Snapshot(): (r: Record)
      reads this
    {
      Record(status, consents, filed, precheckPassed, asked, turns, startedAt, finishedAt)
    }

    constructor (env: Env)
      requires ValidPlan(env.plan)
      ensures this.env == env && Snapshot() == Created()
    {
      this.env := env;
      status, consents, filed, precheckPassed := PendingConsent, [], None, false;
      asked, turns, startedAt, finishedAt := [], [], None, None;
    }

    method DecideConsent(now: int, version: string, granted: bool) returns (code: nat)
      modifies this
      ensures Outcome(Snapshot(), code) == ServeConsent(env, old(Snapshot()), now, version, granted)
    {
      if Expired(env, status, now) { return 410; }
      if status != PendingConsent { return 409; }
      if version != CONSENT_TEXT_VERSION { return 400; }
      consents := consents + [Consent(granted, version)];
      if !granted {
        status := Declined;
        finishedAt := Some(now);
        return 200;
      }
      status := ConsentGranted;
      code := 200;
    }

    /** The verdict and the failures are the response's body. */
    method SubmitPrecheck(now: int, body: PreCheck.Report)
      returns (code: nat, passed: bool, failures: seq<PreCheck.Failure>)
      modifies this
      ensures Outcome(Snapshot(), code) == ServePrecheck(env, old(Snapshot()), now, body)
      ensures code == 200 ==> filed == Some(Filed(body, failures)) && passed == precheckPassed
      ensures code == 200 ==> (passed <==> failures == [])
    {
      if Expired(env, status, now) { return 410, false, []; }
      if status != ConsentGranted && status != PrecheckPassed { return 409, false, []; }
      passed, failures := PreCheck.Evaluate(body);
      PreCheck.PassesIffGateMet(body);
      filed := Some(Filed(body, failures));
      precheckPassed := passed;
      if passed {
        status := PrecheckPassed;
      } else if status == PrecheckPassed {
        status := ConsentGranted;
      }
      code := 200;
    }

    method Start(now: int) returns (code: nat)
      requires ValidPlan(env.plan)
      modifies this
      ensures Outcome(Snapshot(), code) == ServeStart(env, old(Snapshot()), now)
    {
      if Expired(env, status, now) { return 410; }
      if status != PrecheckPassed { return 409; }
      var d := Decide(env.text.lower, env.plan, [], "");
      status := Active;
      startedAt := Some(now);
      asked := [AskedOf(d)];
      turns := turns + [NewTurn(0, d)];
      code := 200;
    }

    method SubmitTurn(now: int, body: Body) returns (code: nat)
      requires ValidPlan(env.plan)
      modifies this
      ensures Outcome(Snapshot(), code) == ServeTurn(env, old(Snapshot()), now, body)
    {
      if Expired(env, status, now) { return 410; }
      if status != Active { return 409; }
      var open := OpenIndex(turns);
      if open.None? || turns[open.value].kind == Closing { return 409; }
      var k := open.value;
      var heard := Hear(env.text.strip, body);
      if heard.Refused? { return heard.code; }
      turns := turns[k := turns[k].(answer := Some(Said(heard.text)), stt := heard.stt)];
      var d := Decide(env.text.lower, env.plan, asked, heard.text);
      if d.kind == Closing {
        status := Completed;
        finishedAt := Some(now);
      } else {
        asked := asked + [AskedOf(d)];
      }
      turns := turns + [NewTurn(turns[k].sequence + 1, d)];
      code := 200;
    }

    method Finish(now: int) returns (code: nat)
      modifies this
      ensures Outcome(Snapshot(), code) == ServeFinish(env, old(Snapshot()), now)
    {
      if Expired(env, status, now) { return 410; }
      if status != Active { return 409; }
      status := Aborted;
      finishedAt := Some(now);
      code := 200;
    }
  }

  // ----- the invariant of every run -----

  predicate Begun(status: Status) {
    status == Active || status == Aborted || status == Completed
  }

  /** Rows in sequence, all answered but the last. */
  predicate RowsInOrder(turns: seq<Turn>) {
    && (forall i | 0 <= i < |turns| :: turns[i].sequence == i)
    && (forall i | 0 <= i < |turns| :: turns[i].answer.None? <==> i == |turns| - 1)
  }

  /** The rows agree with the asked list, entry for entry. */
  predicate Mirrors(turns: seq<Turn>, asked: seq<Asked>) {
    && |asked| <= |turns|
    && forall i | 0 <= i < |asked| :: turns[i].kind == asked[i].kind && turns[i].topicId == Some(asked[i].topicId)
  }

  predicate TurnShape(r: Record) {
    && RowsInOrder(r.turns)
    && Mirrors(r.turns, r.asked)
    && (r.status == Active || r.status == Aborted ==> |r.turns| == |r.asked| >= 1)
    && (r.status == Completed ==>
          |r.turns| == |r.asked| + 1 >= 2 && r.turns[|r.asked|].kind == Closing && r.turns[|r.asked|].topicId == None)
    && (!Begun(r.status) ==> r.turns == [] && r.asked == [])
  }

  /** What was asked is an agenda of the plan; a completed interview has been through every topic. */
  ghost predicate AskedInOrder(env: Env, r: Record) {
    Begun(r.status) ==>
      exists probed :: OnAgenda(env.plan, r.asked, probed) && (r.status == Completed ==> |probed| == |env.plan.topics|)
  }

  /** The stored failures are the report's, and the verdict says whether it meets the gate. */
  ghost predicate FiledAs(f: Filed, passed: bool) {
    f.failures == PreCheck.Failures(f.report) && (PreCheck.MeetsGate(f.report) <==> passed)
  }

  ghost predicate Gated(r: Record) {
    && (r.status == PendingConsent ==> r.consents == [])
    && (r.status == Declined ==> r.consents == [Consent(false, CONSENT_TEXT_VERSION)])
    && (r.status != PendingConsent && r.status != Declined ==> r.consents == [Consent(true, CONSENT_TEXT_VERSION)])
    && (r.precheckPassed <==> r.status == PrecheckPassed || Begun(r.status))
    && (r.precheckPassed ==> r.filed.Some?)
    && (r.filed.Some? ==> FiledAs(r.filed.value, r.precheckPassed))
    && (r.finishedAt.Some? <==> Terminal(r.status))
    && (r.startedAt.Some? <==> Begun(r.status))
  }

  ghost predicate Inv(env: Env, r: Record) {
    TurnShape(r) && AskedInOrder(env, r) && Gated(r)
  }

  lemma LastIsOpen(turns: seq<Turn>)
    requires RowsInOrder(turns) && turns != []
    ensures OpenIndex(turns) == Some(|turns| - 1)
  {
    assert turns[|turns| - 1] in turns;
  }

  lemma ConsentKeepsInv(env: Env, r: Record, now: int, version: string, granted: bool)
    requires Inv(env, r)
    ensures Inv(env, ServeConsent(env, r, now, version, granted).record)
  {
  }

  lemma PrecheckKeepsInv(env: Env, r: Record, now: int, report: PreCheck.Report)
    requires Inv(env, r)
    ensures Inv(env, ServePrecheck(env, r, now, report).record)
  {
    assert FiledAs(Filed(report, PreCheck.Failures(report)), PreCheck.MeetsGate(report));
  }

  lemma FinishKeepsInv(env: Env, r: Record, now: int)
    requires Inv(env, r)
    ensures Inv(env, ServeFinish(env, r, now).record)
  {
  }

  lemma EraseKeepsShape(r: Record)
    requires TurnShape(r)
    ensures TurnShape(ServeErase(r).record)
  {
  }

  lemma EraseKeepsInv(env: Env, r: Record)
    requires Inv(env, r)
    ensures Inv(env, ServeErase(r).record)
  {
    EraseKeepsShape(r);
    assert AskedInOrder(env, r) ==> AskedInOrder(env, ServeErase(r).record);
  }

  lemma StartKeepsInv(env: Env, r: Record, now: int)
    requires ValidPlan(env.plan) && Inv(env, r)
    ensures Inv(env, ServeStart(env, r, now).record)
  {
    var r' := ServeStart(env, r, now).record;
    if r' != r {
      assert [false][..0] == [];
      assert r'.asked == Agenda(env.plan.topics, [false]);
      assert OnAgenda(env.plan, r'.asked, [false]);
    }
  }

  lemma TopicUnlessClosing(lower: string -> string, plan: Plan, asked: seq<Asked>, text: string)
    requires ValidPlan(plan)
    ensures var d := Decide(lower, plan, asked, text); d.kind == Closing <==> d.topicId == None
  {
  }

  /** Answering changes no question, only the last row's answer, and adds one row. */
  lemma QuestionsKept(turns: seq<Turn>, text: string, stt: Option<Attribution>, d: Decision)
    requires RowsInOrder(turns) && turns != []
    ensures var n := |turns|;
            var turns' := AnswerRow(turns, n - 1, text, stt, d);
            && |turns'| == n + 1 && turns'[n] == NewTurn(n, d) && RowsInOrder(turns')
            && forall i | 0 <= i < n ::
                 turns'[i].kind == turns[i].kind && turns'[i].topicId == turns[i].topicId
                 && turns'[i].question == turns[i].question
  {
  }

  lemma AnswerKeepsShape(env: Env, r: Record, now: int, text: string, stt: Option<Attribution>)
    requires ValidPlan(env.plan) && TurnShape(r) && r.status == Active
    ensures TurnShape(Answered(env, r, now, |r.turns| - 1, text, stt))
  {
    TopicUnlessClosing(env.text.lower, env.plan, r.asked, text);
    QuestionsKept(r.turns, text, stt, Decide(env.text.lower, env.plan, r.asked, text));
  }

  lemma AnswerKeepsOrder(env: Env, r: Record, now: int, text: string, stt: Option<Attribution>)
    requires ValidPlan(env.plan) && DistinctIds(env.plan) && r.turns != [] && r.status == Active && AskedInOrder(env, r)
    ensures AskedInOrder(env, Answered(env, r, now, |r.turns| - 1, text, stt))
  {
    var probed :| OnAgenda(env.plan, r.asked, probed);
    var probed' := NextAgenda(env.text.lower, env.plan, r.asked, probed, text);
    assert OnAgenda(env.plan, Answered(env, r, now, |r.turns| - 1, text, stt).asked, probed');
  }

  lemma AnswerKeepsGates(env: Env, r: Record, now: int, text: string, stt: Option<Attribution>)
    requires ValidPlan(env.plan) && r.turns != [] && Gated(r) && r.status == Active
    ensures Gated(Answered(env, r, now, |r.turns| - 1, text, stt))
  {
  }

  lemma AnswerKeepsInv(env: Env, r: Record, now: int, text: string, stt: Option<Attribution>)
    requires ValidPlan(env.plan) && DistinctIds(env.plan) && Inv(env, r) && r.status == Active
    ensures Inv(env, Answered(env, r, now, |r.turns| - 1, text, stt))
  {
    AnswerKeepsShape(env, r, now, text, stt);
    AnswerKeepsOrder(env, r, now, text, stt);
    AnswerKeepsGates(env, r, now, text, stt);
  }

  /** What is accepted is the answer to the last row. */
  lemma TurnAnswersLast(env: Env, r: Record, now: int, body: Body)
    requires ValidPlan(env.plan) && TurnShape(r)
    ensures var r' := ServeTurn(env, r, now, body).record;
            var heard := Hear(env.text.strip, body);
            r' == r || (r.status == Active && heard.Heard?
                        && r' == Answered(env, r, now, |r.turns| - 1, heard.text, heard.stt))
  {
    if r.status == Active {
      LastIsOpen(r.turns);
    }
  }

  lemma TurnKeepsInv(env: Env, r: Record, now: int, body: Body)
    requires ValidPlan(env.plan) && DistinctIds(env.plan) && Inv(env, r)
    ensures Inv(env, ServeTurn(env, r, now, body).record)
  {
    TurnAnswersLast(env, r, now, body);
    var heard := Hear(env.text.strip, body);
    if r.status == Active && heard.Heard? {
      AnswerKeepsInv(env, r, now, heard.text, heard.stt);
    }
  }

  /** Every request, erasure included, keeps the invariant. */
  lemma ServeKeepsInv(env: Env, r: Record, req: Request)
    requires ValidPlan(env.plan) && DistinctIds(env.plan) && Inv(env, r)
    ensures Inv(env, Serve(env, r, req).record)
  {
    match req
    case DecideConsent(now, version, granted) => ConsentKeepsInv(env, r, now, version, granted);
    case SubmitPrecheck(now, report) => PrecheckKeepsInv(env, r, now, report);
    case Start(now) => StartKeepsInv(env, r, now);
    case SubmitTurn(now, body) => TurnKeepsInv(env, r, now, body);
    case Finish(now) => FinishKeepsInv(env, r, now);
    case Erase => EraseKeepsInv(env, r);
  }

  /** The turn rows, the asked list, the consent and pre-check gates and the timestamps agree in
      every reachable state. */
  lemma {:induction false} EveryRunKeepsInv(env: Env, reqs: seq<Request>)
    requires ValidPlan(env.plan) && DistinctIds(env.plan)
    ensures Inv(env, Run(env, reqs))
  {
    if reqs != [] {
      var n := |reqs| - 1;
      EveryRunKeepsInv(env, reqs[..n]);
      ServeKeepsInv(env, Run(env, reqs[..n]), reqs[n]);
    }
  }

  /** No turn is served before one granted consent at the current version and a passing report. */
  lemma NoTurnWithoutGates(env: Env, reqs: seq<Request>)
    requires ValidPlan(env.plan) && DistinctIds(env.plan) && Run(env, reqs).turns != []
    ensures var r := Run(env, reqs);
            && r.consents == [Consent(true, CONSENT_TEXT_VERSION)]
            && r.filed.Some? && PreCheck.MeetsGate(r.filed.value.report)
  {
    EveryRunKeepsInv(env, reqs);
  }

  /** However the candidate answers, the rows stay within the plan's turn budget and the closing. */
  lemma RowsWithinBudget(env: Env, reqs: seq<Request>)
    requires ValidPlan(env.plan) && DistinctIds(env.plan)
    ensures |Run(env, reqs).turns| <= TurnBudget(env.plan.topics) + 1
    ensures |Run(env, reqs).asked| <= TurnBudget(env.plan.topics)
  {
    EveryRunKeepsInv(env, reqs);
    var r := Run(env, reqs);
    if Begun(r.status) {
      var probed :| OnAgenda(env.plan, r.asked, probed);
      OpenWithinBudget(env.plan, r.asked, probed);
    }
  }

  predicate SameButAnswers(r: Record, r': Record) {
    r' == r.(turns := r'.turns)
  }

  lemma TerminalRefuses(env: Env, r: Record, req: Request)
    requires ValidPlan(env.plan) && Terminal(r.status)
    ensures SameButAnswers(r, Serve(env, r, req).record)
    ensures !req.Erase? ==> Serve(env, r, req) == Outcome(r, 409)
  {
  }

  lemma RunOneMore(env: Env, reqs: seq<Request>, req: Request)
    requires ValidPlan(env.plan)
    ensures Run(env, reqs + [req]) == Serve(env, Run(env, reqs), req).record
  {
    assert (reqs + [req])[..|reqs|] == reqs;
  }

  /** A terminal session stays as it is: later requests are refused, and only erasure still
      touches it, in its answers alone. */
  lemma {:induction false} TerminalIsForever(env: Env, reqs: seq<Request>, more: seq<Request>)
    requires ValidPlan(env.plan) && Terminal(Run(env, reqs).status)
    ensures SameButAnswers(Run(env, reqs), Run(env, reqs + more))
    ensures Erase !in more ==> Run(env, reqs + more) == Run(env, reqs)
  {
    if more == [] {
      assert reqs + more == reqs;
    } else {
      var n := |more| - 1;
      TerminalIsForever(env, reqs, more[..n]);
      assert more == more[..n] + [more[n]];
      assert reqs + more == (reqs + more[..n]) + [more[n]];
      RunOneMore(env, reqs + more[..n], more[n]);
      TerminalRefuses(env, Run(env, reqs + more[..n]), more[n]);
    }
  }

  // ----- the transcript can be replayed -----

  /** The row shows exactly what the engine decided. */
  predicate Shows(t: Turn, d: Decision) {
    t.kind == d.kind && t.topicId == d.topicId && t.question == d.prompt
  }

  predicate ShowsAll(turns: seq<Turn>, ds: seq<Decision>) {
    |ds| == |turns| && forall i | 0 <= i < |ds| :: Shows(turns[i], ds[i])
  }

  function Answers(turns: seq<Turn>): (answers: seq<string>) {
    seq(|turns|, i requires 0 <= i < |turns| =>
      if turns[i].answer.Some? && turns[i].answer.value.Said? then turns[i].answer.value.text else "")
  }

  function AnsweredRows(turns: seq<Turn>): (answered: seq<Turn>)
    requires turns != []
  {
    turns[..|turns| - 1]
  }

  /** Replaying the stored answers through the engine rebuilds the stored rows. */
  ghost predicate Replays(env: Env, r: Record)
    requires ValidPlan(env.plan)
  {
    r.turns != [] ==>
      var ds := Replay(env.text.lower, env.plan, Answers(AnsweredRows(r.turns)));
      && ShowsAll(r.turns, ds)
      && (Closed(ds) <==> r.status == Completed)
  }

  lemma HistoryIsAsked(r: Record, ds: seq<Decision>)
    requires TurnShape(r) && |r.turns| == |r.asked| && ShowsAll(r.turns, ds)
    ensures History(ds) == r.asked
  {
  }

  lemma AnswersGrow(turns: seq<Turn>, text: string, stt: Option<Attribution>, d: Decision)
    requires turns != []
    ensures Answers(AnsweredRows(AnswerRow(turns, |turns| - 1, text, stt, d))) == Answers(AnsweredRows(turns)) + [text]
  {
  }

  lemma ReplayOneMore(lower: string -> string, plan: Plan, answers: seq<string>, text: string)
    requires ValidPlan(plan) && !Closed(Replay(lower, plan, answers))
    ensures var ds := Replay(lower, plan, answers);
            Replay(lower, plan, answers + [text]) == ds + [Decide(lower, plan, History(ds), text)]
  {
    assert (answers + [text])[..|answers|] == answers;
  }

  lemma ShowsOneMore(turns: seq<Turn>, text: string, stt: Option<Attribution>, d: Decision, ds: seq<Decision>)
    requires RowsInOrder(turns) && turns != [] && ShowsAll(turns, ds)
    ensures ShowsAll(AnswerRow(turns, |turns| - 1, text, stt, d), ds + [d])
  {
    QuestionsKept(turns, text, stt, d);
  }

  lemma AnswerKeepsReplay(env: Env, r: Record, now: int, text: string, stt: Option<Attribution>)
    requires ValidPlan(env.plan) && TurnShape(r) && r.status == Active && Replays(env, r)
    ensures Replays(env, Answered(env, r, now, |r.turns| - 1, text, stt))
  {
    var answers := Answers(AnsweredRows(r.turns));
    var ds := Replay(env.text.lower, env.plan, answers);
    HistoryIsAsked(r, ds);
    var d := Decide(env.text.lower, env.plan, r.asked, text);
    AnswersGrow(r.turns, text, stt, d);
    ReplayOneMore(env.text.lower, env.plan, answers, text);
    ShowsOneMore(r.turns, text, stt, d, ds);
  }

  lemma FirstTurnShows(lower: string -> string, plan: Plan)
    requires ValidPlan(plan)
    ensures var d := Decide(lower, plan, [], "");
            var ds := Replay(lower, plan, Answers(AnsweredRows([NewTurn(0, d)])));
            ShowsAll([NewTurn(0, d)], ds) && !Closed(ds)
  {
    var d := Decide(lower, plan, [], "");
    assert Answers(AnsweredRows([NewTurn(0, d)])) == [];
  }

  lemma StartReplays(env: Env, r: Record, now: int)
    requires ValidPlan(env.plan) && TurnShape(r) && r.status == PrecheckPassed
    ensures Replays(env, ServeStart(env, r, now).record)
  {
    var d := Decide(env.text.lower, env.plan, [], "");
    FirstTurnShows(env.text.lower, env.plan);
    assert r.turns == [] && r.turns + [NewTurn(0, d)] == [NewTurn(0, d)];
  }

  lemma TurnKeepsReplay(env: Env, r: Record, now: int, body: Body)
    requires ValidPlan(env.plan) && TurnShape(r) && Replays(env, r)
    ensures Replays(env, ServeTurn(env, r, now, body).record)
  {
    TurnAnswersLast(env, r, now, body);
    var heard := Hear(env.text.strip, body);
    if r.status == Active && heard.Heard? {
      AnswerKeepsReplay(env, r, now, heard.text, heard.stt);
    }
  }

  lemma SameTurnsReplay(env: Env, r: Record, r': Record)
    requires ValidPlan(env.plan) && Replays(env, r)
    requires r'.turns == r.turns && (r'.turns != [] ==> (r'.status == Completed <==> r.status == Completed))
    ensures Replays(env, r')
  {
  }

  lemma ServeKeepsReplay(env: Env, r: Record, req: Request)
    requires ValidPlan(env.plan) && TurnShape(r) && Replays(env, r) && !req.Erase?
    ensures Replays(env, Serve(env, r, req).record)
  {
    match req
    case DecideConsent(now, version, granted) =>
      SameTurnsReplay(env, r, ServeConsent(env, r, now, version, granted).record);
    case SubmitPrecheck(now, report) =>
      SameTurnsReplay(env, r, ServePrecheck(env, r, now, report).record);
    case Start(now) =>
      if r.status == PrecheckPassed {
        StartReplays(env, r, now);
      }
    case SubmitTurn(now, body) => TurnKeepsReplay(env, r, now, body);
    case Finish(now) =>
      SameTurnsReplay(env, r, ServeFinish(env, r, now).record);
  }

  /** Until its answers are erased, the transcript of every run is the replay of its answers. */
  lemma {:induction false} EveryRunReplays(env: Env, reqs: seq<Request>)
    requires ValidPlan(env.plan) && DistinctIds(env.plan) && Erase !in reqs
    ensures Replays(env, Run(env, reqs))
  {
    if reqs != [] {
      var n := |reqs| - 1;
      assert reqs == reqs[..n] + [reqs[n]];
      EveryRunReplays(env, reqs[..n]);
      EveryRunKeepsInv(env, reqs[..n]);
      ServeKeepsReplay(env, Run(env, reqs[..n]), reqs[n]);
    }
  }

  /** Plan and answers determine the transcript, whatever else the two runs did. */
  lemma AnswersDetermineTranscript(env: Env, env': Env, reqs: seq<Request>, reqs': seq<Request>)
    requires ValidPlan(env.plan) && DistinctIds(env.plan) && env'.plan == env.plan && env'.text == env.text
    requires Erase !in reqs && Erase !in reqs'
    requires var r, r' := Run(env, reqs), Run(env', reqs');
             r.turns != [] && r'.turns != [] && Answers(AnsweredRows(r.turns)) == Answers(AnsweredRows(r'.turns))
    ensures var r, r' := Run(env, reqs), Run(env', reqs');
            && |r.turns| == |r'.turns|
            && (r.status == Completed <==> r'.status == Completed)
            && forall i | 0 <= i < |r.turns| ::
                 && r.turns[i].kind == r'.turns[i].kind
                 && r.turns[i].topicId == r'.turns[i].topicId
                 && r.turns[i].question == r'.turns[i].question
  {
    EveryRunReplays(env, reqs);
    EveryRunReplays(env', reqs');
  }

  // ----- each request in terms of the columns -----

  /** After the expiry and in no final state. */
  predicate Late(env: Env, r: Record, now: int) {
    env.expiresAt < now && r.status != Completed && r.status != Declined && r.status != Aborted
  }

  /** 410 is the answer to every request after the expiry of a session that is not over, and to no other, and
      it changes nothing. */
  lemma GoneIffLate(env: Env, r: Record, req: Request)
    requires ValidPlan(env.plan) && !req.Erase?
    ensures Serve(env, r, req).code == 410 <==>
            env.expiresAt < req.now && r.status != Completed && r.status != Declined && r.status != Aborted
    ensures Serve(env, r, req).code == 410 <==> Late(env, r, req.now)
    ensures Serve(env, r, req).code == 410 ==> Serve(env, r, req).record == r
  {
  }

  /** Whatever is refused changes nothing. */
  lemma RefusalChangesNothing(env: Env, r: Record, req: Request)
    requires ValidPlan(env.plan)
    ensures var o := Serve(env, r, req);
            o.code in {200, 400, 409, 410, 422, 503} && (o.code != 200 ==> o.record == r)
  {
  }

  lemma ConsentIs(env: Env, r: Record, now: int, version: string, granted: bool)
    requires ValidPlan(env.plan) && !Late(env, r, now)
    ensures var o := Serve(env, r, DecideConsent(now, version, granted));
            && (o.code == 409 <==> r.status != PendingConsent)
            && (o.code == 400 <==> r.status == PendingConsent && version != "2026.08-v1")
            && (o.code == 200 <==> r.status == PendingConsent && version == "2026.08-v1")
            && (o.code == 200 && granted ==>
                  o.record == r.(status := ConsentGranted, consents := r.consents + [Consent(true, version)]))
            && (o.code == 200 && !granted ==>
                  o.record == r.(status := Declined, finishedAt := Some(now),
                                 consents := r.consents + [Consent(false, version)]))
  {
  }

  lemma PrecheckIs(env: Env, r: Record, now: int, report: PreCheck.Report)
    requires ValidPlan(env.plan) && !Late(env, r, now)
    ensures var o := Serve(env, r, SubmitPrecheck(now, report));
            && (o.code == 200 <==> r.status == ConsentGranted || r.status == PrecheckPassed)
            && (o.code != 200 ==> o.code == 409)
            && (o.code == 200 ==>
                  && o.record.filed == Some(Filed(report, PreCheck.Failures(report)))
                  && o.record.precheckPassed == (PreCheck.Failures(report) == [])
                  && o.record.status == (if PreCheck.Failures(report) == [] then PrecheckPassed else ConsentGranted)
                  && o.record == r.(filed := o.record.filed, precheckPassed := o.record.precheckPassed,
                                    status := o.record.status))
  {
    PreCheck.PassesIffGateMet(report);
  }

  lemma StartIs(env: Env, r: Record, now: int)
    requires ValidPlan(env.plan) && !Late(env, r, now)
    ensures var o := Serve(env, r, Start(now));
            var t := env.plan.topics[0];
            && o.code == (if r.status == PrecheckPassed then 200 else 409)
            && (o.code == 200 ==>
                  o.record == r.(status := Active, startedAt := Some(now), asked := [Asked(Question, t.id)],
                                 turns := r.turns + [Turn(0, Question, Some(t.id), FromTopic(t.prompt), None, None)]))
  {
    DecideOpens(env.text.lower, env.plan, "");
  }

  lemma FinishIs(env: Env, r: Record, now: int)
    requires ValidPlan(env.plan) && !Late(env, r, now)
    ensures var o := Serve(env, r, Finish(now));
            && o.code == (if r.status == Active then 200 else 409)
            && (o.code == 200 ==> o.record == r.(status := Aborted, finishedAt := Some(now)))
  {
  }

  /** The answer a body gives: the transcript if there is audio, else the typed text, either without its surrounding
      whitespace, and not empty. */
  ghost predicate Gives(strip: string -> string, body: Body, text: string, stt: Option<Attribution>) {
    && text != ""
    && (body.audio.Some? ==>
          body.audio.value.Transcript? && text == strip(body.audio.value.text) && stt == Some(body.audio.value.stt))
    && (body.audio.None? ==> body.text.Some? && text == strip(body.text.value) && stt == None)
  }

  /** Which answers are taken, and how the others are refused. */
  lemma TurnCodeIs(env: Env, r: Record, now: int, body: Body)
    requires ValidPlan(env.plan) && !Late(env, r, now) && Inv(env, r)
    ensures var o := Serve(env, r, SubmitTurn(now, body));
            && (o.code == 409 <==> r.status != Active)
            && (o.code == 200 <==> r.status == Active && exists text, stt :: Gives(env.text.strip, body, text, stt))
            && (o.code == 422 <==> r.status == Active && body.audio.Some? && body.audio.value.Transcript?
                                   && env.text.strip(body.audio.value.text) == "")
            && (o.code == 503 <==> r.status == Active && body.audio.Some?
                                   && (body.audio.value.NotConfigured? || body.audio.value.Unreachable?))
  {
    if r.status == Active {
      LastIsOpen(r.turns);
      OpenIsNoClosing(env, r);
      var heard := Hear(env.text.strip, body);
      if heard.Heard? {
        assert Gives(env.text.strip, body, heard.text, heard.stt);
      }
    }
  }

  lemma OpenIsNoClosing(env: Env, r: Record)
    requires Inv(env, r) && r.status == Active
    ensures r.turns != [] && r.turns[|r.turns| - 1].kind != Closing
  {
    var probed :| OnAgenda(env.plan, r.asked, probed);
    AgendaKinds(env.plan.topics, probed);
  }

  lemma {:induction false} AgendaKinds(topics: seq<Topic>, probed: seq<bool>)
    requires |probed| <= |topics|
    ensures forall a | a in Agenda(topics, probed) :: a.kind == Question || a.kind == Probe
  {
    if probed != [] {
      AgendaKinds(topics, probed[..|probed| - 1]);
    }
  }

  lemma HearIs(strip: string -> string, body: Body, text: string, stt: Option<Attribution>)
    requires Gives(strip, body, text, stt)
    ensures Hear(strip, body) == Heard(text, stt)
  {
  }

  lemma OpenTurnTaken(env: Env, r: Record, now: int, body: Body, k: nat, text: string, stt: Option<Attribution>)
    requires ValidPlan(env.plan) && !Late(env, r, now) && r.status == Active
    requires OpenIndex(r.turns) == Some(k) && r.turns[k].kind != Closing
    requires Hear(env.text.strip, body) == Heard(text, stt)
    ensures ServeTurn(env, r, now, body) == Outcome(Answered(env, r, now, k, text, stt), 200)
  {
  }

  lemma TurnTaken(env: Env, r: Record, now: int, body: Body, text: string, stt: Option<Attribution>)
    requires ValidPlan(env.plan) && !Late(env, r, now) && r.status == Active
    requires RowsInOrder(r.turns) && r.turns != [] && r.turns[|r.turns| - 1].kind != Closing
    requires Gives(env.text.strip, body, text, stt)
    ensures ServeTurn(env, r, now, body) == Outcome(Answered(env, r, now, |r.turns| - 1, text, stt), 200)
  {
    LastIsOpen(r.turns);
    HearIs(env.text.strip, body, text, stt);
    OpenTurnTaken(env, r, now, body, |r.turns| - 1, text, stt);
  }

  lemma AnswerRowIs(turns: seq<Turn>, text: string, stt: Option<Attribution>, d: Decision)
    requires RowsInOrder(turns) && turns != []
    ensures var n := |turns|;
            AnswerRow(turns, n - 1, text, stt, d)
            == turns[..n - 1] + [turns[n - 1].(answer := Some(Said(text)), stt := stt)]
               + [Turn(n, d.kind, d.topicId, d.prompt, None, None)]
  {
  }

  /** The open row answered, the decided row after it, and the session completed or the asked list one longer. */
  ghost predicate AnsweredTo(env: Env, r: Record, r': Record, now: int, text: string, stt: Option<Attribution>)
    requires ValidPlan(env.plan) && r.turns != []
  {
    var n := |r.turns|;
    var d := Decide(env.text.lower, env.plan, r.asked, text);
    && r'.turns == r.turns[..n - 1] + [r.turns[n - 1].(answer := Some(Said(text)), stt := stt)]
                   + [Turn(n, d.kind, d.topicId, d.prompt, None, None)]
    && (d.kind == Closing ==> r' == r.(status := Completed, finishedAt := Some(now), turns := r'.turns))
    && (d.kind != Closing ==>
          d.topicId.Some? && r' == r.(asked := r.asked + [Asked(d.kind, d.topicId.value)], turns := r'.turns))
  }

  lemma AnsweredIs(env: Env, r: Record, now: int, text: string, stt: Option<Attribution>)
    requires ValidPlan(env.plan) && RowsInOrder(r.turns) && r.turns != []
    ensures AnsweredTo(env, r, Answered(env, r, now, |r.turns| - 1, text, stt), now, text, stt)
  {
    AnswerRowIs(r.turns, text, stt, Decide(env.text.lower, env.plan, r.asked, text));
    TopicUnlessClosing(env.text.lower, env.plan, r.asked, text);
  }

  /** What an answer that is taken leaves. */
  lemma TurnIs(env: Env, r: Record, now: int, body: Body, text: string, stt: Option<Attribution>)
    requires ValidPlan(env.plan) && !Late(env, r, now) && Inv(env, r) && r.status == Active
    requires Gives(env.text.strip, body, text, stt)
    ensures var o := Serve(env, r, SubmitTurn(now, body));
            o.code == 200 && r.turns != [] && AnsweredTo(env, r, o.record, now, text, stt)
  {
    OpenIsNoClosing(env, r);
    TurnTaken(env, r, now, body, text, stt);
    AnsweredIs(env, r, now, text, stt);
  }

  lemma EraseIs(env: Env, r: Record)
    requires ValidPlan(env.plan)
    ensures var o := Serve(env, r, Erase);
            && o.record == r.(turns := o.record.turns) && |o.record.turns| == |r.turns|
            && forall i | 0 <= i < |r.turns| ::
                 o.record.turns[i]
                 == if r.turns[i].answer.None? then r.turns[i] else r.turns[i].(answer := Some(Redacted))
  {
  }

  // ----- the way in -----

  /** Up to the expiry, consent at the current version, a report that meets the gate and a start lead to an
      active interview with the first question open, and nothing else. */
  lemma WayIn(env: Env, consented: int, report: PreCheck.Report, checked: int, started: int)
    requires ValidPlan(env.plan) && PreCheck.MeetsGate(report)
    requires consented <= env.expiresAt && checked <= env.expiresAt && started <= env.expiresAt
    ensures var r := Run(env, [DecideConsent(consented, "2026.08-v1", true)] + [SubmitPrecheck(checked, report)]
                              + [Start(started)]);
            var t := env.plan.topics[0];
            && r.status == Active && r.asked == [Asked(Question, t.id)]
            && r.turns == [Turn(0, Question, Some(t.id), FromTopic(t.prompt), None, None)]
            && r.consents == [Consent(true, "2026.08-v1")] && r.precheckPassed
            && r.startedAt == Some(started) && r.finishedAt == None
  {
    var consent, check := DecideConsent(consented, "2026.08-v1", true), SubmitPrecheck(checked, report);
    assert [] + [consent] == [consent];
    RunOneMore(env, [], consent);
    ConsentIs(env, Created(), consented, "2026.08-v1", true);
    RunOneMore(env, [consent], check);
    PreCheck.PassesIffGateMet(report);
    PrecheckIs(env, Run(env, [consent]), checked, report);
    RunOneMore(env, [consent] + [check], Start(started));
    StartIs(env, Run(env, [consent] + [check]), started);
  }
}
