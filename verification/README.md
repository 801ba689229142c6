# A model of the AIVA interview platform's core

This project models, in Dafny 4.11, the parts of the platform that are state machines, loops over
time, or protocols, and proves what they keep over every input and every run. Each module follows one
component of the code:

- `InterviewEngine` plans an interview, picks each next turn and replays a transcript; `PreCheck` is the
  device gate; `Interview` is the session with its five candidate endpoints, and erasure as a sixth event.
- `Zone` is a time zone as its list of offset changes, with the conversions in both directions;
  `Scheduling` generates slots over it; `SlotStore` is the slot table under generation, booking and
  reminder runs.
- `RefreshTokens` is token rotation with explicit commit and rollback, for serialised requests;
  `TokenRaces` splits each request into its steps and interleaves them.
- `Erasure` finds and redacts everything tied to an address, over thirteen tables; `Retention` is the capped
  job that erases the oldest candidates; `Uploads` is where the addresses it works on come from; `ErasureReach` sets the
  erasure beside the slots and their reminders; `Audit` is the hash chain per organization.
- `Sandbox` is the uid pool under concurrent executions; `OutputCapture` the capped output buffer.
- `TextSpans`, `Scoring` and `Calendar` are page offsets, weighted scores, and calendar invitations.
  `Common` holds what they share.

Objects the code updates in place are classes; each method is proved equal to a function of the state
before it, and the theorems are about those functions and their runs. A rejected request changes nothing,
because its transaction is rolled back. Clocks, ids, the speech gateway's answer and a user's activity come in
as parameters, and `lower`, `strip` and the hash are parameters too, so the results hold for every meaning of
them that satisfies the laws a lemma names.

What each operation does is stated a second time without the functions its body is made of: in the columns and constants
of the source (`Interview.TurnIs`, `InterviewEngine.DecideIs`, `Scheduling.CursorsAre`, `RefreshTokens.IssuedIff`,
`Erasure.RootsErased` and their neighbours below).

`dafny verify dfyconfig.toml` checks the project.

Six properties the code is meant to have hold only under a condition. In each case the code is modelled as it is,
and the exact condition is proved:

- Slots are described as correct across clock changes, but only a slot's start is checked to be a real wall time.
  Two slots overlap exactly when the first would end in a skipped stretch and the second starts less than that
  stretch's length later (`Scheduling.NoOverlapIff`, with the instance `Scheduling.SkippedEndOverlaps`).
- `locate` is meant to name the page of an offset, but the spans do not count the newlines that join pages
  (`TextSpans.LocateNamesPageIff`, with the instance `TextSpans.SecondPageIsMissed`).
- The interview loop stops exactly for plans with distinct topic ids (`InterviewEngine.StopsIffDistinctIds`);
  `build_plan` always makes such plans (`InterviewEngine.BuildPlan`).
- The retention job drains exactly when no eligible address is stored with surrounding whitespace, since it lists by
  the stripped address while the lookup strips only its argument (`Retention.DrainsIff`, with the instance
  `Retention.PaddedInstance`). Rows this application writes always meet the condition: an upload stores a stripped match
  of the e-mail pattern, which admits no whitespace, so the table uploads fill always drains (`Uploads.UploadsDrain`).
- Erasure is meant to cover every record tied to an address, but a booked slot keeps the address it is booked for. After an
  erasure neither these tables nor the slots name the address exactly when no slot was booked for it and it is not itself an address an erasure
  generates (`ErasureReach.UntracedIff`), and reminders still go to it exactly when a slot booked for it has one unsent
  (`ErasureReach.ErasedIsEverRemindedIff`, with the instance `ErasureReach.ErasedButReminded`).
- A family's revocation is always final for serialised requests (`RefreshTokens.ReuseKillsFamily`); between
  concurrent ones it is final exactly when no rotation of the family is still pending
  (`TokenRaces.RunRevocationFinalIff`, with the instance `TokenRaces.RevocationCanBePending`).

## Model

| member | source | states |
|---|---|---|
| `InterviewEngine.BuildPlan` | apps/api/app/interview_engine.py:65-164 | the plan is, in this order, the gap topic (first three missing skills), the strength topic (first two verified skills), the depth topic (a positive year requirement) and the floor, each only where its condition holds; ids are distinct and at most seven turns can follow |
| `InterviewEngine.OutlineShape` | apps/api/app/interview_engine.py:75-158 | for all skill lists and years, the topic ids differ pairwise, the last topic is the candidate's own questions, and two turns a topic plus one for the floor suffice |
| `InterviewEngine.OutlineHas` | apps/api/app/interview_engine.py:75-158 | a plan holds the gap topic exactly when a skill is missing, the strength topic exactly when a required skill is not missing, the depth topic exactly when years are demanded, and always the floor |
| `InterviewEngine.WithoutIs` | apps/api/app/interview_engine.py:100 | the skills verified are the required ones that are not missing, each as often as required |
| `InterviewEngine.WithoutInOrder` | apps/api/app/interview_engine.py:100 | and in the order they are required in |
| `InterviewEngine.GapHolds` | apps/api/app/interview_engine.py:77-98 | the gap topic asks for the first three missing skills, and expects each of them in lower case |
| `InterviewEngine.StrengthHolds` | apps/api/app/interview_engine.py:100-118 | the strength topic asks for the first two required skills that are not missing, and expects each of them in lower case |
| `InterviewEngine.DepthHolds` | apps/api/app/interview_engine.py:120-141 | the depth topic asks for the years demanded and stated |
| `InterviewEngine.BuiltPlanCloses` | apps/api/app/interview_engine.py:65-246 | every sequence of seven answers over a built plan brings the interview to its closing turn |
| `InterviewEngine.TopicIndex` | apps/api/app/interview_engine.py:222-224 | the lookup by id finds the first topic of that id, and none exactly when there is none |
| `InterviewEngine.CoverageIs` | apps/api/app/interview_engine.py:167-172 | an answer covers enough exactly when no points are expected, or twice the number of points that occur somewhere in the lowered answer reaches their number |
| `InterviewEngine.DecideOpens` | apps/api/app/interview_engine.py:218-219 | the interview opens on the first topic, with all its texts |
| `InterviewEngine.DecideIs` | apps/api/app/interview_engine.py:221-246 | after every history, on or off an agenda: the probe exactly when the last entry is no probe, fewer than half of the points occur in the answer, the topic was never probed and has a probe prompt; else the next topic, else the closing; with every field of the decision |
| `InterviewEngine.DecideOffPlan` | apps/api/app/interview_engine.py:222-224 | after an entry about a topic the plan does not have, it closes |
| `InterviewEngine.DecideOnAgenda` | apps/api/app/interview_engine.py:206-246 | on a history that is an agenda, the decision depends on the last topic alone: probe if unprobed, probeable and fewer than half of its points occur in the answer, else the next topic or the closing |
| `InterviewEngine.NextTurn` | apps/api/app/interview_engine.py:206-246 | for every answer: probe exactly when fewer than half of the expected points occur in the lowered answer and the topic's probe is unspent, otherwise the next topic in order, and close only past the last; every field of the decision; and the extended history is an agenda again |
| `InterviewEngine.FullAndEmptyAnswers` | apps/api/app/interview_engine.py:167-172 | an answer with every expected point in it is never probed, and one with none of them is whenever points are expected and a probe is there and unspent |
| `InterviewEngine.NextAgenda` | apps/api/app/interview_engine.py:206-246 | whatever is answered, the history stays topics in order, each asked once, with at most one probe right after it; closing means every topic was asked |
| `InterviewEngine.Replay` | apps/api/app/interview_engine.py:206-217 | folding the decisions over answers yields one turn per answer and an opening one until it closes, and stops there |
| `InterviewEngine.ReplayFollowsAgenda` | apps/api/app/interview_engine.py:206-246 | the turns of every replay are an agenda of the plan for some choice of probes; a closed one has been through every topic |
| `InterviewEngine.OpenWithinBudget` | apps/api/app/interview_engine.py:167-246 | the turns asked never exceed one per topic plus one per topic with a probe prompt and expected points |
| `InterviewEngine.BudgetIs` | apps/api/app/interview_engine.py:229-246 | the budget is one turn per topic and one more per topic with a probe prompt and expected points |
| `InterviewEngine.DistinctIdsClose` | apps/api/app/interview_engine.py:206-246 | with distinct ids the interview closes on that many answers at the latest |
| `InterviewEngine.ClosesAfterTopicsAndProbes` | apps/api/app/interview_engine.py:206-246 | a closed interview has taken exactly one answer per topic and one per probe asked, and was open after every shorter run of the same answers |
| `InterviewEngine.RepeatedIdNeverCloses` | apps/api/app/interview_engine.py:221-227 | with a repeated id no answers ever close it: the lookup keeps falling back to the first of the two topics |
| `InterviewEngine.StopsIffDistinctIds` | apps/api/app/interview_engine.py:206-246 | the loop is guaranteed to stop if and only if the plan's topic ids are distinct |
| `PreCheck.CollectStatuses` | apps/api/app/precheck.py:63-69 | the first loop lists every unrecognised status with its index, and groups the recognised ones by kind in order |
| `PreCheck.CheckRequired` | apps/api/app/precheck.py:71-76 | the second loop lists each required kind that is missing or not ok, with its statuses |
| `PreCheck.Evaluate` | apps/api/app/precheck.py:42-91 | the failures listed, in order, and: a report passes if and only if it meets the declarative gate |
| `PreCheck.KindPasses` | apps/api/app/precheck.py:71-76 | a required kind raises no failure exactly when it was reported and every report of it says ok |
| `PreCheck.PassesIffGateMet` | apps/api/app/precheck.py:42-91 | fail-closed both ways: no failure is listed exactly when version, statuses, the three devices, connection and bandwidth all meet the requirement |
| `PreCheck.GateIs` | apps/api/app/precheck.py:13-19 | the gate spelled out: version 2026.08, the four statuses, camera, microphone and speaker reported and always ok, a good or fair connection, 300 kbps |
| `PreCheck.KindFailureIs` | apps/api/app/precheck.py:71-76 | a kind is listed as missing exactly when no recognised status was reported for it, and as not ok exactly when one of them is another than ok |
| `PreCheck.FailuresAre` | apps/api/app/precheck.py:53-85 | a stale report is given that failure alone; any other exactly the bad statuses, the kinds that lack and the connection's failure |
| `PreCheck.LinkFailureIs` | apps/api/app/precheck.py:78-85 | the connection's one failure: not a known value, else poor or unknown, else below 300 kbps |
| `Interview.Session.constructor` | apps/api/app/routers_interview.py:226-235 | a new session is pending consent, with no rows and an empty history |
| `Interview.Session.DecideConsent` | apps/api/app/routers_interview.py:415-464 | the whole new record and status code: 410 expired, 409 wrong state, 400 stale version (all leaving the record as it was), else one consent row and the granted or declined state |
| `Interview.Session.SubmitPrecheck` | apps/api/app/routers_interview.py:467-498 | stores the report with its failures and its verdict, and answers with both; passing, which means no failures, unlocks the gate, and a later failing report revokes it |
| `Interview.Session.Start` | apps/api/app/routers_interview.py:501-547 | only from a passed pre-check: the first decision opens the asked list and row 0 |
| `Interview.Session.SubmitTurn` | apps/api/app/routers_interview.py:572-660 | answers the open row, decides, and adds exactly one row; closing completes the session, any other turn extends the asked list; every refusal leaves the record as it was |
| `Interview.Session.Finish` | apps/api/app/routers_interview.py:663-683 | only an active session is aborted, and only its status and finish time change |
| `Interview.OpenIndex` | apps/api/app/routers_interview.py:364-375 | the open turn is the unanswered row with the highest sequence, and there is none exactly when all are answered |
| `Interview.GoneIffLate` | apps/api/app/routers_interview.py:103-113 | every endpoint answers 410 exactly after the expiry of a session that is not completed, declined or aborted, and then changes nothing |
| `Interview.RefusalChangesNothing` | apps/api/app/routers_interview.py:415-683 | every answer but 200 leaves the record as it was |
| `Interview.ConsentIs` | apps/api/app/routers_interview.py:424-464 | before the expiry: 409 exactly off pending consent, 400 exactly for another version than 2026.08-v1, else one consent row and the granted or declined state with its finish time |
| `Interview.PrecheckIs` | apps/api/app/routers_interview.py:476-497 | before the expiry: 409 exactly off the two gate states, else the report is stored with its failures, and having none decides verdict and state |
| `Interview.StartIs` | apps/api/app/routers_interview.py:509-528 | before the expiry: 409 exactly without a passed pre-check, else active, with the first topic as the asked list and as row 0 |
| `Interview.TurnCodeIs` | apps/api/app/routers_interview.py:550-600 | before the expiry: taken exactly when the interview is active and there is a transcript, or without audio a text, that is not blank; 422 exactly for a blank transcript, 503 exactly for a missing or failing gateway |
| `Interview.TurnIs` | apps/api/app/routers_interview.py:602-646 | an answer taken, without its surrounding whitespace, fills the open row; one row follows with the decision on it; the session completes, or the asked list grows by that decision |
| `Interview.FinishIs` | apps/api/app/routers_interview.py:670-674 | before the expiry: 409 exactly when not active, else aborted with its finish time |
| `Interview.EraseIs` | apps/api/app/routers_dsar.py:312-314 | erasure replaces the answers that are there and nothing else |
| `Interview.WayIn` | apps/api/app/routers_interview.py:415-547 | up to the expiry, consent at the current version, a report that meets the gate and a start lead from creation to an active interview with exactly the first question's row |
| `Interview.TurnKeepsInv` | apps/api/app/routers_interview.py:572-660 | an answer keeps the row shape, the agenda and the gates |
| `Interview.ServeKeepsInv` | apps/api/app/routers_interview.py:415-683 | every request, erasure included, keeps rows, asked list, consent, pre-check and timestamps in agreement |
| `Interview.EveryRunKeepsInv` | apps/api/app/routers_interview.py:415-683 | in every reachable state: rows 0..n-1 mirror the asked list and only the last is open while active or aborted; completed adds exactly one closing row; otherwise no rows; precheck_passed, finished_at and started_at hold exactly in their states; the stored failures and verdict are the stored report's; the history is an agenda of the plan |
| `Interview.NoTurnWithoutGates` | apps/api/app/routers_interview.py:508-528 | a turn row exists only after exactly one consent row, granted at the current version, and a stored report that meets the gate |
| `Interview.RowsWithinBudget` | apps/api/app/routers_interview.py:602-646 | however the candidate answers, the rows stay within the plan's turn budget plus the closing |
| `Interview.TerminalIsForever` | apps/api/app/routers_interview.py:95-113 | completed, declined and aborted are absorbing: no later request changes the record, and erasure changes answers only |
| `Interview.AnswerKeepsReplay` | apps/api/app/routers_interview.py:602-646 | an accepted answer extends the replay by exactly the row it adds |
| `Interview.EveryRunReplays` | apps/api/app/routers_interview.py:607-646 | until erasure, folding the engine over the stored answers rebuilds the stored kinds, topics and questions, and closes exactly in completed sessions |
| `Interview.AnswersDetermineTranscript` | apps/api/app/interview_engine.py:12-14 | any two sessions with the same plan and answers have the same transcript, whatever else happened in them |
| `Zone.RealIffNotSkipped` | apps/api/app/scheduling.py:33-36 | the round trip rejects exactly the wall times in a spring-forward gap, and an accepted one lies in its own era |
| `Zone.LaterIsLater` | apps/api/app/scheduling.py:60-62 | a real wall time precedes, in UTC, every later wall time |
| `Zone.RealIffShown` | apps/api/app/scheduling.py:33-36 | the filter keeps exactly the wall times some clock reading shows, and conversion names the first such instant |
| `Zone.ToLocalIs` | apps/api/app/scheduling.py:35 | local time is the instant plus the base offset before the first change and plus the last change's offset from then on |
| `Zone.SkippedIff` | apps/api/app/scheduling.py:33-36 | a wall time is skipped exactly when some change moves the clock from at or before it to past it, and it is converted with the offset before that change |
| `Zone.EndBeforeStartIff` | apps/api/app/scheduling.py:58-67 | an end keeps its order with a later real start exactly when it is real, or the start is at least the gap's length after it |
| `Scheduling.CursorsSpaced` | apps/api/app/scheduling.py:53-68 | the wall times tried over all dates leave room for one another's duration |
| `Scheduling.WeekdayIs` | apps/api/app/scheduling.py:55 | day 1 is weekday 0, and each next day is one weekday further, round after 6 |
| `Scheduling.CursorsAre` | apps/api/app/scheduling.py:53-68 | a wall time is tried exactly when it is the start of hours plus k times duration and buffer of a date in the range that is neither excluded nor on a weekend day, and its duration ends within that date's hours |
| `Scheduling.EmitDistinct` | apps/api/app/scheduling.py:51-66 | in every zone the filter alone keeps the starts distinct, so the seen_starts test never rejects |
| `Scheduling.TryDay` | apps/api/app/scheduling.py:56-67 | the inner loop adds exactly one slot per real wall time of the day that fits |
| `Scheduling.GenerateSlots` | apps/api/app/scheduling.py:39-71 | fails exactly for a reversed range or an unknown zone; otherwise the slots are exactly those from a real wall time the rule offers on an allowed date to the end of its duration, each in UTC, strictly increasing by start |
| `Scheduling.EmittedInOrder` | apps/api/app/scheduling.py:58-70 | with changes apart the slots come out in order already, and sorting changes nothing |
| `Scheduling.OverlapIffCollide` | apps/api/app/scheduling.py:58-67 | for two real wall times a duration apart: each slot ends after it starts, and they overlap in UTC exactly when the first ends inside a gap and the second starts before the gap's length has passed |
| `Scheduling.NoOverlapIff` | apps/api/app/scheduling.py:39-71 | in a whole listing every slot ends after it starts, and any two overlap exactly under that condition: never when the local ends are real |
| `Scheduling.SkippedEndOverlaps` | apps/api/app/scheduling.py:60-62 | a concrete listing where only the start being filtered makes two slots overlap |
| `SlotStore.Slots.Generate` | apps/api/app/routers_scheduling.py:78-113 | adds one open row per listed start that is not open already, and returns how many |
| `SlotStore.Slots.Book` | apps/api/app/routers_scheduling.py:148-165 | 404, 409 or a booking that changes one row's status and address |
| `SlotStore.Slots.RunReminders` | apps/api/app/routers_reminders.py:64-124 | marks and sends exactly the due, unsent windows of the organization's booked rows, in order |
| `SlotStore.GenerateKeepsOneOpen` | apps/api/app/routers_scheduling.py:78-103 | generating again keeps open slots unique and leaves every listed start open |
| `SlotStore.EveryRunKeepsOneOpen` | apps/api/app/routers_scheduling.py:78-165 | any run of generating, booking and reminding keeps at most one open slot per requisition and start |
| `SlotStore.BothWindows` | apps/api/app/routers_reminders.py:85-110 | both windows are tested on the row independently, 24h first |
| `SlotStore.RemindedIs` | apps/api/app/routers_reminders.py:73-110 | a run marks and sends each window exactly for the organization's booked rows that start within 24 or 1 hours and are unmarked |
| `SlotStore.NobodyForgotten` | apps/api/app/routers_reminders.py:84-110 | after a run every booked slot of the organization that starts within a window has been sent that reminder |
| `SlotStore.GeneratedIs` | apps/api/app/routers_scheduling.py:78-102 | generating keeps every row and adds exactly an open, unsent one for each listed slot whose start no open slot of the requisition has |
| `SlotStore.BookedIs` | apps/api/app/routers_scheduling.py:159-165 | booking changes two columns of an open slot of the organization, and no other row |
| `SlotStore.SentOnce` | apps/api/app/routers_reminders.py:84-110 | over any schedule each slot and window is sent at most once, and exactly when marked |
| `SlotStore.MarkedInOrder` | apps/api/app/routers_reminders.py:46-110 | with runs in time order a marked row was due when marked, and 1h marked implies 24h marked no later |
| `SlotStore.SameAsOneRun` | apps/api/app/routers_reminders.py:84-110 | any schedule ending in a run has sent, for each of the organization's slots, exactly what that single run would send on the final bookings |
| `RefreshTokens.Database.MintSession` | apps/api/app/auth_service.py:102-111 | adds one unrotated token of a fresh family |
| `RefreshTokens.Database.MarkRotated` | apps/api/app/auth_service.py:147-151 | the conditional update sets rotated_at, and counts one row, only if it was unset |
| `RefreshTokens.Database.RotateRefreshToken` | apps/api/app/auth_service.py:115-170 | the reply, and what is committed on failure: the family's revocation on reuse, nothing otherwise |
| `RefreshTokens.Database.Refresh` | apps/api/app/deps.py:81-96 | the whole request with commit or rollback leaves committed exactly the rotation on success, the revocation on reuse, and no change on any other denial |
| `RefreshTokens.IssuedIff` | apps/api/app/auth_service.py:128-170 | a token is issued exactly when the presented row exists, is neither rotated nor revoked, expires after now, and its user is active; it has the row's family and user and the new expiry, and only the presented row changes, to rotated |
| `RefreshTokens.DeniedIs` | apps/api/app/auth_service.py:128-157 | which denial it is otherwise; a rotated row revokes what is not revoked of its family, and no other denial changes anything |
| `RefreshTokens.SpentForGood` | apps/api/app/models.py:104-109 | a token at or past its expiry, rotated or revoked never yields another, whatever is served in between |
| `RefreshTokens.DyingIsForever` | apps/api/app/auth_service.py:131-169 | a family whose rows are all revoked neither grows nor changes, whatever is served afterwards |
| `RefreshTokens.ReuseKillsFamily` | apps/api/app/auth_service.py:131-145 | presenting a rotated token fails the request, yet no token of the family is live at any time in any continuation, the family never grows, and no other family changed |
| `TokenRaces.RotateKeepsShape` | apps/api/app/auth_service.py:147-168 | rotating an unrotated token leaves its successor as the family's only unrotated one |
| `TokenRaces.NextKeepsInv` | apps/api/app/auth_service.py:123-169 | every single step of concurrent requests keeps the shape and the count of every family |
| `TokenRaces.EveryRunKeepsInv` | apps/api/app/auth_service.py:123-169 | so does every interleaving |
| `TokenRaces.OneUnrotatedPerFamily` | apps/api/app/auth_service.py:123-169 | under any interleaving a family has exactly one unrotated token, at most one live one, and one token more than its successful rotations |
| `TokenRaces.ReadThenActIsRefresh` | apps/api/app/auth_service.py:123-169 | read then act, with nothing in between, is the serialised request |
| `TokenRaces.RevokedStaysDead` | apps/api/app/auth_service.py:131-151 | with no rotation of the family pending, a revoked family stays revoked and frozen under every interleaving |
| `TokenRaces.RevocationFinalIff` | apps/api/app/auth_service.py:147-151 | a revocation is final, the family frozen and without a live token at any time under all interleavings, if and only if no request in flight has yet to rotate a token of the family; otherwise every time has a continuation with a token live then |
| `TokenRaces.RunRevocationFinalIff` | apps/api/app/auth_service.py:131-151 | in every run a revocation step revokes every token of its family, and that is final under exactly that condition |
| `TokenRaces.RevocationCanBePending` | apps/api/app/auth_service.py:131-151 | a run of five steps that reaches a revocation with a rotation pending, after which the revoked family has a live token again |
| `Erasure.Store.ApplyErasure` | apps/api/app/routers_dsar.py:289-328 | overwrites the PII fields of exactly the records given, table by table |
| `Erasure.Store.EraseCandidate` | apps/api/app/routers_dsar.py:331-359 | 400 unconfirmed, 404 nothing found, else the erasure; errors change nothing |
| `Erasure.RootsFound` | apps/api/app/routers_dsar.py:75-114 | a resume, invite or session is found exactly when it is of the organization and its lowered address is the argument stripped and lowered |
| `Erasure.RowsFound` | apps/api/app/routers_dsar.py:86-149 | a row of the ten other tables is found exactly when the row it belongs to is |
| `Erasure.RootsErased` | apps/api/app/routers_dsar.py:297-311 | a found resume has no address, file name or text left, a found invite or session a generated address, and the other columns stay |
| `Erasure.AnswersErased` | apps/api/app/routers_dsar.py:301-314 | a found field of the five PII names has neither value nor quote left, a found response neither answers nor history, a found turn no answer it had |
| `Erasure.CodeErased` | apps/api/app/routers_dsar.py:315-321 | a found snapshot has no source left, a found execution no source, input or output |
| `Erasure.WordsErased` | apps/api/app/routers_dsar.py:322-327 | a found message of the candidate has neither body nor label left, a found evaluation no address, and all else in them stays |
| `Erasure.RestKept` | apps/api/app/routers_dsar.py:289-328 | every row not found stays as it was, and so do the three tables erasure does not write |
| `Erasure.AnyIff` | apps/api/app/routers_dsar.py:341-342 | a lookup comes up empty exactly when no resume, invite or session has the address |
| `Erasure.RootsAfter` | apps/api/app/routers_dsar.py:72-114 | what any address finds after an erasure, in terms of what it found before |
| `Erasure.NothingLeftIff` | apps/api/app/routers_dsar.py:289-328 | an erased address finds nothing afterwards, if and only if it is not itself an address the erasure generated |
| `Erasure.AliasIsFoundAgain` | apps/api/app/routers_dsar.py:310-311 | an instance of the exception: a session invited under the address its erasure generates is found again |
| `Erasure.DifferentAddressesApart` | apps/api/app/routers_dsar.py:72-165 | the records of two addresses are disjoint in all thirteen tables |
| `Erasure.OthersUntouched` | apps/api/app/routers_dsar.py:289-328 | every table keeps its size, every record of another address is unchanged, and that address finds what it found exactly when it is not a generated one |
| `Erasure.OthersStillFound` | apps/api/app/routers_dsar.py:72-165 | another address finds at least what it found before |
| `Erasure.OtherOrganizationsUntouched` | apps/api/app/routers_dsar.py:72-165 | erasing in one organization leaves every record and every lookup of another unchanged, whatever the addresses |
| `Erasure.EraseIsIdempotent` | apps/api/app/routers_dsar.py:289-328 | erasing an address twice is erasing it once, even where it finds its own aliases |
| `Erasure.TurnsStayAsOpen` | apps/api/app/routers_dsar.py:312-314 | erasure never opens an answered turn nor closes an open one |
| `ErasureReach.UntracedIff` | apps/api/app/routers_dsar.py:1-2 | after an erasure the organization's tables and slots name the address nowhere, if and only if it is not a generated one and no slot was booked for it |
| `ErasureReach.RemindsIffDue` | apps/api/app/routers_reminders.py:73-104 | a run sends an address a reminder exactly when a slot booked for it has one due and unsent |
| `ErasureReach.ErasedIsRemindedIff` | apps/api/app/routers_reminders.py:73-104 | so is an erased address, exactly as before its erasure |
| `ErasureReach.ErasedIsEverRemindedIff` | apps/api/app/models.py:263-278 | and it is reminded by some later run if and only if a slot booked for it has an unsent reminder |
| `ErasureReach.ErasedButReminded` | apps/api/app/models.py:276 | an instance: an erased address that no lookup finds any more, and that the next run reminds |
| `Retention.CollectEarliest` | apps/api/app/routers_retention.py:85-89 | the loop builds the dictionary of earliest dates by normalised address |
| `Retention.SelectCandidates` | apps/api/app/routers_retention.py:68-91 | the sorted, capped candidates of the query's rows |
| `Retention.EraseEach` | apps/api/app/routers_retention.py:93-100 | the loop erases every candidate that finds records and counts exactly those |
| `Retention.Run` | apps/api/app/routers_retention.py:56-129 | a dry run changes nothing; a real one erases its candidates, and of clean addresses erases and counts min(k, cap) and leaves the rest |
| `Retention.ListedAreEligible` | apps/api/app/routers_retention.py:68-91 | the sorted dictionary lists exactly the eligible addresses, each once |
| `Retention.CandidatesCapped` | apps/api/app/routers_retention.py:91 | the candidates are min(k, cap) distinct eligible addresses |
| `Retention.CandidatesOldest` | apps/api/app/routers_retention.py:83-91 | each candidate has an eligible upload no later than any of an address left out |
| `Retention.CandidatesAre` | apps/api/app/routers_retention.py:66-91 | each candidate's date is that of its earliest upload, which is before the cutoff, and they come oldest first |
| `Retention.EligibleIff` | apps/api/app/routers_retention.py:68-89 | an address is eligible exactly when some upload of it is older than the cutoff |
| `Retention.YoungIsLeft` | apps/api/app/routers_retention.py:66-100 | no run erases an address whose every upload is at the cutoff or after it |
| `Retention.ErasedKeyLeaves` | apps/api/app/routers_retention.py:93-100 | after one erasure an address is eligible exactly through rows that lookup does not recognise |
| `Retention.EraseAllDrains` | apps/api/app/routers_retention.py:93-100 | the loop counts every candidate and takes exactly them off the eligible addresses |
| `Retention.RunErasesOldest` | apps/api/app/routers_retention.py:68-116 | a real run with k eligible clean addresses erases exactly min(k, cap), the candidates, and reports that number |
| `Retention.EraseAllLeavesOthers` | apps/api/app/routers_retention.py:93-100 | the whole loop leaves the records of every address it does not name as they were; such an address finds other records than before exactly when, in the table before the loop, a named address finds a row whose alias it is |
| `Retention.GeneratesOneMore` | apps/api/app/routers_retention.py:93-100 | one erasure more generates an address exactly when an erasure before it does or the loop so far leaves the last address a row with that alias: the condition read off the first table is the one met along the loop |
| `Retention.RunLeavesOthers` | apps/api/app/routers_retention.py:68-116 | so a real run leaves every record of an address it did not choose as it was, under that exact condition on the table before the run |
| `Retention.Drains` | apps/api/app/routers_retention.py:68-116 | at one cutoff with no uploads nobody is left if and only if at least ceil(k / cap) runs were made |
| `Retention.PaddedNeverDrains` | apps/api/app/routers_retention.py:87-96 | an eligible row whose lower-cased address is no normal form stays as it is through any number of runs |
| `Retention.DrainsIff` | apps/api/app/routers_retention.py:68-116 | the job ever drains if and only if no eligible address is stored with surrounding whitespace |
| `Retention.PaddedInstance` | apps/api/app/routers_retention.py:87-96 | an instance of the failing half: an address stored with a leading space stays eligible through any number of runs |
| `Uploads.UploadIs` | apps/api/app/routers_resume.py:209-222 | an upload adds one row, with the first match stripped for its address, or none |
| `Uploads.EveryRunStoresAddresses` | apps/api/app/routers_resume.py:204-221 | through any uploads, erasures and retention runs, every stored address is one the e-mail pattern matched |
| `Uploads.UploadsDrain` | apps/api/app/text_extract.py:109-143 | so a table that uploads fill always drains, in exactly ceil(k / cap) runs |
| `Audit.AuditLog.RecordEvent` | apps/api/app/audit.py:29-69 | appends one event linked to its organization's last hash |
| `Audit.Latest` | apps/api/app/audit.py:47-54 | finds the organization's last entry hash, and none exactly for an empty chain |
| `Audit.VerifyChain` | apps/api/app/audit.py:72-79 | accepts exactly the lists in which every event links to the one before and carries its own hash |
| `Audit.RecordExtends` | apps/api/app/audit.py:29-69 | recording extends its own organization's chain by one fitting event and no other chain |
| `Audit.EveryChainVerifies` | apps/api/app/audit.py:29-79 | however recordings interleave, each organization's events verify and are its recordings in order |
| `Audit.LastHashFixesChain` | apps/api/app/audit.py:11-79 | with an injective hash, two verifying chains that end in one hash are equal in length and every event |
| `Audit.TamperingShows` | apps/api/app/audit.py:72-79 | any altered version of a recorded chain fails to verify or ends in another hash |
| `Sandbox.NewPool` | services/sandbox-runner/app/executors.py:68-74 | fails exactly for a size below one; otherwise the free uids are start..start+size-1 in order, and nobody waits |
| `Sandbox.UidPool.Acquire` | services/sandbox-runner/app/executors.py:76-77 | hands out the uid longest free, or suspends the execution behind the others when none is |
| `Sandbox.UidPool.Resume` | services/sandbox-runner/app/executors.py:76-77 | a suspended execution that wakes up takes the uid longest free, or, overtaken, waits again behind the others |
| `Sandbox.UidPool.Release` | services/sandbox-runner/app/executors.py:79-80 | puts the uid back last |
| `Sandbox.Execute` | services/sandbox-runner/app/main.py:79-101 | a rejected request never touches the pool; an accepted one gives its uid back on success and on error, or is suspended where no uid is free |
| `Sandbox.Continue` | services/sandbox-runner/app/main.py:94-101 | a suspended execution goes on from its wake-up and gives its uid back on success and on error |
| `Sandbox.ExecuteIsSteps` | services/sandbox-runner/app/main.py:94-101 | the steps of an execution that finds a uid free take the pool through the same states as the method, whatever the outcome |
| `Sandbox.ContinueIsSteps` | services/sandbox-runner/app/main.py:94-101 | so do those of a suspended one |
| `Sandbox.NextKeepsInv` | services/sandbox-runner/app/main.py:94-101 | arriving, being granted, being overtaken and releasing keep the uids partitioned and every execution in one place |
| `Sandbox.EveryRunPartitions` | services/sandbox-runner/app/main.py:94-101 | for any number of concurrent executions and any order of grants: free and held uids partition the pool, none is shared, and every execution is in one place |
| `Sandbox.NoneLost` | services/sandbox-runner/app/main.py:94-101 | however it goes on, an execution that arrived is waiting, holding or released, in exactly one of these and once, and one that was given a uid holds it until its one release |
| `Sandbox.MovesUp` | services/sandbox-runner/app/executors.py:68-80 | under FIFO grants a waiter moves up one place per uid taken until it holds one |
| `Sandbox.WaiterServed` | services/sandbox-runner/app/executors.py:76-80 | a waiter behind p others, with f uids free, is served once p + 1 - f executions have released |
| `OutputCapture.CappedBuffer.Add` | services/sandbox-runner/app/executors.py:115-123 | after a chunk the buffer is the prefix of the stream so far, flagged exactly when the stream is longer than the limit; an empty chunk adds nothing |
| `OutputCapture.Pump` | services/sandbox-runner/app/executors.py:130-138 | whatever the chunk sizes, the sink ends with the stream's prefix up to the limit, truncated exactly when it was longer, and the pipe is drained and closed |
| `TextSpans.LoadDocument` | apps/api/app/text_extract.py:89-106 | the spans and the joined text of the stripped pages |
| `TextSpans.StripIs` | apps/api/app/text_extract.py:93 | stripping a page takes form feeds off its two ends, all of them and nothing else |
| `TextSpans.Locate` | apps/api/app/text_extract.py:36-40 | the loop returns the first span around the offset, or page 0 |
| `TextSpans.PositionIs` | apps/api/app/text_extract.py:99-101 | where character q of page k is in the full text: one newline further for each page before |
| `TextSpans.NewlineBefore` | apps/api/app/text_extract.py:101 | what stands before a later page's first character is a newline |
| `TextSpans.LocateNamesPageIff` | apps/api/app/text_extract.py:36-40 | locate names the right page for a character exactly when q + k is below the page's length, and the right place in it only on the first page |
| `TextSpans.SecondPageIsMissed` | apps/api/app/text_extract.py:36-40 | an instance: with two one-character pages the second page's character is on no page |
| `Scoring.ValidateProfile` | apps/api/app/scoring.py:75-91 | accepts exactly the profiles that name the seven dimensions and no other, have no negative weight, and have a positive sum |
| `Scoring.ComputeTotalScore` | apps/api/app/scoring.py:94-107 | fails exactly for a weight sum not positive or a coverage below 0.999; otherwise the rounded weighted sum |
| `Scoring.ScoreForIs` | apps/api/app/scoring.py:96 | a name's score is that of its last dimension, and there is none exactly without such a dimension |
| `Scoring.RoundIs` | apps/api/app/scoring.py:107 | rounding goes to the nearest integer, and from halfway to the even one |
| `Scoring.VerdictIs` | apps/api/app/scoring.py:110-117 | each verdict exactly between its thresholds, the lower ones tested first |
| `Scoring.VerdictMonotone` | apps/api/app/scoring.py:110-117 | a greater total never gets a lower verdict, whatever the thresholds |
| `Scoring.TotalIsMean` | apps/api/app/scoring.py:94-107 | with every dimension present the coverage is exactly one and the loop's total is the weighted mean |
| `Scoring.ScoreBetween` | apps/api/app/scoring.py:94-107 | the total lies between the lowest and the highest score |
| `Scoring.ScoreMonotone` | apps/api/app/scoring.py:94-117 | raising scores lowers neither the total nor, for any thresholds, the verdict |
| `Scoring.ScoreScaled` | apps/api/app/scoring.py:40-44 | scaling all the weights leaves the total unchanged |
| `Scoring.ComputeOverall` | apps/api/app/evaluation_engine.py:50-63 | fails exactly when no component is recognised; otherwise the rounded mean of the recognised ones and its verdict |
| `Scoring.WeightsAre` | apps/api/app/evaluation_engine.py:21-30 | the four weights, nothing for any other name, and the three thresholds |
| `Scoring.OverallBetween` | apps/api/app/evaluation_engine.py:50-63 | the overall score lies between the recognised components' scores, whichever are present |
| `Scoring.UnrecognisedIgnored` | apps/api/app/evaluation_engine.py:51-53 | components of unrecognised names change nothing |
| `Scoring.OverallMonotone` | apps/api/app/evaluation_engine.py:40-63 | raising component scores lowers neither the overall score nor the verdict |
| `Calendar.EscapeIsOnePass` | apps/api/app/ics.py:11-12 | the four replacements in turn are one pass, character by character |
| `Calendar.EscapeRoundTrip` | apps/api/app/ics.py:11-12 | every text is read back from its escaped form by the TEXT rules of section 3.3.11 of RFC 5545 |
| `Calendar.SplitJoined` | apps/api/app/ics.py:46 | splitting joined lines at CRLF (section 3.1 of RFC 5545) gives the pieces of each line in order |
| `Calendar.EighteenLinesIff` | apps/api/app/ics.py:26-46 | for all texts, splitting gives back exactly the eighteen content lines if and only if neither address contains a CRLF |
| `Calendar.TextsRecovered` | apps/api/app/ics.py:26-46 | and from those lines a reader recovers uid, summary, description and location |
| `Calendar.FormatReads` | apps/api/app/ics.py:6-8 | a formatted time reads back field by field, with its T and Z, in the form of section 3.3.5 of RFC 5545 |
| `Calendar.TimesRecovered` | apps/api/app/ics.py:34-41 | the split lines read back the stamp, the start and the end, each from its own property, and carry both addresses |
| `Calendar.EnvelopeIs` | apps/api/app/ics.py:27-45 | the fixed lines around the event's |

## Left out

- HTTP, authentication, roles, rate limits and the lookup of a session or token by digest: an unknown session token's
  404 is not modelled, an unknown refresh token is.
- Sending mail, object storage, the speech gateway and PDF or DOCX parsing: I/O; the gateway's outcome (not configured, no base64,
  failing, or a transcript with its attribution) is an argument of a turn. A run undone by a failed send is not in a schedule.
- Audit events written by the other handlers: `Audit` takes any sequence of recordings instead.
- The wording of prompts, plan fingerprints and the role title: prompts are functions of the skills and years shown in them.
- The filter on empty kinds in `_asked_history`, and the 500 for a corrupt plan: stored kinds are an enumeration, stored plans are valid.
- Several clock readings in one request: one `now` serves them all.
- `_record_counts` and the export endpoint: the sizes and a listing of what `Erasure.Find` returns.
- Columns that neither erasure nor any lookup reads or writes, apart from the slots' addresses; addresses in the payloads of audit events and in scoring
  payloads, which erasure does not reach either.
- The questionnaire's history beyond its erasure: whether later entries persist depends on change tracking in the ORM.
- Transactions interleaved outside the token protocol: `submit_turn`, `record_event` and `book_slot` read and then write
  without a lock, and are modelled as serialised.
- `TokenRaces` takes the conditional update, the insert and their commit as one step, the updated row being locked until then.
- Uploads.UploadsDrain: takes the pattern's first match as given, and of the pattern only its characters; it supposes that `strip` leaves a text of
  those characters alone.
- Retention.DrainsIff: names the laws it needs of `lower` and `strip` (idempotent, and commuting), and takes SQL's `lower` and Python's as one
  function.
- Retention.Drains: supposes no uploads between the runs and one cutoff for them all.
- SlotStore.SameAsOneRun: speaks of the rows of the organization whose run comes last, for a schedule that ends in a run.
- Scheduling.NoOverlapIff: supposes clock changes further apart than either of the shifts; dates at the ends of the calendar are not modelled.
- Sandbox.WaiterServed: supposes grants in the order of asking and nobody overtaken between wake-up and run;
  `Sandbox.EveryRunPartitions` and `Sandbox.NoneLost` suppose neither.
- Sandbox.Execute: runs as one call what happens between waits; other executions come in between in the steps of `Sandbox.Next`. Runs
  are not cancelled.
- Isolation of the child process, its limits and its timeout, and the join of the reader threads: the pipe is read to its end.
- Scoring.ComputeTotalScore: uses exact reals with rounding half to even, not IEEE floats; a weight that is not an integer is ruled out by its type.
- Audit.LastHashFixesChain: supposes an injective hash; canonical JSON and SHA-256 are not modelled.
- Calendar.BuildIcs: takes UTC times of four-digit years; the code folds no long lines, and neither does the model.
- Erasure.Store.ApplyErasure: rewrites each table row by row as a sequence; sharing of row objects between lists is not modelled.
- Dashboards, list endpoints, blind screening, regular expressions, password hashing, tokens' cryptography and both web apps.
