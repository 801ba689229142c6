/** The adaptive interview loop: what to ask next, when to probe, when to stop
    (apps/api/app/interview_engine.py). */
module InterviewEngine {
  import opened Common

  const MAX_PROBES_PER_TOPIC := 1

  datatype TurnKind = Question | Probe | Closing

  datatype Topic = Topic(
    id: string, prompt: string, ttsText: string, expectedPoints: seq<string>, probePrompt: string)

  datatype Plan = Plan(topics: seq<Topic>)

  /** One entry of the history the engine is given. */
  datatype Asked = Asked(kind: TurnKind, topicId: string)

  /** A topic's own words, or the engine's fixed closing ones. */
  datatype Prompt = FromTopic(text: string) | ClosingThanks

  datatype Decision = Decision(
    kind: TurnKind, topicId: Option<string>, prompt: Prompt, ttsText: Prompt,
    topicIndex: int, progressTotal: nat, probesUsed: nat)

  /** What the schema demands of every stored plan. */
  predicate ValidPlan(plan: Plan) {
    |plan.topics| > 0
  }

  predicate DistinctIds(plan: Plan) {
    forall i, j :: 0 <= i < j < |plan.topics| ==> plan.topics[i].id != plan.topics[j].id
  }

  // ----- building a plan -----

  /** The prompts' wording; only the skills and years they are made from matter here. */
  datatype Wording = Wording(
    gap: seq<string> -> string, gapSpoken: seq<string> -> string, gapProbe: string,
    strength: seq<string> -> string, strengthSpoken: seq<string> -> string, strengthProbe: string,
    depth: (int, Option<int>) -> string, depthSpoken: int -> string, depthProbe: string,
    floor: string, floorSpoken: string)

  function Without(skills: seq<string>, dropped: seq<string>): (rest: seq<string>) {
    if skills == [] then []
    else (if skills[0] in dropped then [] else [skills[0]]) + Without(skills[1..], dropped)
  }

  function LowerAll(lower: string -> string, s: seq<string>): (lowered: seq<string>) {
    seq(|s|, i requires 0 <= i < |s| => lower(s[i]))
  }

  function Ids(topics: seq<Topic>): (ids: set<string>) {
    set t | t in topics :: t.id
  }

  /** The plan's fixed vocabulary. */
  datatype Names = Names(gap: string, strength: string, depth: string, floor: string, depthPoints: seq<string>)

  predicate PairwiseDistinct(names: Names) {
    && names.gap != names.strength && names.gap != names.depth && names.gap != names.floor
    && names.strength != names.depth && names.strength != names.floor && names.depth != names.floor
  }

  function PlanNames(): (names: Names)
    ensures PairwiseDistinct(names)
  {
    Names("required_gap", "strength_probe", "experience_depth", "candidate_questions",
          ["led", "owned", "designed", "shipped"])
  }

  // Each part of a plan is one topic or none.

  function GapTopics(names: Names, lower: string -> string, words: Wording, missing: seq<string>): (part: seq<Topic>) {
    var skills := Prefix(missing, 3);
    if skills == [] then []
    else [Topic(names.gap, words.gap(skills), words.gapSpoken(skills), LowerAll(lower, skills), words.gapProbe)]
  }

  function StrengthTopics(
    names: Names, lower: string -> string, words: Wording, required: seq<string>, missing: seq<string>)
    : (part: seq<Topic>)
  {
    var skills := Prefix(Without(required, missing), 2);
    if skills == [] then []
    else [Topic(names.strength, words.strength(skills), words.strengthSpoken(skills), LowerAll(lower, skills),
                words.strengthProbe)]
  }

  function DepthTopics(names: Names, words: Wording, minYears: int, statedYears: Option<int>): (part: seq<Topic>) {
    if minYears <= 0 then []
    else [Topic(names.depth, words.depth(minYears, statedYears), words.depthSpoken(minYears), names.depthPoints,
                words.depthProbe)]
  }

  function FloorTopic(names: Names, words: Wording): (topic: Topic) {
    Topic(names.floor, words.floor, words.floorSpoken, [], "")
  }

  /** What the resume lacks, what it shows, the years it claims, and the floor left to the candidate. */
  function Outline(
    names: Names, lower: string -> string, words: Wording, required: seq<string>, missing: seq<string>,
    minYears: int, statedYears: Option<int>): (topics: seq<Topic>)
  {
    GapTopics(names, lower, words, missing) + StrengthTopics(names, lower, words, required, missing)
    + DepthTopics(names, words, minYears, statedYears) + [FloorTopic(names, words)]
  }

  /** A plan follows the outline; its topic ids are distinct, and it takes at most seven turns. */
  method BuildPlan(
    lower: string -> string, words: Wording, requiredSkills: seq<string>, missingSkills: seq<string>,
    minYears: int, statedYears: Option<int>)
    returns (plan: Plan)
    ensures plan.topics == Outline(PlanNames(), lower, words, requiredSkills, missingSkills, minYears, statedYears)
    ensures ValidPlan(plan) && DistinctIds(plan) && TurnBudget(plan.topics) <= 7
  {
    plan := BuildWith(PlanNames(), lower, words, requiredSkills, missingSkills, minYears, statedYears);
    OutlineShape(PlanNames(), lower, words, requiredSkills, missingSkills, minYears, statedYears);
  }

  method BuildWith(
    names: Names, lower: string -> string, words: Wording, requiredSkills: seq<string>, missingSkills: seq<string>,
    minYears: int, statedYears: Option<int>)
    returns (plan: Plan)
    ensures plan.topics == Outline(names, lower, words, requiredSkills, missingSkills, minYears, statedYears)
  {
    var topics := [];
    var probedSkills := Prefix(missingSkills, 3);
    if probedSkills != [] {
      topics := topics + [Topic(names.gap, words.gap(probedSkills), words.gapSpoken(probedSkills),
                                LowerAll(lower, probedSkills), words.gapProbe)];
    }
    var verifiedSkills := Prefix(Without(requiredSkills, missingSkills), 2);
    if verifiedSkills != [] {
      topics := topics + [Topic(names.strength, words.strength(verifiedSkills), words.strengthSpoken(verifiedSkills),
                                LowerAll(lower, verifiedSkills), words.strengthProbe)];
    }
    if minYears > 0 {
      topics := topics + [Topic(names.depth, words.depth(minYears, statedYears), words.depthSpoken(minYears),
                                names.depthPoints, words.depthProbe)];
    }
    topics := topics + [Topic(names.floor, words.floor, words.floorSpoken, [], "")];
    plan := Plan(topics);
  }

  lemma AppendPart(topics: seq<Topic>, part: seq<Topic>)
    requires DistinctIds(Plan(topics)) && |part| <= 1 && forall t | t in part :: t.id !in Ids(topics)
    ensures DistinctIds(Plan(topics + part)) && Ids(topics + part) == Ids(topics) + Ids(part)
    ensures TurnBudget(topics + part) == TurnBudget(topics) + TurnBudget(part)
  {
    var more := topics + part;
    if part == [] {
      assert more == topics;
    } else {
      assert more[..|topics|] == topics && part[..0] == [];
      assert TurnBudget(part) == TurnBudget([]) + Turns(part[0]);
      forall i, j | 0 <= i < j < |more| ensures more[i].id != more[j].id {
        assert more[i] == topics[i] && topics[i] in topics && part[0] in part;
      }
    }
  }

  /** At most one topic, of this id. */
  predicate PartOf(part: seq<Topic>, id: string) {
    |part| <= 1 && forall t | t in part :: t.id == id
  }

  lemma PartBudget(part: seq<Topic>, id: string)
    requires PartOf(part, id)
    ensures DistinctIds(Plan(part)) && TurnBudget(part) <= 2 && Ids(part) <= {id}
  {
    BudgetAtMostTwice(part);
  }

  lemma FloorBudget(floor: Topic)
    requires !Probeable(floor)
    ensures TurnBudget([floor]) == 1
  {
    assert [floor][..0] == [];
  }

  lemma JoinParts(names: Names, gap: seq<Topic>, strength: seq<Topic>, depth: seq<Topic>, floor: Topic)
    requires PairwiseDistinct(names) && floor.id == names.floor && !Probeable(floor)
    requires PartOf(gap, names.gap) && PartOf(strength, names.strength) && PartOf(depth, names.depth)
    ensures var topics := gap + strength + depth + [floor];
            DistinctIds(Plan(topics)) && TurnBudget(topics) <= 7
  {
    PartBudget(gap, names.gap);
    PartBudget(strength, names.strength);
    PartBudget(depth, names.depth);
    FloorBudget(floor);
    AppendPart(gap, strength);
    AppendPart(gap + strength, depth);
    AppendPart(gap + strength + depth, [floor]);
  }

  /** Whatever skills and years it is made from, an outline has distinct ids, ends on the floor, and
      can take at most seven turns: two a topic, one for the floor, which is never probed. */
  lemma OutlineShape(
    names: Names, lower: string -> string, words: Wording, required: seq<string>, missing: seq<string>,
    minYears: int, statedYears: Option<int>)
    requires PairwiseDistinct(names)
    ensures var topics := Outline(names, lower, words, required, missing, minYears, statedYears);
            && topics != [] && DistinctIds(Plan(topics)) && TurnBudget(topics) <= 7
            && topics[|topics| - 1] == FloorTopic(names, words)
  {
    JoinParts(names, GapTopics(names, lower, words, missing), StrengthTopics(names, lower, words, required, missing),
              DepthTopics(names, words, minYears, statedYears), FloorTopic(names, words));
  }

  /** The skills kept are the ones not dropped, each as often and in the order they came in. */
  lemma {:induction false} WithoutIs(skills: seq<string>, dropped: seq<string>)
    ensures forall s :: multiset(Without(skills, dropped))[s] == if s in dropped then 0 else multiset(skills)[s]
    ensures forall s :: s in Without(skills, dropped) <==> s in skills && s !in dropped
  {
    if skills != [] {
      WithoutIs(skills[1..], dropped);
      assert skills == [skills[0]] + skills[1..];
    }
  }

  lemma {:induction false} WithoutInOrder(a: seq<string>, b: seq<string>, dropped: seq<string>)
    ensures Without(a + b, dropped) == Without(a, dropped) + Without(b, dropped)
  {
    if a == [] {
      assert a + b == b;
    } else {
      assert (a + b)[1..] == a[1..] + b;
      WithoutInOrder(a[1..], b, dropped);
    }
  }

  /** The topic on these skills: its points are they, lowered. */
  predicate OnSkills(
    lower: string -> string, t: Topic, skills: seq<string>, prompt: string, spoken: string, probe: string)
  {
    && skills != [] && t.prompt == prompt && t.ttsText == spoken && t.probePrompt == probe
    && |t.expectedPoints| == |skills| && forall i | 0 <= i < |skills| :: t.expectedPoints[i] == lower(skills[i])
  }

  /** The gap topic is on the first three missing skills. */
  lemma GapHolds(names: Names, lower: string -> string, words: Wording, missing: seq<string>, t: Topic)
    requires t in GapTopics(names, lower, words, missing)
    ensures var skills := if |missing| <= 3 then missing else missing[..3];
            OnSkills(lower, t, skills, words.gap(skills), words.gapSpoken(skills), words.gapProbe)
  {
  }

  /** The strength topic is on the first two required skills that are not missing. */
  lemma StrengthHolds(
    names: Names, lower: string -> string, words: Wording, required: seq<string>, missing: seq<string>, t: Topic)
    requires t in StrengthTopics(names, lower, words, required, missing)
    ensures var kept := Without(required, missing);
            var skills := if |kept| <= 2 then kept else kept[..2];
            && OnSkills(lower, t, skills, words.strength(skills), words.strengthSpoken(skills), words.strengthProbe)
            && forall s | s in skills :: s in required && s !in missing
  {
    WithoutIs(required, missing);
    var kept := Without(required, missing);
    assert forall s | s in Prefix(kept, 2) :: s in kept;
  }

  /** The depth topic is on the years demanded and stated. */
  lemma DepthHolds(names: Names, words: Wording, minYears: int, statedYears: Option<int>, t: Topic)
    requires t in DepthTopics(names, words, minYears, statedYears)
    ensures minYears > 0
    ensures t == Topic(names.depth, words.depth(minYears, statedYears), words.depthSpoken(minYears), names.depthPoints,
                       words.depthProbe)
  {
  }

  lemma IdsOfSum(a: seq<Topic>, b: seq<Topic>)
    ensures Ids(a + b) == Ids(a) + Ids(b)
  {
    assert forall t :: t in a + b <==> t in a || t in b;
  }

  lemma PartHas(part: seq<Topic>, id: string)
    requires PartOf(part, id)
    ensures Ids(part) == if part == [] then {} else {id}
  {
    assert part != [] ==> part[0] in part;
  }

  lemma SomeoneKept(required: seq<string>, missing: seq<string>)
    ensures Without(required, missing) != [] <==> exists s :: s in required && s !in missing
  {
    WithoutIs(required, missing);
    if Without(required, missing) != [] {
      assert Without(required, missing)[0] in Without(required, missing);
    }
  }

  lemma PartsHave(names: Names, gap: seq<Topic>, strength: seq<Topic>, depth: seq<Topic>, floor: Topic)
    requires PairwiseDistinct(names) && floor.id == names.floor
    requires PartOf(gap, names.gap) && PartOf(strength, names.strength) && PartOf(depth, names.depth)
    ensures var topics := gap + strength + depth + [floor];
            && (names.gap in Ids(topics) <==> gap != []) && (names.strength in Ids(topics) <==> strength != [])
            && (names.depth in Ids(topics) <==> depth != []) && names.floor in Ids(topics)
            && forall t | t in topics ::
                 && (t.id == names.gap ==> t in gap) && (t.id == names.strength ==> t in strength)
                 && (t.id == names.depth ==> t in depth) && (t.id == names.floor ==> t == floor)
  {
    IdsOfSum(gap, strength);
    IdsOfSum(gap + strength, depth);
    IdsOfSum(gap + strength + depth, [floor]);
    PartHas(gap, names.gap);
    PartHas(strength, names.strength);
    PartHas(depth, names.depth);
    PartHas([floor], names.floor);
  }

  /** Which of the four topics a plan holds; and each of them comes from its own part. */
  lemma OutlineHas(
    names: Names, lower: string -> string, words: Wording, required: seq<string>, missing: seq<string>,
    minYears: int, statedYears: Option<int>)
    requires PairwiseDistinct(names)
    ensures var topics := Outline(names, lower, words, required, missing, minYears, statedYears);
            && (names.gap in Ids(topics) <==> missing != [])
            && (names.strength in Ids(topics) <==> exists s :: s in required && s !in missing)
            && (names.depth in Ids(topics) <==> minYears > 0)
            && names.floor in Ids(topics)
            && forall t | t in topics ::
                 && (t.id == names.gap ==> t in GapTopics(names, lower, words, missing))
                 && (t.id == names.strength ==> t in StrengthTopics(names, lower, words, required, missing))
                 && (t.id == names.depth ==> t in DepthTopics(names, words, minYears, statedYears))
                 && (t.id == names.floor ==> t == Topic(names.floor, words.floor, words.floorSpoken, [], ""))
  {
    PartsHave(names, GapTopics(names, lower, words, missing), StrengthTopics(names, lower, words, required, missing),
              DepthTopics(names, words, minYears, statedYears), FloorTopic(names, words));
    SomeoneKept(required, missing);
  }

  /** Every interview over a built plan closes by its seventh answer. */
  lemma BuiltPlanCloses(
    lower: string -> string, words: Wording, required: seq<string>, missing: seq<string>, minYears: int,
    statedYears: Option<int>, answers: seq<string>)
    requires |answers| >= 7
    ensures var plan := Plan(Outline(PlanNames(), lower, words, required, missing, minYears, statedYears));
            ValidPlan(plan) && Closed(Replay(lower, plan, answers))
  {
    OutlineShape(PlanNames(), lower, words, required, missing, minYears, statedYears);
    var plan := Plan(Outline(PlanNames(), lower, words, required, missing, minYears, statedYears));
    DistinctIdsClose(lower, plan, answers);
  }

  // ----- deciding the next turn -----

  predicate OccursAt(s: string, part: string, i: nat) {
    i + |part| <= |s| && s[i..i + |part|] == part
  }

  predicate Contains(s: string, part: string) {
    exists i: nat | i <= |s| :: OccursAt(s, part, i)
  }

  function Hits(lowered: string, points: seq<string>): (hits: nat) {
    if points == [] then 0
    else
      var k := |points| - 1;
      Hits(lowered, points[..k]) + if Contains(lowered, points[k]) then 1 else 0
  }

  /** Coverage of at least one half, cross-multiplied. */
  predicate CoveredEnough(lower: string -> string, answer: string, points: seq<string>) {
    points == [] || 2 * Hits(lower(answer), points) >= |points|
  }

  // What coverage means, without counting or searching.

  ghost predicate Occurs(s: string, part: string) {
    exists a, b :: s == a + part + b
  }

  ghost function PointsMet(lowered: string, points: seq<string>): (met: set<nat>) {
    set i: nat | i < |points| && Occurs(lowered, points[i])
  }

  /** There are expected points, and fewer than half of them occur in the lowered answer. */
  ghost predicate Thin(lower: string -> string, answer: string, points: seq<string>) {
    points != [] && 2 * |PointsMet(lower(answer), points)| < |points|
  }

  lemma ContainsIff(s: string, part: string)
    ensures Contains(s, part) <==> Occurs(s, part)
  {
    if i: nat :| i <= |s| && OccursAt(s, part, i) {
      assert s == s[..i] + part + s[i + |part|..];
    }
    if a, b :| s == a + part + b {
      assert OccursAt(s, part, |a|);
    }
  }

  lemma {:induction false} HitsAre(lowered: string, points: seq<string>)
    ensures Hits(lowered, points) == |PointsMet(lowered, points)|
  {
    if points == [] {
      assert PointsMet(lowered, points) == {};
    } else {
      var k: nat := |points| - 1;
      HitsAre(lowered, points[..k]);
      ContainsIff(lowered, points[k]);
      var before := PointsMet(lowered, points[..k]);
      assert PointsMet(lowered, points) == if Occurs(lowered, points[k]) then before + {k} else before;
    }
  }

  /** Coverage is met exactly when no points are expected, or at least half of them occur in the answer. */
  lemma CoverageIs(lower: string -> string, answer: string, points: seq<string>)
    ensures CoveredEnough(lower, answer, points)
       <==> points == [] || 2 * |PointsMet(lower(answer), points)| >= |points|
  {
    HitsAre(lower(answer), points);
  }

  lemma {:induction false} HitsAllOrNone(lowered: string, points: seq<string>)
    ensures (forall p | p in points :: Occurs(lowered, p)) ==> Hits(lowered, points) == |points|
    ensures (forall p | p in points :: !Occurs(lowered, p)) ==> Hits(lowered, points) == 0
  {
    if points != [] {
      var k := |points| - 1;
      HitsAllOrNone(lowered, points[..k]);
      ContainsIff(lowered, points[k]);
      assert points[k] in points && forall p | p in points[..k] :: p in points;
    }
  }

  lemma MetAllOrNone(lowered: string, points: seq<string>)
    ensures (forall p | p in points :: Occurs(lowered, p)) ==> |PointsMet(lowered, points)| == |points|
    ensures (forall p | p in points :: !Occurs(lowered, p)) ==> |PointsMet(lowered, points)| == 0
  {
    HitsAllOrNone(lowered, points);
    HitsAre(lowered, points);
  }

  function QuestionFor(plan: Plan, index: nat): (d: Decision)
    requires index < |plan.topics|
  {
    var t := plan.topics[index];
    Decision(Question, Some(t.id), FromTopic(t.prompt), FromTopic(t.ttsText), index, |plan.topics|, 0)
  }

  function ClosingDecision(plan: Plan): (d: Decision) {
    Decision(Closing, None, ClosingThanks, ClosingThanks, -1, |plan.topics|, 0)
  }

  /** The first topic with this id. */
  function TopicIndex(topics: seq<Topic>, id: string): (r: Option<nat>)
    ensures r.None? <==> forall t | t in topics :: t.id != id
    ensures r.Some? ==> r.value < |topics| && topics[r.value].id == id
    ensures r.Some? ==> forall i | 0 <= i < r.value :: topics[i].id != id
  {
    if topics == [] then None
    else if topics[0].id == id then Some(0)
    else
      var rest := TopicIndex(topics[1..], id);
      if rest.None? then None else Some(rest.value + 1)
  }

  function CountProbes(asked: seq<Asked>, id: string): (n: nat) {
    if asked == [] then 0
    else CountProbes(asked[..|asked| - 1], id) + (if asked[|asked| - 1] == Asked(Probe, id) then 1 else 0)
  }

  function Advance(plan: Plan, index: nat): (d: Decision) {
    if index + 1 >= |plan.topics| then ClosingDecision(plan) else QuestionFor(plan, index + 1)
  }

  function Decide(lower: string -> string, plan: Plan, asked: seq<Asked>, answer: string): (d: Decision)
    requires ValidPlan(plan)
  {
    if asked == [] then QuestionFor(plan, 0)
    else
      var last := asked[|asked| - 1];
      var found := TopicIndex(plan.topics, last.topicId);
      if found.None? then ClosingDecision(plan)
      else if last.kind == Probe then Advance(plan, found.value)
      else
        var topic := plan.topics[found.value];
        var probes := CountProbes(asked, topic.id);
        if !CoveredEnough(lower, answer, topic.expectedPoints) && probes < MAX_PROBES_PER_TOPIC
           && topic.probePrompt != "" then
          Decision(Probe, Some(topic.id), FromTopic(topic.probePrompt), FromTopic(topic.probePrompt),
                   found.value, |plan.topics|, probes + 1)
        else Advance(plan, found.value)
  }

  lemma {:induction false} NoProbesIff(asked: seq<Asked>, id: string)
    ensures CountProbes(asked, id) == 0 <==> Asked(Probe, id) !in asked
  {
    if asked != [] {
      var k := |asked| - 1;
      NoProbesIff(asked[..k], id);
      assert asked == asked[..k] + [asked[k]];
    }
  }

  /** The interview opens on the first topic. */
  lemma DecideOpens(lower: string -> string, plan: Plan, answer: string)
    requires ValidPlan(plan)
    ensures var t := plan.topics[0];
            Decide(lower, plan, [], answer)
            == Decision(Question, Some(t.id), FromTopic(t.prompt), FromTopic(t.ttsText), 0, |plan.topics|, 0)
  {
  }

  /** The decision after any history, on or off an agenda, whose last entry is about the topic at k, the first of
      its id: a probe, the next topic's question, or the closing. */
  lemma DecideIs(lower: string -> string, plan: Plan, asked: seq<Asked>, answer: string, k: nat)
    requires ValidPlan(plan) && asked != [] && k < |plan.topics|
    requires plan.topics[k].id == asked[|asked| - 1].topicId
    requires forall i | 0 <= i < k :: plan.topics[i].id != plan.topics[k].id
    ensures var d := Decide(lower, plan, asked, answer);
            var t, n := plan.topics[k], |plan.topics|;
            if asked[|asked| - 1].kind != Probe && Thin(lower, answer, t.expectedPoints)
               && Asked(Probe, t.id) !in asked && t.probePrompt != "" then
              d == Decision(Probe, Some(t.id), FromTopic(t.probePrompt), FromTopic(t.probePrompt), k, n, 1)
            else if k + 1 < n then
              var t' := plan.topics[k + 1];
              d == Decision(Question, Some(t'.id), FromTopic(t'.prompt), FromTopic(t'.ttsText), k + 1, n, 0)
            else
              d == Decision(Closing, None, ClosingThanks, ClosingThanks, -1, n, 0)
  {
    assert plan.topics[k] in plan.topics;
    assert TopicIndex(plan.topics, plan.topics[k].id) == Some(k);
    CoverageIs(lower, answer, plan.topics[k].expectedPoints);
    NoProbesIff(asked, plan.topics[k].id);
  }

  /** After an entry about a topic the plan does not have, it closes. */
  lemma DecideOffPlan(lower: string -> string, plan: Plan, asked: seq<Asked>, answer: string)
    requires ValidPlan(plan) && asked != []
    requires forall t | t in plan.topics :: t.id != asked[|asked| - 1].topicId
    ensures Decide(lower, plan, asked, answer)
         == Decision(Closing, None, ClosingThanks, ClosingThanks, -1, |plan.topics|, 0)
  {
  }

  // ----- replaying an interview -----

  function AskedOf(d: Decision): (entry: Asked) {
    Asked(d.kind, if d.topicId.Some? then d.topicId.value else "")
  }

  function History(ds: seq<Decision>): (h: seq<Asked>)
  {
    seq(|ds|, i requires 0 <= i < |ds| => AskedOf(ds[i]))
  }

  predicate Closed(ds: seq<Decision>) {
    ds != [] && ds[|ds| - 1].kind == Closing
  }

  /** Folding Decide over the answers, from the empty history. */
  function Replay(lower: string -> string, plan: Plan, answers: seq<string>): (ds: seq<Decision>)
    requires ValidPlan(plan)
    ensures 1 <= |ds| <= |answers| + 1
    ensures !Closed(ds) ==> |ds| == |answers| + 1
  {
    if answers == [] then [Decide(lower, plan, [], "")]
    else
      var n := |answers| - 1;
      var before := Replay(lower, plan, answers[..n]);
      if Closed(before) then before
      else before + [Decide(lower, plan, History(before), answers[n])]
  }

  // ----- the agenda: the declarative form of every history -----

  predicate Probeable(t: Topic) {
    t.probePrompt != "" && t.expectedPoints != []
  }

  /** Topics 0..|probed|-1 in order, each question once, followed at once by its only probe
      where probed says so. */
  function Agenda(topics: seq<Topic>, probed: seq<bool>): (asked: seq<Asked>)
    requires |probed| <= |topics|
  {
    if probed == [] then []
    else
      var k := |probed| - 1;
      Agenda(topics, probed[..k]) + [Asked(Question, topics[k].id)]
      + (if probed[k] then [Asked(Probe, topics[k].id)] else [])
  }

  predicate OnAgenda(plan: Plan, asked: seq<Asked>, probed: seq<bool>) {
    && 1 <= |probed| <= |plan.topics|
    && (forall i | 0 <= i < |probed| && probed[i] :: Probeable(plan.topics[i]))
    && asked == Agenda(plan.topics, probed)
  }

  function Turns(topic: Topic): (n: nat) {
    if Probeable(topic) then 2 else 1
  }

  /** The most turns these topics can take: a question each, a probe where one is possible. */
  function TurnBudget(topics: seq<Topic>): (n: nat) {
    if topics == [] then 0
    else
      var k := |topics| - 1;
      TurnBudget(topics[..k]) + Turns(topics[k])
  }

  ghost function WithProbes(topics: seq<Topic>): (at: set<nat>) {
    set i: nat | i < |topics| && topics[i].probePrompt != "" && topics[i].expectedPoints != []
  }

  lemma WithProbesOneMore(topics: seq<Topic>, t: Topic)
    ensures WithProbes(topics + [t])
         == WithProbes(topics) + if t.probePrompt != "" && t.expectedPoints != [] then {|topics|} else {}
  {
    assert forall i: nat | i < |topics| :: (topics + [t])[i] == topics[i];
  }

  /** One turn per topic, and one more per topic with a probe prompt and expected points. */
  lemma {:induction false} BudgetIs(topics: seq<Topic>)
    ensures TurnBudget(topics) == |topics| + |WithProbes(topics)|
  {
    if topics == [] {
      assert WithProbes(topics) == {};
    } else {
      var k: nat := |topics| - 1;
      assert topics == topics[..k] + [topics[k]];
      BudgetIs(topics[..k]);
      WithProbesOneMore(topics[..k], topics[k]);
    }
  }

  lemma BudgetAtMostTwice(topics: seq<Topic>)
    ensures TurnBudget(topics) <= 2 * |topics|
  {
  }

  lemma {:induction false} NoForeignProbes(topics: seq<Topic>, probed: seq<bool>, id: string)
    requires |probed| <= |topics|
    requires forall i | 0 <= i < |probed| :: topics[i].id != id
    ensures CountProbes(Agenda(topics, probed), id) == 0
  {
    if probed != [] {
      var k := |probed| - 1;
      var before := Agenda(topics, probed[..k]);
      NoForeignProbes(topics, probed[..k], id);
      var asked := before + [Asked(Question, topics[k].id)];
      assert asked[..|asked| - 1] == before;
      if probed[k] {
        assert Agenda(topics, probed)[..|asked|] == asked;
      } else {
        assert Agenda(topics, probed) == asked;
      }
    }
  }

  lemma IdFindsTopic(plan: Plan, k: nat)
    requires DistinctIds(plan) && k < |plan.topics|
    ensures TopicIndex(plan.topics, plan.topics[k].id) == Some(k)
  {
    assert plan.topics[k] in plan.topics;
  }

  lemma AgendaEnds(plan: Plan, asked: seq<Asked>, probed: seq<bool>)
    requires DistinctIds(plan) && OnAgenda(plan, asked, probed)
    ensures var k := |probed| - 1;
            var id := plan.topics[k].id;
            && asked != [] && asked[|asked| - 1] == Asked(if probed[k] then Probe else Question, id)
            && (!probed[k] ==> CountProbes(asked, id) == 0)
  {
    var k := |probed| - 1;
    if !probed[k] {
      NoForeignProbes(plan.topics, probed[..k], plan.topics[k].id);
      assert asked[..|asked| - 1] == Agenda(plan.topics, probed[..k]);
    }
  }

  /** What the engine does on an agenda, read off the last topic alone. */
  lemma DecideOnAgenda(lower: string -> string, plan: Plan, asked: seq<Asked>, probed: seq<bool>, answer: string)
    requires ValidPlan(plan) && DistinctIds(plan) && OnAgenda(plan, asked, probed)
    ensures var k := |probed| - 1;
            var topic := plan.topics[k];
            var thin := Thin(lower, answer, topic.expectedPoints);
            var probe := Decision(Probe, Some(topic.id), FromTopic(topic.probePrompt), FromTopic(topic.probePrompt),
                                  k, |plan.topics|, 1);
            Decide(lower, plan, asked, answer)
            == if !probed[k] && thin && topic.probePrompt != "" then probe else Advance(plan, k)
  {
    AgendaEnds(plan, asked, probed);
    IdFindsTopic(plan, |probed| - 1);
    CoverageIs(lower, answer, plan.topics[|probed| - 1].expectedPoints);
  }

  lemma ExtendAgenda(plan: Plan, asked: seq<Asked>, probed: seq<bool>)
    requires OnAgenda(plan, asked, probed)
    ensures var k := |probed| - 1;
            && (!probed[k] && Probeable(plan.topics[k]) ==>
                  OnAgenda(plan, asked + [Asked(Probe, plan.topics[k].id)], probed[k := true]))
            && (k + 1 < |plan.topics| ==>
                  OnAgenda(plan, asked + [Asked(Question, plan.topics[k + 1].id)], probed + [false]))
  {
    var k := |probed| - 1;
    assert probed[k := true][..k] == probed[..k];
    assert (probed + [false])[..k + 1] == probed;
  }

  /** One turn of the interview, for every answer: probe when fewer than half of the expected points occur in it
      and the topic's probe is unspent, otherwise on to the next topic, and close only past the last one. */
  lemma NextTurn(lower: string -> string, plan: Plan, asked: seq<Asked>, probed: seq<bool>, answer: string)
    requires ValidPlan(plan) && DistinctIds(plan) && OnAgenda(plan, asked, probed)
    ensures var k, n := |probed| - 1, |plan.topics|;
            var t := plan.topics[k];
            var d := Decide(lower, plan, asked, answer);
            && (d.kind == Probe <==>
                  t.expectedPoints != [] && 2 * |PointsMet(lower(answer), t.expectedPoints)| < |t.expectedPoints|
                  && t.probePrompt != "" && !probed[k])
            && (d.kind == Probe ==>
                  && d == Decision(Probe, Some(t.id), FromTopic(t.probePrompt), FromTopic(t.probePrompt), k, n, 1)
                  && OnAgenda(plan, asked + [AskedOf(d)], probed[k := true]))
            && (d.kind == Question ==>
                  k + 1 < n && OnAgenda(plan, asked + [AskedOf(d)], probed + [false])
                  && var t' := plan.topics[k + 1];
                     d == Decision(Question, Some(t'.id), FromTopic(t'.prompt), FromTopic(t'.ttsText), k + 1, n, 0))
            && (d.kind == Closing ==>
                  k + 1 == n && d == Decision(Closing, None, ClosingThanks, ClosingThanks, -1, n, 0))
  {
    DecideOnAgenda(lower, plan, asked, probed, answer);
    ExtendAgenda(plan, asked, probed);
  }

  /** An answer with every expected point in it is never probed; one with none of them is, where points are
      expected and the topic has an unspent probe. */
  lemma FullAndEmptyAnswers(lower: string -> string, plan: Plan, asked: seq<Asked>, probed: seq<bool>, answer: string)
    requires ValidPlan(plan) && DistinctIds(plan) && OnAgenda(plan, asked, probed)
    ensures var t := plan.topics[|probed| - 1];
            var d := Decide(lower, plan, asked, answer);
            && ((forall p | p in t.expectedPoints :: Occurs(lower(answer), p)) ==> d.kind != Probe)
            && ((forall p | p in t.expectedPoints :: !Occurs(lower(answer), p)) ==>
                  (d.kind == Probe <==> t.expectedPoints != [] && t.probePrompt != "" && !probed[|probed| - 1]))
  {
    NextTurn(lower, plan, asked, probed, answer);
    MetAllOrNone(lower(answer), plan.topics[|probed| - 1].expectedPoints);
  }

  lemma {:induction false} AgendaWithinBudget(plan: Plan, probed: seq<bool>)
    requires |probed| <= |plan.topics|
    requires forall i | 0 <= i < |probed| && probed[i] :: Probeable(plan.topics[i])
    ensures |Agenda(plan.topics, probed)| <= TurnBudget(plan.topics[..|probed|])
  {
    if probed != [] {
      var k := |probed| - 1;
      AgendaWithinBudget(plan, probed[..k]);
      assert plan.topics[..k + 1][..k] == plan.topics[..k];
    }
  }

  lemma {:induction false} BudgetGrows(topics: seq<Topic>, k: nat)
    requires k <= |topics|
    ensures TurnBudget(topics[..k]) + |topics| - k <= TurnBudget(topics)
  {
    if k < |topics| {
      var n := |topics| - 1;
      BudgetGrows(topics[..n], k);
      assert topics[..n][..k] == topics[..k];
    } else {
      assert topics[..k] == topics;
    }
  }

  /** The agenda the next turn leaves. */
  lemma NextAgenda(lower: string -> string, plan: Plan, asked: seq<Asked>, probed: seq<bool>, answer: string)
    returns (probed': seq<bool>)
    requires ValidPlan(plan) && DistinctIds(plan) && OnAgenda(plan, asked, probed)
    ensures var d := Decide(lower, plan, asked, answer);
            if d.kind == Closing then probed' == probed && |probed| == |plan.topics|
            else OnAgenda(plan, asked + [AskedOf(d)], probed')
  {
    NextTurn(lower, plan, asked, probed, answer);
    var d := Decide(lower, plan, asked, answer);
    probed' := match d.kind
      case Closing => probed
      case Probe => probed[|probed| - 1 := true]
      case Question => probed + [false];
  }

  /** The turns put to the candidate: all but the closing one. */
  function OpenTurns(ds: seq<Decision>): (open: seq<Decision>) {
    if Closed(ds) then ds[..|ds| - 1] else ds
  }

  ghost predicate FollowsAgenda(plan: Plan, ds: seq<Decision>) {
    exists probed :: OnAgenda(plan, History(OpenTurns(ds)), probed) && (Closed(ds) ==> |probed| == |plan.topics|)
  }

  lemma HistoryAppend(ds: seq<Decision>, d: Decision)
    ensures History(ds + [d]) == History(ds) + [AskedOf(d)]
    ensures OpenTurns(ds + [d]) == if d.kind == Closing then ds else ds + [d]
  {
  }

  lemma FollowOneMore(lower: string -> string, plan: Plan, before: seq<Decision>, answer: string)
    requires ValidPlan(plan) && DistinctIds(plan) && !Closed(before) && FollowsAgenda(plan, before)
    ensures FollowsAgenda(plan, before + [Decide(lower, plan, History(before), answer)])
  {
    var asked := History(before);
    var probed :| OnAgenda(plan, asked, probed);
    var probed' := NextAgenda(lower, plan, asked, probed, answer);
    var d := Decide(lower, plan, asked, answer);
    HistoryAppend(before, d);
    assert OnAgenda(plan, History(OpenTurns(before + [d])), probed');
  }

  /** Whatever is answered, what has been asked is the agenda of some choice of probes. */
  lemma {:induction false} ReplayFollowsAgenda(lower: string -> string, plan: Plan, answers: seq<string>)
    requires ValidPlan(plan) && DistinctIds(plan)
    ensures FollowsAgenda(plan, Replay(lower, plan, answers))
  {
    var ds := Replay(lower, plan, answers);
    if answers == [] {
      assert [false][..0] == [];
      assert History(ds) == Agenda(plan.topics, [false]);
      assert OnAgenda(plan, History(ds), [false]);
    } else {
      var n := |answers| - 1;
      ReplayFollowsAgenda(lower, plan, answers[..n]);
      var before := Replay(lower, plan, answers[..n]);
      if !Closed(before) {
        FollowOneMore(lower, plan, before, answers[n]);
      }
    }
  }

  lemma OpenWithinBudget(plan: Plan, asked: seq<Asked>, probed: seq<bool>)
    requires OnAgenda(plan, asked, probed)
    ensures |asked| <= TurnBudget(plan.topics)
  {
    AgendaWithinBudget(plan, probed);
    BudgetGrows(plan.topics, |probed|);
  }

  /** With distinct ids the interview closes on its TurnBudget-th answer at the latest. */
  lemma DistinctIdsClose(lower: string -> string, plan: Plan, answers: seq<string>)
    requires ValidPlan(plan) && DistinctIds(plan)
    requires |answers| >= TurnBudget(plan.topics)
    ensures Closed(Replay(lower, plan, answers))
  {
    var ds := Replay(lower, plan, answers);
    if !Closed(ds) {
      ReplayFollowsAgenda(lower, plan, answers);
      var probed :| OnAgenda(plan, History(ds), probed);
      OpenWithinBudget(plan, History(ds), probed);
    }
  }

  // ----- exactly when it closes -----

  function Probes(asked: seq<Asked>): (n: nat) {
    if asked == [] then 0
    else Probes(asked[..|asked| - 1]) + if asked[|asked| - 1].kind == Probe then 1 else 0
  }

  lemma {:induction false} AgendaLength(topics: seq<Topic>, probed: seq<bool>)
    requires |probed| <= |topics|
    ensures |Agenda(topics, probed)| == |probed| + Probes(Agenda(topics, probed))
  {
    if probed != [] {
      var k := |probed| - 1;
      var before := Agenda(topics, probed[..k]);
      AgendaLength(topics, probed[..k]);
      var asked := before + [Asked(Question, topics[k].id)];
      assert asked[..|before|] == before;
      if probed[k] {
        assert Agenda(topics, probed)[..|asked|] == asked;
      } else {
        assert Agenda(topics, probed) == asked;
      }
    }
  }

  /** What one more answer does to a replay. */
  predicate StepsTo(before: seq<Decision>, after: seq<Decision>) {
    if Closed(before) then after == before else |after| == |before| + 1
  }

  lemma ReplayStep(lower: string -> string, plan: Plan, answers: seq<string>, k: nat)
    requires ValidPlan(plan) && k < |answers|
    ensures StepsTo(Replay(lower, plan, answers[..k]), Replay(lower, plan, answers[..k + 1]))
  {
    assert answers[..k + 1][..k] == answers[..k];
  }

  /** A closed replay stays as it is, an open one grows. */
  predicate Extends(before: seq<Decision>, after: seq<Decision>, more: nat) {
    if Closed(before) then after == before else more == 0 || |after| > |before|
  }

  lemma {:induction false} StepsExtend(replay: nat -> seq<Decision>, k: nat, n: nat)
    requires k <= n && forall i: nat | i < n :: StepsTo(replay(i), replay(i + 1))
    ensures Extends(replay(k), replay(n), n - k)
    decreases n
  {
    if k < n {
      StepsExtend(replay, k, n - 1);
      assert StepsTo(replay(n - 1), replay(n - 1 + 1));
    }
  }

  function AfterAnswers(lower: string -> string, plan: Plan, answers: seq<string>): (replay: nat -> seq<Decision>)
    requires ValidPlan(plan)
  {
    (k: nat) => Replay(lower, plan, Prefix(answers, k))
  }

  lemma ReplaySteps(lower: string -> string, plan: Plan, answers: seq<string>)
    requires ValidPlan(plan)
    ensures var replay := AfterAnswers(lower, plan, answers);
            forall i: nat | i < |answers| :: StepsTo(replay(i), replay(i + 1))
  {
    var replay := AfterAnswers(lower, plan, answers);
    assert Prefix(answers, |answers|) == answers[..|answers|];
    forall i: nat | i < |answers| ensures StepsTo(replay(i), replay(i + 1)) {
      ReplayStep(lower, plan, answers, i);
    }
  }

  lemma OpenUntil(lower: string -> string, plan: Plan, answers: seq<string>, k: nat)
    requires ValidPlan(plan) && Closed(Replay(lower, plan, answers)) && k <= |answers|
    ensures Closed(Replay(lower, plan, answers[..k])) <==> k >= |Replay(lower, plan, answers)| - 1
  {
    ReplaySteps(lower, plan, answers);
    StepsExtend(AfterAnswers(lower, plan, answers), k, |answers|);
    assert answers[..|answers|] == answers;
    assert AfterAnswers(lower, plan, answers)(k) == Replay(lower, plan, answers[..k]);
  }

  lemma ClosedLength(lower: string -> string, plan: Plan, answers: seq<string>)
    requires ValidPlan(plan) && DistinctIds(plan) && Closed(Replay(lower, plan, answers))
    ensures var ds := Replay(lower, plan, answers);
            |ds| == |plan.topics| + Probes(History(OpenTurns(ds))) + 1
  {
    var ds := Replay(lower, plan, answers);
    ReplayFollowsAgenda(lower, plan, answers);
    var probed :| OnAgenda(plan, History(OpenTurns(ds)), probed) && |probed| == |plan.topics|;
    AgendaLength(plan.topics, probed);
  }

  /** A closed interview has taken one answer per topic and one per probe asked, and was open on every
      shorter run of the same answers. */
  lemma ClosesAfterTopicsAndProbes(lower: string -> string, plan: Plan, answers: seq<string>, k: nat)
    requires ValidPlan(plan) && DistinctIds(plan) && Closed(Replay(lower, plan, answers)) && k <= |answers|
    ensures var taken := |plan.topics| + Probes(History(OpenTurns(Replay(lower, plan, answers))));
            && |Replay(lower, plan, answers)| == taken + 1
            && (Closed(Replay(lower, plan, answers[..k])) <==> k >= taken)
  {
    ClosedLength(lower, plan, answers);
    OpenUntil(lower, plan, answers, k);
  }

  // ----- a repeated id -----

  /** The last turn is about a topic found strictly before position j. */
  predicate StuckBefore(plan: Plan, last: Decision, j: nat) {
    && last.topicId.Some? && last.kind != Closing
    && var found := TopicIndex(plan.topics, last.topicId.value);
       found.Some? && found.value < j
  }

  lemma StaysStuck(
    lower: string -> string, plan: Plan, i: nat, j: nat, asked: seq<Asked>, last: Decision, answer: string)
    requires i < j < |plan.topics| && plan.topics[i].id == plan.topics[j].id
    requires StuckBefore(plan, last, j) && asked != [] && asked[|asked| - 1] == AskedOf(last)
    ensures StuckBefore(plan, Decide(lower, plan, asked, answer), j)
  {
    var at := TopicIndex(plan.topics, last.topicId.value).value;
    var next := plan.topics[at + 1];
    assert next in plan.topics;
    assert TopicIndex(plan.topics, next.id).Some?;
  }

  /** With a repeated id no answers ever close it: the lookup by id keeps falling back to the
      first of the two topics. */
  lemma {:induction false} RepeatedIdNeverCloses(
    lower: string -> string, plan: Plan, i: nat, j: nat, answers: seq<string>)
    requires i < j < |plan.topics| && plan.topics[i].id == plan.topics[j].id
    ensures var ds := Replay(lower, plan, answers);
            !Closed(ds) && StuckBefore(plan, ds[|ds| - 1], j)
  {
    if answers == [] {
      assert plan.topics[0] in plan.topics;
    } else {
      var n := |answers| - 1;
      RepeatedIdNeverCloses(lower, plan, i, j, answers[..n]);
      var before := Replay(lower, plan, answers[..n]);
      StaysStuck(lower, plan, i, j, History(before), before[|before| - 1], answers[n]);
    }
  }

  /** The loop is guaranteed to stop exactly when the plan's topic ids are distinct. */
  lemma StopsIffDistinctIds(lower: string -> string, plan: Plan)
    requires ValidPlan(plan)
    ensures DistinctIds(plan) <==>
            forall answers: seq<string> | |answers| >= TurnBudget(plan.topics) :: Closed(Replay(lower, plan, answers))
  {
    if DistinctIds(plan) {
      forall answers: seq<string> | |answers| >= TurnBudget(plan.topics)
        ensures Closed(Replay(lower, plan, answers))
      {
        DistinctIdsClose(lower, plan, answers);
      }
    } else {
      var i, j :| 0 <= i < j < |plan.topics| && plan.topics[i].id == plan.topics[j].id;
      var answers := seq(TurnBudget(plan.topics), _ => "");
      assert |answers| >= TurnBudget(plan.topics);
      RepeatedIdNeverCloses(lower, plan, i, j, answers);
    }
  }
}
