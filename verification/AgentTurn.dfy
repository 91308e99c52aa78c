/** One turn of the agent graph: nodes, routers and the bounded replan loop,
    driven by whatever the model, the tools and the clock answer. */
module AgentTurn {
  import opened ToolRouter

  datatype Node =
    | LoadContext | Identify | OnboardingResponse | GreetingResponse | RoleSelect | CreatorResponse
    | Menu | Browse | Summarize | Planner | Execute | Reflect | Responder | Humanize | Persist | End

  datatype Lane = Onboarding | Greeting | RoleChoice | Creator | Agent

  /** The planner's input: a follow-up on the pinned job, answered without the
      model, or the model's object (an empty one when the call failed). */
  datatype PlannerReply = ApplyToPinned | AnswerPinned | Reply(direct: bool, requested: seq<string>)

  /** What the outside world answers to the node being visited. */
  datatype World = World(
    lane: Lane, handled: bool, plan: PlannerReply, tools: seq<Answer>, replan: bool, inTime: bool)

  datatype State = State(
    node: Node, plan: seq<StepView>, loopCount: nat, results: seq<Result>, planned: seq<string>)

  datatype Config = Config(maxLoops: int, registry: set<string>)

  function NewStep(tool: string): StepView {
    StepView(tool, Pending, 0, [])
  }

  /** Tools the model invents are dropped. */
  function ValidSteps(c: Config, requested: seq<string>): seq<StepView> {
    if requested == [] then []
    else
      ValidSteps(c, requested[..|requested| - 1])
      + var last := requested[|requested| - 1];
        if last in c.registry && last != "" then [NewStep(last)] else []
  }

  /** The planner's new plan. */
  function NewPlan(c: Config, r: PlannerReply): seq<StepView> {
    match r
    case ApplyToPinned => [NewStep("submit_application")]
    case AnswerPinned => []
    case Reply(direct, requested) =>
      var steps := ValidSteps(c, requested);
      if !direct && steps == [] then [NewStep("search_jobs")] else steps
  }

  /** The answers of the tools, one per step; missing ones count as failures. */
  function Fit(tools: seq<Answer>, n: nat): (r: seq<Answer>)
    ensures |r| == n
  {
    seq(n, i requires 0 <= i < n => if i < |tools| then tools[i] else Answer(true, ""))
  }

  function Enter(lane: Lane): Node {
    match lane
    case Onboarding => OnboardingResponse
    case Greeting => GreetingResponse
    case RoleChoice => RoleSelect
    case Creator => CreatorResponse
    case Agent => Menu
  }

  predicate CanLoop(c: Config, s: State, w: World) {
    s.loopCount < c.maxLoops && w.inTime
  }

  /** Visit the current node and follow its edge. */
  function Visit(c: Config, s: State, w: World): State {
    match s.node
    case LoadContext => s.(node := Identify)
    case Identify => s.(node := Enter(w.lane))
    case OnboardingResponse => s.(node := Humanize)
    case GreetingResponse => s.(node := Humanize)
    case RoleSelect => s.(node := Humanize)
    case CreatorResponse => s.(node := Humanize)
    case Menu => s.(node := if w.handled then Humanize else Browse)
    case Browse => s.(node := if w.handled then Humanize else Summarize)
    case Summarize => s.(node := Planner)
    case Planner =>
      var plan := NewPlan(c, w.plan);
      s.(plan := plan, loopCount := s.loopCount + 1, planned := s.planned + RunnableTools(plan),
         node := if plan != [] then Execute else Responder)
    case Execute =>
      var answers := Fit(w.tools, |s.plan|);
      var plan := Executed(s.plan, answers);
      s.(plan := plan, results := s.results + NewResults(s.plan, answers),
         node := if |plan| == 1 && plan[0].status == Done then Responder else Reflect)
    case Reflect => s.(node := if w.replan && CanLoop(c, s, w) then Planner else Responder)
    case Responder => s.(node := Humanize)
    case Humanize => s.(node := Persist)
    case Persist => s.(node := End)
    case End => s
  }

  const START := State(LoadContext, [], 0, [], [])

  /** The nodes visited while the world answers `ws`, until the end or the answers run out. */
  function Visits(c: Config, s: State, ws: seq<World>): seq<Node>
    decreases |ws|
  {
    if ws == [] || s.node == End then [] else [s.node] + Visits(c, Visit(c, s, ws[0]), ws[1..])
  }

  function Final(c: Config, s: State, ws: seq<World>): State
    decreases |ws|
  {
    if ws == [] || s.node == End then s else Final(c, Visit(c, s, ws[0]), ws[1..])
  }

  function Max1(n: int): int {
    if n < 1 then 1 else n
  }

  /** Passes through the planner still possible once the loop counter stands at `n`. */
  function Again(c: Config, n: nat): nat {
    if n < c.maxLoops then c.maxLoops - n else 0
  }

  /** An upper bound on the visits still to come. */
  function Rank(c: Config, s: State): nat {
    match s.node
    case LoadContext => 8 + 3 * Max1(c.maxLoops - s.loopCount)
    case Identify => 7 + 3 * Max1(c.maxLoops - s.loopCount)
    case Menu => 6 + 3 * Max1(c.maxLoops - s.loopCount)
    case Browse => 5 + 3 * Max1(c.maxLoops - s.loopCount)
    case Summarize => 4 + 3 * Max1(c.maxLoops - s.loopCount)
    case Planner => 3 + 3 * Max1(c.maxLoops - s.loopCount)
    case Execute => 5 + 3 * Again(c, s.loopCount)
    case Reflect => 4 + 3 * Again(c, s.loopCount)
    case Responder => 3
    case Humanize => 2
    case Persist => 1
    case End => 0
    case _ => 3
  }

  function Count(visits: seq<Node>, n: Node): nat {
    if visits == [] then 0 else (if visits[0] == n then 1 else 0) + Count(visits[1..], n)
  }

  /** Planner visits still possible. */
  function PlansLeft(c: Config, s: State): nat {
    match s.node
    case LoadContext => Max1(c.maxLoops - s.loopCount)
    case Identify => Max1(c.maxLoops - s.loopCount)
    case Menu => Max1(c.maxLoops - s.loopCount)
    case Browse => Max1(c.maxLoops - s.loopCount)
    case Summarize => Max1(c.maxLoops - s.loopCount)
    case Planner => Max1(c.maxLoops - s.loopCount)
    case Execute => Again(c, s.loopCount)
    case Reflect => Again(c, s.loopCount)
    case _ => 0
  }

  /** Deliveries still to come: one until `humanize` is done. */
  function ToHumanize(s: State): nat {
    if s.node == Persist || s.node == End then 0 else 1
  }

  function ToPersist(s: State): nat {
    if s.node == End then 0 else 1
  }

  function One(b: bool): nat {
    if b then 1 else 0
  }

  /** One visit uses up its share of each budget. */
  lemma VisitSpends(c: Config, s: State, w: World)
    requires s.node != End
    ensures var s' := Visit(c, s, w);
      && Rank(c, s') + 1 <= Rank(c, s)
      && PlansLeft(c, s') + One(s.node == Planner) <= PlansLeft(c, s)
      && ToHumanize(s) == ToHumanize(s') + One(s.node == Humanize)
      && ToPersist(s) == ToPersist(s') + One(s.node == Persist)
  {
  }

  lemma Unfold(c: Config, s: State, ws: seq<World>, n: Node)
    requires ws != [] && s.node != End
    ensures var rest := Visits(c, Visit(c, s, ws[0]), ws[1..]);
      && |Visits(c, s, ws)| == 1 + |rest|
      && Count(Visits(c, s, ws), n) == One(s.node == n) + Count(rest, n)
      && Final(c, s, ws) == Final(c, Visit(c, s, ws[0]), ws[1..])
  {
    var rest := Visits(c, Visit(c, s, ws[0]), ws[1..]);
    assert ([s.node] + rest)[1..] == rest;
  }

  lemma {:induction false} Bounded(c: Config, s: State, ws: seq<World>)
    ensures |Visits(c, s, ws)| <= Rank(c, s)
    ensures |ws| >= Rank(c, s) ==> Final(c, s, ws).node == End
    ensures Count(Visits(c, s, ws), Planner) <= PlansLeft(c, s)
    ensures Final(c, s, ws).node == End ==>
      && Count(Visits(c, s, ws), Humanize) == ToHumanize(s)
      && Count(Visits(c, s, ws), Persist) == ToPersist(s)
    decreases |ws|
  {
    if ws != [] && s.node != End {
      var s' := Visit(c, s, ws[0]);
      VisitSpends(c, s, ws[0]);
      Unfold(c, s, ws, Planner);
      Unfold(c, s, ws, Humanize);
      Unfold(c, s, ws, Persist);
      Bounded(c, s', ws[1..]);
    }
  }

  /** Every turn ends: whatever is answered, the graph reaches its end within
      8 + 3 * max(1, agent_max_loops) node visits, plans at most
      max(1, agent_max_loops) times, and delivers and persists exactly once. */
  lemma EveryTurnEnds(c: Config, ws: seq<World>)
    requires |ws| >= 8 + 3 * Max1(c.maxLoops)
    ensures Final(c, START, ws).node == End
    ensures |Visits(c, START, ws)| <= 8 + 3 * Max1(c.maxLoops)
    ensures Count(Visits(c, START, ws), Planner) <= Max1(c.maxLoops)
    ensures Count(Visits(c, START, ws), Humanize) == 1 && Count(Visits(c, START, ws), Persist) == 1
  {
    Bounded(c, START, ws);
  }

  predicate BeforeLoop(n: Node) {
    n == LoadContext || n == Identify || n == Menu || n == Browse
  }

  predicate InLoop(n: Node) {
    n == Summarize || n == Planner || n == Execute || n == Reflect || n == Responder
  }

  /** What the visits still to come look like, by where the turn stands. */
  predicate Shaped(n: Node, visits: seq<Node>) {
    && (BeforeLoop(n) ==> Count(visits, Responder) == One(Count(visits, Planner) > 0))
    && (InLoop(n) ==> Count(visits, Responder) == 1)
    && (n == Summarize || n == Planner ==> Count(visits, Planner) > 0)
    && (!BeforeLoop(n) && !InLoop(n) ==> Count(visits, Responder) == 0 && Count(visits, Planner) == 0)
    && Count(visits, Execute) <= Count(visits, Planner) + One(n == Execute)
    && Count(visits, Reflect) <= Count(visits, Execute) + One(n == Reflect)
  }

  lemma ShapeNext(c: Config, s: State, w: World, rest: seq<Node>)
    requires s.node != End && Shaped(Visit(c, s, w).node, rest)
    ensures Shaped(s.node, [s.node] + rest)
  {
    assert ([s.node] + rest)[1..] == rest;
    hide NewPlan;
    hide Executed;
    hide NewResults;
  }

  /** A complete turn answers through the responder exactly once if it planned and
      never otherwise; it executes at most as often as it plans and reflects at
      most as often as it executes. */
  lemma {:induction false} TurnShape(c: Config, s: State, ws: seq<World>)
    requires Final(c, s, ws).node == End
    ensures Shaped(s.node, Visits(c, s, ws))
    decreases |ws|
  {
    hide Visit;
    hide Shaped;
    if ws == [] || s.node == End {
      EndIsShaped();
    } else {
      TurnShape(c, Visit(c, s, ws[0]), ws[1..]);
      ShapeNext(c, s, ws[0], Visits(c, Visit(c, s, ws[0]), ws[1..]));
    }
  }

  lemma EndIsShaped()
    ensures Shaped(End, [])
  {
  }

  /** A world that always fails the tool and always asks to replan, in time. */
  const INSISTENT := World(Agent, false, Reply(false, []), [], true, true)

  function Insistent(n: nat): seq<World> {
    if n == 0 then [] else [INSISTENT] + Insistent(n - 1)
  }

  /** The states of an insistent turn. */
  predicate Insisted(c: Config, s: State) {
    match s.node
    case OnboardingResponse => false
    case GreetingResponse => false
    case RoleSelect => false
    case CreatorResponse => false
    case Execute => s.plan == [NewStep("search_jobs")]
    case Reflect => true
    case Responder => true
    case Humanize => true
    case Persist => true
    case End => true
    case _ => s.loopCount < c.maxLoops
  }

  /** An insistent visit uses up exactly one visit of the bound, and one pass if it plans. */
  lemma InsistentVisit(c: Config, s: State)
    requires Insisted(c, s) && s.node != End
    ensures var s' := Visit(c, s, INSISTENT);
      && Insisted(c, s')
      && Rank(c, s') + 1 == Rank(c, s)
      && PlansLeft(c, s') + One(s.node == Planner) == PlansLeft(c, s)
  {
    if s.node == Planner {
      assert ValidSteps(c, []) == [];
    } else if s.node == Execute {
      assert Visit(c, s, INSISTENT).plan[0] == Dispatched(s.plan[0], Answer(true, ""));
    }
  }

  lemma {:induction false} InsistentTurn(c: Config, s: State, n: nat)
    requires Insisted(c, s) && n >= Rank(c, s)
    ensures |Visits(c, s, Insistent(n))| == Rank(c, s)
    ensures Count(Visits(c, s, Insistent(n)), Planner) == PlansLeft(c, s)
    decreases n
  {
    if s.node != End {
      var s' := Visit(c, s, INSISTENT);
      InsistentVisit(c, s);
      assert Insistent(n)[0] == INSISTENT && Insistent(n)[1..] == Insistent(n - 1);
      Unfold(c, s, Insistent(n), Planner);
      InsistentTurn(c, s', n - 1);
    }
  }

  /** The bound is met: a model that always asks to replan, with failing tools and
      time to spare, uses every visit and every planning pass. */
  lemma BoundIsTight(c: Config, n: nat)
    requires c.maxLoops >= 1 && n >= 8 + 3 * c.maxLoops
    ensures |Visits(c, START, Insistent(n))| == 8 + 3 * c.maxLoops
    ensures Count(Visits(c, START, Insistent(n)), Planner) == c.maxLoops
  {
    InsistentTurn(c, START, n);
  }

  // ----- every planned step is dispatched once -----

  predicate AllNew(plan: seq<StepView>) {
    forall i :: 0 <= i < |plan| ==> plan[i].status == Pending && plan[i].tool != "" && plan[i].attempts == 0
  }

  /** Dispatched exactly once, and ended. */
  predicate AllEnded(plan: seq<StepView>) {
    forall i :: 0 <= i < |plan| ==> (plan[i].status == Done || plan[i].status == Failed) && plan[i].attempts == 1
  }

  /** Between planning and execution the plan waits; otherwise everything ever
      planned has exactly one result, in order. */
  ghost predicate Tracked(s: State) {
    if s.node == Execute then AllNew(s.plan) && s.planned == Tools(s.results) + RunnableTools(s.plan)
    else AllEnded(s.plan) && s.planned == Tools(s.results)
  }

  lemma {:induction false} NewPlanIsNew(c: Config, r: PlannerReply)
    ensures AllNew(NewPlan(c, r))
  {
    if r.Reply? {
      ValidStepsAreNew(c, r.requested);
    }
  }

  lemma {:induction false} ValidStepsAreNew(c: Config, requested: seq<string>)
    ensures AllNew(ValidSteps(c, requested))
  {
    if requested != [] {
      ValidStepsAreNew(c, requested[..|requested| - 1]);
    }
  }

  lemma PlannerTracked(c: Config, s: State, w: World)
    requires Tracked(s) && s.node == Planner
    ensures Tracked(Visit(c, s, w)) && s.results <= Visit(c, s, w).results
  {
    NewPlanIsNew(c, w.plan);
    assert NewPlan(c, w.plan) == [] ==> RunnableTools(NewPlan(c, w.plan)) == [];
  }

  lemma ExecuteTracked(c: Config, s: State, w: World)
    requires Tracked(s) && s.node == Execute
    ensures Tracked(Visit(c, s, w)) && s.results <= Visit(c, s, w).results
  {
    var answers := Fit(w.tools, |s.plan|);
    OneResultPerStep(s.plan, answers);
    var more := NewResults(s.plan, answers);
    hide NewResults;
    hide RunnableTools;
    assert Tools(s.results + more) == Tools(s.results) + Tools(more);
  }

  lemma VisitTracked(c: Config, s: State, w: World)
    requires Tracked(s)
    ensures Tracked(Visit(c, s, w)) && s.results <= Visit(c, s, w).results
  {
    hide RunnableTools;
    hide NewResults;
    if s.node == Planner {
      PlannerTracked(c, s, w);
    } else if s.node == Execute {
      ExecuteTracked(c, s, w);
    }
  }

  lemma {:induction false} RestStaysTracked(c: Config, s: State, ws: seq<World>)
    requires Tracked(s)
    ensures s.results <= Final(c, s, ws).results && Tracked(Final(c, s, ws))
    ensures Final(c, s, ws).node == End ==>
      Tools(Final(c, s, ws).results) == Final(c, s, ws).planned && AllEnded(Final(c, s, ws).plan)
    decreases |ws|
  {
    if ws != [] && s.node != End {
      VisitTracked(c, s, ws[0]);
      RestStaysTracked(c, Visit(c, s, ws[0]), ws[1..]);
    }
  }

  /** In every turn the tool results only grow by appending, and at its end every
      step ever planned was dispatched exactly once, in planning order, and ended
      done or failed. */
  lemma EveryStepDispatchedOnce(c: Config, ws: seq<World>, more: seq<World>)
    ensures var s := Final(c, START, ws);
      && s.results <= Final(c, s, more).results
      && (s.node == End ==> Tools(s.results) == s.planned && AllEnded(s.plan))
  {
    RestStaysTracked(c, START, ws);
    RestStaysTracked(c, Final(c, START, ws), more);
  }

  // ----- what the planner plans -----

  /** Requested steps are kept one by one, in order, exactly when their tool is
      registered; each is planned as a new step. */
  lemma PlansRegisteredTools(c: Config, requested: seq<string>, tool: string)
    ensures ValidSteps(c, []) == []
    ensures ValidSteps(c, requested + [tool])
      == ValidSteps(c, requested) + if tool in c.registry && tool != "" then [StepView(tool, Pending, 0, [])] else []
  {
    assert (requested + [tool])[..|requested|] == requested;
  }

  /** A tool is planned exactly when it was requested and is registered. */
  lemma {:induction false} PlannedIff(c: Config, requested: seq<string>, tool: string)
    ensures (exists i :: 0 <= i < |ValidSteps(c, requested)| && ValidSteps(c, requested)[i].tool == tool)
      <==> tool in requested && tool in c.registry && tool != ""
  {
    if requested != [] {
      var n := |requested| - 1;
      var init, last := requested[..n], requested[n];
      PlannedIff(c, init, tool);
      assert requested == init + [last];
      PlansRegisteredTools(c, init, last);
      var before, steps := ValidSteps(c, init), ValidSteps(c, requested);
      hide ValidSteps;
      if i :| 0 <= i < |before| && before[i].tool == tool {
        assert steps[i] == before[i];
      }
      if last == tool && tool in c.registry && tool != "" {
        assert steps[|steps| - 1].tool == tool;
      }
    }
  }

  /** What is planned: applying to the pinned job is one step of its own, a follow-up on
      it is answered without tools, and a request that leaves no registered step falls
      back to a job search unless the model asked to answer directly. */
  lemma PlanFallsBack(c: Config, direct: bool, requested: seq<string>)
    ensures NewPlan(c, ApplyToPinned) == [StepView("submit_application", Pending, 0, [])]
    ensures NewPlan(c, AnswerPinned) == []
    ensures (forall i :: 0 <= i < |requested| ==> requested[i] !in c.registry || requested[i] == "") ==>
      NewPlan(c, Reply(direct, requested)) == if direct then [] else [StepView("search_jobs", Pending, 0, [])]
    ensures (exists i :: 0 <= i < |requested| && requested[i] in c.registry && requested[i] != "") ==>
      NewPlan(c, Reply(direct, requested)) == ValidSteps(c, requested) != []
  {
    var steps := ValidSteps(c, requested);
    hide ValidSteps;
    if i :| 0 <= i < |requested| && requested[i] in c.registry && requested[i] != "" {
      PlannedIff(c, requested, requested[i]);
    } else if steps != [] {
      var tool := steps[0].tool;
      PlannedIff(c, requested, tool);
      assert false;
    }
  }

  // ----- where a turn goes -----

  /** A plan with steps is executed, an empty one answered. */
  lemma PlannedTurnExecutesIff(c: Config, s: State, w: World)
    requires s.node == Planner
    ensures var s' := Visit(c, s, w);
      && s'.plan == NewPlan(c, w.plan) && s'.loopCount == s.loopCount + 1 && s'.results == s.results
      && s'.node == if s'.plan != [] then Execute else Responder
  {
  }

  /** After the tools, a single step whose tool did not fail is answered at once; several
      steps, or a failed one, are reflected on. */
  lemma ReflectsIff(c: Config, s: State, w: World)
    requires s.node == Execute && s.plan != [] && AllNew(s.plan)
    ensures var n := |s.plan|;
      (Visit(c, s, w).node == Responder <==> n == 1 && |w.tools| > 0 && !w.tools[0].failed)
      && (Visit(c, s, w).node == Responder || Visit(c, s, w).node == Reflect)
  {
    var answers := Fit(w.tools, |s.plan|);
    assert Executed(s.plan, answers)[0] == Dispatched(s.plan[0], answers[0]);
  }

  /** A reflection goes back to the planner exactly when it asks to, the loop counter is
      below the limit and the deadline has not passed; otherwise the turn is answered. */
  lemma ReplansIff(c: Config, s: State, w: World)
    requires s.node == Reflect
    ensures var s' := Visit(c, s, w);
      && (s'.node == Planner <==> w.replan && s.loopCount < c.maxLoops && w.inTime)
      && (s'.node != Planner ==> s'.node == Responder)
      && s' == s.(node := s'.node)
  {
  }

  lemma VisitsCons(c: Config, s: State, w: World, rest: seq<World>)
    ensures Visits(c, s, [w] + rest) == if s.node == End then [] else [s.node] + Visits(c, Visit(c, s, w), rest)
  {
    assert ([w] + rest)[1..] == rest;
  }

  /** `humanize` delivers, `persist` ends the turn. */
  lemma Delivered(c: Config, s: State, ws: seq<World>)
    requires s.node == Humanize && |ws| >= 2
    ensures Visits(c, s, ws) == [Humanize, Persist]
  {
    assert Visit(c, s, ws[0]) == s.(node := Persist);
    assert Visit(c, s.(node := Persist), ws[1]) == s.(node := End);
    hide Visit;
    assert ws == [ws[0]] + ([ws[1]] + ws[2..]);
    VisitsCons(c, s, ws[0], [ws[1]] + ws[2..]);
    VisitsCons(c, s.(node := Persist), ws[1], ws[2..]);
    assert Visits(c, s.(node := End), ws[2..]) == [];
  }

  /** A turn in a lane of its own is answered there, delivered and persisted. */
  lemma LaneTurn(c: Config, s: State, lane: World, answer: World, more: seq<World>)
    requires s.node == Identify && lane.lane != Agent && |more| >= 2
    ensures Visits(c, s, [lane] + ([answer] + more))
      == [Identify, match lane.lane case Onboarding => OnboardingResponse case Greeting => GreetingResponse
                    case RoleChoice => RoleSelect case Creator => CreatorResponse case Agent => End,
          Humanize, Persist]
  {
    var s2 := Visit(c, s, lane);
    var s3 := Visit(c, s2, answer);
    assert s3 == s.(node := Humanize);
    hide Visit;
    VisitsCons(c, s, lane, [answer] + more);
    VisitsCons(c, s2, answer, more);
    hide Visits;
    Delivered(c, s3, more);
  }

  /** An agent turn comes to the menu, and with what that handled is delivered. */
  lemma MenuTurn(c: Config, s: State, lane: World, menu: World, more: seq<World>)
    requires s.node == Identify && lane.lane == Agent && |more| >= 2
    ensures Visits(c, s, [lane] + ([menu] + more))
      == [Identify, Menu] + if menu.handled then [Humanize, Persist] else Visits(c, s.(node := Browse), more)
  {
    var s2 := s.(node := Menu);
    var s3 := s.(node := if menu.handled then Humanize else Browse);
    assert Visit(c, s, lane) == s2 && Visit(c, s2, menu) == s3;
    hide Visit;
    VisitsCons(c, s, lane, [menu] + more);
    VisitsCons(c, s2, menu, more);
    hide Visits;
    if menu.handled {
      Delivered(c, s3, more);
    }
  }

  /** What the menu left over goes to the browse, and only what that left too is planned. */
  lemma BrowseTurn(c: Config, s: State, browse: World, sum: World, more: seq<World>)
    requires s.node == Browse && |more| >= 2
    ensures Visits(c, s, [browse] + ([sum] + more))
      == [Browse] + if browse.handled then [Humanize, Persist] else [Summarize] + Visits(c, s.(node := Planner), more)
  {
    var s2 := s.(node := if browse.handled then Humanize else Summarize);
    assert Visit(c, s, browse) == s2 && (!browse.handled ==> Visit(c, s2, sum) == s.(node := Planner));
    hide Visit;
    VisitsCons(c, s, browse, [sum] + more);
    if browse.handled {
      Delivered(c, s2, [sum] + more);
    } else {
      VisitsCons(c, s2, sum, more);
    }
    hide Visits;
  }

  // ----- the answers of the tools, over a whole turn -----

  /** What the world answers to the steps it is asked to run on this visit; a missing
      answer counts as a failure. */
  function AnswersNow(s: State, w: World): seq<Result> {
    if s.node != Execute then []
    else
      seq(|s.plan|, i requires 0 <= i < |s.plan| =>
        Result(s.plan[i].tool, if i < |w.tools| then w.tools[i] else Answer(true, "")))
  }

  /** And over the rest of the turn, visit by visit. */
  function Answered(c: Config, s: State, ws: seq<World>): seq<Result>
    decreases |ws|
  {
    if ws == [] || s.node == End then [] else AnswersNow(s, ws[0]) + Answered(c, Visit(c, s, ws[0]), ws[1..])
  }

  lemma {:induction false} AllNewRun(plan: seq<StepView>, answers: seq<Answer>)
    requires AllNew(plan) && |answers| == |plan|
    ensures |NewResults(plan, answers)| == |plan|
    ensures forall i :: 0 <= i < |plan| ==> NewResults(plan, answers)[i] == Result(plan[i].tool, answers[i])
  {
    if plan != [] {
      AllNewRun(plan[..|plan| - 1], answers[..|plan| - 1]);
    }
  }

  /** Each step holds the answer of its own result, and ended as that did. */
  predicate Records(plan: seq<StepView>, results: seq<Result>) {
    && |plan| == |results|
    && forall i :: 0 <= i < |plan| ==>
         && plan[i].tool == results[i].tool && plan[i].answer == [results[i].answer]
         && (plan[i].status == Done <==> !results[i].answer.failed)
         && (plan[i].status == Failed <==> results[i].answer.failed)
  }

  /** The steps of the last plan record the last results. */
  predicate Recorded(s: State) {
    s.node != Execute ==> |s.plan| <= |s.results| && Records(s.plan, s.results[|s.results| - |s.plan|..])
  }

  lemma ExecutedRecords(plan: seq<StepView>, answers: seq<Answer>)
    requires AllNew(plan) && |answers| == |plan|
    ensures Records(Executed(plan, answers), NewResults(plan, answers))
  {
    AllNewRun(plan, answers);
    hide NewResults;
    forall i | 0 <= i < |plan| ensures Executed(plan, answers)[i] == Dispatched(plan[i], answers[i]) {
    }
  }

  lemma ExecuteVisit(c: Config, s: State, w: World)
    requires s.node == Execute
    ensures var s', answers := Visit(c, s, w), Fit(w.tools, |s.plan|);
      && s'.results == s.results + NewResults(s.plan, answers) && s'.plan == Executed(s.plan, answers)
      && s'.node != Execute
  {
    hide NewResults;
    hide Executed;
  }

  lemma ExecuteAnswers(c: Config, s: State, w: World)
    requires s.node == Execute && AllNew(s.plan)
    ensures Visit(c, s, w).results == s.results + AnswersNow(s, w)
    ensures Recorded(Visit(c, s, w))
  {
    var answers := Fit(w.tools, |s.plan|);
    ExecuteVisit(c, s, w);
    hide Visit;
    AllNewRun(s.plan, answers);
    ExecutedRecords(s.plan, answers);
    hide NewResults;
    hide Records;
    var s', more := Visit(c, s, w), NewResults(s.plan, answers);
    assert more == AnswersNow(s, w);
    assert s'.results[|s'.results| - |s'.plan|..] == more;
  }

  lemma VisitAnswers(c: Config, s: State, w: World)
    requires Tracked(s) && Recorded(s)
    ensures Recorded(Visit(c, s, w)) && Visit(c, s, w).results == s.results + AnswersNow(s, w)
  {
    if s.node == Execute {
      ExecuteAnswers(c, s, w);
    } else {
      hide NewPlan;
      hide NewResults;
      hide RunnableTools;
      hide AllEnded;
      assert s.results + [] == s.results;
    }
  }

  lemma {:induction false} RestAnswers(c: Config, s: State, ws: seq<World>)
    requires Tracked(s) && Recorded(s)
    ensures Final(c, s, ws).results == s.results + Answered(c, s, ws)
    ensures Recorded(Final(c, s, ws))
    decreases |ws|
  {
    hide Visit;
    hide Tracked;
    hide Recorded;
    hide AnswersNow;
    if ws != [] && s.node != End {
      VisitTracked(c, s, ws[0]);
      VisitAnswers(c, s, ws[0]);
      RestAnswers(c, Visit(c, s, ws[0]), ws[1..]);
    }
  }

  /** Over a whole turn the results are exactly what the tools answered, in the order
      the steps were run; and the steps of the last plan hold the last of them, Done
      where the answer did not fail and Failed where it did. */
  lemma ResultsAreTheAnswers(c: Config, ws: seq<World>)
    ensures var s := Final(c, START, ws);
      && s.results == Answered(c, START, ws)
      && (s.node == End ==> |s.plan| <= |s.results| && Records(s.plan, s.results[|s.results| - |s.plan|..]))
  {
    assert Tracked(START) && Recorded(START);
    hide Visit;
    hide Final;
    hide Answered;
    hide Records;
    RestAnswers(c, START, ws);
    assert START.results == [];
  }
}
