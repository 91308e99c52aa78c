/** The tool-router node: run the plan's pending tool steps, in place. */
module ToolRouter {
  datatype Status = Pending | Running | Done | Failed

  /** What a tool answers; `failed` is a dictionary with a truthy `error`. */
  datatype Answer = Answer(failed: bool, payload: string)

  datatype Result = Result(tool: string, answer: Answer)

  datatype StepView = StepView(tool: string, status: Status, attempts: nat, answer: seq<Answer>)

  /** A step the router runs: it has a tool and has not ended. */
  predicate Runnable(v: StepView) {
    v.status != Done && v.status != Failed && v.tool != ""
  }

  function Dispatched(v: StepView, a: Answer): StepView {
    if Runnable(v) then v.(status := if a.failed then Failed else Done, attempts := v.attempts + 1, answer := [a])
    else v
  }

  /** The plan after the node; `answers[i]` is what the i-th step's tool answers. */
  function Executed(plan: seq<StepView>, answers: seq<Answer>): (r: seq<StepView>)
    requires |answers| == |plan|
    ensures |r| == |plan| && forall i :: 0 <= i < |plan| ==> r[i] == Dispatched(plan[i], answers[i])
  {
    seq(|plan|, i requires 0 <= i < |plan| => Dispatched(plan[i], answers[i]))
  }

  /** One result per dispatch, in plan order. */
  function NewResults(plan: seq<StepView>, answers: seq<Answer>): seq<Result>
    requires |answers| == |plan|
  {
    if plan == [] then []
    else
      var n := |plan| - 1;
      NewResults(plan[..n], answers[..n]) + if Runnable(plan[n]) then [Result(plan[n].tool, answers[n])] else []
  }

  function RunnableTools(plan: seq<StepView>): seq<string> {
    if plan == [] then []
    else RunnableTools(plan[..|plan| - 1]) + if Runnable(plan[|plan| - 1]) then [plan[|plan| - 1].tool] else []
  }

  function Tools(results: seq<Result>): (r: seq<string>)
    ensures |r| == |results| && forall i :: 0 <= i < |results| ==> r[i] == results[i].tool
  {
    seq(|results|, i requires 0 <= i < |results| => results[i].tool)
  }

  /** Every runnable step is dispatched exactly once, in order. */
  lemma {:induction false} OneResultPerStep(plan: seq<StepView>, answers: seq<Answer>)
    requires |answers| == |plan|
    ensures Tools(NewResults(plan, answers)) == RunnableTools(plan)
  {
    if plan != [] {
      OneResultPerStep(plan[..|plan| - 1], answers[..|plan| - 1]);
    }
  }

  /** What a step records is what its own tool answered: a step that has a tool and has
      not ended holds exactly that answer after the node, is Done if and only if the
      answer did not fail and Failed otherwise, and its result, at the place the steps
      dispatched before it give it, carries the same answer. Any other step is untouched. */
  lemma {:induction false} StepRecordsItsAnswer(plan: seq<StepView>, answers: seq<Answer>, i: nat)
    requires |answers| == |plan| && i < |plan|
    ensures var v, a, r := plan[i], answers[i], Executed(plan, answers)[i];
      if v.status != Done && v.status != Failed && v.tool != "" then
        && r == StepView(v.tool, if a.failed then Failed else Done, v.attempts + 1, [a])
        && var k := |RunnableTools(plan[..i])|;
           k < |NewResults(plan, answers)| && NewResults(plan, answers)[k] == Result(v.tool, a)
      else r == v
  {
    if Runnable(plan[i]) {
      ResultPlace(plan, answers, i);
    }
  }

  lemma {:induction false} ResultPlace(plan: seq<StepView>, answers: seq<Answer>, i: nat)
    requires |answers| == |plan| && i < |plan| && Runnable(plan[i])
    ensures var k := |RunnableTools(plan[..i])|;
      k < |NewResults(plan, answers)| && NewResults(plan, answers)[k] == Result(plan[i].tool, answers[i])
  {
    var n := |plan| - 1;
    OneResultPerStep(plan[..n], answers[..n]);
    if i < n {
      ResultPlace(plan[..n], answers[..n], i);
      assert plan[..n][..i] == plan[..i];
    } else {
      assert |NewResults(plan[..n], answers[..n])| == |Tools(NewResults(plan[..n], answers[..n]))|;
    }
  }

  /** Steps that have not ended and have a tool, counted one by one. */
  lemma RunnableAppend(plan: seq<StepView>, v: StepView)
    ensures RunnableTools([]) == []
    ensures RunnableTools(plan + [v])
      == RunnableTools(plan) + if v.status != Done && v.status != Failed && v.tool != "" then [v.tool] else []
  {
    assert (plan + [v])[..|plan|] == plan;
  }

  /** Running the node again dispatches nothing and changes nothing. */
  lemma {:induction false} SecondRunIsIdle(plan: seq<StepView>, first: seq<Answer>, second: seq<Answer>)
    requires |first| == |plan| == |second|
    ensures Executed(Executed(plan, first), second) == Executed(plan, first)
    ensures NewResults(Executed(plan, first), second) == []
  {
    if plan != [] {
      var n := |plan| - 1;
      SecondRunIsIdle(plan[..n], first[..n], second[..n]);
      assert Executed(plan, first)[..n] == Executed(plan[..n], first[..n]);
    }
  }

  class Step {
    const tool: string
    var status: Status
    var attempts: nat
    var answer: seq<Answer>

    constructor (tool: string)
      ensures this.tool == tool && View() == StepView(tool, Pending, 0, [])
    {
      this.tool, status, attempts, answer := tool, Pending, 0, [];
    }

    function View(): StepView
      reads this
    {
      StepView(tool, status, attempts, answer)
    }

    /** Dispatch this step; its tool answers `a`. */
    method Dispatch(a: Answer)
      requires Runnable(View())
      modifies this
      ensures View() == Dispatched(old(View()), a)
    {
      status := Running;
      attempts := attempts + 1;
      answer := [a];
      status := if a.failed then Failed else Done;
    }
  }

  function Views(plan: seq<Step>): (r: seq<StepView>)
    reads plan
    ensures |r| == |plan| && forall i :: 0 <= i < |plan| ==> r[i] == plan[i].View()
  {
    seq(|plan|, i requires 0 <= i < |plan| reads plan => plan[i].View())
  }

  /** The loop of `execute`: each step object is updated in place; the results
      only grow at the end. The planner makes a new object for every step. */
  method Execute(plan: seq<Step>, results0: seq<Result>, answers: seq<Answer>) returns (results: seq<Result>)
    requires |answers| == |plan|
    requires forall i, j :: 0 <= i < j < |plan| ==> plan[i] != plan[j]
    modifies plan
    ensures Views(plan) == Executed(old(Views(plan)), answers)
    ensures results == results0 + NewResults(old(Views(plan)), answers)
  {
    results := results0;
    ghost var was := Views(plan);
    for i := 0 to |plan|
      invariant forall j :: 0 <= j < i ==> plan[j].View() == Dispatched(was[j], answers[j])
      invariant forall j :: i <= j < |plan| ==> plan[j].View() == was[j]
      invariant results == results0 + NewResults(was[..i], answers[..i])
    {
      assert was[..i + 1][..i] == was[..i] && answers[..i + 1][..i] == answers[..i];
      var step := plan[i];
      assert step.View() == was[i];
      if step.status == Done || step.status == Failed || step.tool == "" {
        continue;
      }
      step.Dispatch(answers[i]);
      results := results + [Result(step.tool, answers[i])];
    }
    assert was[..|plan|] == was && answers[..|plan|] == answers;
  }
}
