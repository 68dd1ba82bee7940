/** `process/execute.py`: carrying out a decision. A step-down of the primary is
    followed by a wait for the cluster to be healthy; the recycle of an instance
    is followed by another. The first sub-step that raises ends the action. */
module Execution {
  import opened Wrappers
  import opened MongoWorld
  import opened Instances
  import opened Decisions
  import opened Polling
  import opened AwsConnector
  import opened MongoConnector
  import opened ReplicaSetHealthProcess

  /** The sub-steps of an action: the two that change the cluster and the wait. */
  datatype Phase = StepDownPhase(ipAddress: string) | RecyclePhase(instance: Instance) | WaitPhase

  predicate IsMutating(p: Phase) {
    !p.WaitPhase?
  }

  /** The sub-steps `execute_action` performs for `decision`, in order; a
      decision other than DONE that carries no instance raises AttributeError
      before any of them. */
  function Plan(decision: Decision): (r: Result<seq<Phase>, Error>)
    ensures decision.action == Done ==> r == Success([])
    ensures decision.action != Done && decision.instance.None? ==> r == Failure(AttributeError)
    ensures r.Failure? ==> r.error == AttributeError
    ensures r.Success? ==>
              // every change to the cluster is immediately followed by a wait
              (forall k :: 0 <= k < |r.value| && IsMutating(r.value[k]) ==>
                 k + 1 < |r.value| && r.value[k + 1] == WaitPhase) &&
              // unless DONE, the plan ends by recycling the decision's instance and waiting
              (decision.action != Done ==>
                 |r.value| >= 2 && r.value[|r.value| - 2] == RecyclePhase(decision.instance.value) &&
                 r.value[|r.value| - 1] == WaitPhase)
    ensures r.Success? && decision.action == StepDownAndRecyclePrimary ==>
              var i := decision.instance.value;
              |r.value| == 4 && r.value[0] == StepDownPhase(i.ipAddress) && r.value[2] == RecyclePhase(i) &&
              r.value[1] == WaitPhase && r.value[3] == WaitPhase
    ensures r.Success? && decision.action == RecycleSecondary ==>
              r.value == [RecyclePhase(decision.instance.value), WaitPhase]
  {
    if decision.action == Done then Success([])
    else if decision.instance.None? then Failure(AttributeError)
    else
      var i := decision.instance.value;
      if decision.action == StepDownAndRecyclePrimary then
        Success([StepDownPhase(i.ipAddress), WaitPhase, RecyclePhase(i), WaitPhase])
      else
        Success([RecyclePhase(i), WaitPhase])
  }

  /** One sub-step: `mongo.step_down(ip)`, `aws.recycle_instance(instance)` or
      `cluster_health.wait_until_cluster_healthy()`. */
  function PhaseRun(env: Env, aws: Aws, mongo: Mongo, health: ReplicaSetHealth, phase: Phase, h: History): (r: Run<()>)
  {
    match phase
    case StepDownPhase(ip) => StepDown(env, mongo, ip, h)
    case RecyclePhase(instance) => RecycleRun(env, aws, instance, h)
    case WaitPhase =>
      var p := WaitRun(env, health, h);
      Run(p.calls, if p.error.None? then Success(()) else Failure(p.error.value))
  }

  /** What running a list of sub-steps did: the calls made, how many sub-steps
      were started, and the error that ended the run, if any. */
  datatype Executed = Executed(calls: seq<Call>, ran: nat, error: Option<Error>)

  /** The sub-steps one after the other on the history each leaves, up to the
      first that raises. */
  function RunSteps<S>(step: (S, History) -> Run<()>, steps: seq<S>, h: History): (r: Executed)
    ensures r.ran <= |steps|
    ensures r.error.None? ==> r.ran == |steps|
    ensures r.error.Some? ==> 1 <= r.ran
    decreases |steps|
  {
    if steps == [] then Executed([], 0, None)
    else
      var p := step(steps[0], h);
      if p.result.Failure? then Executed(p.calls, 1, Some(p.result.error))
      else
        var rest := RunSteps(step, steps[1..], h + p.calls);
        Executed(p.calls + rest.calls, rest.ran + 1, rest.error)
  }

  /** Sub-step `k` of `steps` is reached and raises. */
  predicate Raised<S>(step: (S, History) -> Run<()>, steps: seq<S>, h: History, k: int)
    decreases |steps|
  {
    steps != [] && 0 <= k < |steps| &&
    var p := step(steps[0], h);
    if k == 0 then p.result.Failure? else p.result.Success? && Raised(step, steps[1..], h + p.calls, k - 1)
  }

  /** A run raises exactly when one of its sub-steps is reached and raises,
      and that one is the last it started. */
  lemma {:induction false} RunStepsRaised<S>(step: (S, History) -> Run<()>, steps: seq<S>, h: History)
    ensures var r := RunSteps(step, steps, h);
      r.error.Some? <==> exists k :: 0 <= k < |steps| && Raised(step, steps, h, k)
    ensures var r := RunSteps(step, steps, h);
      r.error.Some? ==> Raised(step, steps, h, r.ran - 1)
    decreases |steps|
  {
    if steps != [] {
      var p := step(steps[0], h);
      if p.result.Failure? {
        assert Raised(step, steps, h, 0);
        assert RunSteps(step, steps, h).error.Some?;
        assert exists k :: 0 <= k < |steps| && Raised(step, steps, h, k);
      } else {
        RunStepsRaised(step, steps[1..], h + p.calls);
        var rest := RunSteps(step, steps[1..], h + p.calls);
        assert RunSteps(step, steps, h) == Executed(p.calls + rest.calls, rest.ran + 1, rest.error);
        if rest.error.Some? {
          assert Raised(step, steps, h, rest.ran);
          assert exists k :: 0 <= k < |steps| && Raised(step, steps, h, k);
        }
        forall k | 0 <= k < |steps| && Raised(step, steps, h, k) ensures rest.error.Some? {
          assert k != 0 && Raised(step, steps[1..], h + p.calls, k - 1);
          assert 0 <= k - 1 < |steps[1..]|;
          assert exists j :: 0 <= j < |steps[1..]| && Raised(step, steps[1..], h + p.calls, j);
        }
      }
    }
  }

  /** A run that raises was stopped by the last sub-step it started. */
  lemma RunStepsStop<S>(step: (S, History) -> Run<()>, steps: seq<S>, h: History)
    requires RunSteps(step, steps, h).error.Some?
    ensures var r := RunSteps(step, steps, h);
      1 <= r.ran <= |steps| && Raised(step, steps, h, r.ran - 1)
  {
    RunStepsRaised(step, steps, h);
  }

  /** Once a sub-step raised, later sub-steps change nothing; when none raised,
      the later ones run on the history the earlier ones left. */
  lemma {:induction false} RunStepsAppend<S>(step: (S, History) -> Run<()>, first: seq<S>, more: seq<S>, h: History)
    ensures var a := RunSteps(step, first, h);
      a.error.Some? ==> RunSteps(step, first + more, h) == a
    ensures var a := RunSteps(step, first, h);
      var b := RunSteps(step, more, h + a.calls);
      a.error.None? ==> RunSteps(step, first + more, h) == Executed(a.calls + b.calls, a.ran + b.ran, b.error)
    decreases |first|
  {
    if first == [] {
      assert first + more == more && h + [] == h;
    } else {
      var p := step(first[0], h);
      assert (first + more)[0] == first[0] && (first + more)[1..] == first[1..] + more;
      if p.result.Success? {
        RunStepsAppend(step, first[1..], more, h + p.calls);
        var a' := RunSteps(step, first[1..], h + p.calls);
        assert h + p.calls + a'.calls == h + (p.calls + a'.calls);
      }
    }
  }

  function Stepper(env: Env, aws: Aws, mongo: Mongo, health: ReplicaSetHealth): (Phase, History) -> Run<()> {
    (phase: Phase, h: History) => PhaseRun(env, aws, mongo, health, phase, h)
  }

  /** `execute_action(decision, aws, mongo, cluster_health)` as a specification. */
  function ExecuteRun(env: Env, decision: Decision, aws: Aws, mongo: Mongo, health: ReplicaSetHealth, h: History): (r: Executed)
    ensures decision.action == Done ==> r == Executed([], 0, None)
    ensures decision.action != Done && decision.instance.None? ==> r == Executed([], 0, Some(AttributeError))
    ensures Plan(decision).Success? ==> r == RunSteps(Stepper(env, aws, mongo, health), Plan(decision).value, h)
  {
    var plan := Plan(decision);
    if plan.Failure? then Executed([], 0, Some(plan.error))
    else RunSteps(Stepper(env, aws, mongo, health), plan.value, h)
  }

  /** Running one more sub-step after sub-steps that all succeeded. */
  lemma RunStepsSnoc<S>(step: (S, History) -> Run<()>, done: seq<S>, x: S, h: History)
    requires RunSteps(step, done, h).error.None?
    ensures var a := RunSteps(step, done, h);
      var p := step(x, h + a.calls);
      RunSteps(step, done + [x], h) == Executed(a.calls + p.calls, a.ran + 1, ErrorOf(p.result)) &&
      h + RunSteps(step, done + [x], h).calls == (h + a.calls) + p.calls
  {
    var a := RunSteps(step, done, h);
    RunStepsAppend(step, done, [x], h);
    var p := step(x, h + a.calls);
    if p.result.Success? {
      assert [x][1..] == [];
      assert p.calls + [] == p.calls;
    }
  }

  /** An action that returns has run every sub-step of its plan and none of
      them raised; so each step-down or recycle was followed by a wait that saw
      the cluster healthy. */
  lemma ExecuteCompletes(env: Env, decision: Decision, aws: Aws, mongo: Mongo, health: ReplicaSetHealth, h: History)
    requires ExecuteRun(env, decision, aws, mongo, health, h).error.None?
    ensures Plan(decision).Success?
    ensures var phases := Plan(decision).value;
      ExecuteRun(env, decision, aws, mongo, health, h).ran == |phases| &&
      forall k :: 0 <= k < |phases| ==> !Raised(Stepper(env, aws, mongo, health), phases, h, k)
  {
    RunStepsRaised(Stepper(env, aws, mongo, health), Plan(decision).value, h);
  }

  /** When the step-down raises, nothing is recycled and no wait happens. */
  lemma StepDownFailureStops(env: Env, decision: Decision, aws: Aws, mongo: Mongo, health: ReplicaSetHealth, h: History)
    requires decision.action == StepDownAndRecyclePrimary && decision.instance.Some?
    requires StepDown(env, mongo, decision.instance.value.ipAddress, h).result.Failure?
    ensures var s := StepDown(env, mongo, decision.instance.value.ipAddress, h);
      ExecuteRun(env, decision, aws, mongo, health, h) == Executed(s.calls, 1, Some(s.result.error))
  {
  }

  /** A recycle of a secondary that raises leaves out the wait after it. */
  lemma RecycleFailureStops(env: Env, decision: Decision, aws: Aws, mongo: Mongo, health: ReplicaSetHealth, h: History)
    requires decision.action == RecycleSecondary && decision.instance.Some?
    requires RecycleRun(env, aws, decision.instance.value, h).result.Failure?
    ensures var rr := RecycleRun(env, aws, decision.instance.value, h);
      ExecuteRun(env, decision, aws, mongo, health, h) == Executed(rr.calls, 1, Some(rr.result.error))
  {
  }

  /** One sub-step on the world: the step-down, the recycle or the wait. */
  method RunPhase(w: World, aws: Aws, mongo: Mongo, health: ReplicaSetHealth, phase: Phase) returns (error: Option<Error>)
    modifies w
    ensures var r := Stepper(w.env, aws, mongo, health)(phase, old(w.calls));
      w.calls == old(w.calls) + r.calls && error == ErrorOf(r.result)
  {
    match phase
    case StepDownPhase(ip) =>
      var s := StepDown(w.env, mongo, ip, w.calls);
      w.calls := w.calls + s.calls;
      error := ErrorOf(s.result);
    case RecyclePhase(instance) =>
      error := RecycleInstance(w, aws, instance);
    case WaitPhase =>
      error := WaitUntilClusterHealthy(w, health);
  }

  /** Two sub-steps in a row: the second runs, on the history the first left,
      only when the first returned. */
  lemma RunStepsPair<S>(step: (S, History) -> Run<()>, first: S, second: S, h: History)
    ensures var p1 := step(first, h);
      var p2 := step(second, h + p1.calls);
      RunSteps(step, [first, second], h) ==
        if p1.result.Failure? then Executed(p1.calls, 1, Some(p1.result.error))
        else Executed(p1.calls + p2.calls, 2, ErrorOf(p2.result))
  {
    var p1 := step(first, h);
    if p1.result.Success? {
      var p2 := step(second, h + p1.calls);
      assert [first, second][1..] == [second];
      assert [second][1..] == [];
      assert RunSteps(step, [], h + p1.calls + p2.calls) == Executed([], 0, None);
      assert p2.calls + [] == p2.calls;
      assert RunSteps(step, [second], h + p1.calls) == Executed(p2.calls, 1, ErrorOf(p2.result));
    }
  }

  /** Two sub-steps on the world, the second only when the first returned. */
  method RunPair(w: World, aws: Aws, mongo: Mongo, health: ReplicaSetHealth, first: Phase, second: Phase) returns (error: Option<Error>)
    modifies w
    ensures var r := RunSteps(Stepper(w.env, aws, mongo, health), [first, second], old(w.calls));
      w.calls == old(w.calls) + r.calls && error == r.error
  {
    ghost var h0 := w.calls;
    ghost var step := Stepper(w.env, aws, mongo, health);
    RunStepsPair(step, first, second, h0);
    error := RunPhase(w, aws, mongo, health, first);
    ghost var p1 := step(first, h0);
    assert w.calls == h0 + p1.calls && error == ErrorOf(p1.result);
    if error.Some? {
      return;
    }
    ghost var h1 := w.calls;
    error := RunPhase(w, aws, mongo, health, second);
    ghost var p2 := step(second, h1);
    assert w.calls == h1 + p2.calls && error == ErrorOf(p2.result);
    AppendAssoc(h0, p1.calls, p2.calls);
  }

  /** `execute_action(decision, aws, mongo, cluster_health)`: for a primary, the
      step-down and its wait, then, unless they raised, the recycle and its
      wait. */
  method ExecuteAction(w: World, decision: Decision, aws: Aws, mongo: Mongo, health: ReplicaSetHealth) returns (error: Option<Error>)
    modifies w
    ensures var r := ExecuteRun(w.env, decision, aws, mongo, health, old(w.calls));
      w.calls == old(w.calls) + r.calls && error == r.error
  {
    if decision.action == Done {
      return None;
    }
    if decision.instance.None? {
      return Some(AttributeError);
    }
    var instance := decision.instance.value;
    ghost var h0 := w.calls;
    ghost var step := Stepper(w.env, aws, mongo, health);
    ghost var tail := [RecyclePhase(instance), WaitPhase];
    if decision.action == StepDownAndRecyclePrimary {
      ghost var head := [StepDownPhase(instance.ipAddress), WaitPhase];
      assert Plan(decision).value == head + tail;
      error := RunPair(w, aws, mongo, health, StepDownPhase(instance.ipAddress), WaitPhase);
      RunStepsAppend(step, head, tail, h0);
      if error.Some? {
        return;
      }
      ghost var h1 := w.calls;
      error := RunPair(w, aws, mongo, health, RecyclePhase(instance), WaitPhase);
      AppendAssoc(h0, RunSteps(step, head, h0).calls, RunSteps(step, tail, h1).calls);
    } else {
      error := RunPair(w, aws, mongo, health, RecyclePhase(instance), WaitPhase);
    }
  }
}
