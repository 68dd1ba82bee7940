/** `process/step.py`, `step(component)`: one pass of the recycler. It checks
    that the launch templates agree on an AMI, discovers the replica set, checks
    that it is one replica set, decides, and carries out the decision. */
module StepProcess {
  import opened Wrappers
  import opened MongoWorld
  import opened Instances
  import opened Decisions
  import opened AwsConnector
  import opened MongoConnector
  import opened PreStepChecks
  import opened InstancesProcess
  import opened DecisionProcess
  import opened ReplicaSetHealthProcess
  import opened Execution

  /** What the checks before a decision establish: the target image and the
      replica set's instances. */
  datatype Discovered = Discovered(targetAmi: string, instances: seq<Instance>)

  /** The part of `step` before the decision: the AMI check, the discovery of
      the instances, and the same-replica-set check. */
  function Discover(env: Env, component: string, h: History): (r: Run<Discovered>)
    ensures var ami := GetAmiAndCheckAllAmisMatch(env, component, Aws(component), h);
      ami.result.Failure? ==> r == Run(ami.calls, Failure(ami.result.error))
    ensures var ami := GetAmiAndCheckAllAmisMatch(env, component, Aws(component), h);
      var status := FetchReplicaSetStatus(env, Aws(component), NewMongo(component), h + ami.calls);
      ami.result.Success? ==> r.calls == ami.calls + status.calls
    ensures r.result.Success? ==>
              GetAmiAndCheckAllAmisMatch(env, component, Aws(component), h).result == Success(r.result.value.targetAmi) &&
              AssertAllNodesInSameReplicaSet(r.result.value.instances).Success?
  {
    var aws := Aws(component);
    var ami := GetAmiAndCheckAllAmisMatch(env, component, aws, h);
    if ami.result.Failure? then Run(ami.calls, Failure(ami.result.error))
    else
      var status := FetchReplicaSetStatus(env, aws, NewMongo(component), h + ami.calls);
      var calls := ami.calls + status.calls;
      if status.result.Failure? then Run(calls, Failure(status.result.error))
      else
        var same := AssertAllNodesInSameReplicaSet(status.result.value);
        if same.Failure? then Run(calls, Failure(same.error))
        else Run(calls, Success(Discovered(ami.result.value, status.result.value)))
  }

  /** The AMI check comes first: every step begins by listing the launch
      templates whose names start with the component. */
  lemma DiscoverStartsWithTemplates(env: Env, component: string, h: History)
    ensures var r := Discover(env, component, h);
      |r.calls| >= 1 && r.calls[0] == DescribeLaunchTemplates(component + "*")
  {
  }

  function Health(component: string): ReplicaSetHealth {
    ReplicaSetHealth(Aws(component), NewMongo(component))
  }

  /** `step(component)` as a specification: its calls and the decision it
      returns. */
  function StepRun(env: Env, component: string, h: History): (r: Run<Decision>)
  {
    var disc := Discover(env, component, h);
    if disc.result.Failure? then Run(disc.calls, Failure(disc.result.error))
    else
      var d := DecideOnAction(disc.result.value.instances, disc.result.value.targetAmi);
      var e := ExecuteRun(env, d, Aws(component), NewMongo(component), Health(component), h + disc.calls);
      Run(disc.calls + e.calls, if e.error.Some? then Failure(e.error.value) else Success(d))
  }

  /** The decision a step makes always has the instance its action needs, so
      `report_outcome`, which only logs, never raises on it. */
  lemma ReportNeverRaises(instances: seq<Instance>, targetAmi: string)
    ensures ReportOutcome(DecideOnAction(instances, targetAmi)).Success?
  {
  }

  /** A step that returns has passed every check, and returns the decision
      taken on the discovered instances after carrying it out completely. */
  lemma StepReturnsDecision(env: Env, component: string, h: History)
    requires StepRun(env, component, h).result.Success?
    ensures var disc := Discover(env, component, h);
      var r := StepRun(env, component, h);
      disc.result.Success? &&
      r.result.value == DecideOnAction(disc.result.value.instances, disc.result.value.targetAmi) &&
      ExecuteRun(env, r.result.value, Aws(component), NewMongo(component), Health(component), h + disc.calls).error.None?
  {
    var disc := Discover(env, component, h);
    if disc.result.Success? {
      var d := DecideOnAction(disc.result.value.instances, disc.result.value.targetAmi);
      var e := ExecuteRun(env, d, Aws(component), NewMongo(component), Health(component), h + disc.calls);
      assert StepRun(env, component, h).result.Success? ==> e.error.None? && StepRun(env, component, h).result.value == d;
    }
  }

  /** A failed check before the decision ends the step with its error and
      nothing is carried out. */
  lemma ChecksGuardExecution(env: Env, component: string, h: History)
    requires Discover(env, component, h).result.Failure?
    ensures var disc := Discover(env, component, h);
      StepRun(env, component, h) == Run(disc.calls, Failure(disc.result.error))
  {
  }

  /** When nothing is stale the step makes no call after discovery and returns
      DONE. */
  lemma DoneChangesNothing(env: Env, component: string, h: History)
    requires var disc := Discover(env, component, h);
      disc.result.Success? &&
      DecideOnAction(disc.result.value.instances, disc.result.value.targetAmi).action == Done
    ensures var disc := Discover(env, component, h);
      StepRun(env, component, h) == Run(disc.calls, Success(DoneDecision()))
  {
    var disc := Discover(env, component, h);
    assert disc.calls + [] == disc.calls;
  }

  /** A step that recycles acts on a stale instance of the discovered replica
      set. */
  lemma StepRecyclesStaleMember(env: Env, component: string, h: History)
    requires StepRun(env, component, h).result.Success?
    requires StepRun(env, component, h).result.value.action != Done
    ensures var disc := Discover(env, component, h).result.value;
      var d := StepRun(env, component, h).result.value;
      d.instance.Some? && d.instance.value in disc.instances && IsCandidate(d.instance.value, disc.targetAmi)
  {
    StepReturnsDecision(env, component, h);
  }

  /** `step(component)`. */
  method Step(w: World, component: string) returns (outcome: Result<Decision, Error>)
    modifies w
    ensures var r := StepRun(w.env, component, old(w.calls));
      w.calls == old(w.calls) + r.calls && outcome == r.result
  {
    ghost var h0 := w.calls;
    var aws := Aws(component);
    var mongo := NewMongo(component);
    var clusterHealth := ReplicaSetHealth(aws, mongo);
    var targetAmi := GetAmiAndCheckAllAmisMatch(w.env, component, aws, w.calls);
    w.calls := w.calls + targetAmi.calls;
    if targetAmi.result.Failure? {
      return Failure(targetAmi.result.error);
    }
    var status := FetchReplicaSetStatus(w.env, aws, mongo, w.calls);
    w.calls := w.calls + status.calls;
    AppendAssoc(h0, targetAmi.calls, status.calls);
    if status.result.Failure? {
      return Failure(status.result.error);
    }
    var same := AssertAllNodesInSameReplicaSet(status.result.value);
    if same.Failure? {
      return Failure(same.error);
    }
    var decision := DecideOnAction(status.result.value, targetAmi.result.value);
    ghost var h1 := w.calls;
    var error := ExecuteAction(w, decision, aws, mongo, clusterHealth);
    AppendAssoc(h0, targetAmi.calls + status.calls, w.calls[|h1|..]);
    if error.Some? {
      return Failure(error.value);
    }
    return Success(decision);
  }
}
