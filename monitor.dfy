/** `monitor_autorecycle/main.py`: after a recycle has been started, decide
    whether it is complete. The group of the component is complete when every
    instance is healthy and in service and all of them were launched within two
    minutes of each other. The handler counts its runs in the event and gives
    up after 20. AWS answers are parameters; times are whole seconds. */
module Monitor {
  import opened Wrappers
  import opened Strs
  import opened Seqs

  datatype Instance = Instance(instanceId: string, healthStatus: string, lifecycleState: string)

  datatype Group = Group(name: string, maxSize: int, instances: seq<Instance>)

  datatype Activity = Activity(description: string, startTime: int)

  /** Why `check` raised: the group is scaled down to zero, or another
      exception with its message. */
  datatype CheckError = ScaledDown | Raised(message: string)

  /** The group listing and the scaling activities of a group. */
  datatype MonitorEnv = MonitorEnv(pages: Result<seq<seq<Group>>, string>,
                                   activities: string -> Result<seq<Activity>, string>)

  datatype Call = DescribeGroups | DescribeActivities(asgName: string)

  datatype Checked = Checked(calls: seq<Call>, result: Result<bool, CheckError>)

  /** `_get_launching_activities`: the activities that describe a launch. */
  function LaunchingActivities(activities: seq<Activity>): (r: seq<Activity>)
    ensures forall a :: a in r <==> a in activities && Contains(a.description, "Launching")
    ensures IsSubsequence(r, activities)
    ensures forall a :: multiset(r)[a] == if Contains(a.description, "Launching") then multiset(activities)[a] else 0
  {
    var launching := (a: Activity) => Contains(a.description, "Launching");
    FilterIsSubsequence(activities, launching);
    forall a ensures multiset(Filter(activities, launching))[a] == if launching(a) then multiset(activities)[a] else 0 {
      FilterMultiplicity(activities, launching, a);
    }
    Filter(activities, launching)
  }

  /** `sorted(ts)[-1]`: the latest of the times. */
  function Latest(ts: seq<int>): (m: int)
    requires ts != []
    ensures m in ts && forall k :: 0 <= k < |ts| ==> ts[k] <= m
    decreases |ts|
  {
    if |ts| == 1 then ts[0]
    else
      var rest := Latest(ts[1..]);
      assert forall k :: 1 <= k < |ts| ==> ts[k] == ts[1..][k - 1];
      if ts[0] >= rest then ts[0] else rest
  }

  function StartTimes(activities: seq<Activity>): (ts: seq<int>)
    ensures |ts| == |activities| && forall k :: 0 <= k < |ts| ==> ts[k] == activities[k].startTime
  {
    seq(|activities|, k requires 0 <= k < |activities| => activities[k].startTime)
  }

  /** `_last_instance_activity_time`: the latest start among the activities
      whose description mentions the instance, None when there is none. */
  function LastActivityTime(activities: seq<Activity>, instanceId: string): Option<int> {
    var mentions := Filter(activities, (a: Activity) => Contains(a.description, instanceId));
    if mentions == [] then None else Some(Latest(StartTimes(mentions)))
  }

  /** The time is None exactly when no activity mentions the instance, and is
      otherwise the start of a mentioning activity that none starts after. */
  lemma LastActivityTimeIsLatest(activities: seq<Activity>, instanceId: string)
    ensures var r := LastActivityTime(activities, instanceId);
      r.None? <==> forall a :: a in activities ==> !Contains(a.description, instanceId)
    ensures var r := LastActivityTime(activities, instanceId);
      r.Some? ==> exists a :: a in activities && Contains(a.description, instanceId) && a.startTime == r.value
    ensures var r := LastActivityTime(activities, instanceId);
      r.Some? ==> forall a :: a in activities && Contains(a.description, instanceId) ==> a.startTime <= r.value
  {
    var mentions := Filter(activities, (a: Activity) => Contains(a.description, instanceId));
    FilterHead(activities, (a: Activity) => Contains(a.description, instanceId));
    if mentions != [] {
      var ts := StartTimes(mentions);
      var m := Latest(ts);
      var k :| 0 <= k < |ts| && ts[k] == m;
      assert mentions[k] in activities;
      forall a | a in activities && Contains(a.description, instanceId) ensures a.startTime <= m {
        var j :| 0 <= j < |mentions| && mentions[j] == a;
        assert ts[j] == a.startTime;
      }
    }
  }

  /** `a` and `b` are at most `delta` apart, the test of one pair in
      `_compare_start_times`. */
  predicate Close(a: int, b: int, delta: int) {
    !(a - b > delta) && !(b - a > delta)
  }

  /** `t` is close to every time in `ts`. */
  function CloseToAll(t: int, ts: seq<int>, delta: int): bool
    decreases |ts|
  {
    ts == [] || (Close(t, ts[0], delta) && CloseToAll(t, ts[1..], delta))
  }

  /** `_compare_start_times(ts, delta)` with `delta` in seconds: every pair of
      `itertools.combinations(ts, 2)`, in order. */
  function CompareStartTimes(ts: seq<int>, delta: int): bool
    decreases |ts|
  {
    ts == [] || (CloseToAll(ts[0], ts[1..], delta) && CompareStartTimes(ts[1..], delta))
  }

  lemma {:induction false} CloseToAllIff(t: int, ts: seq<int>, delta: int)
    ensures CloseToAll(t, ts, delta) <==> forall j :: 0 <= j < |ts| ==> Close(t, ts[j], delta)
    decreases |ts|
  {
    if ts != [] {
      CloseToAllIff(t, ts[1..], delta);
      assert forall j :: 1 <= j < |ts| ==> ts[j] == ts[1..][j - 1];
    }
  }

  /** The times pass exactly when every two of them, in either order, are at
      most `delta` apart; so no times and one time always pass. */
  lemma {:induction false} CompareStartTimesIff(ts: seq<int>, delta: int)
    requires delta >= 0
    ensures CompareStartTimes(ts, delta) <==> forall i, j :: 0 <= i < |ts| && 0 <= j < |ts| ==> Close(ts[i], ts[j], delta)
    decreases |ts|
  {
    if ts != [] {
      var rest := ts[1..];
      CompareStartTimesIff(rest, delta);
      CloseToAllIff(ts[0], rest, delta);
      assert forall j :: 1 <= j < |ts| ==> ts[j] == rest[j - 1];
      if CompareStartTimes(ts, delta) {
        forall i, j | 0 <= i < |ts| && 0 <= j < |ts| ensures Close(ts[i], ts[j], delta) {
          if i == 0 && j > 0 {
            assert Close(ts[0], rest[j - 1], delta);
          } else if j == 0 && i > 0 {
            assert Close(ts[0], rest[i - 1], delta);
          } else if i > 0 && j > 0 {
            assert Close(rest[i - 1], rest[j - 1], delta);
          }
        }
      }
    }
  }

  /** An instance that counts towards completion. */
  predicate Ready(i: Instance) {
    i.healthStatus == "Healthy" && i.lifecycleState == "InService"
  }

  /** The times collected by looking each instance up with `timeOf`, or None
      at the first instance that is not ready or has no time. */
  function Collected(instances: seq<Instance>, timeOf: string -> Option<int>): Option<seq<int>>
    decreases |instances|
  {
    if instances == [] then Some([])
    else
      var init := Collected(instances[..|instances| - 1], timeOf);
      var last := instances[|instances| - 1];
      if init.None? || !Ready(last) then None
      else
        var t := timeOf(last.instanceId);
        if t.None? then None else Some(init.value + [t.value])
  }

  lemma {:induction false} CollectedIff(instances: seq<Instance>, timeOf: string -> Option<int>)
    ensures var r := Collected(instances, timeOf);
      r.Some? <==> forall k :: 0 <= k < |instances| ==> Ready(instances[k]) && timeOf(instances[k].instanceId).Some?
    ensures var r := Collected(instances, timeOf);
      r.Some? ==> |r.value| == |instances| &&
                  forall k :: 0 <= k < |instances| ==> Some(r.value[k]) == timeOf(instances[k].instanceId)
    decreases |instances|
  {
    if instances != [] {
      var init := instances[..|instances| - 1];
      CollectedIff(init, timeOf);
      assert forall k :: 0 <= k < |init| ==> init[k] == instances[k];
    }
  }

  /** The launch times `check_instances` collects, or None when it stops early
      at an instance that is not ready or has no launch activity. */
  function LaunchTimes(instances: seq<Instance>, launching: seq<Activity>): Option<seq<int>> {
    Collected(instances, id => LastActivityTime(launching, id))
  }

  /** The times are collected exactly when every instance is ready and has a
      launch activity, one time per instance, in instance order. */
  lemma LaunchTimesIff(instances: seq<Instance>, launching: seq<Activity>)
    ensures var r := LaunchTimes(instances, launching);
      r.Some? <==> forall k :: 0 <= k < |instances| ==>
                     Ready(instances[k]) && LastActivityTime(launching, instances[k].instanceId).Some?
    ensures var r := LaunchTimes(instances, launching);
      r.Some? ==> |r.value| == |instances| &&
                  forall k :: 0 <= k < |instances| ==> Some(r.value[k]) == LastActivityTime(launching, instances[k].instanceId)
  {
    CollectedIff(instances, id => LastActivityTime(launching, id));
  }

  const Delta := 2 * 60

  /** `check_instances(asg, launching_activities)` as a specification. */
  function InstancesDone(instances: seq<Instance>, launching: seq<Activity>): bool {
    var ts := LaunchTimes(instances, launching);
    ts.Some? && CompareStartTimes(ts.value, Delta)
  }

  /** The recycle is complete exactly when every instance is healthy, in service
      and launched, and every two launches are at most two minutes apart. */
  lemma InstancesDoneIff(instances: seq<Instance>, launching: seq<Activity>)
    ensures InstancesDone(instances, launching) <==>
      (forall k :: 0 <= k < |instances| ==> Ready(instances[k]) && LastActivityTime(launching, instances[k].instanceId).Some?) &&
      (forall i, j :: 0 <= i < |instances| && 0 <= j < |instances| ==>
         Close(LastActivityTime(launching, instances[i].instanceId).value, LastActivityTime(launching, instances[j].instanceId).value, Delta))
  {
    LaunchTimesIff(instances, launching);
    var ts := LaunchTimes(instances, launching);
    if ts.Some? {
      CompareStartTimesIff(ts.value, Delta);
    }
  }

  /** `check_instances(asg, launching_activities)`. */
  method CheckInstances(instances: seq<Instance>, launching: seq<Activity>) returns (done: bool)
    ensures done == InstancesDone(instances, launching)
  {
    var times: seq<int> := [];
    for k := 0 to |instances|
      invariant LaunchTimes(instances[..k], launching) == Some(times)
    {
      assert instances[..k + 1][..k] == instances[..k];
      var instance := instances[k];
      if instance.healthStatus != "Healthy" || instance.lifecycleState != "InService" {
        NoTimesAfter(instances, launching, k + 1);
        return false;
      }
      var t := LastActivityTime(launching, instance.instanceId);
      if t.None? {
        NoTimesAfter(instances, launching, k + 1);
        return false;
      }
      times := times + [t.value];
    }
    assert instances[..|instances|] == instances;
    done := CompareStartTimes(times, Delta);
  }

  /** Once the collection stops on a prefix it stops on the whole list. */
  lemma {:induction false} NoTimesAfter(instances: seq<Instance>, launching: seq<Activity>, n: nat)
    requires n <= |instances| && LaunchTimes(instances[..n], launching).None?
    ensures LaunchTimes(instances, launching).None?
    decreases |instances| - n
  {
    if n < |instances| {
      assert instances[..n + 1][..n] == instances[..n];
      NoTimesAfter(instances, launching, n + 1);
    } else {
      assert instances[..n] == instances;
    }
  }

  const AsgMarker := "-asg"

  function NoAsgMessage(component: string): string {
    "No ASG found for " + component
  }

  /** `k` is the index of the first group whose name starts with the component
      and `-asg`. */
  predicate FirstMatch(groups: seq<Group>, component: string, k: int) {
    0 <= k < |groups| && StartsWith(groups[k].name, component + AsgMarker) &&
    forall j :: 0 <= j < k ==> !StartsWith(groups[j].name, component + AsgMarker)
  }

  /** `_describe_asg` on the listed groups: the first group whose name starts
      with the component and `-asg`. */
  function DescribeAsg(groups: seq<Group>, component: string): (r: Result<Group, CheckError>)
    ensures r.Success? ==> r.value in groups && StartsWith(r.value.name, component + AsgMarker) &&
                           r.value.maxSize != 0 && r.value.instances != []
    ensures r.Failure? ==> r.error == ScaledDown || r.error == Raised(NoAsgMessage(component))
    ensures r.Success? ==> exists k :: FirstMatch(groups, component, k) && groups[k] == r.value
    ensures r == Failure(ScaledDown) ==> exists k :: FirstMatch(groups, component, k) && groups[k].maxSize == 0
  {
    var matches := (g: Group) => StartsWith(g.name, component + AsgMarker);
    var lookup := Filter(groups, matches);
    FilterHead(groups, matches);
    if lookup == [] then Failure(Raised(NoAsgMessage(component)))
    else if lookup[0].maxSize == 0 then Failure(ScaledDown)
    else if lookup[0].instances != [] then Success(lookup[0])
    else Failure(Raised(NoAsgMessage(component)))
  }

  /** Only the first matching group is looked at: `ScaledDownASGException`
      exactly when it is scaled to zero, the group itself exactly when it is not
      and has instances, and `No ASG found` when it is empty or there is none. */
  lemma DescribeAsgFirst(groups: seq<Group>, component: string)
    ensures var matches := (g: Group) => StartsWith(g.name, component + AsgMarker);
      var r := DescribeAsg(groups, component);
      (r == Failure(ScaledDown) || r.Success?) <==>
        exists k :: 0 <= k < |groups| && matches(groups[k]) && (forall j :: 0 <= j < k ==> !matches(groups[j])) &&
                    (groups[k].maxSize == 0 || groups[k].instances != [])
    ensures var r := DescribeAsg(groups, component);
      forall k :: FirstMatch(groups, component, k) ==>
        (r == Failure(ScaledDown) <==> groups[k].maxSize == 0) &&
        (r.Success? <==> groups[k].maxSize != 0 && groups[k].instances != []) &&
        (r.Success? ==> r.value == groups[k]) &&
        (groups[k].maxSize != 0 && groups[k].instances == [] ==> r == Failure(Raised(NoAsgMessage(component))))
    ensures (forall k :: 0 <= k < |groups| ==> !StartsWith(groups[k].name, component + AsgMarker)) ==>
              DescribeAsg(groups, component) == Failure(Raised(NoAsgMessage(component)))
  {
    var matches := (g: Group) => StartsWith(g.name, component + AsgMarker);
    FilterHead(groups, matches);
    var lookup := Filter(groups, matches);
    if lookup != [] {
      var k :| 0 <= k < |groups| && groups[k] == lookup[0] && matches(lookup[0]) && forall j :: 0 <= j < k ==> !matches(groups[j]);
      assert matches(groups[k]);
      forall k' | FirstMatch(groups, component, k')
        ensures groups[k'] == lookup[0]
      {
        assert !(k' < k) && !(k < k');
      }
    } else {
      forall k' | 0 <= k' < |groups| ensures !FirstMatch(groups, component, k') {
        assert !matches(groups[k']);
      }
    }
  }

  /** `check(component)` as a specification. */
  function Check(env: MonitorEnv, component: string): (r: Checked)
    ensures |r.calls| >= 1 && r.calls[0] == DescribeGroups
  {
    if env.pages.Failure? then Checked([DescribeGroups], Failure(Raised(env.pages.error)))
    else
      var asg := DescribeAsg(Flatten(env.pages.value), component);
      if asg.Failure? then Checked([DescribeGroups], Failure(asg.error))
      else
        var calls := [DescribeGroups, DescribeActivities(asg.value.name)];
        var activities := env.activities(asg.value.name);
        if activities.Failure? then Checked(calls, Failure(Raised(activities.error)))
        else
          var launching := LaunchingActivities(activities.value);
          Checked(calls, Success(launching != [] && InstancesDone(asg.value.instances, launching)))
  }

  /** Without a launch activity the check fails whatever the instances. */
  lemma NoLaunchNotDone(env: MonitorEnv, component: string)
    requires env.pages.Success? && DescribeAsg(Flatten(env.pages.value), component).Success?
    requires var asg := DescribeAsg(Flatten(env.pages.value), component).value;
      env.activities(asg.name).Success? &&
      forall a :: a in env.activities(asg.name).value ==> !Contains(a.description, "Launching")
    ensures Check(env, component).result == Success(false)
  {
    var asg := DescribeAsg(Flatten(env.pages.value), component).value;
    var activities := env.activities(asg.name).value;
    FilterNone(activities, (a: Activity) => Contains(a.description, "Launching"));
  }

  /** `check(component)`. */
  method CheckComponent(env: MonitorEnv, component: string) returns (calls: seq<Call>, result: Result<bool, CheckError>)
    ensures Checked(calls, result) == Check(env, component)
  {
    calls := [DescribeGroups];
    if env.pages.Failure? {
      return calls, Failure(Raised(env.pages.error));
    }
    var groups := Collect(env.pages.value);
    var asg := DescribeAsg(groups, component);
    if asg.Failure? {
      return calls, Failure(asg.error);
    }
    calls := calls + [DescribeActivities(asg.value.name)];
    var activities := env.activities(asg.value.name);
    if activities.Failure? {
      return calls, Failure(Raised(activities.error));
    }
    var launching := LaunchingActivities(activities.value);
    if launching == [] {
      return calls, Success(false);
    }
    var done := CheckInstances(asg.value.instances, launching);
    result := Success(done);
  }

  /** The entries of the event dictionary the monitor reads or writes;
      `channels` is only ever copied onto itself, so only its presence
      matters. */
  datatype EventState = EventState(component: Option<string>, counter: Option<int>,
                                   messageContent: Option<map<string, string>>, hasChannels: bool,
                                   status: Option<string>, recycleSuccess: Option<bool>)

  datatype MonitorError = KeyError(key: string) | Failed(message: string)

  /** What the handler did: its calls, the event afterwards, and the exception. */
  datatype Monitored = Monitored(calls: seq<Call>, event: EventState, error: Option<MonitorError>)

  const MaxRuns := 20
  const TooLongText := "Autorecycling appears to be taking too long :scream: please investigate."
  const CompletedText := "Autorecycling has successfully completed"
  const ScaledDownText := "The ASG is scaled down to 0 instances, auto-recycling is not required"

  /** The event once the run is counted: an empty `message_content` and a zero
      counter supplied when missing, then the counter incremented. */
  function Counted(s: EventState): (c: EventState)
    ensures c.counter == Some(s.counter.GetOr(0) + 1)
    ensures c.messageContent.Some? && (s.messageContent.Some? ==> c.messageContent == s.messageContent)
    ensures c.(counter := s.counter, messageContent := s.messageContent) == s
  {
    s.(messageContent := Some(s.messageContent.GetOr(map[])), counter := Some(s.counter.GetOr(0) + 1))
  }

  /** `_monitor_autorecycle(event)` as a specification. */
  function MonitorRun(env: MonitorEnv, s: EventState): (r: Monitored)
  {
    var c := Counted(s);
    var mc := c.messageContent.value;
    if c.counter.value > MaxRuns then
      var reported := c.(messageContent := Some(mc["color" := "danger"]["text" := TooLongText]));
      if !s.hasChannels then Monitored([], reported, Some(KeyError("channels")))
      else Monitored([], reported.(status := Some("fail"), recycleSuccess := Some(false)), None)
    else if c.component.None? then Monitored([], c, Some(KeyError("component")))
    else
      var chk := Check(env, c.component.value);
      match chk.result
      case Success(true) =>
        Monitored(chk.calls, c.(messageContent := Some(mc["text" := CompletedText]), recycleSuccess := Some(true)), None)
      case Success(false) => Monitored(chk.calls, c.(recycleSuccess := Some(false)), None)
      case Failure(ScaledDown) =>
        Monitored(chk.calls, c.(messageContent := Some(mc["text" := ScaledDownText]), recycleSuccess := Some(true)), None)
      case Failure(Raised(m)) => Monitored(chk.calls, c, Some(Failed(m)))
  }

  /** `lambda_handler(event, context)` as a specification. */
  function HandlerRun(env: MonitorEnv, s: EventState): (r: Monitored)
  {
    if s.component.None? then Monitored([], s, Some(Failed("No component in event")))
    else MonitorRun(env, s)
  }

  /** An event without a component is refused before anything is changed or
      looked up. */
  lemma NoComponentRefused(env: MonitorEnv, s: EventState)
    requires s.component.None?
    ensures HandlerRun(env, s) == Monitored([], s, Some(Failed("No component in event")))
  {
  }

  /** Every run with a component is counted, from 0 when there was no counter. */
  lemma RunsAreCounted(env: MonitorEnv, s: EventState)
    requires s.component.Some?
    ensures HandlerRun(env, s).event.counter == Some(s.counter.GetOr(0) + 1)
    ensures HandlerRun(env, s).event.component == s.component
  {
  }

  /** The 21st run gives up without any AWS call: a failure in red, with the
      recycle marked unsuccessful. */
  lemma TooLongGivesUp(env: MonitorEnv, s: EventState)
    requires s.component.Some? && s.counter.GetOr(0) + 1 > MaxRuns && s.hasChannels
    ensures var r := HandlerRun(env, s);
      r.calls == [] && r.error.None? && r.event.status == Some("fail") && r.event.recycleSuccess == Some(false) &&
      r.event.messageContent.Some? && "color" in r.event.messageContent.value &&
      r.event.messageContent.value["color"] == "danger" && r.event.messageContent.value["text"] == TooLongText
  {
  }

  /** A group scaled down to zero needs no recycling: the run succeeds. */
  lemma ScaledDownSucceeds(env: MonitorEnv, s: EventState)
    requires s.component.Some? && s.counter.GetOr(0) + 1 <= MaxRuns
    requires Check(env, s.component.value).result == Failure(ScaledDown)
    ensures var r := HandlerRun(env, s);
      r.error.None? && r.event.recycleSuccess == Some(true) &&
      r.event.messageContent.Some? && r.event.messageContent.value["text"] == ScaledDownText
  {
  }

  /** A run that returns marks the recycle successful exactly when the group is
      done or scaled down. */
  lemma SuccessMeansDone(env: MonitorEnv, s: EventState)
    requires s.component.Some? && s.counter.GetOr(0) + 1 <= MaxRuns
    requires HandlerRun(env, s).error.None?
    ensures HandlerRun(env, s).event.recycleSuccess == Some(true) <==>
      Check(env, s.component.value).result in {Success(true), Failure(ScaledDown)}
  {
  }

  /** The event dictionary the monitor updates in place (`output` is the event
      itself). */
  class MonitorEvent {
    var component: Option<string>
    var counter: Option<int>
    var messageContent: Option<map<string, string>>
    var hasChannels: bool
    var status: Option<string>
    var recycleSuccess: Option<bool>

    constructor (s: EventState)
      ensures State() == s
    {
      component := s.component;
      counter := s.counter;
      messageContent := s.messageContent;
      hasChannels := s.hasChannels;
      status := s.status;
      recycleSuccess := s.recycleSuccess;
    }

    function State(): EventState
      reads this
    {
      EventState(component, counter, messageContent, hasChannels, status, recycleSuccess)
    }

    /** `lambda_handler(event, context)`. */
    method LambdaHandler(env: MonitorEnv) returns (calls: seq<Call>, error: Option<MonitorError>)
      modifies this
      ensures var r := HandlerRun(env, old(State()));
        calls == r.calls && State() == r.event && error == r.error
    {
      if component.None? {
        return [], Some(Failed("No component in event"));
      }
      calls, error := MonitorAutorecycle(env);
    }

    /** `_monitor_autorecycle(event)`. */
    method MonitorAutorecycle(env: MonitorEnv) returns (calls: seq<Call>, error: Option<MonitorError>)
      modifies this
      ensures var r := MonitorRun(env, old(State()));
        calls == r.calls && State() == r.event && error == r.error
    {
      if messageContent.None? {
        messageContent := Some(map[]);
      }
      if counter.None? {
        counter := Some(0);
      }
      counter := Some(counter.value + 1);
      calls := [];
      if counter.value > MaxRuns {
        messageContent := Some(messageContent.value["color" := "danger"]);
        messageContent := Some(messageContent.value["text" := TooLongText]);
        if !hasChannels {
          return [], Some(KeyError("channels"));
        }
        status := Some("fail");
        recycleSuccess := Some(false);
        return [], None;
      }
      if component.None? {
        return [], Some(KeyError("component"));
      }
      var result;
      calls, result := CheckComponent(env, component.value);
      error := None;
      match result
      case Success(done) =>
        if done {
          messageContent := Some(messageContent.value["text" := CompletedText]);
          recycleSuccess := Some(true);
        } else {
          recycleSuccess := Some(false);
        }
      case Failure(ScaledDown) =>
        messageContent := Some(messageContent.value["text" := ScaledDownText]);
        recycleSuccess := Some(true);
      case Failure(Raised(m)) =>
        error := Some(Failed(m));
    }
  }
}
