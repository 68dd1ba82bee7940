/** The EC2 connector of `connectors/aws.py`: the name-tag filter of a component's
    instances, the running MongoDB instances of a `describe_instances` reply and
    their private IP addresses, the state of one instance, the image ids of the
    component's launch templates, and the termination of an instance followed by a
    wait until EC2 reports it terminated. */
module AwsConnector {
  import opened Wrappers
  import Seqs
  import opened Strs
  import opened MongoWorld
  import opened Polling
  import opened Instances

  /** The availability-zone suffixes of instance names. */
  const AzSuffixes: seq<string> := ["_a", "_b", "_c"]

  /** `re.sub(r"_[abc]$", "", component)`. */
  function StripAzSuffix(component: string): (r: string)
    ensures StartsWith(component, r)
    ensures r == component || component[|r|..] in AzSuffixes
    ensures r == component <==> forall k :: 0 <= k < |AzSuffixes| ==> !EndsWith(component, AzSuffixes[k])
  {
    if EndsWith(component, "_a") || EndsWith(component, "_b") || EndsWith(component, "_c") then
      component[..|component| - 2]
    else component
  }

  /** `create_instance_name_filters(component)`: the `tag:Name` filter listing the
      component's base name with each availability-zone suffix. */
  function CreateInstanceNameFilters(component: string): (q: InstanceQuery)
    ensures q.ByNameTag? && |q.names| == |AzSuffixes|
    ensures forall k :: 0 <= k < |AzSuffixes| ==> q.names[k] == StripAzSuffix(component) + AzSuffixes[k]
  {
    var base := StripAzSuffix(component);
    ByNameTag([base + "_a", base + "_b", base + "_c"])
  }

  /** Whichever zone a component names, the filter lists the same three instance
      names: those of its base name. */
  lemma NameFiltersIgnoreAz(base: string, k: nat)
    requires k < |AzSuffixes|
    ensures CreateInstanceNameFilters(base + AzSuffixes[k]) ==
            ByNameTag([base + "_a", base + "_b", base + "_c"])
  {
    var s := base + AzSuffixes[k];
    assert s[|s| - 2..] == AzSuffixes[k];
    assert s[..|s| - 2] == base;
  }

  /** An instance's running state name. */
  const Running := "running"

  predicate IsRunning(i: Ec2Instance) {
    i.stateName == Running
  }

  /** An interface that survives the instance: the one whose IP the recycler uses. */
  function Retained(): NetworkInterface -> bool {
    (n: NetworkInterface) => !n.deleteOnTermination
  }

  /** `describe_ip_address_from_instance(instance)`: the private IP address of the
      first network interface not deleted on termination; NoENIFound when there is
      none. */
  function IpAddressOf(instance: Ec2Instance): (r: Result<string, Error>)
    ensures r.Failure? <==> forall k :: 0 <= k < |instance.networkInterfaces| ==> instance.networkInterfaces[k].deleteOnTermination
    ensures r.Failure? ==> r.error == NoENIFound("No ENI found for instance : " + instance.instanceId)
    ensures r.Success? ==> exists k :: (0 <= k < |instance.networkInterfaces| &&
              instance.networkInterfaces[k].privateIpAddress == r.value &&
              !instance.networkInterfaces[k].deleteOnTermination &&
              forall j :: 0 <= j < k ==> instance.networkInterfaces[j].deleteOnTermination)
  {
    var kept := Seqs.Filter(instance.networkInterfaces, Retained());
    Seqs.FilterHead(instance.networkInterfaces, Retained());
    if kept == [] then Failure(NoENIFound("No ENI found for instance : " + instance.instanceId))
    else Success(kept[0].privateIpAddress)
  }

  /** The dictionary `describe_mongodb_instances` yields for an instance. */
  datatype InstanceRecord = InstanceRecord(instanceId: string, imageId: string, ipAddress: string)

  /** What consuming the generator gives: the records yielded, and the error raised
      after them, if any. */
  datatype Described = Described(records: seq<InstanceRecord>, failure: Option<Error>)

  /** The instances of all reservations, in reservation order. */
  function AllInstances(reservations: seq<Reservation>): (r: seq<Ec2Instance>)
    decreases |reservations|
  {
    if reservations == [] then [] else reservations[0].instances + AllInstances(reservations[1..])
  }

  function IsRunningFn(): Ec2Instance -> bool {
    (i: Ec2Instance) => IsRunning(i)
  }

  /** The record of a running instance whose IP address is known. */
  predicate RecordOf(i: Ec2Instance, rec: InstanceRecord) {
    IpAddressOf(i).Success? && rec == InstanceRecord(i.instanceId, i.imageId, IpAddressOf(i).value)
  }

  /** `d` is what the generator gives over instances whose running ones are
      `running`: records for them, in order, up to the first one without a retained
      interface, whose NoENIFound ends it. */
  predicate DescribesRunning(running: seq<Ec2Instance>, d: Described) {
    |d.records| <= |running| &&
    (forall k :: 0 <= k < |d.records| ==> RecordOf(running[k], d.records[k])) &&
    (d.failure.None? <==> |d.records| == |running|) &&
    (d.failure.Some? ==> IpAddressOf(running[|d.records|]).Failure? &&
                         d.failure == Some(IpAddressOf(running[|d.records|]).error))
  }

  /** The generator over a list of instances, consumed to the end. */
  function DescribeFrom(instances: seq<Ec2Instance>): Described
    decreases |instances|
  {
    if instances == [] then Described([], None)
    else
      var i := instances[0];
      var rest := DescribeFrom(instances[1..]);
      if !IsRunning(i) then rest
      else
        match IpAddressOf(i)
        case Failure(e) => Described([], Some(e))
        case Success(ip) => Described([InstanceRecord(i.instanceId, i.imageId, ip)] + rest.records, rest.failure)
  }

  /** The generator yields the running instances' records in order and stops at
      the first running instance it cannot give an IP address. */
  lemma {:induction false} DescribeFromRunning(instances: seq<Ec2Instance>)
    ensures DescribesRunning(Seqs.Filter(instances, IsRunningFn()), DescribeFrom(instances))
    decreases |instances|
  {
    if instances != [] {
      DescribeFromRunning(instances[1..]);
      if IsRunning(instances[0]) && IpAddressOf(instances[0]).Success? {
        DescribeCons(instances);
      }
    }
  }

  /** The step of `DescribeFromRunning` for a running instance with an IP address. */
  lemma {:induction false} DescribeCons(instances: seq<Ec2Instance>)
    requires instances != [] && IsRunning(instances[0]) && IpAddressOf(instances[0]).Success?
    requires DescribesRunning(Seqs.Filter(instances[1..], IsRunningFn()), DescribeFrom(instances[1..]))
    ensures DescribesRunning(Seqs.Filter(instances, IsRunningFn()), DescribeFrom(instances))
  {
    var rest := DescribeFrom(instances[1..]);
    var restRunning := Seqs.Filter(instances[1..], IsRunningFn());
    var rec := InstanceRecord(instances[0].instanceId, instances[0].imageId, IpAddressOf(instances[0]).value);
    FilterRunningCons(instances);
    DescribeFromCons(instances);
    ConsDescribes(instances[0], rec, restRunning, rest);
  }

  lemma FilterRunningCons(instances: seq<Ec2Instance>)
    requires instances != [] && IsRunning(instances[0])
    ensures Seqs.Filter(instances, IsRunningFn()) == [instances[0]] + Seqs.Filter(instances[1..], IsRunningFn())
  {
  }

  lemma DescribeFromCons(instances: seq<Ec2Instance>)
    requires instances != [] && IsRunning(instances[0]) && IpAddressOf(instances[0]).Success?
    ensures var i := instances[0];
      DescribeFrom(instances) ==
      Described([InstanceRecord(i.instanceId, i.imageId, IpAddressOf(i).value)] + DescribeFrom(instances[1..]).records,
                DescribeFrom(instances[1..]).failure)
  {
  }

  lemma {:induction false} ConsDescribes(i: Ec2Instance, rec: InstanceRecord, running: seq<Ec2Instance>, d: Described)
    requires RecordOf(i, rec) && DescribesRunning(running, d)
    ensures DescribesRunning([i] + running, Described([rec] + d.records, d.failure))
  {
    var running' := [i] + running;
    var d' := Described([rec] + d.records, d.failure);
    forall k | 1 <= k < |d'.records| ensures RecordOf(running'[k], d'.records[k]) {
      assert running'[k] == running[k - 1] && d'.records[k] == d.records[k - 1];
    }
    if d.failure.Some? {
      assert running'[|d'.records|] == running[|d.records|];
    }
  }

  /** `describe_mongodb_instances(reservations)`, consumed to the end. */
  function DescribeMongodbInstances(reservations: seq<Reservation>): (d: Described)
    ensures DescribesRunning(Seqs.Filter(AllInstances(reservations), IsRunningFn()), d)
  {
    DescribeFromRunning(AllInstances(reservations));
    DescribeFrom(AllInstances(reservations))
  }

  /** When every running instance has a retained interface, one record per running
      instance, in order, and nothing else. */
  lemma DescribeAllRunning(reservations: seq<Reservation>)
    requires forall k :: 0 <= k < |AllInstances(reservations)| && IsRunning(AllInstances(reservations)[k]) ==>
               IpAddressOf(AllInstances(reservations)[k]).Success?
    ensures DescribeMongodbInstances(reservations).failure.None?
    ensures |DescribeMongodbInstances(reservations).records| == |Seqs.Filter(AllInstances(reservations), IsRunningFn())|
  {
  }

  /** `instance_state(instance_descriptions)`: the state name of the one instance of
      the one reservation; no reservation or no instance raises NoInstancesFound,
      several reservations TooManyReservationsFound, several instances
      TooManyInstancesFound, in that order of checks. */
  function InstanceState(reservations: seq<Reservation>): (r: Result<string, Error>)
    ensures r.Success? <==> |reservations| == 1 && |reservations[0].instances| == 1
    ensures r.Success? ==> r.value == reservations[0].instances[0].stateName
    ensures |reservations| == 0 ==> r == Failure(NoInstancesFound)
    ensures |reservations| > 1 ==> r == Failure(TooManyReservationsFound)
    ensures |reservations| == 1 && |reservations[0].instances| == 0 ==> r == Failure(NoInstancesFound)
    ensures |reservations| == 1 && |reservations[0].instances| > 1 ==> r == Failure(TooManyInstancesFound)
  {
    if |reservations| == 0 then Failure(NoInstancesFound)
    else if |reservations| > 1 then Failure(TooManyReservationsFound)
    else
      var instances := reservations[0].instances;
      if |instances| == 0 then Failure(NoInstancesFound)
      else if |instances| > 1 then Failure(TooManyInstancesFound)
      else Success(instances[0].stateName)
  }

  /** `assert_terminated(state)`. */
  function AssertTerminated(state: string): (r: Result<bool, Error>)
    ensures r.Success? <==> state == "terminated"
    ensures r.Success? ==> r.value
    ensures r.Failure? ==> r.error == AssertionError("instance is in state " + state)
  {
    if state == "terminated" then Success(true)
    else Failure(AssertionError("instance is in state " + state))
  }

  /** The `AWS` connector of one component; its region is always eu-west-2. */
  datatype Aws = Aws(component: string)

  const Region := "eu-west-2"

  /** The `describe_launch_template_versions` call for one template: its id and
      its latest version number as a string. */
  function VersionsCall(t: LaunchTemplate): Call {
    DescribeLaunchTemplateVersions(t.templateId, IntToString(t.latestVersionNumber))
  }

  /** The launch-template versions lookups of `get_launch_template_image_ids`, one
      per template in order: each asks for the template's latest version and
      takes the image id of the first version returned; an empty reply raises
      IndexError. */
  function ImageIdsFrom(env: Env, templates: seq<LaunchTemplate>, h: History): (r: Run<seq<string>>)
    ensures |r.calls| <= |templates|
    ensures r.result.Success? ==> |r.calls| == |templates| && |r.result.value| == |templates|
    ensures templates == [] ==> r == Run([], Success([]))
    decreases |templates|
  {
    if templates == [] then Run([], Success([]))
    else
      var call := VersionsCall(templates[0]);
      var versions := env.launchTemplateVersions(h + [call]);
      if versions.Failure? then Run([call], Failure(versions.error))
      else if versions.value == [] then Run([call], Failure(IndexError))
      else
        var rest := ImageIdsFrom(env, templates[1..], h + [call]);
        Run([call] + rest.calls, if rest.result.Failure? then rest.result else Success([versions.value[0]] + rest.result.value))
  }

  /** The k-th lookup is that of the k-th template. */
  lemma {:induction false} ImageIdsCalls(env: Env, templates: seq<LaunchTemplate>, h: History)
    ensures var r := ImageIdsFrom(env, templates, h);
      forall k :: 0 <= k < |r.calls| ==> r.calls[k] == VersionsCall(templates[k])
    decreases |templates|
  {
    if templates != [] {
      var call := VersionsCall(templates[0]);
      var versions := env.launchTemplateVersions(h + [call]);
      if versions.Success? && versions.value != [] {
        var rest := ImageIdsFrom(env, templates[1..], h + [call]);
        ImageIdsCalls(env, templates[1..], h + [call]);
        var r := ImageIdsFrom(env, templates, h);
        assert r.calls == [call] + rest.calls;
        forall k | 1 <= k < |r.calls| ensures r.calls[k] == VersionsCall(templates[k]) {
          assert r.calls[k] == rest.calls[k - 1] && templates[k] == templates[1..][k - 1];
        }
      }
    }
  }

  /** On success the k-th image id is the first id of the k-th reply, the one
      answering the k-th lookup. */
  lemma {:induction false} ImageIdAt(env: Env, templates: seq<LaunchTemplate>, h: History, k: nat)
    requires ImageIdsFrom(env, templates, h).result.Success? && k < |templates|
    ensures var r := ImageIdsFrom(env, templates, h);
      var reply := env.launchTemplateVersions(h + r.calls[..k + 1]);
      reply.Success? && reply.value != [] && r.result.value[k] == reply.value[0]
    decreases k
  {
    var r := ImageIdsFrom(env, templates, h);
    var call := VersionsCall(templates[0]);
    var versions := env.launchTemplateVersions(h + [call]);
    var rest := ImageIdsFrom(env, templates[1..], h + [call]);
    assert r.calls == [call] + rest.calls;
    assert r.result.value == [versions.value[0]] + rest.result.value;
    if k == 0 {
      assert r.calls[..1] == [call];
    } else {
      ImageIdAt(env, templates[1..], h + [call], k - 1);
      assert r.calls[..k + 1] == [call] + rest.calls[..k];
      AppendAssoc(h, [call], rest.calls[..k]);
    }
  }

  /** A failed lookup is the last one made: either its reply is an error, which
      propagates, or it is empty and indexing it raises IndexError. */
  lemma {:induction false} ImageIdsFailed(env: Env, templates: seq<LaunchTemplate>, h: History)
    requires ImageIdsFrom(env, templates, h).result.Failure?
    ensures var r := ImageIdsFrom(env, templates, h);
      var reply := env.launchTemplateVersions(h + r.calls);
      r.calls != [] &&
      ((reply.Failure? && r.result.error == reply.error) ||
       (reply.Success? && reply.value == [] && r.result.error == IndexError))
    decreases |templates|
  {
    var call := VersionsCall(templates[0]);
    var versions := env.launchTemplateVersions(h + [call]);
    if versions.Success? && versions.value != [] {
      var rest := ImageIdsFrom(env, templates[1..], h + [call]);
      ImageIdsFailed(env, templates[1..], h + [call]);
      AppendAssoc(h, [call], rest.calls);
    }
  }

  /** The version asked for reads back as the template's latest version number. */
  lemma ImageIdsAskLatestVersion(env: Env, templates: seq<LaunchTemplate>, h: History, k: nat)
    requires k < |ImageIdsFrom(env, templates, h).calls|
    ensures var c := ImageIdsFrom(env, templates, h).calls[k];
      c == VersionsCall(templates[k]) && ParseInt(c.version) == Some(templates[k].latestVersionNumber)
  {
    ImageIdsCalls(env, templates, h);
    ParseIntToString(templates[k].latestVersionNumber);
  }

  /** `get_launch_template_image_ids()`: the templates whose name starts with the
      component, then one image id per template. */
  function GetLaunchTemplateImageIds(env: Env, aws: Aws, h: History): (r: Run<seq<string>>)
    ensures |r.calls| >= 1 && r.calls[0] == DescribeLaunchTemplates(aws.component + "*")
    ensures var t := env.launchTemplates(h + [r.calls[0]]);
      if t.Failure? then r == Run([r.calls[0]], Failure(t.error))
      else r.calls[1..] == ImageIdsFrom(env, t.value, h + [r.calls[0]]).calls &&
           r.result == ImageIdsFrom(env, t.value, h + [r.calls[0]]).result
  {
    var call := DescribeLaunchTemplates(aws.component + "*");
    var templates := env.launchTemplates(h + [call]);
    if templates.Failure? then Run([call], Failure(templates.error))
    else
      var ids := ImageIdsFrom(env, templates.value, h + [call]);
      assert ([call] + ids.calls)[1..] == ids.calls;
      Run([call] + ids.calls, ids.result)
  }

  /** `get_instance_state(instance_id)`. */
  function GetInstanceState(env: Env, aws: Aws, instanceId: string, h: History): (r: Run<string>)
    ensures r.calls == [DescribeInstances(ByIds([instanceId]))]
    ensures var res := env.reservations(h + r.calls);
      r.result == if res.Failure? then Failure(res.error) else InstanceState(res.value)
  {
    var call := DescribeInstances(ByIds([instanceId]));
    var res := env.reservations(h + [call]);
    Run([call], if res.Failure? then Failure(res.error) else InstanceState(res.value))
  }

  /** `get_mongo_db_instances()`: the `describe_instances` call happens at once, the
      records follow as the generator is consumed. */
  function GetMongoDbInstances(env: Env, aws: Aws, h: History): (r: Run<Described>)
    ensures r.calls == [DescribeInstances(CreateInstanceNameFilters(aws.component))]
    ensures var res := env.reservations(h + r.calls);
      r.result == if res.Failure? then Failure(res.error) else Success(DescribeMongodbInstances(res.value))
  {
    var call := DescribeInstances(CreateInstanceNameFilters(aws.component));
    var res := env.reservations(h + [call]);
    Run([call], if res.Failure? then Failure(res.error) else Success(DescribeMongodbInstances(res.value)))
  }

  /** `is_terminated()` inside `recycle_instance`: the instance's state, which must be
      "terminated". */
  function IsTerminated(env: Env, aws: Aws, instanceId: string, h: History): (r: Run<()>)
    ensures r.calls == GetInstanceState(env, aws, instanceId, h).calls
    ensures r.result.Success? <==> GetInstanceState(env, aws, instanceId, h).result == Success("terminated")
  {
    var s := GetInstanceState(env, aws, instanceId, h);
    Run(s.calls, if s.result.Failure? then Failure(s.result.error)
                 else if AssertTerminated(s.result.value).Failure? then Failure(AssertTerminated(s.result.value).error)
                 else Success(()))
  }

  function TerminatedProbe(env: Env, aws: Aws, instanceId: string): History -> Run<()> {
    (g: History) => IsTerminated(env, aws, instanceId, g)
  }

  /** The seconds `recycle_instance` sleeps between checks of the instance state. */
  const TerminationSleep := 10

  /** `recycle_instance(instance)`: look the instance up (a ClientError becomes
      NoInstancesFound; several matches raise TooManyInstancesFound; none raises
      IndexError), terminate the one found, then poll until EC2 reports it
      terminated, 50 attempts 10 seconds apart. */
  function RecycleRun(env: Env, aws: Aws, instance: Instance, h: History): (r: Run<()>)
    ensures |r.calls| >= 1 && r.calls[0] == FilterInstances(instance.instanceId)
  {
    var lookup := FilterInstances(instance.instanceId);
    var found := env.filteredInstances(h + [lookup]);
    if found.Failure? then Run([lookup], Failure(if found.error.ClientError? then NoInstancesFound else found.error))
    else if |found.value| > 1 then Run([lookup], Failure(TooManyInstancesFound))
    else if |found.value| == 0 then Run([lookup], Failure(IndexError))
    else
      var id := found.value[0];
      var terminate := TerminateInstance(id);
      var t := env.terminate(h + [lookup, terminate]);
      if t.Failure? then Run([lookup, terminate], Failure(t.error))
      else
        var p := PollRun(TerminatedProbe(env, aws, id), h + [lookup, terminate], DefaultMaxIters, TerminationSleep);
        var calls := [lookup, terminate] + p.calls;
        assert calls[..2] == [lookup, terminate] && calls[2..] == p.calls;
        Run(calls, if p.error.None? then Success(()) else Failure(p.error.value))
  }

  /** The lookup decides whether anything is terminated: a failed lookup raises
      (a ClientError as NoInstancesFound), several matches raise
      TooManyInstancesFound, no match raises IndexError, and in each case nothing
      but the lookup happened. */
  lemma RecycleLookupFails(env: Env, aws: Aws, instance: Instance, h: History)
    requires var found := env.filteredInstances(h + [FilterInstances(instance.instanceId)]);
      found.Failure? || |found.value| != 1
    ensures var found := env.filteredInstances(h + [FilterInstances(instance.instanceId)]);
      var r := RecycleRun(env, aws, instance, h);
      r.calls == [FilterInstances(instance.instanceId)] &&
      r.result == Failure(if found.Failure? then (if found.error.ClientError? then NoInstancesFound else found.error)
                          else if |found.value| > 1 then TooManyInstancesFound else IndexError)
  {
  }

  /** With exactly one match, that instance is terminated and then polled for, 50
      times at most, 10 seconds apart; the recycle fails exactly when the
      termination or the poll does. */
  lemma RecycleTerminatesAndWaits(env: Env, aws: Aws, instance: Instance, h: History, id: string)
    requires env.filteredInstances(h + [FilterInstances(instance.instanceId)]) == Success([id])
    ensures var r := RecycleRun(env, aws, instance, h);
      var start := [FilterInstances(instance.instanceId), TerminateInstance(id)];
      var t := env.terminate(h + start);
      var p := PollRun(TerminatedProbe(env, aws, id), h + start, DefaultMaxIters, TerminationSleep);
      r.calls[..|start|] == start &&
      (t.Failure? ==> r == Run(start, Failure(t.error))) &&
      (t.Success? ==> r.calls == start + p.calls && r.result.Failure? == p.error.Some? &&
                      (p.error.Some? ==> r.result.error == p.error.value))
  {
  }

  /** A recycle terminates at most one instance, the one the lookup found, and
      only as its second call. */
  lemma {:induction false} RecycleTerminatesOnce(env: Env, aws: Aws, instance: Instance, h: History)
    ensures var r := RecycleRun(env, aws, instance, h);
      forall k :: 0 <= k < |r.calls| && r.calls[k].TerminateInstance? ==>
        k == 1 && env.filteredInstances(h + [FilterInstances(instance.instanceId)]) == Success([r.calls[k].instanceId])
  {
    var r := RecycleRun(env, aws, instance, h);
    var found := env.filteredInstances(h + [FilterInstances(instance.instanceId)]);
    if found.Failure? || |found.value| != 1 {
      RecycleLookupFails(env, aws, instance, h);
    } else {
      var id := found.value[0];
      assert found.value == [id];
      RecycleTerminatesAndWaits(env, aws, instance, h, id);
      var start := [FilterInstances(instance.instanceId), TerminateInstance(id)];
      if env.terminate(h + start).Success? {
        var allowed := {DescribeInstances(ByIds([id]))};
        var p := PollRun(TerminatedProbe(env, aws, id), h + start, DefaultMaxIters, TerminationSleep);
        PollWithin(TerminatedProbe(env, aws, id), h + start, 1, DefaultMaxIters, TerminationSleep, allowed);
        forall k | 2 <= k < |r.calls| ensures !r.calls[k].TerminateInstance? {
          assert r.calls[k] == p.calls[k - 2];
          assert p.calls[k - 2] in allowed + {Sleep(TerminationSleep)};
        }
      }
    }
  }

  /** `recycle_instance(instance)`. */
  method RecycleInstance(w: World, aws: Aws, instance: Instance) returns (error: Option<Error>)
    modifies w
    ensures var r := RecycleRun(w.env, aws, instance, old(w.calls));
      w.calls == old(w.calls) + r.calls && error == ErrorOf(r.result)
  {
    ghost var h0 := w.calls;
    var lookup := FilterInstances(instance.instanceId);
    w.calls := w.calls + [lookup];
    var found := w.env.filteredInstances(w.calls);
    if found.Failure? {
      return Some(if found.error.ClientError? then NoInstancesFound else found.error);
    }
    if |found.value| > 1 {
      return Some(TooManyInstancesFound);
    }
    if |found.value| == 0 {
      return Some(IndexError);
    }
    var id := found.value[0];
    var terminate := TerminateInstance(id);
    w.calls := w.calls + [terminate];
    assert w.calls == h0 + [lookup, terminate];
    var t := w.env.terminate(w.calls);
    if t.Failure? {
      return Some(t.error);
    }
    error := Poll(w, TerminatedProbe(w.env, aws, id), DefaultMaxIters, TerminationSleep);
    ghost var p := PollRun(TerminatedProbe(w.env, aws, id), h0 + [lookup, terminate], DefaultMaxIters, TerminationSleep);
    AppendAssoc(h0, [lookup, terminate], p.calls);
  }
}
