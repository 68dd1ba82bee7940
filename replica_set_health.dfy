/** The health gate of `process/replica_set_health.py`: the validator of a
    `replSetGetStatus` reply (every member in a healthy state, exactly one PRIMARY),
    the probe that reads the status of the nodes EC2 reports, and the wait that
    polls that probe. */
module ReplicaSetHealthProcess {
  import opened Wrappers
  import Seqs
  import opened Strs
  import opened MongoWorld
  import opened Polling
  import opened AwsConnector
  import opened MongoConnector

  /** The member states a healthy replica set may hold. */
  const HealthyStates: set<string> := {"PRIMARY", "SECONDARY", "ARBITER"}

  predicate IsHealthy(m: Member) {
    m.stateStr in HealthyStates
  }

  function IsPrimaryFn(): Member -> bool {
    (m: Member) => m.stateStr == "PRIMARY"
  }

  /** The PRIMARY members, in order. */
  function Primaries(members: seq<Member>): (r: seq<Member>)
    ensures forall k :: 0 <= k < |r| ==> r[k].stateStr == "PRIMARY"
  {
    Seqs.Filter(members, IsPrimaryFn())
  }

  /** Exactly one member is PRIMARY. */
  predicate ExactlyOnePrimary(members: seq<Member>) {
    exists k :: 0 <= k < |members| && Seqs.UniqueAt(members, IsPrimaryFn(), k)
  }

  function PrimaryErrorOf(count: nat): Error {
    PrimaryError("primary error, " + NatToString(count) + " primaries found")
  }

  /** `assert_one_primary_node(members)`: passes exactly when a single member is
      PRIMARY, and otherwise reports how many are. */
  function AssertOnePrimaryNode(members: seq<Member>): (r: Result<(), Error>)
    ensures r.Success? <==> ExactlyOnePrimary(members)
    ensures r.Failure? ==> r.error == PrimaryErrorOf(|Primaries(members)|) && |Primaries(members)| != 1
  {
    Seqs.FilterSingleton(members, IsPrimaryFn());
    var n := |Primaries(members)|;
    if n != 1 then Failure(PrimaryErrorOf(n)) else Success(())
  }

  function UnhealthyErrorOf(m: Member): Error {
    NodeNotHealthy(m.name + " is in unhealthy state " + m.stateStr)
  }

  /** `members[k]` is the first member, in list order, in an unhealthy state. */
  predicate FirstUnhealthyAt(members: seq<Member>, k: int) {
    0 <= k < |members| && !IsHealthy(members[k]) && forall j :: 0 <= j < k ==> IsHealthy(members[j])
  }

  /** `assert_all_nodes_healthy(members)`: the scan that raises at the first member
      not in a healthy state. */
  function AssertAllNodesHealthy(members: seq<Member>): (r: Result<(), Error>)
    ensures r.Failure? ==> r.error.NodeNotHealthy?
    decreases |members|
  {
    if members == [] then Success(())
    else if !IsHealthy(members[0]) then Failure(UnhealthyErrorOf(members[0]))
    else AssertAllNodesHealthy(members[1..])
  }

  /** The scan passes exactly when every member is healthy; otherwise it reports
      the first unhealthy member by name and state. */
  lemma {:induction false} AllNodesHealthyScan(members: seq<Member>)
    ensures AssertAllNodesHealthy(members).Success? <==> forall k :: 0 <= k < |members| ==> IsHealthy(members[k])
    ensures AssertAllNodesHealthy(members).Failure? ==>
              exists k :: FirstUnhealthyAt(members, k) && AssertAllNodesHealthy(members).error == UnhealthyErrorOf(members[k])
    decreases |members|
  {
    if members != [] && IsHealthy(members[0]) {
      var rest := members[1..];
      AllNodesHealthyScan(rest);
      forall k | 0 <= k < |members| && (forall i :: 0 <= i < |rest| ==> IsHealthy(rest[i]))
        ensures IsHealthy(members[k])
      {
        if k > 0 { assert members[k] == rest[k - 1]; }
      }
      forall k | 0 <= k < |rest| && (forall i :: 0 <= i < |members| ==> IsHealthy(members[i]))
        ensures IsHealthy(rest[k])
      {
        assert rest[k] == members[k + 1];
      }
      if AssertAllNodesHealthy(rest).Failure? {
        var k :| FirstUnhealthyAt(rest, k) && AssertAllNodesHealthy(rest).error == UnhealthyErrorOf(rest[k]);
        forall j | 0 <= j < k + 1 ensures IsHealthy(members[j]) {
          if j > 0 { assert members[j] == rest[j - 1]; }
        }
        assert members[k + 1] == rest[k];
        assert FirstUnhealthyAt(members, k + 1);
      }
    } else if members != [] {
      assert FirstUnhealthyAt(members, 0);
    }
  }

  /** `assert_replica_set_healthy(status)`: the node states are checked first,
      then the primary count. */
  function AssertReplicaSetHealthy(status: StatusDocument): (r: Result<(), Error>)
    ensures r.Failure? ==> r.error.NodeNotHealthy? || r.error.PrimaryError?
  {
    var _ :- AssertAllNodesHealthy(status.members);
    AssertOnePrimaryNode(status.members)
  }

  /** A replica set passes exactly when every member is in PRIMARY, SECONDARY or
      ARBITER and exactly one is PRIMARY. */
  lemma ReplicaSetHealthyIff(status: StatusDocument)
    ensures AssertReplicaSetHealthy(status).Success? <==>
              (forall k :: 0 <= k < |status.members| ==> IsHealthy(status.members[k])) &&
              ExactlyOnePrimary(status.members)
  {
    AllNodesHealthyScan(status.members);
  }

  /** An unhealthy member is reported even when the primary count is also wrong. */
  lemma UnhealthyReportedFirst(status: StatusDocument, k: nat)
    requires k < |status.members| && !IsHealthy(status.members[k])
    ensures AssertReplicaSetHealthy(status).Failure?
    ensures AssertReplicaSetHealthy(status) == AssertAllNodesHealthy(status.members)
    ensures exists j :: FirstUnhealthyAt(status.members, j) &&
              AssertReplicaSetHealthy(status).error == UnhealthyErrorOf(status.members[j])
  {
    AllNodesHealthyScan(status.members);
  }

  /** The `ReplicaSetHealth` helper: the connectors it was built with. */
  datatype ReplicaSetHealth = ReplicaSetHealth(aws: Aws, mongo: Mongo)

  function IpAddresses(records: seq<InstanceRecord>): (ips: seq<string>)
    ensures |ips| == |records|
    ensures forall k :: 0 <= k < |records| ==> ips[k] == records[k].ipAddress
  {
    seq(|records|, k requires 0 <= k < |records| => records[k].ipAddress)
  }

  /** The connection string `assert_healthy` builds: the discovered IP addresses
      joined by ",". */
  function HostOf(records: seq<InstanceRecord>): string {
    Join(IpAddresses(records), ",")
  }

  /** The connection string lists the discovered IP addresses in discovery order:
      split on "," it gives them back. */
  lemma HostListsAddresses(records: seq<InstanceRecord>)
    requires |records| >= 1
    requires forall k :: 0 <= k < |records| ==> ',' !in records[k].ipAddress
    ensures Split(HostOf(records), ',') == IpAddresses(records)
  {
    SplitJoin(IpAddresses(records), ',');
  }

  /** `assert_healthy()`: discover the instances, read the replica-set status from
      all of them, and validate it. Building the connection string consumes the
      generator, so a NoENIFound surfaces before Mongo is asked anything. */
  function AssertHealthy(env: Env, health: ReplicaSetHealth, h: History): (r: Run<()>)
    ensures |r.calls| >= 1 && r.calls[0] == DescribeInstances(CreateInstanceNameFilters(health.aws.component))
  {
    var inst := GetMongoDbInstances(env, health.aws, h);
    if inst.result.Failure? then Run(inst.calls, Failure(inst.result.error))
    else if inst.result.value.failure.Some? then Run(inst.calls, Failure(inst.result.value.failure.value))
    else
      var s := ReplicaSetStatus(env, health.mongo, HostOf(inst.result.value.records), h + inst.calls);
      Run(inst.calls + s.calls, if s.result.Failure? then Failure(s.result.error) else AssertReplicaSetHealthy(s.result.value))
  }

  /** The probe passes only on a status every node of which is healthy, with one
      primary. */
  lemma AssertHealthyPasses(env: Env, health: ReplicaSetHealth, h: History)
    requires AssertHealthy(env, health, h).result.Success?
    ensures var inst := GetMongoDbInstances(env, health.aws, h);
      inst.result.Success? && inst.result.value.failure.None? &&
      var s := ReplicaSetStatus(env, health.mongo, HostOf(inst.result.value.records), h + inst.calls);
      s.result.Success? &&
      (forall k :: 0 <= k < |s.result.value.members| ==> IsHealthy(s.result.value.members[k])) &&
      ExactlyOnePrimary(s.result.value.members)
  {
    var inst := GetMongoDbInstances(env, health.aws, h);
    var s := ReplicaSetStatus(env, health.mongo, HostOf(inst.result.value.records), h + inst.calls);
    ReplicaSetHealthyIff(s.result.value);
  }

  /** When discovery fails, or an instance has no retained interface, nothing is
      asked of Mongo and the error propagates. */
  lemma AssertHealthyStopsAtDiscovery(env: Env, health: ReplicaSetHealth, h: History)
    requires var inst := GetMongoDbInstances(env, health.aws, h);
      inst.result.Failure? || inst.result.value.failure.Some?
    ensures var inst := GetMongoDbInstances(env, health.aws, h);
      var r := AssertHealthy(env, health, h);
      r.calls == inst.calls && r.result.Failure? &&
      r.result.error == (if inst.result.Failure? then inst.result.error else inst.result.value.failure.value)
  {
  }

  /** Otherwise the status is read from every discovered address at once, and
      the probe's outcome is the validator's verdict on it. */
  lemma AssertHealthyAsksAllNodes(env: Env, health: ReplicaSetHealth, h: History)
    requires var inst := GetMongoDbInstances(env, health.aws, h);
      inst.result.Success? && inst.result.value.failure.None?
    ensures var inst := GetMongoDbInstances(env, health.aws, h);
      var s := ReplicaSetStatus(env, health.mongo, HostOf(inst.result.value.records), h + inst.calls);
      var r := AssertHealthy(env, health, h);
      r.calls == inst.calls + s.calls &&
      (s.result.Failure? ==> r.result == Failure(s.result.error)) &&
      (s.result.Success? ==> r.result == AssertReplicaSetHealthy(s.result.value))
  {
  }

  function HealthProbe(env: Env, health: ReplicaSetHealth): History -> Run<()> {
    (g: History) => AssertHealthy(env, health, g)
  }

  /** The attempt budget and the sleep of `wait_until_cluster_healthy`. */
  const HealthAttempts := 60
  const HealthSleep := 10

  /** `wait_until_cluster_healthy()` on history `h`. */
  function WaitRun(env: Env, health: ReplicaSetHealth, h: History): Polled {
    PollRun(HealthProbe(env, health), h, HealthAttempts, HealthSleep)
  }

  /** A wait that raises has made exactly 60 attempts, 10 seconds apart, and
      raises the last attempt's error. */
  lemma WaitGivesUp(env: Env, health: ReplicaSetHealth, h: History)
    requires WaitRun(env, health, h).error.Some?
    ensures var p := WaitRun(env, health, h);
      |p.attempts| == HealthAttempts && Sleeps(p.attempts) == HealthAttempts - 1 &&
      (forall k :: 0 <= k < |p.attempts| ==> p.attempts[k].error.Some?) &&
      p.error == p.attempts[HealthAttempts - 1].error
  {
    PollGivesUp(HealthProbe(env, health), h, HealthAttempts, HealthSleep);
    PollSleeps(HealthProbe(env, health), h, HealthAttempts, HealthSleep);
  }

  /** A wait that returns saw the cluster healthy on its last attempt. */
  lemma WaitEndsHealthy(env: Env, health: ReplicaSetHealth, h: History)
    requires WaitRun(env, health, h).error.None?
    ensures var p := WaitRun(env, health, h);
      1 <= |p.attempts| <= HealthAttempts && p.attempts[|p.attempts| - 1].error.None?
  {
  }

  /** `wait_until_cluster_healthy()`. */
  method WaitUntilClusterHealthy(w: World, health: ReplicaSetHealth) returns (error: Option<Error>)
    modifies w
    ensures var p := WaitRun(w.env, health, old(w.calls));
      w.calls == old(w.calls) + p.calls && error == p.error
  {
    error := Poll(w, HealthProbe(w.env, health), HealthAttempts, HealthSleep);
  }
}
