/** `process/instances.py`: `fetch_replica_set_status` joins each EC2 record of
    the component with the node details Mongo reports at that record's address.
    The EC2 records come from a generator, so the node-details query of each record
    happens before the next record is produced, and a NoENIFound for a later
    instance surfaces only after the earlier records were queried. */
module InstancesProcess {
  import opened Wrappers
  import opened MongoWorld
  import opened Instances
  import opened AwsConnector
  import opened MongoConnector

  /** `inst` carries the EC2 record's id, image and address unchanged. */
  predicate CopiedFrom(rec: InstanceRecord, inst: Instance) {
    inst.instanceId == rec.instanceId && inst.imageId == rec.imageId && inst.ipAddress == rec.ipAddress
  }

  /** The generator over the remaining records, then the error that stopped the
      EC2 generator, if any. */
  function FetchFrom(env: Env, m: Mongo, records: seq<InstanceRecord>, failure: Option<Error>, h: History): (r: Run<seq<Instance>>)
    ensures r.result.Success? ==>
              failure.None? && |r.result.value| == |records| &&
              forall k :: 0 <= k < |records| ==> CopiedFrom(records[k], r.result.value[k])
    ensures failure.Some? ==> r.result.Failure?
    decreases |records|
  {
    if records == [] then Run([], if failure.Some? then Failure(failure.value) else Success([]))
    else
      var rec := records[0];
      var nd := GetNodeDetails(env, m, rec.ipAddress, h);
      if nd.result.Failure? then Run(nd.calls, Failure(nd.result.error))
      else
        var inst := Instance(rec.instanceId, rec.imageId, rec.ipAddress, nd.result.value.nodeState, nd.result.value.replicaSetName);
        var rest := FetchFrom(env, m, records[1..], failure, h + nd.calls);
        Run(nd.calls + rest.calls, if rest.result.Failure? then rest.result else Success([inst] + rest.result.value))
  }

  /** Mongo reported `inst`'s state and replica-set name when asked at `ip`. */
  ghost predicate DetailsAt(env: Env, m: Mongo, ip: string, inst: Instance) {
    exists g :: GetNodeDetails(env, m, ip, g).result == Success(NodeDetails(inst.mongoState, inst.replicaSetName))
  }

  /** Each instance's state and replica-set name come from the node details
      queried at its record's IP address. */
  lemma {:induction false} FetchFromDetails(env: Env, m: Mongo, records: seq<InstanceRecord>, failure: Option<Error>, h: History)
    requires FetchFrom(env, m, records, failure, h).result.Success?
    ensures var r := FetchFrom(env, m, records, failure, h).result.value;
      forall k :: 0 <= k < |records| ==> DetailsAt(env, m, records[k].ipAddress, r[k])
    decreases |records|
  {
    if records != [] {
      var g := FetchFromCons(env, m, records, failure, h);
      FetchFromDetails(env, m, records[1..], failure, g);
      var r := FetchFrom(env, m, records, failure, h).result.value;
      var rel := (rec: InstanceRecord, inst: Instance) => DetailsAt(env, m, rec.ipAddress, inst);
      assert r[1..] == FetchFrom(env, m, records[1..], failure, g).result.value;
      ShiftPairs(records, r, rel);
    }
  }

  /** The first instance comes from the query at the first record's address on
      `h`; the others from the generator on the history `g` that query left. */
  lemma FetchFromCons(env: Env, m: Mongo, records: seq<InstanceRecord>, failure: Option<Error>, h: History) returns (g: History)
    requires records != [] && FetchFrom(env, m, records, failure, h).result.Success?
    ensures var r := FetchFrom(env, m, records, failure, h).result.value;
      var rest := FetchFrom(env, m, records[1..], failure, g);
      g == h + GetNodeDetails(env, m, records[0].ipAddress, h).calls &&
      rest.result.Success? && r == [r[0]] + rest.result.value &&
      DetailsAt(env, m, records[0].ipAddress, r[0])
  {
    var nd := GetNodeDetails(env, m, records[0].ipAddress, h);
    g := h + nd.calls;
    var r := FetchFrom(env, m, records, failure, h).result.value;
    DetailsWitness(env, m, records[0].ipAddress, h, r[0]);
  }

  /** A relation that holds of the heads and, pairwise, of the tails holds
      pairwise of the whole sequences. */
  lemma ShiftPairs<A, B>(a: seq<A>, b: seq<B>, rel: (A, B) -> bool)
    requires |a| == |b| >= 1 && rel(a[0], b[0])
    requires forall k :: 0 <= k < |a| - 1 ==> rel(a[1..][k], b[1..][k])
    ensures forall k :: 0 <= k < |a| ==> rel(a[k], b[k])
  {
    forall k | 1 <= k < |a| ensures rel(a[k], b[k]) {
      assert a[k] == a[1..][k - 1] && b[k] == b[1..][k - 1];
    }
  }

  lemma DetailsWitness(env: Env, m: Mongo, ip: string, g: History, inst: Instance)
    requires GetNodeDetails(env, m, ip, g).result == Success(NodeDetails(inst.mongoState, inst.replicaSetName))
    ensures DetailsAt(env, m, ip, inst)
  {
  }

  /** When Mongo answers every query, the EC2 generator's error surfaces once all
      the records before it were queried. */
  lemma {:induction false} FetchFromFailsLast(env: Env, m: Mongo, records: seq<InstanceRecord>, e: Error, h: History)
    requires forall ip, g :: GetNodeDetails(env, m, ip, g).result.Success?
    ensures FetchFrom(env, m, records, Some(e), h).result == Failure(e)
    decreases |records|
  {
    if records != [] {
      var nd := GetNodeDetails(env, m, records[0].ipAddress, h);
      FetchFromFailsLast(env, m, records[1..], e, h + nd.calls);
    }
  }

  /** `list(fetch_replica_set_status(aws, mongo))`. */
  function FetchReplicaSetStatus(env: Env, aws: Aws, m: Mongo, h: History): (r: Run<seq<Instance>>)
    ensures var inst := GetMongoDbInstances(env, aws, h);
      |r.calls| >= 1 && r.calls[..1] == inst.calls &&
      (inst.result.Failure? ==> r == Run(inst.calls, Failure(inst.result.error)))
    ensures var inst := GetMongoDbInstances(env, aws, h);
      inst.result.Success? ==>
        var rest := FetchFrom(env, m, inst.result.value.records, inst.result.value.failure, h + inst.calls);
        r.calls == inst.calls + rest.calls && r.result == rest.result
  {
    var inst := GetMongoDbInstances(env, aws, h);
    if inst.result.Failure? then Run(inst.calls, Failure(inst.result.error))
    else
      var rest := FetchFrom(env, m, inst.result.value.records, inst.result.value.failure, h + inst.calls);
      Run(inst.calls + rest.calls, rest.result)
  }

  /** One instance per EC2 record, in discovery order, with the record's fields
      copied. */
  lemma FetchReplicaSetStatusJoins(env: Env, aws: Aws, m: Mongo, h: History)
    requires FetchReplicaSetStatus(env, aws, m, h).result.Success?
    ensures var inst := GetMongoDbInstances(env, aws, h);
      var r := FetchReplicaSetStatus(env, aws, m, h).result.value;
      inst.result.Success? && inst.result.value.failure.None? &&
      |r| == |inst.result.value.records| &&
      forall k :: 0 <= k < |r| ==> CopiedFrom(inst.result.value.records[k], r[k]) &&
                                   DetailsAt(env, m, inst.result.value.records[k].ipAddress, r[k])
  {
    var inst := GetMongoDbInstances(env, aws, h);
    FetchFromDetails(env, m, inst.result.value.records, inst.result.value.failure, h + inst.calls);
  }
}
