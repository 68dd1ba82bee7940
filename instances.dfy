/** The `Instance` record of `models/instances.py` and `find_instances`, the
    filter of a list of instances by replica-set state. */
module Instances {
  import Seqs

  /** One running MongoDB instance: its EC2 identity and address, and the replica-set
      state and replica-set name its node reports. */
  datatype Instance = Instance(instanceId: string, imageId: string, ipAddress: string,
                               mongoState: string, replicaSetName: string)

  /** The condition `find_instances` filters by. */
  function HasState(mongoState: string): Instance -> bool {
    (i: Instance) => i.mongoState == mongoState
  }

  /** `find_instances(instances, mongo_state)`: the instances in that state. */
  function FindInstances(instances: seq<Instance>, mongoState: string): (r: seq<Instance>)
    ensures |r| <= |instances|
    ensures forall k :: 0 <= k < |r| ==> r[k] in instances && r[k].mongoState == mongoState
    ensures forall k :: 0 <= k < |instances| && instances[k].mongoState == mongoState ==> instances[k] in r
  {
    Seqs.Filter(instances, HasState(mongoState))
  }

  /** Each instance occurs in the result exactly as often as in the input when it is
      in the state asked for, and not at all otherwise: nothing is dropped or
      duplicated. */
  lemma FindInstancesCounts(instances: seq<Instance>, mongoState: string, x: Instance)
    ensures multiset(FindInstances(instances, mongoState))[x] ==
            if x.mongoState == mongoState then multiset(instances)[x] else 0
  {
    Seqs.FilterMultiplicity(instances, HasState(mongoState), x);
  }

  /** The result keeps the input order. */
  lemma FindInstancesKeepsOrder(instances: seq<Instance>, mongoState: string)
    ensures Seqs.IsSubsequence(FindInstances(instances, mongoState), instances)
  {
    Seqs.FilterIsSubsequence(instances, HasState(mongoState));
  }
}
