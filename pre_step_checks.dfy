/** The checks of `process/pre_step_checks.py` that run before a decision: the
    component's launch templates must agree on one AMI, and the discovered
    instances must belong to one replica set. */
module PreStepChecks {
  import opened Wrappers
  import opened MongoWorld
  import opened Instances
  import opened AwsConnector

  /** All elements of `s` are the same value. */
  predicate AllSame<T(==)>(s: seq<T>) {
    forall k :: 0 <= k < |s| ==> s[k] == s[0]
  }

  /** A sequence has exactly one distinct element when it is non-empty and all
      its elements are equal. */
  lemma SingleDistinct<T>(s: seq<T>)
    ensures |set x | x in s| == 1 <==> s != [] && AllSame(s)
  {
    var d := set x | x in s;
    if s != [] && AllSame(s) {
      assert d == {s[0]};
    }
    if |d| == 1 {
      var x :| x in d;
      assert x in s;
      SingletonMembers(d, s[0]);
      forall k | 0 <= k < |s| ensures s[k] == s[0] {
        assert s[k] in d;
      }
    }
  }

  /** A sequence has no distinct elements only when it is empty. */
  lemma NoDistinct<T>(s: seq<T>)
    ensures (set x | x in s) == {} <==> s == []
  {
    var d := set x | x in s;
    if s != [] {
      assert s[0] in d;
    } else {
      assert forall y :: y !in d;
    }
  }

  /** A set of one element holds nothing but that element. */
  lemma SingletonMembers<T>(d: set<T>, a: T)
    requires |d| == 1 && a in d
    ensures d == {a}
  {
    var rest := d - {a};
    assert |rest| == 0;
    assert d == rest + {a};
  }

  function NoTemplatesError(component: string): Error {
    NoLaunchTemplatesFound("No launch templates start with `" + component + "`")
  }

  function MismatchError(component: string): Error {
    LaunchTemplateAmiMismatch("AMI IDs do not match in " + component + " launch templates")
  }

  /** `assert_amis_match_and_get_ami(component, ids)`: at least one image id, and
      only one distinct id, which is the result. */
  function AssertAmisMatchAndGetAmi(component: string, ids: seq<string>): (r: Result<string, Error>)
    ensures ids == [] ==> r == Failure(NoTemplatesError(component))
    ensures ids != [] && !AllSame(ids) ==> r == Failure(MismatchError(component))
    ensures r.Success? <==> ids != [] && AllSame(ids)
    ensures r.Success? ==> r.value in ids && forall k :: 0 <= k < |ids| ==> ids[k] == r.value
  {
    SingleDistinct(ids);
    if |ids| == 0 then Failure(NoTemplatesError(component))
    else
      var imageIds := set x | x in ids;
      if |imageIds| != 1 then Failure(MismatchError(component))
      else Success(ids[0])
  }

  /** The result depends only on which ids occur, not on their order or how often
      each occurs. */
  lemma AmiDependsOnSetOnly(component: string, ids: seq<string>, ids': seq<string>)
    requires (set x | x in ids) == (set x | x in ids')
    ensures AssertAmisMatchAndGetAmi(component, ids) == AssertAmisMatchAndGetAmi(component, ids')
  {
    SingleDistinct(ids);
    SingleDistinct(ids');
    NoDistinct(ids);
    NoDistinct(ids');
    if ids != [] && ids' != [] && AllSame(ids) {
      assert ids'[0] in (set x | x in ids');
      assert ids'[0] in ids;
      var k :| 0 <= k < |ids| && ids[k] == ids'[0];
      assert ids[k] == ids[0];
      assert AllSame(ids');
      assert AssertAmisMatchAndGetAmi(component, ids) == Success(ids[0]);
      assert AssertAmisMatchAndGetAmi(component, ids') == Success(ids'[0]);
    } else if ids != [] && ids' != [] {
      assert !AllSame(ids');
    }
  }

  /** `get_ami_and_check_all_amis_match(component, aws)`. */
  function GetAmiAndCheckAllAmisMatch(env: Env, component: string, aws: Aws, h: History): (r: Run<string>)
    ensures r.calls == GetLaunchTemplateImageIds(env, aws, h).calls
    ensures var ids := GetLaunchTemplateImageIds(env, aws, h).result;
      r.result == if ids.Failure? then Failure(ids.error) else AssertAmisMatchAndGetAmi(component, ids.value)
  {
    var ids := GetLaunchTemplateImageIds(env, aws, h);
    Run(ids.calls, if ids.result.Failure? then Failure(ids.result.error) else AssertAmisMatchAndGetAmi(component, ids.result.value))
  }

  function ReplicaSetNames(instances: seq<Instance>): (names: seq<string>)
    ensures |names| == |instances|
    ensures forall k :: 0 <= k < |instances| ==> names[k] == instances[k].replicaSetName
  {
    seq(|instances|, k requires 0 <= k < |instances| => instances[k].replicaSetName)
  }

  /** `assert_all_nodes_in_same_replica_set(instances)`: passes exactly when the
      instances name one replica set; an empty list raises too. */
  function AssertAllNodesInSameReplicaSet(instances: seq<Instance>): (r: Result<(), Error>)
    ensures r.Success? <==> (instances != [] &&
              forall k :: 0 <= k < |instances| ==> instances[k].replicaSetName == instances[0].replicaSetName)
    ensures r.Failure? ==> r.error == MongoReplicaSetMismatch
  {
    var names := ReplicaSetNames(instances);
    SingleDistinct(names);
    var resultSet := set n | n in names;
    if |resultSet| != 1 then Failure(MongoReplicaSetMismatch) else Success(())
  }
}
