/** The recycler's outside world: the exceptions it raises or lets through, the
    external calls it makes (EC2, Vault, the MongoDB admin interface, the Sensu
    silencing endpoint, sleeps), and an environment of oracles that answers each call.

    An oracle is given the whole history of calls made so far, ending with the call it
    answers, so a reply may depend on anything that happened before (an instance that
    terminates some time after being asked to, a replica set that recovers after a
    step-down). Effectful source functions without loops become functions from a
    history to a `Run`: the calls they make, in order, and their outcome. Source code
    that loops over effectful calls becomes a method that appends to `World.calls`. */
module MongoWorld {
  import opened Wrappers

  /** The exceptions of the recycler and of the libraries it calls, by kind. */
  datatype Error =
    | NoENIFound(message: string)
    | NoInstancesFound
    | TooManyInstancesFound
    | TooManyReservationsFound
    | AssertionError(message: string)
    | AttributeError
    | InstanceStateNotFound
    | MongoRequestFailed
    | NodeNotHealthy(message: string)
    | PrimaryError(message: string)
    | NoLaunchTemplatesFound(message: string)
    | LaunchTemplateAmiMismatch(message: string)
    | MongoReplicaSetMismatch
    | RetryError
    | IndexError
    | KeyError(key: string)
    | TypeError
    | AutoReconnect(description: string)
    | ClientError(description: string)
    | External(description: string)

  datatype AdminCommand = ReplSetGetStatus | ReplSetStepDown(seconds: int)

  /** How `describe_instances` is narrowed: by `tag:Name` values or by instance ids. */
  datatype InstanceQuery = ByNameTag(names: seq<string>) | ByIds(ids: seq<string>)

  /** One external call, with the arguments the outside world sees. */
  datatype Call =
    | DescribeLaunchTemplates(namePattern: string)
    | DescribeLaunchTemplateVersions(templateId: string, version: string)
    | DescribeInstances(query: InstanceQuery)
    | FilterInstances(instanceId: string)
    | TerminateInstance(instanceId: string)
    | FetchCredentials(rolePath: string)
    | OpenClient(connection: string, username: string)
    | RunAdminCommand(connection: string, command: AdminCommand)
    | PostSilence(check: string, expire: int)
    | Sleep(seconds: nat)

  /** The calls that change the cluster. */
  predicate IsMutation(c: Call) {
    c.TerminateInstance? || (c.RunAdminCommand? && c.command.ReplSetStepDown?)
  }

  /** Every call of `calls` is one of `allowed`. */
  predicate Within(calls: seq<Call>, allowed: set<Call>) {
    forall k :: 0 <= k < |calls| ==> calls[k] in allowed
  }

  lemma WithinAppend(a: seq<Call>, b: seq<Call>, allowed: set<Call>)
    ensures Within(a + b, allowed) <==> Within(a, allowed) && Within(b, allowed)
  {
    if Within(a, allowed) && Within(b, allowed) {
      forall k | 0 <= k < |a + b| ensures (a + b)[k] in allowed {
        if k >= |a| { assert (a + b)[k] == b[k - |a|]; }
      }
    }
    if Within(a + b, allowed) {
      forall k | 0 <= k < |a| ensures a[k] in allowed {
        assert (a + b)[k] == a[k];
      }
      forall k | 0 <= k < |b| ensures b[k] in allowed {
        assert (a + b)[|a| + k] == b[k];
      }
    }
  }

  datatype LaunchTemplate = LaunchTemplate(templateId: string, latestVersionNumber: int)
  datatype NetworkInterface = NetworkInterface(privateIpAddress: string, deleteOnTermination: bool)
  datatype Ec2Instance = Ec2Instance(instanceId: string, imageId: string, stateName: string,
                                     networkInterfaces: seq<NetworkInterface>)
  datatype Reservation = Reservation(instances: seq<Ec2Instance>)
  datatype Credentials = Credentials(username: string, password: string)
  datatype Member = Member(name: string, stateStr: string)
  /** The fields of a `replSetGetStatus` reply that the recycler reads. */
  datatype StatusDocument = StatusDocument(ok: int, myState: Option<int>, setName: string, members: seq<Member>)

  type History = seq<Call>

  /** The replies of the outside world. Each oracle sees the history ending with the
      call it answers. `launchTemplateVersions` gives the image ids of the versions a
      `describe_launch_template_versions` call returns; `filteredInstances` the ids an
      `instances.filter(...).all()` lookup returns; `sensuStatus` the HTTP status code. */
  datatype Env = Env(
    launchTemplates: History -> Result<seq<LaunchTemplate>, Error>,
    launchTemplateVersions: History -> Result<seq<string>, Error>,
    reservations: History -> Result<seq<Reservation>, Error>,
    filteredInstances: History -> Result<seq<string>, Error>,
    terminate: History -> Result<(), Error>,
    credentials: History -> Result<Credentials, Error>,
    openClient: History -> Result<(), Error>,
    adminCommand: History -> Result<StatusDocument, Error>,
    sensuStatus: History -> Result<int, Error>)

  /** What an effectful function did: the calls it made, in order, and its outcome. */
  datatype Run<T> = Run(calls: seq<Call>, result: Result<T, Error>)

  /** The outside world as the recycler has seen it so far. */
  class World {
    const env: Env
    var calls: seq<Call>

    constructor (env: Env)
      ensures this.env == env && calls == []
    {
      this.env := env;
      calls := [];
    }
  }

  lemma AppendAssoc<T>(a: seq<T>, b: seq<T>, c: seq<T>)
    ensures (a + b) + c == a + (b + c)
  {
  }

  function ErrorOf<T>(r: Result<T, Error>): (e: Option<Error>)
    ensures e.None? <==> r.Success?
    ensures e.Some? ==> r == Failure(e.value)
  {
    if r.Success? then None else Some(r.error)
  }

  /** Python's `s[k]`: negative indices count from the end, anything else out of
      range is an IndexError. */
  function PyIndex<T>(s: seq<T>, k: int): (r: Result<T, Error>)
    ensures r.Success? <==> -|s| <= k < |s|
    ensures 0 <= k < |s| ==> r == Success(s[k])
    ensures -|s| <= k < 0 ==> r == Success(s[|s| + k])
    ensures r.Failure? ==> r.error == IndexError
  {
    if 0 <= k < |s| then Success(s[k])
    else if -|s| <= k < 0 then Success(s[|s| + k])
    else Failure(IndexError)
  }

  /** The outcome of a `tenacity` retry: every call made, the number of attempts, and
      where the last attempt's calls begin. */
  datatype Retried<T> = Retried(calls: seq<Call>, attempts: nat, lastStart: nat, result: Result<T, Error>)

  /** What a retry that stopped after `last` raises: the last error itself under
      `reraise=True`, otherwise a RetryError. */
  function Exhausted<T>(last: Result<T, Error>, reraise: bool): Result<T, Error> {
    if last.Failure? && !reraise then Failure(RetryError) else last
  }

  /** `@retry(stop=stop_after_attempt(maxAttempts), reraise=...)` around `attempt`,
      retrying on every exception. The waits between attempts are left out. */
  function Retry<T>(attempt: History -> Run<T>, h: History, maxAttempts: nat, reraise: bool): (r: Retried<T>)
    requires maxAttempts >= 1
    ensures 1 <= r.attempts <= maxAttempts
    ensures r.result.Failure? ==> r.attempts == maxAttempts
    ensures r.lastStart <= |r.calls|
    ensures r.calls[r.lastStart..] == attempt(h + r.calls[..r.lastStart]).calls
    ensures r.result == Exhausted(attempt(h + r.calls[..r.lastStart]).result, reraise)
    ensures attempt(h).result.Success? ==>
              r.attempts == 1 && r.calls == attempt(h).calls && r.result == attempt(h).result
    decreases maxAttempts
  {
    var first := attempt(h);
    if first.result.Success? || maxAttempts == 1 then
      assert first.calls[..0] == [] && h + [] == h;
      Retried(first.calls, 1, 0, Exhausted(first.result, reraise))
    else
      var rest := Retry(attempt, h + first.calls, maxAttempts - 1, reraise);
      var calls := first.calls + rest.calls;
      assert calls[..|first.calls| + rest.lastStart] == first.calls + rest.calls[..rest.lastStart];
      assert calls[|first.calls| + rest.lastStart..] == rest.calls[rest.lastStart..];
      assert h + calls[..|first.calls| + rest.lastStart] == (h + first.calls) + rest.calls[..rest.lastStart];
      Retried(calls, rest.attempts + 1, |first.calls| + rest.lastStart, rest.result)
  }

  /** An attempt that never succeeds is made exactly `maxAttempts` times. */
  lemma {:induction false} RetryAllFail<T>(attempt: History -> Run<T>, h: History, maxAttempts: nat, reraise: bool)
    requires maxAttempts >= 1
    requires forall g :: attempt(g).result.Failure?
    ensures Retry(attempt, h, maxAttempts, reraise).attempts == maxAttempts
    ensures Retry(attempt, h, maxAttempts, reraise).result.Failure?
    ensures !reraise ==> Retry(attempt, h, maxAttempts, reraise).result == Failure(RetryError)
  {
    var r := Retry(attempt, h, maxAttempts, reraise);
    assert attempt(h + r.calls[..r.lastStart]).result.Failure?;
  }

  /** The calls of `k` attempts made one after another from `h`, each on the
      history the earlier ones left. */
  function AttemptsCalls<T>(attempt: History -> Run<T>, h: History, k: nat): seq<Call>
    decreases k
  {
    if k == 0 then [] else attempt(h).calls + AttemptsCalls(attempt, h + attempt(h).calls, k - 1)
  }

  /** The calls before the last attempt are those of the earlier attempts, each
      made on the history the attempts before it left. */
  lemma {:induction false} RetryCoherent<T>(attempt: History -> Run<T>, h: History, maxAttempts: nat, reraise: bool)
    requires maxAttempts >= 1
    ensures var r := Retry(attempt, h, maxAttempts, reraise);
      r.calls[..r.lastStart] == AttemptsCalls(attempt, h, r.attempts - 1)
    decreases maxAttempts
  {
    var first := attempt(h);
    if !(first.result.Success? || maxAttempts == 1) {
      var rest := Retry(attempt, h + first.calls, maxAttempts - 1, reraise);
      RetryCoherent(attempt, h + first.calls, maxAttempts - 1, reraise);
      var r := Retry(attempt, h, maxAttempts, reraise);
      assert r.calls[..r.lastStart] == first.calls + rest.calls[..rest.lastStart];
    }
  }

  /** Every attempt before the last failed: the retry stops at the first
      success. */
  lemma {:induction false} RetryEarlierFailed<T>(attempt: History -> Run<T>, h: History, maxAttempts: nat, reraise: bool)
    requires maxAttempts >= 1
    ensures var r := Retry(attempt, h, maxAttempts, reraise);
      forall k :: 0 <= k < r.attempts - 1 ==> attempt(h + AttemptsCalls(attempt, h, k)).result.Failure?
    decreases maxAttempts
  {
    var first := attempt(h);
    if !(first.result.Success? || maxAttempts == 1) {
      var r := Retry(attempt, h, maxAttempts, reraise);
      var next := h + first.calls;
      RetryEarlierFailed(attempt, next, maxAttempts - 1, reraise);
      forall k | 1 <= k < r.attempts - 1
        ensures attempt(h + AttemptsCalls(attempt, h, k)).result.Failure?
      {
        AppendAssoc(h, first.calls, AttemptsCalls(attempt, next, k - 1));
      }
      assert AttemptsCalls(attempt, h, 0) == [] && h + [] == h;
    }
  }

  /** When the first `n` attempts fail and the next one succeeds within the
      limit, the retry makes exactly `n + 1` attempts and returns that success. */
  lemma RetrySucceedsAt<T>(attempt: History -> Run<T>, h: History, maxAttempts: nat, reraise: bool, n: nat)
    requires n < maxAttempts
    requires forall k :: 0 <= k < n ==> attempt(h + AttemptsCalls(attempt, h, k)).result.Failure?
    requires attempt(h + AttemptsCalls(attempt, h, n)).result.Success?
    ensures var r := Retry(attempt, h, maxAttempts, reraise);
      r.attempts == n + 1 && r.result == attempt(h + AttemptsCalls(attempt, h, n)).result &&
      r.calls == AttemptsCalls(attempt, h, n + 1)
  {
    var r := Retry(attempt, h, maxAttempts, reraise);
    RetryCoherent(attempt, h, maxAttempts, reraise);
    RetryEarlierFailed(attempt, h, maxAttempts, reraise);
    var m := r.attempts - 1;
    assert !(m < n) && !(m > n);
    AttemptsCallsSnoc(attempt, h, n);
    assert r.calls == r.calls[..r.lastStart] + r.calls[r.lastStart..];
  }

  /** One more attempt appends its calls. */
  lemma {:induction false} AttemptsCallsSnoc<T>(attempt: History -> Run<T>, h: History, n: nat)
    ensures AttemptsCalls(attempt, h, n + 1) ==
            AttemptsCalls(attempt, h, n) + attempt(h + AttemptsCalls(attempt, h, n)).calls
    decreases n
  {
    if n > 0 {
      var next := h + attempt(h).calls;
      AttemptsCallsSnoc(attempt, next, n - 1);
      AppendAssoc(h, attempt(h).calls, AttemptsCalls(attempt, next, n - 1));
      AppendAssoc(attempt(h).calls, AttemptsCalls(attempt, next, n - 1), attempt(next + AttemptsCalls(attempt, next, n - 1)).calls);
    } else {
      assert h + [] == h;
    }
  }
}
