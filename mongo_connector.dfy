/** The MongoDB connector of `connectors/mongo.py`: reading a node's state out of a
    `replSetGetStatus` reply, the cluster name derived from the component, the
    retried connection with Vault credentials, and the admin commands the recycler
    issues. */
module MongoConnector {
  import opened Wrappers
  import opened Strs
  import opened MongoWorld

  /** Replica-set member states by their numeric code. */
  const States: seq<string> :=
    ["STARTUP", "PRIMARY", "SECONDARY", "RECOVERING", "STARTUP2",
     "UNKNOWN", "ARBITER", "DOWN", "ROLLBACK", "REMOVED"]

  /** `state_string_from_status(status)`: the name of the `myState` code, indexed
      as Python does. A missing `myState` raises InstanceStateNotFound; a code
      outside -10..9 raises IndexError, which the function lets through. */
  function StateStringFromStatus(status: StatusDocument): (r: Result<string, Error>)
    ensures status.myState.None? ==> r == Failure(InstanceStateNotFound)
    ensures r.Success? <==> status.myState.Some? && -|States| <= status.myState.value < |States|
    ensures r.Success? ==> r.value in States
    ensures status.myState.Some? && 0 <= status.myState.value < |States| ==>
              r == Success(States[status.myState.value])
    ensures r.Failure? && status.myState.Some? ==> r.error == IndexError
  {
    if status.myState.None? then Failure(InstanceStateNotFound)
    else PyIndex(States, status.myState.value)
  }

  /** The codes 1, 2 and 6 are the healthy states, and every code names a
      different state. */
  lemma StateCodes()
    ensures States[1] == "PRIMARY" && States[2] == "SECONDARY" && States[6] == "ARBITER"
    ensures forall j, k :: 0 <= j < k < |States| ==> States[j] != States[k]
  {
  }

  datatype NodeDetails = NodeDetails(nodeState: string, replicaSetName: string)

  /** `node_details(status)`: a reply whose `ok` is not 1 raises MongoRequestFailed;
      otherwise the node's state name and its replica-set name. */
  function NodeDetailsOf(status: StatusDocument): (r: Result<NodeDetails, Error>)
    ensures status.ok != 1 ==> r == Failure(MongoRequestFailed)
    ensures status.ok == 1 ==> (r.Success? <==> StateStringFromStatus(status).Success?)
    ensures status.ok == 1 && r.Failure? ==> r.error == StateStringFromStatus(status).error
    ensures r.Success? ==> r.value.nodeState in States && r.value.replicaSetName == status.setName
  {
    if status.ok != 1 then Failure(MongoRequestFailed)
    else
      var state :- StateStringFromStatus(status);
      Success(NodeDetails(state, status.setName))
  }

  /** The suffixes the cluster name drops: `_mongo(?:_[abc])?` at the end. */
  const MongoSuffixes: set<string> := {"_mongo", "_mongo_a", "_mongo_b", "_mongo_c"}

  /** `re.sub(r"_mongo(?:_[abc])?$", "", component)`: the component without a
      trailing `_mongo`, `_mongo_a`, `_mongo_b` or `_mongo_c`. */
  function StripMongoSuffix(component: string): (r: string)
    ensures StartsWith(component, r)
    ensures r == component || component[|r|..] in MongoSuffixes
    ensures r == component <==> forall sfx :: sfx in MongoSuffixes ==> !EndsWith(component, sfx)
  {
    if EndsWith(component, "_mongo_a") || EndsWith(component, "_mongo_b") || EndsWith(component, "_mongo_c") then
      component[..|component| - 8]
    else if EndsWith(component, "_mongo") then component[..|component| - 6]
    else component
  }

  /** Stripping gives back the base name whatever suffix was appended. */
  lemma StripMongoSuffixOf(base: string, sfx: string)
    requires sfx in MongoSuffixes
    ensures StripMongoSuffix(base + sfx) == base
  {
    var s := base + sfx;
    assert s[..|base|] == base;
    assert s[|s| - |sfx|..] == sfx;
    if sfx == "_mongo" {
      assert s[|s| - 1] == 'o';
      assert !EndsWith(s, "_mongo_a") && !EndsWith(s, "_mongo_b") && !EndsWith(s, "_mongo_c");
    }
  }

  /** The `Mongo` connector: the cluster name it derives from its component. */
  datatype Mongo = Mongo(clusterName: string)

  /** `Mongo(component)`. */
  function NewMongo(component: string): (m: Mongo)
    ensures m.clusterName == StripMongoSuffix(component)
  {
    Mongo(StripMongoSuffix(component))
  }

  /** The Vault role whose credentials the recycler uses. */
  function RolePath(m: Mongo): (path: string)
    ensures StartsWith(path, "database/creds/autorecycle_")
    ensures path[|"database/creds/autorecycle_"|..] == m.clusterName
  {
    "database/creds/autorecycle_" + m.clusterName
  }

  /** One attempt of `_connect(connection_string)`: fetch credentials from Vault,
      open a client with them, and run `replSetGetStatus`; it stops at the first
      call that raises. */
  function ConnectAttempt(env: Env, m: Mongo, connection: string, h: History): (r: Run<()>)
    ensures 1 <= |r.calls| <= 3
    ensures r.calls[0] == FetchCredentials(RolePath(m))
    ensures |r.calls| >= 2 ==> r.calls[1].OpenClient? && r.calls[1].connection == connection
    ensures |r.calls| == 3 ==> r.calls[2] == RunAdminCommand(connection, ReplSetGetStatus)
    ensures r.result.Success? ==> |r.calls| == 3
  {
    var fetch := FetchCredentials(RolePath(m));
    var creds := env.credentials(h + [fetch]);
    if creds.Failure? then Run([fetch], Failure(creds.error))
    else
      var openCall := OpenClient(connection, creds.value.username);
      var client := env.openClient(h + [fetch, openCall]);
      if client.Failure? then Run([fetch, openCall], Failure(client.error))
      else
        var command := RunAdminCommand(connection, ReplSetGetStatus);
        var reply := env.adminCommand(h + [fetch, openCall, command]);
        Run([fetch, openCall, command], if reply.Failure? then Failure(reply.error) else Success(()))
  }

  /** `_connect(connection_string)`: up to 10 attempts; when all fail, the last
      attempt's own error is raised. */
  function ConnectRetried(env: Env, m: Mongo, connection: string, h: History): (r: Retried<()>)
    ensures 1 <= r.attempts <= 10
    ensures r.result.Failure? ==>
              r.attempts == 10 && r.lastStart <= |r.calls| &&
              r.result == ConnectAttempt(env, m, connection, h + r.calls[..r.lastStart]).result
    ensures ConnectAttempt(env, m, connection, h).result.Success? ==>
              r.attempts == 1 && r.result.Success? && r.calls == ConnectAttempt(env, m, connection, h).calls
  {
    Retry((g: History) => ConnectAttempt(env, m, connection, g), h, 10, true)
  }

  function Connect(env: Env, m: Mongo, connection: string, h: History): Run<()> {
    var r := ConnectRetried(env, m, connection, h);
    Run(r.calls, r.result)
  }

  /** A connection whose attempts all fail is tried exactly 10 times. */
  lemma ConnectGivesUp(env: Env, m: Mongo, connection: string, h: History)
    requires forall g :: ConnectAttempt(env, m, connection, g).result.Failure?
    ensures ConnectRetried(env, m, connection, h).attempts == 10
    ensures ConnectRetried(env, m, connection, h).result.Failure?
  {
    RetryAllFail((g: History) => ConnectAttempt(env, m, connection, g), h, 10, true);
  }

  /** `replica_set_status(connection_string)`: connect, then `replSetGetStatus`. */
  function ReplicaSetStatus(env: Env, m: Mongo, connection: string, h: History): (r: Run<StatusDocument>)
    ensures var c := Connect(env, m, connection, h);
      if c.result.Failure? then r == Run(c.calls, Failure(c.result.error))
      else r.calls == c.calls + [RunAdminCommand(connection, ReplSetGetStatus)] &&
           r.result == env.adminCommand(h + c.calls + [RunAdminCommand(connection, ReplSetGetStatus)])
    ensures r.result.Success? ==> Connect(env, m, connection, h).result.Success?
  {
    var c := Connect(env, m, connection, h);
    if c.result.Failure? then Run(c.calls, Failure(c.result.error))
    else
      var command := RunAdminCommand(connection, ReplSetGetStatus);
      Run(c.calls + [command], env.adminCommand(h + c.calls + [command]))
  }

  /** `get_node_details(ip_address)`: the node's own status, read by `node_details`. */
  function GetNodeDetails(env: Env, m: Mongo, ipAddress: string, h: History): (r: Run<NodeDetails>)
    ensures r.calls == ReplicaSetStatus(env, m, ipAddress, h).calls
    ensures var s := ReplicaSetStatus(env, m, ipAddress, h).result;
      r.result == if s.Failure? then Failure(s.error) else NodeDetailsOf(s.value)
  {
    var s := ReplicaSetStatus(env, m, ipAddress, h);
    Run(s.calls, if s.result.Failure? then Failure(s.result.error) else NodeDetailsOf(s.result.value))
  }

  /** `step_down(ip_address)`: connect, then `replSetStepDown` for 100 seconds; an
      AutoReconnect from the command (the primary dropping its connections) counts as
      success, every other error propagates. */
  function StepDown(env: Env, m: Mongo, ipAddress: string, h: History): (r: Run<()>)
    ensures var c := Connect(env, m, ipAddress, h);
      c.result.Failure? ==> r == Run(c.calls, Failure(c.result.error))
    ensures var c := Connect(env, m, ipAddress, h);
      c.result.Success? ==>
        var command := RunAdminCommand(ipAddress, ReplSetStepDown(100));
        var reply := env.adminCommand(h + c.calls + [command]);
        r.calls == c.calls + [command] &&
        (r.result.Failure? <==> reply.Failure? && !reply.error.AutoReconnect?) &&
        (r.result.Failure? ==> r.result.error == reply.error)
  {
    var c := Connect(env, m, ipAddress, h);
    if c.result.Failure? then Run(c.calls, Failure(c.result.error))
    else
      var command := RunAdminCommand(ipAddress, ReplSetStepDown(100));
      var reply := env.adminCommand(h + c.calls + [command]);
      Run(c.calls + [command], if reply.Failure? && !reply.error.AutoReconnect? then Failure(reply.error) else Success(()))
  }
}
