/** `check_consul_health/main.py`: the Consul cluster is healthy when it has a
    leader and the expected number of peers. The file repeats the certificate
    cache and the host formula of `get_consul_nodes/main.py`, which this module
    reuses from ConsulNodes. */
module ConsulHealth {
  import opened Wrappers
  import opened Strs
  import opened ConsulNodes

  /** The event entries read: `cluster` and `expectedPeers`. */
  datatype Event = Event(cluster: Option<string>, expectedPeers: Option<int>)

  /** `event.get("expectedPeers", 3)`. */
  function ExpectedPeers(e: Event): int {
    if e.expectedPeers.Some? then e.expectedPeers.value else 3
  }

  /** The answers of Consul (the leader text and the decoded peer list) and of
      SSM. */
  datatype HealthEnv = HealthEnv(leaderBody: Result<string, string>, peers: Result<seq<string>, string>,
                                 certParameter: Result<string, string>, certFile: string)

  /** The response of a healthy cluster. */
  datatype Response = Response(statusCode: int, body: string)

  datatype Checked = Checked(calls: seq<ConsulCall>, result: Result<Response, string>)

  const FailurePrefix := "Cluster health check failed: "

  /** `leader = res.read().decode().strip().strip('"')`. */
  function LeaderText(body: string): string {
    Strip(Strip(body, Whitespace), {'"'})
  }

  /** `f"{n} peers found, expected {e}"`. */
  function PeerCountMessage(found: nat, expected: int): string {
    NatToString(found) + " peers found, expected " + IntToString(expected)
  }

  /** The body of the `try` block of `lambda_handler`, against `host`. */
  function Check(env: HealthEnv, host: string, expected: int): (c: Checked)
    ensures c.result.Failure? ==> StartsWith(c.result.error, FailurePrefix)
    ensures c.result.Success? ==> c.result.value.statusCode == 200
    ensures c.result.Success? ==> env.leaderBody.Success? && env.peers.Success? && |env.peers.value| == expected
  {
    var leaderCall := UrlOpen(host + "/v1/status/leader");
    if env.leaderBody.Failure? then Checked([leaderCall], Failure(FailurePrefix + env.leaderBody.error))
    else
      var leader := LeaderText(env.leaderBody.value);
      if leader == "" then Checked([leaderCall], Failure(FailurePrefix + "No leader found"))
      else
        var calls := [leaderCall, UrlOpen(host + "/v1/status/peers")];
        if env.peers.Failure? then Checked(calls, Failure(FailurePrefix + env.peers.error))
        else if |env.peers.value| != expected then
          Checked(calls, Failure(FailurePrefix + PeerCountMessage(|env.peers.value|, expected)))
        else
          Checked(calls, Success(Response(200, "Cluster healthy with leader " + leader + " and " +
                                               NatToString(|env.peers.value|) + " peers")))
  }

  /** Given answers from Consul, the cluster is reported healthy exactly when
      it has a leader and the expected number of peers, and the peers are asked
      for only once a leader is known. */
  lemma CheckHealthyIff(env: HealthEnv, host: string, expected: int)
    requires env.leaderBody.Success? && env.peers.Success?
    ensures var c := Check(env, host, expected);
      (c.result.Success? <==> LeaderText(env.leaderBody.value) != "" && |env.peers.value| == expected) &&
      (|c.calls| == 2 <==> LeaderText(env.leaderBody.value) != "")
  {
  }

  /** A healthy report names the leader and the peer count. */
  lemma CheckReportsLeader(env: HealthEnv, host: string, expected: int)
    requires Check(env, host, expected).result.Success?
    ensures var body := Check(env, host, expected).result.value.body;
      var leader := LeaderText(env.leaderBody.value);
      StartsWith(body, "Cluster healthy with leader " + leader + " and ") &&
      EndsWith(body, NatToString(expected) + " peers")
  {
    var leader := LeaderText(env.leaderBody.value);
    var body := Check(env, host, expected).result.value.body;
    var head := "Cluster healthy with leader " + leader + " and ";
    assert body == head + (NatToString(|env.peers.value|) + " peers");
  }

  /** The `try` block of `lambda_handler`. */
  method CheckCluster(env: HealthEnv, host: string, expected: int) returns (calls: seq<ConsulCall>, r: Result<Response, string>)
    ensures calls == Check(env, host, expected).calls && r == Check(env, host, expected).result
  {
    var leaderCall := UrlOpen(host + "/v1/status/leader");
    calls := [leaderCall];
    if env.leaderBody.Failure? {
      return calls, Failure(FailurePrefix + env.leaderBody.error);
    }
    var leader := LeaderText(env.leaderBody.value);
    if leader == "" {
      return calls, Failure(FailurePrefix + "No leader found");
    }
    calls := calls + [UrlOpen(host + "/v1/status/peers")];
    if env.peers.Failure? {
      return calls, Failure(FailurePrefix + env.peers.error);
    }
    var peers := env.peers.value;
    if |peers| != expected {
      return calls, Failure(FailurePrefix + PeerCountMessage(|peers|, expected));
    }
    r := Success(Response(200, "Cluster healthy with leader " + leader + " and " + NatToString(|peers|) + " peers"));
  }

  /** `lambda_handler(event, context)` with the module-level certificate
      `cert`; a failure to fetch the certificate happens outside the `try` and
      is not wrapped. */
  method LambdaHandler(cert: CaCertificate, env: HealthEnv, e: Event, environment: Option<string>)
    returns (calls: seq<ConsulCall>, r: Result<Response, string>)
    modifies cert
    ensures var c := Check(env, ConsulHost(e.cluster, environment), ExpectedPeers(e));
      old(cert.certPath).Some? || !cert.Configured() ==>
        calls == c.calls && r == c.result && cert.certPath == old(cert.certPath)
    ensures var c := Check(env, ConsulHost(e.cluster, environment), ExpectedPeers(e));
      old(cert.certPath).None? && cert.Configured() ==>
        |calls| >= 1 && calls[0] == GetParameter(cert.certParameterArn.value) &&
        (env.certParameter.Failure? ==> calls == [calls[0]] && r == Failure(env.certParameter.error)) &&
        (env.certParameter.Success? ==>
           calls == [calls[0]] + c.calls && r == c.result && cert.certPath == Some(env.certFile))
  {
    var host := ConsulHost(e.cluster, environment);
    var expected := ExpectedPeers(e);
    var certCalls, path := cert.CertPath(env.certParameter, env.certFile);
    if path.Failure? {
      return certCalls, Failure(path.error);
    }
    var checkCalls;
    checkCalls, r := CheckCluster(env, host, expected);
    calls := certCalls + checkCalls;
  }
}
