/** `get_consul_nodes/main.py`: list the Consul control-plane members as
    `{ip, instanceId}` pairs with the leader last, so that onward processing
    recycles the leader after the followers. The Consul HTTP API, EC2 and SSM
    are oracle values; a failure carries the text of the exception. */
module ConsulNodes {
  import opened Wrappers
  import opened Strs
  import opened Seqs

  /** An outbound request. */
  datatype ConsulCall = UrlOpen(url: string) | DescribeInstances(ips: seq<string>) | GetParameter(name: string)

  /** The module-level `CaCertificate`: the temporary file holding the CA
      certificate stored in SSM under `certParameterArn`, fetched on first use.
      `certPath` is `_cert_path`. */
  class CaCertificate {
    var certPath: Option<string>
    const certParameterArn: Option<string>

    constructor (arn: Option<string>)
      ensures certPath == None && certParameterArn == arn
    {
      certPath := None;
      certParameterArn := arn;
    }

    /** A non-empty ARN is configured. */
    predicate Configured() {
      certParameterArn.Some? && certParameterArn.value != ""
    }

    /** The `cert_path` property: consult SSM only when nothing is cached and an
        ARN is configured. `parameter` is what `get_parameter` returns and
        `fileName` the name of the temporary file the content is written to. */
    method CertPath(parameter: Result<string, string>, fileName: string)
      returns (calls: seq<ConsulCall>, r: Result<Option<string>, string>)
      modifies this
      ensures old(certPath).Some? || !Configured() ==>
                calls == [] && certPath == old(certPath) && r == Success(certPath)
      ensures old(certPath).None? && Configured() ==>
                calls == [GetParameter(certParameterArn.value)] &&
                (parameter.Success? ==> certPath == Some(fileName) && r == Success(certPath)) &&
                (parameter.Failure? ==> certPath == None && r == Failure(parameter.error))
    {
      calls := [];
      if certPath.None? && Configured() {
        calls := [GetParameter(certParameterArn.value)];
        if parameter.Failure? {
          return calls, Failure(parameter.error);
        }
        certPath := Some(fileName);
      }
      r := Success(certPath);
    }
  }

  /** Python's `str` of an optional string: None prints as "None". */
  function PyStr(s: Option<string>): string {
    if s.Some? then s.value else "None"
  }

  /** `get_consul_host(event)`: the cluster defaults to the environment. */
  function ConsulHost(cluster: Option<string>, environment: Option<string>): (host: string)
    ensures StartsWith(host, "https://consul-") && EndsWith(host, ".mdtp:8501")
    ensures cluster.None? ==> host == "https://consul-" + PyStr(environment) + "." + PyStr(environment) + ".mdtp:8501"
    ensures cluster.Some? ==> host == "https://consul-" + cluster.value + "." + PyStr(environment) + ".mdtp:8501"
  {
    var c := if cluster.Some? then cluster.value else PyStr(environment);
    var host := "https://consul-" + c + "." + PyStr(environment) + ".mdtp:8501";
    assert host == "https://consul-" + (c + "." + PyStr(environment) + ".mdtp:8501");
    host
  }

  /** The address of the leader in the `/v1/status/leader` answer: white space
      and then quotes stripped, and the port cut off at the first `:`. */
  function LeaderAddress(body: string): (leader: string)
    ensures ':' !in leader
  {
    var stripped := Strip(Strip(body, Whitespace), {'"'});
    BeforeFirstExcludes(stripped, ':');
    BeforeFirst(stripped, [':'])
  }

  /** A quoted `address:port` answer gives the address. */
  lemma LeaderOfQuotedAnswer(address: string, port: string)
    requires ':' !in address && address != [] && address[0] != '"'
    requires port != [] && port[|port| - 1] != '"'
    ensures LeaderAddress("\"" + address + ":" + port + "\"") == address
  {
    var inner := address + ":" + port;
    var body := "\"" + inner + "\"";
    assert body == "\"" + address + ":" + port + "\"";
    StripKeeps(body, Whitespace);
    StripQuotes(inner);
    BeforeFirstAt(address, ":", port);
  }

  lemma StripKeeps(s: string, chars: set<char>)
    requires s != [] && s[0] !in chars && s[|s| - 1] !in chars
    ensures Strip(s, chars) == s
  {
    assert StripLeft(s, chars) == s;
  }

  lemma StripQuotes(inner: string)
    requires inner != [] && inner[0] != '"' && inner[|inner| - 1] != '"'
    ensures Strip("\"" + inner + "\"", {'"'}) == inner
  {
    var body := "\"" + inner + "\"";
    var tail := inner + "\"";
    assert body[1..] == tail && tail[..|inner|] == inner;
    StripLeftOne(body, {'"'});
    StripRightOne(tail, {'"'});
  }

  /** `sorted(addrs, key=lambda a: a == leader)`: the members other than the
      leader first, then the leader's entries, each part in its original order
      (Python's sort is stable). */
  function LeaderLast(addrs: seq<string>, leader: string): (r: seq<string>)
  {
    Filter(addrs, a => a != leader) + Filter(addrs, a => a == leader)
  }

  /** Sorting keeps every member, puts every leader entry after every other
      member, and keeps the relative order within each group. */
  lemma LeaderLastSorts(addrs: seq<string>, leader: string)
    ensures var r := LeaderLast(addrs, leader);
      multiset(r) == multiset(addrs) &&
      (forall i, j :: 0 <= i < j < |r| && r[i] == leader ==> r[j] == leader) &&
      Filter(r, a => a != leader) == Filter(addrs, a => a != leader) &&
      Filter(r, a => a == leader) == Filter(addrs, a => a == leader)
  {
    LeaderLastPermutes(addrs, leader);
    LeaderLastOrders(addrs, leader);
    LeaderLastStable(addrs, leader);
  }

  /** Sorting keeps every member as often as it occurs. */
  lemma LeaderLastPermutes(addrs: seq<string>, leader: string)
    ensures multiset(LeaderLast(addrs, leader)) == multiset(addrs)
  {
    var notLeader := (a: string) => a != leader;
    var isLeader := (a: string) => a == leader;
    var r := LeaderLast(addrs, leader);
    forall x ensures multiset(r)[x] == multiset(addrs)[x] {
      FilterMultiplicity(addrs, notLeader, x);
      FilterMultiplicity(addrs, isLeader, x);
    }
  }

  /** No member other than the leader comes after a leader entry. */
  lemma LeaderLastOrders(addrs: seq<string>, leader: string)
    ensures var r := LeaderLast(addrs, leader);
      forall i, j :: 0 <= i < j < |r| && r[i] == leader ==> r[j] == leader
  {
    var front := Filter(addrs, a => a != leader);
    var back := Filter(addrs, a => a == leader);
    var r := front + back;
    forall i, j | 0 <= i < j < |r| && r[i] == leader ensures r[j] == leader {
      assert r[j] == back[j - |front|];
    }
  }

  /** The sort is stable: the followers keep their order, and so do the
      leader's entries. */
  lemma LeaderLastStable(addrs: seq<string>, leader: string)
    ensures var r := LeaderLast(addrs, leader);
      Filter(r, a => a != leader) == Filter(addrs, a => a != leader) &&
      Filter(r, a => a == leader) == Filter(addrs, a => a == leader)
  {
    var notLeader := (a: string) => a != leader;
    var isLeader := (a: string) => a == leader;
    var front := Filter(addrs, notLeader);
    var back := Filter(addrs, isLeader);
    FilterAll(front, notLeader);
    FilterAll(back, isLeader);
    FilterNone(back, notLeader);
    FilterNone(front, isLeader);
    FilterConcat(front, back, notLeader);
    FilterConcat(front, back, isLeader);
    assert back + [] == back && [] + front == front;
  }

  /** A member of `/v1/agent/members`; `Addr` may be missing. */
  datatype Member = Member(addr: Option<string>)

  /** `[m["Addr"] for m in members]`, or the KeyError of the first member
      without an address. */
  function Addresses(members: seq<Member>): (r: Result<seq<string>, string>)
    ensures r.Success? <==> forall k :: 0 <= k < |members| ==> members[k].addr.Some?
    ensures r.Success? ==> |r.value| == |members| &&
                           forall k :: 0 <= k < |members| ==> r.value[k] == members[k].addr.value
    ensures r.Failure? ==> r.error == "'Addr'"
    decreases |members|
  {
    if members == [] then Success([])
    else if members[0].addr.None? then Failure("'Addr'")
    else
      var rest := Addresses(members[1..]);
      if rest.Failure? then rest
      else
        assert forall k :: 1 <= k < |members| ==> members[k] == members[1..][k - 1];
        Success([members[0].addr.value] + rest.value)
  }

  datatype Interface = Interface(privateIpAddress: Option<string>)
  /** An EC2 instance; a missing `NetworkInterfaces` entry is an empty list. */
  datatype Ec2Instance = Ec2Instance(instanceId: string, interfaces: seq<Interface>)
  datatype Reservation = Reservation(instances: seq<Ec2Instance>)

  /** One interface met by the nested loops: its address and its instance. */
  datatype Link = Link(ip: Option<string>, instanceId: string)

  function InterfaceLinks(inst: Ec2Instance, ifaces: seq<Interface>): (r: seq<Link>)
    ensures |r| == |ifaces|
  {
    seq(|ifaces|, k requires 0 <= k < |ifaces| => Link(ifaces[k].privateIpAddress, inst.instanceId))
  }

  /** The interfaces of `insts`, in loop order. */
  function InstanceLinks(insts: seq<Ec2Instance>): seq<Link>
    decreases |insts|
  {
    if insts == [] then []
    else InstanceLinks(insts[..|insts| - 1]) + InterfaceLinks(insts[|insts| - 1], insts[|insts| - 1].interfaces)
  }

  /** The interfaces of every reservation, in loop order. */
  function Links(res: seq<Reservation>): seq<Link>
    decreases |res|
  {
    if res == [] then []
    else Links(res[..|res| - 1]) + InstanceLinks(res[|res| - 1].instances)
  }

  /** One pass of the innermost loop body. */
  function Record(m: map<string, string>, l: Link, ipList: seq<string>): map<string, string> {
    if l.ip.Some? && l.ip.value in ipList then m[l.ip.value := l.instanceId] else m
  }

  /** `instance_map` after the loops have met `links`, starting from `m`. */
  function Fold(m: map<string, string>, links: seq<Link>, ipList: seq<string>): map<string, string>
    decreases |links|
  {
    if links == [] then m
    else Record(Fold(m, links[..|links| - 1], ipList), links[|links| - 1], ipList)
  }

  lemma {:induction false} FoldAppend(m: map<string, string>, a: seq<Link>, b: seq<Link>, ipList: seq<string>)
    ensures Fold(m, a + b, ipList) == Fold(Fold(m, a, ipList), b, ipList)
    decreases |b|
  {
    if b == [] {
      assert a + b == a;
    } else {
      FoldAppend(m, a, b[..|b| - 1], ipList);
      assert (a + b)[..|a + b| - 1] == a + b[..|b| - 1];
    }
  }

  /** Some interface among `links` has address `ip`. */
  predicate HasAddress(links: seq<Link>, ip: string) {
    exists k :: 0 <= k < |links| && links[k].ip == Some(ip)
  }

  /** `links[k]` is the last interface with address `ip`, on instance `id`. */
  predicate LastWith(links: seq<Link>, ip: string, id: string, k: int) {
    0 <= k < |links| && links[k] == Link(Some(ip), id) &&
    forall k' :: k < k' < |links| ==> links[k'].ip != Some(ip)
  }

  lemma FoldSnoc(m: map<string, string>, links: seq<Link>, l: Link, ipList: seq<string>)
    ensures Fold(m, links + [l], ipList) == Record(Fold(m, links, ipList), l, ipList)
  {
    assert (links + [l])[..|links|] == links;
  }

  /** The map holds exactly the listed addresses some interface has. */
  lemma {:induction false} FoldKeys(links: seq<Link>, ipList: seq<string>)
    ensures forall ip :: ip in Fold(map[], links, ipList) <==> ip in ipList && HasAddress(links, ip)
    decreases |links|
  {
    if links != [] {
      var init := links[..|links| - 1];
      var last := links[|links| - 1];
      FoldKeys(init, ipList);
      forall ip ensures HasAddress(links, ip) <==> HasAddress(init, ip) || last.ip == Some(ip) {
        if HasAddress(init, ip) {
          var k :| 0 <= k < |init| && init[k].ip == Some(ip);
          assert links[k].ip == Some(ip);
        }
        if HasAddress(links, ip) && last.ip != Some(ip) {
          var k :| 0 <= k < |links| && links[k].ip == Some(ip);
          assert init[k].ip == Some(ip);
        }
        if last.ip == Some(ip) {
          assert links[|links| - 1].ip == Some(ip);
        }
      }
    }
  }

  /** Each address in `m` is mapped to the instance of the last interface of
      `links` with that address. */
  predicate KeepsLast(links: seq<Link>, m: map<string, string>) {
    forall ip :: ip in m ==> exists k :: 0 <= k < |links| && LastWith(links, ip, m[ip], k)
  }

  lemma {:induction false} FoldKeepsLast(links: seq<Link>, ipList: seq<string>)
    ensures KeepsLast(links, Fold(map[], links, ipList))
    decreases |links|
  {
    if links != [] {
      var init := links[..|links| - 1];
      var last := links[|links| - 1];
      FoldKeepsLast(init, ipList);
      FoldKeys(links, ipList);
      var m0 := Fold(map[], init, ipList);
      var m := Fold(map[], links, ipList);
      forall ip | ip in m ensures exists k :: LastWith(links, ip, m[ip], k) {
        if last.ip == Some(ip) && ip in ipList {
          assert LastWith(links, ip, m[ip], |links| - 1);
        } else {
          assert ip in ipList;
          assert last.ip != Some(ip);
          assert ip in m0 && m0[ip] == m[ip];
          assert KeepsLast(init, m0);
          var k :| 0 <= k < |init| && LastWith(init, ip, m0[ip], k);
          LastWithExtends(init, last, ip, m0[ip], k);
          assert init + [last] == links;
        }
      }
    }
  }

  lemma LastWithExtends(links: seq<Link>, l: Link, ip: string, id: string, k: int)
    requires LastWith(links, ip, id, k) && l.ip != Some(ip)
    ensures LastWith(links + [l], ip, id, k)
  {
  }

  lemma InterfaceLinksSnoc(inst: Ec2Instance, ifaces: seq<Interface>, k: nat)
    requires k < |ifaces|
    ensures InterfaceLinks(inst, ifaces[..k + 1]) ==
              InterfaceLinks(inst, ifaces[..k]) + [Link(ifaces[k].privateIpAddress, inst.instanceId)]
  {
  }

  lemma InstanceLinksSnoc(insts: seq<Ec2Instance>, j: nat)
    requires j < |insts|
    ensures InstanceLinks(insts[..j + 1]) == InstanceLinks(insts[..j]) + InterfaceLinks(insts[j], insts[j].interfaces)
  {
    assert insts[..j + 1][..j] == insts[..j];
  }

  lemma LinksSnoc(res: seq<Reservation>, i: nat)
    requires i < |res|
    ensures Links(res[..i + 1]) == Links(res[..i]) + InstanceLinks(res[i].instances)
  {
    assert res[..i + 1][..i] == res[..i];
  }

  /** The nested loops that fill `instance_map`. */
  method BuildInstanceMap(res: seq<Reservation>, ipList: seq<string>) returns (m: map<string, string>)
    ensures m == Fold(map[], Links(res), ipList)
  {
    m := map[];
    var i := 0;
    while i < |res|
      invariant 0 <= i <= |res|
      invariant m == Fold(map[], Links(res[..i]), ipList)
    {
      ghost var mi := m;
      var insts := res[i].instances;
      var j := 0;
      while j < |insts|
        invariant 0 <= j <= |insts|
        invariant m == Fold(mi, InstanceLinks(insts[..j]), ipList)
      {
        ghost var mj := m;
        var inst := insts[j];
        var k := 0;
        while k < |inst.interfaces|
          invariant 0 <= k <= |inst.interfaces|
          invariant m == Fold(mj, InterfaceLinks(inst, inst.interfaces[..k]), ipList)
        {
          var ip := inst.interfaces[k].privateIpAddress;
          InterfaceLinksSnoc(inst, inst.interfaces, k);
          FoldSnoc(mj, InterfaceLinks(inst, inst.interfaces[..k]), Link(ip, inst.instanceId), ipList);
          if ip.Some? && ip.value in ipList {
            m := m[ip.value := inst.instanceId];
          }
          k := k + 1;
        }
        assert inst.interfaces[..k] == inst.interfaces;
        InstanceLinksSnoc(insts, j);
        FoldAppend(mi, InstanceLinks(insts[..j]), InterfaceLinks(inst, inst.interfaces), ipList);
        j := j + 1;
      }
      assert insts[..j] == insts;
      LinksSnoc(res, i);
      FoldAppend(map[], Links(res[..i]), InstanceLinks(insts), ipList);
      i := i + 1;
    }
    assert res[..i] == res;
  }

  /** An entry of the output list. */
  datatype Node = Node(ip: string, instanceId: string)

  /** `[{"ip": ip, "instanceId": m[ip]} for ip in ip_list if ip in m]`. */
  function NodeList(ipList: seq<string>, m: map<string, string>): (r: seq<Node>)
    ensures |r| <= |ipList|
    ensures forall k :: 0 <= k < |r| ==> r[k].ip in m && m[r[k].ip] == r[k].instanceId
    decreases |ipList|
  {
    if ipList == [] then []
    else if ipList[0] in m then [Node(ipList[0], m[ipList[0]])] + NodeList(ipList[1..], m)
    else NodeList(ipList[1..], m)
  }

  /** The output keeps exactly the addresses found by EC2, in their order in
      the address list. */
  lemma {:induction false} NodeListOrder(ipList: seq<string>, m: map<string, string>)
    ensures var r := NodeList(ipList, m);
      seq(|r|, k requires 0 <= k < |r| => r[k].ip) == Filter(ipList, ip => ip in m)
    decreases |ipList|
  {
    if ipList != [] {
      NodeListOrder(ipList[1..], m);
    }
  }

  /** The answers of the services: the two Consul calls, EC2, and SSM with the
      temporary file it is written to. */
  datatype ConsulEnv = ConsulEnv(leaderBody: Result<string, string>, members: Result<seq<Member>, string>,
                                 describe: seq<string> -> Result<seq<Reservation>, string>,
                                 certParameter: Result<string, string>, certFile: string)

  /** The event entries read: `cluster`. */
  datatype Event = Event(cluster: Option<string>)

  /** What the `try` block does: its calls, and the list or the exception. */
  datatype Fetched = Fetched(calls: seq<ConsulCall>, result: Result<seq<Node>, string>)

  const FailurePrefix := "Get Consul Nodes Failed: "

  /** The body of the `try` block of `lambda_handler`, against `host`. */
  function Nodes(env: ConsulEnv, host: string): (f: Fetched)
    ensures f.result.Failure? ==> StartsWith(f.result.error, FailurePrefix)
  {
    var leaderCall := UrlOpen(host + "/v1/status/leader");
    if env.leaderBody.Failure? then Fetched([leaderCall], Failure(FailurePrefix + env.leaderBody.error))
    else
      var leader := LeaderAddress(env.leaderBody.value);
      var calls := [leaderCall, UrlOpen(host + "/v1/agent/members")];
      if env.members.Failure? then Fetched(calls, Failure(FailurePrefix + env.members.error))
      else
        var addrs := Addresses(env.members.value);
        if addrs.Failure? then Fetched(calls, Failure(FailurePrefix + addrs.error))
        else
          var ipList := LeaderLast(addrs.value, leader);
          if ipList == [] then Fetched(calls, Success(NodeList(ipList, map[])))
          else
            var reply := env.describe(ipList);
            var calls' := calls + [DescribeInstances(ipList)];
            if reply.Failure? then Fetched(calls', Failure(FailurePrefix + reply.error))
            else Fetched(calls', Success(NodeList(ipList, Fold(map[], Links(reply.value), ipList))))
  }

  /** The list holds the members EC2 knows, followers first and the leader
      last, each with the instance whose interface carries its address, and
      EC2 is asked only when there are members. */
  lemma NodesOrdered(env: ConsulEnv, host: string)
    requires Nodes(env, host).result.Success?
    ensures env.leaderBody.Success? && env.members.Success? && Addresses(env.members.value).Success?
    ensures var leader := LeaderAddress(env.leaderBody.value);
      var ipList := LeaderLast(Addresses(env.members.value).value, leader);
      var f := Nodes(env, host);
      (ipList == [] <==> |f.calls| == 2) &&
      (ipList == [] ==> f.result.value == []) &&
      (ipList != [] ==>
         f.calls[2] == DescribeInstances(ipList) &&
         var m := Fold(map[], Links(env.describe(ipList).value), ipList);
         var r := f.result.value;
         seq(|r|, k requires 0 <= k < |r| => r[k].ip) == Filter(ipList, ip => ip in m))
  {
    var leader := LeaderAddress(env.leaderBody.value);
    var ipList := LeaderLast(Addresses(env.members.value).value, leader);
    if ipList != [] {
      NodeListOrder(ipList, Fold(map[], Links(env.describe(ipList).value), ipList));
    }
  }

  /** The `try` block of `lambda_handler`. */
  method FetchNodes(env: ConsulEnv, host: string) returns (calls: seq<ConsulCall>, r: Result<seq<Node>, string>)
    ensures calls == Nodes(env, host).calls && r == Nodes(env, host).result
  {
    var leaderCall := UrlOpen(host + "/v1/status/leader");
    if env.leaderBody.Failure? {
      return [leaderCall], Failure(FailurePrefix + env.leaderBody.error);
    }
    var leader := LeaderAddress(env.leaderBody.value);
    calls := [leaderCall, UrlOpen(host + "/v1/agent/members")];
    if env.members.Failure? {
      return calls, Failure(FailurePrefix + env.members.error);
    }
    var addrs := Addresses(env.members.value);
    if addrs.Failure? {
      return calls, Failure(FailurePrefix + addrs.error);
    }
    var ipList := LeaderLast(addrs.value, leader);
    var instanceMap := map[];
    if ipList != [] {
      var reply := env.describe(ipList);
      calls := calls + [DescribeInstances(ipList)];
      if reply.Failure? {
        return calls, Failure(FailurePrefix + reply.error);
      }
      instanceMap := BuildInstanceMap(reply.value, ipList);
    }
    r := Success(NodeList(ipList, instanceMap));
  }

  /** `lambda_handler(event, context)` with the module-level certificate
      `cert`: the host and the SSL context are prepared outside the `try`, so a
      failure to fetch the certificate is not wrapped. */
  method LambdaHandler(cert: CaCertificate, env: ConsulEnv, e: Event, environment: Option<string>)
    returns (calls: seq<ConsulCall>, r: Result<seq<Node>, string>)
    modifies cert
    ensures var host := ConsulHost(e.cluster, environment);
      old(cert.certPath).Some? || !cert.Configured() ==>
        calls == Nodes(env, host).calls && r == Nodes(env, host).result && cert.certPath == old(cert.certPath)
    ensures var host := ConsulHost(e.cluster, environment);
      old(cert.certPath).None? && cert.Configured() ==>
        |calls| >= 1 && calls[0] == GetParameter(cert.certParameterArn.value) &&
        (env.certParameter.Failure? ==> calls == [calls[0]] && r == Failure(env.certParameter.error)) &&
        (env.certParameter.Success? ==>
           calls == [calls[0]] + Nodes(env, host).calls && r == Nodes(env, host).result &&
           cert.certPath == Some(env.certFile))
  {
    var host := ConsulHost(e.cluster, environment);
    var certCalls, path := cert.CertPath(env.certParameter, env.certFile);
    if path.Failure? {
      return certCalls, Failure(path.error);
    }
    var nodeCalls;
    nodeCalls, r := FetchNodes(env, host);
    calls := certCalls + nodeCalls;
  }
}
