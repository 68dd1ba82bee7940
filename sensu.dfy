/** `connectors/sensu.py`: silencing the replica-set health checks of a
    component in Sensu, the warning check first and the critical check second.
    Each silence is one HTTP POST under a retry of at most 8 attempts. */
module SensuConnector {
  import opened Wrappers
  import opened Strs
  import opened MongoWorld
  import opened MongoConnector

  datatype CheckType = Warning | Critical

  function CheckTypeName(t: CheckType): (name: string)
    ensures |name| > 0
  {
    match t
    case Warning => "warning"
    case Critical => "critical"
  }

  const CheckPrefix := "infra_check_mongo_replica_set_health_"
  const CheckSuffix := "_aggregates"

  /** The name of the check of type `t` for `component`: the prefix, the
      component without its Mongo suffix, the check type, and `_aggregates`. */
  function FinalCheckName(component: string, t: CheckType): (name: string)
    ensures StartsWith(name, CheckPrefix)
    ensures EndsWith(name, "_" + CheckTypeName(t) + CheckSuffix)
    ensures |name| == |CheckPrefix| + |StripMongoSuffix(component)| + 1 + |CheckTypeName(t)| + |CheckSuffix|
    ensures name[|CheckPrefix|..|CheckPrefix| + |StripMongoSuffix(component)|] == StripMongoSuffix(component)
  {
    var base := StripMongoSuffix(component);
    var name := CheckPrefix + base + "_" + CheckTypeName(t) + CheckSuffix;
    assert name == CheckPrefix + base + ("_" + CheckTypeName(t) + CheckSuffix);
    name
  }

  /** A component named after a cluster, with or without a Mongo suffix, names
      that cluster's checks. */
  lemma CheckNameOfCluster(cluster: string, sfx: string, t: CheckType)
    requires sfx in MongoSuffixes
    ensures FinalCheckName(cluster + sfx, t) == CheckPrefix + cluster + "_" + CheckTypeName(t) + CheckSuffix
  {
    StripMongoSuffixOf(cluster, sfx);
  }

  /** The warning check and the critical check of a component are different
      checks. */
  lemma CheckNamesDiffer(component: string)
    ensures FinalCheckName(component, Warning) != FinalCheckName(component, Critical)
  {
    var w := FinalCheckName(component, Warning);
    var c := FinalCheckName(component, Critical);
    assert |w| != |c|;
  }

  /** A `requests` response is truthy unless its status is a client or server
      error. */
  predicate Truthy(status: int) {
    !(400 <= status < 600)
  }

  datatype LogLine = Info(message: string) | WarningLine(message: string)

  /** What `_post_to_sensu` returned (the response, or None for a falsy one) and
      what it logged. */
  datatype Posted = Posted(response: Option<int>, log: Option<LogLine>)

  /** The handling of a response with status `status`. */
  function Outcome(check: string, status: int): (p: Posted)
    ensures p.response.Some? <==> Truthy(status)
    ensures p.response.Some? ==> p.response.value == status
    ensures p.log.Some? <==> Truthy(status)
    ensures status == 201 ==> p.log == Some(Info("Sensu check silenced successfully: " + check))
    ensures Truthy(status) && status != 201 ==> p.log == Some(WarningLine("Sensu silencing failed for: " + check))
  {
    if Truthy(status) then
      if status == 201 then Posted(Some(status), Some(Info("Sensu check silenced successfully: " + check)))
      else Posted(Some(status), Some(WarningLine("Sensu silencing failed for: " + check)))
    else Posted(None, None)
  }

  /** One attempt of `_post_to_sensu`: a single POST of the payload
      `{"check": check, "expire": expire}`. */
  function PostAttempt(env: Env, check: string, expire: int): History -> Run<Posted> {
    (g: History) =>
      var call := PostSilence(check, expire);
      var status := env.sensuStatus(g + [call]);
      Run([call], if status.Failure? then Failure(status.error) else Success(Outcome(check, status.value)))
  }

  const SensuAttempts := 8

  /** `_post_to_sensu(payload, check)`, retried on any exception. */
  function PostToSensu(env: Env, check: string, expire: int, h: History): (r: Retried<Posted>)
    ensures 1 <= r.attempts <= SensuAttempts
    ensures r.result.Failure? ==> r.attempts == SensuAttempts && r.result == Failure(RetryError)
  {
    Retry(PostAttempt(env, check, expire), h, SensuAttempts, false)
  }

  /** Every call of a post is a POST of the same payload, one per attempt. */
  lemma {:induction false} PostsOnlyPayload(env: Env, check: string, expire: int, h: History, n: nat)
    requires 1 <= n
    ensures var r := Retry(PostAttempt(env, check, expire), h, n, false);
      |r.calls| == r.attempts && forall k :: 0 <= k < |r.calls| ==> r.calls[k] == PostSilence(check, expire)
    decreases n
  {
    var first := PostAttempt(env, check, expire)(h);
    if !(first.result.Success? || n == 1) {
      PostsOnlyPayload(env, check, expire, h + first.calls, n - 1);
      var rest := Retry(PostAttempt(env, check, expire), h + first.calls, n - 1, false);
      var calls := first.calls + rest.calls;
      forall k | 0 <= k < |calls| ensures calls[k] == PostSilence(check, expire) {
        if k >= 1 { assert calls[k] == rest.calls[k - 1]; }
      }
    }
  }

  /** A post whose every attempt raises is made eight times and then raises
      RetryError, not the last attempt's error. */
  lemma PostGivesUp(env: Env, check: string, expire: int, h: History)
    requires forall g :: env.sensuStatus(g).Failure?
    ensures var r := PostToSensu(env, check, expire, h);
      r.attempts == SensuAttempts && r.result == Failure(RetryError) && |r.calls| == SensuAttempts
  {
    var attempt := PostAttempt(env, check, expire);
    forall g ensures attempt(g).result.Failure? {
      assert env.sensuStatus(g + [PostSilence(check, expire)]).Failure?;
    }
    RetryAllFail(attempt, h, SensuAttempts, false);
    PostsOnlyPayload(env, check, expire, h, SensuAttempts);
  }

  /** Whatever the status of the first response, the post returns after that
      one attempt without raising. */
  lemma PostAnswered(env: Env, check: string, expire: int, h: History)
    requires env.sensuStatus(h + [PostSilence(check, expire)]).Success?
    ensures var status := env.sensuStatus(h + [PostSilence(check, expire)]).value;
      PostToSensu(env, check, expire, h) ==
        Retried([PostSilence(check, expire)], 1, 0, Success(Outcome(check, status)))
  {
  }

  /** `_silence_sensu_alert_type(component, duration_seconds, check_type)`. */
  function SilenceAlertType(env: Env, component: string, durationSeconds: int, t: CheckType, h: History): (r: Run<Posted>)
    ensures var p := PostToSensu(env, FinalCheckName(component, t), durationSeconds, h);
      r.calls == p.calls && r.result == p.result
  {
    var p := PostToSensu(env, FinalCheckName(component, t), durationSeconds, h);
    Run(p.calls, p.result)
  }

  /** `silence_sensu_alerts(component, duration_seconds)`: the warning check,
      then the critical check; a failure to silence the first raises and skips
      the second. */
  function SilenceSensuAlerts(env: Env, component: string, durationSeconds: int, h: History): (r: Run<()>)
    ensures var w := SilenceAlertType(env, component, durationSeconds, Warning, h);
      w.result.Failure? ==> r == Run(w.calls, Failure(RetryError))
    ensures var w := SilenceAlertType(env, component, durationSeconds, Warning, h);
      var c := SilenceAlertType(env, component, durationSeconds, Critical, h + w.calls);
      w.result.Success? ==>
        r.calls == w.calls + c.calls && (r.result.Failure? <==> c.result.Failure?) &&
        (r.result.Failure? ==> r.result.error == RetryError)
  {
    var w := SilenceAlertType(env, component, durationSeconds, Warning, h);
    if w.result.Failure? then Run(w.calls, Failure(w.result.error))
    else
      var c := SilenceAlertType(env, component, durationSeconds, Critical, h + w.calls);
      Run(w.calls + c.calls, if c.result.Failure? then Failure(c.result.error) else Success(()))
  }

  /** The calls are `n` posts of `first` followed only by posts of `second`. */
  predicate PostsInOrder(calls: seq<Call>, n: int, first: Call, second: Call) {
    0 <= n <= |calls| &&
    (forall k :: 0 <= k < n ==> calls[k] == first) &&
    (forall k :: n <= k < |calls| ==> calls[k] == second)
  }

  /** The warning check is silenced before the critical one: the posts for the
      warning check all come before the posts for the critical check, and
      nothing else is called. */
  lemma WarningBeforeCritical(env: Env, component: string, durationSeconds: int, h: History)
    ensures var r := SilenceSensuAlerts(env, component, durationSeconds, h);
      var w := SilenceAlertType(env, component, durationSeconds, Warning, h);
      PostsInOrder(r.calls, |w.calls|, PostSilence(FinalCheckName(component, Warning), durationSeconds),
                   PostSilence(FinalCheckName(component, Critical), durationSeconds))
  {
    var warn := PostSilence(FinalCheckName(component, Warning), durationSeconds);
    var crit := PostSilence(FinalCheckName(component, Critical), durationSeconds);
    var w := SilenceAlertType(env, component, durationSeconds, Warning, h);
    PostsOnlyPayload(env, FinalCheckName(component, Warning), durationSeconds, h, SensuAttempts);
    if w.result.Success? {
      var c := SilenceAlertType(env, component, durationSeconds, Critical, h + w.calls);
      PostsOnlyPayload(env, FinalCheckName(component, Critical), durationSeconds, h + w.calls, SensuAttempts);
      AppendInOrder(w.calls, c.calls, warn, crit);
    }
  }

  lemma AppendInOrder(a: seq<Call>, b: seq<Call>, first: Call, second: Call)
    requires forall k :: 0 <= k < |a| ==> a[k] == first
    requires forall k :: 0 <= k < |b| ==> b[k] == second
    ensures PostsInOrder(a + b, |a|, first, second)
  {
    forall k | |a| <= k < |a + b| ensures (a + b)[k] == second {
      assert (a + b)[k] == b[k - |a|];
    }
  }

  /** When Sensu answers both first posts, silencing makes exactly two posts,
      warning then critical, and returns. */
  lemma TwoPosts(env: Env, component: string, durationSeconds: int, h: History)
    requires var warn := PostSilence(FinalCheckName(component, Warning), durationSeconds);
      var crit := PostSilence(FinalCheckName(component, Critical), durationSeconds);
      env.sensuStatus(h + [warn]).Success? && env.sensuStatus(h + [warn] + [crit]).Success?
    ensures var r := SilenceSensuAlerts(env, component, durationSeconds, h);
      r.calls == [PostSilence(FinalCheckName(component, Warning), durationSeconds),
                  PostSilence(FinalCheckName(component, Critical), durationSeconds)] &&
      r.result.Success?
  {
    var warn := PostSilence(FinalCheckName(component, Warning), durationSeconds);
    PostAnswered(env, FinalCheckName(component, Warning), durationSeconds, h);
    PostAnswered(env, FinalCheckName(component, Critical), durationSeconds, h + [warn]);
  }
}
