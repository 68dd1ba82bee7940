/** `autorecycle_invoke_stepfunctions/handler.py`: on an Auto Scaling CloudTrail
    event, look up the component's group and its autorecycle tags and, when the
    group is recyclable, start the recycling state machine with a payload built
    from the tags. Environment variables and AWS answers are parameters. */
module InvokeHandler {
  import opened Wrappers
  import opened Strs
  import opened ComponentDetails
  import opened AsgTags

  /** `payload_to_asg_tag_map`: payload key and tag name, in declaration order. */
  const PayloadTagMap: seq<(string, string)> := [
    ("strategy", "autorecycle_strategy"),
    ("monitoring_slack_channel", "autorecycle_slack_monitoring_channel"),
    ("notify_pager_duty", "autorecycle_notify_pager_duty"),
    ("team", "autorecycle_team"),
    ("step_function_name", "autorecycle_step_function_name"),
    ("dry_run", "autorecycle_dry_run")
  ]

  /** The payload of the execution: the five entries every payload has and the
      entries copied from the tags. No tag-map key has the length of one of the
      five base keys, so the two parts of the dictionary never overlap. */
  datatype StartPayload = StartPayload(accountId: string, successChannel: string, component: TagValue,
                                       autoScalingGroupName: string, emoji: string, tagged: map<string, TagValue>)

  const Emoji := ":robot_face:"

  /** The copied entries after the loop has met `pairs`. */
  function CopyTags(payload: map<string, TagValue>, pairs: seq<(string, string)>, tags: map<string, TagValue>): map<string, TagValue>
    decreases |pairs|
  {
    if pairs == [] then payload
    else
      var p := CopyTags(payload, pairs[..|pairs| - 1], tags);
      var (key, tag) := pairs[|pairs| - 1];
      if tag in tags then p[key := tags[tag]] else p
  }

  /** `construct_payload(...)` as a specification. */
  function Payload(accountId: string, channel: string, component: TagValue, asgName: string,
                   tags: map<string, TagValue>): StartPayload {
    StartPayload(accountId, channel, component, asgName, Emoji, CopyTags(map[], PayloadTagMap, tags))
  }

  /** The payload keys named in `pairs`. */
  function PairKeys(pairs: seq<(string, string)>): set<string> {
    set p | p in pairs :: p.0
  }

  /** The payload keys in `pairs` whose tag is present. */
  function CopiedKeys(pairs: seq<(string, string)>, tags: map<string, TagValue>): set<string> {
    set p | p in pairs && p.1 in tags :: p.0
  }

  /** The loop adds the keys whose tags are present and keeps the other
      entries. */
  lemma {:induction false} CopyTagsEntries(payload: map<string, TagValue>, pairs: seq<(string, string)>,
                                           tags: map<string, TagValue>)
    ensures CopyTags(payload, pairs, tags).Keys == payload.Keys + CopiedKeys(pairs, tags)
    ensures forall key :: key in payload && key !in PairKeys(pairs) ==> CopyTags(payload, pairs, tags)[key] == payload[key]
    decreases |pairs|
  {
    if pairs != [] {
      var init := pairs[..|pairs| - 1];
      CopyTagsEntries(payload, init, tags);
      assert pairs == init + [pairs[|pairs| - 1]];
      assert forall p :: p in pairs <==> p in init || p == pairs[|pairs| - 1];
      assert CopiedKeys(pairs, tags) == CopiedKeys(init, tags) +
        (if pairs[|pairs| - 1].1 in tags then {pairs[|pairs| - 1].0} else {});
      assert PairKeys(pairs) == PairKeys(init) + {pairs[|pairs| - 1].0};
    }
  }

  /** A present tag whose payload key no later pair names is copied verbatim. */
  lemma {:induction false} CopyTagsValue(payload: map<string, TagValue>, pairs: seq<(string, string)>,
                                         tags: map<string, TagValue>, k: nat)
    requires k < |pairs| && pairs[k].1 in tags
    requires forall j :: k < j < |pairs| ==> pairs[j].0 != pairs[k].0
    ensures pairs[k].0 in CopyTags(payload, pairs, tags)
    ensures CopyTags(payload, pairs, tags)[pairs[k].0] == tags[pairs[k].1]
    decreases |pairs|
  {
    var init := pairs[..|pairs| - 1];
    if k < |init| {
      CopyTagsValue(payload, init, tags, k);
    }
  }

  /** The payload keys of the tag map have lengths 4, 7, 8, 17, 18 and 24: all
      different, and none the length of a base key (10, 15, 9, 23 and 5). */
  lemma PayloadKeyLengths()
    ensures forall k :: 0 <= k < |PayloadTagMap| ==> |PayloadTagMap[k].0| in {8, 24, 17, 4, 18, 7}
    ensures forall j, k :: 0 <= j < k < |PayloadTagMap| ==> |PayloadTagMap[j].0| != |PayloadTagMap[k].0|
    ensures forall key :: key in PairKeys(PayloadTagMap) ==> |key| in {8, 24, 17, 4, 18, 7}
  {
  }

  /** The copied entries are those of the mapped tags that are present, and
      nothing else. */
  lemma PayloadKeys(accountId: string, channel: string, component: TagValue, asgName: string,
                    tags: map<string, TagValue>)
    ensures Payload(accountId, channel, component, asgName, tags).tagged.Keys == CopiedKeys(PayloadTagMap, tags)
  {
    CopyTagsEntries(map[], PayloadTagMap, tags);
  }

  /** Every copied key is one of the keys `pairs` names. */
  lemma CopiedFromPairs(pairs: seq<(string, string)>, tags: map<string, TagValue>)
    ensures forall key :: key in CopyTags(map[], pairs, tags) ==> exists p :: p in pairs && p.0 == key
  {
    CopyTagsEntries(map[], pairs, tags);
  }

  /** No copied key is longer than 24 characters or has the length of a base
      key. */
  lemma PayloadKeysShort(accountId: string, channel: string, component: TagValue, asgName: string,
                         tags: map<string, TagValue>)
    ensures var p := Payload(accountId, channel, component, asgName, tags);
      forall key :: key in p.tagged ==> |key| <= 24 && |key| !in {10, 15, 9, 23, 5}
  {
    assert forall p :: p in PayloadTagMap ==> |p.0| in {8, 24, 17, 4, 18, 7};
    CopiedFromPairs(PayloadTagMap, tags);
  }

  /** The recycle flag and the override name are never copied. */
  lemma PayloadOmitsUnmapped(accountId: string, channel: string, component: TagValue, asgName: string,
                             tags: map<string, TagValue>)
    ensures var p := Payload(accountId, channel, component, asgName, tags);
      "autorecycle_recycle_on_asg_update" !in p.tagged && "autorecycle_override_component_name" !in p.tagged
  {
    PayloadKeysShort(accountId, channel, component, asgName, tags);
    assert |"autorecycle_recycle_on_asg_update"| == 33 && |"autorecycle_override_component_name"| == 35;
  }

  /** Each present mapped tag is copied under its payload key unchanged. */
  lemma PayloadCopiesTags(accountId: string, channel: string, component: TagValue, asgName: string,
                          tags: map<string, TagValue>, k: nat)
    requires k < |PayloadTagMap| && PayloadTagMap[k].1 in tags
    ensures var p := Payload(accountId, channel, component, asgName, tags);
      PayloadTagMap[k].0 in p.tagged && p.tagged[PayloadTagMap[k].0] == tags[PayloadTagMap[k].1]
  {
    PayloadKeyLengths();
    CopyTagsValue(map[], PayloadTagMap, tags, k);
  }

  /** The loop of `construct_payload`. */
  method ConstructPayload(accountId: string, channel: string, component: TagValue, asgName: string,
                          tags: map<string, TagValue>) returns (payload: StartPayload)
    ensures payload == Payload(accountId, channel, component, asgName, tags)
  {
    var tagged: map<string, TagValue> := map[];
    for i := 0 to |PayloadTagMap|
      invariant tagged == CopyTags(map[], PayloadTagMap[..i], tags)
    {
      assert PayloadTagMap[..i + 1][..i] == PayloadTagMap[..i];
      var (key, tag) := PayloadTagMap[i];
      if tag in tags {
        tagged := tagged[key := tags[tag]];
      }
    }
    assert PayloadTagMap[..|PayloadTagMap|] == PayloadTagMap;
    payload := StartPayload(accountId, channel, component, asgName, Emoji, tagged);
  }

  /** `"{}".format(v)` of a tag value. */
  function Formatted(v: TagValue): string {
    match v
    case Text(s) => s
    case Flag(b) => if b then "True" else "False"
  }

  const ArnPrefix := "arn:aws:states:eu-west-2:"

  /** The state machine of `sf_start_execution`: the tagged step function of
      the account, or its `autorecycle` state machine. */
  function StateMachineArn(p: StartPayload): (arn: string)
    ensures "step_function_name" in p.tagged ==>
              arn == ArnPrefix + p.accountId + ":stateMachine:" + Formatted(p.tagged["step_function_name"])
    ensures "step_function_name" !in p.tagged ==> arn == ArnPrefix + p.accountId + ":stateMachine:autorecycle"
  {
    var name := if "step_function_name" in p.tagged then Formatted(p.tagged["step_function_name"]) else "autorecycle";
    ArnPrefix + p.accountId + ":stateMachine:" + name
  }

  /** A state machine ARN reads back the account and, after the account's
      `:stateMachine:` marker, the machine name. */
  lemma StateMachineArnReadsBack(p: StartPayload)
    ensures var arn := StateMachineArn(p);
      var name := if "step_function_name" in p.tagged then Formatted(p.tagged["step_function_name"]) else "autorecycle";
      var n := |ArnPrefix| + |p.accountId|;
      |arn| == n + 14 + |name| && arn[|ArnPrefix|..n] == p.accountId && arn[n..n + 14] == ":stateMachine:" && arn[n + 14..] == name
  {
  }

  /** The execution name: the payload's component, a dash, and the local time
      `stamp` as `%Y%m%d%H%M%S`. */
  function ExecutionName(p: StartPayload, stamp: string): (name: string)
    ensures StartsWith(name, Formatted(p.component) + "-") && name[|Formatted(p.component)| + 1..] == stamp
  {
    Formatted(p.component) + "-" + stamp
  }

  /** The exceptions of the handler. */
  datatype InvokeError = Lookup(e: LookupError) | EnvironmentKeyError(name: string) | AwsError(message: string)

  datatype Call =
    | GetAsg(component: string)
    | DescribeTags(filters: seq<TagFilter>)
    | StartExecution(stateMachineArn: string, name: string, payload: StartPayload)

  /** The answer of `start_execution`: the execution started, a botocore
      ClientError, which `sf_start_execution` catches and logs, or any other
      exception (a connection error, a parameter validation error), which
      propagates out of the handler. */
  datatype StartReply = Started | ClientError(message: string) | OtherError(message: string)

  /** The environment variables and the AWS answers: the name of the first
      group one of whose Name tag values equals the component, the tag answer, the local
      time, and the answer to each `start_execution` request. */
  datatype InvokeEnv = InvokeEnv(accountId: Option<string>, slackChannel: Option<string>,
                                 asgNamed: string -> Result<string, string>,
                                 describeTags: seq<TagFilter> -> Result<seq<ResponseTag>, string>,
                                 stamp: string,
                                 startReply: Call -> StartReply)

  datatype Invoked = Invoked(calls: seq<Call>, result: Result<(), InvokeError>)

  /** `asg_tags.get("autorecycle_override_component_name", component)`. */
  function TargetComponent(tags: map<string, TagValue>, component: string): (v: TagValue)
    ensures "autorecycle_override_component_name" in tags ==> v == tags["autorecycle_override_component_name"]
    ensures "autorecycle_override_component_name" !in tags ==> v == Text(component)
  {
    if "autorecycle_override_component_name" in tags then tags["autorecycle_override_component_name"] else Text(component)
  }

  /** `sf_start_execution(payload)`. */
  function StartCall(p: StartPayload, stamp: string): Call {
    StartExecution(StateMachineArn(p), ExecutionName(p, stamp), p)
  }

  /** What the handler does once it has the group's tags. */
  function Start(env: InvokeEnv, component: string, asgName: string, tags: map<string, TagValue>): seq<Call>
    requires env.accountId.Some? && env.slackChannel.Some?
  {
    if AssertRecyclable(tags).recyclable then
      [StartCall(Payload(env.accountId.value, env.slackChannel.value, TargetComponent(tags, component), asgName, tags), env.stamp)]
    else []
  }

  /** The outcome of `sf_start_execution` after the call `c`: only a
      ClientError is swallowed. */
  function StartOutcome(env: InvokeEnv, c: Call): Result<(), InvokeError> {
    match env.startReply(c)
    case OtherError(message) => Failure(AwsError(message))
    case _ => Success(())
  }

  /** The outcome after the calls of `Start`. */
  function StartResult(env: InvokeEnv, start: seq<Call>): Result<(), InvokeError> {
    if start == [] then Success(()) else StartOutcome(env, start[0])
  }

  /** The handler once it has the group `asgName` and its tags. */
  function Launch(env: InvokeEnv, component: string, asgName: string, tags: map<string, TagValue>): Invoked
    requires env.accountId.Some? && env.slackChannel.Some?
  {
    var start := Start(env, component, asgName, tags);
    Invoked([GetAsg(component), DescribeTags(TagFilters(asgName))] + start, StartResult(env, start))
  }

  /** An execution starts exactly when the tags make the group recyclable, with
      the tagged override name as the component when there is one, and on the
      tagged state machine when one is named; the handler then fails only on an
      exception of `start_execution` other than a ClientError. */
  lemma LaunchIffRecyclable(env: InvokeEnv, component: string, asgName: string, tags: map<string, TagValue>)
    requires env.accountId.Some? && env.slackChannel.Some?
    ensures var p := Payload(env.accountId.value, env.slackChannel.value, TargetComponent(tags, component), asgName, tags);
      var call := StartExecution(StateMachineArn(p), ExecutionName(p, env.stamp), p);
      var r := Launch(env, component, asgName, tags);
      if AssertRecyclable(tags).recyclable then
        r.calls == [GetAsg(component), DescribeTags(TagFilters(asgName)), call] &&
        (r.result.Success? <==> !env.startReply(call).OtherError?) &&
        (env.startReply(call).OtherError? ==> r.result == Failure(AwsError(env.startReply(call).message)))
      else r == Invoked([GetAsg(component), DescribeTags(TagFilters(asgName))], Success(()))
  {
  }

  /** `lambda_handler(event, context)` as a specification. */
  function Invoke(env: InvokeEnv, e: CloudTrailEvent): (r: Invoked)
  {
    var name := GetComponentName(e);
    if name.Failure? then Invoked([], Failure(Lookup(name.error)))
    else if name.value.None? then Invoked([], Success(()))
    else
      var component := name.value.value;
      if env.accountId.None? then Invoked([], Failure(EnvironmentKeyError("ACCOUNT_ID")))
      else if env.slackChannel.None? then Invoked([], Failure(EnvironmentKeyError("SLACK_CHANNEL")))
      else
        var asg := env.asgNamed(component);
        if asg.Failure? then Invoked([GetAsg(component)], Failure(AwsError(asg.error)))
        else
          var filters := TagFilters(asg.value);
          var answer := env.describeTags(filters);
          if answer.Failure? then Invoked([GetAsg(component), DescribeTags(filters)], Failure(AwsError(answer.error)))
          else Launch(env, component, asg.value, AutorecyclingTags(answer.value))
  }

  /** An event that names no component, or an event that cannot be read, ends
      the handler before any lookup. */
  lemma NoComponentNoCalls(env: InvokeEnv, e: CloudTrailEvent)
    requires GetComponentName(e).Failure? || GetComponentName(e).value.None?
    ensures Invoke(env, e).calls == []
    ensures Invoke(env, e).result.Success? <==> GetComponentName(e).Success?
  {
  }

  /** Once the group and its tags are known, the handler is `Launch` on them. */
  lemma InvokeLaunches(env: InvokeEnv, e: CloudTrailEvent)
    requires GetComponentName(e).Success? && GetComponentName(e).value.Some?
    requires env.accountId.Some? && env.slackChannel.Some?
    requires env.asgNamed(GetComponentName(e).value.value).Success?
    requires env.describeTags(TagFilters(env.asgNamed(GetComponentName(e).value.value).value)).Success?
    ensures var component := GetComponentName(e).value.value;
      var asg := env.asgNamed(component).value;
      Invoke(env, e) == Launch(env, component, asg, AutorecyclingTags(env.describeTags(TagFilters(asg)).value))
  {
    var name := GetComponentName(e);
    assert !name.Failure? && !name.value.None?;
  }

  /** A handler that fails has started nothing, unless the failure is an
      exception of `start_execution` other than a ClientError; that request is
      then the last call. */
  lemma FailureStartsNothing(env: InvokeEnv, e: CloudTrailEvent)
    requires Invoke(env, e).result.Failure?
    ensures var calls := Invoke(env, e).calls;
      forall k :: 0 <= k < |calls| && calls[k].StartExecution? ==>
        k == |calls| - 1 && env.startReply(calls[k]).OtherError? &&
        Invoke(env, e).result == Failure(AwsError(env.startReply(calls[k]).message))
  {
    var name := GetComponentName(e);
    if name.Success? && name.value.Some? && env.accountId.Some? && env.slackChannel.Some? {
      var component := name.value.value;
      var asg := env.asgNamed(component);
      if asg.Success? && env.describeTags(TagFilters(asg.value)).Success? {
        InvokeLaunches(env, e);
        LaunchFailure(env, component, asg.value, AutorecyclingTags(env.describeTags(TagFilters(asg.value)).value));
      }
    }
  }

  /** `FailureStartsNothing` once the group and its tags are known. */
  lemma LaunchFailure(env: InvokeEnv, component: string, asgName: string, tags: map<string, TagValue>)
    requires env.accountId.Some? && env.slackChannel.Some?
    requires Launch(env, component, asgName, tags).result.Failure?
    ensures var r := Launch(env, component, asgName, tags);
      forall k :: 0 <= k < |r.calls| && r.calls[k].StartExecution? ==>
        k == |r.calls| - 1 && env.startReply(r.calls[k]).OtherError? &&
        r.result == Failure(AwsError(env.startReply(r.calls[k]).message))
  {
    var start := Start(env, component, asgName, tags);
    assert start != [];
    assert |Launch(env, component, asgName, tags).calls| == 3;
  }

  /** `lambda_handler(event, context)`. */
  method LambdaHandler(env: InvokeEnv, e: CloudTrailEvent) returns (calls: seq<Call>, result: Result<(), InvokeError>)
    ensures calls == Invoke(env, e).calls && result == Invoke(env, e).result
  {
    var name := GetComponentName(e);
    if name.Failure? {
      return [], Failure(Lookup(name.error));
    }
    if name.value.None? {
      return [], Success(());
    }
    var component := name.value.value;
    if env.accountId.None? {
      return [], Failure(EnvironmentKeyError("ACCOUNT_ID"));
    }
    if env.slackChannel.None? {
      return [], Failure(EnvironmentKeyError("SLACK_CHANNEL"));
    }
    var asg := env.asgNamed(component);
    if asg.Failure? {
      return [GetAsg(component)], Failure(AwsError(asg.error));
    }
    var filters := TagFilters(asg.value);
    calls := [GetAsg(component), DescribeTags(filters)];
    var answer := env.describeTags(filters);
    if answer.Failure? {
      return calls, Failure(AwsError(answer.error));
    }
    var tags := GetAutorecyclingTags(answer.value);
    InvokeLaunches(env, e);
    LaunchIffRecyclable(env, component, asg.value, tags);
    result := Success(());
    if AssertRecyclable(tags).recyclable {
      var payload := ConstructPayload(env.accountId.value, env.slackChannel.value, TargetComponent(tags, component), asg.value, tags);
      var call := StartCall(payload, env.stamp);
      calls := calls + [call];
      match env.startReply(call)
      case OtherError(message) =>
        result := Failure(AwsError(message));
      case _ =>
    }
  }
}
