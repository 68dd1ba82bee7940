/** `autorecycle_scale_asg/handler.py`: one run of the scaling Lambda. The
    state machine calls it repeatedly with the event it returned last time;
    the counter in the event bounds the number of runs. Each run looks at the
    latest scaling activity of every group of the component and either reports
    progress, reports a failure, executes the next scaling policy, or reports
    completion. The AWS responses, `ENVIRONMENT`, `repr` of an exception and
    the clock are parameters. */
module ScaleHandler {
  import opened Wrappers
  import opened ScaleTypes
  import opened ScaleAutorecycle
  import opened ScaleAutoscaling

  /** An exception inside `scale_asg`: one raised by an AWS call, or the one
      `describe_asg` raises when no group matches. */
  datatype ScaleError = Raised(error: string) | NoMatchingAsgs(message: string)

  datatype ScaleEnv = ScaleEnv(
    environment: Option<string>,
    /** The pages of `describe_auto_scaling_groups`, or the error of the listing. */
    pages: Result<seq<seq<Asg>>, string>,
    /** The activities `describe_scaling_activities` returns for a group. */
    activities: string -> Result<seq<Activity>, string>,
    /** The error `execute_policy` raises for a group and policy, if any. */
    policyError: (string, string) -> Option<string>,
    repr: ScaleError -> string,
    now: int)

  datatype Call = DescribeGroups | DescribeActivities(asgName: string) | ExecutePolicy(asgName: string, policy: string)

  /** What a run did: its calls, in order, and the event it returns. */
  datatype Scaled = Scaled(calls: seq<Call>, output: Event)

  /** The latest activities by group name, and the list of them in group order. */
  datatype ActivityDetails = ActivityDetails(last: map<string, Activity>, values: seq<Activity>)

  datatype DetailsRun = DetailsRun(calls: seq<Call>, result: Result<ActivityDetails, ScaleError>)

  /** The latest activity of a group, as `describe_scaling_activities` returns it. */
  function LatestActivity(activities: string -> Result<seq<Activity>, string>, name: string): Result<Activity, ScaleError> {
    var response := activities(name);
    if response.Failure? then Failure(Raised(response.error)) else Success(DescribeScalingActivities(response.value))
  }

  /** The loop filling `asg_activity_details`: one request per group in order,
      stopping at the first that raises. */
  function Details(activities: string -> Result<seq<Activity>, string>, asgs: seq<Asg>): DetailsRun
    decreases |asgs|
  {
    if asgs == [] then DetailsRun([], Success(ActivityDetails(map[], [])))
    else
      var name := asgs[|asgs| - 1].name;
      var prev := Details(activities, asgs[..|asgs| - 1]);
      if prev.result.Failure? then prev
      else
        var calls := prev.calls + [DescribeActivities(name)];
        var latest := LatestActivity(activities, name);
        if latest.Failure? then DetailsRun(calls, Failure(latest.error))
        else
          var d := prev.result.value;
          DetailsRun(calls, Success(ActivityDetails(d.last[name := latest.value], d.values + [latest.value])))
  }

  /** The loop asks for the groups' activities in order, and the requests
      all succeed exactly when it ends without an exception. */
  lemma {:induction false} DetailsCalls(activities: string -> Result<seq<Activity>, string>, asgs: seq<Asg>)
    ensures var r := Details(activities, asgs);
      |r.calls| <= |asgs| && forall i :: 0 <= i < |r.calls| ==> r.calls[i] == DescribeActivities(asgs[i].name)
    ensures var r := Details(activities, asgs);
      r.result.Success? <==> forall i :: 0 <= i < |asgs| ==> LatestActivity(activities, asgs[i].name).Success?
    ensures var r := Details(activities, asgs); r.result.Success? ==> |r.calls| == |asgs|
    decreases |asgs|
  {
    if asgs != [] {
      var init := asgs[..|asgs| - 1];
      DetailsCalls(activities, init);
      assert forall i :: 0 <= i < |init| ==> init[i] == asgs[i];
      var prev := Details(activities, init);
      if prev.result.Success? {
        var calls := prev.calls + [DescribeActivities(asgs[|asgs| - 1].name)];
        assert forall i :: 0 <= i < |prev.calls| ==> calls[i] == prev.calls[i];
      }
    }
  }

  /** When no request raises the loop holds every group's latest activity, by
      name and in group order; otherwise it stops at the first request that
      raises and reports its error. */
  lemma {:induction false} DetailsValues(activities: string -> Result<seq<Activity>, string>, asgs: seq<Asg>)
    ensures var r := Details(activities, asgs);
      r.result.Success? ==>
        |r.calls| == |asgs| && |r.result.value.values| == |asgs| &&
        forall i :: 0 <= i < |asgs| ==>
          asgs[i].name in r.result.value.last && LatestActivity(activities, asgs[i].name).Success? &&
          r.result.value.last[asgs[i].name] == LatestActivity(activities, asgs[i].name).value &&
          r.result.value.values[i] == LatestActivity(activities, asgs[i].name).value
    ensures var r := Details(activities, asgs);
      r.result.Failure? ==>
        0 < |r.calls| <= |asgs| && LatestActivity(activities, asgs[|r.calls| - 1].name).Failure? &&
        r.result.error == LatestActivity(activities, asgs[|r.calls| - 1].name).error &&
        forall i :: 0 <= i < |r.calls| - 1 ==> LatestActivity(activities, asgs[i].name).Success?
    decreases |asgs|
  {
    if asgs != [] {
      var init := asgs[..|asgs| - 1];
      DetailsValues(activities, init);
      assert forall i :: 0 <= i < |init| ==> init[i] == asgs[i];
      var prev := Details(activities, init);
      var name := asgs[|asgs| - 1].name;
      var latest := LatestActivity(activities, name);
      if prev.result.Success? && latest.Success? {
        var d := prev.result.value;
        var last := d.last[name := latest.value];
        var values := d.values + [latest.value];
        forall i | 0 <= i < |asgs|
          ensures asgs[i].name in last && LatestActivity(activities, asgs[i].name).Success? &&
                  last[asgs[i].name] == LatestActivity(activities, asgs[i].name).value &&
                  values[i] == LatestActivity(activities, asgs[i].name).value
        {
          if i < |init| {
            assert values[i] == d.values[i];
          }
        }
      }
    }
  }

  const InitiatedText := "Auto-recycling has successfully initiated"
  const NotSuccessfulText := "The last scaling event was not Successful. Please investigate"

  /** The `fields` of every message of `scale_asg`. */
  function MessageFields(component: string, environment: Option<string>): seq<Field> {
    [Field("Component", Some(component), true), Field("Environment", environment, true)]
  }

  /** The output of a run that started the recycle or is waiting for it. */
  function Initiated(output: Event, fields: seq<Field>): Event {
    output.(messageContent := Some(MessageContent(Some("good"), Some(fields), Some(InitiatedText))),
            recycleSuccess := Some(false))
  }

  /** The output of a run whose last scaling activity failed. */
  function NotSuccessful(output: Event, fields: seq<Field>): Event {
    output.(messageContent := Some(MessageContent(Some("danger"), Some(fields), Some(NotSuccessfulText))),
            recycleSuccess := Some(false), pagerDutyDescription := Some(NotSuccessfulText),
            pagerDutyEventType := Some("trigger"), status := Some(Word("fail")))
  }

  /** The output of a run that raised: the failure output with the exception. */
  function Crashed(output: Event, fields: seq<Field>, exception: string): Event {
    NotSuccessful(output, fields).(exception := Some(exception))
  }

  /** The output of a run that found nothing left to do. */
  function Completed(output: Event, fields: seq<Field>): Event {
    output.(recycleSuccess := Some(true),
            messageContent := Some(MessageContent(Some("good"), Some(fields), Some(InitiatedText))),
            status := Some(Flag(true)))
  }

  /** `f"recycle-scale-{action}"`. */
  function PolicyName(action: Direction): string {
    match action
    case In => "recycle-scale-in"
    case Out => "recycle-scale-out"
  }

  /** The requests of a run before any decision: the listing of the groups
      and the latest activity of every matching group. */
  datatype Observation = Observation(calls: seq<Call>, result: Result<(seq<Asg>, ActivityDetails), ScaleError>)

  /** The part of `scale_asg` that reads AWS: `describe_asg` and the activity
      loop. */
  function Observe(env: ScaleEnv, component: string): (o: Observation)
    ensures |o.calls| >= 1 && o.calls[0] == DescribeGroups
    ensures o.result.Success? ==>
              var (asgs, d) := o.result.value; forall i :: 0 <= i < |asgs| ==> asgs[i].name in d.last
  {
    if env.pages.Failure? then Observation([DescribeGroups], Failure(Raised(env.pages.error)))
    else
      var asgs := DescribeAsgResult(env.pages.value, component);
      if asgs.Failure? then Observation([DescribeGroups], Failure(NoMatchingAsgs(asgs.error)))
      else
        var details := Details(env.activities, asgs.value);
        var calls := [DescribeGroups] + details.calls;
        DetailsValues(env.activities, asgs.value);
        if details.result.Failure? then Observation(calls, Failure(details.result.error))
        else Observation(calls, Success((asgs.value, details.result.value)))
  }

  /** The observation succeeds exactly when the listing succeeds, some group
      matches and every matching group's activity request succeeds. */
  lemma ObserveSucceeds(env: ScaleEnv, component: string)
    ensures var o := Observe(env, component);
      o.result.Success? <==>
        env.pages.Success? && DescribeAsgResult(env.pages.value, component).Success? &&
        forall i :: 0 <= i < |DescribeAsgResult(env.pages.value, component).value| ==>
          LatestActivity(env.activities, DescribeAsgResult(env.pages.value, component).value[i].name).Success?
  {
    if env.pages.Success? && DescribeAsgResult(env.pages.value, component).Success? {
      DetailsCalls(env.activities, DescribeAsgResult(env.pages.value, component).value);
    }
  }

  /** A successful observation has listed the groups and then asked for each
      matching group's activity once, in order. */
  lemma ObserveAsksEachGroup(env: ScaleEnv, component: string)
    ensures var o := Observe(env, component);
      o.result.Success? ==>
        var asgs := o.result.value.0;
        asgs == DescribeAsgResult(env.pages.value, component).value && |o.calls| == |asgs| + 1 &&
        forall i :: 1 <= i < |o.calls| ==> o.calls[i] == DescribeActivities(asgs[i - 1].name)
  {
    if env.pages.Success? {
      var asgs := DescribeAsgResult(env.pages.value, component);
      if asgs.Success? {
        var details := Details(env.activities, asgs.value);
        DetailsCalls(env.activities, asgs.value);
        var calls := [DescribeGroups] + details.calls;
        assert forall i :: 1 <= i < |calls| ==> calls[i] == details.calls[i - 1];
      }
    }
  }

  /** A successful observation holds each matching group's latest activity,
      in the list in group order and in the map under the group's name. */
  lemma ObserveHoldsLatest(env: ScaleEnv, component: string)
    ensures var o := Observe(env, component);
      o.result.Success? ==>
        var (asgs, d) := o.result.value;
        |d.values| == |asgs| &&
        forall i :: 0 <= i < |asgs| ==>
          LatestActivity(env.activities, asgs[i].name).Success? &&
          d.values[i] == LatestActivity(env.activities, asgs[i].name).value &&
          d.last[asgs[i].name] == d.values[i]
  {
    if env.pages.Success? {
      var asgs := DescribeAsgResult(env.pages.value, component);
      if asgs.Success? {
        DetailsValues(env.activities, asgs.value);
      }
    }
  }

  /** How a run ends: an exception before any policy, an activity still in
      progress, an unsuccessful activity, a policy executed (with the error it
      raised, if any), or nothing left to do. */
  datatype Outcome = Crash(error: ScaleError) | InProgress | LastFailed | Executed(next: NextAsgAction, policyError: Option<string>) | Complete

  function OutcomeOf(env: ScaleEnv, component: string): Outcome {
    var o := Observe(env, component);
    if o.result.Failure? then Crash(o.result.error)
    else
      var (asgs, d) := o.result.value;
      if !OverallProgress(d.values) then InProgress
      else if !OverallStatusCode(d.values) then LastFailed
      else
        var next := GetNextAsgAction(asgs, d.last, env.now);
        if next.None? then Complete
        else Executed(next.value, env.policyError(next.value.asgName, PolicyName(next.value.action)))
  }

  /** The event a run returns for its outcome, from the output parameters. */
  function Output(outcome: Outcome, output: Event, fields: seq<Field>, repr: ScaleError -> string): Event {
    match outcome
    case Crash(error) => Crashed(output, fields, repr(error))
    case InProgress => Initiated(output, fields)
    case LastFailed => NotSuccessful(output, fields)
    case Executed(_, error) =>
      if error.Some? then Crashed(output, fields, repr(Raised(error.value)))
      else if output.counter == Some(1) then Initiated(output, fields)
      else output.(recycleSuccess := Some(false))
    case Complete => Completed(output, fields)
  }

  /** `scale_asg(event)` as a specification. */
  function ScaleRun(env: ScaleEnv, e: Event): Scaled {
    var outcome := OutcomeOf(env, e.component);
    var executed := if outcome.Executed? then [ExecutePolicy(outcome.next.asgName, PolicyName(outcome.next.action))] else [];
    Scaled(Observe(env, e.component).calls + executed,
           Output(outcome, CreateOutputParams(e), MessageFields(e.component, env.environment), env.repr))
  }

  /** Whatever the outcome, the output keeps what `create_output_params` put
      there. */
  lemma OutputKeepsParams(outcome: Outcome, p: Event, fields: seq<Field>, repr: ScaleError -> string)
    ensures var out := Output(outcome, p, fields, repr);
      out.channels == p.channels && out.component == p.component && out.team == p.team &&
      out.notifyPagerDuty == p.notifyPagerDuty && out.successChannel == p.successChannel &&
      out.monitoringSlackChannel == p.monitoringSlackChannel && out.counter == p.counter &&
      out.emoji == p.emoji && out.username == p.username && out.text == p.text
  {
  }

  /** Whatever happens, the output is built from `create_output_params`: the
      channels, component, team, pager flag and success and monitoring
      channels of the event, the counter advanced (also when a call raised),
      the emoji, username and text. */
  lemma ScaleKeepsOutputParams(env: ScaleEnv, e: Event)
    ensures var out := ScaleRun(env, e).output; var p := CreateOutputParams(e);
      out.channels == e.channels && out.component == e.component && out.team == e.team &&
      out.notifyPagerDuty == e.notifyPagerDuty && out.successChannel == e.successChannel &&
      out.monitoringSlackChannel == e.monitoringSlackChannel &&
      out.counter == Some(NextCounter(e.counter)) && out.emoji == Some(Emoji) && out.username == Some(Username) &&
      out.text == Some("*" + e.component + "*")
  {
    OutputKeepsParams(OutcomeOf(env, e.component), CreateOutputParams(e), MessageFields(e.component, env.environment), env.repr);
  }

  /** A run raises exactly when a request fails; the exception is then
      reported with the failure message, the pager trigger and status "fail". */
  lemma FailuresAreReported(env: ScaleEnv, e: Event)
    ensures var out := ScaleRun(env, e).output; var o := Observe(env, e.component);
      out.exception.Some? <==>
        o.result.Failure? ||
        (OverallProgress(o.result.value.1.values) && OverallStatusCode(o.result.value.1.values) &&
         var next := GetNextAsgAction(o.result.value.0, o.result.value.1.last, env.now);
         next.Some? && env.policyError(next.value.asgName, PolicyName(next.value.action)).Some?)
    ensures var out := ScaleRun(env, e).output;
      out.exception.Some? ==>
        out.recycleSuccess == Some(false) && out.status == Some(Word("fail")) &&
        out.pagerDutyEventType == Some("trigger") && out.pagerDutyDescription == Some(NotSuccessfulText) &&
        out.messageContent == Some(MessageContent(Some("danger"), Some(MessageFields(e.component, env.environment)), Some(NotSuccessfulText)))
  {
  }

  /** The first call lists the groups and the following ones ask for
      activities; a policy is executed at most once, as the last call, on the
      group and in the direction of the next action, and only after every
      latest activity was found complete and successful. */
  lemma PolicyFollowsNextAction(env: ScaleEnv, e: Event)
    ensures var calls := ScaleRun(env, e).calls;
      |calls| >= 1 && calls[0] == DescribeGroups &&
      forall i :: 0 <= i < |calls| && calls[i].ExecutePolicy? ==>
        i == |calls| - 1 &&
        var o := Observe(env, e.component);
        o.result.Success? && OverallProgress(o.result.value.1.values) && OverallStatusCode(o.result.value.1.values) &&
        var next := GetNextAsgAction(o.result.value.0, o.result.value.1.last, env.now);
        next.Some? && calls[i] == ExecutePolicy(next.value.asgName, PolicyName(next.value.action))
  {
    ObserveOnlyAsks(env, e.component);
  }

  /** The observation makes no call but the listing and activity requests. */
  lemma ObserveOnlyAsks(env: ScaleEnv, component: string)
    ensures var calls := Observe(env, component).calls;
      forall i :: 1 <= i < |calls| ==> calls[i].DescribeActivities?
  {
    if env.pages.Success? {
      var asgs := DescribeAsgResult(env.pages.value, component);
      if asgs.Success? {
        DetailsCalls(env.activities, asgs.value);
        var details := Details(env.activities, asgs.value);
        var calls := [DescribeGroups] + details.calls;
        assert forall i :: 1 <= i < |calls| ==> calls[i] == details.calls[i - 1];
      }
    }
  }

  /** While an activity is still in progress nothing is executed and the run
      reports that the recycle was initiated. */
  lemma InProgressWaits(env: ScaleEnv, e: Event)
    requires var o := Observe(env, e.component); o.result.Success? && !OverallProgress(o.result.value.1.values)
    ensures var r := ScaleRun(env, e);
      r.calls == Observe(env, e.component).calls &&
      r.output == Initiated(CreateOutputParams(e), MessageFields(e.component, env.environment))
  {
    assert Observe(env, e.component).calls + [] == Observe(env, e.component).calls;
  }

  /** A run succeeds exactly when every request succeeded, every latest
      activity is complete and successful, and no group needs scaling; it then
      reports status True. */
  lemma SuccessIffNothingToDo(env: ScaleEnv, e: Event)
    ensures var out := ScaleRun(env, e).output; var o := Observe(env, e.component);
      out.recycleSuccess == Some(true) <==>
        o.result.Success? && OverallProgress(o.result.value.1.values) && OverallStatusCode(o.result.value.1.values) &&
        GetNextAsgAction(o.result.value.0, o.result.value.1.last, env.now).None?
    ensures var out := ScaleRun(env, e).output;
      out.recycleSuccess == Some(true) ==> out.status == Some(Flag(true)) && out.exception.None?
  {
  }

  /** The outcome of a run from what it observed: an exception when a request
      raised, otherwise the first of: an activity in progress, an
      unsuccessful activity, no next action, or the next action executed
      together with the error its policy raised. */
  lemma OutcomeDecides(env: ScaleEnv, component: string)
    ensures var o := Observe(env, component); var r := OutcomeOf(env, component);
      (r.Crash? <==> o.result.Failure?) && (r.Crash? ==> r.error == o.result.error)
    ensures var o := Observe(env, component); var r := OutcomeOf(env, component);
      o.result.Success? ==>
        var (asgs, d) := o.result.value;
        var next := GetNextAsgAction(asgs, d.last, env.now);
        (r == InProgress <==> !OverallProgress(d.values)) &&
        (r == LastFailed <==> OverallProgress(d.values) && !OverallStatusCode(d.values)) &&
        (r == Complete <==> OverallProgress(d.values) && OverallStatusCode(d.values) && next.None?) &&
        (r.Executed? ==> next == Some(r.next) && r.policyError == env.policyError(r.next.asgName, PolicyName(r.next.action)))
  {
  }

  /** After a policy ran without error, the run has not succeeded yet, and it
      sends the "initiated" message only on the first run. */
  lemma ScalingMessageOnFirstRun(env: ScaleEnv, e: Event)
    requires OutcomeOf(env, e.component).Executed? && OutcomeOf(env, e.component).policyError.None?
    ensures var out := ScaleRun(env, e).output;
      out.recycleSuccess == Some(false) && out.status == Some(Flag(true)) && out.exception.None? &&
      (out.messageContent.Some? <==> e.counter.None? || e.counter == Some(0))
  {
  }

  /** `scale_asg(event)`. */
  method ScaleAsg(env: ScaleEnv, e: Event) returns (calls: seq<Call>, output: Event)
    ensures Scaled(calls, output) == ScaleRun(env, e)
  {
    output := CreateOutputParams(e);
    var fields := MessageFields(e.component, env.environment);
    var observed := ObserveGroups(env, e.component);
    calls := observed.calls;
    if observed.result.Failure? {
      output := Crashed(output, fields, env.repr(observed.result.error));
      return;
    }
    var (asgs, d) := observed.result.value;
    if !OverallProgress(d.values) {
      output := Initiated(output, fields);
      return;
    }
    if !OverallStatusCode(d.values) {
      output := NotSuccessful(output, fields);
      return;
    }
    var next := GetNextAsgAction(asgs, d.last, env.now);
    if next.Some? {
      var policy := PolicyName(next.value.action);
      calls := calls + [ExecutePolicy(next.value.asgName, policy)];
      var error := env.policyError(next.value.asgName, policy);
      if error.Some? {
        output := Crashed(output, fields, env.repr(Raised(error.value)));
        return;
      }
      if output.counter == Some(1) {
        output := Initiated(output, fields);
      } else {
        output := output.(recycleSuccess := Some(false));
      }
      return;
    }
    output := Completed(output, fields);
  }

  /** The requests of `scale_asg`: `describe_asg` and the activity loop. */
  method ObserveGroups(env: ScaleEnv, component: string) returns (o: Observation)
    ensures o == Observe(env, component)
  {
    if env.pages.Failure? {
      return Observation([DescribeGroups], Failure(Raised(env.pages.error)));
    }
    var asgs := DescribeAsg(env.pages.value, component);
    if asgs.Failure? {
      return Observation([DescribeGroups], Failure(NoMatchingAsgs(asgs.error)));
    }
    var details := CollectDetails(env.activities, asgs.value);
    if details.result.Failure? {
      return Observation([DescribeGroups] + details.calls, Failure(details.result.error));
    }
    return Observation([DescribeGroups] + details.calls, Success((asgs.value, details.result.value)));
  }

  /** The loop of `scale_asg` filling `asg_activity_details`. */
  method CollectDetails(activities: string -> Result<seq<Activity>, string>, asgs: seq<Asg>) returns (r: DetailsRun)
    ensures r == Details(activities, asgs)
  {
    var last: map<string, Activity> := map[];
    var values: seq<Activity> := [];
    var calls: seq<Call> := [];
    for i := 0 to |asgs|
      invariant Details(activities, asgs[..i]) == DetailsRun(calls, Success(ActivityDetails(last, values)))
    {
      assert asgs[..i + 1][..i] == asgs[..i];
      var name := asgs[i].name;
      calls := calls + [DescribeActivities(name)];
      var latest := LatestActivity(activities, name);
      if latest.Failure? {
        DetailsStop(activities, asgs, i + 1);
        return DetailsRun(calls, Failure(latest.error));
      }
      last := last[name := latest.value];
      values := values + [latest.value];
    }
    assert asgs[..|asgs|] == asgs;
    r := DetailsRun(calls, Success(ActivityDetails(last, values)));
  }

  /** Once a request raised, the later groups are not asked. */
  lemma {:induction false} DetailsStop(activities: string -> Result<seq<Activity>, string>, asgs: seq<Asg>, k: nat)
    requires 0 < k <= |asgs| && Details(activities, asgs[..k]).result.Failure?
    ensures Details(activities, asgs) == Details(activities, asgs[..k])
    decreases |asgs| - k
  {
    if k < |asgs| {
      var init := asgs[..|asgs| - 1];
      assert init[..k] == asgs[..k];
      DetailsStop(activities, init, k);
    } else {
      assert asgs[..k] == asgs;
    }
  }

  const MaxRuns := 60

  function TooLongText(component: string): string {
    "Autorecycling of " + component + " appears to be taking too long :scream: please investigate."
  }

  function TooLongDescription(component: string): string {
    "Autorecycling of " + component + " appears to be taking too long. Please investigate."
  }

  /** The event `handle_event` returns on the sixtieth run: a failure sent to
      the monitoring channel and paged. It is a new event, so the counter, team
      and pager flag of the old one are dropped. */
  function TimeoutEvent(e: Event): (out: Event)
    ensures out.component == e.component && out.successChannel == e.successChannel &&
            out.monitoringSlackChannel == e.monitoringSlackChannel &&
            out.channels == Some(Channel(e.monitoringSlackChannel))
    ensures out.messageContent == Some(MessageContent(Some("danger"), None, Some(TooLongText(e.component))))
    ensures out.pagerDutyDescription == Some(TooLongDescription(e.component)) &&
            out.pagerDutyEventType == Some("trigger") && out.status == Some(Word("fail"))
    ensures out.counter.None? && out.team.None? && out.notifyPagerDuty.None? && out.recycleSuccess.None? &&
            out.exception.None? && out.emoji.None? && out.text.None? && out.username.None?
  {
    NewEvent(e.component, e.successChannel).(
      channels := Some(Channel(e.monitoringSlackChannel)),
      messageContent := Some(MessageContent(Some("danger"), None, Some(TooLongText(e.component)))),
      monitoringSlackChannel := e.monitoringSlackChannel,
      pagerDutyDescription := Some(TooLongDescription(e.component)),
      pagerDutyEventType := Some("trigger"),
      status := Some(Word("fail")))
  }

  /** `raise Exception` for a counter beyond sixty. */
  datatype HandlerError = CounterExceeded

  /** `if not event.counter`. */
  predicate IsFirstRun(e: Event) {
    e.counter.None? || e.counter == Some(0)
  }

  /** `handle_event(event)` as a specification. */
  function HandleRun(env: ScaleEnv, e: Event): Result<Scaled, HandlerError> {
    if IsFirstRun(e) then Success(ScaleRun(env, e.(counter := Some(0), channels := Some(Channel(e.successChannel)))))
    else if e.counter.value < MaxRuns then Success(ScaleRun(env, e))
    else if e.counter.value == MaxRuns then Success(Scaled([], TimeoutEvent(e)))
    else Failure(CounterExceeded)
  }

  /** The counter state machine: a first run starts at one and notifies the
      success channel; a later run below sixty scales with its own counter
      advanced; the sixtieth gives up without a call; beyond that it raises. */
  lemma CounterStateMachine(env: ScaleEnv, e: Event)
    ensures HandleRun(env, e).Failure? <==> e.counter.Some? && e.counter.value > MaxRuns
    ensures IsFirstRun(e) ==>
              HandleRun(env, e).value.output.counter == Some(1) &&
              HandleRun(env, e).value.output.channels == Some(Channel(e.successChannel))
    ensures !IsFirstRun(e) && e.counter.value < MaxRuns ==>
              HandleRun(env, e) == Success(ScaleRun(env, e)) &&
              ScaleRun(env, e).output.counter == Some(e.counter.value + 1)
    ensures e.counter == Some(MaxRuns) ==> HandleRun(env, e) == Success(Scaled([], TimeoutEvent(e)))
  {
    if IsFirstRun(e) {
      ScaleKeepsOutputParams(env, e.(counter := Some(0), channels := Some(Channel(e.successChannel))));
    } else if e.counter.value < MaxRuns {
      ScaleKeepsOutputParams(env, e);
    }
  }

  /** A run is counted: every event that scaled carries a counter one above
      the one it was given (taking a first run as zero), so at most sixty runs
      scale before the timeout. */
  lemma RunsAreCounted(env: ScaleEnv, e: Event)
    requires HandleRun(env, e).Success? && HandleRun(env, e).value.calls != []
    ensures var before := if IsFirstRun(e) then 0 else e.counter.value;
      before < MaxRuns && HandleRun(env, e).value.output.counter == Some(before + 1)
  {
    CounterStateMachine(env, e);
  }

  /** `handle_event(event)`. */
  method HandleEvent(env: ScaleEnv, e: Event) returns (r: Result<Scaled, HandlerError>)
    ensures r == HandleRun(env, e)
  {
    var event := e;
    if event.counter.None? || event.counter == Some(0) {
      event := event.(counter := Some(0));
      event := event.(channels := Some(Channel(event.successChannel)));
      var calls, output := ScaleAsg(env, event);
      return Success(Scaled(calls, output));
    } else if event.counter.value < MaxRuns {
      var calls, output := ScaleAsg(env, event);
      return Success(Scaled(calls, output));
    } else if event.counter.value == MaxRuns {
      return Success(Scaled([], TimeoutEvent(event)));
    }
    return Failure(CounterExceeded);
  }
}
