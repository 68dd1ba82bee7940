/** `autorecycle_scale_asg/autorecycle.py`: the decisions of the scaling
    Lambda. The groups of a component are recycled in-out: a group without
    instances is scaled out first; otherwise the first group holding an
    instance that is not on the group's launch template version, or that was
    not scaled in the last ten minutes, is scaled in. Times are whole seconds
    and `now` is a parameter. */
module ScaleAutorecycle {
  import opened Wrappers
  import opened Seqs
  import opened ScaleTypes

  /** A scaling activity: `Progress`, `StatusCode` and `EndTime`, each possibly
      missing. */
  datatype Activity = Activity(progress: Option<int>, statusCode: Option<string>, endTime: Option<int>)

  /** An instance and the version of its launch template (None without a
      `LaunchTemplate`). */
  datatype Instance = Instance(instanceId: string, launchTemplateVersion: Option<string>)

  datatype Asg = Asg(name: string, instances: seq<Instance>, launchTemplateVersion: Option<string>)

  datatype Direction = In | Out

  datatype NextAsgAction = NextAsgAction(asgName: string, action: Direction)

  /** `get_overall_progress(activities)`. */
  function OverallProgress(activities: seq<Activity>): (r: bool)
    ensures r <==> forall k :: 0 <= k < |activities| ==> activities[k].progress == Some(100)
    decreases |activities|
  {
    if activities == [] then true
    else if activities[0].progress != Some(100) then false
    else
      assert forall k :: 1 <= k < |activities| ==> activities[k] == activities[1..][k - 1];
      OverallProgress(activities[1..])
  }

  /** `get_overall_statuscode(activities)`. */
  function OverallStatusCode(activities: seq<Activity>): (r: bool)
    ensures r <==> forall k :: 0 <= k < |activities| ==> activities[k].statusCode == Some("Successful")
    decreases |activities|
  {
    if activities == [] then true
    else if activities[0].statusCode != Some("Successful") then false
    else
      assert forall k :: 1 <= k < |activities| ==> activities[k] == activities[1..][k - 1];
      OverallStatusCode(activities[1..])
  }

  const MinAgeMinutes := 10

  /** `recently_scaled(activity)`: the activity ended less than ten minutes
      before `now`. */
  predicate RecentlyScaled(a: Activity, now: int) {
    a.endTime.Some? && a.endTime.value > now - MinAgeMinutes * 60
  }

  /** An activity without an end never counts as recent, and one that counts
      still counts if it ended later or is looked at earlier. */
  lemma RecentlyScaledMonotone(a: Activity, b: Activity, now: int, earlier: int)
    requires RecentlyScaled(a, now) && b.endTime.Some? && b.endTime.value >= a.endTime.value && earlier <= now
    ensures RecentlyScaled(b, now) && RecentlyScaled(a, earlier)
    ensures !RecentlyScaled(Activity(a.progress, a.statusCode, None), now)
  {
  }

  /** The test of the second loop of `get_next_asg_action`: the instance runs
      its group's launch template version and the group was scaled recently. */
  predicate UpToDate(asg: Asg, i: Instance, recent: bool) {
    asg.launchTemplateVersion.Some? && i.launchTemplateVersion.Some? &&
    asg.launchTemplateVersion == i.launchTemplateVersion && recent
  }

  /** The group has an instance the second loop stops at. */
  predicate HasStale(asg: Asg, recent: bool) {
    exists k :: 0 <= k < |asg.instances| && !UpToDate(asg, asg.instances[k], recent)
  }

  predicate IsEmpty(asg: Asg) {
    |asg.instances| == 0
  }

  /** Whether the group was scaled recently, by its entry in `last`. */
  predicate Recent(asg: Asg, last: map<string, Activity>, now: int) {
    asg.name in last && RecentlyScaled(last[asg.name], now)
  }

  /** `get_next_asg_action(asgs, last_activities)`. */
  function GetNextAsgAction(asgs: seq<Asg>, last: map<string, Activity>, now: int): Option<NextAsgAction>
    requires forall k :: 0 <= k < |asgs| ==> asgs[k].name in last
  {
    var empty := FirstWhere(asgs, IsEmpty);
    if empty.Some? then Some(NextAsgAction(asgs[empty.value].name, Out))
    else
      var stale := FirstWhere(asgs, (a: Asg) => HasStale(a, Recent(a, last, now)));
      if stale.Some? then Some(NextAsgAction(asgs[stale.value].name, In)) else None
  }

  /** A group without instances is scaled out, the first such group in list
      order, and this takes priority over any scale-in. */
  lemma EmptyGroupScalesOut(asgs: seq<Asg>, last: map<string, Activity>, now: int, k: nat)
    requires forall j :: 0 <= j < |asgs| ==> asgs[j].name in last
    requires k < |asgs| && IsEmpty(asgs[k]) && forall j :: 0 <= j < k ==> !IsEmpty(asgs[j])
    ensures GetNextAsgAction(asgs, last, now) == Some(NextAsgAction(asgs[k].name, Out))
  {
    var empty := FirstWhere(asgs, IsEmpty);
    assert empty.Some?;
    assert empty.value == k;
  }

  /** Scaling out happens only on an empty group, the first one in list order. */
  lemma ScaleOutTarget(asgs: seq<Asg>, last: map<string, Activity>, now: int)
    requires forall j :: 0 <= j < |asgs| ==> asgs[j].name in last
    requires var r := GetNextAsgAction(asgs, last, now); r.Some? && r.value.action == Out
    ensures var r := GetNextAsgAction(asgs, last, now);
      exists k :: 0 <= k < |asgs| && asgs[k].name == r.value.asgName && IsEmpty(asgs[k]) &&
                  forall j :: 0 <= j < k ==> !IsEmpty(asgs[j])
  {
    var empty := FirstWhere(asgs, IsEmpty);
    var k := empty.value;
    assert asgs[k].name == GetNextAsgAction(asgs, last, now).value.asgName;
  }

  /** Scaling in happens only when no group is empty, on the first group with
      an instance off the group's version or not scaled recently. */
  lemma ScaleInTarget(asgs: seq<Asg>, last: map<string, Activity>, now: int)
    requires forall j :: 0 <= j < |asgs| ==> asgs[j].name in last
    requires var r := GetNextAsgAction(asgs, last, now); r.Some? && r.value.action == In
    ensures forall j :: 0 <= j < |asgs| ==> !IsEmpty(asgs[j])
    ensures var r := GetNextAsgAction(asgs, last, now);
      exists k :: 0 <= k < |asgs| && asgs[k].name == r.value.asgName &&
                  HasStale(asgs[k], RecentlyScaled(last[asgs[k].name], now)) &&
                  forall j :: 0 <= j < k ==> !HasStale(asgs[j], RecentlyScaled(last[asgs[j].name], now))
  {
    var stale := FirstWhere(asgs, (a: Asg) => HasStale(a, Recent(a, last, now)));
    var k := stale.value;
    assert asgs[k].name == GetNextAsgAction(asgs, last, now).value.asgName;
  }

  /** A group the second loop passes over: it has instances, was scaled
      recently, and every instance runs the group's launch template version. */
  predicate Settled(asg: Asg, recent: bool) {
    !IsEmpty(asg) && recent &&
    forall i :: 0 <= i < |asg.instances| ==>
      asg.launchTemplateVersion.Some? && asg.instances[i].launchTemplateVersion == asg.launchTemplateVersion
  }

  /** Nothing is left to do exactly when every group is settled. */
  lemma NothingToDo(asgs: seq<Asg>, last: map<string, Activity>, now: int)
    requires forall j :: 0 <= j < |asgs| ==> asgs[j].name in last
    ensures GetNextAsgAction(asgs, last, now).None? <==>
      forall j :: 0 <= j < |asgs| ==> Settled(asgs[j], RecentlyScaled(last[asgs[j].name], now))
  {
    forall j | 0 <= j < |asgs| && !IsEmpty(asgs[j])
      ensures !HasStale(asgs[j], Recent(asgs[j], last, now)) <==> Settled(asgs[j], RecentlyScaled(last[asgs[j].name], now))
    {
      var asg := asgs[j];
      var recent := Recent(asg, last, now);
      assert recent == RecentlyScaled(last[asg.name], now);
      if !HasStale(asg, recent) {
        assert UpToDate(asg, asg.instances[0], recent);
        forall i | 0 <= i < |asg.instances|
          ensures asg.launchTemplateVersion.Some? && asg.instances[i].launchTemplateVersion == asg.launchTemplateVersion
        {
          assert UpToDate(asg, asg.instances[i], recent);
        }
      }
      if Settled(asg, recent) {
        forall i | 0 <= i < |asg.instances|
          ensures UpToDate(asg, asg.instances[i], recent)
        {
        }
      }
    }
    var empty := FirstWhere(asgs, IsEmpty);
    if empty.Some? {
      assert !Settled(asgs[empty.value], RecentlyScaled(last[asgs[empty.value].name], now));
    }
  }

  const Emoji := ":robot_face:"
  const Username := "AutoRecycling"

  /** The next value of the counter: one more than a truthy counter, else 1. */
  function NextCounter(counter: Option<int>): int {
    if counter.Some? && counter.value != 0 then counter.value + 1 else 1
  }

  /** `create_output_params(event)`: the output starts from the event's
      channels, component, monitoring channel, pager flag, success channel and
      team, with the counter advanced, the emoji, username and bold component
      text, and status True. */
  function CreateOutputParams(e: Event): (out: Event)
    ensures out.channels == e.channels && out.component == e.component &&
            out.monitoringSlackChannel == e.monitoringSlackChannel && out.notifyPagerDuty == e.notifyPagerDuty &&
            out.successChannel == e.successChannel && out.team == e.team
    ensures out.counter == Some(NextCounter(e.counter))
    ensures out.emoji == Some(Emoji) && out.username == Some(Username) &&
            out.text == Some("*" + e.component + "*") && out.status == Some(Flag(true))
    ensures out.exception.None? && out.messageContent.None? && out.pagerDutyDescription.None? &&
            out.pagerDutyEventType.None? && out.recycleSuccess.None?
  {
    NewEvent(e.component, e.successChannel).(
      channels := e.channels, counter := Some(NextCounter(e.counter)), emoji := Some(Emoji),
      monitoringSlackChannel := e.monitoringSlackChannel, notifyPagerDuty := e.notifyPagerDuty,
      status := Some(Flag(true)), team := e.team, text := Some("*" + e.component + "*"), username := Some(Username))
  }

  /** The output of a first run (no counter, or 0) carries counter 1, and a
      positive counter always grows by one. */
  lemma CounterAdvances(e: Event)
    ensures e.counter.None? || e.counter == Some(0) ==> CreateOutputParams(e).counter == Some(1)
    ensures e.counter.Some? && e.counter.value > 0 ==>
              CreateOutputParams(e).counter == Some(e.counter.value + 1) && CreateOutputParams(e).counter.value > 1
  {
  }
}
