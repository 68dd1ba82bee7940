/** `autorecycle_invoke_stepfunctions/get_component_details.py`: which component
    an Auto Scaling CloudTrail event asks to recycle, and whether the group's
    tags allow it. */
module ComponentDetails {
  import opened Wrappers
  import opened Strs

  /** The exceptions of the event lookups. */
  datatype LookupError = KeyError(key: string) | IndexError

  /** An entry of a JSON object that should be a dictionary: missing, present
      but not a dictionary, or a dictionary. */
  datatype Entry<T> = Absent | NotADict | Dict(value: T)

  /** An entry of `requestParameters.tags`; only `resourceId` is read. */
  datatype TagRef = TagRef(resourceId: Option<string>)

  /** The `requestParameters` entries read; the two launch ones only for their
      presence. */
  datatype RequestParameters = RequestParameters(tags: Option<seq<TagRef>>, autoScalingGroupName: Option<string>,
                                                 hasLaunchConfigurationName: bool, hasLaunchTemplate: bool)

  datatype Detail = Detail(eventName: Option<string>, requestParameters: Entry<RequestParameters>)

  datatype CloudTrailEvent = CloudTrailEvent(detail: Entry<Detail>)

  /** `name.split("-asg-")[0]`: the text before the first `-asg-`. */
  function ComponentOf(name: string): (c: string)
    ensures StartsWith(name, c)
    ensures c == name || StartsWith(name[|c|..], "-asg-")
    ensures forall i :: 0 <= i < |c| ==> !StartsWith(name[i..], "-asg-")
  {
    BeforeFirst(name, "-asg-")
  }

  /** An ASG named `<component>-asg-<suffix>` gives back its component exactly
      when no `-asg-` starts inside the component (so `auth-db` is kept, while
      `a-asg-b` and `a-asg` are cut at their own `-asg`). */
  lemma ComponentOfAsgName(component: string, suffix: string)
    ensures ComponentOf(component + "-asg-" + suffix) == component <==>
            !Contains(component + "-asg", "-asg-")
  {
    BeforeFirstAtIff(component, "-asg-", suffix);
    assert "-asg-"[..4] == "-asg";
  }

  predicate IsTagEvent(d: Detail) {
    d.eventName == Some("CreateOrUpdateTags") || d.eventName == Some("DeleteTags")
  }

  /** `get_component_name(event)`: None for events without a detail, without
      parameters, or without a component; for tag events the component comes
      from the first tag's resource, for other events from the group name, and
      only when the launch configuration or template changed. */
  function GetComponentName(e: CloudTrailEvent): (r: Result<Option<string>, LookupError>)
    ensures !e.detail.Dict? ==> r == Success(None)
    ensures e.detail.Dict? && !e.detail.value.requestParameters.Dict? ==> r == Success(None)
    ensures r.Success? && r.value.Some? ==>
              (r.value.value != "" && e.detail.Dict? && e.detail.value.requestParameters.Dict? &&
               var p := e.detail.value.requestParameters.value;
               if IsTagEvent(e.detail.value) then
                 p.tags.Some? && |p.tags.value| > 0 && p.tags.value[0].resourceId.Some? &&
                 r.value.value == ComponentOf(p.tags.value[0].resourceId.value)
               else
                 p.autoScalingGroupName.Some? && r.value.value == ComponentOf(p.autoScalingGroupName.value) &&
                 (p.hasLaunchConfigurationName || p.hasLaunchTemplate))
    ensures (r.Success? && r.value.Some?) <==>
              e.detail.Dict? && e.detail.value.requestParameters.Dict? &&
              var p := e.detail.value.requestParameters.value;
              if IsTagEvent(e.detail.value) then
                p.tags.Some? && |p.tags.value| > 0 && p.tags.value[0].resourceId.Some? &&
                ComponentOf(p.tags.value[0].resourceId.value) != ""
              else
                p.autoScalingGroupName.Some? && ComponentOf(p.autoScalingGroupName.value) != "" &&
                (p.hasLaunchConfigurationName || p.hasLaunchTemplate)
    ensures e.detail.Dict? && e.detail.value.requestParameters.Dict? ==>
              var p := e.detail.value.requestParameters.value;
              if IsTagEvent(e.detail.value) then
                (p.tags.None? ==> r == Success(None)) &&
                (p.tags == Some([]) ==> r == Failure(IndexError)) &&
                (p.tags.Some? && |p.tags.value| > 0 && p.tags.value[0].resourceId.None? ==>
                   r == Failure(KeyError("resourceId")))
              else
                p.autoScalingGroupName.None? ==> r == Failure(KeyError("autoScalingGroupName"))
    ensures r.Failure? ==> r.error == IndexError || r.error == KeyError("resourceId") ||
                           r.error == KeyError("autoScalingGroupName")
  {
    if !e.detail.Dict? then Success(None)
    else if !e.detail.value.requestParameters.Dict? then Success(None)
    else
      var p := e.detail.value.requestParameters.value;
      if IsTagEvent(e.detail.value) then
        if p.tags.None? then Success(None)
        else if |p.tags.value| == 0 then Failure(IndexError)
        else if p.tags.value[0].resourceId.None? then Failure(KeyError("resourceId"))
        else
          var name := ComponentOf(p.tags.value[0].resourceId.value);
          if name == "" then Success(None) else Success(Some(name))
      else if p.autoScalingGroupName.None? then Failure(KeyError("autoScalingGroupName"))
      else
        var name := ComponentOf(p.autoScalingGroupName.value);
        if name == "" then Success(None)
        else if !p.hasLaunchConfigurationName && !p.hasLaunchTemplate then Success(None)
        else Success(Some(name))
  }

  /** A group update that changes neither the launch configuration nor the
      launch template recycles nothing. */
  lemma UnchangedLaunchSkips(e: CloudTrailEvent)
    requires e.detail.Dict? && e.detail.value.requestParameters.Dict? && !IsTagEvent(e.detail.value)
    requires var p := e.detail.value.requestParameters.value;
      p.autoScalingGroupName.Some? && !p.hasLaunchConfigurationName && !p.hasLaunchTemplate
    ensures GetComponentName(e) == Success(None)
  {
  }

  /** An ASG tag value as `get_autorecycling_tags` stores it. */
  datatype TagValue = Text(s: string) | Flag(b: bool)

  /** Python truthiness of a tag value. */
  predicate Truthy(v: TagValue) {
    match v
    case Text(s) => s != ""
    case Flag(b) => b
  }

  const RequiredTags := ["autorecycle_recycle_on_asg_update", "autorecycle_strategy"]

  /** The verdict of `assert_recyclable` and the missing tags it logs. */
  datatype Verdict = Verdict(recyclable: bool, missing: seq<string>)

  /** `assert_recyclable(asg_tags, component, environment)`. */
  function AssertRecyclable(tags: map<string, TagValue>): (v: Verdict)
    ensures forall t :: t in v.missing <==> t in RequiredTags && t !in tags
    ensures v.recyclable <==> v.missing == [] && Truthy(tags["autorecycle_recycle_on_asg_update"])
  {
    var m := (if RequiredTags[0] in tags then [] else [RequiredTags[0]]) +
             (if RequiredTags[1] in tags then [] else [RequiredTags[1]]);
    if m != [] then Verdict(false, m)
    else Verdict(Truthy(tags["autorecycle_recycle_on_asg_update"]), [])
  }

  /** The missing tags are listed in the order of the required tags. */
  lemma MissingInOrder(tags: map<string, TagValue>)
    requires RequiredTags[0] !in tags && RequiredTags[1] !in tags
    ensures AssertRecyclable(tags).missing == RequiredTags
  {
  }
}
