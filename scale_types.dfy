/** `autorecycle_scale_asg/lambda_types.py`: the event the scaling Lambda
    receives from the state machine and returns to it. `component` and
    `success_channel` are required, `monitoring_slack_channel` has a default,
    and every other field defaults to None. */
module ScaleTypes {
  import opened Wrappers

  /** `channels`: one channel name or a list of them. */
  datatype Channels = Channel(name: string) | ChannelList(names: seq<string>)

  /** `status`: a flag or a word such as "fail". */
  datatype Status = Flag(flag: bool) | Word(word: string)

  /** One entry of a Slack message's `fields`. */
  datatype Field = Field(title: string, value: Option<string>, short: bool)

  datatype MessageContent = MessageContent(color: Option<string>, fields: Option<seq<Field>>, text: Option<string>)

  datatype Event = Event(
    channels: Option<Channels>,
    component: string,
    counter: Option<int>,
    emoji: Option<string>,
    exception: Option<string>,
    messageContent: Option<MessageContent>,
    monitoringSlackChannel: string,
    pagerDutyDescription: Option<string>,
    pagerDutyEventType: Option<string>,
    notifyPagerDuty: Option<bool>,
    recycleSuccess: Option<bool>,
    status: Option<Status>,
    successChannel: string,
    team: Option<string>,
    text: Option<string>,
    username: Option<string>)

  const DefaultMonitoringChannel := "team-infra-alerts"

  /** `Event(component=..., success_channel=...)`: every other field takes its
      default. */
  function NewEvent(component: string, successChannel: string): (e: Event)
    ensures e.component == component && e.successChannel == successChannel
    ensures e.monitoringSlackChannel == DefaultMonitoringChannel
    ensures e.channels.None? && e.counter.None? && e.emoji.None? && e.exception.None? &&
            e.messageContent.None? && e.pagerDutyDescription.None? && e.pagerDutyEventType.None? &&
            e.notifyPagerDuty.None? && e.recycleSuccess.None? && e.status.None? && e.team.None? &&
            e.text.None? && e.username.None?
  {
    Event(None, component, None, None, None, None, DefaultMonitoringChannel, None, None, None, None, None,
          successChannel, None, None, None)
  }
}
