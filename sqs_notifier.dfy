/** `autorecycle/autorecycle_lambda.py`: queue a component for recycling on its
    SQS queue and build the Slack notification that reports the outcome. The
    SQS reply is a parameter; the `environment` variable is a parameter too. */
module SqsNotifier {
  import opened Wrappers
  import opened Strs

  const SqsUrl := "https://sqs.eu-west-2.amazonaws.com"
  const FailureChannel := "team-infra-alerts"
  const SuccessText := "Auto-recycling was successfully initiated"
  const FailureText := "Auto-recycling has failed"

  datatype Field = Field(title: string, value: Option<string>, short: bool)
  datatype MessageContent = MessageContent(text: string, color: string, fields: seq<Field>)

  /** The notification dictionary `output` returns. */
  datatype Notification = Notification(username: string, channels: string, emoji: string, text: string,
                                       status: string, component: string, messageContent: MessageContent)

  /** `output(component, success, channel)`. */
  function Output(component: string, success: bool, channel: string, environment: Option<string>): (n: Notification)
    ensures success ==> n.status == "success" && n.messageContent.text == SuccessText &&
                        n.messageContent.color == "good" && n.channels == channel
    ensures !success ==> n.status == "failure" && n.messageContent.text == FailureText &&
                         n.messageContent.color == "danger" && n.channels == FailureChannel
    ensures n.username == "AutoRecycling" && n.emoji == ":robot_face:" && n.component == component
    ensures n.text == "*" + component + "*"
    ensures n.messageContent.fields ==
              [Field("Component Name", Some("recycle-" + component), true), Field("Environment", environment, true)]
  {
    var outcome := if success then SuccessText else FailureText;
    var status := if success then "success" else "failure";
    var channels := if success then channel else FailureChannel;
    var content := MessageContent(outcome, if status == "success" then "good" else "danger",
                                  [Field("Component Name", Some("recycle-" + component), true),
                                   Field("Environment", environment, true)]);
    Notification("AutoRecycling", channels, ":robot_face:", "*" + component + "*", status, component, content)
  }

  /** The component can be read back from the notification text. */
  lemma OutputNamesComponent(component: string, success: bool, channel: string, environment: Option<string>)
    ensures var t := Output(component, success, channel, environment).text;
      |t| >= 2 && t[1..|t| - 1] == component
  {
  }

  /** `SQS_URL + "/{account_id}/recycle-{component}"`. */
  function QueueUrl(accountId: string, component: string): (url: string)
    ensures StartsWith(url, SqsUrl + "/" + accountId + "/")
    ensures EndsWith(url, "recycle-" + component)
  {
    var url := SqsUrl + "/" + accountId + "/" + "recycle-" + component;
    assert url == (SqsUrl + "/" + accountId + "/") + ("recycle-" + component);
    url
  }

  /** The `send_message` request: queue, attributes and body. */
  datatype SendMessage = SendMessage(queueUrl: string, componentAttribute: string, accountIdAttribute: string, body: string)

  /** What `send_message` did: a reply with or without a MessageId, a
      ClientError, or any other exception. */
  datatype SqsReply = Replied(hasMessageId: bool) | ClientError | OtherException

  /** `send_to_sqs(component, account_id, channel)`: the request it sends and the
      notification it returns. */
  datatype Sent = Sent(request: SendMessage, notification: Notification)

  function SendToSqs(component: string, accountId: string, channel: string, reply: SqsReply,
                     environment: Option<string>): (s: Sent)
    ensures s.request == SendMessage(QueueUrl(accountId, component), component, accountId, "Recycle " + component)
  {
    var request := SendMessage(QueueUrl(accountId, component), component, accountId, "Recycle " + component);
    var success := match reply
      case Replied(hasMessageId) => hasMessageId
      case ClientError => false
      case OtherException => false;
    Sent(request, Output(component, success, channel, environment))
  }

  /** The send never raises: it reports success exactly when SQS returned a
      MessageId, and otherwise a failure on the alerts channel. */
  lemma SendReportsOutcome(component: string, accountId: string, channel: string, reply: SqsReply,
                           environment: Option<string>)
    ensures var n := SendToSqs(component, accountId, channel, reply, environment).notification;
      (n.status == "success" <==> reply == Replied(true)) &&
      (n.status == "success" ==> n.channels == channel) &&
      (n.status != "success" ==> n.status == "failure" && n.channels == FailureChannel)
  {
  }

  /** The entries of the event the handler reads. */
  datatype Event = Event(component: Option<string>, accountId: Option<string>, successChannel: Option<string>)

  /** `lambda_handler(event, context)`: the three keys are read in order, and a
      missing one raises KeyError before anything is sent. */
  function LambdaHandler(e: Event, reply: SqsReply, environment: Option<string>): (r: Result<Sent, string>)
    ensures e.component.None? ==> r == Failure("component")
    ensures e.component.Some? && e.accountId.None? ==> r == Failure("account_id")
    ensures e.component.Some? && e.accountId.Some? && e.successChannel.None? ==> r == Failure("success_channel")
    ensures r.Success? <==> e.component.Some? && e.accountId.Some? && e.successChannel.Some?
    ensures r.Success? ==> r.value == SendToSqs(e.component.value, e.accountId.value, e.successChannel.value, reply, environment)
  {
    if e.component.None? then Failure("component")
    else if e.accountId.None? then Failure("account_id")
    else if e.successChannel.None? then Failure("success_channel")
    else Success(SendToSqs(e.component.value, e.accountId.value, e.successChannel.value, reply, environment))
  }
}
