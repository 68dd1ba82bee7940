/** The Lambda entry point of `process/step.py`. The Step Functions state
    machine calls it once per step with the same event dictionary, which the
    handler updates in place: it records the decision, writes the final message
    when the recycle is DONE, and counts the steps in `counter`. */
module StepHandler {
  import opened Wrappers
  import opened Strs
  import opened MongoWorld
  import opened Decisions
  import opened SensuConnector
  import opened StepProcess

  /** The `counter` entry of the event: missing, None, or an integer. */
  datatype Counter = Absent | Null | Count(n: int)

  /** The `message_content` dictionary; only its `text` entry is touched. */
  datatype MessageContent = MessageContent(text: Option<string>)

  /** The entries of the event the handler reads or writes. */
  datatype EventState = EventState(component: Option<string>, counter: Counter,
                                   decision: Option<Decision>, messageContent: Option<MessageContent>)

  /** `is_first_run(event)`: `not event.get("counter")`, true for a missing,
      None or zero counter. */
  predicate IsFirstRunOf(c: Counter) {
    c.Absent? || c.Null? || c == Count(0)
  }

  /** The counter after `increment_counter`: a missing counter starts at 0, and
      `None += 1` raises TypeError. */
  function Incremented(c: Counter): (r: Result<Counter, Error>)
    ensures r.Failure? <==> c.Null?
    ensures r.Failure? ==> r.error == TypeError
    ensures r.Success? ==> r.value.Count? && r.value.n == (if c.Count? then c.n else 0) + 1
  {
    match c
    case Absent => Success(Count(1))
    case Null => Failure(TypeError)
    case Count(n) => Success(Count(n + 1))
  }

  /** Once counted, from a missing or non-negative counter, a run is no longer the
      first. */
  lemma IncrementedNotFirst(c: Counter)
    requires c.Absent? || (c.Count? && c.n >= 0)
    ensures Incremented(c).Success? && !IsFirstRunOf(Incremented(c).value)
  {
  }

  /** `str(event["counter"])`. */
  function CounterText(c: Counter): string {
    match c
    case Count(n) => IntToString(n)
    case Null => "None"
    case Absent => ""
  }

  const NothingRecycledText := "No instances were recycled, because there was nothing to do"

  /** The text written when the recycle is DONE, after `n` earlier steps. */
  function CompletedText(counter: string): string {
    "Autorecycling has successfully completed. Recycled " + counter + " mongo instances."
  }

  /** The message for a DONE decision: how many instances were recycled when a
      counter is present, otherwise that there was nothing to do. */
  function DoneText(c: Counter): (text: string)
    ensures c.Absent? ==> text == NothingRecycledText
    ensures !c.Absent? ==> text == CompletedText(CounterText(c))
  {
    if c.Absent? then NothingRecycledText else CompletedText(CounterText(c))
  }

  /** The completed text reads back the count it was given. */
  lemma DoneTextReadsBack(n: int)
    ensures var text := DoneText(Count(n));
      var prefix := "Autorecycling has successfully completed. Recycled ";
      |text| >= |prefix| + 17 && ParseInt(text[|prefix|..|text| - 17]) == Some(n)
  {
    var prefix := "Autorecycling has successfully completed. Recycled ";
    var body := IntToString(n);
    var text := prefix + body + " mongo instances.";
    assert |" mongo instances."| == 17;
    assert text[|prefix|..|text| - 17] == body;
    ParseIntToString(n);
  }

  const SilenceSeconds := 900

  /** What a handler invocation did: its calls, the event afterwards (which
      keeps the updates made before an exception), and the exception. */
  datatype Handled = Handled(calls: seq<Call>, event: EventState, error: Option<Error>)

  /** The event and the exception after the handler has a decision. */
  datatype Updated = Updated(event: EventState, error: Option<Error>)

  /** What `lambda_handler` does with the decision `d` of a step: it records the
      decision, writes the final message for DONE (which needs an existing
      `message_content`), and counts the step. */
  function AfterStep(e: EventState, d: Decision): (u: Updated)
    ensures u.event.component == e.component
    ensures u.event.decision == Some(d)
    ensures u.error.None? <==> (d.action == Done ==> e.messageContent.Some?) && !e.counter.Null?
    ensures u.error.None? ==> Incremented(e.counter) == Success(u.event.counter)
    ensures u.error.Some? ==> u.event.counter == e.counter
    ensures d.action == Done && e.messageContent.Some? ==>
              u.event.messageContent == Some(MessageContent(Some(DoneText(e.counter))))
    ensures d.action != Done || e.messageContent.None? ==> u.event.messageContent == e.messageContent
  {
    var recorded := e.(decision := Some(d));
    if d.action == Done && e.messageContent.None? then Updated(recorded, Some(KeyError("message_content")))
    else
      var reported := if d.action == Done then recorded.(messageContent := Some(MessageContent(Some(DoneText(e.counter))))) else recorded;
      var counter := Incremented(e.counter);
      if counter.Failure? then Updated(reported, Some(counter.error))
      else Updated(reported.(counter := counter.value), None)
  }

  /** A DONE decision on an event without `message_content` raises KeyError
      after the decision was recorded and before the counter is touched. */
  lemma DoneNeedsMessageContent(e: EventState, d: Decision)
    requires d.action == Done && e.messageContent.None?
    ensures AfterStep(e, d) == Updated(e.(decision := Some(d)), Some(KeyError("message_content")))
  {
  }

  /** The calls of silencing on the first run, none otherwise. */
  function Silencing(env: Env, e: EventState, component: string, h: History): (r: Run<()>)
    ensures !IsFirstRunOf(e.counter) ==> r == Run([], Success(()))
    ensures IsFirstRunOf(e.counter) ==> r == SilenceSensuAlerts(env, component, SilenceSeconds, h)
  {
    if IsFirstRunOf(e.counter) then SilenceSensuAlerts(env, component, SilenceSeconds, h) else Run([], Success(()))
  }

  /** `lambda_handler(event, context)` as a specification. */
  function HandlerRun(env: Env, e: EventState, h: History): (r: Handled)
  {
    if e.component.None? then Handled([], e, Some(KeyError("component")))
    else
      var component := e.component.value;
      var silence := Silencing(env, e, component, h);
      if silence.result.Failure? then Handled(silence.calls, e, Some(silence.result.error))
      else
        var step := StepRun(env, component, h + silence.calls);
        var calls := silence.calls + step.calls;
        if step.result.Failure? then Handled(calls, e, Some(step.result.error))
        else
          var u := AfterStep(e, step.result.value);
          Handled(calls, u.event, u.error)
  }

  /** A run that is not the first makes no Sensu call: its calls are the
      step's. */
  lemma LaterRunsDoNotSilence(env: Env, e: EventState, h: History)
    requires e.component.Some? && !IsFirstRunOf(e.counter)
    ensures HandlerRun(env, e, h).calls == StepRun(env, e.component.value, h).calls
  {
    assert h + [] == h;
    assert [] + StepRun(env, e.component.value, h).calls == StepRun(env, e.component.value, h).calls;
  }

  /** A first run begins by silencing the warning and then the critical alert
      for 900 seconds. */
  lemma FirstRunSilences(env: Env, e: EventState, h: History)
    requires e.component.Some? && IsFirstRunOf(e.counter)
    ensures var s := SilenceSensuAlerts(env, e.component.value, SilenceSeconds, h);
      |s.calls| <= |HandlerRun(env, e, h).calls| && HandlerRun(env, e, h).calls[..|s.calls|] == s.calls &&
      PostsInOrder(s.calls, |SilenceAlertType(env, e.component.value, SilenceSeconds, Warning, h).calls|,
                   PostSilence(FinalCheckName(e.component.value, Warning), SilenceSeconds),
                   PostSilence(FinalCheckName(e.component.value, Critical), SilenceSeconds))
  {
    var s := SilenceSensuAlerts(env, e.component.value, SilenceSeconds, h);
    WarningBeforeCritical(env, e.component.value, SilenceSeconds, h);
    if s.result.Success? {
      var step := StepRun(env, e.component.value, h + s.calls);
      assert (s.calls + step.calls)[..|s.calls|] == s.calls;
    }
  }

  /** A step that raises leaves the event as it was. */
  lemma StepFailureKeepsEvent(env: Env, e: EventState, h: History)
    requires e.component.Some?
    requires var silence := SilenceSensuAlerts(env, e.component.value, SilenceSeconds, h);
      !IsFirstRunOf(e.counter) || silence.result.Success?
    requires var silence := SilenceSensuAlerts(env, e.component.value, SilenceSeconds, h);
      var calls := if IsFirstRunOf(e.counter) then silence.calls else [];
      StepRun(env, e.component.value, h + calls).result.Failure?
    ensures HandlerRun(env, e, h).event == e && HandlerRun(env, e, h).error.Some?
  {
  }

  /** A handler that returns has recorded the step's decision, counted the
      step, and written the final message exactly when the decision is DONE;
      the component is unchanged. */
  lemma HandlerRecordsStep(env: Env, e: EventState, h: History)
    requires HandlerRun(env, e, h).error.None?
    ensures var r := HandlerRun(env, e, h);
      var step := StepRun(env, e.component.value, h + Silencing(env, e, e.component.value, h).calls);
      e.component.Some? && step.result.Success? && r.event == AfterStep(e, step.result.value).event
  {
  }

  /** The event dictionary the handler updates in place. */
  class Event {
    var component: Option<string>
    var counter: Counter
    var decision: Option<Decision>
    var messageContent: Option<MessageContent>

    constructor (state: EventState)
      ensures State() == state
    {
      component := state.component;
      counter := state.counter;
      decision := state.decision;
      messageContent := state.messageContent;
    }

    function State(): EventState
      reads this
    {
      EventState(component, counter, decision, messageContent)
    }

    /** `is_first_run(event)`. */
    predicate IsFirstRun()
      reads this
    {
      IsFirstRunOf(counter)
    }

    /** `increment_counter(event)`. */
    method IncrementCounter() returns (error: Option<Error>)
      modifies this
      ensures var c := Incremented(old(counter));
        error == ErrorOf(c) &&
        State() == if c.Success? then old(State()).(counter := c.value) else old(State())
    {
      if counter.Null? {
        return Some(TypeError);
      }
      counter := if counter.Absent? then Count(1) else Count(counter.n + 1);
      error := None;
    }

    /** `lambda_handler(event, context)`. */
    method LambdaHandler(w: World) returns (error: Option<Error>)
      modifies this, w
      ensures var r := HandlerRun(w.env, old(State()), old(w.calls));
        w.calls == old(w.calls) + r.calls && State() == r.event && error == r.error
    {
      ghost var e := State();
      ghost var h0 := w.calls;
      if component.None? {
        return Some(KeyError("component"));
      }
      var comp := component.value;
      ghost var silenced: seq<Call> := [];
      if IsFirstRun() {
        var silence := SilenceSensuAlerts(w.env, comp, SilenceSeconds, w.calls);
        w.calls := w.calls + silence.calls;
        silenced := silence.calls;
        if silence.result.Failure? {
          return Some(silence.result.error);
        }
      } else {
        assert w.calls == h0 + silenced;
      }
      ghost var h1 := w.calls;
      ghost var stepRun := StepRun(w.env, comp, h1);
      var stepResult := Step(w, comp);
      AppendAssoc(h0, silenced, stepRun.calls);
      if stepResult.Failure? {
        return Some(stepResult.error);
      }
      error := Record(stepResult.value);
    }

    /** The part of `lambda_handler` after `step` returned `d`. */
    method Record(d: Decision) returns (error: Option<Error>)
      modifies this
      ensures var u := AfterStep(old(State()), d);
        State() == u.event && error == u.error
    {
      decision := Some(d);
      if d.action == Done {
        if messageContent.None? {
          return Some(KeyError("message_content"));
        }
        messageContent := Some(MessageContent(Some(DoneText(counter))));
      }
      error := IncrementCounter();
    }
  }
}
