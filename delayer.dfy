/** `autorecycle_delayer/aws_autorecycle_delayer_lambda.py`: whether a recycle
    must wait for the component's recycle window, and until when. The window
    is "start,end" in `H:M:S` times of day; a window whose start is after its
    end runs overnight. The current time of day is a parameter; the handler
    takes it from the host's naive local clock, which it labels Europe/London
    without converting it. The time to wait for is returned as a day offset
    (today or tomorrow) and the start time instead of an RFC 3339 string. */
module Delayer {
  import opened Wrappers
  import opened Strs

  /** The exceptions the handler can raise. */
  datatype DelayError = KeyError(key: string) | ValueError | IndexError

  /** A `datetime.time`. */
  datatype Clock = Clock(hour: int, minute: int, second: int, micro: int)

  predicate ValidClock(c: Clock) {
    0 <= c.hour < 24 && 0 <= c.minute < 60 && 0 <= c.second < 60 && 0 <= c.micro < 1_000_000
  }

  const MicrosPerDay := 86_400_000_000

  /** Microseconds since midnight; for valid clocks this orders times as
      `datetime.time` comparison does, field by field. */
  function OfDay(c: Clock): int {
    ((c.hour * 60 + c.minute) * 60 + c.second) * 1_000_000 + c.micro
  }

  lemma OfDayInDay(c: Clock)
    requires ValidClock(c)
    ensures 0 <= OfDay(c) < MicrosPerDay
  {
  }

  /** `datetime.time(h, m, s)`: ValueError outside the valid ranges. */
  function MakeTime(h: int, m: int, s: int): (r: Result<Clock, DelayError>)
    ensures r.Success? <==> 0 <= h < 24 && 0 <= m < 60 && 0 <= s < 60
    ensures r.Success? ==> r.value == Clock(h, m, s, 0) && ValidClock(r.value)
    ensures r.Failure? ==> r.error == ValueError
  {
    if 0 <= h < 24 && 0 <= m < 60 && 0 <= s < 60 then Success(Clock(h, m, s, 0)) else Failure(ValueError)
  }

  /** The three fields of `s` parse as integers. */
  predicate ParsesAsThree(s: string) {
    var f := Split(s, ':');
    |f| == 3 && ParseInt(f[0]).Some? && ParseInt(f[1]).Some? && ParseInt(f[2]).Some?
  }

  /** `str_to_time(time_str)`: exactly three `:`-separated integers forming a
      valid time of day, otherwise ValueError. */
  function StrToTime(s: string): (r: Result<Clock, DelayError>)
    ensures r.Success? <==>
              (ParsesAsThree(s) &&
               MakeTime(ParseInt(Split(s, ':')[0]).value, ParseInt(Split(s, ':')[1]).value,
                        ParseInt(Split(s, ':')[2]).value).Success?)
    ensures r.Success? ==> ValidClock(r.value) && r.value.micro == 0
    ensures r.Failure? ==> r.error == ValueError
  {
    var f := Split(s, ':');
    if |f| != 3 then Failure(ValueError)
    else
      var h := ParseInt(f[0]);
      var m := ParseInt(f[1]);
      var sec := ParseInt(f[2]);
      if h.None? || m.None? || sec.None? then Failure(ValueError)
      else MakeTime(h.value, m.value, sec.value)
  }

  /** A time of day written `H:M:S`. */
  function TimeText(c: Clock): string
    requires ValidClock(c)
  {
    NatToString(c.hour) + ":" + NatToString(c.minute) + ":" + NatToString(c.second)
  }

  /** Every whole-second time of day written `H:M:S` reads back. */
  lemma StrToTimeText(c: Clock)
    requires ValidClock(c) && c.micro == 0
    ensures StrToTime(TimeText(c)) == Success(c)
  {
    TimeTextSplits(c);
    ParseIntToString(c.hour);
    ParseIntToString(c.minute);
    ParseIntToString(c.second);
  }

  /** `H:M:S` splits at its two colons into the three numbers. */
  lemma TimeTextSplits(c: Clock)
    requires ValidClock(c)
    ensures Split(TimeText(c), ':') == [NatToString(c.hour), NatToString(c.minute), NatToString(c.second)]
  {
    var a, b, d := NatToString(c.hour), NatToString(c.minute), NatToString(c.second);
    NoColon(a);
    NoColon(b);
    NoColon(d);
    assert TimeText(c) == a + [':'] + (b + [':'] + d);
    SplitAt(a, ':', b + [':'] + d);
    SplitAt(b, ':', d);
    SplitNone(d, ':');
  }

  lemma NoColon(s: string)
    requires forall i :: 0 <= i < |s| ==> IsDigit(s[i])
    ensures ':' !in s
  {
  }

  /** When the recycle may start: today's or tomorrow's date at `start`. */
  datatype WaitUntil = WaitUntil(dayOffset: nat, start: Clock)

  /** The handler's output: `wait`, and `time_wait` when it waits. */
  datatype Output = Output(wait: bool, timeWait: Option<WaitUntil>)

  /** The branches of the handler on a window from `start` to `end`. */
  function Decide(now: Clock, start: Clock, end: Clock): (o: Output)
    ensures o.timeWait.Some? <==> o.wait
    ensures o.wait ==> o.timeWait.value.start == start
  {
    if OfDay(start) < OfDay(end) then
      if OfDay(now) < OfDay(start) then Output(true, Some(WaitUntil(0, start)))
      else if OfDay(now) > OfDay(end) then Output(true, Some(WaitUntil(1, start)))
      else Output(false, None)
    else if OfDay(start) > OfDay(end) then
      if OfDay(start) > OfDay(now) > OfDay(end) then Output(true, Some(WaitUntil(0, start)))
      else Output(false, None)
    else Output(false, None)
  }

  /** `now` lies in the window from `start` to `end`, both ends included; an
      overnight window wraps past midnight, and a window whose ends coincide
      admits every time. */
  predicate InWindow(now: Clock, start: Clock, end: Clock) {
    if OfDay(start) < OfDay(end) then OfDay(start) <= OfDay(now) <= OfDay(end)
    else if OfDay(start) > OfDay(end) then OfDay(now) >= OfDay(start) || OfDay(now) <= OfDay(end)
    else true
  }

  /** The handler waits exactly when the time is outside the window, and then
      until the next start of the window: today while the start is still
      ahead, otherwise tomorrow. */
  lemma DecideWaitsOutsideWindow(now: Clock, start: Clock, end: Clock)
    requires ValidClock(now) && ValidClock(start) && ValidClock(end)
    ensures var o := Decide(now, start, end);
      (o.wait <==> !InWindow(now, start, end)) &&
      (o.wait ==> (o.timeWait.value.dayOffset == 0 <==> OfDay(now) < OfDay(start)) &&
                  o.timeWait.value.dayOffset <= 1 &&
                  o.timeWait.value.dayOffset * MicrosPerDay + OfDay(start) > OfDay(now))
  {
    OfDayInDay(now);
    OfDayInDay(start);
  }

  /** The entries of the event the handler reads. */
  datatype Event = Event(component: Option<string>, recycleWindow: Option<string>)

  /** `lambda_handler(event, context)` at the host's time of day `now`. */
  function LambdaHandler(e: Event, now: Clock): (r: Result<Output, DelayError>)
    ensures e.component.None? ==> r == Failure(KeyError("component"))
    ensures e.component.Some? && e.recycleWindow.None? ==> r == Success(Output(false, None))
    ensures e.component.Some? && e.recycleWindow.Some? ==>
              var window := Split(e.recycleWindow.value, ',');
              (r.Success? <==> |window| >= 2 && StrToTime(window[0]).Success? && StrToTime(window[1]).Success?) &&
              (|window| < 2 ==> r == Failure(if StrToTime(window[0]).Failure? then ValueError else IndexError)) &&
              (|window| >= 2 && r.Failure? ==> r == Failure(ValueError))
    ensures r.Success? ==> (r.value.timeWait.Some? <==> r.value.wait)
  {
    if e.component.None? then Failure(KeyError("component"))
    else if e.recycleWindow.None? then Success(Output(false, None))
    else
      var window := Split(e.recycleWindow.value, ',');
      var start := StrToTime(window[0]);
      if start.Failure? then Failure(start.error)
      else if |window| < 2 then Failure(IndexError)
      else
        var end := StrToTime(window[1]);
        if end.Failure? then Failure(end.error)
        else Success(Decide(now, start.value, end.value))
  }

  /** With a window, the handler decides on the window's first two times. */
  lemma HandlerUsesWindow(e: Event, now: Clock)
    requires ValidClock(now)
    requires LambdaHandler(e, now).Success? && e.recycleWindow.Some?
    ensures var window := Split(e.recycleWindow.value, ',');
      |window| >= 2 && StrToTime(window[0]).Success? && StrToTime(window[1]).Success? &&
      var start := StrToTime(window[0]).value;
      var end := StrToTime(window[1]).value;
      (LambdaHandler(e, now).value.wait <==> !InWindow(now, start, end))
  {
    var window := Split(e.recycleWindow.value, ',');
    DecideWaitsOutsideWindow(now, StrToTime(window[0]).value, StrToTime(window[1]).value);
  }
}
