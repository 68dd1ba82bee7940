/** The bounded poller of `utils/poll.py`: `fails_with`, `poll` and `run_until`.

    A probe is an effectful function of the history; `poll` calls it until it succeeds
    or the attempt budget is spent, sleeping between failed attempts, and re-raises the
    last error when it gives up. `run_until` calls a function until it returns a
    sentinel value, at most `max_iters` times, and lets exceptions through. */
module Polling {
  import opened Wrappers
  import opened MongoWorld

  /** `poll`'s default attempt budget. */
  const DefaultMaxIters := 50

  /** `fails_with(fn)`: the exception a call raised, or None when it returned. */
  function FailsWith<T>(run: Run<T>): (e: Option<Error>)
    ensures e.None? <==> run.result.Success?
    ensures e.Some? ==> run.result == Failure(e.value)
  {
    ErrorOf(run.result)
  }

  /** One probe attempt of `poll`: the calls the probe made, what it raised, and
      whether `poll` slept afterwards. */
  datatype Attempt = Attempt(calls: seq<Call>, error: Option<Error>, slept: bool)

  /** What `poll` did: every call made (the probe's and the sleeps), the attempts one
      by one, and the error it raised, if any. */
  datatype Polled = Polled(calls: seq<Call>, attempts: seq<Attempt>, error: Option<Error>)

  /** The sleep `poll` performs after a failed attempt that is not the last. */
  function Pause(sleepForSeconds: nat): seq<Call> {
    if sleepForSeconds > 0 then [Sleep(sleepForSeconds)] else []
  }

  /** The calls one attempt contributes: the probe's own, then the sleep if any. */
  function AttemptCalls(a: Attempt, sleepForSeconds: nat): seq<Call> {
    a.calls + if a.slept then [Sleep(sleepForSeconds)] else []
  }

  /** Every call a sequence of attempts made, in order. */
  function Flatten(attempts: seq<Attempt>, sleepForSeconds: nat): seq<Call>
    decreases |attempts|
  {
    if attempts == [] then [] else AttemptCalls(attempts[0], sleepForSeconds) + Flatten(attempts[1..], sleepForSeconds)
  }

  /** Each attempt is the probe run on the history the earlier attempts left. */
  ghost predicate Coherent(probe: History -> Run<()>, h: History, attempts: seq<Attempt>, sleepForSeconds: nat)
    decreases |attempts|
  {
    attempts == [] ||
    (var run := probe(h);
     attempts[0].calls == run.calls && attempts[0].error == FailsWith(run) &&
     Coherent(probe, h + AttemptCalls(attempts[0], sleepForSeconds), attempts[1..], sleepForSeconds))
  }

  /** The number of attempts `poll` makes at most when the current attempt is the
      `i`-th: at least this one, and up to `max_iters` in all. */
  function Budget(i: nat, maxIters: int): nat {
    if maxIters >= i then maxIters - i + 1 else 1
  }

  /** `poll`'s loop from its `i`-th attempt on, the probe running on history `h`:
      `poll` returns normally exactly when the last attempt succeeded, otherwise it
      raises the last attempt's error, and that happens only once the budget is spent;
      it never sleeps after the last attempt. */
  function PollFrom(probe: History -> Run<()>, h: History, i: nat, maxIters: int, sleepForSeconds: nat): (r: Polled)
    requires i >= 1
    ensures 1 <= |r.attempts| <= Budget(i, maxIters)
    ensures r.error == r.attempts[|r.attempts| - 1].error
    ensures r.error.Some? ==> |r.attempts| == Budget(i, maxIters)
    ensures !r.attempts[|r.attempts| - 1].slept
    decreases if maxIters > i then maxIters - i else 0
  {
    var run := probe(h);
    var error := FailsWith(run);
    if error.None? || i >= maxIters then Polled(run.calls, [Attempt(run.calls, error, false)], error)
    else
      var rest := PollFrom(probe, h + run.calls + Pause(sleepForSeconds), i + 1, maxIters, sleepForSeconds);
      Polled(run.calls + Pause(sleepForSeconds) + rest.calls,
             [Attempt(run.calls, error, sleepForSeconds > 0)] + rest.attempts, rest.error)
  }

  /** The calls `poll` made are those of its attempts, each followed by its sleep. */
  lemma {:induction false} PollFromCalls(probe: History -> Run<()>, h: History, i: nat, maxIters: int, sleepForSeconds: nat)
    requires i >= 1
    ensures var r := PollFrom(probe, h, i, maxIters, sleepForSeconds);
      r.calls == Flatten(r.attempts, sleepForSeconds)
    decreases if maxIters > i then maxIters - i else 0, 1
  {
    var run := probe(h);
    if FailsWith(run).Some? && i < maxIters {
      PollStepCalls(probe, h, i, maxIters, sleepForSeconds);
    } else {
      SingleAttemptCalls(Attempt(run.calls, FailsWith(run), false), sleepForSeconds);
    }
  }

  /** The step of `PollFromCalls`: a failed attempt with budget left. */
  lemma {:induction false} PollStepCalls(probe: History -> Run<()>, h: History, i: nat, maxIters: int, sleepForSeconds: nat)
    requires i >= 1 && FailsWith(probe(h)).Some? && i < maxIters
    ensures var r := PollFrom(probe, h, i, maxIters, sleepForSeconds);
      r.calls == Flatten(r.attempts, sleepForSeconds)
    decreases maxIters - i, 0
  {
    var run := probe(h);
    var next := h + run.calls + Pause(sleepForSeconds);
    var rest := PollFrom(probe, next, i + 1, maxIters, sleepForSeconds);
    PollFromCalls(probe, next, i + 1, maxIters, sleepForSeconds);
    ConsAttemptCalls(Attempt(run.calls, FailsWith(run), sleepForSeconds > 0), rest.calls, rest.attempts, sleepForSeconds);
  }

  /** The calls of a last attempt, after which `poll` does not sleep. */
  lemma SingleAttemptCalls(a: Attempt, sleepForSeconds: nat)
    requires !a.slept
    ensures Flatten([a], sleepForSeconds) == a.calls
  {
    assert [a][1..] == [];
    assert AttemptCalls(a, sleepForSeconds) == a.calls + [];
  }

  /** A failed attempt with budget left adds its calls and its sleep in front
      of those of the attempts after it. */
  lemma ConsAttemptCalls(a: Attempt, calls: seq<Call>, attempts: seq<Attempt>, sleepForSeconds: nat)
    requires a.slept == (sleepForSeconds > 0) && calls == Flatten(attempts, sleepForSeconds)
    ensures a.calls + Pause(sleepForSeconds) + calls == Flatten([a] + attempts, sleepForSeconds)
  {
    assert ([a] + attempts)[0] == a && ([a] + attempts)[1..] == attempts;
    assert AttemptCalls(a, sleepForSeconds) == a.calls + Pause(sleepForSeconds);
    AppendAssoc(a.calls, Pause(sleepForSeconds), calls);
  }

  /** Every attempt but the last failed, and `poll` slept after each of them exactly
      when `sleep_for_seconds` is truthy. */
  predicate EarlierFailed(attempts: seq<Attempt>, sleepForSeconds: nat) {
    forall k :: 0 <= k < |attempts| - 1 ==>
      attempts[k].error.Some? && attempts[k].slept == (sleepForSeconds > 0)
  }

  lemma {:induction false} PollFromEarlierFailed(probe: History -> Run<()>, h: History, i: nat, maxIters: int, sleepForSeconds: nat)
    requires i >= 1
    ensures EarlierFailed(PollFrom(probe, h, i, maxIters, sleepForSeconds).attempts, sleepForSeconds)
    decreases if maxIters > i then maxIters - i else 0
  {
    var run := probe(h);
    var error := FailsWith(run);
    var r := PollFrom(probe, h, i, maxIters, sleepForSeconds);
    if error.Some? && i < maxIters {
      var rest := PollFrom(probe, h + run.calls + Pause(sleepForSeconds), i + 1, maxIters, sleepForSeconds);
      PollFromEarlierFailed(probe, h + run.calls + Pause(sleepForSeconds), i + 1, maxIters, sleepForSeconds);
      assert r.attempts == [Attempt(run.calls, error, sleepForSeconds > 0)] + rest.attempts;
      forall k | 0 <= k < |r.attempts| - 1
        ensures r.attempts[k].error.Some? && r.attempts[k].slept == (sleepForSeconds > 0)
      {
        if k > 0 {
          assert r.attempts[k] == rest.attempts[k - 1];
        }
      }
    }
  }

  /** Each attempt is the probe run on the history that the earlier ones left. */
  lemma {:induction false} PollFromCoherent(probe: History -> Run<()>, h: History, i: nat, maxIters: int, sleepForSeconds: nat)
    requires i >= 1
    ensures Coherent(probe, h, PollFrom(probe, h, i, maxIters, sleepForSeconds).attempts, sleepForSeconds)
    decreases if maxIters > i then maxIters - i else 0, 1
  {
    var run := probe(h);
    if FailsWith(run).Some? && i < maxIters {
      PollStepCoherent(probe, h, i, maxIters, sleepForSeconds);
    } else {
      var r := PollFrom(probe, h, i, maxIters, sleepForSeconds);
      assert r.attempts[1..] == [];
    }
  }

  /** The step of `PollFromCoherent`: a failed attempt with budget left. */
  lemma {:induction false} PollStepCoherent(probe: History -> Run<()>, h: History, i: nat, maxIters: int, sleepForSeconds: nat)
    requires i >= 1 && FailsWith(probe(h)).Some? && i < maxIters
    ensures Coherent(probe, h, PollFrom(probe, h, i, maxIters, sleepForSeconds).attempts, sleepForSeconds)
    decreases maxIters - i, 0
  {
    var run := probe(h);
    var r := PollFrom(probe, h, i, maxIters, sleepForSeconds);
    var a := Attempt(run.calls, FailsWith(run), sleepForSeconds > 0);
    var next := h + run.calls + Pause(sleepForSeconds);
    var rest := PollFrom(probe, next, i + 1, maxIters, sleepForSeconds);
    PollFromCoherent(probe, next, i + 1, maxIters, sleepForSeconds);
    assert r.attempts[0] == a && r.attempts[1..] == rest.attempts;
    AppendAssoc(h, run.calls, Pause(sleepForSeconds));
  }

  /** `poll(fn, max_iters, sleep_for_seconds)` on history `h`; a falsy
      `sleep_for_seconds` (None or 0) is 0 here. */
  function PollRun(probe: History -> Run<()>, h: History, maxIters: int, sleepForSeconds: nat): Polled {
    PollFrom(probe, h, 1, maxIters, sleepForSeconds)
  }

  /** When `poll` raises, it has made max(max_iters, 1) attempts, every one of them
      failed, and the error is the last attempt's. */
  lemma PollGivesUp(probe: History -> Run<()>, h: History, maxIters: int, sleepForSeconds: nat)
    requires PollRun(probe, h, maxIters, sleepForSeconds).error.Some?
    ensures var p := PollRun(probe, h, maxIters, sleepForSeconds);
      |p.attempts| == (if maxIters >= 1 then maxIters else 1) &&
      (forall k :: 0 <= k < |p.attempts| ==> p.attempts[k].error.Some?) &&
      p.error == p.attempts[|p.attempts| - 1].error
  {
    PollFromEarlierFailed(probe, h, 1, maxIters, sleepForSeconds);
  }

  /** A probe that succeeds at once is called exactly once, and `poll` does not sleep. */
  lemma PollFirstSuccess(probe: History -> Run<()>, h: History, maxIters: int, sleepForSeconds: nat)
    requires probe(h).result.Success?
    ensures PollRun(probe, h, maxIters, sleepForSeconds) == Polled(probe(h).calls, [Attempt(probe(h).calls, None, false)], None)
  {
  }

  /** If the probe first succeeds at its `n`-th attempt and `n` is within the
      budget, `poll` makes exactly `n` attempts and returns normally. */
  lemma PollSucceedsAt(probe: History -> Run<()>, h: History, maxIters: int, sleepForSeconds: nat, n: nat)
    requires 1 <= n <= maxIters
    requires var p := PollRun(probe, h, maxIters, sleepForSeconds);
      n - 1 < |p.attempts| && p.attempts[n - 1].error.None?
    ensures var p := PollRun(probe, h, maxIters, sleepForSeconds);
      |p.attempts| == n && p.error.None?
  {
    PollFromEarlierFailed(probe, h, 1, maxIters, sleepForSeconds);
  }

  /** Against a probe that never succeeds, `poll` makes exactly max(max_iters, 1)
      attempts and raises. */
  lemma {:induction false} PollAlwaysFailing(probe: History -> Run<()>, h: History, i: nat, maxIters: int, sleepForSeconds: nat)
    requires i >= 1
    requires forall g :: probe(g).result.Failure?
    ensures var p := PollFrom(probe, h, i, maxIters, sleepForSeconds);
      p.error.Some? && |p.attempts| == Budget(i, maxIters)
    decreases if maxIters > i then maxIters - i else 0
  {
    var run := probe(h);
    assert run.result.Failure?;
    if i < maxIters {
      var next := PollFrom(probe, h + run.calls + Pause(sleepForSeconds), i + 1, maxIters, sleepForSeconds);
      assert PollFrom(probe, h, i, maxIters, sleepForSeconds).error == next.error;
      PollAlwaysFailing(probe, h + run.calls + Pause(sleepForSeconds), i + 1, maxIters, sleepForSeconds);
    }
  }

  /** The number of sleeps `poll` performed. */
  function Sleeps(attempts: seq<Attempt>): nat
    decreases |attempts|
  {
    if attempts == [] then 0 else Sleeps(attempts[1..]) + if attempts[0].slept then 1 else 0
  }

  /** `poll` sleeps once after every attempt but the last when `sleep_for_seconds`
      is truthy, and never otherwise. */
  lemma PollSleeps(probe: History -> Run<()>, h: History, maxIters: int, sleepForSeconds: nat)
    ensures var p := PollRun(probe, h, maxIters, sleepForSeconds);
      Sleeps(p.attempts) == if sleepForSeconds > 0 then |p.attempts| - 1 else 0
  {
    var p := PollRun(probe, h, maxIters, sleepForSeconds);
    PollFromEarlierFailed(probe, h, 1, maxIters, sleepForSeconds);
    SleepsCount(p.attempts, sleepForSeconds > 0);
  }

  lemma {:induction false} SleepsCount(attempts: seq<Attempt>, b: bool)
    requires |attempts| >= 1 && !attempts[|attempts| - 1].slept
    requires forall k :: 0 <= k < |attempts| - 1 ==> attempts[k].slept == b
    ensures Sleeps(attempts) == if b then |attempts| - 1 else 0
    decreases |attempts|
  {
    if |attempts| > 1 {
      SleepsCount(attempts[1..], b);
    }
  }

  /** `poll` makes no calls of its own besides its sleeps: when every probe run stays
      within a set of calls, so does the whole poll, sleeps added. */
  lemma {:induction false} PollWithin(probe: History -> Run<()>, h: History, i: nat, maxIters: int, sleepForSeconds: nat, allowed: set<Call>)
    requires i >= 1
    requires forall g :: Within(probe(g).calls, allowed)
    ensures Within(PollFrom(probe, h, i, maxIters, sleepForSeconds).calls, allowed + {Sleep(sleepForSeconds)})
    decreases if maxIters > i then maxIters - i else 0
  {
    var all := allowed + {Sleep(sleepForSeconds)};
    var run := probe(h);
    assert Within(run.calls, all);
    if FailsWith(run).Some? && i < maxIters {
      var g := h + run.calls + Pause(sleepForSeconds);
      PollWithin(probe, g, i + 1, maxIters, sleepForSeconds, allowed);
      var rest := PollFrom(probe, g, i + 1, maxIters, sleepForSeconds);
      WithinAppend(run.calls, Pause(sleepForSeconds), all);
      WithinAppend(run.calls + Pause(sleepForSeconds), rest.calls, all);
    }
  }

  /** A probe applied to a history; methods apply probes through this function. */
  function Probe<T>(probe: History -> Run<T>, h: History): Run<T> {
    probe(h)
  }

  /** `poll(fn, max_iters, sleep_for_seconds)`. */
  method Poll(w: World, probe: History -> Run<()>, maxIters: int, sleepForSeconds: nat) returns (error: Option<Error>)
    modifies w
    ensures var p := PollRun(probe, old(w.calls), maxIters, sleepForSeconds);
      w.calls == old(w.calls) + p.calls && error == p.error
  {
    ghost var h0 := w.calls;
    ghost var full := PollRun(probe, h0, maxIters, sleepForSeconds);
    ghost var rest := full;
    var i: nat := 1;
    while true
      invariant i >= 1
      invariant rest == PollFrom(probe, w.calls, i, maxIters, sleepForSeconds)
      invariant h0 + full.calls == w.calls + rest.calls && full.error == rest.error
      decreases if maxIters > i then maxIters - i else 0
    {
      ghost var before := w.calls;
      var run := Probe(probe, w.calls);
      error := FailsWith(run);
      w.calls := w.calls + run.calls;
      if error.None? || i >= maxIters {
        return;
      }
      var pause := Pause(sleepForSeconds);
      w.calls := w.calls + pause;
      ghost var next := PollFrom(probe, w.calls, i + 1, maxIters, sleepForSeconds);
      assert rest.calls == run.calls + pause + next.calls;
      Regroup(before, run.calls, pause, next.calls);
      rest := next;
      i := i + 1;
    }
  }

  lemma Regroup<T>(w: seq<T>, a: seq<T>, b: seq<T>, c: seq<T>)
    ensures w + (a + b + c) == (w + a + b) + c
  {
  }

  /** What `run_until` did: the calls made, how often fn was called, whether it
      returned the sentinel, and the exception that escaped, if any. */
  datatype RanUntil = RanUntil(calls: seq<Call>, invocations: nat, sawSentinel: bool, error: Option<Error>)

  /** `run_until(fn, sentinel_value, max_iters)` with `remaining` iterations left:
      fn is called at most max(max_iters, 0) times; the loop stops at the first
      sentinel or the first exception, which propagates; it returns normally when the
      sentinel is never seen. */
  function RunUntilFrom<T(==)>(fn: History -> Run<T>, sentinel: T, h: History, remaining: int): (r: RanUntil)
    ensures r.invocations <= (if remaining > 0 then remaining else 0)
    ensures r.error.Some? ==> !r.sawSentinel && r.invocations >= 1
    ensures r.sawSentinel ==> r.invocations >= 1
    ensures !r.sawSentinel && r.error.None? ==> r.invocations == (if remaining > 0 then remaining else 0)
    ensures remaining >= 1 && fn(h).result.Failure? ==>
              r == RanUntil(fn(h).calls, 1, false, Some(fn(h).result.error))
    ensures remaining >= 1 && fn(h).result == Success(sentinel) ==>
              r == RanUntil(fn(h).calls, 1, true, None)
    decreases remaining
  {
    if remaining <= 0 then RanUntil([], 0, false, None)
    else
      var run := fn(h);
      if run.result.Failure? then RanUntil(run.calls, 1, false, Some(run.result.error))
      else if run.result.value == sentinel then RanUntil(run.calls, 1, true, None)
      else
        var rest := RunUntilFrom(fn, sentinel, h + run.calls, remaining - 1);
        RanUntil(run.calls + rest.calls, rest.invocations + 1, rest.sawSentinel, rest.error)
  }

  /** A function that never raises and never returns the sentinel is called exactly
      max(max_iters, 0) times, and `run_until` returns normally. */
  lemma {:induction false} RunUntilNeverSentinel<T>(fn: History -> Run<T>, sentinel: T, h: History, maxIters: int)
    requires forall g :: fn(g).result.Success? && fn(g).result.value != sentinel
    ensures var r := RunUntilFrom(fn, sentinel, h, maxIters);
      r.error.None? && !r.sawSentinel && r.invocations == (if maxIters > 0 then maxIters else 0)
    decreases maxIters
  {
    if maxIters > 0 {
      RunUntilNeverSentinel(fn, sentinel, h + fn(h).calls, maxIters - 1);
    }
  }

  /** `run_until(fn, sentinel_value, max_iters)`. */
  method RunUntil<T(==)>(w: World, fn: History -> Run<T>, sentinel: T, maxIters: int) returns (error: Option<Error>)
    modifies w
    ensures var r := RunUntilFrom(fn, sentinel, old(w.calls), maxIters);
      w.calls == old(w.calls) + r.calls && error == r.error
  {
    ghost var h0 := w.calls;
    ghost var made: seq<Call> := [];
    var i := 0;
    while i < maxIters
      invariant i >= 0 && (maxIters >= 0 ==> i <= maxIters)
      invariant w.calls == h0 + made
      invariant RunUntilFrom(fn, sentinel, h0, maxIters).calls == made + RunUntilFrom(fn, sentinel, w.calls, maxIters - i).calls
      invariant RunUntilFrom(fn, sentinel, h0, maxIters).error == RunUntilFrom(fn, sentinel, w.calls, maxIters - i).error
      decreases maxIters - i
    {
      ghost var before, madeBefore := w.calls, made;
      var run := fn(w.calls);
      w.calls := w.calls + run.calls;
      made := made + run.calls;
      if run.result.Failure? {
        return Some(run.result.error);
      }
      if run.result.value == sentinel {
        return None;
      }
      RunUntilStep(fn, sentinel, before, maxIters - i);
      AppendAssoc(madeBefore, run.calls, RunUntilFrom(fn, sentinel, w.calls, maxIters - i - 1).calls);
      i := i + 1;
    }
    return None;
  }

  /** A call that returns something other than the sentinel, with iterations
      left, is followed by the rest of the loop on the history it left. */
  lemma RunUntilStep<T>(fn: History -> Run<T>, sentinel: T, h: History, remaining: int)
    requires remaining >= 1 && fn(h).result.Success? && fn(h).result.value != sentinel
    ensures var rest := RunUntilFrom(fn, sentinel, h + fn(h).calls, remaining - 1);
      RunUntilFrom(fn, sentinel, h, remaining) ==
      RanUntil(fn(h).calls + rest.calls, rest.invocations + 1, rest.sawSentinel, rest.error)
  {
  }
}
