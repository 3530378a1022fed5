/**
 A JdbcHook instance driven by a sequence of intercepted JDBC calls: each
 event is looked up in the advice table and, when an overload advises it,
 that overload runs against the hook. Clock readings and the request
 context travel with the event.
 */
module Interception {
  import opened Optional
  import opened Sequences
  import opened AdviceTable
  import opened JdbcHook

  /**
   One advice point: the phase, the intercepted type and method, the call's
   arguments, the clock reading, and the HTTP method and path of the current
   request context, if any.
   */
  datatype Event = Event(
    phase: Phase,
    target: string,
    name: string,
    args: Args,
    now: int,
    ctxMethod: Option<string>,
    ctxPath: Option<string>)

  /** The call as the advice table sees it. */
  function CallOf(e: Event): Call {
    Call(e.target, e.name, ShapeOf(e.args))
  }

  /** Some overload advises calls of `name` on `target` with arguments `args`. */
  predicate AdvisedCall(target: string, name: string, args: Args) {
    target in Instruments && name in ShapeMethods(ShapeOf(args))
  }

  /** Some overload advises the event; the phase does not matter, the table being symmetric. */
  predicate Advised(e: Event) {
    AdvisedCall(e.target, e.name, e.args)
  }

  /** The advice overload selected by the event's phase and arguments. */
  function Advice(h: Hook, e: Event): Hook {
    match e.phase
    case BeforeAdvice => BeforeOverload(h, e.args, e.now)
    case AfterAdvice => AfterOverload(h, e.args, e.now, e.ctxMethod, e.ctxPath)
  }

  /** Run the event's advice once per matching binding. */
  function RunAdvice(h: Hook, e: Event, times: nat): Hook
    decreases times
  {
    if times == 0 then h else RunAdvice(Advice(h, e), e, times - 1)
  }

  /** One intercepted call: the advice runs when some overload advises the call, and the hook is untouched otherwise. */
  function Step(h: Hook, e: Event): Hook {
    if Advised(e) then Advice(h, e) else h
  }

  /**
   The weaver runs one advice per matching binding of the table; the table
   being unambiguous, that is the advice once when the call is advised and
   not at all otherwise, which is what `Step` does.
   */
  lemma StepMatchesDispatch(h: Hook, e: Event)
    ensures RunAdvice(h, e, |Dispatch(Bindings, e.phase, CallOf(e))|) == Step(h, e)
  {
    DispatchTable(e.phase, CallOf(e));
    assert RunAdvice(h, e, 1) == RunAdvice(Advice(h, e), e, 0);
  }

  /** A sequence of intercepted calls on one hook, in order. */
  function Run(h: Hook, events: seq<Event>): Hook
    decreases |events|
  {
    if events == [] then h else Run(Step(h, events[0]), events[1..])
  }

  /** The event records under `l`: an advised `after` whose labels are `l`. */
  predicate RecordsUnder(e: Event, l: Labels) {
    e.phase == AfterAdvice && Advised(e) && LabelsOf(e.args.sql, e.ctxMethod, e.ctxPath) == l
  }

  /** How many events record under `l`. */
  function RecordCount(events: seq<Event>, l: Labels): nat
    decreases |events|
  {
    if events == [] then 0
    else (if RecordsUnder(events[0], l) then 1 else 0) + RecordCount(events[1..], l)
  }

  /** The counter and the number of observations under `l` grow by exactly the events recording under `l`. */
  lemma {:induction false} RunCounts(h: Hook, events: seq<Event>, l: Labels)
    ensures Count(Run(h, events), l) == Count(h, l) + RecordCount(events, l)
    ensures |Observations(Run(h, events), l)| == |Observations(h, l)| + RecordCount(events, l)
    decreases |events|
  {
    if events != [] {
      var e := events[0];
      var h' := Step(h, e);
      if Advised(e) {
        OverloadsFanIn(h, e.args, e.now, e.ctxMethod, e.ctxPath);
      }
      assert Count(h', l) == Count(h, l) + (if RecordsUnder(e, l) then 1 else 0);
      assert |Observations(h', l)| == |Observations(h, l)| + (if RecordsUnder(e, l) then 1 else 0);
      RunCounts(h', events[1..], l);
    }
  }

  /** Running two traces one after the other is running their concatenation. */
  lemma {:induction false} RunAppend(h: Hook, a: seq<Event>, b: seq<Event>)
    ensures Run(h, a + b) == Run(Run(h, a), b)
    decreases |a|
  {
    if a == [] {
      assert a + b == b;
    } else {
      assert (a + b)[1..] == a[1..] + b;
      RunAppend(Step(h, a[0]), a[1..], b);
    }
  }

  /** An advised `before` event runs `before(sql)`. */
  lemma StepBefore(h: Hook, e: Event)
    requires e.phase == BeforeAdvice && Advised(e)
    ensures Step(h, e) == Before(h, e.args.sql, e.now)
  {
  }

  /** An advised `after` event runs `after(sql)`. */
  lemma StepAfter(h: Hook, e: Event)
    requires e.phase == AfterAdvice && Advised(e)
    ensures Step(h, e) == After(h, e.args.sql, e.now, e.ctxMethod, e.ctxPath)
  {
  }

  /** Running a trace is running its first event, then the rest. */
  lemma RunCons(h: Hook, e: Event, rest: seq<Event>)
    ensures Run(h, [e] + rest) == Run(Step(h, e), rest)
  {
  }

  /** Three advised events run as the two `before` calls and the `after` call they select. */
  lemma RunThree(h: Hook, first: Event, second: Event, last: Event)
    requires first.phase == BeforeAdvice && second.phase == BeforeAdvice && last.phase == AfterAdvice
    requires Advised(first) && Advised(second) && Advised(last)
    ensures Run(h, [first, second, last])
         == After(Before(Before(h, first.args.sql, first.now), second.args.sql, second.now),
                  last.args.sql, last.now, last.ctxMethod, last.ctxPath)
  {
    var h1 := Step(h, first);
    var h2 := Step(h1, second);
    StepBefore(h, first);
    StepBefore(h1, second);
    StepAfter(h2, last);
    RunCons(h, first, [second, last]);
    RunCons(h1, second, [last]);
    RunCons(h2, last, []);
    assert [first, second, last] == [first] + [second, last];
    assert [second, last] == [second] + [last];
    assert [last] == [last] + [];
  }

  /**
   A second `before` overwrites the start time of the first: in the trace
   before(a), before(b), after(a) the observation is measured from b.
   */
  lemma TraceSecondBeforeWins(h: Hook, first: Event, second: Event, last: Event)
    requires first.phase == BeforeAdvice && second.phase == BeforeAdvice && last.phase == AfterAdvice
    requires Advised(first) && Advised(second) && Advised(last)
    requires last.args.sql == first.args.sql
    ensures Observations(Run(h, [first, second, last]), LabelsOf(last.args.sql, last.ctxMethod, last.ctxPath))
         == Observations(h, LabelsOf(last.args.sql, last.ctxMethod, last.ctxPath)) + [last.now - second.now]
  {
    RunThree(h, first, second, last);
    SecondBeforeWins(h, last.args.sql, second.args.sql, first.now, second.now, last.now, last.ctxMethod, last.ctxPath);
  }

  /**
   One intercepted call whose advice does not overlap any other call's: the
   intercepted type and method, the arguments, the request context, and the
   clock readings of its `before` and of its `after`.
   */
  datatype Invocation = Invocation(
    target: string,
    name: string,
    args: Args,
    ctxMethod: Option<string>,
    ctxPath: Option<string>,
    start: int,
    end: int)

  /** Some overload advises every one of the calls. */
  predicate AllAdvised(calls: seq<Invocation>) {
    forall i :: 0 <= i < |calls| ==> AdvisedCall(calls[i].target, calls[i].name, calls[i].args)
  }

  /** The trace of calls made one after another: each call's `before` directly followed by its `after`. */
  function PairEvents(calls: seq<Invocation>): (r: seq<Event>)
    ensures |r| == 2 * |calls|
    decreases |calls|
  {
    if calls == [] then []
    else
      var c := calls[0];
      [Event(BeforeAdvice, c.target, c.name, c.args, c.start, c.ctxMethod, c.ctxPath),
       Event(AfterAdvice, c.target, c.name, c.args, c.end, c.ctxMethod, c.ctxPath)]
      + PairEvents(calls[1..])
  }

  /** The labels the call's `after` records under. */
  function CallLabels(c: Invocation): Labels {
    LabelsOf(c.args.sql, c.ctxMethod, c.ctxPath)
  }

  /** The call's elapsed time if it records under `l`, and nothing otherwise. */
  function Recorded(c: Invocation, l: Labels): seq<int> {
    if CallLabels(c) == l then [c.end - c.start] else []
  }

  /** The elapsed times, in call order, of the calls that record under `l`. */
  function DurationsUnder(calls: seq<Invocation>, l: Labels): (r: seq<int>)
    ensures |r| <= |calls|
    decreases |calls|
  {
    if calls == [] then [] else Recorded(calls[0], l) + DurationsUnder(calls[1..], l)
  }

  /** When every call records under `l`, the i-th duration under `l` is the i-th call's end minus its start. */
  lemma {:induction false} DurationsUnderOneLabel(calls: seq<Invocation>, l: Labels)
    requires forall i :: 0 <= i < |calls| ==> CallLabels(calls[i]) == l
    ensures |DurationsUnder(calls, l)| == |calls|
    ensures forall i :: 0 <= i < |calls| ==> DurationsUnder(calls, l)[i] == calls[i].end - calls[i].start
    decreases |calls|
  {
    if calls != [] {
      assert forall i :: 0 <= i < |calls[1..]| ==> CallLabels(calls[1..][i]) == l by {
        forall i | 0 <= i < |calls[1..]| ensures CallLabels(calls[1..][i]) == l {
          assert calls[1..][i] == calls[i + 1];
        }
      }
      DurationsUnderOneLabel(calls[1..], l);
      assert Recorded(calls[0], l) == [calls[0].end - calls[0].start] by {
        assert CallLabels(calls[0]) == l;
      }
      assert DurationsUnder(calls, l) == Recorded(calls[0], l) + DurationsUnder(calls[1..], l);
      forall i | 0 < i < |calls| ensures DurationsUnder(calls, l)[i] == calls[i].end - calls[i].start {
        assert calls[1..][i - 1] == calls[i];
      }
    }
  }

  /** Calls that record under other labels contribute nothing under `l`. */
  lemma {:induction false} DurationsUnderNone(calls: seq<Invocation>, l: Labels)
    requires forall i :: 0 <= i < |calls| ==> CallLabels(calls[i]) != l
    ensures DurationsUnder(calls, l) == []
    decreases |calls|
  {
    if calls != [] {
      DurationsUnderNone(calls[1..], l);
    }
  }

  /** The call's `before(sql)` and then its `after(sql)`. */
  function CallPair(h: Hook, c: Invocation): Hook {
    After(Before(h, c.args.sql, c.start), c.args.sql, c.end, c.ctxMethod, c.ctxPath)
  }

  /** The hook after each call's `before(sql)` and `after(sql)`, one call after another. */
  function Pairs(h: Hook, calls: seq<Invocation>): Hook
    decreases |calls|
  {
    if calls == [] then h else Pairs(CallPair(h, calls[0]), calls[1..])
  }

  /** The trace of calls runs its first call's pair of advice, then the rest. */
  lemma RunFirstPair(h: Hook, calls: seq<Invocation>)
    requires calls != [] && AdvisedCall(calls[0].target, calls[0].name, calls[0].args)
    ensures Run(h, PairEvents(calls)) == Run(CallPair(h, calls[0]), PairEvents(calls[1..]))
  {
  }

  /** The trace of advised calls runs as the one-argument `before` and `after` of each call. */
  lemma {:induction false} RunPairEvents(h: Hook, calls: seq<Invocation>)
    requires AllAdvised(calls)
    ensures Run(h, PairEvents(calls)) == Pairs(h, calls)
    decreases |calls|
  {
    if calls != [] {
      RunFirstPair(h, calls);
      assert AllAdvised(calls[1..]) by {
        forall i | 0 <= i < |calls[1..]|
          ensures AdvisedCall(calls[1..][i].target, calls[1..][i].name, calls[1..][i].args)
        {
          assert calls[1..][i] == calls[i + 1];
        }
      }
      RunPairEvents(CallPair(h, calls[0]), calls[1..]);
    }
  }

  /**
   Calls that do not overlap each observe their own start time: the summary
   of every label triple receives exactly the durations of the calls that
   record under it, in order, and its counter one increment per such call.
   */
  lemma {:induction false} PairsRecord(h: Hook, calls: seq<Invocation>, l: Labels)
    ensures Observations(Pairs(h, calls), l) == Observations(h, l) + DurationsUnder(calls, l)
    ensures Count(Pairs(h, calls), l) == Count(h, l) + |DurationsUnder(calls, l)|
    decreases |calls|
  {
    if calls == [] {
      assert Observations(h, l) + [] == Observations(h, l);
    } else {
      var h' := CallPair(h, calls[0]);
      CallPairRecords(h, calls[0], l);
      PairsRecord(h', calls[1..], l);
      Regroup(Observations(h, l), Recorded(calls[0], l), DurationsUnder(calls[1..], l));
    }
  }

  /** One call's pair of advice adds what that call records under `l`. */
  lemma CallPairRecords(h: Hook, c: Invocation, l: Labels)
    ensures Observations(CallPair(h, c), l) == Observations(h, l) + Recorded(c, l)
    ensures Count(CallPair(h, c), l) == Count(h, l) + |Recorded(c, l)|
  {
    PairRecords(h, c.args.sql, c.start, c.end, c.ctxMethod, c.ctxPath, l);
  }

  /**
   The same for the trace of intercepted calls: under every label triple,
   one observation per call recording there, equal to that call's end minus
   its start, in call order; other calls leave the triple alone.
   */
  lemma SequentialPairs(h: Hook, calls: seq<Invocation>, l: Labels)
    requires AllAdvised(calls)
    ensures Observations(Run(h, PairEvents(calls)), l) == Observations(h, l) + DurationsUnder(calls, l)
    ensures Count(Run(h, PairEvents(calls)), l) == Count(h, l) + |DurationsUnder(calls, l)|
  {
    RunPairEvents(h, calls);
    PairsRecord(h, calls, l);
  }

  /** The clock readings of the trace never decrease. */
  predicate ClockMonotone(events: seq<Event>) {
    forall i, j :: 0 <= i < j < |events| ==> events[i].now <= events[j].now
  }

  /** Every observation the summary holds is non-negative. */
  ghost predicate DurationsNonNegative(h: Hook) {
    forall l, k :: 0 <= k < |Observations(h, l)| ==> Observations(h, l)[k] >= 0
  }

  /**
   Under a monotone clock, a hook whose start time is not ahead of the
   trace's first reading only ever records non-negative durations.
   */
  lemma {:induction false} RunKeepsNonNegative(h: Hook, events: seq<Event>)
    requires DurationsNonNegative(h)
    requires ClockMonotone(events)
    requires events != [] ==> h.startTime <= events[0].now
    ensures DurationsNonNegative(Run(h, events))
    decreases |events|
  {
    if events != [] {
      var e := events[0];
      var h' := Step(h, e);
      if Advised(e) {
        OverloadsFanIn(h, e.args, e.now, e.ctxMethod, e.ctxPath);
      }
      assert h'.startTime <= e.now;
      forall l, k | 0 <= k < |Observations(h', l)| ensures Observations(h', l)[k] >= 0 {
        if k < |Observations(h, l)| {
          assert Observations(h', l)[k] == Observations(h, l)[k];
        }
      }
      assert ClockMonotone(events[1..]) by {
        forall i, j | 0 <= i < j < |events[1..]| ensures events[1..][i].now <= events[1..][j].now {
          assert events[1..][i] == events[i + 1] && events[1..][j] == events[j + 1];
        }
      }
      if |events| > 1 {
        assert events[1..][0] == events[1];
      }
      RunKeepsNonNegative(h', events[1..]);
    }
  }

  /**
   If the clock is monotone and the trace starts with an advised `before`,
   every duration a fresh hook records is non-negative.
   */
  lemma ObservationsNonNegative(events: seq<Event>)
    requires ClockMonotone(events)
    requires events != [] && events[0].phase == BeforeAdvice && Advised(events[0])
    ensures DurationsNonNegative(Run(Init(), events))
  {
    var e := events[0];
    var h := Step(Init(), e);
    OverloadsFanIn(Init(), e.args, e.now, e.ctxMethod, e.ctxPath);
    assert h.startTime == e.now;
    assert ClockMonotone(events[1..]) by {
      forall i, j | 0 <= i < j < |events[1..]| ensures events[1..][i].now <= events[1..][j].now {
        assert events[1..][i] == events[i + 1] && events[1..][j] == events[j + 1];
      }
    }
    if |events| > 1 {
      assert events[1..][0] == events[1];
    }
    RunKeepsNonNegative(h, events[1..]);
  }
}
