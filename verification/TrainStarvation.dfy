/**
 Starvation. A flush that meets an empty current train with an earlier departure than every
 parked train moves nothing and arms an expired timer again: the parked trains wait for the
 next `send`. A punctual timer, and a run in which one method outlasts another by more than six
 hours and starves a train.
 */
module TrainStarvation {
  import opened Common
  import opened TrainScheduler
  import opened TrainConservation
  import opened TrainFifo
  import opened TrainDeadline

  predicate Starved(s: State) {
    s.train.cargo == [] && s.parked != [] && s.train.departure < s.parked[0].key
  }

  /** A flush of a starved endpoint at or after the empty train's departure only arms an expired timer. */
  lemma StarvedSpins(cfg: Config, s: State, now: int)
    requires WellFormed(cfg, s) && Starved(s) && s.train.departure <= now
    ensures Flush(s, now, false) == s.(clock := now, timer := Some(now))
  {
    hide CurrentOk, Sorted, BucketsOk, QueueOk, AcceptedOk;
    EmptyWhen(cfg, s);
  }

  function RunFrom(cfg: Config, s: State, es: seq<Event>): State
    decreases |es|
  {
    if es == [] then s else RunFrom(cfg, Next(cfg, s, es[0]), es[1..])
  }

  /** Without a new message, no number of timer firings or writes frees a starved train. */
  lemma {:induction false} StarvedUntilSend(cfg: Config, s: State, es: seq<Event>)
    requires Starved(s) && s.train.buffer == []
    requires forall i :: 0 <= i < |es| ==> !es[i].DoSend?
    ensures RunFrom(cfg, s, es).parked == s.parked && RunFrom(cfg, s, es).train == s.train
    decreases |es|
  {
    if es != [] {
      hide NextDeparture;
      StarvedUntilSend(cfg, Next(cfg, s, es[0]), es[1..]);
    }
  }

  // -------------------------------------------------------------------- a punctual timer

  /** The timer has expired, and firing it changes nothing but to arm it for the same instant again. */
  predicate Spins(s: State) {
    s.timer.Some? && s.timer.value <= s.clock && Flush(s, s.clock, false) == s.(timer := Some(s.clock))
  }

  /**
   The timer fires exactly at its expiry, and time passes an armed expiry only while firing the
   timer over and over again makes no difference.
   */
  predicate Punctual(s: State, e: Event) {
    && Enabled(s, e)
    && (s.timer.Some? ==> e.now <= s.timer.value || Spins(s))
    && (e.DoFlush? ==> !e.stale && s.timer.Some? && (s.timer.value == e.now || Spins(s)))
  }

  ghost predicate PunctualRun(cfg: Config, start: int, es: seq<Event>) {
    es != [] ==> PunctualRun(cfg, start, es[..|es|-1]) && Punctual(Run(cfg, start, es[..|es|-1]), es[|es|-1])
  }

  lemma SpinsExactly(cfg: Config, s: State)
    requires WellFormed(cfg, s)
    ensures Spins(s) <==> s.timer.Some? && s.timer.value <= s.clock && Starved(s) && s.train.departure <= s.clock
  {
    hide CurrentOk, Sorted, BucketsOk, QueueOk, AcceptedOk;
    EmptyWhen(cfg, s);
    if Starved(s) && s.train.departure <= s.clock {
      StarvedSpins(cfg, s, s.clock);
    } else if TakesParked(s) {
      PopFirstShorter(s.parked);
      FlushedParked(s, s.clock);
    } else {
      FlushQueues(s, s.clock, false);
    }
  }

  lemma PopFirstShorter(b: seq<Bucket>)
    requires b != []
    ensures PopFirst(b) != b
  {
    PopFirstLaws(b);
    assert |Trains(b)| == 1 + |Trains(PopFirst(b))|;
  }

  lemma FlushedParked(s: State, now: int)
    requires TakesParked(s)
    ensures var s' := Flush(s, now, false);
            && s'.parked == PopFirst(s.parked) && s'.train == s.train && s'.clock == now
            && s'.timer == Some(Max(NextDeparture(s'), now))
  {
    hide PopFirst;
  }

  lemma {:induction false} PunctualIsLegal(cfg: Config, start: int, es: seq<Event>)
    requires PunctualRun(cfg, start, es)
    ensures Legal(cfg, start, es)
  {
    hide Run, Spins;
    if es != [] { PunctualIsLegal(cfg, start, es[..|es|-1]); }
  }

  /** While no train is starved, a punctual step does not pass an armed expiry. */
  lemma FedTimely(cfg: Config, s: State, e: Event)
    requires WellFormed(cfg, s) && !Starved(s) && Punctual(s, e)
    ensures Timely(s, e) && (e.DoFlush? ==> !e.stale && s.timer == Some(e.now))
  {
    hide WellFormed, Spins;
    SpinsExactly(cfg, s);
  }

  // -------------------------------------------------------------------- when it does happen

  /** The run that starves a train when method `a` outlasts method `b` by more than six hours. */
  ghost function Starve(cfg: Config, a: Id, b: Id): seq<Event> {
    var r, d, q := cfg.times(a).retention, cfg.times(a).debounce, cfg.times(b).retention;
    var s := Run(cfg, 0, Warmup(Encode(a), r) + [DoSend(r, Encode(b), NotSplit)]);
    Warmup(Encode(a), r) + [DoSend(r, Encode(b), NotSplit)] + [DoFlush(s.train.departure, false)]
  }

  lemma StarveStarves(cfg: Config, a: Id, b: Id)
    requires Longest(cfg.times(a)) > cfg.times(b).retention + SIX_HOURS
    requires cfg.maxMessageSize >= 4 && cfg.queueLimit >= 16
    ensures PunctualRun(cfg, 0, Starve(cfg, a, b)) && Unsegmented(cfg, Starve(cfg, a, b))
    ensures Starved(Run(cfg, 0, Starve(cfg, a, b)))
  {
    hide Send, Flush, Run, PunctualRun, Unsegmented;
    var r, d, x := cfg.times(a).retention, cfg.times(a).debounce, Encode(a);
    var e6 := DoSend(r, Encode(b), NotSplit);
    WarmupState(cfg, x, d, r);
    WarmupPunctual(cfg, x, d, r);
    var s5 := Run(cfg, 0, Warmup(x, r));
    PunctualStep(cfg, 0, Warmup(x, r), e6);
    SendThird(cfg, s5, r, Encode(b));
    var s6 := Next(cfg, s5, e6);
    var e7 := DoFlush(s6.train.departure, false);
    PunctualStep(cfg, 0, Warmup(x, r) + [e6], e7);
    FlushFirst(s6, s6.train.departure);
  }

  lemma PunctualStep(cfg: Config, start: int, es: seq<Event>, e: Event)
    ensures Run(cfg, start, es + [e]) == Next(cfg, Run(cfg, start, es), e)
    ensures PunctualRun(cfg, start, es + [e]) <==> PunctualRun(cfg, start, es) && Punctual(Run(cfg, start, es), e)
    ensures Unsegmented(cfg, es + [e]) <==> Unsegmented(cfg, es) && (e.DoSend? ==> |e.data| <= cfg.maxMessageSize)
  {
    hide Next, Punctual;
    assert (es + [e])[..|es + [e]| - 1] == es;
    assert (es + [e])[|es|] == e;
    RunStep(cfg, start, es, e);
  }

  lemma WarmupPunctual(cfg: Config, x: Message, d: Nanos, r: Nanos)
    requires cfg.times(Identify(x)) == Times(d, r) && |x| == 4 <= cfg.maxMessageSize && cfg.queueLimit >= 16
    ensures PunctualRun(cfg, 0, Warmup(x, r))
  {
    hide Send, Flush, WriteDone, Run, PunctualRun, Unsegmented;
    var e1, e2, e3, e := DoSend(0, x, NotSplit), DoFlush(r, false), DoWriteDone(r), DoSend(r, x, NotSplit);
    assert PunctualRun(cfg, 0, []) by { PunctualStart(cfg); }
    PreludeStart(cfg);
    PunctualStep(cfg, 0, [], e1);
    SendFirst(cfg, Init(0), 0, x);
    var s1 := Next(cfg, Init(0), e1);
    PunctualStep(cfg, 0, [] + [e1], e2);
    FlushFirst(s1, r);
    PunctualStep(cfg, 0, [] + [e1] + [e2], e3);
    PreludeState(cfg, x, d, r);
    PunctualStep(cfg, 0, Prelude(x, r), e);
    SendFirst(cfg, Run(cfg, 0, Prelude(x, r)), r, x);
    PunctualStep(cfg, 0, Prelude(x, r) + [e], e);
  }

  lemma PunctualStart(cfg: Config)
    ensures PunctualRun(cfg, 0, [])
  {
  }
}
