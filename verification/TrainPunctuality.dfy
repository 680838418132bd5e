/**
 Deadlines with a punctual dispatch timer. The timer fires at its expiry; time passes an expiry
 only while firing makes no difference, so no run is ever stuck in time. Every deadline is kept in
 all such runs exactly under a condition on the timings, which depends on the methods that are
 enabled for segmentation; otherwise a parked train is starved and its messages leave late.
 */
module TrainPunctuality {
  import opened Common
  import opened TrainScheduler
  import opened TrainConservation
  import opened TrainFifo
  import opened TrainDeadline
  import opened TrainStarvation
  import opened TrainFeeding
  import opened TrainSegmentation

  // --------------------------------------------------------------------- the timer's state

  /** A timer is armed while a message is held, and it has not expired unless a train is starved. */
  predicate TimerInv(s: State) {
    && (s.parked != [] || s.train.cargo != [] ==> s.timer.Some?)
    && (s.timer.Some? ==> s.clock <= s.timer.value || (Starved(s) && s.train.departure <= s.clock))
  }

  lemma SendSmallTimer(cfg: Config, s: State, now: int, data: Message)
    ensures TimerInv(SendSmall(cfg, s.(clock := now), now, data))
  {
    hide PrepareTrain, NextDeparture;
    PrepareFrame(cfg, s.(clock := now), now, data);
  }

  /** What a step that moves no train does to the timer's state. */
  lemma TimerFrame(s: State, s': State)
    requires TimerInv(s) && s.clock <= s'.clock
    requires s.timer.Some? ==> s'.clock <= s.timer.value || (Starved(s) && s.train.departure <= s.clock)
    requires s'.timer == s.timer && s'.parked == s.parked
    requires s'.train.cargo == s.train.cargo && s'.train.departure == s.train.departure
    ensures TimerInv(s')
  {
  }

  lemma SendSegmentsTimer(cfg: Config, s: State, now: int, parts: seq<Message>, sep: nat, size: nat)
    requires WellFormed(cfg, s) && TimerInv(s) && s.clock <= now
    requires s.timer.Some? ==> now <= s.timer.value || (Starved(s) && s.train.departure <= s.clock)
    ensures TimerInv(SendSegments(cfg, s.(clock := now), now, parts, sep, size))
  {
    EmptyWhen(cfg, s);
    hide WellFormed, SegmentPassengers, SegmentEntries, Enqueue, Park;
    var s0 := s.(clock := now);
    if parts == [] {
      TimerFrame(s, s0);
    } else {
      var ps := SegmentPassengers(cfg, |s0.accepted|, now, parts);
      var s1 := SegmentTrains(cfg, s0, now, parts[0]);
      EnqueueFrame(s1, SegmentEntries(ps, sep), ps, size);
      SegmentTrainsFrame(cfg, s0, now, parts[0]);
      var s' := SendSegments(cfg, s0, now, parts, sep, size);
      if s.train.cargo == [] { TimerFrame(s, s'); }
    }
  }

  lemma FlushTimer(cfg: Config, s: State, now: int)
    requires WellFormed(cfg, s) && s.clock <= now
    ensures TimerInv(Flush(s, now, false))
  {
    EmptyWhen(cfg, s);
    FlushShape(s, now);
    FlushedHolds(s, now);
    var s1 := Flushed(s, now, false);
    hide WellFormed, Flushed, Flush, NextDeparture;
  }

  /** When a flush does not arm the timer again, nothing is held any more. */
  lemma FlushedHolds(s: State, now: int)
    requires s.train.cargo == [] <==> s.train.buffer == []
    ensures var s1, s' := Flushed(s, now, false), Flush(s, now, false);
            && s1.clock == now
            && (s' == ArmTimer(s1, now) || (s' == s1 && s1.timer == None && s1.parked == [] && s1.train.cargo == []))
  {
    hide QueueTrain, PopFirst, NextDeparture;
    var s0 := s.(clock := now, timer := None);
    if TakesParked(s) {
      QueueTrainMoves(s0.(parked := PopFirst(s.parked)), s.parked[0].trains[0], now);
    } else {
      QueueTrainMoves(s0, s.train, now);
    }
  }

  lemma StepTimer(cfg: Config, s: State, e: Event)
    requires WellFormed(cfg, s) && TimerInv(s) && Punctual(s, e)
    ensures TimerInv(Next(cfg, s, e))
  {
    SpinsExactly(cfg, s);
    hide WellFormed, Spins, SendSmall, SendSegments, WithinLimit, Flush, Starved;
    TimerFrame(s, s.(clock := e.now));
    match e
    case DoSend(now, data, split) =>
      SendSmallTimer(cfg, s, now, data);
      if split.Segments? { SendSegmentsTimer(cfg, s, now, split.parts, split.separation, |data|); }
    case DoFlush(now, stale) => FlushTimer(cfg, s, now);
    case DoWriteDone(now) => TimerFrame(s, WriteDone(s, now));
  }

  lemma {:induction false} RunTimer(cfg: Config, start: int, es: seq<Event>)
    requires PunctualRun(cfg, start, es)
    ensures WellFormed(cfg, Run(cfg, start, es)) && TimerInv(Run(cfg, start, es))
  {
    PunctualIsLegal(cfg, start, es);
    RunWellFormed(cfg, start, es);
    if es != [] {
      var n := |es| - 1;
      hide Next, WellFormed, Punctual, TimerInv, Legal;
      RunTimer(cfg, start, es[..n]);
      StepTimer(cfg, Run(cfg, start, es[..n]), es[n]);
    }
  }

  // ------------------------------------------------------------------------ time moves on

  /** A firing with a starved train only arms the timer for the empty train. */
  lemma StarvedFires(cfg: Config, s: State, now: int)
    requires WellFormed(cfg, s) && Starved(s)
    ensures Flush(s, now, false) == s.(clock := now, timer := Some(Max(s.train.departure, now)))
  {
    hide CurrentOk, Sorted, BucketsOk, QueueOk, AcceptedOk;
    EmptyWhen(cfg, s);
  }

  /** The number of trains with messages on them. */
  function Loaded(s: State): nat {
    |Trains(s.parked)| + if s.train.cargo == [] then 0 else 1
  }

  /** A firing with no train starved moves a train, or disarms the timer. */
  lemma FiringUnloads(cfg: Config, s: State, now: int)
    requires WellFormed(cfg, s) && !Starved(s)
    ensures var s' := Flush(s, now, false); Loaded(s') < Loaded(s) || s'.timer == None
  {
    EmptyWhen(cfg, s);
    FlushedHolds(s, now);
    hide WellFormed, QueueTrain, PopFirst, NextDeparture, Trains;
    var s0 := s.(clock := now, timer := None);
    if TakesParked(s) {
      PopFirstLaws(s.parked);
      QueueTrainMoves(s0.(parked := PopFirst(s.parked)), s.parked[0].trains[0], now);
    } else {
      QueueTrainMoves(s0, s.train, now);
    }
  }

  /** A step at the given time would be punctual. */
  predicate Open(s: State, time: int) {
    s.clock <= time && (s.timer.Some? ==> time <= s.timer.value || Spins(s))
  }

  predicate OnlyFirings(es: seq<Event>) {
    forall i :: 0 <= i < |es| ==> es[i].DoFlush?
  }

  /** How far a starved train is from making the timer spin. */
  function Winding(s: State): nat {
    if Starved(s) && s.timer.Some? && s.timer.value < s.train.departure then 1 else 0
  }

  /**
   Time moves on. Every punctual run, segmented or not and with any timings, can be continued by
   finitely many firings of the timer to where a step at any given later time is punctual.
   */
  lemma {:induction false} TimeMovesOn(cfg: Config, start: int, es: seq<Event>, time: int) returns (more: seq<Event>)
    requires PunctualRun(cfg, start, es) && Run(cfg, start, es).clock <= time
    ensures OnlyFirings(more) && PunctualRun(cfg, start, es + more) && Open(Run(cfg, start, es + more), time)
    decreases Loaded(Run(cfg, start, es)), Winding(Run(cfg, start, es))
  {
    hide Run, PunctualRun, WellFormed, Spins, Flush, Trains, NextDeparture;
    var s := Run(cfg, start, es);
    RunTimer(cfg, start, es);
    SpinsExactly(cfg, s);
    if Open(s, time) {
      assert es + [] == es;
      return [];
    }
    var now := s.timer.value;
    var e := DoFlush(now, false);
    PunctualStep(cfg, start, es, e);
    var s1 := Flush(s, now, false);
    if Starved(s) {
      StarvedFires(cfg, s, now);
      RunTimer(cfg, start, es + [e]);
      SpinsExactly(cfg, s1);
      if s.train.departure <= now { return [e]; }
    } else {
      FiringUnloads(cfg, s, now);
      FlushClock(s, now);
      if s1.timer == None { return [e]; }
    }
    var rest := TimeMovesOn(cfg, start, es + [e], time);
    more := [e] + rest;
    assert es + [e] + rest == es + more;
  }

  lemma FlushClock(s: State, now: int)
    ensures Flush(s, now, false).clock == now
  {
    hide NextDeparture, PopFirst;
  }

  // ------------------------------------------------------------------ late, once starved

  /** A punctual run that starves a train goes on to spin at one instant. */
  lemma SpinsUp(cfg: Config, start: int, es: seq<Event>) returns (more: seq<Event>)
    requires PunctualRun(cfg, start, es) && Starved(Run(cfg, start, es))
    ensures OnlyFirings(more) && PunctualRun(cfg, start, es + more)
    ensures var s, s' := Run(cfg, start, es), Run(cfg, start, es + more);
            s' == s.(clock := s'.clock, timer := Some(s'.clock)) && s.train.departure <= s'.clock && Spins(s')
  {
    hide Run, PunctualRun, WellFormed, Spins, Flush;
    var s := Run(cfg, start, es);
    RunTimer(cfg, start, es);
    SpinsExactly(cfg, s);
    var v := Max(s.clock, s.timer.value);
    var w := Max(s.train.departure, v);
    var e1, e2 := DoFlush(v, false), DoFlush(w, false);
    PunctualStep(cfg, start, es, e1);
    StarvedFires(cfg, s, v);
    RunTimer(cfg, start, es + [e1]);
    PunctualStep(cfg, start, es + [e1], e2);
    StarvedFires(cfg, Flush(s, v, false), w);
    RunTimer(cfg, start, es + [e1] + [e2]);
    SpinsExactly(cfg, Run(cfg, start, es + [e1] + [e2]));
    more := [e1, e2];
    assert es + more == es + [e1] + [e2];
  }

  lemma OverdueIsLate(cfg: Config, s: State)
    requires WellFormed(cfg, s) && s.parked != [] && s.clock > s.parked[0].key
    ensures !InTime(s)
  {
    hide TrainOk, QueueOk, AcceptedOk, Sorted;
    PopFirstKeeps(cfg, s.accepted, s.segmented, s.parked);
    var t := s.parked[0].trains[0];
    assert Trains(s.parked)[0] == t;
    LatestPromise(t);
  }

  /** A parked train's departure is the promise made to one of its passengers. */
  lemma LatestPromise(t: Train)
    requires t.cargo != [] && t.departure == Raised(MinDeadline(t.cargo), t.floor)
    ensures forall now :: now > t.departure ==> !TrainInTime(t, now)
    ensures exists i :: 0 <= i < |t.cargo| && Promise(t.cargo[i], t.floor) == t.departure
  {
    MinDeadlineIsLeast(t.cargo);
    var i :| 0 <= i < |t.cargo| && MinDeadline(t.cargo) == Deadline(t.cargo[i]);
    assert Promise(t.cargo[i], t.floor) == t.departure;
  }

  /** A punctual run that starves a train goes on to miss a deadline. */
  lemma StarvedIsLate(cfg: Config, start: int, es: seq<Event>) returns (more: seq<Event>)
    requires PunctualRun(cfg, start, es) && Starved(Run(cfg, start, es))
    ensures OnlyFirings(more) && PunctualRun(cfg, start, es + more) && !InTime(Run(cfg, start, es + more))
  {
    hide Run, PunctualRun, WellFormed, Spins, Flush, InTime;
    var s := Run(cfg, start, es);
    var first := SpinsUp(cfg, start, es);
    var s1 := Run(cfg, start, es + first);
    var now := Max(s1.clock, s.parked[0].key + 1);
    var e := DoFlush(now, false);
    PunctualStep(cfg, start, es + first, e);
    RunTimer(cfg, start, es + first);
    StarvedFires(cfg, s1, now);
    RunTimer(cfg, start, es + first + [e]);
    OverdueIsLate(cfg, Run(cfg, start, es + first + [e]));
    more := first + [e];
    assert es + more == es + first + [e];
  }

  /**
   The miss itself: when time has passed the departure of a starved train, the next message
   releases it, and its entry is queued after it was due and after the promise to a passenger.
   */
  lemma QueuedLate(cfg: Config, s: State, now: int, data: Message)
    requires WellFormed(cfg, s) && Starved(s) && s.clock <= now && s.parked[0].key < now
    requires |data| <= cfg.maxMessageSize && WithinLimit(cfg, Used(s), |data|)
    ensures var s1 := Send(cfg, s, now, data, NotSplit); var s2 := Flush(s1, now, false);
            && s1.timer == Some(now)
            && |s2.queue| == |s.queue| + 1 && s2.queue[..|s.queue|] == s.queue
            && s2.queue[|s.queue|].queuedAt == now > s2.queue[|s.queue|].due
            && !EntryInTime(s2.queue[|s.queue|])
  {
    EmptyWhen(cfg, s);
    PopFirstKeeps(cfg, s.accepted, s.segmented, s.parked);
    var t := s.parked[0].trains[0];
    EmptyTogether(cfg, s.accepted, s.segmented, t);
    LatestPromise(t);
    hide WellFormed, Flush, Used, WithinLimit, ParkedTrainOk;
    var s1 := Send(cfg, s, now, data, NotSplit);
    assert s1.parked == s.parked && s1.queue == s.queue && TakesParked(s1);
    FlushQueues(s1, now, false);
    var i :| 0 <= i < |t.cargo| && Promise(t.cargo[i], t.floor) == t.departure;
    assert EntryOf(t, now).cargo[i] == t.cargo[i];
  }

  // ---------------------------------------------------------------------- without segments

  lemma {:induction false} OnlyFiringsKeep(cfg: Config, tp: iset<Id>, es: seq<Event>, more: seq<Event>)
    requires OnlyFirings(more)
    ensures Unsegmented(cfg, es) ==> Unsegmented(cfg, es + more)
    ensures TpRun(cfg, tp, es) ==> TpRun(cfg, tp, es + more)
  {
  }

  /**
   The deadline theorem, exactly. In all unsegmented runs with a punctual timer every message is
   in time, if and only if no debounce or retention time exceeds any retention time by more than
   six hours.
   */
  lemma DeadlineExactly(cfg: Config)
    requires cfg.maxMessageSize >= 4 && cfg.queueLimit >= 16
    ensures TimingFits(cfg) <==>
            (forall start, es :: PunctualRun(cfg, start, es) && Unsegmented(cfg, es) ==> InTime(Run(cfg, start, es)))
  {
    hide Run, PunctualRun, Unsegmented, Starve, Longest, InTime, Starved;
    if TimingFits(cfg) {
      forall start, es | PunctualRun(cfg, start, es) && Unsegmented(cfg, es) ensures InTime(Run(cfg, start, es)) {
        RunFedUnsegmented(cfg, start, es);
        TimelyIsInTime(cfg, start, es);
      }
    } else {
      var b, a :| Longest(cfg.times(a)) > cfg.times(b).retention + SIX_HOURS;
      StarveStarves(cfg, a, b);
      var more := StarvedIsLate(cfg, 0, Starve(cfg, a, b));
      OnlyFiringsKeep(cfg, iset{}, Starve(cfg, a, b), more);
    }
  }

  // ------------------------------------------------------------------------- with segments

  function Padding(n: nat): seq<Byte> {
    seq(n, i => 0)
  }

  /** A message of a method with a given size. */
  function Sized(id: Id, size: nat): (m: Message)
    requires 4 <= size < 0x1_0000_0000
    ensures |m| == size && Identify(m) == id
  {
    Encode(id) + Padding(size - 4)
  }

  /** Room for two trains of four bytes and an oversized message. */
  predicate AllowsOversized(cfg: Config) {
    4 <= cfg.maxMessageSize < 0xFFFF_FFFF && 16 <= cfg.queueLimit < SIZE_MODULUS && cfg.maxMessageSize + 9 <= cfg.queueLimit
  }

  /** Two segments for the smallest oversized message. */
  lemma Halves(cfg: Config, id: Id) returns (parts: seq<Message>)
    requires AllowsOversized(cfg)
    ensures parts != [] && Identify(parts[0]) == id
    ensures GenuineParts(cfg, Sized(id, cfg.maxMessageSize + 1), parts)
  {
    parts := [Sized(id, cfg.maxMessageSize), Encode(id)];
    assert parts[1..] == [Encode(id)] && parts[1..][1..] == [];
    assert TotalSize(parts[1..]) == |Encode(id)| + TotalSize(parts[1..][1..]);
  }

  lemma UndercutIsTp(cfg: Config, tp: iset<Id>, a: Id, big: Message, parts: seq<Message>, sep: nat)
    requires Identify(big) in tp && GenuineParts(cfg, big, parts)
    ensures TpRun(cfg, tp, Undercut(cfg, a, big, parts, sep))
  {
    hide Run, Starved, GenuineParts;
    var r := cfg.times(a).retention;
    var e := DoSend(r, big, Segments(parts, sep));
    assert TpRun(cfg, tp, Warmup(Encode(a), r));
    assert TpEvent(cfg, tp, e);
  }

  /** If the timings do not fit, some run starves a train. */
  lemma UnfitStarves(cfg: Config, tp: iset<Id>) returns (es: seq<Event>)
    requires cfg.maxMessageSize >= 4 && cfg.queueLimit >= 16 && (tp != iset{} ==> AllowsOversized(cfg)) && !TpFits(cfg, tp)
    ensures PunctualRun(cfg, 0, es) && TpRun(cfg, tp, es) && Starved(Run(cfg, 0, es))
  {
    hide Run, PunctualRun, TpRun, Starved, Starve, Undercut, Unsegmented;
    var b, a :| Longest(cfg.times(a)) > Reach(cfg, tp, b);
    if b in tp {
      var big := Sized(b, cfg.maxMessageSize + 1);
      var parts := Halves(cfg, b);
      SegmentsStarve(cfg, a, big, parts, 0);
      UndercutIsTp(cfg, tp, a, big, parts, 0);
      es := Undercut(cfg, a, big, parts, 0);
    } else {
      StarveStarves(cfg, a, b);
      UnsegmentedIsTp(cfg, tp, Starve(cfg, a, b));
      es := Starve(cfg, a, b);
    }
  }

  /**
   Starvation with segmentation, exactly. With segmentation enabled for the methods `tp`, no
   punctual run starves a train if and only if no debounce or retention time exceeds the retention
   time of a method in `tp`, or that of any other method by more than six hours.
   */
  lemma SegmentedNeverStarvedExactly(cfg: Config, tp: iset<Id>)
    requires cfg.maxMessageSize >= 4 && cfg.queueLimit >= 16 && (tp != iset{} ==> AllowsOversized(cfg))
    ensures TpFits(cfg, tp) <==>
            (forall start, es :: PunctualRun(cfg, start, es) && TpRun(cfg, tp, es) ==> !Starved(Run(cfg, start, es)))
  {
    hide Run, PunctualRun, TpRun, Starved, TpFits, FedInv;
    if TpFits(cfg, tp) {
      forall start, es | PunctualRun(cfg, start, es) && TpRun(cfg, tp, es) ensures !Starved(Run(cfg, start, es)) {
        RunFed(cfg, tp, start, es);
      }
    } else {
      var es := UnfitStarves(cfg, tp);
    }
  }

  /**
   The deadline theorem with segmentation, exactly. With segmentation enabled for the methods `tp`,
   every message is in time in all runs with a punctual timer, if and only if no debounce or
   retention time exceeds the retention time of a method in `tp`, or that of any other method by
   more than six hours.
   */
  lemma SegmentedDeadlineExactly(cfg: Config, tp: iset<Id>)
    requires cfg.maxMessageSize >= 4 && cfg.queueLimit >= 16 && (tp != iset{} ==> AllowsOversized(cfg))
    ensures TpFits(cfg, tp) <==>
            (forall start, es :: PunctualRun(cfg, start, es) && TpRun(cfg, tp, es) ==> InTime(Run(cfg, start, es)))
  {
    hide Run, PunctualRun, TpRun, Starved, TpFits, FedInv, InTime;
    if TpFits(cfg, tp) {
      forall start, es | PunctualRun(cfg, start, es) && TpRun(cfg, tp, es) ensures InTime(Run(cfg, start, es)) {
        RunFed(cfg, tp, start, es);
        TimelyIsInTime(cfg, start, es);
      }
    } else {
      var es := UnfitStarves(cfg, tp);
      var more := StarvedIsLate(cfg, 0, es);
      OnlyFiringsKeep(cfg, tp, es, more);
    }
  }

  /** Fires the timer if it is due right now. */
  function FireDue(s: State, n: nat): State
    decreases n
  {
    if n == 0 then s
    else FireDue(if s.timer == Some(s.clock) then Flush(s, s.clock, false) else s, n - 1)
  }

  /** No expiry is due. */
  predicate Settled(s: State) {
    s.timer.Some? ==> s.clock < s.timer.value
  }

  ghost predicate ComesToRest(s: State) {
    exists n :: Settled(FireDue(s, n))
  }

  lemma {:induction false} SpinsForever(s: State, n: nat)
    requires Spins(s) && s.timer == Some(s.clock)
    ensures FireDue(s, n) == s
    decreases n
  {
    hide Flush;
    if n > 0 { SpinsForever(s, n - 1); }
  }

  lemma {:induction false} Settles(cfg: Config, tp: iset<Id>, start: int, es: seq<Event>) returns (n: nat)
    requires PunctualRun(cfg, start, es) && TpRun(cfg, tp, es) && TpFits(cfg, tp)
    ensures Settled(FireDue(Run(cfg, start, es), n))
    decreases Loaded(Run(cfg, start, es))
  {
    hide Run, PunctualRun, TpRun, WellFormed, TpFits, Spins, Flush, Trains, Starved, FedInv;
    var s := Run(cfg, start, es);
    if Settled(s) { return 0; }
    RunTimer(cfg, start, es);
    RunFed(cfg, tp, start, es);
    var e := DoFlush(s.clock, false);
    PunctualStep(cfg, start, es, e);
    OnlyFiringsKeep(cfg, tp, es, [e]);
    FiringUnloads(cfg, s, s.clock);
    var s1 := Flush(s, s.clock, false);
    if s1.timer == None {
      assert FireDue(s, 1) == FireDue(s1, 0);
      return 1;
    }
    var m := Settles(cfg, tp, start, es + [e]);
    assert FireDue(s, m + 1) == FireDue(s1, m);
    n := m + 1;
  }

  /**
   The timer comes to rest, exactly: under the same condition, every punctual run reaches, by
   finitely many firings at its current time, a state in which no expiry is due.
   */
  lemma SettlesExactly(cfg: Config, tp: iset<Id>)
    requires cfg.maxMessageSize >= 4 && cfg.queueLimit >= 16 && (tp != iset{} ==> AllowsOversized(cfg))
    ensures TpFits(cfg, tp) <==>
            (forall start, es :: PunctualRun(cfg, start, es) && TpRun(cfg, tp, es) ==> ComesToRest(Run(cfg, start, es)))
  {
    hide Run, PunctualRun, TpRun, TpFits, Starved, FireDue, Spins;
    if TpFits(cfg, tp) {
      forall start, es | PunctualRun(cfg, start, es) && TpRun(cfg, tp, es) ensures ComesToRest(Run(cfg, start, es)) {
        var n := Settles(cfg, tp, start, es);
      }
    } else {
      var es := UnfitStarves(cfg, tp);
      var more := SpinsUp(cfg, 0, es);
      OnlyFiringsKeep(cfg, tp, es, more);
      var s := Run(cfg, 0, es + more);
      forall n ensures !Settled(FireDue(s, n)) { SpinsForever(s, n); }
    }
  }
}
