/**
 Freedom from starvation with a punctual timer. Oversized messages are cut into segments only for
 the methods that are enabled for it. A segment is queued at once, but the train in front of it is
 parked behind an empty train that is due within the segment's retention time; any other empty train
 is due in six hours. No parked train may be later than either.
 */
module TrainFeeding {
  import opened Common
  import opened TrainScheduler
  import opened TrainConservation
  import opened TrainFifo
  import opened TrainDeadline
  import opened TrainStarvation

  function TotalSize(parts: seq<Message>): nat
    decreases |parts|
  {
    if parts == [] then 0 else |parts[0]| + TotalSize(parts[1..])
  }

  /** Segments are of the service and method of their message, fit into a train each, and hold all of it. */
  predicate GenuineParts(cfg: Config, data: Message, parts: seq<Message>) {
    && TotalSize(parts) >= |data|
    && forall j :: 0 <= j < |parts| ==> Identify(parts[j]) == Identify(data) && |parts[j]| <= cfg.maxMessageSize
  }

  /** An oversized message is cut into segments of its own method, and only if the method is enabled. */
  ghost predicate TpEvent(cfg: Config, tp: iset<Id>, e: Event) {
    e.DoSend? && e.split.Segments? && |e.data| > cfg.maxMessageSize ==>
      Identify(e.data) in tp && GenuineParts(cfg, e.data, e.split.parts)
  }

  ghost predicate TpRun(cfg: Config, tp: iset<Id>, es: seq<Event>) {
    forall i :: 0 <= i < |es| ==> TpEvent(cfg, tp, es[i])
  }

  /** How long after a message of the method an empty train may be due. */
  ghost function Reach(cfg: Config, tp: iset<Id>, id: Id): int {
    cfg.times(id).retention + if id in tp then 0 else SIX_HOURS
  }

  /**
   No debounce or retention time exceeds the retention time of an enabled method, or that of any
   other method by more than six hours.
   */
  ghost predicate TpFits(cfg: Config, tp: iset<Id>) {
    forall id :: AllWithin(cfg, Reach(cfg, tp, id))
  }

  /** No debounce or retention time exceeds any retention time by more than six hours. */
  ghost predicate TimingFits(cfg: Config) {
    forall id :: AllWithin(cfg, cfg.times(id).retention + SIX_HOURS)
  }

  /** The condition when no method is enabled for segmentation, and when every method is. */
  lemma NoneOrAll(cfg: Config, tp: iset<Id>)
    ensures tp == iset{} ==> (TimingFits(cfg) <==> TpFits(cfg, tp))
    ensures (forall id :: id in tp) ==> (EvenTiming(cfg) <==> TpFits(cfg, tp))
  {
    hide AllWithin;
    assert forall id :: id !in tp ==> Reach(cfg, tp, id) == cfg.times(id).retention + SIX_HOURS;
    assert forall id :: id in tp ==> Reach(cfg, tp, id) == cfg.times(id).retention;
  }

  // ------------------------------------------------------------------------ the invariant

  /** No parked train is later than an empty train could be due after a message accepted now. */
  ghost predicate KeysWithin(cfg: Config, tp: iset<Id>, b: seq<Bucket>, clock: int) {
    forall id :: KeysAtMost(b, clock + Reach(cfg, tp, id))
  }

  /** The latest departure allowed to a parked train: an empty train is due before the next one arrives. */
  function Bound(t: Train): int {
    t.departure + if t.cargo == [] then 0 else SIX_HOURS
  }

  ghost predicate FedKeys(cfg: Config, tp: iset<Id>, b: seq<Bucket>, t: Train, clock: int) {
    KeysWithin(cfg, tp, b, clock) && KeysAtMost(b, Bound(t))
  }

  ghost predicate FedInv(cfg: Config, tp: iset<Id>, s: State) {
    && FedKeys(cfg, tp, s.parked, s.train, s.clock)
    && (s.train.cargo != [] ==> s.timer.Some? && NextDeparture(s) <= s.timer.value)
  }

  lemma FedNotStarved(cfg: Config, tp: iset<Id>, s: State)
    requires FedInv(cfg, tp, s)
    ensures !Starved(s)
  {
    hide KeysWithin;
  }

  lemma {:induction false} ParkAtMost(b: seq<Bucket>, t: Train, d: int)
    requires KeysAtMost(b, d) && t.departure <= d
    ensures KeysAtMost(Park(b, t), d)
  {
    if b != [] && b[0].key < t.departure {
      ParkAtMost(b[1..], t, d);
      assert Park(b, t)[1..] == Park(b[1..], t);
    } else if b != [] && b[0].key == t.departure {
      assert Park(b, t)[1..] == b[1..];
    } else {
      assert Park(b, t)[1..] == b;
    }
  }

  lemma KeysWithinLater(cfg: Config, tp: iset<Id>, b: seq<Bucket>, clock: int, now: int)
    requires KeysWithin(cfg, tp, b, clock) && clock <= now
    ensures KeysWithin(cfg, tp, b, now)
  {
    hide KeysAtMost, Reach;
    forall id ensures KeysAtMost(b, now + Reach(cfg, tp, id)) {
      KeysAtMostMonotone(b, clock + Reach(cfg, tp, id), now + Reach(cfg, tp, id));
    }
  }

  lemma KeysWithinPop(cfg: Config, tp: iset<Id>, b: seq<Bucket>, clock: int)
    requires b != [] && KeysWithin(cfg, tp, b, clock)
    ensures KeysWithin(cfg, tp, PopFirst(b), clock)
  {
    hide KeysAtMost, Reach, PopFirst;
    forall id ensures KeysAtMost(PopFirst(b), clock + Reach(cfg, tp, id)) {
      PopFirstAtMost(b, clock + Reach(cfg, tp, id));
    }
  }

  lemma NothingParked(cfg: Config, tp: iset<Id>, t: Train, clock: int)
    ensures FedKeys(cfg, tp, [], t, clock)
  {
  }

  /** The current train as it is parked, with minima that segmentation may have lowered. */
  function Parking(s: State, t: Train): Train {
    var floor := FloorOf(s.lastDeparture, t);
    t.(departure := Raised(t.departure, floor), floor := floor)
  }

  lemma ParkFed(cfg: Config, tp: iset<Id>, s: State, t: Train, now: int)
    requires WellFormed(cfg, s) && TpFits(cfg, tp) && KeysWithin(cfg, tp, s.parked, s.clock) && s.clock <= now
    requires t.cargo == s.train.cargo != [] && t.departure == s.train.departure && t.minDebounce <= s.train.minDebounce
    ensures KeysWithin(cfg, tp, Park(s.parked, Parking(s, t)), now)
  {
    KeysWithinLater(cfg, tp, s.parked, s.clock, now);
    hide WellFormed, AllWithin, KeysAtMost, Park, Raised, FloorOf, Reach;
    forall id ensures KeysAtMost(Park(s.parked, Parking(s, t)), now + Reach(cfg, tp, id)) {
      ParkedWithin(cfg, s, t, now, Reach(cfg, tp, id));
      ParkAtMost(s.parked, Parking(s, t), now + Reach(cfg, tp, id));
    }
  }

  /** What an empty train set up for the method may be followed by. */
  lemma WithinBound(cfg: Config, tp: iset<Id>, b: seq<Bucket>, now: int, id: Id)
    requires KeysWithin(cfg, tp, b, now)
    ensures KeysAtMost(b, now + cfg.times(id).retention + SIX_HOURS)
    ensures id in tp ==> KeysAtMost(b, now + cfg.times(id).retention)
  {
    assert KeysAtMost(b, now + Reach(cfg, tp, id));
    KeysAtMostMonotone(b, now + Reach(cfg, tp, id), now + cfg.times(id).retention + SIX_HOURS);
  }

  // ----------------------------------------------------------------------------- the steps

  lemma PrepareFed(cfg: Config, tp: iset<Id>, s: State, now: int, data: Message)
    requires WellFormed(cfg, s) && FedInv(cfg, tp, s) && TpFits(cfg, tp) && s.clock <= now
    ensures var s1 := PrepareTrain(cfg, s, now, data);
            KeysWithin(cfg, tp, s1.parked, now) && KeysAtMost(s1.parked, s1.train.departure + SIX_HOURS)
  {
    EmptyWhen(cfg, s);
    KeysWithinLater(cfg, tp, s.parked, s.clock, now);
    if s.train.cargo != [] { ParkFed(cfg, tp, s, s.train, now); }
    hide WellFormed, TpFits, KeysWithin, KeysAtMost, MustDepart, Park, NextDeparture, Raised, FloorOf;
    WithinBound(cfg, tp, PrepareTrain(cfg, s, now, data).parked, now, Identify(data));
  }

  lemma SendSmallFed(cfg: Config, tp: iset<Id>, s: State, now: int, data: Message)
    requires WellFormed(cfg, s) && FedInv(cfg, tp, s) && TpFits(cfg, tp) && s.clock <= now
    ensures FedInv(cfg, tp, SendSmall(cfg, s.(clock := now), now, data))
  {
    PrepareFed(cfg, tp, s, now, data);
    PrepareClock(cfg, s, now, data);
    PrepareFrame(cfg, s.(clock := now), now, data);
    hide WellFormed, TpFits, KeysWithin, KeysAtMost, PrepareTrain, NextDeparture;
  }

  lemma SegmentTrainsFed(cfg: Config, tp: iset<Id>, s: State, now: int, first: Message)
    requires WellFormed(cfg, s) && FedInv(cfg, tp, s) && TpFits(cfg, tp) && s.clock <= now && Identify(first) in tp
    ensures var s' := SegmentTrains(cfg, s.(clock := now), now, first);
            FedKeys(cfg, tp, s'.parked, s'.train, now) && s'.train.cargo == []
  {
    EmptyWhen(cfg, s);
    KeysWithinLater(cfg, tp, s.parked, s.clock, now);
    var t := LowerMinima(s.train, cfg.times(Identify(first)));
    if s.train.cargo != [] { ParkFed(cfg, tp, s, t, now); }
    hide WellFormed, TpFits, KeysWithin, KeysAtMost, Park, Raised, FloorOf, NextDeparture;
    var s' := SegmentTrains(cfg, s.(clock := now), now, first);
    WithinBound(cfg, tp, s'.parked, now, Identify(first));
  }

  lemma SendSegmentsFed(cfg: Config, tp: iset<Id>, s: State, now: int, parts: seq<Message>, sep: nat, size: nat)
    requires WellFormed(cfg, s) && FedInv(cfg, tp, s) && TpFits(cfg, tp) && s.clock <= now
    requires parts != [] && Identify(parts[0]) in tp
    ensures FedInv(cfg, tp, SendSegments(cfg, s.(clock := now), now, parts, sep, size))
  {
    SegmentTrainsFed(cfg, tp, s, now, parts[0]);
    hide WellFormed, TpFits, FedKeys, SegmentPassengers, SegmentEntries, SegmentTrains, Enqueue;
    var s0 := s.(clock := now);
    var ps := SegmentPassengers(cfg, |s0.accepted|, now, parts);
    EnqueueFrame(SegmentTrains(cfg, s0, now, parts[0]), SegmentEntries(ps, sep), ps, size);
    SegmentTrainsFrame(cfg, s0, now, parts[0]);
  }

  lemma FlushParkedFed(cfg: Config, tp: iset<Id>, s: State, now: int)
    requires FedInv(cfg, tp, s) && s.clock <= now && TakesParked(s)
    ensures FedInv(cfg, tp, Flush(s, now, false))
  {
    KeysWithinLater(cfg, tp, s.parked, s.clock, now);
    KeysWithinPop(cfg, tp, s.parked, now);
    PopFirstAtMost(s.parked, Bound(s.train));
    FlushedParked(s, now);
    hide KeysWithin, KeysAtMost, Flush, PopFirst, Bound;
  }

  lemma FlushCurrentFed(cfg: Config, tp: iset<Id>, s: State, now: int)
    requires WellFormed(cfg, s) && FedInv(cfg, tp, s) && s.clock <= now && s.timer == Some(now) && !TakesParked(s)
    ensures FedInv(cfg, tp, Flush(s, now, false))
  {
    EmptyWhen(cfg, s);
    KeysWithinLater(cfg, tp, s.parked, s.clock, now);
    var s0 := s.(clock := now, timer := None);
    QueueTrainMoves(s0, s.train, now);
    if s.train.cargo == [] {
      assert s.parked == [];
      NothingParked(cfg, tp, s.train, now);
    } else {
      assert NextDeparture(s) == s.train.departure;
      KeysAtMostMonotone(s.parked, Bound(s.train), now + SIX_HOURS);
    }
    hide WellFormed, KeysWithin, KeysAtMost, QueueTrain, NextDeparture;
  }

  lemma FedFrame(cfg: Config, tp: iset<Id>, s: State, s': State)
    requires FedInv(cfg, tp, s) && s.clock <= s'.clock
    requires s'.train == s.train && s'.parked == s.parked && s'.timer == s.timer
    ensures FedInv(cfg, tp, s')
  {
    KeysWithinLater(cfg, tp, s.parked, s.clock, s'.clock);
    hide KeysAtMost, KeysWithin;
  }

  lemma StepFed(cfg: Config, tp: iset<Id>, s: State, e: Event)
    requires WellFormed(cfg, s) && FedInv(cfg, tp, s) && TpFits(cfg, tp) && Punctual(s, e) && TpEvent(cfg, tp, e)
    ensures FedInv(cfg, tp, Next(cfg, s, e))
  {
    FedNotStarved(cfg, tp, s);
    FedTimely(cfg, s, e);
    hide WellFormed, TpFits, FedInv, SendSmall, SendSegments, WithinLimit, Flush, Punctual, NextDeparture;
    FedFrame(cfg, tp, s, s.(clock := e.now));
    match e
    case DoSend(now, data, split) =>
      if |data| <= cfg.maxMessageSize {
        SendSmallFed(cfg, tp, s, now, data);
      } else if split.Segments? {
        assert |data| > 0 && TotalSize([]) == 0;
        SendSegmentsFed(cfg, tp, s, now, split.parts, split.separation, |data|);
      }
    case DoFlush(now, stale) =>
      if TakesParked(s) { FlushParkedFed(cfg, tp, s, now); } else { FlushCurrentFed(cfg, tp, s, now); }
    case DoWriteDone(now) => FedFrame(cfg, tp, s, WriteDone(s, now));
  }

  /** If the timings fit, no punctual run passes an armed expiry or starves a train. */
  lemma {:induction false} RunFed(cfg: Config, tp: iset<Id>, start: int, es: seq<Event>)
    requires PunctualRun(cfg, start, es) && TpRun(cfg, tp, es) && TpFits(cfg, tp)
    ensures TimelyRun(cfg, start, es) && FedInv(cfg, tp, Run(cfg, start, es)) && !Starved(Run(cfg, start, es))
  {
    if es == [] {
      NothingParked(cfg, tp, Init(start).train, start);
    } else {
      var n := |es| - 1;
      hide FedInv, Next, TpFits, WellFormed, Punctual, Timely, Starved, TpEvent;
      RunFed(cfg, tp, start, es[..n]);
      RunDeadline(cfg, start, es[..n]);
      FedTimely(cfg, Run(cfg, start, es[..n]), es[n]);
      StepFed(cfg, tp, Run(cfg, start, es[..n]), es[n]);
    }
    FedNotStarved(cfg, tp, Run(cfg, start, es));
  }

  /** Progress: a timer that fires while a message is held moves one train to the queue. */
  lemma FiringProgresses(cfg: Config, tp: iset<Id>, start: int, es: seq<Event>, now: int)
    requires PunctualRun(cfg, start, es) && TpRun(cfg, tp, es) && TpFits(cfg, tp)
    requires var s := Run(cfg, start, es); s.parked != [] || s.train.cargo != []
    ensures var s := Run(cfg, start, es);
            exists e :: Flush(s, now, false).queue == s.queue + [e] && e.cargo != []
  {
    hide Run, PunctualRun, TpRun, TpFits, CurrentOk, BucketsOk, QueueOk, AcceptedOk, Sorted, FedInv, Flush, NextDeparture;
    var s := Run(cfg, start, es);
    RunFed(cfg, tp, start, es);
    RunDeadline(cfg, start, es);
    EmptyWhen(cfg, s);
    FlushQueues(s, now, false);
    if TakesParked(s) {
      PopFirstKeeps(cfg, s.accepted, s.segmented, s.parked);
      EmptyTogether(cfg, s.accepted, s.segmented, s.parked[0].trains[0]);
    }
    assert EntryOf(Departing(s), now).cargo != [];
  }

  // ------------------------------------------------------------------- without segmentation

  lemma UnsegmentedIsTp(cfg: Config, tp: iset<Id>, es: seq<Event>)
    requires Unsegmented(cfg, es)
    ensures TpRun(cfg, tp, es)
  {
  }

  lemma RunFedUnsegmented(cfg: Config, start: int, es: seq<Event>)
    requires PunctualRun(cfg, start, es) && Unsegmented(cfg, es) && TimingFits(cfg)
    ensures TimelyRun(cfg, start, es) && !Starved(Run(cfg, start, es))
  {
    hide Run, PunctualRun, TpRun, TimingFits, TpFits, TimelyRun, Starved;
    UnsegmentedIsTp(cfg, iset{}, es);
    NoneOrAll(cfg, iset{});
    RunFed(cfg, iset{}, start, es);
  }

  /**
   Freedom from starvation, exactly. With a punctual timer and no segmentation, no run starves
   a parked train if and only if no timing exceeds any retention time by more than six hours.
   */
  lemma NeverStarvedExactly(cfg: Config)
    requires cfg.maxMessageSize >= 4 && cfg.queueLimit >= 16
    ensures TimingFits(cfg) <==>
            (forall start, es :: PunctualRun(cfg, start, es) && Unsegmented(cfg, es) ==> !Starved(Run(cfg, start, es)))
  {
    hide Run, PunctualRun, Unsegmented, Starve, Longest, Starved;
    if TimingFits(cfg) {
      forall start, es | PunctualRun(cfg, start, es) && Unsegmented(cfg, es) ensures !Starved(Run(cfg, start, es)) {
        RunFedUnsegmented(cfg, start, es);
      }
    } else {
      var b, a :| Longest(cfg.times(a)) > cfg.times(b).retention + SIX_HOURS;
      StarveStarves(cfg, a, b);
    }
  }
}
