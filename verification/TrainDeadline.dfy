/**
 Deadlines, as long as the clock has not passed an armed dispatch timer: until then no train is
 held past its departure. Which timings make this a property of all runs with a punctual timer is
 the subject of `TrainPunctuality`.
 */
module TrainDeadline {
  import opened Common
  import opened TrainScheduler
  import opened TrainConservation

  /** The event happens no later than the armed expiry. */
  predicate Timely(s: State, e: Event) {
    Enabled(s, e) && (s.timer.Some? ==> e.now <= s.timer.value)
  }

  ghost predicate TimelyRun(cfg: Config, start: int, es: seq<Event>) {
    es != [] ==> TimelyRun(cfg, start, es[..|es|-1]) && Timely(Run(cfg, start, es[..|es|-1]), es[|es|-1])
  }

  predicate EntryOnTime(e: Entry) {
    IsSegment(e) || e.queuedAt <= e.due
  }

  predicate OnTime(q: seq<Entry>) {
    forall i :: 0 <= i < |q| ==> EntryOnTime(q[i])
  }

  /** The timer is armed no later than the departure of every train that holds a message. */
  predicate Armed(s: State) {
    && (s.timer.Some? ==> s.clock <= s.timer.value)
    && (s.train.cargo != [] ==> s.timer.Some? && s.timer.value <= s.train.departure)
    && (s.parked != [] ==> s.timer.Some? && s.timer.value <= s.parked[0].key)
  }

  predicate DeadlineInv(cfg: Config, s: State) {
    WellFormed(cfg, s) && Armed(s) && OnTime(s.queue) && OnTime(s.written)
  }

  // ------------------------------------------------------------------------------ steps

  /** Arming at a time that no held train has passed. */
  lemma ArmTimerArms(s: State, now: int)
    requires s.clock == now
    requires s.train.cargo != [] ==> now <= s.train.departure
    requires s.parked != [] ==> now <= s.parked[0].key == s.parked[0].trains[0].departure
    ensures Armed(ArmTimer(s, now))
    ensures ArmTimer(s, now).timer.value >= NextDeparture(s)
  {
  }

  lemma FirstDeparture(cfg: Config, s: State)
    requires WellFormed(cfg, s) && s.parked != []
    ensures s.parked[0].trains[0].departure == s.parked[0].key
  {
    PopFirstKeeps(cfg, s.accepted, s.segmented, s.parked);
  }

  /** The parked trains after the current train is put among them still depart after `now`. */
  lemma PrepareFuture(cfg: Config, s: State, now: int, data: Message)
    requires WellFormed(cfg, s) && Armed(s) && (s.timer.Some? ==> now <= s.timer.value)
    ensures var s1 := PrepareTrain(cfg, s, now, data);
            && now <= s1.train.departure
            && (s1.parked != [] ==> now <= s1.parked[0].key)
  {
    hide CurrentOk, BucketsOk, QueueOk, AcceptedOk, MustDepart, Park;
    assert CurrentOk(cfg, s.accepted, s.segmented, s.train);
    EmptyWhen(cfg, s);
    ParkSorted(s.parked, Scheduled(s));
  }

  lemma EmptyWhen(cfg: Config, s: State)
    requires WellFormed(cfg, s)
    ensures s.train.cargo == [] <==> s.train.passengers == {}
    ensures s.train.cargo == [] <==> s.train.buffer == []
  {
    EmptyTogether(cfg, s.accepted, s.segmented, s.train);
  }

  lemma SendSmallDeadline(cfg: Config, s: State, now: int, data: Message)
    requires DeadlineInv(cfg, s) && s.clock <= now && (s.timer.Some? ==> now <= s.timer.value)
    requires |data| <= cfg.maxMessageSize
    ensures DeadlineInv(cfg, SendSmall(cfg, s.(clock := now), now, data))
  {
    hide CurrentOk, Sorted, BucketsOk, QueueOk, AcceptedOk, PrepareTrain, NextDeparture;
    var s0 := s.(clock := now);
    var s' := SendSmall(cfg, s0, now, data);
    SendSmallKeeps(cfg, s, now, data);
    PrepareFuture(cfg, s, now, data);
    PrepareClock(cfg, s, now, data);
    SendSmallFrame(cfg, s0, now, data);
    var s1 := PrepareTrain(cfg, s0, now, data);
    var p := NextPassenger(cfg, s0, now, data);
    var s2 := s1.(train := Board(s1.train, p), accepted := s.accepted + [p]);
    assert s' == ArmTimer(s2, now);
    if s'.parked != [] { FirstDeparture(cfg, s'); }
    PrepareFrame(cfg, s0, now, data);
    ArmTimerArms(s2, now);
  }

  lemma PrepareClock(cfg: Config, s: State, now: int, data: Message)
    ensures PrepareTrain(cfg, s.(clock := now), now, data) == PrepareTrain(cfg, s, now, data).(clock := now)
  {
    hide Park, MustDepart;
  }

  lemma OnTimeConcat(a: seq<Entry>, b: seq<Entry>)
    requires OnTime(a) && OnTime(b)
    ensures OnTime(a + b)
  {
    hide EntryOnTime;
  }

  lemma SegmentTrainsFuture(cfg: Config, s: State, now: int, first: Message)
    requires WellFormed(cfg, s) && Armed(s)
    ensures var s1 := SegmentTrains(cfg, s, now, first);
            && s1.train.cargo == []
            && (s1.parked != [] ==> s.timer.Some? && s.timer.value <= s1.parked[0].key)
  {
    hide CurrentOk, BucketsOk, QueueOk, AcceptedOk, Park;
    EmptyWhen(cfg, s);
    var s1 := s.(train := LowerMinima(s.train, cfg.times(Identify(first))), segmented := true);
    ParkSorted(s.parked, Scheduled(s1));
  }

  lemma SendSegmentsDeadline(cfg: Config, s: State, now: int, parts: seq<Message>, sep: nat, size: nat)
    requires DeadlineInv(cfg, s) && s.clock <= now && (s.timer.Some? ==> now <= s.timer.value) && parts != []
    ensures DeadlineInv(cfg, SendSegments(cfg, s.(clock := now), now, parts, sep, size))
  {
    hide WellFormed, SegmentPassengers, SegmentEntries, SegmentTrains, Enqueue, BytesQueued;
    var s0 := s.(clock := now);
    var ps := SegmentPassengers(cfg, |s.accepted|, now, parts);
    var es := SegmentEntries(ps, sep);
    assert WellFormed(cfg, s0) by { LaterWellFormed(cfg, s, now); }
    SendSegmentsKeeps(cfg, s, now, parts, sep, size);
    SegmentTrainsFuture(cfg, s0, now, parts[0]);
    SegmentTrainsFrame(cfg, s0, now, parts[0]);
    EnqueueFrame(SegmentTrains(cfg, s0, now, parts[0]), es, ps, size);
    SegmentEntriesAre(ps, sep);
    OnTimeConcat(s.queue, es);
  }

  lemma QueueTrainOnTime(s: State, t: Train, now: int)
    requires OnTime(s.queue) && now <= t.departure
    ensures OnTime(QueueTrain(s, t, now).queue)
  {
    assert EntryOnTime(EntryOf(t, now));
    OnTimeConcat(s.queue, [EntryOf(t, now)]);
  }

  /** The state of `flush` before it decides whether to arm the timer again. */
  function Flushed(s: State, now: int, stale: bool): State {
    var s0 := s.(clock := now, timer := if stale then s.timer else None);
    if TakesParked(s) then FlushParked(s0, now) else FlushCurrent(s0, now)
  }

  lemma FlushedShape(s: State, now: int)
    ensures var s1 := Flushed(s, now, false);
            && s1.written == s.written && s1.segmented == s.segmented && s1.timer == None
            && (s1.train == s.train || s1.train == NewTrain(now))
            && (s1.parked == s.parked || (s.parked != [] && s1.parked == PopFirst(s.parked)))
  {
    hide QueueTrain, PopFirst;
    var s0 := s.(clock := now, timer := None);
    if TakesParked(s) {
      QueueTrainMoves(s0.(parked := PopFirst(s.parked)), s.parked[0].trains[0], now);
    } else {
      QueueTrainMoves(s0, s.train, now);
    }
  }

  /** A flush is the move of a train and, perhaps, an arming of the timer. */
  lemma FlushShape(s: State, now: int)
    ensures var s1, s' := Flushed(s, now, false), Flush(s, now, false);
            s' == s1 || s' == ArmTimer(s1, now)
  {
    hide FlushParked, FlushCurrent, NextDeparture;
  }

  lemma FlushedFuture(cfg: Config, s: State, now: int, stale: bool)
    requires DeadlineInv(cfg, s) && s.clock <= now && (s.timer.Some? ==> now <= s.timer.value)
    ensures var s1 := Flushed(s, now, stale);
            && OnTime(s1.queue) && s1.written == s.written
            && s1.clock == now && s1.timer == (if stale then s.timer else None)
            && (s1.train.cargo != [] ==> s1.train == s.train && now <= s1.train.departure)
            && (s1.parked != [] ==> now <= s1.parked[0].key)
            && (!TakesParked(s) ==> s1.train.cargo == [] && s1.parked == s.parked)
  {
    hide CurrentOk, Sorted, BucketsOk, QueueOk, AcceptedOk, OnTime, QueueTrain;
    var s0 := s.(clock := now, timer := if stale then s.timer else None);
    EmptyWhen(cfg, s);
    if TakesParked(s) {
      var t := s.parked[0].trains[0];
      PopFirstKeeps(cfg, s.accepted, s.segmented, s.parked);
      QueueTrainOnTime(s0.(parked := PopFirst(s.parked)), t, now);
      QueueTrainMoves(s0.(parked := PopFirst(s.parked)), t, now);
    } else if s.train.buffer != [] {
      QueueTrainOnTime(s0, s.train, now);
      QueueTrainMoves(s0, s.train, now);
    }
  }

  lemma FlushDeadline(cfg: Config, s: State, now: int, stale: bool)
    requires DeadlineInv(cfg, s) && s.clock <= now && (s.timer.Some? ==> now <= s.timer.value)
    ensures DeadlineInv(cfg, Flush(s, now, stale))
  {
    hide WellFormed, OnTime, NextDeparture, FlushParked, FlushCurrent, QueueTrain;
    var s1, s' := Flushed(s, now, stale), Flush(s, now, stale);
    FlushKeeps(cfg, s, now, stale);
    FlushedFuture(cfg, s, now, stale);
    if s'.parked != [] { FirstDeparture(cfg, s'); }
    if TakesParked(s) || s1.parked != [] { ArmTimerArms(s1, now); }
  }

  lemma WriteDoneDeadline(cfg: Config, s: State, now: int)
    requires DeadlineInv(cfg, s) && s.clock <= now && (s.timer.Some? ==> now <= s.timer.value)
    ensures DeadlineInv(cfg, WriteDone(s, now))
  {
    hide WellFormed, EntryOnTime;
    WriteDoneKeeps(cfg, s, now);
    if s.queue != [] {
      OnTimeConcat(s.written, [s.queue[0]]);
      forall i | 0 <= i < |s.queue[1..]| ensures EntryOnTime(s.queue[1..][i]) { assert s.queue[1..][i] == s.queue[i + 1]; }
    }
  }

  lemma StepDeadline(cfg: Config, s: State, e: Event)
    requires DeadlineInv(cfg, s) && Timely(s, e)
    ensures DeadlineInv(cfg, Next(cfg, s, e))
  {
    hide WellFormed, OnTime, SendSmall, SendSegments, WithinLimit, Flush, WriteDone;
    match e
    case DoSend(now, data, split) =>
      LaterWellFormed(cfg, s, now);
      if |data| <= cfg.maxMessageSize { SendSmallDeadline(cfg, s, now, data); }
      else if split.Segments? {
        if split.parts != [] { SendSegmentsDeadline(cfg, s, now, split.parts, split.separation, |data|); }
        SendSegmentsNothing(cfg, s, now, split);
      }
    case DoFlush(now, stale) => FlushDeadline(cfg, s, now, stale);
    case DoWriteDone(now) => WriteDoneDeadline(cfg, s, now);
  }

  lemma {:induction false} RunDeadline(cfg: Config, start: int, es: seq<Event>)
    requires TimelyRun(cfg, start, es)
    ensures DeadlineInv(cfg, Run(cfg, start, es)) && Legal(cfg, start, es)
  {
    if es == [] {
      InitWellFormed(cfg, start);
    } else {
      var n := |es| - 1;
      hide DeadlineInv, Next;
      RunDeadline(cfg, start, es[..n]);
      StepDeadline(cfg, Run(cfg, start, es[..n]), es[n]);
    }
  }

  // ------------------------------------------------------------------------ the theorems

  /** The departure that passenger `p` of a train with debounce floor `floor` may count on. */
  function Promise(p: Passenger, floor: Option<int>): int {
    Raised(Deadline(p), floor)
  }

  /** A train's departure keeps the promise made to each passenger. */
  lemma DepartureKeepsPromise(c: seq<Passenger>, floor: Option<int>, i: nat)
    requires i < |c|
    ensures Raised(MinDeadline(c), floor) <= Promise(c[i], floor)
  {
    MinDeadlineIsLeast(c);
  }

  lemma {:induction false} LaterBuckets(cfg: Config, acc: seq<Passenger>, seg: bool, b: seq<Bucket>, k: nat)
    requires Sorted(b) && BucketsOk(cfg, acc, seg, b) && k < |b|
    ensures b[0].key <= b[k].key && BucketOk(cfg, acc, seg, b[k])
  {
    if k > 0 { LaterBuckets(cfg, acc, seg, b[1..], k - 1); }
  }

  predicate EntryInTime(e: Entry) {
    forall i :: 0 <= i < |e.cargo| ==> e.queuedAt <= Promise(e.cargo[i], e.floor)
  }

  predicate TrainInTime(t: Train, clock: int) {
    forall i :: 0 <= i < |t.cargo| ==> clock <= Promise(t.cargo[i], t.floor)
  }

  /** Every message that left a train left it in time, and no message that is still held is overdue. */
  predicate InTime(s: State) {
    && (forall k :: 0 <= k < |s.written| ==> EntryInTime(s.written[k]))
    && (forall k :: 0 <= k < |s.queue| ==> EntryInTime(s.queue[k]))
    && TrainInTime(s.train, s.clock)
    && (forall k :: 0 <= k < |Trains(s.parked)| ==> TrainInTime(Trains(s.parked)[k], s.clock))
  }

  lemma EntryIsInTime(acc: seq<Passenger>, e: Entry)
    requires EntryOk(acc, e) && EntryOnTime(e)
    ensures EntryInTime(e)
  {
    hide Bytes, Recorded, MinDeadline;
    forall i | 0 <= i < |e.cargo| ensures e.queuedAt <= Promise(e.cargo[i], e.floor) {
      DepartureKeepsPromise(e.cargo, e.floor, i);
    }
  }

  lemma TrainIsInTime(t: Train, clock: int)
    requires t.cargo != [] ==> clock <= Raised(MinDeadline(t.cargo), t.floor)
    ensures TrainInTime(t, clock)
  {
    hide MinDeadline, Raised;
    forall i | 0 <= i < |t.cargo| ensures clock <= Promise(t.cargo[i], t.floor) {
      DepartureKeepsPromise(t.cargo, t.floor, i);
    }
  }

  lemma {:induction false} ParkedOk(cfg: Config, acc: seq<Passenger>, seg: bool, b: seq<Bucket>, k: nat)
    requires BucketsOk(cfg, acc, seg, b) && k < |Trains(b)|
    ensures ParkedTrainOk(cfg, acc, seg, Trains(b)[k])
  {
    hide ParkedTrainOk;
    var n := |b[0].trains|;
    if k < n { assert Trains(b)[k] == b[0].trains[k]; } else { ParkedOk(cfg, acc, seg, b[1..], k - n); }
  }

  lemma DeadlineInTime(cfg: Config, s: State)
    requires DeadlineInv(cfg, s)
    ensures InTime(s)
  {
    hide TrainOk, AcceptedOk, EntryOk, EntryOnTime, BucketsOk, Sorted, EntryInTime, TrainInTime, Raised, MinDeadline;
    forall k | 0 <= k < |s.written| ensures EntryInTime(s.written[k]) { EntryIsInTime(s.accepted, s.written[k]); }
    forall k | 0 <= k < |s.queue| ensures EntryInTime(s.queue[k]) { EntryIsInTime(s.accepted, s.queue[k]); }
    NotRaised(s.train);
    TrainIsInTime(s.train, s.clock);
    forall k | 0 <= k < |Trains(s.parked)| ensures TrainInTime(Trains(s.parked)[k], s.clock) {
      FirstKeyIsLeast(cfg, s.accepted, s.segmented, s.parked, k);
      ParkedOk(cfg, s.accepted, s.segmented, s.parked, k);
      TrainIsInTime(Trains(s.parked)[k], s.clock);
    }
  }

  lemma NotRaised(t: Train)
    requires t.floor == None
    ensures forall d :: Raised(d, t.floor) == d
  {
  }

  /** As long as no armed expiry is passed, everything is in time. */
  lemma TimelyIsInTime(cfg: Config, start: int, es: seq<Event>)
    requires TimelyRun(cfg, start, es)
    ensures InTime(Run(cfg, start, es))
  {
    RunDeadline(cfg, start, es);
    DeadlineInTime(cfg, Run(cfg, start, es));
  }

  /** The train that `flush` moves to the queue. */
  function Departing(s: State): Train {
    if TakesParked(s) then s.parked[0].trains[0] else s.train
  }

  lemma FlushQueues(s: State, now: int, stale: bool)
    ensures Flush(s, now, stale).queue == if Departing(s).buffer == [] then s.queue else s.queue + [EntryOf(Departing(s), now)]
  {
    hide PopFirst, NextDeparture, EntryOf;
  }

  /** `flush` queues a train of least departure among all that are held. */
  lemma FlushTakesLeast(cfg: Config, s: State, now: int, stale: bool, k: nat, j: nat)
    requires WellFormed(cfg, s) && k < |s.parked| && j < |s.parked[k].trains|
    ensures var q := Flush(s, now, stale).queue;
            q == s.queue
            || exists e :: q == s.queue + [e] && e.due <= s.train.departure && e.due <= s.parked[k].trains[j].departure
  {
    hide TrainOk, AcceptedOk, QueueOk, Raised, BucketsOk, Sorted, Flush;
    FlushQueues(s, now, stale);
    PopFirstKeeps(cfg, s.accepted, s.segmented, s.parked);
    LaterBuckets(cfg, s.accepted, s.segmented, s.parked, k);
    assert s.parked[k].trains[j].departure == s.parked[k].key;
  }
}
