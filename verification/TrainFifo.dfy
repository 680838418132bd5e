/**
 First in, first out. The scheduler keeps acceptance order in every run without segmentation
 exactly when no debounce or retention time exceeds any retention time. If all messages share one
 debounce time D and one retention time R, that is when D <= R.
 */
module TrainFifo {
  import opened Common
  import opened TrainScheduler
  import opened TrainConservation

  function Longest(t: Times): int {
    Max(t.debounce, t.retention)
  }

  /** No debounce or retention time exceeds the limit. */
  ghost predicate AllWithin(cfg: Config, limit: int) {
    forall id :: Longest(cfg.times(id)) <= limit
  }

  /** No debounce or retention time exceeds any retention time. */
  ghost predicate EvenTiming(cfg: Config) {
    forall id :: AllWithin(cfg, cfg.times(id).retention)
  }

  function EntryCargo(q: seq<Entry>): seq<Passenger> {
    if q == [] then [] else q[0].cargo + EntryCargo(q[1..])
  }

  function TrainCargo(ts: seq<Train>): seq<Passenger> {
    if ts == [] then [] else ts[0].cargo + TrainCargo(ts[1..])
  }

  /** Everything in the order in which it leaves: written, queued, parked in key order, current. */
  function Line(written: seq<Entry>, queue: seq<Entry>, parked: seq<Bucket>, train: Train): seq<Passenger> {
    EntryCargo(written + queue) + (TrainCargo(Trains(parked)) + train.cargo)
  }

  predicate InOrder(s: State) {
    Line(s.written, s.queue, s.parked, s.train) == s.accepted
  }

  predicate KeysAtMost(b: seq<Bucket>, d: int) {
    b != [] ==> b[0].key <= d && KeysAtMost(b[1..], d)
  }

  /** What makes the order hold: no parked train is later than the current one. */
  predicate FifoInv(cfg: Config, s: State) {
    && WellFormed(cfg, s) && !s.segmented && InOrder(s)
    && (s.parked != [] ==> s.train.cargo != [] && KeysAtMost(s.parked, s.train.departure))
  }

  // -------------------------------------------------------------------------- list laws

  lemma {:induction false} EntryCargoConcat(a: seq<Entry>, b: seq<Entry>)
    ensures EntryCargo(a + b) == EntryCargo(a) + EntryCargo(b)
  {
    if a == [] {
      assert a + b == b;
    } else {
      assert (a + b)[1..] == a[1..] + b;
      EntryCargoConcat(a[1..], b);
    }
  }

  lemma EntryCargoOne(e: Entry)
    ensures EntryCargo([e]) == e.cargo
  {
    assert [e][1..] == [];
  }

  lemma {:induction false} TrainCargoAppend(a: seq<Train>, t: Train)
    ensures TrainCargo(a + [t]) == TrainCargo(a) + t.cargo
  {
    if a == [] {
      assert a + [t] == [t] && [t][1..] == [];
    } else {
      assert (a + [t])[1..] == a[1..] + [t];
      TrainCargoAppend(a[1..], t);
    }
  }

  /** A train at least as late as every parked one goes to the end. */
  lemma {:induction false} ParkAtEnd(b: seq<Bucket>, t: Train, d: int)
    requires Sorted(b) && KeysAtMost(b, t.departure) && t.departure <= d
    ensures Trains(Park(b, t)) == Trains(b) + [t]
    ensures KeysAtMost(Park(b, t), d)
  {
    if b != [] && b[0].key < t.departure {
      ParkAtEnd(b[1..], t, d);
      assert Park(b, t)[1..] == Park(b[1..], t);
      assert Trains(b) + [t] == b[0].trains + (Trains(b[1..]) + [t]);
    } else if b != [] {
      assert b[1..] == [];
      assert Park(b, t)[1..] == [];
    } else {
      assert Park(b, t)[1..] == [];
    }
  }

  lemma {:induction false} KeysAtMostMonotone(b: seq<Bucket>, d: int, d': int)
    requires KeysAtMost(b, d) && d <= d'
    ensures KeysAtMost(b, d')
  {
    if b != [] { KeysAtMostMonotone(b[1..], d, d'); }
  }

  lemma PopFirstAtMost(b: seq<Bucket>, d: int)
    requires b != [] && KeysAtMost(b, d)
    ensures KeysAtMost(PopFirst(b), d)
  {
    var p: seq<Bucket> := PopFirst(b);
    if |b[0].trains| > 1 { assert p[1..] == b[1..]; }
  }

  // ----------------------------------------------------------------------------- timing

  /** The departure at which a train is parked, with minima that segmentation may have lowered. */
  lemma ParkedWithin(cfg: Config, s: State, t: Train, now: int, limit: int)
    requires WellFormed(cfg, s) && AllWithin(cfg, limit) && s.clock <= now
    requires t.cargo == s.train.cargo != [] && t.departure == s.train.departure && t.minDebounce <= s.train.minDebounce
    ensures t.departure <= Raised(t.departure, FloorOf(s.lastDeparture, t)) <= now + limit
  {
    hide Bytes, Ids, Distinct, BucketsOk, QueueOk, Sorted;
    var c := t.cargo;
    MinDeadlineIsLeast(c);
    RecordedAt(s.accepted, c, |s.accepted|, 0);
    assert MinDeadline(c) <= Deadline(c[0]);
    assert Longest(cfg.times(Identify(c[0].data))) <= limit;
    MinDebounceIsAttained(c);
    var i :| 0 <= i < |c| && MinDebounce(c) == c[i].times.debounce;
    RecordedAt(s.accepted, c, |s.accepted|, i);
    assert Longest(cfg.times(Identify(c[i].data))) <= limit;
  }

  // ------------------------------------------------------------------------------ steps

  lemma SendParks(cfg: Config, s: State, now: int, data: Message)
    requires FifoInv(cfg, s) && EvenTiming(cfg) && s.clock <= now
    ensures var s1 := PrepareTrain(cfg, s, now, data);
            && TrainCargo(Trains(s1.parked)) + s1.train.cargo == TrainCargo(Trains(s.parked)) + s.train.cargo
            && (s1.parked != [] ==> KeysAtMost(s1.parked, s1.train.departure))
  {
    hide Bytes, Ids, Distinct, BucketsOk, QueueOk, Sorted, MustDepart, Trains, TrainCargo, Line, Recorded, MinDebounce, MinRetention, MinDeadline;
    EmptyTogether(cfg, s.accepted, s.segmented, s.train);
    if s.train.cargo != [] {
      var r := cfg.times(Identify(data)).retention;
      ParkedWithin(cfg, s, s.train, now, r);
      if MustDepart(cfg, s.train, now, data) {
        var t := Scheduled(s);
        KeysAtMostMonotone(s.parked, s.train.departure, t.departure);
        ParkAtEnd(s.parked, t, now + r);
        TrainCargoAppend(Trains(s.parked), t);
      }
    }
  }

  lemma SendSmallFifo(cfg: Config, s: State, now: int, data: Message)
    requires FifoInv(cfg, s) && EvenTiming(cfg) && s.clock <= now && |data| <= cfg.maxMessageSize
    ensures FifoInv(cfg, SendSmall(cfg, s.(clock := now), now, data))
  {
    hide WellFormed, Sorted, Trains, TrainCargo, EntryCargo, PrepareTrain, NextDeparture;
    var s0 := s.(clock := now);
    assert WellFormed(cfg, s0) by { LaterWellFormed(cfg, s, now); }
    SendSmallKeeps(cfg, s, now, data);
    SendParks(cfg, s0, now, data);
    SendSmallFrame(cfg, s0, now, data);
    PrepareFrame(cfg, s0, now, data);
    var p, s1, s' := NextPassenger(cfg, s0, now, data), PrepareTrain(cfg, s0, now, data), SendSmall(cfg, s0, now, data);
    LineGrows(s0, s1.parked, s1.train, p);
    assert s'.train.cargo == s1.train.cargo + [p] && s'.parked == s1.parked;
  }

  lemma LineGrows(s: State, parked: seq<Bucket>, t: Train, p: Passenger)
    requires TrainCargo(Trains(parked)) + t.cargo == TrainCargo(Trains(s.parked)) + s.train.cargo
    requires InOrder(s)
    ensures Line(s.written, s.queue, parked, Board(t, p)) == s.accepted + [p]
  {
    hide Trains, TrainCargo, EntryCargo;
    var w := EntryCargo(s.written + s.queue);
    assert w + (TrainCargo(Trains(parked)) + (t.cargo + [p])) == w + (TrainCargo(Trains(parked)) + t.cargo) + [p];
  }

  lemma QueueLine(s: State, t: Train, now: int)
    ensures var s' := QueueTrain(s, t, now);
            && EntryCargo(s'.written + s'.queue) == EntryCargo(s.written + s.queue) + t.cargo
            && s'.parked == s.parked && s'.train == s.train && s'.accepted == s.accepted && s'.segmented == s.segmented
  {
    hide EntryCargo;
    var e := EntryOf(t, now);
    assert s.written + (s.queue + [e]) == (s.written + s.queue) + [e];
    EntryCargoConcat(s.written + s.queue, [e]);
    EntryCargoOne(e);
  }

  lemma FlushParkedFifo(cfg: Config, s: State, now: int)
    requires FifoInv(cfg, s) && s.parked != []
    ensures FifoInv(cfg, FlushParked(s, now))
  {
    hide WellFormed, EntryCargo, Trains, PopFirst, QueueTrain;
    var t, s1 := s.parked[0].trains[0], s.(parked := PopFirst(s.parked));
    FlushParkedKeeps(cfg, s, now);
    PopFirstLaws(s.parked);
    PopFirstAtMost(s.parked, s.train.departure);
    assert Trains(s.parked)[1..] == Trains(s1.parked);
    assert t.cargo + (TrainCargo(Trains(s1.parked)) + s.train.cargo) == TrainCargo(Trains(s.parked)) + s.train.cargo;
    FrontNonEmpty(cfg, s);
    QueueLine(s1, t, now);
    var w := EntryCargo(s.written + s.queue);
    assert (w + t.cargo) + (TrainCargo(Trains(s1.parked)) + s.train.cargo)
        == w + (t.cargo + (TrainCargo(Trains(s1.parked)) + s.train.cargo));
  }

  lemma FrontNonEmpty(cfg: Config, s: State)
    requires WellFormed(cfg, s) && s.parked != []
    ensures s.parked[0].trains[0].buffer != []
  {
    PopFirstKeeps(cfg, s.accepted, s.segmented, s.parked);
    EmptyTogether(cfg, s.accepted, s.segmented, s.parked[0].trains[0]);
  }

  lemma FlushCurrentFifo(cfg: Config, s: State, now: int)
    requires FifoInv(cfg, s) && s.parked == []
    ensures FifoInv(cfg, FlushCurrent(s, now))
  {
    hide BucketsOk, Sorted, QueueOk, AcceptedOk, EntryCargo, QueueTrain, Bytes, Ids, Distinct, Recorded;
    FlushCurrentKeeps(cfg, s, now);
    EmptyTogether(cfg, s.accepted, s.segmented, s.train);
    QueueLine(s, s.train, now);
    assert TrainCargo(Trains(s.parked)) == [];
    var w := EntryCargo(s.written + s.queue);
    assert (w + s.train.cargo) + ([] + []) == w + ([] + s.train.cargo);
  }

  lemma FlushFifo(cfg: Config, s: State, now: int, stale: bool)
    requires FifoInv(cfg, s) && s.clock <= now
    ensures FifoInv(cfg, Flush(s, now, stale))
  {
    hide CurrentOk, BucketsOk, Sorted, EntriesOk, BytesQueued, Line, FlushParked, FlushCurrent, NextDeparture;
    var s0 := s.(clock := now, timer := if stale then s.timer else None);
    assert FifoInv(cfg, s0);
    if TakesParked(s) { FlushParkedFifo(cfg, s0, now); } else { FlushCurrentFifo(cfg, s0, now); }
  }

  lemma WriteDoneFifo(cfg: Config, s: State, now: int)
    requires FifoInv(cfg, s) && s.clock <= now
    ensures FifoInv(cfg, WriteDone(s, now))
  {
    hide WellFormed, EntryCargo, TrainCargo, Trains;
    WriteDoneKeeps(cfg, s, now);
    if s.queue != [] {
      assert (s.written + [s.queue[0]]) + s.queue[1..] == s.written + s.queue;
    }
  }

  lemma StepFifo(cfg: Config, s: State, e: Event)
    requires FifoInv(cfg, s) && Enabled(s, e) && EvenTiming(cfg)
    requires e.DoSend? ==> |e.data| <= cfg.maxMessageSize
    ensures FifoInv(cfg, Next(cfg, s, e))
  {
    hide WellFormed, Line, SendSmall, WithinLimit, KeysAtMost, Flush, WriteDone;
    match e
    case DoSend(now, data, split) =>
      LaterWellFormed(cfg, s, now);
      SendSmallFifo(cfg, s, now, data);
    case DoFlush(now, stale) => FlushFifo(cfg, s, now, stale);
    case DoWriteDone(now) => WriteDoneFifo(cfg, s, now);
  }

  lemma {:induction false} RunFifo(cfg: Config, start: int, es: seq<Event>)
    requires Legal(cfg, start, es) && Unsegmented(cfg, es) && EvenTiming(cfg)
    ensures FifoInv(cfg, Run(cfg, start, es))
  {
    if es == [] {
      InitWellFormed(cfg, start);
    } else {
      var n := |es| - 1;
      hide FifoInv, Next, EvenTiming;
      RunFifo(cfg, start, es[..n]);
      StepFifo(cfg, Run(cfg, start, es[..n]), es[n]);
    }
  }

  // ------------------------------------------------------- the order is lost otherwise

  /** A four-byte message of a given method. */
  function Encode(id: Id): (m: Message)
    ensures |m| == 4 && Identify(m) == id
  {
    [id.service / 0x100, id.service % 0x100, id.function_ / 0x100, id.function_ % 0x100]
  }

  /** A message that fits, sent while nothing is held, boards the empty train. */
  lemma SendFirst(cfg: Config, s: State, now: int, data: Message)
    requires s.train.passengers == {} && s.train.buffer == [] && s.train.cargo == [] && s.parked == [] && s.queueSize == 0
    requires |data| == 4 <= cfg.maxMessageSize && cfg.queueLimit >= 16
    ensures var p := NextPassenger(cfg, s, now, data); var s' := Send(cfg, s, now, data, NotSplit);
            && s'.train == Board(s.train.(departure := now + p.times.retention), p)
            && s' == s.(clock := now, train := s'.train, timer := s'.timer, accepted := s.accepted + [p])
            && s'.timer == Some(now + p.times.retention)
  {
    assert Used(s) == 0;
  }

  /** A second message of the same method parks the train and boards a new one. */
  lemma SendAgain(cfg: Config, s: State, now: int, data: Message)
    requires s.train.passengers == {Identify(data)} && |s.train.buffer| == 4 && s.parked == [] && s.queueSize == 0
    requires |data| == 4 <= cfg.maxMessageSize && cfg.queueLimit >= 16
    ensures var p := NextPassenger(cfg, s, now, data); var s' := Send(cfg, s, now, data, NotSplit);
            && s'.parked == [Bucket(Scheduled(s).departure, [Scheduled(s)])]
            && s'.train == Board(NewTrain(now).(departure := now + p.times.retention), p)
            && s' == s.(clock := now, train := s'.train, parked := s'.parked, timer := s'.timer, accepted := s.accepted + [p])
            && s'.timer == Some(Max(now, Min(s'.train.departure, Scheduled(s).departure)))
  {
    assert Used(s) == 4;
    assert MustDepart(cfg, s.train, now, data);
  }

  /** A further message either boards the current train or parks it beside the one already parked. */
  lemma SendThird(cfg: Config, s: State, now: int, data: Message)
    requires |s.parked| == 1 && |s.parked[0].trains| == 1 && |s.parked[0].trains[0].buffer| == 4
    requires s.train.passengers != {} && |s.train.buffer| == 4 && s.train.cargo != [] && s.queueSize == 0
    requires Scheduled(s).departure == s.parked[0].key
    requires |data| == 4 <= cfg.maxMessageSize && cfg.queueLimit >= 16
    requires now + cfg.times(Identify(data)).retention < s.parked[0].key && now <= s.train.departure
    ensures var latest := now + cfg.times(Identify(data)).retention; var s' := Send(cfg, s, now, data, NotSplit);
            && s'.parked != [] && s'.parked[0].key == s.parked[0].key
            && now <= s'.train.departure <= latest && s'.train.cargo != [] && s'.train.buffer != []
            && s'.timer == Some(s'.train.departure)
            && s'.queue == s.queue && s'.isSending == s.isSending && s'.clock == now && s'.written == s.written
            && s'.accepted == s.accepted + [NextPassenger(cfg, s, now, data)]
            && (s'.train.cargo[0] == s.train.cargo[0] || s'.train.cargo[0] == NextPassenger(cfg, s, now, data))
  {
    var b := s.parked;
    assert b[1..] == [];
    assert Trains(b) == b[0].trains;
    assert b[0].trains[1..] == [];
    assert BytesParked(b[0].trains) == 4;
    assert Used(s) == 8;
  }

  /** The current train is flushed when no parked train is as early. */
  lemma FlushFirst(s: State, now: int)
    requires s.train.buffer != [] && s.queue == [] && !s.isSending
    requires s.parked == [] || s.parked[0].key > s.train.departure
    ensures var s' := Flush(s, now, false); var e := EntryOf(s.train, now);
            && s' == s.(clock := now, timer := s'.timer, train := NewTrain(now), queue := [e], isSending := true,
                        queueSize := s.queueSize + |s.train.buffer|, handed := s.handed + [e])
            && (s.parked == [] ==> s'.timer == None)
            && (s.parked != [] ==>
                  s'.timer == Some(Max(if s.parked[0].key < now + SIX_HOURS then s.parked[0].trains[0].departure
                                       else now + SIX_HOURS, now)))
  {
    assert s.queue + [EntryOf(s.train, now)] == [EntryOf(s.train, now)];
  }

  lemma WriteOne(s: State, now: int)
    requires |s.queue| == 1
    ensures WriteDone(s, now) == s.(clock := now, queue := [], isSending := false, lastDeparture := Some(now),
                                    queueSize := s.queueSize - |s.queue[0].buffer|, written := s.written + s.queue)
  {
    assert s.queue == [s.queue[0]];
  }

  /** One message sent, flushed at its deadline and written. */
  ghost function Prelude(x: Message, r: Nanos): seq<Event> {
    [] + [DoSend(0, x, NotSplit)] + [DoFlush(r, false)] + [DoWriteDone(r)]
  }

  lemma PreludeState(cfg: Config, x: Message, d: Nanos, r: Nanos)
    requires cfg.times(Identify(x)) == Times(d, r) && |x| == 4 <= cfg.maxMessageSize && cfg.queueLimit >= 16
    ensures Legal(cfg, 0, Prelude(x, r)) && Unsegmented(cfg, Prelude(x, r))
    ensures var s := Run(cfg, 0, Prelude(x, r)); var p := Passenger(0, x, 0, Times(d, r));
            && s.train == NewTrain(r) && s.parked == [] && s.queue == [] && s.queueSize == 0 && !s.isSending
            && s.accepted == [p] && EntryCargo(s.written) == [p]
            && s.lastDeparture == Some(r) && s.clock == r && s.timer == None
  {
    hide Send, Flush, WriteDone, Run, Legal, Unsegmented;
    var e1, e2, e3 := DoSend(0, x, NotSplit), DoFlush(r, false), DoWriteDone(r);
    var s0 := Init(0);
    assert Run(cfg, 0, []) == s0 && Legal(cfg, 0, []) && Unsegmented(cfg, []) by { PreludeStart(cfg); }
    RunStep(cfg, 0, [], e1);
    SendFirst(cfg, s0, 0, x);
    var s1 := Next(cfg, s0, e1);
    RunStep(cfg, 0, [] + [e1], e2);
    FlushFirst(s1, r);
    var s2 := Next(cfg, s1, e2);
    RunStep(cfg, 0, [] + [e1] + [e2], e3);
    WriteOne(s2, r);
    EntryCargoOne(EntryOf(s1.train, r));
  }

  lemma PreludeStart(cfg: Config)
    ensures Run(cfg, 0, []) == Init(0) && Legal(cfg, 0, []) && Unsegmented(cfg, [])
  {
  }

  /** After the prelude, the same method twice: the first of the two is parked. */
  ghost function Warmup(x: Message, r: Nanos): seq<Event> {
    Prelude(x, r) + [DoSend(r, x, NotSplit)] + [DoSend(r, x, NotSplit)]
  }

  lemma WarmupState(cfg: Config, x: Message, d: Nanos, r: Nanos)
    requires cfg.times(Identify(x)) == Times(d, r) && |x| == 4 <= cfg.maxMessageSize && cfg.queueLimit >= 16
    ensures Legal(cfg, 0, Warmup(x, r)) && Unsegmented(cfg, Warmup(x, r))
    ensures var s := Run(cfg, 0, Warmup(x, r));
            var p := Passenger(0, x, 0, Times(d, r));
            var p1, p2 := Passenger(1, x, r, Times(d, r)), Passenger(2, x, r, Times(d, r));
            && s.accepted == [p, p1, p2] && EntryCargo(s.written) == [p]
            && s.queue == [] && !s.isSending && s.queueSize == 0 && s.clock == r && s.lastDeparture == Some(r)
            && |s.parked| == 1 && s.parked[0].key == r + Max(d, r)
            && |s.parked[0].trains| == 1 && s.parked[0].trains[0].departure == s.parked[0].key
            && s.parked[0].trains[0].cargo == [p1] && |s.parked[0].trains[0].buffer| == 4
            && s.train == Board(NewTrain(r).(departure := 2 * r), p2)
            && s.timer == Some(2 * r)
  {
    hide Send, Flush, WriteDone, Run, Legal, Unsegmented, EntryCargo;
    var e := DoSend(r, x, NotSplit);
    PreludeState(cfg, x, d, r);
    var s3 := Run(cfg, 0, Prelude(x, r));
    RunStep(cfg, 0, Prelude(x, r), e);
    SendFirst(cfg, s3, r, x);
    var s4 := Next(cfg, s3, e);
    RunStep(cfg, 0, Prelude(x, r) + [e], e);
    SendAgain(cfg, s4, r, x);
  }

  /** With D > R, the third message overtakes the second. */
  lemma OrderIsLost(cfg: Config, x: Message, d: Nanos, r: Nanos)
    requires cfg.times(Identify(x)) == Times(d, r) && d > r && |x| == 4 <= cfg.maxMessageSize && cfg.queueLimit >= 16
    ensures var es := Warmup(x, r) + [DoFlush(2 * r, false)];
            Legal(cfg, 0, es) && Unsegmented(cfg, es) && !InOrder(Run(cfg, 0, es))
  {
    hide Flush, Run, Legal, Unsegmented;
    var s := Run(cfg, 0, Warmup(x, r));
    WarmupState(cfg, x, d, r);
    RunStep(cfg, 0, Warmup(x, r), DoFlush(2 * r, false));
    FlushFirst(s, 2 * r);
    var s' := Flush(s, 2 * r, false);
    EntryCargoConcat(s'.written, s'.queue);
    EntryCargoOne(EntryOf(s.train, 2 * r));
    assert Line(s'.written, s'.queue, s'.parked, s'.train)[1].serial == 2;
  }

  /** Two messages of one method and one of another with a shorter retention time. */
  ghost function Three(cfg: Config, a: Id, b: Id): seq<Event> {
    [] + [DoSend(0, Encode(a), NotSplit)] + [DoSend(0, Encode(a), NotSplit)] + [DoSend(0, Encode(b), NotSplit)]
  }

  lemma ThreeState(cfg: Config, a: Id, b: Id)
    requires cfg.times(b).retention < cfg.times(a).retention && cfg.maxMessageSize >= 4 && cfg.queueLimit >= 16
    ensures Legal(cfg, 0, Three(cfg, a, b)) && Unsegmented(cfg, Three(cfg, a, b))
    ensures var s := Run(cfg, 0, Three(cfg, a, b));
            && s.parked != [] && s.parked[0].key == cfg.times(a).retention > s.train.departure >= s.clock
            && s.train.buffer != [] && s.train.cargo != [] && s.train.cargo[0].serial > 0
            && s.accepted != [] && s.accepted[0].serial == 0
            && s.queue == [] && s.written == [] && !s.isSending
  {
    hide Send, Run, Legal, Unsegmented;
    var x, e1, e3 := Encode(a), DoSend(0, Encode(a), NotSplit), DoSend(0, Encode(b), NotSplit);
    PreludeStart(cfg);
    RunStep(cfg, 0, [], e1);
    SendFirst(cfg, Init(0), 0, x);
    var s1 := Next(cfg, Init(0), e1);
    RunStep(cfg, 0, [] + [e1], e1);
    SendAgain(cfg, s1, 0, x);
    var s2 := Next(cfg, s1, e1);
    RunStep(cfg, 0, [] + [e1] + [e1], e3);
    SendThird(cfg, s2, 0, Encode(b));
  }

  /** The train with the shorter retention time leaves before the one parked first. */
  lemma OrderIsLostByRetention(cfg: Config, a: Id, b: Id)
    requires cfg.times(b).retention < cfg.times(a).retention && cfg.maxMessageSize >= 4 && cfg.queueLimit >= 16
    ensures exists es :: Legal(cfg, 0, es) && Unsegmented(cfg, es) && !InOrder(Run(cfg, 0, es))
  {
    hide Flush, Run, Legal, Unsegmented;
    ThreeState(cfg, a, b);
    var s := Run(cfg, 0, Three(cfg, a, b));
    var now := s.train.departure;
    RunStep(cfg, 0, Three(cfg, a, b), DoFlush(now, false));
    FlushFirst(s, now);
    var s' := Flush(s, now, false);
    EntryCargoOne(EntryOf(s.train, now));
    assert s'.written + s'.queue == [EntryOf(s.train, now)];
    assert Line(s'.written, s'.queue, s'.parked, s'.train)[0] == s.train.cargo[0];
  }

  /**
   First in, first out, exactly. Acceptance order is kept in every run without segmentation if and
   only if no debounce or retention time exceeds any retention time.
   */
  lemma FifoExactly(cfg: Config)
    requires cfg.maxMessageSize >= 4 && cfg.queueLimit >= 16
    ensures EvenTiming(cfg) <==>
            (forall start, es :: Legal(cfg, start, es) && Unsegmented(cfg, es) ==> InOrder(Run(cfg, start, es)))
  {
    hide Run, Legal, Line, WellFormed, Unsegmented;
    if EvenTiming(cfg) {
      forall start, es | Legal(cfg, start, es) && Unsegmented(cfg, es) ensures InOrder(Run(cfg, start, es)) {
        RunFifo(cfg, start, es);
      }
    } else {
      var b, a :| Longest(cfg.times(a)) > cfg.times(b).retention;
      var d, r := cfg.times(a).debounce, cfg.times(a).retention;
      if d > r { OrderIsLost(cfg, Encode(a), d, r); } else { OrderIsLostByRetention(cfg, a, b); }
    }
  }

  ghost predicate Uniform(cfg: Config, d: Nanos, r: Nanos) {
    forall id :: cfg.times(id) == Times(d, r)
  }

  /** With one debounce time D and one retention time R for all messages the condition is D <= R. */
  lemma UniformFifoExactly(cfg: Config, d: Nanos, r: Nanos)
    requires Uniform(cfg, d, r) && cfg.maxMessageSize >= 4 && cfg.queueLimit >= 16
    ensures d <= r <==>
            (forall start, es :: Legal(cfg, start, es) && Unsegmented(cfg, es) ==> InOrder(Run(cfg, start, es)))
  {
    hide Run, Legal, Unsegmented, InOrder;
    FifoExactly(cfg);
    assert cfg.times(Id(0, 0)) == Times(d, r);
    assert EvenTiming(cfg) ==> Longest(cfg.times(Id(0, 0))) <= cfg.times(Id(0, 0)).retention;
  }

  // ------------------------------------------------------------------ the stream of bytes

  function EntryBytes(q: seq<Entry>): seq<Byte> {
    if q == [] then [] else q[0].buffer + EntryBytes(q[1..])
  }

  function TrainBytes(ts: seq<Train>): seq<Byte> {
    if ts == [] then [] else ts[0].buffer + TrainBytes(ts[1..])
  }

  lemma {:induction false} EntryBytesAre(acc: seq<Passenger>, q: seq<Entry>)
    requires EntriesOk(acc, q)
    ensures EntryBytes(q) == Bytes(EntryCargo(q))
  {
    if q != [] {
      EntryBytesAre(acc, q[1..]);
      BytesConcat(q[0].cargo, EntryCargo(q[1..]));
    }
  }

  lemma {:induction false} TrainBytesConcat(a: seq<Train>, b: seq<Train>)
    ensures TrainBytes(a + b) == TrainBytes(a) + TrainBytes(b)
    ensures TrainCargo(a + b) == TrainCargo(a) + TrainCargo(b)
  {
    if a == [] {
      assert a + b == b;
    } else {
      assert (a + b)[1..] == a[1..] + b;
      TrainBytesConcat(a[1..], b);
    }
  }

  lemma {:induction false} TrainBytesAre(ts: seq<Train>)
    requires forall i :: 0 <= i < |ts| ==> ts[i].buffer == Bytes(ts[i].cargo)
    ensures TrainBytes(ts) == Bytes(TrainCargo(ts))
  {
    if ts != [] {
      TrainBytesAre(ts[1..]);
      BytesConcat(ts[0].cargo, TrainCargo(ts[1..]));
    }
  }

  lemma {:induction false} ParkedBytesAre(cfg: Config, acc: seq<Passenger>, seg: bool, b: seq<Bucket>)
    requires BucketsOk(cfg, acc, seg, b)
    ensures TrainBytes(Trains(b)) == Bytes(TrainCargo(Trains(b)))
  {
    if b != [] {
      ParkedBytesAre(cfg, acc, seg, b[1..]);
      TrainBytesAre(b[0].trains);
      TrainBytesConcat(b[0].trains, Trains(b[1..]));
      BytesConcat(TrainCargo(b[0].trains), TrainCargo(Trains(b[1..])));
    }
  }

  /** The bytes on the wire and the bytes still to go are the accepted messages, in order. */
  lemma ByteStream(cfg: Config, start: int, es: seq<Event>)
    requires Legal(cfg, start, es) && Unsegmented(cfg, es) && EvenTiming(cfg)
    ensures var s := Run(cfg, start, es);
            EntryBytes(s.written) + EntryBytes(s.queue) + TrainBytes(Trains(s.parked)) + s.train.buffer == Bytes(s.accepted)
  {
    hide Run, Legal, Bytes, EntryBytes, TrainBytes, EntryCargo, TrainCargo, Trains, BucketsOk, Ids, Distinct, Recorded;
    var s := Run(cfg, start, es);
    RunFifo(cfg, start, es);
    EntryBytesAre(s.accepted, s.written);
    EntryBytesAre(s.accepted, s.queue);
    ParkedBytesAre(cfg, s.accepted, s.segmented, s.parked);
    var w, q, p := EntryCargo(s.written), EntryCargo(s.queue), TrainCargo(Trains(s.parked));
    EntryCargoConcat(s.written, s.queue);
    BytesConcat(w + q, p + s.train.cargo);
    BytesConcat(w, q);
    BytesConcat(p, s.train.cargo);
  }
}
