/**
 Starvation by segmentation. The train in front of a segment is parked behind an empty train that is
 due within the segment's retention time. Runs in which a parked train is later than that; and with
 even timing no legal run, even one whose timer is not punctual, parks such a train.
 */
module TrainSegmentation {
  import opened Common
  import opened TrainScheduler
  import opened TrainConservation
  import opened TrainFifo
  import opened TrainDeadline
  import opened TrainStarvation
  import opened TrainFeeding

  /** No parked train is later than the current one, or than a message accepted now could be held. */
  ghost predicate EvenKeys(cfg: Config, b: seq<Bucket>, departure: int, clock: int) {
    KeysAtMost(b, departure) && forall id :: KeysAtMost(b, clock + cfg.times(id).retention)
  }

  ghost predicate EvenInv(cfg: Config, s: State) {
    EvenKeys(cfg, s.parked, s.train.departure, s.clock)
  }

  lemma EvenLater(cfg: Config, b: seq<Bucket>, departure: int, clock: int, now: int)
    requires EvenKeys(cfg, b, departure, clock) && clock <= now
    ensures EvenKeys(cfg, b, departure, now)
  {
    forall id ensures KeysAtMost(b, now + cfg.times(id).retention) {
      KeysAtMostMonotone(b, clock + cfg.times(id).retention, now + cfg.times(id).retention);
    }
  }

  /** Parking the current train in favour of a new one with the given retention time. */
  lemma ParkEven(cfg: Config, s: State, t: Train, now: int, id: Id)
    requires WellFormed(cfg, s) && EvenTiming(cfg) && EvenInv(cfg, s) && s.clock <= now
    requires t.cargo == s.train.cargo != [] && t.departure == s.train.departure && t.minDebounce <= s.train.minDebounce
    ensures EvenKeys(cfg, Park(s.parked, Parking(s, t)), now + cfg.times(id).retention, now)
  {
    hide WellFormed, AllWithin, KeysAtMost, Park, Raised, FloorOf;
    EvenLater(cfg, s.parked, s.train.departure, s.clock, now);
    var t' := Parking(s, t);
    forall i ensures KeysAtMost(Park(s.parked, t'), now + cfg.times(i).retention) {
      assert AllWithin(cfg, cfg.times(i).retention);
      ParkedWithin(cfg, s, t, now, cfg.times(i).retention);
      ParkAtMost(s.parked, t', now + cfg.times(i).retention);
    }
  }

  lemma PrepareEven(cfg: Config, s: State, now: int, data: Message)
    requires WellFormed(cfg, s) && EvenTiming(cfg) && EvenInv(cfg, s) && s.clock <= now
    ensures var s1 := PrepareTrain(cfg, s, now, data); EvenKeys(cfg, s1.parked, s1.train.departure, now)
  {
    var id := Identify(data);
    EmptyWhen(cfg, s);
    EvenLater(cfg, s.parked, s.train.departure, s.clock, now);
    if s.train.passengers == {} {
      assert KeysAtMost(s.parked, now + cfg.times(id).retention);
    } else {
      ParkedWithin(cfg, s, s.train, now, cfg.times(id).retention);
      ParkEven(cfg, s, s.train, now, id);
    }
    hide WellFormed, EvenTiming, KeysAtMost, MustDepart, Park;
  }

  lemma SendSmallEven(cfg: Config, s: State, now: int, data: Message)
    requires WellFormed(cfg, s) && EvenTiming(cfg) && EvenInv(cfg, s) && s.clock <= now
    ensures EvenInv(cfg, SendSmall(cfg, s.(clock := now), now, data))
  {
    PrepareEven(cfg, s, now, data);
    PrepareClock(cfg, s, now, data);
    PrepareFrame(cfg, s.(clock := now), now, data);
    hide WellFormed, EvenTiming, EvenKeys, PrepareTrain, NextDeparture;
  }

  lemma SegmentTrainsEven(cfg: Config, s: State, now: int, first: Message)
    requires WellFormed(cfg, s) && EvenTiming(cfg) && EvenInv(cfg, s) && s.clock <= now
    ensures EvenInv(cfg, SegmentTrains(cfg, s.(clock := now), now, first))
  {
    EmptyWhen(cfg, s);
    EvenLater(cfg, s.parked, s.train.departure, s.clock, now);
    var id := Identify(first);
    if s.train.passengers != {} { ParkEven(cfg, s, LowerMinima(s.train, cfg.times(id)), now, id); }
    hide WellFormed, EvenTiming, EvenKeys, Park;
  }

  lemma SendSegmentsEven(cfg: Config, s: State, now: int, parts: seq<Message>, sep: nat, size: nat)
    requires WellFormed(cfg, s) && EvenTiming(cfg) && EvenInv(cfg, s) && s.clock <= now
    ensures EvenInv(cfg, SendSegments(cfg, s.(clock := now), now, parts, sep, size))
  {
    EvenLater(cfg, s.parked, s.train.departure, s.clock, now);
    hide WellFormed, EvenTiming, EvenKeys, SegmentPassengers, SegmentEntries, SegmentTrains, Enqueue;
    if parts != [] {
      SegmentTrainsEven(cfg, s, now, parts[0]);
      var s0 := s.(clock := now);
      var ps := SegmentPassengers(cfg, |s0.accepted|, now, parts);
      EnqueueFrame(SegmentTrains(cfg, s0, now, parts[0]), SegmentEntries(ps, sep), ps, size);
      SegmentTrainsFrame(cfg, s0, now, parts[0]);
    }
  }

  lemma PopEven(cfg: Config, b: seq<Bucket>, departure: int, now: int)
    requires b != [] && EvenKeys(cfg, b, departure, now)
    ensures EvenKeys(cfg, PopFirst(b), departure, now)
  {
    PopFirstAtMost(b, departure);
    forall id ensures KeysAtMost(PopFirst(b), now + cfg.times(id).retention) {
      PopFirstAtMost(b, now + cfg.times(id).retention);
    }
  }

  lemma NoneLeft(cfg: Config, s: State, departure: int, now: int)
    requires KeysAtMost(s.parked, s.train.departure) && !TakesParked(s)
    ensures s.parked == [] && EvenKeys(cfg, s.parked, departure, now)
  {
  }

  lemma FlushEven(cfg: Config, s: State, now: int, stale: bool)
    requires EvenInv(cfg, s) && s.clock <= now
    ensures EvenInv(cfg, Flush(s, now, stale))
  {
    EvenLater(cfg, s.parked, s.train.departure, s.clock, now);
    var s0 := s.(clock := now, timer := if stale then s.timer else None);
    if TakesParked(s) {
      PopEven(cfg, s.parked, s.train.departure, now);
      QueueTrainMoves(s0.(parked := PopFirst(s.parked)), s.parked[0].trains[0], now);
    } else {
      NoneLeft(cfg, s, now + SIX_HOURS, now);
      QueueTrainMoves(s0, s.train, now);
    }
    hide EvenKeys, QueueTrain, PopFirst, NextDeparture;
  }

  lemma StepEven(cfg: Config, s: State, e: Event)
    requires WellFormed(cfg, s) && EvenTiming(cfg) && EvenInv(cfg, s) && Enabled(s, e)
    ensures EvenInv(cfg, Next(cfg, s, e))
  {
    EvenLater(cfg, s.parked, s.train.departure, s.clock, e.now);
    hide WellFormed, EvenTiming, EvenKeys, SendSmall, SendSegments, WithinLimit, Flush;
    match e
    case DoSend(now, data, split) =>
      SendSmallEven(cfg, s, now, data);
      if split.Segments? { SendSegmentsEven(cfg, s, now, split.parts, split.separation, |data|); }
    case DoFlush(now, stale) => FlushEven(cfg, s, now, stale);
    case DoWriteDone(now) =>
  }

  /** With even timing no legal run starves a train, segmented or not. */
  lemma {:induction false} RunEven(cfg: Config, start: int, es: seq<Event>)
    requires Legal(cfg, start, es) && EvenTiming(cfg)
    ensures EvenInv(cfg, Run(cfg, start, es)) && !Starved(Run(cfg, start, es))
  {
    if es != [] {
      var n := |es| - 1;
      hide Next, EvenTiming, WellFormed, EvenKeys;
      RunEven(cfg, start, es[..n]);
      RunWellFormed(cfg, start, es[..n]);
      StepEven(cfg, Run(cfg, start, es[..n]), es[n]);
    }
    EvenNotStarved(cfg, Run(cfg, start, es));
  }

  lemma EvenNotStarved(cfg: Config, s: State)
    requires EvenInv(cfg, s)
    ensures !Starved(s)
  {
  }

  // -------------------------------------------------------------------- when it does happen

  /** An oversized message parks the current train beside the one already parked; the timer stays. */
  lemma SegmentParks(cfg: Config, s: State, now: int, big: Message, parts: seq<Message>, sep: nat)
    requires |s.parked| == 1 && |s.parked[0].trains| == 1 && |s.parked[0].trains[0].buffer| == 4
    requires s.train.passengers != {} && |s.train.buffer| == 4 && s.queueSize == 0 && parts != []
    requires cfg.maxMessageSize < |big| && |big| + 8 <= cfg.queueLimit < SIZE_MODULUS
    ensures var s' := Send(cfg, s, now, big, Segments(parts, sep)); var times := cfg.times(Identify(parts[0]));
            && s'.train.cargo == [] && s'.train.departure == now + times.retention
            && s'.parked == Park(s.parked, Parking(s, LowerMinima(s.train, times)))
            && s'.timer == s.timer && s'.clock == now
  {
    hide SegmentPassengers, SegmentEntries, BytesQueued, Enqueue, Park, Raised, FloorOf;
    var b := s.parked;
    assert b[1..] == [];
    assert Trains(b) == b[0].trains;
    assert b[0].trains[1..] == [];
    assert BytesParked(b[0].trains) == 4;
    assert Used(s) == 8;
    var s0 := s.(clock := now);
    var ps := SegmentPassengers(cfg, |s.accepted|, now, parts);
    EnqueueFrame(SegmentTrains(cfg, s0, now, parts[0]), SegmentEntries(ps, sep), ps, |big|);
    SegmentTrainsFrame(cfg, s0, now, parts[0]);
  }

  /** A message that is too big for a train and fits into the queue together with two small trains. */
  predicate Oversized(cfg: Config, big: Message) {
    4 <= cfg.maxMessageSize < |big| && cfg.queueLimit >= 16 && |big| + 8 <= cfg.queueLimit < SIZE_MODULUS
  }

  /** After the warmup, an oversized message; and unless that has starved a train, one more firing. */
  ghost function Undercut(cfg: Config, a: Id, big: Message, parts: seq<Message>, sep: nat): seq<Event> {
    var r := cfg.times(a).retention;
    var es := Warmup(Encode(a), r) + [DoSend(r, big, Segments(parts, sep))];
    if Starved(Run(cfg, 0, es)) then es else es + [DoFlush(2 * r, false)]
  }

  /** The two keys after the segments, with the smaller one possibly no later than the empty train. */
  lemma TwoParked(b: seq<Bucket>, t: Train, limit: int)
    requires |b| == 1 && |b[0].trains| == 1 && t.departure <= b[0].key && limit < b[0].key
    ensures var c := Park(b, t);
            && c != [] && c[0].key == t.departure
            && (t.departure <= limit ==> PopFirst(c) == b)
  {
    if t.departure < b[0].key { assert ([Bucket(t.departure, [t])] + b)[1..] == b; }
  }

  /**
   Segments of one method starve a train of another whose debounce or retention time exceeds the
   retention time of the segments: they park a train with the minima lowered to their own timings,
   and the train parked before it, with minima as they were, is later than the empty train.
   */
  lemma SegmentsStarve(cfg: Config, a: Id, big: Message, parts: seq<Message>, sep: nat)
    requires Oversized(cfg, big) && parts != [] && Identify(parts[0]) == Identify(big)
    requires cfg.times(Identify(big)).retention < Longest(cfg.times(a))
    ensures var es := Undercut(cfg, a, big, parts, sep); PunctualRun(cfg, 0, es) && Starved(Run(cfg, 0, es))
  {
    hide Run, PunctualRun, Send, Spins, Flush, Park, PopFirst;
    var d, r, x, times := cfg.times(a).debounce, cfg.times(a).retention, Encode(a), cfg.times(Identify(big));
    var e := DoSend(r, big, Segments(parts, sep));
    WarmupState(cfg, x, d, r);
    WarmupPunctual(cfg, x, d, r);
    var s := Run(cfg, 0, Warmup(x, r));
    PunctualStep(cfg, 0, Warmup(x, r), e);
    SegmentParks(cfg, s, r, big, parts, sep);
    TwoParked(s.parked, Parking(s, LowerMinima(s.train, times)), r + times.retention);
    var s1 := Next(cfg, s, e);
    if !Starved(s1) {
      PunctualStep(cfg, 0, Warmup(x, r) + [e], DoFlush(2 * r, false));
      FlushedParked(s1, 2 * r);
    }
  }
}
