/** The memory bound: committed bytes never exceed the queue limit by more than segmentation adds. */
module TrainMemory {
  import opened Common
  import opened TrainScheduler
  import opened TrainConservation

  /** The check with wrapping sums decides exactly whether the message still fits. */
  lemma LimitCheckExact(cfg: Config, used: nat, size: nat)
    requires cfg.queueLimit < SIZE_MODULUS && used < SIZE_MODULUS && size < SIZE_MODULUS
    ensures WithinLimit(cfg, used, size) <==> cfg.queueLimit == QUEUE_SIZE_UNLIMITED || used + size <= cfg.queueLimit
  {
    if used + size >= SIZE_MODULUS {
      assert (used + size) % SIZE_MODULUS == used + size - SIZE_MODULUS;
    }
  }

  predicate Bounded(cfg: Config, s: State) {
    Used(s) <= cfg.queueLimit + s.overhead
  }

  lemma SegmentsUse(cfg: Config, s: State, now: int, parts: seq<Message>, sep: nat, size: nat)
    ensures var s' := SendSegments(cfg, s, now, parts, sep, size);
            Used(s') - s'.overhead <= Used(s) - s.overhead + size && s.overhead <= s'.overhead
  {
    if parts != [] {
      hide SegmentPassengers, SegmentEntries, BytesQueued, SegmentTrains, Enqueue, Trains, BytesParked;
      var ps := SegmentPassengers(cfg, |s.accepted|, now, parts);
      SegmentTrainsMove(cfg, s, now, parts[0]);
      SegmentTrainsFrame(cfg, s, now, parts[0]);
      EnqueueFrame(SegmentTrains(cfg, s, now, parts[0]), SegmentEntries(ps, sep), ps, size);
    }
  }

  lemma SendBounded(cfg: Config, s: State, now: int, data: Message, split: Split)
    requires cfg.queueLimit < QUEUE_SIZE_UNLIMITED
    requires 0 <= Used(s) && Bounded(cfg, s) && cfg.queueLimit + s.overhead < SIZE_MODULUS
    ensures Bounded(cfg, Send(cfg, s, now, data, split))
  {
    hide SendSmall, SendSegments, BytesParked, Trains, WithinLimit;
    var s0 := s.(clock := now);
    LimitCheckExact(cfg, Used(s), |data|);
    SendSmallMoves(cfg, s0, now, data);
    SendSmallFrame(cfg, s0, now, data);
    if split.Segments? {
      SegmentsUse(cfg, s0, now, split.parts, split.separation, |data|);
    }
  }

  lemma OverheadGrows(cfg: Config, s: State, e: Event)
    ensures s.overhead <= Next(cfg, s, e).overhead
    ensures e.DoSend? && |e.data| <= cfg.maxMessageSize ==> Next(cfg, s, e).overhead == s.overhead
    ensures !e.DoSend? ==> Next(cfg, s, e).overhead == s.overhead
  {
    hide SendSmall, SendSegments, WithinLimit, PopFirst, NextDeparture;
    match e
    case DoSend(now, data, split) =>
      SendSmallFrame(cfg, s.(clock := now), now, data);
      if split.Segments? { SegmentsUse(cfg, s.(clock := now), now, split.parts, split.separation, |data|); }
    case DoFlush(_, _) =>
    case DoWriteDone(_) =>
  }

  /**
   In every run the committed memory stays within the finite limit plus the bytes that
   segmentation added on top of the messages it split.
   */
  lemma {:induction false} RunBounded(cfg: Config, start: int, es: seq<Event>)
    requires Legal(cfg, start, es) && cfg.queueLimit < QUEUE_SIZE_UNLIMITED
    requires cfg.queueLimit + Run(cfg, start, es).overhead < SIZE_MODULUS
    ensures Bounded(cfg, Run(cfg, start, es))
  {
    if es != [] {
      var n := |es| - 1;
      var s := Run(cfg, start, es[..n]);
      hide Send, Flush, TrainOk, BucketsOk, Sorted, AcceptedOk, BytesParked, Trains;
      OverheadGrows(cfg, s, es[n]);
      RunBounded(cfg, start, es[..n]);
      RunWellFormed(cfg, start, es[..n]);
      match es[n]
      case DoSend(now, data, split) => SendBounded(cfg, s, now, data, split);
      case DoFlush(now, stale) => FlushMoves(cfg, s, now, stale);
      case DoWriteDone(now) =>
    }
  }

  lemma {:induction false} NoOverhead(cfg: Config, start: int, es: seq<Event>)
    requires Unsegmented(cfg, es)
    ensures Run(cfg, start, es).overhead == 0
  {
    if es != [] {
      NoOverhead(cfg, start, es[..|es|-1]);
      OverheadGrows(cfg, Run(cfg, start, es[..|es|-1]), es[|es|-1]);
    }
  }

  /**
   The memory bound. Without segmentation, and with a finite limit, the queued bytes are
   the sum of the queued buffers and together with all trains they never exceed the limit.
   */
  lemma MemoryBound(cfg: Config, start: int, es: seq<Event>)
    requires Legal(cfg, start, es) && Unsegmented(cfg, es) && cfg.queueLimit < QUEUE_SIZE_UNLIMITED
    ensures var s := Run(cfg, start, es);
            && s.queueSize == BytesQueued(s.queue)
            && BytesQueued(s.queue) + |s.train.buffer| + BytesParked(Trains(s.parked)) <= cfg.queueLimit
  {
    NoOverhead(cfg, start, es);
    RunBounded(cfg, start, es);
    RunWellFormed(cfg, start, es);
  }

  // ------------------------------------------------------------------ what the limit counts

  function Sizes(ps: seq<Passenger>): nat {
    if ps == [] then 0 else Sizes(ps[..|ps|-1]) + |ps[|ps|-1].data|
  }

  lemma {:induction false} SizesConcat(a: seq<Passenger>, b: seq<Passenger>)
    ensures Sizes(a + b) == Sizes(a) + Sizes(b)
  {
    if b == [] {
      assert a + b == a;
    } else {
      assert (a + b)[..|a + b| - 1] == a + b[..|b|-1];
      SizesConcat(a, b[..|b|-1]);
    }
  }

  lemma {:induction false} SegmentSizes(ps: seq<Passenger>, sep: nat)
    ensures BytesQueued(SegmentEntries(ps, sep)) == Sizes(ps)
  {
    if ps != [] {
      SegmentSizes(ps[1..], sep);
      assert ps == [ps[0]] + ps[1..];
      SizesConcat([ps[0]], ps[1..]);
      assert Sizes([ps[0]]) == |ps[0].data| by { assert [ps[0]][..0] == []; }
      assert SegmentEntries(ps, sep)[1..] == SegmentEntries(ps[1..], sep);
    }
  }

  /** The bytes counted by the limit are those of the messages accepted and not yet written. */
  predicate Counted(s: State) {
    Used(s) + BytesQueued(s.written) == Sizes(s.accepted)
  }

  lemma SendCounted(cfg: Config, s: State, now: int, data: Message, split: Split)
    requires Counted(s)
    ensures Counted(Send(cfg, s, now, data, split))
  {
    hide SendSmall, BytesParked, Trains, WithinLimit, SegmentPassengers, SegmentEntries, BytesQueued, SegmentTrains, Enqueue, Sizes;
    var s0 := s.(clock := now);
    SendSmallMoves(cfg, s0, now, data);
    SendSmallFrame(cfg, s0, now, data);
    var p := NextPassenger(cfg, s, now, data);
    SizesConcat(s.accepted, [p]);
    OneSize(p);
    if split.Segments? && split.parts != [] {
      var ps := SegmentPassengers(cfg, |s.accepted|, now, split.parts);
      SegmentTrainsMove(cfg, s0, now, split.parts[0]);
      SegmentTrainsFrame(cfg, s0, now, split.parts[0]);
      EnqueueFrame(SegmentTrains(cfg, s0, now, split.parts[0]), SegmentEntries(ps, split.separation), ps, |data|);
      SegmentSizes(ps, split.separation);
      SizesConcat(s.accepted, ps);
    }
  }

  lemma OneSize(p: Passenger)
    ensures Sizes([p]) == |p.data|
  {
    assert [p][..0] == [];
  }

  lemma WriteDoneCounted(s: State, now: int)
    requires Counted(s)
    ensures Counted(WriteDone(s, now))
  {
    hide BytesParked, Trains, Sizes;
    if s.queue != [] {
      EntryLoadConcat(s.written, [s.queue[0]]);
      EntryLoadOne(s.queue[0]);
    }
  }

  lemma FlushKeepsWritten(s: State, now: int, stale: bool)
    ensures Flush(s, now, stale).written == s.written
  {
    hide NextDeparture, PopFirst;
  }

  /** In every run, what the limit check counts are the bytes of all messages accepted and not yet written. */
  lemma {:induction false} RunCounted(cfg: Config, start: int, es: seq<Event>)
    requires Legal(cfg, start, es)
    ensures Counted(Run(cfg, start, es))
  {
    if es != [] {
      var n := |es| - 1;
      RunCounted(cfg, start, es[..n]);
      RunWellFormed(cfg, start, es[..n]);
      StepCounted(cfg, Run(cfg, start, es[..n]), es[n]);
    }
  }

  lemma StepCounted(cfg: Config, s: State, e: Event)
    requires WellFormed(cfg, s) && Counted(s)
    ensures Counted(Next(cfg, s, e))
  {
    hide WellFormed, Send, Flush, WriteDone, Used, BytesQueued, Sizes;
    match e
    case DoSend(now, data, split) =>
      hide Counted;
      SendCounted(cfg, s, now, data, split);
    case DoFlush(now, stale) =>
      FlushMoves(cfg, s, now, stale);
      FlushKeepsWritten(s, now, stale);
    case DoWriteDone(now) =>
      hide Counted;
      WriteDoneCounted(s, now);
  }
}
