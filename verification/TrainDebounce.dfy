/**
 Debouncing. With a punctual timer and no segmentation, no message leaves its train before the
 least debounce time on board has passed since it boarded, exactly when no method's debounce time
 exceeds its own retention time.
 */
module TrainDebounce {
  import opened Common
  import opened TrainScheduler
  import opened TrainConservation
  import opened TrainFifo
  import opened TrainDeadline
  import opened TrainStarvation

  /** The least deadline on board leaves every passenger the least debounce time on board. */
  predicate Spaced(c: seq<Passenger>) {
    forall i :: 0 <= i < |c| ==> c[i].at + MinDebounce(c) <= MinDeadline(c)
  }

  predicate SpacedTrains(ts: seq<Train>) {
    forall i :: 0 <= i < |ts| ==> Spaced(ts[i].cargo)
  }

  predicate SpacedBuckets(b: seq<Bucket>) {
    b != [] ==> SpacedTrains(b[0].trains) && SpacedBuckets(b[1..])
  }

  /** The messages of an entry waited as long as the entry's train promised. */
  predicate Rested(e: Entry) {
    && e.cargo != [] && Spaced(e.cargo) && MinDeadline(e.cargo) <= e.queuedAt
    && (e.floor.Some? ==> e.floor.value <= e.queuedAt)
  }

  predicate AllRested(q: seq<Entry>) {
    forall i :: 0 <= i < |q| ==> Rested(q[i])
  }

  predicate DebounceInv(s: State) {
    && !s.segmented
    && Spaced(s.train.cargo) && SpacedBuckets(s.parked)
    && AllRested(s.queue) && AllRested(s.written)
    && (s.timer.Some? ==> NextDeparture(s) <= s.timer.value)
  }

  ghost predicate OwnTimingFits(cfg: Config) {
    forall id :: cfg.times(id).debounce <= cfg.times(id).retention
  }

  // ------------------------------------------------------------------------------ steps

  lemma BoardSpaced(c: seq<Passenger>, p: Passenger)
    requires forall i :: 0 <= i < |c| ==> c[i].at <= p.at
    requires c == [] ==> p.times.debounce <= p.times.retention
    requires c != [] ==> p.at + p.times.debounce <= MinDeadline(c) && MinDebounce(c) <= p.times.retention
    ensures Spaced(c + [p])
  {
    var c' := c + [p];
    assert c'[..|c|] == c;
    assert MinDebounce(c') == Min(MinDebounce(c), p.times.debounce);
    assert MinDeadline(c') == if c == [] then Deadline(p) else Min(MinDeadline(c), Deadline(p));
    forall i | 0 <= i < |c'| ensures c'[i].at + MinDebounce(c') <= MinDeadline(c') {
      assert c'[i].at <= p.at;
    }
  }

  lemma {:induction false} ParkSpaced(b: seq<Bucket>, t: Train)
    requires SpacedBuckets(b) && Spaced(t.cargo)
    ensures SpacedBuckets(Park(b, t))
  {
    hide Spaced;
    if b != [] && b[0].key < t.departure {
      ParkSpaced(b[1..], t);
      assert Park(b, t)[1..] == Park(b[1..], t);
    } else if b != [] && b[0].key == t.departure {
      assert Park(b, t)[1..] == b[1..];
    } else {
      assert Park(b, t)[1..] == b;
    }
  }

  lemma PopSpaced(b: seq<Bucket>)
    requires b != [] && SpacedBuckets(b)
    ensures SpacedBuckets(PopFirst(b)) && Spaced(b[0].trains[0].cargo)
  {
    hide Spaced;
    var b' := PopFirst(b);
    if |b[0].trains| > 1 { assert b'[1..] == b[1..]; }
  }

  lemma Earlier(cfg: Config, s: State, now: int, i: nat)
    requires WellFormed(cfg, s) && s.clock <= now && i < |s.train.cargo|
    ensures s.train.cargo[i].at <= now
  {
    RecordedAt(s.accepted, s.train.cargo, |s.accepted|, i);
  }

  /** The train that a message boards is spaced with the message on it. */
  lemma PrepareSpaced(cfg: Config, s: State, now: int, data: Message)
    requires WellFormed(cfg, s) && DebounceInv(s) && OwnTimingFits(cfg) && s.clock <= now
    ensures var s1 := PrepareTrain(cfg, s, now, data);
            SpacedBuckets(s1.parked) && Spaced(s1.train.cargo + [NextPassenger(cfg, s, now, data)])
  {
    EmptyWhen(cfg, s);
    var c, p := s.train.cargo, NextPassenger(cfg, s, now, data);
    forall i | 0 <= i < |c| ensures c[i].at <= now { Earlier(cfg, s, now, i); }
    hide BucketsOk, QueueOk, AcceptedOk, Sorted, Spaced, Park, NextDeparture, Bytes, Ids, Distinct, Recorded, SpacedBuckets;
    assert p.times.debounce <= p.times.retention;
    if s.train.passengers != {} && MustDepart(cfg, s.train, now, data) {
      ParkSpaced(s.parked, Scheduled(s));
      BoardSpaced([], p);
    } else {
      BoardSpaced(c, p);
    }
  }

  lemma SendSmallDebounce(cfg: Config, s: State, now: int, data: Message)
    requires WellFormed(cfg, s) && DebounceInv(s) && OwnTimingFits(cfg) && s.clock <= now
    ensures DebounceInv(SendSmall(cfg, s.(clock := now), now, data))
  {
    hide WellFormed, OwnTimingFits, PrepareTrain, Spaced, SpacedBuckets, Rested;
    PrepareSpaced(cfg, s, now, data);
    PrepareClock(cfg, s, now, data);
    PrepareFrame(cfg, s.(clock := now), now, data);
  }

  /** A punctual flush takes a train that is due. */
  lemma DepartingIsDue(cfg: Config, s: State)
    requires WellFormed(cfg, s)
    ensures Departing(s).departure == NextDeparture(s)
  {
    if s.parked != [] { FirstDeparture(cfg, s); }
  }

  lemma DepartingRested(cfg: Config, s: State, now: int)
    requires WellFormed(cfg, s) && DebounceInv(s) && s.timer == Some(now) && Departing(s).buffer != []
    ensures Rested(EntryOf(Departing(s), now))
  {
    DepartingIsDue(cfg, s);
    EmptyWhen(cfg, s);
    if TakesParked(s) {
      PopFirstKeeps(cfg, s.accepted, s.segmented, s.parked);
      PopSpaced(s.parked);
    }
    hide BucketsOk, QueueOk, AcceptedOk, Sorted, Spaced, NextDeparture, Bytes, Ids, Distinct, Recorded, SpacedBuckets, MinDeadline;
  }

  lemma ArmedReady(s: State, now: int)
    ensures NextDeparture(ArmTimer(s, now)) <= ArmTimer(s, now).timer.value
  {
  }

  lemma RestedAppend(q: seq<Entry>, e: Entry)
    requires AllRested(q) && Rested(e)
    ensures AllRested(q + [e])
  {
  }

  lemma FlushDebounce(cfg: Config, s: State, now: int)
    requires WellFormed(cfg, s) && DebounceInv(s) && s.timer == Some(now)
    ensures DebounceInv(Flush(s, now, false))
  {
    FlushQueues(s, now, false);
    FlushedShape(s, now);
    FlushShape(s, now);
    ArmedReady(Flushed(s, now, false), now);
    if s.parked != [] { PopSpaced(s.parked); }
    assert Spaced(NewTrain(now).cargo);
    if Departing(s).buffer != [] {
      DepartingRested(cfg, s, now);
      RestedAppend(s.queue, EntryOf(Departing(s), now));
    }
    hide Flush, Flushed, WellFormed, Spaced, SpacedBuckets, AllRested, PopFirst, NextDeparture, Departing;
  }

  lemma WriteDoneDebounce(s: State, now: int)
    requires DebounceInv(s)
    ensures DebounceInv(WriteDone(s, now))
  {
    hide Spaced, SpacedBuckets, Rested;
  }

  /** A firing that makes no difference queues nothing too early. */
  lemma SpinDebounce(cfg: Config, s: State, now: int)
    requires WellFormed(cfg, s) && DebounceInv(s) && Spins(s) && s.clock <= now
    ensures DebounceInv(Flush(s, now, false))
  {
    SpinsExactly(cfg, s);
    StarvedSpins(cfg, s, now);
    hide WellFormed, Spins, Spaced, SpacedBuckets, AllRested, Flush;
  }

  lemma StepDebounce(cfg: Config, s: State, e: Event)
    requires WellFormed(cfg, s) && DebounceInv(s) && OwnTimingFits(cfg) && Punctual(s, e)
    requires e.DoSend? ==> |e.data| <= cfg.maxMessageSize
    ensures DebounceInv(Next(cfg, s, e))
  {
    hide WellFormed, OwnTimingFits, Spaced, SpacedBuckets, AllRested, SendSmall, WithinLimit, Flush, WriteDone, Spins;
    match e
    case DoSend(now, data, split) => SendSmallDebounce(cfg, s, now, data);
    case DoFlush(now, stale) => if Spins(s) { SpinDebounce(cfg, s, now); } else { FlushDebounce(cfg, s, now); }
    case DoWriteDone(now) => WriteDoneDebounce(s, now);
  }

  lemma {:induction false} RunDebounce(cfg: Config, start: int, es: seq<Event>)
    requires PunctualRun(cfg, start, es) && Unsegmented(cfg, es) && OwnTimingFits(cfg)
    ensures DebounceInv(Run(cfg, start, es))
  {
    if es != [] {
      var n := |es| - 1;
      hide DebounceInv, Next, OwnTimingFits, WellFormed, Punctual;
      RunDebounce(cfg, start, es[..n]);
      PunctualIsLegal(cfg, start, es[..n]);
      RunWellFormed(cfg, start, es[..n]);
      StepDebounce(cfg, Run(cfg, start, es[..n]), es[n]);
    }
  }

  // ----------------------------------------------------------------------- main results

  /** No message of the entry was queued before the least debounce time of the entry had passed. */
  predicate Debounced(e: Entry) {
    forall i :: 0 <= i < |e.cargo| ==> e.cargo[i].at + MinDebounce(e.cargo) <= e.queuedAt
  }

  predicate AllDebounced(s: State) {
    forall k :: 0 <= k < |s.written + s.queue| ==> Debounced((s.written + s.queue)[k])
  }

  /**
   A train that was parked is not queued before the departure floor either: the last completed
   write before it was parked and its own queueing are apart by its least debounce time.
   */
  lemma FloorsAreKept(cfg: Config, start: int, es: seq<Event>, k: nat)
    requires PunctualRun(cfg, start, es) && Unsegmented(cfg, es) && OwnTimingFits(cfg)
    requires var s := Run(cfg, start, es); k < |s.written + s.queue|
    ensures var s := Run(cfg, start, es); var e := (s.written + s.queue)[k];
            Debounced(e) && (e.floor.Some? ==> e.floor.value <= e.queuedAt)
  {
    hide Run, PunctualRun, Unsegmented;
    RunDebounce(cfg, start, es);
    var s := Run(cfg, start, es);
    RestedAt(s.written, s.queue, k);
  }

  lemma RestedAt(written: seq<Entry>, queue: seq<Entry>, k: nat)
    requires AllRested(written) && AllRested(queue) && k < |written + queue|
    ensures var e := (written + queue)[k]; Debounced(e) && (e.floor.Some? ==> e.floor.value <= e.queuedAt)
  {
    hide MinDebounce, MinDeadline;
    var e := (written + queue)[k];
    assert e == if k < |written| then written[k] else queue[k - |written|];
    assert Rested(e);
  }

  /** A single message with a debounce time above its retention time leaves too early. */
  lemma LeavesEarly(cfg: Config, id: Id)
    requires cfg.times(id).debounce > cfg.times(id).retention && cfg.maxMessageSize >= 4 && cfg.queueLimit >= 16
    ensures var es := [] + [DoSend(0, Encode(id), NotSplit)] + [DoFlush(cfg.times(id).retention, false)];
            PunctualRun(cfg, 0, es) && Unsegmented(cfg, es) && !AllDebounced(Run(cfg, 0, es))
  {
    hide Send, Flush, Run, PunctualRun, Unsegmented;
    var r, x := cfg.times(id).retention, Encode(id);
    var e1, e2 := DoSend(0, x, NotSplit), DoFlush(r, false);
    PunctualStart(cfg);
    PreludeStart(cfg);
    PunctualStep(cfg, 0, [], e1);
    SendFirst(cfg, Init(0), 0, x);
    var s1 := Next(cfg, Init(0), e1);
    PunctualStep(cfg, 0, [] + [e1], e2);
    FlushFirst(s1, r);
    var s2 := Run(cfg, 0, [] + [e1] + [e2]);
    var e := (s2.written + s2.queue)[0];
    assert e.cargo[0].at + MinDebounce(e.cargo) > e.queuedAt;
    assert !Debounced(e);
  }

  /**
   Debouncing, exactly. With a punctual timer and no segmentation, every message waits on its
   train for at least the least debounce time on board if and only if no debounce time exceeds
   the retention time of the same method.
   */
  lemma DebouncedExactly(cfg: Config)
    requires cfg.maxMessageSize >= 4 && cfg.queueLimit >= 16
    ensures OwnTimingFits(cfg) <==>
            (forall start, es :: PunctualRun(cfg, start, es) && Unsegmented(cfg, es) ==> AllDebounced(Run(cfg, start, es)))
  {
    hide Run, PunctualRun, Unsegmented;
    if OwnTimingFits(cfg) {
      forall start, es | PunctualRun(cfg, start, es) && Unsegmented(cfg, es) ensures AllDebounced(Run(cfg, start, es)) {
        var s := Run(cfg, start, es);
        forall k | 0 <= k < |s.written + s.queue| ensures Debounced((s.written + s.queue)[k]) {
          FloorsAreKept(cfg, start, es, k);
        }
      }
    } else {
      var id :| cfg.times(id).debounce > cfg.times(id).retention;
      LeavesEarly(cfg, id);
    }
  }

  /** Without segmentation the first of the two debounce checks of `send` is implied by the second. */
  lemma FirstDebounceCheckIsRedundant(cfg: Config, s: State, now: int, data: Message)
    requires WellFormed(cfg, s) && !s.segmented && s.clock <= now && s.train.cargo != []
    requires cfg.times(Identify(data)).debounce > s.train.minRetention
    ensures now + cfg.times(Identify(data)).debounce > s.train.departure
  {
    var c := s.train.cargo;
    MinRetentionIsAttained(c);
    var i :| 0 <= i < |c| && MinRetention(c) == c[i].times.retention;
    MinDeadlineIsLeast(c);
    Earlier(cfg, s, now, i);
    assert MinDeadline(c) <= Deadline(c[i]);
  }

  lemma {:induction false} MinRetentionIsAttained(c: seq<Passenger>)
    requires c != []
    ensures exists i :: 0 <= i < |c| && MinRetention(c) == c[i].times.retention
  {
    var n := |c| - 1;
    var init := c[..n];
    if n > 0 && MinRetention(init) < c[n].times.retention {
      MinRetentionIsAttained(init);
      var i :| 0 <= i < |init| && MinRetention(init) == init[i].times.retention;
      assert MinRetention(c) == c[i].times.retention;
    } else {
      assert MinRetention(c) == c[n].times.retention;
    }
  }
}
