/**
 What a single `send` does, said without its chain of checks: which messages share a train, what is
 refused, how segments are queued; and what the debounce floor of a parked train is measured from.
 */
module TrainBoarding {
  import opened Common
  import opened TrainScheduler
  import opened TrainConservation
  import opened TrainMemory

  // --------------------------------------------------------------------- sharing a train

  /** The message can travel with the passengers, by everybody's timings and within the size. */
  predicate Companions(cfg: Config, c: seq<Passenger>, now: int, data: Message) {
    var times := cfg.times(Identify(data));
    && (forall i :: 0 <= i < |c| ==> Identify(c[i].data) != Identify(data))
    && |Bytes(c)| + |data| <= cfg.maxMessageSize
    && (forall i :: 0 <= i < |c| ==> times.debounce <= c[i].times.retention)
    && (forall i :: 0 <= i < |c| ==> now + times.debounce <= c[i].at + c[i].times.retention)
    && (exists i :: 0 <= i < |c| && c[i].times.debounce <= times.retention)
  }

  /** The same for a train whose minima were lowered by segments while it was empty. */
  predicate CompanionsWithin(cfg: Config, t: Train, now: int, data: Message) {
    var c, times := t.cargo, cfg.times(Identify(data));
    && (forall i :: 0 <= i < |c| ==> Identify(c[i].data) != Identify(data))
    && |Bytes(c)| + |data| <= cfg.maxMessageSize
    && times.debounce <= t.minRetention
    && (forall i :: 0 <= i < |c| ==> now + times.debounce <= c[i].at + c[i].times.retention)
    && t.minDebounce <= times.retention
  }

  lemma {:induction false} IdsAre(c: seq<Passenger>, id: Id)
    ensures id in Ids(c) <==> exists i :: 0 <= i < |c| && Identify(c[i].data) == id
  {
    if c != [] {
      var n := |c| - 1;
      IdsAre(c[..n], id);
      if Identify(c[n].data) != id && id in Ids(c) {
        var i :| 0 <= i < n && Identify(c[..n][i].data) == id;
        assert Identify(c[i].data) == id;
      }
      if i :| 0 <= i < |c| && Identify(c[i].data) == id {
        if i < n { assert c[..n][i] == c[i]; }
      }
    }
  }

  lemma {:induction false} MinRetentionIsLeast(c: seq<Passenger>)
    ensures forall i :: 0 <= i < |c| ==> MinRetention(c) <= c[i].times.retention
    ensures c != [] ==> exists i :: 0 <= i < |c| && MinRetention(c) == c[i].times.retention
  {
    if c != [] {
      var n := |c| - 1;
      var init := c[..n];
      MinRetentionIsLeast(init);
      forall i | 0 <= i < |c| ensures MinRetention(c) <= c[i].times.retention {
        if i < n { assert c[i] == init[i]; }
      }
      if n > 0 && MinRetention(init) < c[n].times.retention {
        var i :| 0 <= i < n && MinRetention(init) == init[i].times.retention;
        assert MinRetention(c) == c[i].times.retention;
      } else {
        assert MinRetention(c) == c[n].times.retention;
      }
    }
  }

  lemma {:induction false} MinDebounceIsLeast(c: seq<Passenger>, i: nat)
    requires i < |c|
    ensures MinDebounce(c) <= c[i].times.debounce
  {
    if i < |c| - 1 { MinDebounceIsLeast(c[..|c|-1], i); }
  }

  /** Without segmentation the train's minima are those of the passengers. */
  lemma MinimaOnBoard(cfg: Config, s: State, now: int, data: Message)
    requires WellFormed(cfg, s) && !s.segmented && s.train.cargo != []
    ensures CompanionsWithin(cfg, s.train, now, data) <==> Companions(cfg, s.train.cargo, now, data)
  {
    hide Bytes, Ids, Distinct, Recorded, BucketsOk, QueueOk, AcceptedOk, Sorted, MinDeadline;
    var c, times := s.train.cargo, cfg.times(Identify(data));
    MinRetentionIsLeast(c);
    MinDebounceIsAttained(c);
    forall i | 0 <= i < |c| ensures MinDebounce(c) <= c[i].times.debounce { MinDebounceIsLeast(c, i); }
    hide MinRetention, MinDebounce;
    assert times.debounce <= MinRetention(c) <==> forall i :: 0 <= i < |c| ==> times.debounce <= c[i].times.retention;
    assert MinDebounce(c) <= times.retention <==> exists i :: 0 <= i < |c| && c[i].times.debounce <= times.retention;
  }

  /** One train more, somewhere among the others. */
  ghost predicate Inserted(before: seq<Train>, after: seq<Train>, t: Train) {
    exists n :: 0 <= n <= |before| && after == before[..n] + [t] + before[n..]
  }

  lemma DepartsOnlyAlone(cfg: Config, s: State, now: int, data: Message)
    requires WellFormed(cfg, s) && s.train.cargo != []
    ensures MustDepart(cfg, s.train, now, data) <==> !CompanionsWithin(cfg, s.train, now, data)
  {
    hide Bytes, Distinct, Recorded, BucketsOk, QueueOk, AcceptedOk, Sorted, MinDebounce, MinRetention;
    var c := s.train.cargo;
    IdsAre(c, Identify(data));
    MinDeadlineIsLeast(c);
    hide Ids, MinDeadline;
  }

  /**
   Who shares a train. A message that is accepted while a train with passengers is waiting boards
   that train exactly if it can travel with all of them, and then nothing else moves; otherwise
   that train is parked, with the departure it had or the debounce floor, and the message boards a
   train of its own.
   */
  lemma BoardsWithin(cfg: Config, s: State, now: int, data: Message, split: Split)
    requires WellFormed(cfg, s) && s.train.cargo != [] && |data| <= cfg.maxMessageSize && WithinLimit(cfg, Used(s), |data|)
    ensures var s' := Send(cfg, s, now, data, split); var p := NextPassenger(cfg, s, now, data);
            && (CompanionsWithin(cfg, s.train, now, data) <==>
                s'.parked == s.parked && s'.train.cargo == s.train.cargo + [p])
            && (!CompanionsWithin(cfg, s.train, now, data) <==>
                s'.train.cargo == [p] && Inserted(Trains(s.parked), Trains(s'.parked), Scheduled(s)))
            && s'.queue == s.queue && s'.written == s.written && s'.accepted == s.accepted + [p]
  {
    DepartsOnlyAlone(cfg, s, now, data);
    EmptyTogether(cfg, s.accepted, s.segmented, s.train);
    hide WellFormed, MustDepart, CompanionsWithin, Used, WithinLimit, Park, Scheduled, NextDeparture, Trains;
    ParkInserts(s.parked, Scheduled(s));
    var n := ParkIndex(s.parked, Scheduled(s));
    assert n <= |Trains(s.parked)|;
    assert |Trains(Park(s.parked, Scheduled(s)))| == |Trains(s.parked)| + 1;
  }

  lemma BoardsExactly(cfg: Config, s: State, now: int, data: Message, split: Split)
    requires WellFormed(cfg, s) && !s.segmented && s.train.cargo != []
    requires |data| <= cfg.maxMessageSize && WithinLimit(cfg, Used(s), |data|)
    ensures var s' := Send(cfg, s, now, data, split); var p := NextPassenger(cfg, s, now, data);
            && (Companions(cfg, s.train.cargo, now, data) <==>
                s'.parked == s.parked && s'.train.cargo == s.train.cargo + [p])
            && (!Companions(cfg, s.train.cargo, now, data) <==> s'.train.cargo == [p])
  {
    hide WellFormed, Companions, CompanionsWithin, Send, WithinLimit, Used, Trains, Scheduled;
    MinimaOnBoard(cfg, s, now, data);
    BoardsWithin(cfg, s, now, data, split);
  }

  /** A message that is accepted while the train is empty boards it, and nothing is parked. */
  lemma BoardsEmpty(cfg: Config, s: State, now: int, data: Message, split: Split)
    requires WellFormed(cfg, s) && s.train.cargo == [] && |data| <= cfg.maxMessageSize && WithinLimit(cfg, Used(s), |data|)
    ensures var s' := Send(cfg, s, now, data, split);
            && s'.parked == s.parked && s'.queue == s.queue && s'.train.cargo == [NextPassenger(cfg, s, now, data)]
            && s'.train.departure == now + cfg.times(Identify(data)).retention
  {
    EmptyTogether(cfg, s.accepted, s.segmented, s.train);
    hide WellFormed, Used, WithinLimit, NextDeparture;
  }

  // --------------------------------------------------------------------------- refusals

  /** A refused message leaves no trace; an accepted one that needs no segments is recorded. */
  lemma SendAnswers(cfg: Config, s: State, now: int, data: Message, split: Split)
    ensures !SendAccepts(cfg, s, data, split) ==> Send(cfg, s, now, data, split) == s.(clock := now)
    ensures SendAccepts(cfg, s, data, split) && |data| <= cfg.maxMessageSize ==>
              Send(cfg, s, now, data, split).accepted == s.accepted + [NextPassenger(cfg, s, now, data)]
  {
    hide WithinLimit, Used, SendSegments, PrepareTrain, NextDeparture;
  }

  /**
   What `send` answers. In every run it accepts a message exactly if that fits into a train or is cut
   into segments, and together with all messages accepted and not yet written stays within the limit.
   */
  lemma AcceptsExactly(cfg: Config, start: int, es: seq<Event>, data: Message, split: Split)
    requires Legal(cfg, start, es) && cfg.queueLimit < SIZE_MODULUS
    requires var s := Run(cfg, start, es); Sizes(s.accepted) - BytesQueued(s.written) < SIZE_MODULUS
    ensures var s := Run(cfg, start, es);
            SendAccepts(cfg, s, data, split) <==>
              && (|data| <= cfg.maxMessageSize || split.Segments?)
              && (cfg.queueLimit == QUEUE_SIZE_UNLIMITED
                  || Sizes(s.accepted) - BytesQueued(s.written) + |data| <= cfg.queueLimit)
  {
    hide Run, Legal, CurrentOk, BucketsOk, Sorted, EntriesOk, AcceptedOk, BytesQueued, Sizes, BytesParked, Trains, WithinLimit;
    var s := Run(cfg, start, es);
    RunCounted(cfg, start, es);
    RunWellFormed(cfg, start, es);
    LimitCheckExact(cfg, Used(s), |data|);
  }

  // --------------------------------------------------------------------------- segments

  /** Segments are queued at once, each in an entry of its own, in order and with the separation time. */
  lemma SegmentsAreQueued(cfg: Config, s: State, now: int, data: Message, parts: seq<Message>, sep: nat)
    requires WithinLimit(cfg, Used(s), |data|) && |data| > cfg.maxMessageSize && parts != []
    ensures var s' := Send(cfg, s, now, data, Segments(parts, sep)); var n, m := |s.queue|, |s.accepted|;
            && |s'.queue| == n + |parts| && |s'.accepted| == m + |parts|
            && s'.queue[..n] == s.queue && s'.accepted[..m] == s.accepted
            && (forall i :: 0 <= i < |parts| ==>
                  && s'.accepted[m + i] == Passenger(m + i, parts[i], now, cfg.times(Identify(parts[i])))
                  && s'.queue[n + i].cargo == [s'.accepted[m + i]]
                  && s'.queue[n + i].buffer == parts[i] && s'.queue[n + i].separation == sep)
            && s'.isSending && s'.timer == s.timer
  {
    hide SegmentPassengers, SegmentEntries, BytesQueued, SegmentTrains, WithinLimit, Used;
    var ps := SegmentPassengers(cfg, |s.accepted|, now, parts);
    SegmentPassengersAre(cfg, |s.accepted|, now, parts);
    SegmentEntriesAre(ps, sep);
    SegmentTrainsFrame(cfg, s.(clock := now), now, parts[0]);
  }

  /**
   The train in front of the segments is parked if it has passengers, and an empty one that is due
   within the segments' retention time follows; otherwise only its minima are lowered.
   */
  lemma SegmentsParkTrain(cfg: Config, s: State, now: int, data: Message, parts: seq<Message>, sep: nat)
    requires WellFormed(cfg, s) && WithinLimit(cfg, Used(s), |data|) && |data| > cfg.maxMessageSize && parts != []
    ensures var s' := Send(cfg, s, now, data, Segments(parts, sep)); var times := cfg.times(Identify(parts[0]));
            var d, r := Min(s.train.minDebounce, times.debounce), Min(s.train.minRetention, times.retention);
            var t := s.train.(minDebounce := d, minRetention := r);
            if s.train.cargo == [] then s'.parked == s.parked && s'.train == t
            else s'.train == NewTrain(now).(departure := now + times.retention)
                 && Inserted(Trains(s.parked), Trains(s'.parked), Scheduled(s.(train := t)))
  {
    EmptyTogether(cfg, s.accepted, s.segmented, s.train);
    var t := LowerMinima(s.train, cfg.times(Identify(parts[0])));
    ParkInserts(s.parked, Scheduled(s.(train := t)));
    hide WellFormed, SegmentPassengers, SegmentEntries, Enqueue, Park, WithinLimit, Used, Trains, Raised, FloorOf;
    var n, s0 := ParkIndex(s.parked, Scheduled(s.(train := t))), s.(clock := now);
    var ps := SegmentPassengers(cfg, |s.accepted|, now, parts);
    EnqueueFrame(SegmentTrains(cfg, s0, now, parts[0]), SegmentEntries(ps, sep), ps, |data|);
    assert n <= |Trains(s.parked)|;
  }

  // ---------------------------------------------------------------- the last departure

  /** When the last write of the run completed. */
  function LastWrite(es: seq<Event>): Option<int> {
    if es == [] then None
    else if es[|es|-1].DoWriteDone? then Some(es[|es|-1].now)
    else LastWrite(es[..|es|-1])
  }

  lemma SendKeepsLast(cfg: Config, s: State, now: int, data: Message, split: Split)
    ensures Send(cfg, s, now, data, split).lastDeparture == s.lastDeparture
  {
    hide SegmentPassengers, SegmentEntries, BytesQueued, Park, WithinLimit, Used, Scheduled, MustDepart, NextDeparture;
  }

  lemma FlushKeepsLast(s: State, now: int, stale: bool)
    ensures Flush(s, now, stale).lastDeparture == s.lastDeparture
  {
    hide NextDeparture, PopFirst;
  }

  /** Debounce floors are measured from the time at which the last write completed. */
  lemma {:induction false} LastDepartureIsLastWrite(cfg: Config, start: int, es: seq<Event>)
    requires Legal(cfg, start, es)
    ensures Run(cfg, start, es).lastDeparture == LastWrite(es)
  {
    if es != [] {
      var n := |es| - 1;
      var s := Run(cfg, start, es[..n]);
      hide Send, Flush, CurrentOk, BucketsOk, Sorted, EntriesOk, AcceptedOk, BytesQueued, Run;
      assert Run(cfg, start, es) == Next(cfg, s, es[n]) by { assert es == es[..n] + [es[n]]; RunStep(cfg, start, es[..n], es[n]); }
      LastDepartureIsLastWrite(cfg, start, es[..n]);
      RunWellFormed(cfg, start, es[..n]);
      match es[n] {
        case DoSend(now, data, split) => SendKeepsLast(cfg, s, now, data, split);
        case DoFlush(now, stale) => FlushKeepsLast(s, now, stale);
        case DoWriteDone(now) =>
      }
    }
  }
}
