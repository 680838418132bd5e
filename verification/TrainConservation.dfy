/**
 What every step of the train scheduler keeps: trains are well formed, the queue size is the
 sum of the queued buffers, and every accepted message is in exactly one place.
 */
module TrainConservation {
  import opened Common
  import opened TrainScheduler

  // ------------------------------------------------- what a train says of its passengers

  function Bytes(c: seq<Passenger>): seq<Byte> {
    if c == [] then [] else Bytes(c[..|c|-1]) + c[|c|-1].data
  }

  function Ids(c: seq<Passenger>): set<Id> {
    if c == [] then {} else Ids(c[..|c|-1]) + {Identify(c[|c|-1].data)}
  }

  predicate Distinct(c: seq<Passenger>) {
    c != [] ==> Distinct(c[..|c|-1]) && Identify(c[|c|-1].data) !in Ids(c[..|c|-1])
  }

  /** The passengers are in the record, in boarding order, and boarded before number `bound`. */
  predicate Recorded(accepted: seq<Passenger>, c: seq<Passenger>, bound: nat)
    decreases |c|
  {
    c != [] ==>
      var p := c[|c|-1];
      p.serial < bound && p.serial < |accepted| && accepted[p.serial] == p && Recorded(accepted, c[..|c|-1], p.serial)
  }

  function Deadline(p: Passenger): int {
    p.at + p.times.retention
  }

  function MinDeadline(c: seq<Passenger>): int
    requires c != []
  {
    if |c| == 1 then Deadline(c[0]) else Min(MinDeadline(c[..|c|-1]), Deadline(c[|c|-1]))
  }

  function MinDebounce(c: seq<Passenger>): Nanos {
    if c == [] then NANOS_MAX else Min(MinDebounce(c[..|c|-1]), c[|c|-1].times.debounce)
  }

  function MinRetention(c: seq<Passenger>): Nanos {
    if c == [] then NANOS_MAX else Min(MinRetention(c[..|c|-1]), c[|c|-1].times.retention)
  }

  predicate TrainOk(cfg: Config, accepted: seq<Passenger>, segmented: bool, t: Train) {
    && t.buffer == Bytes(t.cargo)
    && t.passengers == Ids(t.cargo)
    && Distinct(t.cargo) && Recorded(accepted, t.cargo, |accepted|)
    && |t.buffer| <= cfg.maxMessageSize
    && t.minDebounce <= MinDebounce(t.cargo) && t.minRetention <= MinRetention(t.cargo)
    && (!segmented ==> t.minDebounce == MinDebounce(t.cargo) && t.minRetention == MinRetention(t.cargo))
  }

  predicate CurrentOk(cfg: Config, accepted: seq<Passenger>, segmented: bool, t: Train) {
    && TrainOk(cfg, accepted, segmented, t)
    && t.floor == None
    && (t.cargo != [] ==> t.departure == MinDeadline(t.cargo))
  }

  predicate ParkedTrainOk(cfg: Config, accepted: seq<Passenger>, segmented: bool, t: Train) {
    && TrainOk(cfg, accepted, segmented, t)
    && t.cargo != []
    && t.departure == Raised(MinDeadline(t.cargo), t.floor)
  }

  predicate BucketOk(cfg: Config, accepted: seq<Passenger>, segmented: bool, b: Bucket) {
    forall i :: 0 <= i < |b.trains| ==>
      ParkedTrainOk(cfg, accepted, segmented, b.trains[i]) && b.trains[i].departure == b.key
  }

  /** The keys are strictly ascending. */
  predicate Sorted(b: seq<Bucket>) {
    |b| >= 2 ==> b[0].key < b[1].key && Sorted(b[1..])
  }

  predicate BucketsOk(cfg: Config, accepted: seq<Passenger>, segmented: bool, b: seq<Bucket>) {
    b != [] ==> BucketOk(cfg, accepted, segmented, b[0]) && BucketsOk(cfg, accepted, segmented, b[1..])
  }

  predicate IsSegment(e: Entry) {
    |e.cargo| == 1 && e.queuedAt == e.cargo[0].at && e.floor == None
  }

  predicate EntryOk(accepted: seq<Passenger>, e: Entry) {
    && e.cargo != [] && e.buffer == Bytes(e.cargo) && Recorded(accepted, e.cargo, |accepted|)
    && (IsSegment(e) || e.due == Raised(MinDeadline(e.cargo), e.floor))
  }

  predicate EntriesOk(accepted: seq<Passenger>, q: seq<Entry>) {
    forall i :: 0 <= i < |q| ==> EntryOk(accepted, q[i])
  }

  predicate QueueOk(s: State) {
    && EntriesOk(s.accepted, s.queue) && EntriesOk(s.accepted, s.written)
    && s.queueSize == BytesQueued(s.queue)
    && (s.isSending <==> s.queue != [])
    && s.handed == s.written + (if s.queue == [] then [] else [s.queue[0]])
  }

  predicate AcceptedOk(cfg: Config, accepted: seq<Passenger>, clock: int) {
    forall i :: 0 <= i < |accepted| ==>
      && accepted[i].serial == i
      && accepted[i].at <= clock
      && accepted[i].times == cfg.times(Identify(accepted[i].data))
  }

  predicate WellFormed(cfg: Config, s: State) {
    && CurrentOk(cfg, s.accepted, s.segmented, s.train)
    && Sorted(s.parked) && BucketsOk(cfg, s.accepted, s.segmented, s.parked)
    && QueueOk(s)
    && AcceptedOk(cfg, s.accepted, s.clock)
    && (s.lastDeparture.Some? ==> s.lastDeparture.value <= s.clock)
  }

  // ------------------------------------------------------------------ where messages are

  function EntryLoad(q: seq<Entry>): multiset<Passenger> {
    if q == [] then multiset{} else multiset(q[0].cargo) + EntryLoad(q[1..])
  }

  function TrainLoad(ts: seq<Train>): multiset<Passenger> {
    if ts == [] then multiset{} else multiset(ts[0].cargo) + TrainLoad(ts[1..])
  }

  /** The messages that still wait on a train. */
  function Held(parked: seq<Bucket>, t: Train): multiset<Passenger> {
    TrainLoad(Trains(parked)) + multiset(t.cargo)
  }

  /** The messages that left a train: written or queued. */
  function Left(written: seq<Entry>, queue: seq<Entry>): multiset<Passenger> {
    EntryLoad(written) + EntryLoad(queue)
  }

  /** Every accepted message is in exactly one place. */
  predicate Conserved(s: State) {
    Left(s.written, s.queue) + Held(s.parked, s.train) == multiset(s.accepted)
  }

  // ------------------------------------------------------- the predicates read pointwise

  lemma {:induction false} MinDeadlineIsLeast(c: seq<Passenger>)
    requires c != []
    ensures forall i :: 0 <= i < |c| ==> MinDeadline(c) <= Deadline(c[i])
    ensures exists i :: 0 <= i < |c| && MinDeadline(c) == Deadline(c[i])
  {
    var n := |c| - 1;
    if n == 0 {
      assert MinDeadline(c) == Deadline(c[0]);
    } else {
      var init := c[..n];
      MinDeadlineIsLeast(init);
      var i :| 0 <= i < |init| && MinDeadline(init) == Deadline(init[i]);
      assert MinDeadline(c) == Deadline(c[i]) || MinDeadline(c) == Deadline(c[n]);
      forall j | 0 <= j < |c| ensures MinDeadline(c) <= Deadline(c[j]) {
        if j < n { assert c[j] == init[j]; }
      }
    }
  }

  /** The minimal debounce time is that of some passenger. */
  lemma {:induction false} MinDebounceIsAttained(c: seq<Passenger>)
    requires c != []
    ensures exists i :: 0 <= i < |c| && MinDebounce(c) == c[i].times.debounce
  {
    var n := |c| - 1;
    var init := c[..n];
    if n > 0 && MinDebounce(init) < c[n].times.debounce {
      MinDebounceIsAttained(init);
      var i :| 0 <= i < |init| && MinDebounce(init) == init[i].times.debounce;
      assert MinDebounce(c) == c[i].times.debounce;
    } else {
      assert MinDebounce(c) == c[n].times.debounce;
    }
  }

  /** Passengers on one train are pairwise different messages of pairwise different methods. */
  lemma {:induction false} DistinctPairs(c: seq<Passenger>, i: nat, j: nat)
    requires Distinct(c) && i < j < |c|
    ensures Identify(c[i].data) != Identify(c[j].data)
  {
    var n := |c| - 1;
    if j < n {
      DistinctPairs(c[..n], i, j);
    } else {
      InIds(c[..n], i);
    }
  }

  lemma {:induction false} InIds(c: seq<Passenger>, i: nat)
    requires i < |c|
    ensures Identify(c[i].data) in Ids(c)
  {
    if i < |c| - 1 { InIds(c[..|c|-1], i); }
  }

  lemma {:induction false} RecordedAt(accepted: seq<Passenger>, c: seq<Passenger>, bound: nat, i: nat)
    requires Recorded(accepted, c, bound) && i < |c|
    ensures c[i].serial < bound && c[i].serial < |accepted| && accepted[c[i].serial] == c[i]
    ensures i + 1 < |c| ==> c[i].serial < c[i+1].serial
    decreases |c|
  {
    var n := |c| - 1;
    if i < n {
      RecordedAt(accepted, c[..n], c[n].serial, i);
      if i + 1 < n { assert c[..n][i + 1] == c[i + 1]; }
    }
  }

  lemma {:induction false} BytesConcat(a: seq<Passenger>, b: seq<Passenger>)
    ensures Bytes(a + b) == Bytes(a) + Bytes(b)
  {
    if b == [] {
      assert a + b == a;
    } else {
      assert (a + b)[..|a + b| - 1] == a + b[..|b|-1];
      BytesConcat(a, b[..|b|-1]);
    }
  }

  lemma EmptyTogether(cfg: Config, acc: seq<Passenger>, seg: bool, t: Train)
    requires TrainOk(cfg, acc, seg, t)
    ensures t.cargo == [] <==> t.passengers == {}
    ensures t.cargo == [] <==> t.buffer == []
  {
    if t.cargo != [] {
      assert Identify(t.cargo[|t.cargo|-1].data) in Ids(t.cargo);
    }
  }

  // -------------------------------------------------------------------- flattening laws

  lemma {:induction false} EntryLoadConcat(a: seq<Entry>, b: seq<Entry>)
    ensures EntryLoad(a + b) == EntryLoad(a) + EntryLoad(b)
    ensures BytesQueued(a + b) == BytesQueued(a) + BytesQueued(b)
  {
    if a == [] {
      assert a + b == b;
    } else {
      assert (a + b)[1..] == a[1..] + b;
      EntryLoadConcat(a[1..], b);
    }
  }

  lemma EntryLoadOne(e: Entry)
    ensures EntryLoad([e]) == multiset(e.cargo) && BytesQueued([e]) == |e.buffer|
  {
    assert [e][1..] == [];
  }

  // --------------------------------------------------------------- the ordered map's laws

  /** The number of parked trains that leave before a newly parked `t`. */
  function ParkIndex(b: seq<Bucket>, t: Train): (n: nat)
    ensures n <= |Trains(b)|
  {
    if b == [] || t.departure < b[0].key then 0
    else if t.departure == b[0].key then |b[0].trains|
    else |b[0].trains| + ParkIndex(b[1..], t)
  }

  /** Parking inserts the train at one place and disturbs nothing else. */
  lemma {:induction false} ParkInserts(b: seq<Bucket>, t: Train)
    ensures var n := ParkIndex(b, t); var ts := Trains(b);
            Trains(Park(b, t)) == ts[..n] + [t] + ts[n..]
  {
    if b == [] || t.departure < b[0].key {
    } else if t.departure == b[0].key {
      var n := |b[0].trains|;
      assert Trains(b)[..n] == b[0].trains && Trains(b)[n..] == Trains(b[1..]);
      assert Park(b, t)[1..] == b[1..];
    } else {
      ParkInserts(b[1..], t);
      var n := ParkIndex(b[1..], t);
      assert Park(b, t)[1..] == Park(b[1..], t);
      assert Trains(b)[..|b[0].trains| + n] == b[0].trains + Trains(b[1..])[..n];
      assert Trains(b)[|b[0].trains| + n..] == Trains(b[1..])[n..];
    }
  }

  lemma {:induction false} FirstKeyIsLeast(cfg: Config, acc: seq<Passenger>, seg: bool, b: seq<Bucket>, j: nat)
    requires Sorted(b) && BucketsOk(cfg, acc, seg, b) && j < |Trains(b)|
    ensures b != [] && b[0].key <= Trains(b)[j].departure
    ensures j < |b[0].trains| ==> b[0].key == Trains(b)[j].departure
    decreases |b|
  {
    hide ParkedTrainOk;
    var n := |b[0].trains|;
    if j >= n {
      assert Trains(b)[j] == Trains(b[1..])[j - n];
      FirstKeyIsLeast(cfg, acc, seg, b[1..], j - n);
    } else {
      assert Trains(b)[j] == b[0].trains[j];
    }
  }

  /** The trains in front of a newly parked one are those that do not depart later. */
  lemma {:induction false} ParkIndexSplits(cfg: Config, acc: seq<Passenger>, seg: bool, b: seq<Bucket>, t: Train, j: nat)
    requires Sorted(b) && BucketsOk(cfg, acc, seg, b) && j < |Trains(b)|
    ensures j < ParkIndex(b, t) <==> Trains(b)[j].departure <= t.departure
    decreases |b|
  {
    hide BucketOk;
    FirstKeyIsLeast(cfg, acc, seg, b, j);
    var n := |b[0].trains|;
    if j >= n {
      assert Trains(b)[j] == Trains(b[1..])[j - n];
      FirstKeyIsLeast(cfg, acc, seg, b[1..], j - n);
      ParkIndexSplits(cfg, acc, seg, b[1..], t, j - n);
    }
  }

  lemma {:induction false} InsertMoves(x: seq<Train>, t: Train, y: seq<Train>)
    ensures TrainLoad(x + [t] + y) == TrainLoad(x + y) + multiset(t.cargo)
    ensures BytesParked(x + [t] + y) == BytesParked(x + y) + |t.buffer|
  {
    if x == [] {
      assert x + [t] + y == [t] + y && x + y == y;
      assert ([t] + y)[1..] == y;
    } else {
      assert (x + [t] + y)[1..] == x[1..] + [t] + y && (x + y)[1..] == x[1..] + y;
      InsertMoves(x[1..], t, y);
    }
  }

  lemma {:induction false} ParkMoves(b: seq<Bucket>, t: Train)
    ensures TrainLoad(Trains(Park(b, t))) == TrainLoad(Trains(b)) + multiset(t.cargo)
    ensures BytesParked(Trains(Park(b, t))) == BytesParked(Trains(b)) + |t.buffer|
  {
    ParkInserts(b, t);
    var n, ts := ParkIndex(b, t), Trains(b);
    InsertMoves(ts[..n], t, ts[n..]);
    assert ts == ts[..n] + ts[n..];
  }

  lemma {:induction false} ParkSorted(b: seq<Bucket>, t: Train)
    requires Sorted(b)
    ensures Sorted(Park(b, t))
    ensures Park(b, t) != [] && Park(b, t)[0].key == (if b == [] then t.departure else Min(t.departure, b[0].key))
  {
    if b != [] && b[0].key < t.departure {
      ParkSorted(b[1..], t);
      assert Park(b, t)[1..] == Park(b[1..], t);
    } else if b != [] {
      assert Park(b, t)[1..] == if t.departure == b[0].key then b[1..] else b;
    }
  }

  lemma {:induction false} ParkBuckets(cfg: Config, acc: seq<Passenger>, seg: bool, b: seq<Bucket>, t: Train)
    requires BucketsOk(cfg, acc, seg, b) && ParkedTrainOk(cfg, acc, seg, t)
    ensures BucketsOk(cfg, acc, seg, Park(b, t))
  {
    if b != [] && b[0].key < t.departure {
      ParkBuckets(cfg, acc, seg, b[1..], t);
      assert Park(b, t)[1..] == Park(b[1..], t);
    } else if b != [] && t.departure == b[0].key {
      assert Park(b, t)[1..] == b[1..];
    } else {
      assert Park(b, t)[1..] == b;
    }
  }

  lemma {:induction false} PopFirstLaws(b: seq<Bucket>)
    requires b != []
    ensures Trains(b) == [b[0].trains[0]] + Trains(PopFirst(b))
  {
    var ts, p: seq<Bucket> := b[0].trains, PopFirst(b);
    if |ts| == 1 {
      assert ts == [ts[0]];
    } else {
      assert p[1..] == b[1..];
      assert Trains(p) == ts[1..] + Trains(b[1..]);
    }
  }

  lemma PopFirstKeeps(cfg: Config, acc: seq<Passenger>, seg: bool, b: seq<Bucket>)
    requires b != [] && Sorted(b) && BucketsOk(cfg, acc, seg, b)
    ensures Sorted(PopFirst(b)) && BucketsOk(cfg, acc, seg, PopFirst(b))
    ensures ParkedTrainOk(cfg, acc, seg, b[0].trains[0]) && b[0].trains[0].departure == b[0].key
    ensures PopFirst(b) != [] ==> b[0].key <= PopFirst(b)[0].key
  {
    var p: seq<Bucket> := PopFirst(b);
    if |b[0].trains| > 1 {
      assert p[1..] == b[1..];
    }
  }

  // ---------------------------------------------------------------- frame of the history

  lemma {:induction false} RecordedMonotone(a: seq<Passenger>, more: seq<Passenger>, c: seq<Passenger>, n: nat, m: nat)
    requires Recorded(a, c, n) && n <= m
    ensures Recorded(a + more, c, m)
    decreases |c|
  {
    if c != [] {
      RecordedMonotone(a, more, c[..|c|-1], c[|c|-1].serial, c[|c|-1].serial);
    }
  }

  lemma TrainOkMonotone(cfg: Config, a: seq<Passenger>, more: seq<Passenger>, s1: bool, s2: bool, t: Train)
    requires TrainOk(cfg, a, s1, t) && (s1 ==> s2)
    ensures TrainOk(cfg, a + more, s2, t)
  {
    RecordedMonotone(a, more, t.cargo, |a|, |a + more|);
  }

  lemma {:induction false} BucketsOkMonotone(cfg: Config, a: seq<Passenger>, more: seq<Passenger>, s1: bool, s2: bool, b: seq<Bucket>)
    requires BucketsOk(cfg, a, s1, b) && (s1 ==> s2)
    ensures BucketsOk(cfg, a + more, s2, b)
  {
    if b != [] {
      forall i | 0 <= i < |b[0].trains| ensures ParkedTrainOk(cfg, a + more, s2, b[0].trains[i]) {
        TrainOkMonotone(cfg, a, more, s1, s2, b[0].trains[i]);
      }
      BucketsOkMonotone(cfg, a, more, s1, s2, b[1..]);
    }
  }

  lemma EntriesOkMonotone(a: seq<Passenger>, more: seq<Passenger>, q: seq<Entry>)
    requires EntriesOk(a, q)
    ensures EntriesOk(a + more, q)
  {
    forall i | 0 <= i < |q| ensures EntryOk(a + more, q[i]) {
      RecordedMonotone(a, more, q[i].cargo, |a|, |a + more|);
    }
  }

  // -------------------------------------------------------------------------------- send

  lemma NewTrainOk(cfg: Config, acc: seq<Passenger>, seg: bool, now: int, departure: int)
    ensures CurrentOk(cfg, acc, seg, NewTrain(now).(departure := departure))
  {
  }

  lemma BoardKeeps(cfg: Config, acc: seq<Passenger>, seg: bool, t: Train, p: Passenger)
    requires TrainOk(cfg, acc, seg, t)
    requires p.serial == |acc|
    requires Identify(p.data) !in t.passengers && |t.buffer| + |p.data| <= cfg.maxMessageSize
    ensures TrainOk(cfg, acc + [p], seg, Board(t, p))
  {
    var t' := Board(t, p);
    assert t'.cargo[..|t'.cargo| - 1] == t.cargo;
    RecordedMonotone(acc, [p], t.cargo, |acc|, |acc|);
  }

  lemma ScheduledOk(cfg: Config, s: State)
    requires CurrentOk(cfg, s.accepted, s.segmented, s.train) && s.train.cargo != []
    ensures ParkedTrainOk(cfg, s.accepted, s.segmented, Scheduled(s))
  {
  }

  /** The train that steps 4 to 8 of `send` prepare can take the message. */
  lemma PrepareKeeps(cfg: Config, s: State, now: int, data: Message)
    requires CurrentOk(cfg, s.accepted, s.segmented, s.train)
    requires |data| <= cfg.maxMessageSize
    ensures var t := PrepareTrain(cfg, s, now, data).train;
            && TrainOk(cfg, s.accepted, s.segmented, t) && t.floor == None
            && Identify(data) !in t.passengers && |t.buffer| + |data| <= cfg.maxMessageSize
  {
    EmptyTogether(cfg, s.accepted, s.segmented, s.train);
    NewTrainOk(cfg, s.accepted, s.segmented, now, now);
  }

  lemma PrepareParks(cfg: Config, s: State, now: int, data: Message)
    requires CurrentOk(cfg, s.accepted, s.segmented, s.train)
    requires Sorted(s.parked) && BucketsOk(cfg, s.accepted, s.segmented, s.parked)
    ensures var b := PrepareTrain(cfg, s, now, data).parked;
            Sorted(b) && BucketsOk(cfg, s.accepted, s.segmented, b)
  {
    EmptyTogether(cfg, s.accepted, s.segmented, s.train);
    if s.train.passengers != {} && MustDepart(cfg, s.train, now, data) {
      ScheduledOk(cfg, s);
      ParkSorted(s.parked, Scheduled(s));
      ParkBuckets(cfg, s.accepted, s.segmented, s.parked, Scheduled(s));
    }
  }

  lemma PrepareMoves(cfg: Config, s: State, now: int, data: Message)
    ensures var s1 := PrepareTrain(cfg, s, now, data);
            Held(s1.parked, s1.train) == Held(s.parked, s.train) && PendingTrainSize(s1) == PendingTrainSize(s)
  {
    hide MustDepart, Park, Trains, TrainLoad;
    ParkMoves(s.parked, Scheduled(s));
  }

  /** Boarding leaves the departure at the least deadline on board. */
  lemma BoardDeparture(t: Train, departure: int, p: Passenger)
    requires t.cargo == [] ==> departure == Deadline(p)
    requires t.cargo != [] ==> departure == Min(MinDeadline(t.cargo), Deadline(p))
    ensures MinDeadline(t.cargo + [p]) == departure
  {
    assert (t.cargo + [p])[..|t.cargo|] == t.cargo;
  }

  lemma PrepareDeparture(cfg: Config, s: State, now: int, data: Message)
    requires CurrentOk(cfg, s.accepted, s.segmented, s.train)
    ensures var t := PrepareTrain(cfg, s, now, data).train;
            t.departure == if t.cargo == [] then now + cfg.times(Identify(data)).retention
                           else Min(MinDeadline(t.cargo), now + cfg.times(Identify(data)).retention)
  {
    EmptyTogether(cfg, s.accepted, s.segmented, s.train);
  }

  lemma SendSmallTrains(cfg: Config, s: State, now: int, data: Message)
    requires CurrentOk(cfg, s.accepted, s.segmented, s.train)
    requires Sorted(s.parked) && BucketsOk(cfg, s.accepted, s.segmented, s.parked)
    requires |data| <= cfg.maxMessageSize
    ensures var s' := SendSmall(cfg, s, now, data);
            && CurrentOk(cfg, s'.accepted, s.segmented, s'.train)
            && Sorted(s'.parked) && BucketsOk(cfg, s'.accepted, s.segmented, s'.parked)
  {
    var p := NextPassenger(cfg, s, now, data);
    var s1 := PrepareTrain(cfg, s, now, data);
    PrepareKeeps(cfg, s, now, data);
    PrepareParks(cfg, s, now, data);
    PrepareDeparture(cfg, s, now, data);
    BoardKeeps(cfg, s.accepted, s.segmented, s1.train, p);
    BoardDeparture(s1.train, s1.train.departure, p);
    BucketsOkMonotone(cfg, s.accepted, [p], s.segmented, s.segmented, s1.parked);
  }

  lemma SendSmallMoves(cfg: Config, s: State, now: int, data: Message)
    ensures var s' := SendSmall(cfg, s, now, data);
            && Held(s'.parked, s'.train) == Held(s.parked, s.train) + multiset{NextPassenger(cfg, s, now, data)}
            && Used(s') == Used(s) + |data|
  {
    hide MustDepart, Park, Trains, TrainLoad, BytesParked, Scheduled, PrepareTrain;
    PrepareMoves(cfg, s, now, data);
    PrepareFrame(cfg, s, now, data);
  }

  lemma PrepareFrame(cfg: Config, s: State, now: int, data: Message)
    ensures var s1 := PrepareTrain(cfg, s, now, data); s1 == s.(train := s1.train, parked := s1.parked)
  {
    hide MustDepart, Park, Scheduled;
  }

  /** Accepting messages that are only put on a train keeps the queue and the record. */
  lemma AcceptKeeps(cfg: Config, s: State, s': State, p: Passenger)
    requires QueueOk(s) && AcceptedOk(cfg, s.accepted, s.clock) && s.clock <= s'.clock
    requires p == Passenger(|s.accepted|, p.data, s'.clock, cfg.times(Identify(p.data)))
    requires s'.accepted == s.accepted + [p]
    requires s'.queue == s.queue && s'.written == s.written && s'.handed == s.handed
    requires s'.queueSize == s.queueSize && s'.isSending == s.isSending
    ensures QueueOk(s') && AcceptedOk(cfg, s'.accepted, s'.clock)
  {
    EntriesOkMonotone(s.accepted, [p], s.queue);
    EntriesOkMonotone(s.accepted, [p], s.written);
  }

  lemma SendSmallKeeps(cfg: Config, s: State, now: int, data: Message)
    requires WellFormed(cfg, s) && s.clock <= now && |data| <= cfg.maxMessageSize
    ensures WellFormed(cfg, SendSmall(cfg, s.(clock := now), now, data))
  {
    hide TrainOk, BucketsOk, EntriesOk, Sorted, MustDepart, Park, Board;
    var s0 := s.(clock := now);
    var s' := SendSmall(cfg, s0, now, data);
    SendSmallTrains(cfg, s0, now, data);
    AcceptKeeps(cfg, s, s', NextPassenger(cfg, s0, now, data));
  }

  lemma LaterWellFormed(cfg: Config, s: State, now: int)
    requires WellFormed(cfg, s) && s.clock <= now
    ensures WellFormed(cfg, s.(clock := now))
  {
    hide CurrentOk, BucketsOk, Sorted, EntriesOk, BytesQueued;
  }

  // ---------------------------------------------------------------------------- segments

  lemma {:induction false} SegmentPassengersAre(cfg: Config, first: nat, now: int, parts: seq<Message>)
    ensures var ps := SegmentPassengers(cfg, first, now, parts);
            && |ps| == |parts|
            && forall i :: 0 <= i < |ps| ==>
                 ps[i].serial == first + i && ps[i].at == now && ps[i].times == cfg.times(Identify(ps[i].data))
                 && ps[i].data == parts[i]
    decreases |parts|
  {
    if parts != [] { SegmentPassengersAre(cfg, first + 1, now, parts[1..]); }
  }

  function SegmentEntry(p: Passenger, sep: nat): Entry {
    Entry(p.data, sep, [p], p.at, p.at, None)
  }

  lemma {:induction false} SegmentEntriesAre(ps: seq<Passenger>, sep: nat)
    ensures var es := SegmentEntries(ps, sep);
            |es| == |ps| && forall i :: 0 <= i < |es| ==> es[i] == SegmentEntry(ps[i], sep)
  {
    if ps != [] { SegmentEntriesAre(ps[1..], sep); }
  }

  lemma {:induction false} SegmentEntriesLoad(ps: seq<Passenger>, sep: nat)
    ensures EntryLoad(SegmentEntries(ps, sep)) == multiset(ps)
  {
    if ps != [] {
      SegmentEntriesLoad(ps[1..], sep);
      assert ps == [ps[0]] + ps[1..];
      assert SegmentEntries(ps, sep)[1..] == SegmentEntries(ps[1..], sep);
    }
  }

  lemma SegmentEntryOk(acc: seq<Passenger>, p: Passenger, sep: nat)
    requires p.serial < |acc| && acc[p.serial] == p
    ensures EntryOk(acc, SegmentEntry(p, sep))
  {
    assert [p][..0] == [] && Bytes([]) + p.data == p.data;
  }

  lemma SegmentsOk(acc: seq<Passenger>, ps: seq<Passenger>, sep: nat)
    requires forall i :: 0 <= i < |ps| ==> ps[i].serial == |acc| + i
    ensures EntriesOk(acc + ps, SegmentEntries(ps, sep))
  {
    hide EntryOk, SegmentEntries;
    var es := SegmentEntries(ps, sep);
    SegmentEntriesAre(ps, sep);
    forall i | 0 <= i < |es| ensures EntryOk(acc + ps, es[i]) {
      SegmentEntryOk(acc + ps, ps[i], sep);
    }
  }

  lemma SegmentTrainsKeep(cfg: Config, s: State, now: int, first: Message)
    requires CurrentOk(cfg, s.accepted, s.segmented, s.train)
    requires Sorted(s.parked) && BucketsOk(cfg, s.accepted, s.segmented, s.parked)
    ensures var s' := SegmentTrains(cfg, s, now, first);
            && CurrentOk(cfg, s.accepted, true, s'.train)
            && Sorted(s'.parked) && BucketsOk(cfg, s.accepted, true, s'.parked)
  {
    hide Park;
    var s1 := s.(train := LowerMinima(s.train, cfg.times(Identify(first))), segmented := true);
    assert s.accepted + [] == s.accepted;
    BucketsOkMonotone(cfg, s.accepted, [], s.segmented, true, s.parked);
    assert CurrentOk(cfg, s.accepted, true, s1.train);
    EmptyTogether(cfg, s.accepted, true, s1.train);
    if s1.train.passengers != {} {
      ScheduledOk(cfg, s1);
      ParkSorted(s1.parked, Scheduled(s1));
      ParkBuckets(cfg, s1.accepted, true, s1.parked, Scheduled(s1));
      NewTrainOk(cfg, s.accepted, true, now, now + cfg.times(Identify(first)).retention);
    }
  }

  lemma SegmentTrainsMove(cfg: Config, s: State, now: int, first: Message)
    ensures var s' := SegmentTrains(cfg, s, now, first);
            Held(s'.parked, s'.train) == Held(s.parked, s.train) && PendingTrainSize(s') == PendingTrainSize(s)
  {
    hide Park, Trains, TrainLoad, BytesParked;
    var s1 := s.(train := LowerMinima(s.train, cfg.times(Identify(first))), segmented := true);
    ParkMoves(s1.parked, Scheduled(s1));
  }

  /** Appending sound entries to the queue and kicking the writer keeps the queue sound. */
  lemma EnqueueKeeps(s: State, s1: State, es: seq<Entry>)
    requires QueueOk(s) && es != []
    requires EntriesOk(s1.accepted, s.queue) && EntriesOk(s1.accepted, s.written) && EntriesOk(s1.accepted, es)
    requires s1.queue == s.queue + es && s1.queueSize == s.queueSize + BytesQueued(es)
    requires s1.written == s.written && s1.handed == s.handed && s1.isSending == s.isSending
    ensures QueueOk(Kick(s1))
  {
    hide EntryOk;
    EntryLoadConcat(s.queue, es);
  }

  lemma AcceptedGrows(cfg: Config, acc: seq<Passenger>, clock: int, now: int, ps: seq<Passenger>)
    requires AcceptedOk(cfg, acc, clock) && clock <= now
    requires forall i :: 0 <= i < |ps| ==>
               ps[i].serial == |acc| + i && ps[i].at == now && ps[i].times == cfg.times(Identify(ps[i].data))
    ensures AcceptedOk(cfg, acc + ps, now)
  {
  }

  lemma SegmentQueueKeeps(s: State, s1: State, ps: seq<Passenger>, sep: nat, size: nat)
    requires QueueOk(s) && s1 == s.(train := s1.train, parked := s1.parked, segmented := true) && ps != []
    requires forall i :: 0 <= i < |ps| ==> ps[i].serial == |s.accepted| + i
    ensures QueueOk(Enqueue(s1, SegmentEntries(ps, sep), ps, size))
  {
    hide EntriesOk, SegmentEntries, BytesQueued;
    var es := SegmentEntries(ps, sep);
    SegmentEntriesAre(ps, sep);
    SegmentsOk(s.accepted, ps, sep);
    EntriesOkMonotone(s.accepted, ps, s.queue);
    EntriesOkMonotone(s.accepted, ps, s.written);
    EnqueueKeeps(s, s1.(queue := s.queue + es, queueSize := s.queueSize + BytesQueued(es), accepted := s.accepted + ps,
                        overhead := s.overhead + Max(0, BytesQueued(es) - size)), es);
  }

  lemma EnqueueFrame(s: State, es: seq<Entry>, ps: seq<Passenger>, size: nat)
    ensures var s' := Enqueue(s, es, ps, size);
            s' == s.(queue := s.queue + es, queueSize := s.queueSize + BytesQueued(es), accepted := s.accepted + ps,
                     overhead := s.overhead + Max(0, BytesQueued(es) - size),
                     isSending := s'.isSending, handed := s'.handed)
  {
    hide BytesQueued;
  }

  lemma SendSegmentsKeeps(cfg: Config, s: State, now: int, parts: seq<Message>, sep: nat, size: nat)
    requires WellFormed(cfg, s) && s.clock <= now && parts != []
    ensures WellFormed(cfg, SendSegments(cfg, s.(clock := now), now, parts, sep, size))
  {
    hide TrainOk, BucketsOk, Sorted, SegmentPassengers, SegmentEntries, BytesQueued, QueueOk, AcceptedOk, Enqueue, SegmentTrains;
    var s0 := s.(clock := now);
    var ps := SegmentPassengers(cfg, |s.accepted|, now, parts);
    var s1 := SegmentTrains(cfg, s0, now, parts[0]);
    SegmentPassengersAre(cfg, |s.accepted|, now, parts);
    SegmentTrainsKeep(cfg, s0, now, parts[0]);
    SegmentTrainsFrame(cfg, s0, now, parts[0]);
    TrainOkMonotone(cfg, s.accepted, ps, true, true, s1.train);
    BucketsOkMonotone(cfg, s.accepted, ps, true, true, s1.parked);
    AcceptedGrows(cfg, s.accepted, s.clock, now, ps);
    QueueOkClock(s, now);
    SegmentQueueKeeps(s0, s1, ps, sep, size);
    EnqueueFrame(s1, SegmentEntries(ps, sep), ps, size);
  }

  lemma QueueOkClock(s: State, now: int)
    ensures QueueOk(s.(clock := now)) <==> QueueOk(s)
  {
  }

  lemma SendSegmentsConserves(cfg: Config, s: State, now: int, parts: seq<Message>, sep: nat, size: nat)
    requires Conserved(s)
    ensures Conserved(SendSegments(cfg, s, now, parts, sep, size))
  {
    if parts != [] {
      hide SegmentPassengers, SegmentEntries, BytesQueued, SegmentTrains, EntryLoad, Held, Enqueue;
      var ps := SegmentPassengers(cfg, |s.accepted|, now, parts);
      var s1, es := SegmentTrains(cfg, s, now, parts[0]), SegmentEntries(ps, sep);
      SegmentEntriesLoad(ps, sep);
      SegmentTrainsMove(cfg, s, now, parts[0]);
      SegmentTrainsFrame(cfg, s, now, parts[0]);
      EnqueueFrame(s1, es, ps, size);
      EntryLoadConcat(s.queue, es);
    }
  }

  lemma SegmentTrainsFrame(cfg: Config, s: State, now: int, first: Message)
    ensures var s' := SegmentTrains(cfg, s, now, first);
            s' == s.(train := s'.train, parked := s'.parked, segmented := true)
  {
    hide Park;
  }

  lemma SendConserves(cfg: Config, s: State, now: int, data: Message, split: Split)
    requires Conserved(s)
    ensures Conserved(Send(cfg, s, now, data, split))
  {
    hide SendSegments, SendSmall, Left, Held, WithinLimit;
    var s0 := s.(clock := now);
    if split.Segments? {
      SendSegmentsConserves(cfg, s0, now, split.parts, split.separation, |data|);
    }
    SendSmallMoves(cfg, s0, now, data);
    SendSmallFrame(cfg, s0, now, data);
  }

  lemma SendSmallFrame(cfg: Config, s: State, now: int, data: Message)
    ensures var s' := SendSmall(cfg, s, now, data);
            s' == s.(train := s'.train, parked := s'.parked, timer := s'.timer,
                     accepted := s.accepted + [NextPassenger(cfg, s, now, data)])
  {
    hide Park, MustDepart, Board, NextDeparture;
  }

  // ----------------------------------------------------------------------- flush, write

  /** A train whose members are sound makes a sound entry. */
  lemma QueueTrainKeeps(cfg: Config, s: State, t: Train, now: int)
    requires QueueOk(s) && TrainOk(cfg, s.accepted, s.segmented, t) && t.cargo != []
    requires t.departure == Raised(MinDeadline(t.cargo), t.floor)
    ensures QueueOk(QueueTrain(s, t, now))
  {
    var e := EntryOf(t, now);
    assert EntryOk(s.accepted, e);
    EntryLoadOne(e);
    EnqueueKeeps(s, s.(queue := s.queue + [e], queueSize := s.queueSize + |t.buffer|), [e]);
  }

  lemma QueueTrainMoves(s: State, t: Train, now: int)
    ensures var s' := QueueTrain(s, t, now);
            && Left(s'.written, s'.queue) == Left(s.written, s.queue) + multiset(t.cargo)
            && s' == s.(queue := s'.queue, queueSize := s.queueSize + |t.buffer|, isSending := s'.isSending, handed := s'.handed)
  {
    hide EntryLoad, BytesQueued;
    EntryLoadConcat(s.queue, [EntryOf(t, now)]);
    EntryLoadOne(EntryOf(t, now));
  }

  lemma FlushParkedKeeps(cfg: Config, s: State, now: int)
    requires WellFormed(cfg, s) && s.parked != []
    ensures WellFormed(cfg, FlushParked(s, now))
  {
    hide TrainOk, BucketsOk, Sorted, EntriesOk, BytesQueued, PopFirst, AcceptedOk;
    var t := s.parked[0].trains[0];
    PopFirstKeeps(cfg, s.accepted, s.segmented, s.parked);
    EmptyTogether(cfg, s.accepted, s.segmented, t);
    QueueTrainKeeps(cfg, s.(parked := PopFirst(s.parked)), t, now);
  }

  lemma FlushCurrentKeeps(cfg: Config, s: State, now: int)
    requires WellFormed(cfg, s)
    ensures WellFormed(cfg, FlushCurrent(s, now))
  {
    hide TrainOk, BucketsOk, Sorted, EntriesOk, BytesQueued, AcceptedOk;
    EmptyTogether(cfg, s.accepted, s.segmented, s.train);
    if s.train.buffer != [] {
      NewTrainOk(cfg, s.accepted, s.segmented, now, now + SIX_HOURS);
      QueueTrainKeeps(cfg, s, s.train, now);
    }
  }

  lemma FlushKeeps(cfg: Config, s: State, now: int, stale: bool)
    requires WellFormed(cfg, s) && s.clock <= now
    ensures WellFormed(cfg, Flush(s, now, stale))
  {
    hide CurrentOk, BucketsOk, Sorted, EntriesOk, BytesQueued, NextDeparture, FlushParked, FlushCurrent;
    var s0 := s.(clock := now, timer := if stale then s.timer else None);
    assert WellFormed(cfg, s0);
    if TakesParked(s) { FlushParkedKeeps(cfg, s0, now); } else { FlushCurrentKeeps(cfg, s0, now); }
  }

  lemma PopFirstMoves(b: seq<Bucket>)
    requires b != []
    ensures TrainLoad(Trains(b)) == TrainLoad(Trains(PopFirst(b))) + multiset(b[0].trains[0].cargo)
    ensures BytesParked(Trains(b)) == BytesParked(Trains(PopFirst(b))) + |b[0].trains[0].buffer|
  {
    PopFirstLaws(b);
    hide Trains, PopFirst;
    assert Trains(b)[1..] == Trains(PopFirst(b));
  }

  lemma FlushParkedMoves(s: State, now: int)
    requires s.parked != [] && (s.parked[0].trains[0].buffer == [] ==> s.parked[0].trains[0].cargo == [])
    ensures var s' := FlushParked(s, now);
            && Left(s'.written, s'.queue) + Held(s'.parked, s'.train) == Left(s.written, s.queue) + Held(s.parked, s.train)
            && Used(s') == Used(s)
            && s'.accepted == s.accepted
  {
    hide Left, PopFirst, QueueTrain, TrainLoad, BytesParked, Trains;
    var t, s1 := s.parked[0].trains[0], s.(parked := PopFirst(s.parked));
    PopFirstMoves(s.parked);
    QueueTrainMoves(s1, t, now);
  }

  lemma FlushCurrentMoves(s: State, now: int)
    requires s.train.buffer == [] ==> s.train.cargo == []
    ensures var s' := FlushCurrent(s, now);
            && Left(s'.written, s'.queue) + Held(s'.parked, s'.train) == Left(s.written, s.queue) + Held(s.parked, s.train)
            && Used(s') == Used(s)
            && s'.accepted == s.accepted
  {
    hide Left, QueueTrain, TrainLoad, BytesParked, Trains;
    QueueTrainMoves(s, s.train, now);
  }

  /** `flush` loses nothing, creates nothing, and does not change the committed memory. */
  lemma FlushMoves(cfg: Config, s: State, now: int, stale: bool)
    requires WellFormed(cfg, s)
    ensures var s' := Flush(s, now, stale);
            && Left(s'.written, s'.queue) + Held(s'.parked, s'.train) == Left(s.written, s.queue) + Held(s.parked, s.train)
            && Used(s') == Used(s)
            && s'.accepted == s.accepted
  {
    hide TrainOk, BucketsOk, Sorted, QueueOk, AcceptedOk, NextDeparture, Left, Held, FlushParked, FlushCurrent, BytesParked, Trains;
    var s0 := s.(clock := now, timer := if stale then s.timer else None);
    if TakesParked(s) {
      PopFirstKeeps(cfg, s.accepted, s.segmented, s.parked);
      EmptyTogether(cfg, s.accepted, s.segmented, s.parked[0].trains[0]);
      FlushParkedMoves(s0, now);
    } else {
      EmptyTogether(cfg, s.accepted, s.segmented, s.train);
      FlushCurrentMoves(s0, now);
    }
  }

  lemma WriteDoneKeeps(cfg: Config, s: State, now: int)
    requires WellFormed(cfg, s) && s.clock <= now
    ensures WellFormed(cfg, WriteDone(s, now))
  {
    hide TrainOk, BucketsOk, Sorted, EntryOk;
    if s.queue != [] {
      var s' := WriteDone(s, now);
      assert s'.written == s.written + [s.queue[0]];
      assert s.handed == s'.written;
      forall i | 0 <= i < |s'.queue| ensures EntryOk(s.accepted, s'.queue[i]) { assert s'.queue[i] == s.queue[i + 1]; }
    }
  }

  lemma WriteDoneConserves(s: State, now: int)
    requires Conserved(s)
    ensures Conserved(WriteDone(s, now))
  {
    hide Held;
    if s.queue != [] {
      EntryLoadConcat(s.written, [s.queue[0]]);
      EntryLoadOne(s.queue[0]);
    }
  }

  // --------------------------------------------------------------------------- all runs

  lemma StepKeeps(cfg: Config, s: State, e: Event)
    requires WellFormed(cfg, s) && Enabled(s, e)
    ensures WellFormed(cfg, Next(cfg, s, e))
  {
    hide TrainOk, BucketsOk, Sorted, EntriesOk, SendSmall, SendSegments, WithinLimit;
    match e
    case DoSend(now, data, split) =>
      if |data| <= cfg.maxMessageSize { SendSmallKeeps(cfg, s, now, data); }
      else if split.Segments? && split.parts != [] {
        SendSegmentsKeeps(cfg, s, now, split.parts, split.separation, |data|);
      }
      SendSegmentsNothing(cfg, s, now, split);
    case DoFlush(now, stale) => FlushKeeps(cfg, s, now, stale);
    case DoWriteDone(now) => WriteDoneKeeps(cfg, s, now);
  }

  lemma SendSegmentsNothing(cfg: Config, s: State, now: int, split: Split)
    ensures split.Segments? && split.parts == [] ==>
              forall n: nat :: SendSegments(cfg, s.(clock := now), now, split.parts, split.separation, n) == s.(clock := now)
  {
  }

  lemma InitWellFormed(cfg: Config, now: int)
    ensures WellFormed(cfg, Init(now))
  {
    NewTrainOk(cfg, [], false, now, now + SIX_HOURS);
    assert QueueOk(Init(now));
  }

  /** In every run, trains and queue are well formed. */
  lemma {:induction false} RunWellFormed(cfg: Config, start: int, es: seq<Event>)
    requires Legal(cfg, start, es)
    ensures WellFormed(cfg, Run(cfg, start, es))
  {
    if es == [] {
      InitWellFormed(cfg, start);
    } else {
      var n := |es| - 1;
      RunWellFormed(cfg, start, es[..n]);
      StepKeeps(cfg, Run(cfg, start, es[..n]), es[n]);
    }
  }

  /** In every run, every accepted message is in exactly one place. */
  lemma {:induction false} RunConserved(cfg: Config, start: int, es: seq<Event>)
    requires Legal(cfg, start, es)
    ensures Conserved(Run(cfg, start, es))
  {
    hide Send, Flush, WriteDone;
    if es == [] {
      assert Conserved(Init(start));
    } else {
      var n := |es| - 1;
      var s := Run(cfg, start, es[..n]);
      RunConserved(cfg, start, es[..n]);
      RunWellFormed(cfg, start, es[..n]);
      match es[n]
      case DoSend(now, data, split) => SendConserves(cfg, s, now, data, split);
      case DoFlush(now, stale) => FlushMoves(cfg, s, now, stale);
      case DoWriteDone(now) => WriteDoneConserves(s, now);
    }
  }

  lemma {:induction false} UniqueMultiplicity(acc: seq<Passenger>, first: nat, i: nat)
    requires forall j :: 0 <= j < |acc| ==> acc[j].serial == first + j
    requires i < |acc|
    ensures multiset(acc)[acc[i]] == 1
    decreases |acc|
  {
    var p, rest := acc[0], acc[1..];
    assert acc == [p] + rest;
    assert multiset(acc) == multiset{p} + multiset(rest);
    if i == 0 {
      assert p !in rest;
    } else {
      UniqueMultiplicity(rest, first + 1, i - 1);
    }
  }

  /**
   Conservation. In every run the i-th accepted message is, exactly once, in one of: a written
   entry, a queued entry, a parked train, the current train.
   */
  lemma ExactlyOnePlace(cfg: Config, start: int, es: seq<Event>, i: nat)
    requires Legal(cfg, start, es) && i < |Run(cfg, start, es).accepted|
    ensures var s := Run(cfg, start, es); var p := s.accepted[i];
            EntryLoad(s.written)[p] + EntryLoad(s.queue)[p] + TrainLoad(Trains(s.parked))[p] + multiset(s.train.cargo)[p] == 1
  {
    hide Run, Legal, Trains, EntryLoad, TrainLoad, CurrentOk, BucketsOk, QueueOk;
    var s := Run(cfg, start, es);
    RunConserved(cfg, start, es);
    RunWellFormed(cfg, start, es);
    UniqueMultiplicity(s.accepted, 0, i);
    assert multiset(s.accepted)[s.accepted[i]]
        == EntryLoad(s.written)[s.accepted[i]] + EntryLoad(s.queue)[s.accepted[i]]
           + TrainLoad(Trains(s.parked))[s.accepted[i]] + multiset(s.train.cargo)[s.accepted[i]];
  }
}
