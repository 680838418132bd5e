/**
 The nPDU "train" scheduler of a client endpoint, as a state machine on values.

 Messages board the current train; a train that cannot take the next message is
 parked in a time-ordered map; a dispatch timer moves one train at a time to the
 output queue; a completed write pops the queue.

 Fields below a "history" comment are not part of the program's state: they record
 where every message came from so that the properties can be stated.
 */
module TrainScheduler {
  import opened Common

  /** `std::chrono::nanoseconds::max()` */
  const NANOS_MAX: nat := 0x7FFF_FFFF_FFFF_FFFF

  /** The departure offset of a train without passengers. */
  const SIX_HOURS: nat := 6 * 60 * 60 * 1_000_000_000

  type Nanos = x: int | 0 <= x <= NANOS_MAX

  datatype Id = Id(service: Word, function_: Word)

  datatype Times = Times(debounce: Nanos, retention: Nanos)

  datatype Config = Config(maxMessageSize: nat, queueLimit: nat, times: Id -> Times)

  /** A SOME/IP message: long enough to hold its identifiers, its size a 32-bit number. */
  type Message = d: seq<Byte> | 4 <= |d| < 0x1_0000_0000 witness [0, 0, 0, 0]

  function Identify(data: Message): Id {
    var hi: int, lo: int, hi2: int, lo2: int := data[0], data[1], data[2], data[3];
    Id(0x100 * hi + lo, 0x100 * hi2 + lo2)
  }

  /** History: an accepted message, its acceptance number, boarding time and timings. */
  datatype Passenger = Passenger(serial: nat, data: Message, at: int, times: Times)

  datatype Train = Train(
    buffer: seq<Byte>,
    passengers: set<Id>,
    minDebounce: Nanos,
    minRetention: Nanos,
    departure: int,
    // history: who is on board, and the debounce floor applied when the train was parked
    cargo: seq<Passenger>,
    floor: Option<int>)

  function NewTrain(now: int): Train {
    Train([], {}, NANOS_MAX, NANOS_MAX, now + SIX_HOURS, [], None)
  }

  datatype BucketRaw = Bucket(key: int, trains: seq<Train>)

  /** One element of the ordered map of parked trains; the list of a key is never empty. */
  type Bucket = b: BucketRaw | b.trains != [] witness Bucket(0, [NewTrain(0)])

  datatype Entry = Entry(
    buffer: seq<Byte>,
    separation: nat,
    // history: the messages inside, when they were queued, and the departure they were held to
    cargo: seq<Passenger>,
    queuedAt: int,
    due: int,
    floor: Option<int>)

  datatype State = State(
    train: Train,
    parked: seq<Bucket>,
    queue: seq<Entry>,
    queueSize: int,
    isSending: bool,
    lastDeparture: Option<int>,
    timer: Option<int>,
    // history
    clock: int,
    accepted: seq<Passenger>,
    handed: seq<Entry>,
    written: seq<Entry>,
    segmented: bool,
    overhead: nat)

  function Init(now: int): State {
    State(NewTrain(now), [], [], 0, false, None, None, now, [], [], [], false, 0)
  }

  // ---------------------------------------------------------------- the ordered map

  /** `dispatched_trains_[t.departure_].push_back(t)` on the entries in key order. */
  function Park(b: seq<Bucket>, t: Train): seq<Bucket> {
    if b == [] || t.departure < b[0].key then
      [Bucket(t.departure, [t])] + b
    else if t.departure == b[0].key then
      [Bucket(b[0].key, b[0].trains + [t])] + b[1..]
    else
      [b[0]] + Park(b[1..], t)
  }

  /** Removes the front train of the first entry, and the entry if it became empty. */
  function PopFirst(b: seq<Bucket>): seq<Bucket>
    requires b != []
  {
    if |b[0].trains| == 1 then b[1..] else [Bucket(b[0].key, b[0].trains[1..])] + b[1..]
  }

  /** All parked trains in the order in which the map holds them. */
  function Trains(b: seq<Bucket>): seq<Train> {
    if b == [] then [] else b[0].trains + Trains(b[1..])
  }

  // ------------------------------------------------------------------- memory limit

  function BytesParked(ts: seq<Train>): nat {
    if ts == [] then 0 else |ts[0].buffer| + BytesParked(ts[1..])
  }

  function BytesQueued(q: seq<Entry>): nat {
    if q == [] then 0 else |q[0].buffer| + BytesQueued(q[1..])
  }

  function PendingTrainSize(s: State): nat {
    |s.train.buffer| + BytesParked(Trains(s.parked))
  }

  function Used(s: State): int {
    s.queueSize + PendingTrainSize(s)
  }

  /** The limit check, with the sums taken in `size_t`. */
  predicate WithinLimit(cfg: Config, used: int, size: nat) {
    var total := (used + size) % SIZE_MODULUS;
    !(cfg.queueLimit != QUEUE_SIZE_UNLIMITED && (total > cfg.queueLimit || total < size))
  }

  // --------------------------------------------------------------------- operations

  predicate MustDepart(cfg: Config, t: Train, now: int, data: Message) {
    var times := cfg.times(Identify(data));
    || Identify(data) in t.passengers
    || |t.buffer| + |data| > cfg.maxMessageSize
    || times.debounce > t.minRetention
    || now + times.debounce > t.departure
    || times.retention < t.minDebounce
  }

  function LowerMinima(t: Train, times: Times): Train {
    t.(minDebounce := Min(t.minDebounce, times.debounce), minRetention := Min(t.minRetention, times.retention))
  }

  function Board(t: Train, p: Passenger): Train {
    LowerMinima(t, p.times).(
      buffer := t.buffer + p.data,
      passengers := t.passengers + {Identify(p.data)},
      cargo := t.cargo + [p])
  }

  /** The departure floor that the last completed write imposes on a train. */
  function FloorOf(last: Option<int>, t: Train): Option<int> {
    if last.Some? then Some(last.value + t.minDebounce) else None
  }

  function Raised(departure: int, floor: Option<int>): int {
    if floor.Some? && floor.value > departure then floor.value else departure
  }

  /** The current train as `schedule_train` parks it. */
  function Scheduled(s: State): Train {
    var floor := FloorOf(s.lastDeparture, s.train);
    s.train.(departure := Raised(s.train.departure, floor), floor := floor)
  }

  function ScheduleTrain(s: State): State {
    s.(parked := Park(s.parked, Scheduled(s)))
  }

  function NextDeparture(s: State): int {
    if s.parked != [] && s.parked[0].key < s.train.departure then
      s.parked[0].trains[0].departure
    else
      s.train.departure
  }

  function ArmTimer(s: State, now: int): State {
    s.(timer := Some(Max(NextDeparture(s), now)))
  }

  /** Steps 4 to 8 of `send`: the train that the message will board. */
  function PrepareTrain(cfg: Config, s: State, now: int, data: Message): State {
    var latest := now + cfg.times(Identify(data)).retention;
    if s.train.passengers == {} then
      s.(train := s.train.(departure := latest))
    else if MustDepart(cfg, s.train, now, data) then
      ScheduleTrain(s).(train := NewTrain(now).(departure := latest))
    else
      s.(train := s.train.(departure := Min(s.train.departure, latest)))
  }

  function NextPassenger(cfg: Config, s: State, now: int, data: Message): Passenger {
    Passenger(|s.accepted|, data, now, cfg.times(Identify(data)))
  }

  function SendSmall(cfg: Config, s: State, now: int, data: Message): State {
    var p := NextPassenger(cfg, s, now, data);
    var s1 := PrepareTrain(cfg, s, now, data);
    ArmTimer(s1.(train := Board(s1.train, p), accepted := s.accepted + [p]), now)
  }

  /** How the unseen SOME/IP-TP code treats an oversized message. */
  datatype Split = NotSplit | Segments(parts: seq<Message>, separation: nat)

  function SegmentPassengers(cfg: Config, first: nat, now: int, parts: seq<Message>): seq<Passenger>
    decreases |parts|
  {
    if parts == [] then []
    else [Passenger(first, parts[0], now, cfg.times(Identify(parts[0])))]
         + SegmentPassengers(cfg, first + 1, now, parts[1..])
  }

  function SegmentEntries(ps: seq<Passenger>, separation: nat): seq<Entry> {
    if ps == [] then []
    else [Entry(ps[0].data, separation, [ps[0]], ps[0].at, ps[0].at, None)] + SegmentEntries(ps[1..], separation)
  }

  /** Starts a write of the front entry unless one is in progress. */
  function Kick(s: State): State {
    if !s.isSending && s.queue != [] then
      s.(isSending := true, handed := s.handed + [s.queue[0]])
    else
      s
  }

  /** The trains after `send_segments`: the current one is parked if it has passengers. */
  function SegmentTrains(cfg: Config, s: State, now: int, first: Message): State {
    var times := cfg.times(Identify(first));
    var s1 := s.(train := LowerMinima(s.train, times), segmented := true);
    if s1.train.passengers == {} then s1
    else ScheduleTrain(s1).(train := NewTrain(now).(departure := now + times.retention))
  }

  /** Appends entries for newly accepted messages and starts writing. */
  function Enqueue(s: State, es: seq<Entry>, ps: seq<Passenger>, size: nat): State {
    var bytes := BytesQueued(es);
    Kick(s.(queue := s.queue + es,
            queueSize := s.queueSize + bytes,
            accepted := s.accepted + ps,
            overhead := s.overhead + Max(0, bytes - size)))
  }

  function SendSegments(cfg: Config, s: State, now: int, parts: seq<Message>, separation: nat, size: nat): State {
    if parts == [] then s
    else
      var ps := SegmentPassengers(cfg, |s.accepted|, now, parts);
      Enqueue(SegmentTrains(cfg, s, now, parts[0]), SegmentEntries(ps, separation), ps, size)
  }

  /** `send`: `split` is what the segmentation code makes of an oversized message. */
  function Send(cfg: Config, s: State, now: int, data: Message, split: Split): State {
    var s0 := s.(clock := now);
    if !WithinLimit(cfg, Used(s), |data|) then s0
    else if |data| > cfg.maxMessageSize then
      if split.Segments? then SendSegments(cfg, s0, now, split.parts, split.separation, |data|) else s0
    else
      SendSmall(cfg, s0, now, data)
  }

  /** The value that `send` returns. */
  predicate SendAccepts(cfg: Config, s: State, data: Message, split: Split) {
    WithinLimit(cfg, Used(s), |data|) && (|data| <= cfg.maxMessageSize || split.Segments?)
  }

  function EntryOf(t: Train, now: int): Entry {
    Entry(t.buffer, 0, t.cargo, now, t.departure, t.floor)
  }

  function QueueTrain(s: State, t: Train, now: int): State {
    Kick(s.(queue := s.queue + [EntryOf(t, now)], queueSize := s.queueSize + |t.buffer|))
  }

  predicate TakesParked(s: State) {
    s.parked != [] && s.parked[0].key <= s.train.departure
  }

  function FlushParked(s: State, now: int): State
    requires s.parked != []
  {
    var t, s1 := s.parked[0].trains[0], s.(parked := PopFirst(s.parked));
    if t.buffer == [] then s1 else QueueTrain(s1, t, now)
  }

  function FlushCurrent(s: State, now: int): State {
    if s.train.buffer == [] then s else QueueTrain(s, s.train, now).(train := NewTrain(now))
  }

  /**
   `flush`. A stale call is one made by a timer handler that was already queued when the
   timer was armed again: it leaves the newly armed timer alone.
   */
  function Flush(s: State, now: int, stale: bool): State {
    var s0 := s.(clock := now, timer := if stale then s.timer else None);
    var s1 := if TakesParked(s) then FlushParked(s0, now) else FlushCurrent(s0, now);
    if TakesParked(s) || s1.parked != [] then ArmTimer(s1, now) else s1
  }

  /** `send_cbk` after a successful write. */
  function WriteDone(s: State, now: int): State {
    var s0 := s.(clock := now);
    if s.queue == [] then s0
    else
      var rest := s.queue[1..];
      s0.(queue := rest,
          queueSize := s.queueSize - |s.queue[0].buffer|,
          lastDeparture := Some(now),
          isSending := rest != [],
          handed := if rest == [] then s.handed else s.handed + [rest[0]],
          written := s.written + [s.queue[0]])
  }

  // --------------------------------------------------------------------------- runs

  datatype Event =
    | DoSend(now: int, data: Message, split: Split)
    | DoFlush(now: int, stale: bool)
    | DoWriteDone(now: int)

  function Next(cfg: Config, s: State, e: Event): State {
    match e
    case DoSend(now, data, split) => Send(cfg, s, now, data, split)
    case DoFlush(now, stale) => Flush(s, now, stale)
    case DoWriteDone(now) => WriteDone(s, now)
  }

  /** The clock never goes back, and only a write in progress completes. */
  predicate Enabled(s: State, e: Event) {
    e.now >= s.clock && (e.DoWriteDone? ==> s.isSending)
  }

  function Run(cfg: Config, start: int, es: seq<Event>): State {
    if es == [] then Init(start) else Next(cfg, Run(cfg, start, es[..|es|-1]), es[|es|-1])
  }

  ghost predicate Legal(cfg: Config, start: int, es: seq<Event>) {
    es != [] ==> Legal(cfg, start, es[..|es|-1]) && Enabled(Run(cfg, start, es[..|es|-1]), es[|es|-1])
  }

  /** Every message of the run fits into a train. */
  predicate Unsegmented(cfg: Config, es: seq<Event>) {
    forall i :: 0 <= i < |es| && es[i].DoSend? ==> |es[i].data| <= cfg.maxMessageSize
  }

  lemma RunStep(cfg: Config, start: int, es: seq<Event>, e: Event)
    ensures Run(cfg, start, es + [e]) == Next(cfg, Run(cfg, start, es), e)
    ensures Legal(cfg, start, es + [e]) <==> Legal(cfg, start, es) && Enabled(Run(cfg, start, es), e)
    ensures Unsegmented(cfg, es + [e]) <==> Unsegmented(cfg, es) && (e.DoSend? ==> |e.data| <= cfg.maxMessageSize)
  {
    hide Next, Enabled;
    assert (es + [e])[..|es + [e]| - 1] == es;
    assert (es + [e])[|es|] == e;
    if Unsegmented(cfg, es + [e]) {
      forall i | 0 <= i < |es| && es[i].DoSend? ensures |es[i].data| <= cfg.maxMessageSize {
        assert (es + [e])[i] == es[i];
      }
    }
  }
}
