/**
 The client endpoint as a mutable object. Trains and message buffers are shared heap objects,
 as in the program: queueing a train hands its buffer object to the queue, and resetting the
 train must therefore give it a new one. Every method is proved to compute the corresponding
 function of `TrainScheduler` on the abstract state, and never to touch a queued buffer.
 */
module ClientEndpoint {
  import opened Common
  import opened TrainScheduler
  import Conservation = TrainConservation

  class MessageBuffer {
    var bytes: seq<Byte>

    constructor (bytes: seq<Byte>)
      ensures this.bytes == bytes
    {
      this.bytes := bytes;
    }
  }

  class TrainObject {
    var buffer: MessageBuffer
    var passengers: set<Id>
    var minDebounce: Nanos
    var minRetention: Nanos
    var departure: int
    ghost var cargo: seq<Passenger>
    ghost var floor: Option<int>

    ghost function View(): Train
      reads this, buffer
    {
      Train(buffer.bytes, passengers, minDebounce, minRetention, departure, cargo, floor)
    }

    constructor (now: int)
      ensures fresh(buffer) && View() == NewTrain(now)
    {
      buffer := new MessageBuffer([]);
      passengers := {};
      minDebounce, minRetention := NANOS_MAX, NANOS_MAX;
      departure := now + SIX_HOURS;
      cargo, floor := [], None;
    }

    /** Replaces the buffer object: the old one may be shared with the queue. */
    method Reset(now: int)
      modifies this
      ensures fresh(buffer) && View() == NewTrain(now)
    {
      buffer := new MessageBuffer([]);
      passengers := {};
      minDebounce, minRetention := NANOS_MAX, NANOS_MAX;
      departure := now + SIX_HOURS;
      cargo, floor := [], None;
    }

    method LowerMinima(times: Times)
      modifies this
      ensures buffer == old(buffer) && View() == TrainScheduler.LowerMinima(old(View()), times)
    {
      if times.debounce < minDebounce { minDebounce := times.debounce; }
      if times.retention < minRetention { minRetention := times.retention; }
    }

    method Board(data: Message, times: Times, ghost p: Passenger)
      requires p.data == data && p.times == times
      modifies this, buffer
      ensures buffer == old(buffer) && View() == TrainScheduler.Board(old(View()), p)
    {
      buffer.bytes := buffer.bytes + data;
      passengers := passengers + {Identify(data)};
      LowerMinima(times);
      cargo := cargo + [p];
    }
  }

  datatype Slot = Slot(key: int, trains: seq<TrainObject>)

  datatype Outgoing = Outgoing(buffer: MessageBuffer, separation: nat)

  /** The train objects of a slot are owned and have the recorded values. */
  ghost predicate SlotAs(owned: set<object>, slot: Slot, b: Bucket)
    reads owned
  {
    slot.key == b.key && |slot.trains| == |b.trains|
    && forall j :: 0 <= j < |b.trains| ==>
         slot.trains[j] in owned && slot.trains[j].buffer in owned && slot.trains[j].View() == b.trains[j]
  }

  ghost predicate SlotApart(owned: set<object>, slot: Slot, t: TrainObject, m: MessageBuffer)
    reads owned
  {
    forall j :: 0 <= j < |slot.trains| ==>
      slot.trains[j] in owned && slot.trains[j] != t && slot.trains[j].buffer != m
  }

  ghost predicate OutgoingAs(owned: set<object>, o: Outgoing, e: Entry)
    reads owned
  {
    o.buffer in owned && o.buffer.bytes == e.buffer && o.separation == e.separation
  }

  /** The events an endpoint has seen. */
  class History {
    ghost var events: seq<Event>

    ghost constructor ()
      ensures events == []
    {
      events := [];
    }
  }

  class Endpoint {
    const cfg: Config
    ghost const start: int
    ghost const log: History
    var train: TrainObject
    var dispatched: seq<Slot>
    var queue: seq<Outgoing>
    var queueSize: int
    var isSending: bool
    var lastDeparture: Option<int>
    var timer: Option<int>

    /** The abstract state, with its history. */
    ghost var state: State
    /** The trains and buffers in use. */
    ghost var Owned: set<object>

    /** The fields agree with the abstract state. */
    ghost predicate Tied()
      reads this, Owned
    {
      && this !in Owned && train in Owned && train.buffer in Owned
      && train.View() == state.train
      && |dispatched| == |state.parked| && |queue| == |state.queue|
      && (forall i :: 0 <= i < |dispatched| ==> SlotAs(Owned, dispatched[i], state.parked[i]))
      && (forall i :: 0 <= i < |queue| ==> OutgoingAs(Owned, queue[i], state.queue[i]))
      && queueSize == state.queueSize && isSending == state.isSending
      && lastDeparture == state.lastDeparture && timer == state.timer
    }

    /** ... and the current train and its buffer are shared with no parked train and no queue entry. */
    ghost predicate Valid()
      reads this, Owned
    {
      && Tied()
      && (forall i :: 0 <= i < |dispatched| ==> SlotApart(Owned, dispatched[i], train, train.buffer))
      && (forall i :: 0 <= i < |queue| ==> queue[i].buffer != train.buffer)
    }

    /** ... and the abstract state is the one that a legal run of the logged events leads to. */
    ghost predicate Reachable()
      reads this, Owned, log
    {
      Valid() && log !in Owned && Legal(cfg, start, log.events) && state == Run(cfg, start, log.events)
    }

    constructor (cfg: Config, now: int)
      ensures Reachable() && fresh(Owned) && fresh(log) && this.cfg == cfg && state == Init(now) && log.events == []
    {
      this.cfg := cfg;
      start := now;
      ghost var history := new History();
      log := history;
      var t := new TrainObject(now);
      train := t;
      dispatched, queue := [], [];
      queueSize, isSending := 0, false;
      lastDeparture, timer := None, None;
      state := Init(now);
      Owned := {t, t.buffer};
    }

    method StartDispatchTimer(now: int)
      requires Valid()
      modifies this`timer, this`state
      ensures Valid() && state == ArmTimer(old(state), now)
    {
      hide OutgoingAs, SlotApart;
      var departure := train.departure;
      if dispatched != [] {
        assert SlotAs(Owned, dispatched[0], state.parked[0]);
        if dispatched[0].key < departure {
          departure := dispatched[0].trains[0].departure;
        }
      }
      timer := Some(if departure > now then departure else now);
      state := ArmTimer(state, now);
    }

    /** The departure is raised if the debounce time since the last write would be undershot. */
    method RaiseDeparture()
      requires Valid()
      modifies train, this`state
      ensures Valid() && train.buffer == old(train.buffer) && state == old(state).(train := Scheduled(old(state)))
    {
      if lastDeparture.Some? && lastDeparture.value + train.minDebounce > train.departure {
        train.departure := lastDeparture.value + train.minDebounce;
      }
      train.floor := FloorOf(lastDeparture, state.train);
      state := state.(train := Scheduled(state));
    }

    /** Appends the current train to an existing slot. */
    method AppendToSlot(i: nat)
      requires Tied() && i < |dispatched|
      modifies this`dispatched, this`state
      ensures Tied()
      ensures var b := old(state).parked;
              state == old(state).(parked := b[i := Bucket(b[i].key, b[i].trains + [state.train])])
    {
      hide OutgoingAs;
      ghost var was, slots := state.parked, dispatched;
      assert SlotAs(Owned, dispatched[i], was[i]);
      state := state.(parked := was[i := Bucket(was[i].key, was[i].trains + [state.train])]);
      dispatched := dispatched[i := Slot(dispatched[i].key, dispatched[i].trains + [train])];
      assert SlotAs(Owned, dispatched[i], state.parked[i]);
      hide SlotAs;
      assert forall k :: 0 <= k < |dispatched| && k != i ==> SlotAs(Owned, slots[k], was[k]);
    }

    /** Inserts a slot that holds the current train alone. */
    method InsertSlot(i: nat)
      requires Tied() && i <= |dispatched|
      modifies this`dispatched, this`state
      ensures Tied()
      ensures var b := old(state).parked;
              state == old(state).(parked := b[..i] + [Bucket(train.departure, [state.train])] + b[i..])
    {
      hide OutgoingAs;
      ghost var was, slots := state.parked, dispatched;
      state := state.(parked := was[..i] + [Bucket(train.departure, [state.train])] + was[i..]);
      dispatched := dispatched[..i] + [Slot(train.departure, [train])] + dispatched[i..];
      assert SlotAs(Owned, dispatched[i], state.parked[i]);
      hide SlotAs;
      forall k | 0 <= k < |dispatched| ensures SlotAs(Owned, dispatched[k], state.parked[k]) {
        if k < i { assert SlotAs(Owned, slots[k], was[k]); }
        if k > i { assert SlotAs(Owned, slots[k - 1], was[k - 1]); }
      }
    }

    /** `dispatched_trains_[train.departure].push_back(train)`, the position being known. */
    method Insert(i: nat)
      requires Tied() && i <= |dispatched|
      requires forall k :: 0 <= k < i ==> state.parked[k].key < train.departure
      requires i < |dispatched| ==> train.departure <= state.parked[i].key
      modifies this`dispatched, this`state
      ensures Tied() && state == old(state).(parked := Park(old(state).parked, old(state).train))
    {
      hide OutgoingAs, Park;
      ParkAt(state.parked, state.train, i);
      if i < |dispatched| { assert SlotAs(Owned, dispatched[i], state.parked[i]); }
      if i < |dispatched| && dispatched[i].key == train.departure {
        AppendToSlot(i);
      } else {
        InsertSlot(i);
      }
    }

    /** Continues with a new train. */
    method ReplaceTrain(now: int, departure: int)
      requires Tied()
      modifies this`train, this`Owned, this`state
      ensures Valid() && fresh(Owned - old(Owned)) && old(Owned) <= Owned
      ensures fresh(train) && fresh(train.buffer)
      ensures state == old(state).(train := NewTrain(now).(departure := departure))
    {
      var next := new TrainObject(now);
      next.departure := departure;
      train := next;
      state := state.(train := NewTrain(now).(departure := departure));
      ghost var was := Owned;
      Owned := Owned + {next, next.buffer};
      forall i | 0 <= i < |dispatched|
        ensures SlotAs(Owned, dispatched[i], state.parked[i]) && SlotApart(Owned, dispatched[i], train, train.buffer)
      {
        assert SlotAs(was, dispatched[i], state.parked[i]);
      }
      forall i | 0 <= i < |queue| ensures OutgoingAs(Owned, queue[i], state.queue[i]) && queue[i].buffer != train.buffer {
        assert OutgoingAs(was, queue[i], state.queue[i]);
      }
      hide SlotAs, SlotApart, OutgoingAs;
    }

    /** Parks the current train under its departure and continues with an empty one. */
    method ScheduleTrain(now: int, departure: int)
      requires Valid()
      modifies this, train
      ensures Valid() && fresh(Owned - old(Owned)) && old(Owned) <= Owned && queue == old(queue)
      ensures fresh(train) && fresh(train.buffer)
      ensures state == TrainScheduler.ScheduleTrain(old(state)).(train := NewTrain(now).(departure := departure))
    {
      hide OutgoingAs, SlotApart, Park;
      RaiseDeparture();
      var i := 0;
      while i < |dispatched| && dispatched[i].key < train.departure
        invariant 0 <= i <= |dispatched|
        invariant forall k :: 0 <= k < i ==> state.parked[k].key < train.departure
      {
        assert SlotAs(Owned, dispatched[i], state.parked[i]);
        i := i + 1;
      }
      if i < |dispatched| { assert SlotAs(Owned, dispatched[i], state.parked[i]); }
      hide SlotAs;
      Insert(i);
      ReplaceTrain(now, departure);
    }

    method QueueTrain(t: TrainObject, now: int)
      requires Tied() && t in Owned && t.buffer in Owned
      modifies this`queue, this`queueSize, this`isSending, this`state
      ensures Tied() && state == TrainScheduler.QueueTrain(old(state), t.View(), now)
      ensures queue == old(queue) + [Outgoing(t.buffer, 0)]
    {
      hide SlotAs;
      queueSize := queueSize + |t.buffer.bytes|;
      queue := queue + [Outgoing(t.buffer, 0)];
      if !isSending { isSending := true; }
      state := TrainScheduler.QueueTrain(state, t.View(), now);
      assert OutgoingAs(Owned, queue[|queue|-1], state.queue[|queue|-1]);
    }

    /** Removes the front train of the first slot. */
    method PopTrain() returns (t: TrainObject)
      requires Valid() && dispatched != []
      modifies this`dispatched, this`state
      ensures Valid() && t in Owned && t.buffer in Owned && t.buffer != train.buffer
      ensures t.View() == old(state).parked[0].trains[0] && state == old(state).(parked := PopFirst(old(state).parked))
    {
      hide OutgoingAs;
      ghost var was, slots := state.parked, dispatched;
      var slot := dispatched[0];
      assert SlotAs(Owned, slot, was[0]) && SlotApart(Owned, slot, train, train.buffer);
      t := slot.trains[0];
      state := state.(parked := PopFirst(was));
      if |slot.trains| == 1 {
        hide SlotAs, SlotApart;
        dispatched := dispatched[1..];
        forall k | 0 <= k < |dispatched|
          ensures SlotAs(Owned, dispatched[k], state.parked[k]) && SlotApart(Owned, dispatched[k], train, train.buffer)
        {
          assert dispatched[k] == slots[k + 1] && state.parked[k] == was[k + 1];
        }
      } else {
        dispatched := [Slot(slot.key, slot.trains[1..])] + dispatched[1..];
        assert SlotAs(Owned, dispatched[0], state.parked[0]) && SlotApart(Owned, dispatched[0], train, train.buffer);
        hide SlotAs, SlotApart;
        forall k | 0 <= k < |dispatched|
          ensures SlotAs(Owned, dispatched[k], state.parked[k]) && SlotApart(Owned, dispatched[k], train, train.buffer)
        {
          if k > 0 { assert dispatched[k] == slots[k] && state.parked[k] == was[k]; }
        }
      }
    }

    /** Gives the current train, whose buffer is now queued, a new buffer. */
    method ResetTrain(now: int)
      requires Tied()
      requires forall i :: 0 <= i < |dispatched| ==> SlotApart(Owned, dispatched[i], train, train.buffer)
      modifies train, this`Owned, this`state
      ensures Valid() && fresh(Owned - old(Owned)) && old(Owned) <= Owned
      ensures state == old(state).(train := NewTrain(now))
    {
      train.Reset(now);
      state := state.(train := NewTrain(now));
      Owned := Owned + {train.buffer};
    }

    method FlushCurrent(now: int) returns (hasQueued: bool)
      requires Valid()
      modifies this, train
      ensures Valid() && fresh(Owned - old(Owned)) && old(Owned) <= Owned
      ensures state == TrainScheduler.FlushCurrent(old(state), now)
      ensures queue == if hasQueued then old(queue) + [Outgoing(old(train.buffer), 0)] else old(queue)
    {
      hide SlotAs, SlotApart, OutgoingAs, TrainScheduler.QueueTrain;
      hasQueued := train.buffer.bytes != [];
      if hasQueued {
        QueueTrain(train, now);
        ResetTrain(now);
      }
    }

    method FlushParked(now: int) returns (hasQueued: bool)
      requires Valid() && dispatched != []
      modifies this
      ensures Valid() && Owned == old(Owned)
      ensures state == TrainScheduler.FlushParked(old(state), now)
      ensures |old(queue)| <= |queue| && queue[..|old(queue)|] == old(queue)
      ensures hasQueued <==> queue != old(queue)
    {
      hide SlotAs, SlotApart, OutgoingAs, PopFirst, TrainScheduler.QueueTrain;
      var t := PopTrain();
      hasQueued := t.buffer.bytes != [];
      if hasQueued { QueueTrain(t, now); }
    }

    /**
     Moves the parked train of least departure, or else the current train, to the queue.
     No buffer changes: those already queued stay in place with their bytes.
     */
    method Flush(now: int, stale: bool) returns (hasQueued: bool)
      requires Valid()
      modifies this, train
      ensures Valid() && fresh(Owned - old(Owned)) && old(Owned) <= Owned
      ensures state == TrainScheduler.Flush(old(state), now, stale)
      ensures hasQueued <==> queue != old(queue)
      ensures |old(queue)| <= |queue| && queue[..|old(queue)|] == old(queue)
    {
      var isCurrentTrain := Fire(now, stale);
      hide Valid, Tied, TrainScheduler.FlushCurrent, TrainScheduler.FlushParked, ArmTimer;
      if isCurrentTrain {
        hasQueued := FlushCurrent(now);
      } else {
        hasQueued := FlushParked(now);
      }
      var parked := HasParked();
      if !isCurrentTrain || parked {
        StartDispatchTimer(now);
      }
    }

    method HasParked() returns (r: bool)
      requires Valid()
      ensures r <==> state.parked != []
    {
      r := dispatched != [];
    }

    /** The timer handler runs: decides whether the current train is the next to leave. */
    method Fire(now: int, stale: bool) returns (isCurrentTrain: bool)
      requires Valid()
      modifies this`timer, this`state
      ensures Valid()
      ensures state == old(state).(clock := now, timer := if stale then old(state).timer else None)
      ensures isCurrentTrain <==> !TakesParked(old(state))
      ensures !isCurrentTrain ==> dispatched != []
    {
      hide OutgoingAs, SlotApart;
      if dispatched != [] { assert SlotAs(Owned, dispatched[0], state.parked[0]); }
      hide SlotAs;
      timer := if stale then timer else None;
      state := state.(clock := now, timer := timer);
      isCurrentTrain := !(dispatched != [] && dispatched[0].key <= train.departure);
    }

    /** A successful write: the front entry leaves and the next one is handed to the socket. */
    method WriteDone(now: int)
      requires Valid()
      modifies this
      ensures Valid() && Owned == old(Owned) && state == TrainScheduler.WriteDone(old(state), now)
      ensures queue == if old(queue) == [] then [] else old(queue)[1..]
    {
      ghost var was, before := queue, state;
      state := TrainScheduler.WriteDone(state, now);
      if queue != [] {
        assert OutgoingAs(Owned, queue[0], before.queue[0]);
        queueSize := queueSize - |queue[0].buffer.bytes|;
        hide SlotAs, SlotApart, OutgoingAs;
        queue := queue[1..];
        lastDeparture := Some(now);
        isSending := queue != [];
        forall i | 0 <= i < |queue|
          ensures OutgoingAs(Owned, queue[i], state.queue[i]) && queue[i].buffer != train.buffer
        {
          assert queue[i] == was[i + 1] && state.queue[i] == before.queue[i + 1];
        }
      }
    }

    // ------------------------------------------------------------------------- sending

    /** The bytes on all trains, summed by walking the map. */
    method GetPendingTrainSize() returns (size: nat)
      requires Valid()
      ensures size == PendingTrainSize(state)
    {
      hide OutgoingAs, SlotApart;
      size := |train.buffer.bytes|;
      for i := 0 to |dispatched|
        invariant size == |state.train.buffer| + BytesParked(Trains(state.parked[..i]))
      {
        ghost var base := size;
        ghost var ts := state.parked[i].trains;
        assert SlotAs(Owned, dispatched[i], state.parked[i]);
        for j := 0 to |dispatched[i].trains|
          invariant size == base + BytesParked(ts[..j])
        {
          size := size + |dispatched[i].trains[j].buffer.bytes|;
          BytesParkedTo(ts, j);
        }
        assert ts[..|ts|] == ts;
        TrainsTo(state.parked, i);
      }
      assert state.parked[..|state.parked|] == state.parked;
    }

    method CheckQueueLimit(size: nat) returns (ok: bool)
      requires Valid()
      ensures ok <==> WithinLimit(cfg, Used(state), size)
    {
      var pending := GetPendingTrainSize();
      var total := (queueSize + pending + size) % SIZE_MODULUS;
      ok := !(cfg.queueLimit != QUEUE_SIZE_UNLIMITED && (total > cfg.queueLimit || total < size));
    }

    method SetDeparture(departure: int)
      requires Valid()
      modifies train, this`state
      ensures Valid() && train.buffer == old(train.buffer)
      ensures state == old(state).(train := old(state).train.(departure := departure))
    {
      train.departure := departure;
      state := state.(train := state.train.(departure := departure));
    }

    /** Steps 4 to 8: decides whether the current train must leave before the message boards. */
    method PrepareTrain(now: int, data: Message)
      requires Valid()
      modifies this, train
      ensures Valid() && fresh(Owned - old(Owned)) && old(Owned) <= Owned && queue == old(queue)
      ensures (train == old(train) && train.buffer == old(train.buffer)) || (fresh(train) && fresh(train.buffer))
      ensures state == TrainScheduler.PrepareTrain(cfg, old(state), now, data)
    {
      hide OutgoingAs, SlotAs, SlotApart, Park, TrainScheduler.ScheduleTrain;
      var times := cfg.times(Identify(data));
      if train.passengers == {} {
        SetDeparture(now + times.retention);
        return;
      }
      var mustDepart := false;
      if Identify(data) in train.passengers {
        mustDepart := true;
      } else if |train.buffer.bytes| + |data| > cfg.maxMessageSize {
        mustDepart := true;
      } else if times.debounce > train.minRetention {
        mustDepart := true;
      } else if now + times.debounce > train.departure {
        mustDepart := true;
      } else if times.retention < train.minDebounce {
        mustDepart := true;
      }
      assert mustDepart <==> MustDepart(cfg, state.train, now, data);
      hide MustDepart;
      if mustDepart {
        ScheduleTrain(now, now + times.retention);
      } else if now + times.retention < train.departure {
        SetDeparture(now + times.retention);
      }
    }

    method BoardMessage(now: int, data: Message)
      requires Valid()
      modifies train, train.buffer, this`state
      ensures Valid() && train.buffer == old(train.buffer)
      ensures var p := NextPassenger(cfg, old(state), now, data);
              state == old(state).(train := Board(old(state).train, p), accepted := old(state).accepted + [p])
    {
      ghost var p := NextPassenger(cfg, state, now, data);
      train.Board(data, cfg.times(Identify(data)), p);
      state := state.(train := Board(state.train, p), accepted := state.accepted + [p]);
      forall i | 0 <= i < |queue| ensures OutgoingAs(Owned, queue[i], state.queue[i]) {
        assert queue[i].buffer != train.buffer;
      }
      forall i | 0 <= i < |dispatched| ensures SlotAs(Owned, dispatched[i], state.parked[i]) {
        assert SlotApart(Owned, dispatched[i], train, train.buffer);
      }
    }

    method SendSmall(now: int, data: Message)
      requires Valid()
      modifies this, train, train.buffer
      ensures Valid() && fresh(Owned - old(Owned)) && old(Owned) <= Owned && queue == old(queue)
      ensures state == TrainScheduler.SendSmall(cfg, old(state), now, data)
    {
      hide Valid, Tied, TrainScheduler.PrepareTrain, ArmTimer;
      Conservation.PrepareFrame(cfg, state, now, data);
      PrepareTrain(now, data);
      BoardMessage(now, data);
      StartDispatchTimer(now);
    }

    /** Lowers the minima of the current train for a message that is going to be segmented. */
    method LowerCurrent(times: Times)
      requires Valid()
      modifies train, this`state
      ensures Valid() && train.buffer == old(train.buffer)
      ensures state == old(state).(train := LowerMinima(old(state).train, times), segmented := true)
    {
      train.LowerMinima(times);
      state := state.(train := LowerMinima(state.train, times), segmented := true);
    }

    /** Appends one segment, in a buffer of its own, to the queue. */
    method EnqueuePart(data: Message, separation: nat, ghost e: Entry)
      requires Valid() && e.buffer == data && e.separation == separation
      modifies this`queue, this`queueSize, this`Owned, this`state
      ensures Valid() && fresh(Owned - old(Owned)) && old(Owned) <= Owned
      ensures state == old(state).(queue := old(state).queue + [e], queueSize := old(state).queueSize + |data|)
      ensures |queue| == |old(queue)| + 1 && queue[..|old(queue)|] == old(queue)
    {
      var m := new MessageBuffer(data);
      ghost var was := Owned;
      queue := queue + [Outgoing(m, separation)];
      queueSize := queueSize + |data|;
      Owned := Owned + {m};
      state := state.(queue := state.queue + [e], queueSize := state.queueSize + |data|);
      forall i | 0 <= i < |dispatched|
        ensures SlotAs(Owned, dispatched[i], state.parked[i]) && SlotApart(Owned, dispatched[i], train, train.buffer)
      {
        assert SlotAs(was, dispatched[i], state.parked[i]) && SlotApart(was, dispatched[i], train, train.buffer);
      }
      forall i | 0 <= i < |queue|
        ensures OutgoingAs(Owned, queue[i], state.queue[i]) && queue[i].buffer != train.buffer
      {
        assert i < |queue| - 1 ==> OutgoingAs(was, queue[i], state.queue[i]);
      }
      hide SlotAs, SlotApart, OutgoingAs;
    }

    method PushParts(parts: seq<Message>, separation: nat, ghost es: seq<Entry>)
      requires Valid() && |es| == |parts|
      requires forall i :: 0 <= i < |es| ==> es[i].buffer == parts[i] && es[i].separation == separation
      modifies this`queue, this`queueSize, this`Owned, this`state
      ensures Valid() && fresh(Owned - old(Owned)) && old(Owned) <= Owned
      ensures state == old(state).(queue := old(state).queue + es, queueSize := old(state).queueSize + BytesQueued(es))
      ensures |old(queue)| <= |queue| && queue[..|old(queue)|] == old(queue)
    {
      ghost var before, was := state, queue;
      assert es[..0] == [];
      assert before.queue + es[..0] == before.queue;
      NoBytes();
      hide Valid, Tied, BytesQueued;
      for i := 0 to |parts|
        invariant Valid() && fresh(Owned - old(Owned)) && old(Owned) <= Owned
        invariant state == before.(queue := before.queue + es[..i], queueSize := before.queueSize + BytesQueued(es[..i]))
        invariant |was| <= |queue| && queue[..|was|] == was
      {
        ghost var pushed := queue;
        EnqueuePart(parts[i], separation, es[i]);
        BytesQueuedTo(es, i);
        assert before.queue + es[..i + 1] == before.queue + es[..i] + [es[i]];
        assert queue[..|was|] == pushed[..|was|];
      }
      assert es[..|es|] == es;
    }

    method EnqueueParts(now: int, parts: seq<Message>, separation: nat, ghost size: nat)
      requires Valid()
      modifies this`queue, this`queueSize, this`isSending, this`Owned, this`state
      ensures Valid() && fresh(Owned - old(Owned)) && old(Owned) <= Owned
      ensures var ps := SegmentPassengers(cfg, |old(state).accepted|, now, parts);
              state == Enqueue(old(state), SegmentEntries(ps, separation), ps, size)
      ensures |old(queue)| <= |queue| && queue[..|old(queue)|] == old(queue)
    {
      hide SegmentPassengers, SegmentEntries, Valid, Tied, BytesQueued, Kick;
      ghost var ps := SegmentPassengers(cfg, |state.accepted|, now, parts);
      Conservation.SegmentPassengersAre(cfg, |state.accepted|, now, parts);
      Conservation.SegmentEntriesAre(ps, separation);
      PushParts(parts, separation, SegmentEntries(ps, separation));
      FinishQueue(ps, size, BytesQueued(SegmentEntries(ps, separation)));
    }

    /** After the segments are appended: records them as accepted and starts writing. */
    method FinishQueue(ghost ps: seq<Passenger>, ghost size: nat, ghost bytes: nat)
      requires Valid()
      modifies this`isSending, this`state
      ensures Valid()
      ensures state == Kick(old(state).(accepted := old(state).accepted + ps,
                                        overhead := old(state).overhead + Max(0, bytes - size)))
    {
      hide SlotAs, SlotApart, OutgoingAs;
      if !isSending && queue != [] { isSending := true; }
      state := Kick(state.(accepted := state.accepted + ps, overhead := state.overhead + Max(0, bytes - size)));
    }

    method SendSegments(now: int, parts: seq<Message>, separation: nat, ghost size: nat)
      requires Valid()
      modifies this, train
      ensures Valid() && fresh(Owned - old(Owned)) && old(Owned) <= Owned
      ensures state == TrainScheduler.SendSegments(cfg, old(state), now, parts, separation, size)
      ensures |old(queue)| <= |queue| && queue[..|old(queue)|] == old(queue)
    {
      hide SegmentPassengers, SegmentEntries, Enqueue, TrainScheduler.ScheduleTrain, SlotAs, SlotApart, OutgoingAs;
      if parts != [] {
        Conservation.SegmentTrainsFrame(cfg, state, now, parts[0]);
        var times := cfg.times(Identify(parts[0]));
        LowerCurrent(times);
        if train.passengers != {} {
          ScheduleTrain(now, now + times.retention);
        }
        EnqueueParts(now, parts, separation, size);
      }
    }

    /**
     Accepts a message unless the memory limit would be exceeded. No buffer that is already
     queued, and so none that is being written, is touched.
     */
    method Send(now: int, data: Message, split: Split) returns (accepted: bool)
      requires Valid()
      modifies this, train, train.buffer
      ensures Valid() && fresh(Owned - old(Owned)) && old(Owned) <= Owned
      ensures state == TrainScheduler.Send(cfg, old(state), now, data, split)
      ensures accepted <==> SendAccepts(cfg, old(state), data, split)
      ensures |old(queue)| <= |queue| && queue[..|old(queue)|] == old(queue)
      ensures forall i :: 0 <= i < |old(queue)| ==> old(queue)[i].buffer.bytes == old(queue[i].buffer.bytes)
    {
      var within := CheckQueueLimit(|data|);
      Tick(now);
      accepted := false;
      if within {
        if |data| <= cfg.maxMessageSize {
          SendSmall(now, data);
          accepted := true;
        } else if split.Segments? {
          SendSegments(now, split.parts, split.separation, |data|);
          accepted := true;
        }
      }
    }

    method Dispatch(e: Event)
      requires Valid()
      modifies this, train, train.buffer
      ensures Valid() && fresh(Owned - old(Owned)) && old(Owned) <= Owned && state == Next(cfg, old(state), e)
    {
      hide TrainScheduler.Send, TrainScheduler.Flush, TrainScheduler.WriteDone, Valid;
      match e {
        case DoSend(now, data, split) => var _ := Send(now, data, split);
        case DoFlush(now, stale) => var _ := Flush(now, stale);
        case DoWriteDone(now) => WriteDone(now);
      }
    }

    /** One event. Whatever holds after every legal run of the state machine holds of the object. */
    method Step(e: Event)
      requires Reachable() && Enabled(state, e)
      modifies this, train, train.buffer, log
      ensures Reachable() && fresh(Owned - old(Owned)) && old(Owned) <= Owned
      ensures log.events == old(log.events) + [e] && state == Next(cfg, old(state), e)
    {
      RunStep(cfg, start, log.events, e);
      hide Run, Legal, Next, Valid, Enabled;
      Dispatch(e);
      log.events := log.events + [e];
    }

    ghost method Tick(now: int)
      requires Valid()
      modifies this`state
      ensures Valid() && state == old(state).(clock := now)
    {
      hide SlotAs, SlotApart, OutgoingAs;
      state := state.(clock := now);
    }
  }

  lemma NoBytes()
    ensures BytesQueued([]) == 0
  {
  }

  lemma BytesQueuedTo(es: seq<Entry>, i: nat)
    requires i < |es|
    ensures BytesQueued(es[..i + 1]) == BytesQueued(es[..i]) + |es[i].buffer|
  {
    assert es[..i + 1] == es[..i] + [es[i]];
    Conservation.EntryLoadConcat(es[..i], [es[i]]);
    Conservation.EntryLoadOne(es[i]);
  }

  lemma {:induction false} TrainsConcat(a: seq<Bucket>, b: seq<Bucket>)
    ensures Trains(a + b) == Trains(a) + Trains(b)
  {
    if a == [] {
      assert a + b == b;
    } else {
      assert (a + b)[1..] == a[1..] + b;
      TrainsConcat(a[1..], b);
    }
  }

  lemma {:induction false} BytesParkedConcat(a: seq<Train>, b: seq<Train>)
    ensures BytesParked(a + b) == BytesParked(a) + BytesParked(b)
  {
    if a == [] {
      assert a + b == b;
    } else {
      assert (a + b)[1..] == a[1..] + b;
      BytesParkedConcat(a[1..], b);
    }
  }

  lemma BytesParkedTo(ts: seq<Train>, j: nat)
    requires j < |ts|
    ensures BytesParked(ts[..j + 1]) == BytesParked(ts[..j]) + |ts[j].buffer|
  {
    assert ts[..j + 1] == ts[..j] + [ts[j]];
    BytesParkedConcat(ts[..j], [ts[j]]);
    assert [ts[j]][1..] == [];
  }

  lemma TrainsTo(b: seq<Bucket>, i: nat)
    requires i < |b|
    ensures BytesParked(Trains(b[..i + 1])) == BytesParked(Trains(b[..i])) + BytesParked(b[i].trains)
  {
    assert b[..i + 1] == b[..i] + [b[i]];
    TrainsConcat(b[..i], [b[i]]);
    assert [b[i]][1..] == [] && Trains([b[i]]) == b[i].trains;
    BytesParkedConcat(Trains(b[..i]), b[i].trains);
  }

  /** Where the ordered map puts a train, given the number of smaller keys. */
  lemma {:induction false} ParkAt(b: seq<Bucket>, t: Train, i: nat)
    requires i <= |b|
    requires forall k :: 0 <= k < i ==> b[k].key < t.departure
    requires i < |b| ==> t.departure <= b[i].key
    ensures Park(b, t) == if i < |b| && b[i].key == t.departure
                          then b[i := Bucket(b[i].key, b[i].trains + [t])]
                          else b[..i] + [Bucket(t.departure, [t])] + b[i..]
  {
    if i > 0 {
      ParkAt(b[1..], t, i - 1);
    }
  }
}
