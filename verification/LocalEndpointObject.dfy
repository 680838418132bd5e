/**
 The local endpoint as an object that is updated in place. Each method is one section under the
 endpoint's mutex and is proved to take the state to the one its specification function gives.
 */
module LocalEndpointObject {
  import opened Common
  import opened LocalEndpoint

  /** Accumulates serialized commands that are enqueued in one go. */
  class CommandBatch {
    var buffer: seq<Byte>
    var largestCommand: nat
    ghost var commands: seq<seq<Byte>>

    ghost predicate Valid()
      reads this
    {
      Build(commands) == Batch(buffer, largestCommand)
    }

    constructor ()
      ensures Valid() && commands == []
    {
      buffer, largestCommand, commands := [], 0, [];
    }

    method Append(command: seq<Byte>)
      requires Valid()
      modifies this
      ensures Valid() && commands == old(commands) + [command]
    {
      commands := commands + [command];
      if |command| != 0 {
        buffer := buffer + command;
        if |command| > largestCommand {
          largestCommand := |command|;
        }
      }
    }
  }

  /** The states an endpoint has gone through and the events between them. */
  class History {
    ghost var states: seq<State>
    ghost var events: seq<Event>

    ghost constructor (s: State)
      ensures states == [s] && events == []
    {
      states, events := [s], [];
    }
  }

  class Endpoint {
    const cfg: Config
    ghost const log: History
    var phase: Phase
    var started: bool
    var sending: bool
    var flushing: bool
    var sendQueue: seq<Byte>
    var handler: Option<nat>
    var reconnectCounter: nat
    ghost var state: State

    ghost predicate Valid()
      reads this
    {
      && state.phase == phase && state.started == started && state.sending == sending
      && state.flushing == flushing && state.sendQueue == sendQueue && state.handler == handler
      && state.reconnects == reconnectCounter
    }

    /** ... and the abstract state is the last one of a run from an initial state. */
    ghost predicate Reachable()
      reads this, log
    {
      && Valid() && IsRun(cfg, log.states, log.events)
      && IsInitial(log.states[0]) && state == log.states[|log.events|]
    }

    constructor (cfg: Config, phase: Phase)
      requires phase == Init || phase == Connected
      ensures Reachable() && fresh(log) && this.cfg == cfg && IsInitial(state)
    {
      this.cfg := cfg;
      ghost var history := new History(Create(phase));
      log := history;
      this.phase, started, sending, flushing, sendQueue := phase, false, false, false, [];
      handler, reconnectCounter := None, 0;
      state := Create(phase);
    }

    /** Calls the cleanup handler, if there still is one, and forgets it. */
    method CallHandler(error: bool)
      requires Valid()
      modifies this
      ensures Valid() && state == LocalEndpoint.Release(old(state), error)
    {
      if handler.Some? {
        state := state.(handler := None, invoked := state.invoked + [Invocation(handler.value, error)]);
        handler := None;
      }
    }

    method Escalate()
      requires Valid()
      modifies this
      ensures Valid() && state == LocalEndpoint.Escalate(old(state))
    {
      if phase == Failed || phase == Stopped {
        return;
      }
      phase := Failed;
      state := state.(phase := Failed);
      CallHandler(true);
    }

    method SendBuffer()
      requires Valid()
      modifies this
      ensures Valid() && state == LocalEndpoint.SendBuffer(old(state))
    {
      if sendQueue == [] {
        sending := false;
        state := state.(sending := false);
        if flushing {
          CallHandler(false);
        }
        return;
      }
      sending := true;
      state := state.(sending := true, handed := state.handed + [sendQueue], outstanding := state.outstanding + 1);
      sendQueue := [];
      state := state.(sendQueue := []);
    }

    method SendUnlock()
      requires Valid()
      modifies this
      ensures Valid() && state == LocalEndpoint.SendUnlock(old(state))
    {
      if started && phase == Connected && !sending {
        SendBuffer();
      }
    }

    method Connect(hasConfig: bool)
      requires Valid()
      modifies this
      ensures Valid() && state == LocalEndpoint.Connect(old(state), hasConfig)
    {
      if phase != Init {
        return;
      }
      if !hasConfig {
        return;
      }
      phase := Connecting;
      state := state.(phase := Connecting, connects := state.connects + 1);
    }

    method Start(hasConfig: bool)
      requires Valid()
      modifies this
      ensures Valid() && state == Next(cfg, old(state), DoStart(hasConfig))
    {
      started := true;
      state := state.(started := true);
      if phase == Init {
        Connect(hasConfig);
      }
    }

    method Enqueue(data: seq<Byte>, largest: nat) returns (accepted: bool)
      requires Valid()
      modifies this
      ensures Valid() && accepted == Accepts(cfg, old(state), |data|, largest)
      ensures state == if accepted then Append(old(state), data) else old(state)
    {
      if flushing {
        return false;
      }
      if MinusSize(SIZE_MODULUS - 1, |data|) < |sendQueue| {
        return false;
      }
      if cfg.queueLimit != QUEUE_SIZE_UNLIMITED && MinusSize(cfg.queueLimit, |sendQueue|) < |data| {
        return false;
      }
      if cfg.maxMessageSize < largest {
        return false;
      }
      sendQueue := sendQueue + data;
      state := state.(sendQueue := sendQueue, accepted := state.accepted + data);
      SendUnlock();
      accepted := true;
    }

    method Send(data: seq<Byte>) returns (accepted: bool)
      requires Valid()
      modifies this
      ensures Valid() && accepted == Accepts(cfg, old(state), |data|, |data|)
      ensures state == LocalEndpoint.Send(cfg, old(state), data)
    {
      accepted := Enqueue(data, |data|);
    }

    /** An empty batch is accepted without a look at the state. */
    method SendBatch(batch: CommandBatch) returns (accepted: bool)
      requires Valid() && batch.Valid()
      modifies this
      ensures Valid() && accepted == AcceptsBatch(cfg, old(state), Build(batch.commands))
      ensures state == LocalEndpoint.SendBatch(cfg, old(state), Build(batch.commands))
    {
      if batch.buffer == [] {
        return true;
      }
      accepted := Enqueue(batch.buffer, batch.largestCommand);
    }

    method ConnectCallback(r: ConnectResult)
      requires Valid()
      modifies this
      ensures Valid() && state == ConnectDone(cfg, old(state), r)
    {
      if phase != Connecting {
        return;
      }
      if r.Established? {
        if !cfg.routingPeer && !r.allowed {
          Escalate();
          return;
        }
        phase := Connected;
        state := state.(phase := Connected);
        SendUnlock();
        return;
      }
      if r == ConnectAborted || flushing {
        Escalate();
        return;
      }
      var again := cfg.maxAttempts == MAX_RECONNECTS_UNLIMITED;
      if !again {
        reconnectCounter := reconnectCounter + 1;
        state := state.(reconnects := state.reconnects + 1);
        again := cfg.maxAttempts >= reconnectCounter;
      }
      if again {
        phase := Init;
        state := state.(phase := Init);
      } else {
        Escalate();
      }
    }

    method SendCallback(r: WriteResult)
      requires Valid() && state.outstanding > 0
      modifies this
      ensures Valid() && state == SendDone(old(state), r)
    {
      state := state.(outstanding := state.outstanding - 1);
      if r == Written {
        if phase == Connected {
          SendBuffer();
        }
        return;
      }
      if r != WriteAborted {
        Escalate();
      }
    }

    method StartFlushing()
      requires Valid()
      modifies this
      ensures Valid() && state == LocalEndpoint.StartFlushing(old(state))
    {
      if !started {
        return;
      }
      if phase == Failed || phase == Stopped {
        return;
      }
      flushing := true;
      state := state.(flushing := true);
      if phase == Init && handler.Some? {
        CallHandler(true);
        return;
      }
      SendUnlock();
    }

    method RegisterCleanupHandler(h: nat)
      requires Valid() && h == state.registered
      modifies this
      ensures Valid() && state == Next(cfg, old(state), DoRegister)
    {
      handler := Some(h);
      state := state.(handler := Some(h), registered := h + 1);
    }

    /** The section of stop after the wait for an outstanding write. */
    method Stop()
      requires Valid()
      modifies this
      ensures Valid() && state == Next(cfg, old(state), DoStop)
    {
      phase := Stopped;
      state := state.(phase := Stopped);
    }

    method Dispatch(e: Event, handler: nat)
      requires Valid() && Enabled(state, e) && (e.DoRegister? ==> handler == state.registered)
      modifies this
      ensures Valid() && state == Next(cfg, old(state), e)
    {
      hide Valid, Append, LocalEndpoint.SendUnlock, LocalEndpoint.Escalate, ConnectDone, SendDone, LocalEndpoint.StartFlushing, Accepts;
      match e {
        case DoStart(hasConfig) => Start(hasConfig);
        case DoResume => SendUnlock();
        case DoSend(data) => var _ := Send(data);
        case DoSendBatch(b) =>
          if b.buffer != [] {
            var _ := Enqueue(b.buffer, b.largest);
          }
        case DoRetry(hasConfig) => Connect(hasConfig);
        case DoConnectDone(r) => ConnectCallback(r);
        case DoSendDone(r) => SendCallback(r);
        case DoEscalate => Escalate();
        case DoStop => Stop();
        case DoStartFlushing => StartFlushing();
        case DoRegister => RegisterCleanupHandler(handler);
      }
    }

    /** One event. Whatever holds in every state of every run holds of the object. */
    method Step(e: Event, handler: nat)
      requires Reachable() && Enabled(state, e) && (e.DoRegister? ==> handler == state.registered)
      modifies this, log
      ensures Reachable() && log.events == old(log.events) + [e] && state == Next(cfg, old(state), e)
    {
      ghost var ss, es, s := log.states, log.events, state;
      hide Valid, Next, Enabled, IsInitial;
      assert Enabled(s, e);
      Dispatch(e, handler);
      log.states, log.events := ss + [state], es + [e];
      RunGrows(cfg, ss, es, e);
    }
  }

  lemma RunGrows(cfg: Config, ss: seq<State>, es: seq<Event>, e: Event)
    requires IsRun(cfg, ss, es) && Enabled(ss[|es|], e)
    ensures IsRun(cfg, ss + [Next(cfg, ss[|es|], e)], es + [e])
  {
    hide Next, Enabled;
    var ss', es' := ss + [Next(cfg, ss[|es|], e)], es + [e];
    forall i | 0 <= i < |es'| ensures Enabled(ss'[i], es'[i]) && ss'[i + 1] == Next(cfg, ss'[i], es'[i]) {
      if i < |es| { assert es'[i] == es[i] && ss'[i] == ss[i] && ss'[i + 1] == ss[i + 1]; }
    }
  }

  /** What a look at the flags sees when `stop` holds the mutex again. */
  datatype Look = Look(sending: bool, failed: bool)

  const RETRIES: nat := 10

  predicate Waits(l: Look, dueToError: bool) {
    l.sending && !dueToError && !l.failed
  }

  /**
   The wait of `stop` for an outstanding write, where `looks[i]` is what the i-th look sees. It
   sleeps exactly while the looks say so and at most eleven times; data may be lost only when
   stopping due to an error, when the endpoint failed, or after all eleven sleeps.
   */
  method WaitForWrite(dueToError: bool, looks: seq<Look>) returns (sleeps: nat, lost: bool)
    requires |looks| > RETRIES + 1
    ensures sleeps <= RETRIES + 1
    ensures forall i :: 0 <= i < sleeps ==> Waits(looks[i], dueToError)
    ensures sleeps <= RETRIES ==> !Waits(looks[sleeps], dueToError)
    ensures lost <==> sleeps == RETRIES + 1 || looks[sleeps].sending
  {
    sleeps, lost := 0, false;
    var retryCount := 0;
    while true
      invariant retryCount == sleeps <= RETRIES && !lost
      invariant forall i :: 0 <= i < sleeps ==> Waits(looks[i], dueToError)
      decreases RETRIES - sleeps
    {
      if looks[sleeps].sending {
        if dueToError || looks[sleeps].failed {
          lost := true;
          break;
        }
        sleeps := sleeps + 1;
      } else {
        break;
      }
      retryCount := retryCount + 1;
      if retryCount > RETRIES {
        lost := true;
        break;
      }
    }
  }
}
