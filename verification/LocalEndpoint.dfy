/**
 The endpoint for communication between applications on one host, as a state machine whose
 steps are the sections that hold the endpoint's mutex. Callbacks of the socket, timers and
 posted actions are later steps that may come at any time.
 */
module LocalEndpoint {
  import opened Common

  /** The number of reconnects that means "no maximum" (the largest 32-bit value). */
  const MAX_RECONNECTS_UNLIMITED: nat := 0xFFFF_FFFF

  datatype Phase = Init | Connecting | Connected | Stopped | Failed

  /** `routingPeer` says that the peer is the routing host, which is not checked on connecting. */
  datatype Config = Config(maxMessageSize: nat, queueLimit: nat, maxAttempts: nat, routingPeer: bool)

  /** History: a call of a cleanup handler, made or posted. */
  datatype Invocation = Invocation(handler: nat, error: bool)

  datatype State = State(
    phase: Phase,
    started: bool,
    sending: bool,
    flushing: bool,
    sendQueue: seq<Byte>,
    handler: Option<nat>,
    reconnects: nat,
    // history
    accepted: seq<Byte>,
    handed: seq<seq<Byte>>,
    outstanding: nat,
    registered: nat,
    invoked: seq<Invocation>,
    connects: nat)

  function Create(phase: Phase): State {
    State(phase, false, false, false, [], None, 0, [], [], 0, 0, [], 0)
  }

  /** A client endpoint starts unconnected, a server endpoint on an accepted connection. */
  predicate IsInitial(s: State) {
    s == Create(Init) || s == Create(Connected)
  }

  // ---------------------------------------------------------------------------- pieces

  /** Moves the cleanup handler out and calls or posts it. */
  function Release(s: State, error: bool): State {
    if s.handler.None? then s
    else s.(handler := None, invoked := s.invoked + [Invocation(s.handler.value, error)])
  }

  function Escalate(s: State): State {
    if s.phase == Failed || s.phase == Stopped then s else Release(s.(phase := Failed), true)
  }

  function SendBuffer(s: State): State {
    if s.sendQueue == [] then
      var s1 := s.(sending := false);
      if s.flushing then Release(s1, false) else s1
    else
      s.(sending := true, handed := s.handed + [s.sendQueue], outstanding := s.outstanding + 1, sendQueue := [])
  }

  function SendUnlock(s: State): State {
    if s.started && s.phase == Connected && !s.sending then SendBuffer(s) else s
  }

  /** `hasConfig` says whether the weakly held configuration is still alive. */
  function Connect(s: State, hasConfig: bool): State {
    if s.phase != Init || !hasConfig then s else s.(phase := Connecting, connects := s.connects + 1)
  }

  // ----------------------------------------------------------------------------- sends

  /** Subtraction of `size_t` values. */
  function MinusSize(a: int, b: int): int {
    (a - b) % SIZE_MODULUS
  }

  /** The checks of all three `send` overloads; for one command `largest` is its size. */
  predicate Accepts(cfg: Config, s: State, size: nat, largest: nat) {
    && !s.flushing
    && !(MinusSize(SIZE_MODULUS - 1, size) < |s.sendQueue|)
    && !(cfg.queueLimit != QUEUE_SIZE_UNLIMITED && MinusSize(cfg.queueLimit, |s.sendQueue|) < size)
    && !(cfg.maxMessageSize < largest)
  }

  function Append(s: State, data: seq<Byte>): State {
    SendUnlock(s.(sendQueue := s.sendQueue + data, accepted := s.accepted + data))
  }

  function Send(cfg: Config, s: State, data: seq<Byte>): State {
    if Accepts(cfg, s, |data|, |data|) then Append(s, data) else s
  }

  datatype Batch = Batch(buffer: seq<Byte>, largest: nat)

  const EmptyBatch: Batch := Batch([], 0)

  function Add(b: Batch, command: seq<Byte>): Batch {
    if command == [] then b else Batch(b.buffer + command, Max(b.largest, |command|))
  }

  function Build(commands: seq<seq<Byte>>): Batch {
    if commands == [] then EmptyBatch else Add(Build(commands[..|commands|-1]), commands[|commands|-1])
  }

  predicate AcceptsBatch(cfg: Config, s: State, b: Batch) {
    b.buffer == [] || Accepts(cfg, s, |b.buffer|, b.largest)
  }

  function SendBatch(cfg: Config, s: State, b: Batch): State {
    if b.buffer != [] && Accepts(cfg, s, |b.buffer|, b.largest) then Append(s, b.buffer) else s
  }

  // ------------------------------------------------------------------------- callbacks

  datatype ConnectResult = Established(allowed: bool) | ConnectAborted | ConnectError

  function ConnectDone(cfg: Config, s: State, r: ConnectResult): State {
    if s.phase != Connecting then s
    else match r
      case Established(allowed) =>
        if cfg.routingPeer || allowed then SendUnlock(s.(phase := Connected)) else Escalate(s)
      case ConnectAborted => Escalate(s)
      case ConnectError =>
        if s.flushing then Escalate(s)
        else if cfg.maxAttempts == MAX_RECONNECTS_UNLIMITED then s.(phase := Init)
        else if cfg.maxAttempts >= s.reconnects + 1 then s.(phase := Init, reconnects := s.reconnects + 1)
        else Escalate(s.(reconnects := s.reconnects + 1))
  }

  datatype WriteResult = Written | WriteFailed | WriteAborted

  function SendDone(s: State, r: WriteResult): State
    requires s.outstanding > 0
  {
    var s1 := s.(outstanding := s.outstanding - 1);
    match r
    case Written => if s.phase == Connected then SendBuffer(s1) else s1
    case WriteFailed => Escalate(s1)
    case WriteAborted => s1
  }

  function StartFlushing(s: State): State {
    if !s.started || s.phase == Failed || s.phase == Stopped then s
    else
      var s1 := s.(flushing := true);
      if s.phase == Init && s.handler.Some? then Release(s1, true) else SendUnlock(s1)
  }

  // ------------------------------------------------------------------------------ runs

  datatype Event =
    | DoStart(hasConfig: bool)
    | DoResume                         // the posted part of start
    | DoSend(data: seq<Byte>)
    | DoSendBatch(batch: Batch)
    | DoRetry(hasConfig: bool)         // the reconnect timer
    | DoConnectDone(connected: ConnectResult)
    | DoSendDone(written: WriteResult)
    | DoEscalate                       // receive errors, timeouts, the posted part of trigger_error
    | DoStop                           // the last section of stop
    | DoStartFlushing
    | DoRegister

  /** A write completes only if one is outstanding; sizes of single sends are 32-bit numbers. */
  predicate Enabled(s: State, e: Event) {
    && (e.DoSendDone? ==> s.outstanding > 0)
    && (e.DoSend? ==> |e.data| < 0x1_0000_0000)
    && (e.DoSendBatch? ==> |e.batch.buffer| < SIZE_MODULUS)
  }

  function Next(cfg: Config, s: State, e: Event): State
    requires Enabled(s, e)
  {
    match e
    case DoStart(hasConfig) => Connect(s.(started := true), hasConfig)
    case DoResume => SendUnlock(s)
    case DoSend(data) => Send(cfg, s, data)
    case DoSendBatch(b) => SendBatch(cfg, s, b)
    case DoRetry(hasConfig) => Connect(s, hasConfig)
    case DoConnectDone(r) => ConnectDone(cfg, s, r)
    case DoSendDone(r) => SendDone(s, r)
    case DoEscalate => Escalate(s)
    case DoStop => s.(phase := Stopped)
    case DoStartFlushing => StartFlushing(s)
    case DoRegister => s.(handler := Some(s.registered), registered := s.registered + 1)
  }

  /** A run is the sequence of states it goes through. */
  ghost predicate IsRun(cfg: Config, ss: seq<State>, es: seq<Event>) {
    && |ss| == |es| + 1
    && forall i :: 0 <= i < |es| ==> Enabled(ss[i], es[i]) && ss[i + 1] == Next(cfg, ss[i], es[i])
  }
}
