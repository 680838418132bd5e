/** What holds in every run of a local endpoint. */
module LocalEndpointProofs {
  import opened Common
  import opened LocalEndpoint

  function Concat(bs: seq<seq<Byte>>): seq<Byte> {
    if bs == [] then [] else Concat(bs[..|bs|-1]) + bs[|bs|-1]
  }

  lemma ConcatAppend(bs: seq<seq<Byte>>, b: seq<Byte>)
    ensures Concat(bs + [b]) == Concat(bs) + b
  {
    assert (bs + [b])[..|bs|] == bs;
  }

  // ------------------------------------------------------------------------- invariants

  /** What was handed to the socket, followed by the queue, is what was accepted. */
  predicate StreamInv(s: State) {
    && Concat(s.handed) + s.sendQueue == s.accepted
    && s.outstanding <= 1 && (s.outstanding == 1 ==> s.sending)
    && (s.sending ==> s.started)
    && (s.handed != [] ==> s.started)
  }

  predicate LimitInv(cfg: Config, s: State) {
    |s.sendQueue| < SIZE_MODULUS && (cfg.queueLimit != QUEUE_SIZE_UNLIMITED ==> |s.sendQueue| <= cfg.queueLimit)
  }

  /** No handler was called twice, and the registered one was not called yet. */
  predicate CalledOnce(handler: Option<nat>, registered: nat, invoked: seq<Invocation>) {
    && (handler.Some? ==> handler.value < registered)
    && (forall i :: 0 <= i < |invoked| ==> invoked[i].handler < registered && handler != Some(invoked[i].handler))
    && (forall i, j :: 0 <= i < j < |invoked| ==> invoked[i].handler != invoked[j].handler)
  }

  predicate HandlerInv(s: State) {
    CalledOnce(s.handler, s.registered, s.invoked)
  }

  predicate AttemptsInv(cfg: Config, s: State) {
    cfg.maxAttempts != MAX_RECONNECTS_UNLIMITED ==>
      && (s.phase == Init ==> s.connects == s.reconnects <= cfg.maxAttempts)
      && (s.phase == Connecting ==> s.connects == s.reconnects + 1 <= cfg.maxAttempts + 1)
      && s.connects <= cfg.maxAttempts + 1
  }

  predicate Inv(cfg: Config, s: State) {
    StreamInv(s) && LimitInv(cfg, s) && HandlerInv(s) && AttemptsInv(cfg, s)
  }

  lemma SendBufferStream(s: State)
    requires StreamInv(s) && s.started && s.outstanding == 0
    ensures StreamInv(SendBuffer(s))
  {
    hide Concat;
    ConcatAppend(s.handed, s.sendQueue);
    var s' := SendBuffer(s);
    if s.sendQueue != [] { assert Concat(s'.handed) + s'.sendQueue == Concat(s'.handed); }
  }

  lemma AppendStream(s: State, data: seq<Byte>)
    requires StreamInv(s)
    ensures StreamInv(Append(s, data))
  {
    var s1 := s.(sendQueue := s.sendQueue + data, accepted := s.accepted + data);
    assert Concat(s.handed) + (s.sendQueue + data) == (Concat(s.handed) + s.sendQueue) + data;
    assert StreamInv(s1);
    if s1.started && s1.phase == Connected && !s1.sending { SendBufferStream(s1); }
  }

  lemma StepStream(cfg: Config, s: State, e: Event)
    requires StreamInv(s) && Enabled(s, e)
    ensures StreamInv(Next(cfg, s, e))
  {
    hide Accepts, SendBuffer, Append, Concat;
    match e
    case DoSend(data) => AppendStream(s, data);
    case DoSendBatch(b) => AppendStream(s, b.buffer);
    case DoSendDone(r) =>
      if r == Written && s.phase == Connected { SendBufferStream(s.(outstanding := 0)); }
    case DoResume => if !s.sending && s.started { SendBufferStream(s); }
    case DoConnectDone(r) =>
      var s1 := s.(phase := Connected);
      if !s.sending && s.started { SendBufferStream(s1); }
    case DoStartFlushing =>
      var s1 := s.(flushing := true);
      if !s.sending && s.started { SendBufferStream(s1); }
    case _ =>
  }

  /** Under the invariant the unsigned subtractions do not wrap: the checks mean what they say. */
  lemma ChecksAreExact(cfg: Config, s: State, size: nat, largest: nat)
    requires LimitInv(cfg, s) && size < SIZE_MODULUS && cfg.queueLimit < SIZE_MODULUS
    ensures Accepts(cfg, s, size, largest) <==>
            && !s.flushing
            && |s.sendQueue| + size < SIZE_MODULUS
            && (cfg.queueLimit == QUEUE_SIZE_UNLIMITED || |s.sendQueue| + size <= cfg.queueLimit)
            && largest <= cfg.maxMessageSize
  {
  }

  lemma StepLimit(cfg: Config, s: State, e: Event)
    requires LimitInv(cfg, s) && Enabled(s, e) && cfg.queueLimit < SIZE_MODULUS
    ensures LimitInv(cfg, Next(cfg, s, e))
  {
    match e
    case DoSend(data) =>
      hide Accepts;
      ChecksAreExact(cfg, s, |data|, |data|);
    case DoSendBatch(b) =>
      hide Accepts;
      ChecksAreExact(cfg, s, |b.buffer|, b.largest);
    case _ =>
  }

  lemma ReleaseOnce(s: State, error: bool)
    requires HandlerInv(s)
    ensures HandlerInv(Release(s, error))
  {
  }

  lemma SendUnlockHandler(s: State)
    requires HandlerInv(s)
    ensures HandlerInv(SendBuffer(s)) && HandlerInv(SendUnlock(s))
  {
    hide CalledOnce, Release;
    ReleaseOnce(s.(sending := false), false);
  }

  lemma EscalateHandler(s: State)
    requires HandlerInv(s)
    ensures HandlerInv(Escalate(s))
  {
    ReleaseOnce(s.(phase := Failed), true);
  }

  lemma RegisterOnce(s: State)
    requires HandlerInv(s)
    ensures CalledOnce(Some(s.registered), s.registered + 1, s.invoked)
  {
  }

  lemma StepHandler(cfg: Config, s: State, e: Event)
    requires HandlerInv(s) && Enabled(s, e)
    ensures HandlerInv(Next(cfg, s, e))
  {
    hide Accepts, SendBuffer, SendUnlock, Release, Escalate, CalledOnce;
    match e
    case DoResume => SendUnlockHandler(s);
    case DoSend(data) =>
      SendUnlockHandler(s.(sendQueue := s.sendQueue + data, accepted := s.accepted + data));
    case DoSendBatch(b) =>
      SendUnlockHandler(s.(sendQueue := s.sendQueue + b.buffer, accepted := s.accepted + b.buffer));
    case DoConnectDone(r) =>
      SendUnlockHandler(s.(phase := Connected));
      EscalateHandler(s);
      EscalateHandler(s.(reconnects := s.reconnects + 1));
    case DoSendDone(r) =>
      SendUnlockHandler(s.(outstanding := s.outstanding - 1));
      EscalateHandler(s.(outstanding := s.outstanding - 1));
    case DoEscalate => EscalateHandler(s);
    case DoStartFlushing =>
      ReleaseOnce(s.(flushing := true), true);
      SendUnlockHandler(s.(flushing := true));
    case DoRegister => RegisterOnce(s);
    case _ =>
  }

  /** A step that only sends keeps what connecting depends on. */
  predicate PhaseKept(s: State, s': State) {
    s'.phase == s.phase && s'.connects == s.connects && s'.reconnects == s.reconnects
  }

  lemma AppendPhase(s: State, data: seq<Byte>)
    ensures PhaseKept(s, Append(s, data))
  {
  }

  lemma SendBufferPhase(s: State)
    ensures PhaseKept(s, SendBuffer(s)) && PhaseKept(s, SendUnlock(s))
  {
  }

  lemma EscalatePhase(s: State)
    ensures var f := Escalate(s);
            && f.connects == s.connects && f.reconnects == s.reconnects
            && f.phase == if s.phase == Stopped then Stopped else Failed
  {
  }

  /** A connection is established to the routing host or to a peer that is allowed. */
  predicate Admits(cfg: Config, e: Event) {
    e.DoConnectDone? && e.connected.Established? && (cfg.routingPeer || e.connected.allowed)
  }

  /** How a step changes what connecting depends on. */
  lemma StepPhase(cfg: Config, s: State, e: Event)
    requires Enabled(s, e)
    ensures var s' := Next(cfg, s, e);
            || PhaseKept(s, s')
            || s'.phase == Stopped
            || (s'.phase == Failed && s.phase != Stopped && s'.connects == s.connects)
            || (s.phase == Init && s'.phase == Connecting && s'.connects == s.connects + 1 && s'.reconnects == s.reconnects)
            || (s.phase == Connecting && s'.phase == Connected && s'.connects == s.connects && Admits(cfg, e))
            || (s.phase == Connecting && s'.phase == Init && s'.connects == s.connects
                && (cfg.maxAttempts != MAX_RECONNECTS_UNLIMITED ==> s'.reconnects == s.reconnects + 1 <= cfg.maxAttempts))
    ensures Next(cfg, s, e).phase == Stopped ==> Next(cfg, s, e).connects == s.connects
  {
    hide Accepts, Append, SendBuffer, SendUnlock, Escalate, Release;
    match e
    case DoResume => SendBufferPhase(s);
    case DoSend(data) => AppendPhase(s, data);
    case DoSendBatch(b) => AppendPhase(s, b.buffer);
    case DoConnectDone(r) =>
      SendBufferPhase(s.(phase := Connected));
      EscalatePhase(s);
      EscalatePhase(s.(reconnects := s.reconnects + 1));
    case DoSendDone(r) =>
      SendBufferPhase(s.(outstanding := s.outstanding - 1));
      EscalatePhase(s.(outstanding := s.outstanding - 1));
    case DoEscalate => EscalatePhase(s);
    case DoStartFlushing =>
      SendBufferPhase(s.(flushing := true));
      ReleasePhase(s.(flushing := true), true);
    case _ =>
  }

  lemma ReleasePhase(s: State, error: bool)
    ensures PhaseKept(s, Release(s, error))
  {
  }

  lemma StepAttempts(cfg: Config, s: State, e: Event)
    requires AttemptsInv(cfg, s) && Enabled(s, e)
    ensures AttemptsInv(cfg, Next(cfg, s, e))
  {
    StepPhase(cfg, s, e);
    hide Next;
  }

  lemma StepInv(cfg: Config, s: State, e: Event)
    requires Inv(cfg, s) && Enabled(s, e) && cfg.queueLimit < SIZE_MODULUS
    ensures Inv(cfg, Next(cfg, s, e))
  {
    hide StreamInv, LimitInv, HandlerInv, AttemptsInv, Next;
    StepStream(cfg, s, e);
    StepLimit(cfg, s, e);
    StepHandler(cfg, s, e);
    StepAttempts(cfg, s, e);
  }

  /** The invariant holds in every state of every run. */
  lemma {:induction false} RunInv(cfg: Config, ss: seq<State>, es: seq<Event>, k: nat)
    requires IsRun(cfg, ss, es) && IsInitial(ss[0]) && k < |ss| && cfg.queueLimit < SIZE_MODULUS
    ensures Inv(cfg, ss[k])
  {
    if k > 0 {
      RunInv(cfg, ss, es, k - 1);
      StepInv(cfg, ss[k - 1], es[k - 1]);
    }
  }

  // ---------------------------------------------------------------------------- streams

  /**
   Stream refinement. In every state of every run the buffers handed to the socket, in order,
   followed by the send queue are exactly the accepted bytes, and at most one write is outstanding.
   */
  lemma StreamRefinement(cfg: Config, ss: seq<State>, es: seq<Event>, k: nat)
    requires IsRun(cfg, ss, es) && IsInitial(ss[0]) && k < |ss| && cfg.queueLimit < SIZE_MODULUS
    ensures Concat(ss[k].handed) + ss[k].sendQueue == ss[k].accepted && ss[k].outstanding <= 1
    ensures cfg.queueLimit != QUEUE_SIZE_UNLIMITED ==> |ss[k].sendQueue| <= cfg.queueLimit
  {
    RunInv(cfg, ss, es, k);
  }

  predicate HandsOver(s: State, s': State) {
    && |s'.handed| == |s.handed| + 1 && s'.handed[..|s.handed|] == s.handed
    && s'.started && s'.phase == Connected && s'.sending && s'.outstanding == 1 && s'.sendQueue == []
    && s'.handed[|s.handed|] != [] && Concat(s.handed) + s'.handed[|s.handed|] == s'.accepted
  }

  /** A step hands over at most the whole queue, only when started and connected and no write is outstanding. */
  lemma HandOver(cfg: Config, s: State, e: Event)
    requires Inv(cfg, s) && Enabled(s, e)
    ensures var s' := Next(cfg, s, e);
            s'.handed == s.handed || HandsOver(s, s')
  {
    hide Accepts, Concat, LimitInv, HandlerInv, AttemptsInv;
    var s' := Next(cfg, s, e);
    StepStream(cfg, s, e);
    if s'.handed != s.handed {
      var b := s'.handed[|s.handed|];
      assert s'.handed == s.handed + [b];
      ConcatAppend(s.handed, b);
    }
  }

  // -------------------------------------------------------------------------- lifecycle

  /** The transitions between different phases, including those that `trigger_error` adds. */
  predicate Edge(p: Phase, q: Phase) {
    || q == Stopped
    || (p == Init && (q == Connecting || q == Failed))
    || (p == Connecting && (q == Connected || q == Init || q == Failed))
    || (p == Connected && q == Failed)
  }

  lemma StepFollowsEdge(cfg: Config, s: State, e: Event)
    requires Enabled(s, e)
    ensures Next(cfg, s, e).phase == s.phase || Edge(s.phase, Next(cfg, s, e).phase)
  {
    StepPhase(cfg, s, e);
    hide Next;
  }

  /** Every edge is the last step of some run, so the graph is exact. */
  lemma EdgeIsTaken(cfg: Config, p: Phase, q: Phase)
    requires Edge(p, q) && p != q && cfg.maxAttempts > 0
    ensures exists ss, es :: IsRun(cfg, ss, es) && IsInitial(ss[0]) && Ends(ss, p, q)
  {
    var s0 := Create(if p == Connected then Connected else Init);
    var es := if p == Connecting then [DoStart(true)] else if p == Failed then [DoEscalate] else [];
    var ss := if es == [] then [s0] else [s0, Next(cfg, s0, es[0])];
    var e := if q == Stopped then DoStop else if q == Failed then DoEscalate
             else if q == Connecting then DoStart(true)
             else if q == Connected then DoConnectDone(Established(true)) else DoConnectDone(ConnectError);
    assert IsRun(cfg, ss, es) && ss[|es|].phase == p;
    var last := Next(cfg, ss[|es|], e);
    assert last.phase == q;
    assert IsRun(cfg, ss + [last], es + [e]) && Ends(ss + [last], p, q);
  }

  predicate Ends(ss: seq<State>, p: Phase, q: Phase) {
    |ss| >= 2 && ss[|ss| - 2].phase == p && ss[|ss| - 1].phase == q
  }

  function Rank(p: Phase): nat {
    match p
    case Init => 0
    case Connecting => 0
    case Connected => 1
    case Failed => 2
    case Stopped => 3
  }

  lemma {:induction false} RankGrows(cfg: Config, ss: seq<State>, es: seq<Event>, i: nat, j: nat)
    requires IsRun(cfg, ss, es) && i <= j < |ss|
    ensures Rank(ss[i].phase) <= Rank(ss[j].phase)
    decreases j
  {
    if i < j {
      hide Next, Enabled;
      RankGrows(cfg, ss, es, i, j - 1);
      StepFollowsEdge(cfg, ss[j - 1], es[j - 1]);
    }
  }

  /** Stopped is final, Failed leads only to Stopped, and Connected is never entered a second time. */
  lemma Lifecycle(cfg: Config, ss: seq<State>, es: seq<Event>, i: nat, j: nat, k: nat)
    requires IsRun(cfg, ss, es) && i <= j <= k < |ss|
    ensures ss[i].phase == Stopped ==> ss[j].phase == Stopped
    ensures ss[i].phase == Failed ==> ss[j].phase == Failed || ss[j].phase == Stopped
    ensures ss[i].phase == Connected && ss[j].phase != Connected ==> ss[k].phase != Connected
  {
    hide Next, Enabled;
    RankGrows(cfg, ss, es, i, j);
    RankGrows(cfg, ss, es, j, k);
  }

  /** History: how many steps of the run went from Init to Connecting. */
  function Attempts(ss: seq<State>): nat {
    if |ss| < 2 then 0
    else Attempts(ss[..|ss|-1]) + if ss[|ss|-2].phase == Init && ss[|ss|-1].phase == Connecting then 1 else 0
  }

  lemma {:induction false} AttemptsAreConnects(cfg: Config, ss: seq<State>, es: seq<Event>)
    requires IsRun(cfg, ss, es)
    ensures ss[|ss|-1].connects == ss[0].connects + Attempts(ss)
  {
    if |es| > 0 {
      var n := |es| - 1;
      AttemptsAreConnects(cfg, ss[..n + 1], es[..n]);
      CountConnect(cfg, ss[n], es[n]);
    }
  }

  lemma CountConnect(cfg: Config, s: State, e: Event)
    requires Enabled(s, e)
    ensures var s' := Next(cfg, s, e);
            s'.connects == s.connects + if s.phase == Init && s'.phase == Connecting then 1 else 0
  {
    StepPhase(cfg, s, e);
    hide Next;
  }

  /** With a finite maximum, connecting is tried at most once more than the maximum. */
  lemma BoundedAttempts(cfg: Config, ss: seq<State>, es: seq<Event>)
    requires IsRun(cfg, ss, es) && IsInitial(ss[0]) && cfg.queueLimit < SIZE_MODULUS
    requires cfg.maxAttempts != MAX_RECONNECTS_UNLIMITED
    ensures Attempts(ss) <= cfg.maxAttempts + 1
  {
    hide Next, Enabled, StreamInv, LimitInv, HandlerInv;
    AttemptsAreConnects(cfg, ss, es);
    RunInv(cfg, ss, es, |es|);
  }

  // ----------------------------------------------------------------- cleanup and flushing

  /** Over a whole run no cleanup handler is called more than once. */
  lemma CleanupOnce(cfg: Config, ss: seq<State>, es: seq<Event>, k: nat, i: nat, j: nat)
    requires IsRun(cfg, ss, es) && IsInitial(ss[0]) && k < |ss| && cfg.queueLimit < SIZE_MODULUS
    requires i < j < |ss[k].invoked|
    ensures ss[k].invoked[i].handler != ss[k].invoked[j].handler
  {
    hide Next, Enabled, StreamInv, LimitInv, AttemptsInv;
    RunInv(cfg, ss, es, k);
  }

  /** What holds when a cleanup handler is called: with an error, or with everything sent. */
  predicate MayCall(s: State, error: bool) {
    if error then s.phase == Failed || (s.phase == Init && s.flushing)
    else s.flushing && s.outstanding == 0 && Concat(s.handed) == s.accepted
  }

  /**
   A step calls at most the registered handler. Without error it does so only when flushing has
   handed over every accepted byte and no write is outstanding.
   */
  lemma HandlerCalls(cfg: Config, s: State, e: Event)
    requires Inv(cfg, s) && Enabled(s, e)
    ensures var s' := Next(cfg, s, e);
            || s'.invoked == s.invoked
            || exists error :: s.handler.Some? && s'.handler.None? && MayCall(s', error)
                               && s'.invoked == s.invoked + [Invocation(s.handler.value, error)]
  {
    hide Accepts, Concat, LimitInv, HandlerInv, AttemptsInv;
    var s' := Next(cfg, s, e);
    StepStream(cfg, s, e);
    if s'.invoked != s.invoked {
      var error := s'.invoked[|s.invoked|].error;
      assert s'.invoked == s.invoked + [Invocation(s.handler.value, error)];
      assert Concat(s'.handed) + [] == Concat(s'.handed);
      assert MayCall(s', error);
    }
  }

  /**
   An endpoint becomes connected only by establishing a connection, and to any other peer than
   the routing host only if that is allowed.
   */
  lemma ConnectsOnlyIfAdmitted(cfg: Config, s: State, e: Event)
    requires Enabled(s, e)
    ensures s.phase != Connected && Next(cfg, s, e).phase == Connected ==> s.phase == Connecting && Admits(cfg, e)
  {
    StepPhase(cfg, s, e);
    hide Next;
  }

  predicate Called(invoked: seq<Invocation>, h: nat) {
    exists i :: 0 <= i < |invoked| && invoked[i].handler == h
  }

  lemma CalledStays(invoked: seq<Invocation>, more: Invocation, h: nat)
    ensures Called(invoked, h) || more.handler == h ==> Called(invoked + [more], h)
  {
    if Called(invoked, h) {
      var i :| 0 <= i < |invoked| && invoked[i].handler == h;
      assert (invoked + [more])[i].handler == h;
    }
    assert (invoked + [more])[|invoked|] == more;
  }

  /** Writes are aborted by closing the socket, and an open connection is closed only by a stop. */
  predicate Sound(s: State, e: Event) {
    e == DoSendDone(WriteAborted) ==> s.phase != Connected
  }

  ghost predicate IsSoundRun(cfg: Config, ss: seq<State>, es: seq<Event>) {
    IsRun(cfg, ss, es) && IsInitial(ss[0]) && forall i :: 0 <= i < |es| ==> Sound(ss[i], es[i])
  }

  /** The sending flag is exact as long as the endpoint is connected, and was not set before. */
  predicate WritingInv(s: State) {
    && s.outstanding <= 1
    && (s.phase == Init || s.phase == Connecting ==> !s.sending && s.outstanding == 0)
    && (s.phase == Connected ==> (s.sending <==> s.outstanding == 1))
  }

  lemma SendBufferWriting(s: State)
    requires s.phase == Connected && s.outstanding == 0
    ensures WritingInv(SendBuffer(s))
  {
  }

  lemma SendUnlockWriting(s: State)
    requires WritingInv(s)
    ensures WritingInv(SendUnlock(s))
  {
    if s.phase == Connected && !s.sending { SendBufferWriting(s); }
  }

  lemma EscalateWriting(s: State)
    requires s.outstanding <= 1
    ensures WritingInv(Escalate(s))
  {
  }

  lemma ReleaseWriting(s: State, error: bool)
    requires WritingInv(s)
    ensures WritingInv(Release(s, error))
  {
  }

  lemma StepWriting(cfg: Config, s: State, e: Event)
    requires WritingInv(s) && Enabled(s, e) && Sound(s, e)
    ensures WritingInv(Next(cfg, s, e))
  {
    hide Accepts, SendBuffer, SendUnlock, Escalate, Release;
    match e
    case DoResume => SendUnlockWriting(s);
    case DoSend(data) => SendUnlockWriting(s.(sendQueue := s.sendQueue + data, accepted := s.accepted + data));
    case DoSendBatch(b) => SendUnlockWriting(s.(sendQueue := s.sendQueue + b.buffer, accepted := s.accepted + b.buffer));
    case DoConnectDone(r) =>
      if s.phase == Connecting { SendUnlockWriting(s.(phase := Connected)); }
      EscalateWriting(s);
      EscalateWriting(s.(reconnects := s.reconnects + 1));
    case DoSendDone(r) =>
      if s.phase == Connected { SendBufferWriting(s.(outstanding := s.outstanding - 1)); }
      EscalateWriting(s.(outstanding := s.outstanding - 1));
    case DoEscalate => EscalateWriting(s);
    case DoStartFlushing =>
      SendUnlockWriting(s.(flushing := true));
      ReleaseWriting(s.(flushing := true), true);
    case _ =>
  }

  /** In every state of a sound run, a connected endpoint that is sending has one write outstanding. */
  lemma {:induction false} RunWriting(cfg: Config, ss: seq<State>, es: seq<Event>, k: nat)
    requires IsSoundRun(cfg, ss, es) && k < |ss|
    ensures WritingInv(ss[k])
  {
    if k > 0 {
      hide Next, Enabled, Sound, WritingInv;
      RunWriting(cfg, ss, es, k - 1);
      StepWriting(cfg, ss[k - 1], es[k - 1]);
    } else {
      assert WritingInv(ss[0]);
    }
  }

  /** No stop and no new handler. */
  predicate Undisturbed(e: Event) {
    e != DoStop && e != DoRegister
  }

  /** The number of successful completions still possible. */
  function Budget(s: State): nat {
    s.outstanding + if s.phase == Connected && s.sendQueue != [] then 1 else 0
  }

  predicate FlushInv(s: State, h: nat, n: nat) {
    && s.flushing && s.started && n + Budget(s) <= 2 && s.outstanding <= 1
    && (s.phase == Connected || s.phase == Failed)
    && (s.phase == Connected ==> (s.sending <==> s.outstanding == 1) && (s.sendQueue != [] ==> s.outstanding == 1))
    && (Called(s.invoked, h) || (s.handler == Some(h) && s.phase == Connected && s.outstanding == 1))
  }

  function Success(e: Event): nat {
    if e == DoSendDone(Written) then 1 else 0
  }

  lemma SendBufferFlush(s: State, h: nat, n: nat)
    requires s.flushing && s.started && s.phase == Connected && s.outstanding == 0
    requires n + (if s.sendQueue == [] then 0 else 1) <= 2
    requires Called(s.invoked, h) || s.handler == Some(h)
    ensures FlushInv(SendBuffer(s), h, n)
  {
    hide Called;
    if s.handler.Some? { CalledStays(s.invoked, Invocation(s.handler.value, false), h); }
  }

  lemma EscalateFlush(s: State, h: nat, n: nat)
    requires s.flushing && s.started && n + s.outstanding <= 2 && s.outstanding <= 1
    requires s.phase == Connected || s.phase == Failed
    requires Called(s.invoked, h) || (s.handler == Some(h) && s.phase == Connected)
    ensures FlushInv(Escalate(s), h, n)
  {
    hide Called;
    if s.handler.Some? { CalledStays(s.invoked, Invocation(s.handler.value, true), h); }
  }

  lemma StepFlush(cfg: Config, s: State, e: Event, h: nat, n: nat)
    requires FlushInv(s, h, n) && Enabled(s, e) && Undisturbed(e) && Sound(s, e)
    ensures FlushInv(Next(cfg, s, e), h, n + Success(e))
  {
    hide Accepts, SendBuffer, Escalate, Called;
    match e
    case DoSendDone(r) =>
      var s1 := s.(outstanding := s.outstanding - 1);
      if r == Written && s.phase == Connected { SendBufferFlush(s1, h, n + 1); }
      if r == WriteFailed { EscalateFlush(s1, h, n); }
    case DoEscalate => EscalateFlush(s, h, n);
    case DoResume =>
      if s.phase == Connected && !s.sending { SendBufferFlush(s, h, n); }
    case DoStartFlushing =>
      if s.phase == Connected && !s.sending { SendBufferFlush(s, h, n); }
    case DoSend(_) => RejectsWhileFlushing(cfg, s);
    case DoSendBatch(_) => RejectsWhileFlushing(cfg, s);
    case _ =>
  }

  lemma RejectsWhileFlushing(cfg: Config, s: State)
    requires s.flushing
    ensures forall size: nat, largest: nat :: !Accepts(cfg, s, size, largest)
  {
  }

  function Successes(es: seq<Event>): nat {
    if es == [] then 0 else Successes(es[..|es|-1]) + Success(es[|es|-1])
  }

  lemma {:induction false} RunFlush(cfg: Config, ss: seq<State>, es: seq<Event>, h: nat)
    requires IsRun(cfg, ss, es) && FlushInv(ss[0], h, 0)
    requires forall i :: 0 <= i < |es| ==> Undisturbed(es[i]) && Sound(ss[i], es[i])
    ensures FlushInv(ss[|es|], h, Successes(es))
  {
    if es != [] {
      hide Next, Enabled, FlushInv, Success, Sound, Undisturbed;
      var n := |es| - 1;
      RunFlush(cfg, ss[..|es|], es[..n], h);
      StepFlush(cfg, ss[n], es[n], h, Successes(es[..n]));
    }
  }

  /**
   Flushing terminates. In every sound run, after a started and connected endpoint with cleanup
   handler `h` starts flushing and while it is neither stopped nor given a new handler, at most two
   more writes complete successfully, and with the second completion at the latest the handler
   has been called; until then a write is outstanding.
   */
  lemma FlushTerminates(cfg: Config, ss: seq<State>, es: seq<Event>, k: nat, h: nat)
    requires IsSoundRun(cfg, ss, es) && k < |es| && es[k] == DoStartFlushing
    requires ss[k].started && ss[k].phase == Connected && ss[k].handler == Some(h)
    requires forall i :: k < i < |es| ==> Undisturbed(es[i])
    ensures Successes(es[k + 1..]) <= 2
    ensures Successes(es[k + 1..]) == 2 ==> Called(ss[|es|].invoked, h)
    ensures Called(ss[|es|].invoked, h) || ss[|es|].outstanding == 1
  {
    hide Called, Undisturbed, Sound, SendBuffer;
    RunWriting(cfg, ss, es, k);
    var s := ss[k];
    if !s.sending { SendBufferFlush(s.(flushing := true), h, 0); }
    assert FlushInv(ss[k + 1], h, 0);
    hide FlushInv, Next, Enabled;
    RunFlush(cfg, ss[k + 1..], es[k + 1..], h);
    assert ss[k + 1..][|es| - k - 1] == ss[|es|];
    FlushEnds(ss[|es|], h, Successes(es[k + 1..]));
  }

  lemma FlushEnds(s: State, h: nat, n: nat)
    requires FlushInv(s, h, n)
    ensures n <= 2 && (n == 2 ==> Called(s.invoked, h)) && (Called(s.invoked, h) || s.outstanding == 1)
  {
  }

  predicate StuckInv(s: State, h: nat) {
    && s.phase == Connected && s.started && s.sending && s.outstanding == 0 && s.flushing
    && s.handler == Some(h) && !Called(s.invoked, h)
  }

  lemma {:induction false} RunStuck(cfg: Config, ss: seq<State>, es: seq<Event>, h: nat)
    requires IsRun(cfg, ss, es) && StuckInv(ss[0], h)
    requires forall i :: 0 <= i < |es| ==> Undisturbed(es[i]) && es[i] != DoEscalate
    ensures StuckInv(ss[|es|], h)
  {
    if es != [] {
      var n := |es| - 1;
      RunStuck(cfg, ss[..|es|], es[..n], h);
      hide Called, IsRun;
      assert ss[n + 1] == Next(cfg, ss[n], es[n]);
      RejectsWhileFlushing(cfg, ss[n]);
    }
  }

  /**
   What soundness excludes: a write aborted while connected would leave the sending flag set, and
   from then on a flush would neither hand anything over nor call the handler, unless the endpoint
   fails or is stopped.
   */
  lemma AbortedWriteBlocksFlush(cfg: Config, ss: seq<State>, es: seq<Event>, before: State, h: nat)
    requires before.started && before.phase == Connected && before.handler == Some(h) && !Called(before.invoked, h)
    requires before.sending && before.outstanding == 1
    requires IsRun(cfg, ss, es) && ss[0] == Next(cfg, Next(cfg, before, DoSendDone(WriteAborted)), DoStartFlushing)
    requires forall i :: 0 <= i < |es| ==> Undisturbed(es[i]) && es[i] != DoEscalate
    ensures !Called(ss[|es|].invoked, h) && ss[|es|].outstanding == 0
  {
    assert StuckInv(ss[0], h);
    RunStuck(cfg, ss, es, h);
  }

  // ---------------------------------------------------------------------------- batches

  lemma {:induction false} BuildCollects(commands: seq<seq<Byte>>)
    ensures Build(commands).buffer == Concat(commands)
    ensures forall i :: 0 <= i < |commands| ==> |commands[i]| <= Build(commands).largest
    ensures Build(commands).largest == 0 || exists i :: 0 <= i < |commands| && |commands[i]| == Build(commands).largest
  {
    if commands != [] {
      var n := |commands| - 1;
      var init := commands[..n];
      BuildCollects(init);
      if Build(commands).largest != 0 {
        if Build(init).largest != 0 && Build(commands).largest == Build(init).largest {
          var i :| 0 <= i < |init| && |init[i]| == Build(init).largest;
          assert |commands[i]| == Build(commands).largest;
        } else {
          assert |commands[n]| == Build(commands).largest;
        }
      }
      forall i | 0 <= i < |commands| ensures |commands[i]| <= Build(commands).largest {
        if i < n { assert commands[i] == init[i]; }
      }
    }
  }

  function SendAll(cfg: Config, s: State, commands: seq<seq<Byte>>): State {
    if commands == [] then s else Send(cfg, SendAll(cfg, s, commands[..|commands|-1]), commands[|commands|-1])
  }

  /** A batch fits: not flushing, room for all of it, and no command too large. */
  predicate Fits(cfg: Config, s: State, commands: seq<seq<Byte>>) {
    && !s.flushing
    && |s.sendQueue| + |Concat(commands)| < SIZE_MODULUS
    && (cfg.queueLimit == QUEUE_SIZE_UNLIMITED || |s.sendQueue| + |Concat(commands)| <= cfg.queueLimit)
    && forall i :: 0 <= i < |commands| ==> |commands[i]| <= cfg.maxMessageSize
  }

  lemma AppendKeeps(s: State, data: seq<Byte>)
    ensures var s' := Append(s, data);
            && s'.accepted == s.accepted + data && |s'.sendQueue| <= |s.sendQueue| + |data|
            && s'.flushing == s.flushing
  {
  }

  lemma OneIsAccepted(cfg: Config, s: State, data: seq<Byte>)
    requires LimitInv(cfg, s) && cfg.queueLimit < SIZE_MODULUS && StreamInv(s) && !s.flushing
    requires |s.sendQueue| + |data| < SIZE_MODULUS && |data| <= cfg.maxMessageSize
    requires cfg.queueLimit == QUEUE_SIZE_UNLIMITED || |s.sendQueue| + |data| <= cfg.queueLimit
    ensures Accepts(cfg, s, |data|, |data|)
    ensures var s' := Send(cfg, s, data);
            && !s'.flushing && LimitInv(cfg, s') && StreamInv(s')
            && |s'.sendQueue| <= |s.sendQueue| + |data| && s'.accepted == s.accepted + data
  {
    hide StreamInv, Accepts, Append;
    ChecksAreExact(cfg, s, |data|, |data|);
    AppendKeeps(s, data);
    AppendStream(s, data);
  }

  /** One by one, every command of a batch that fits is accepted. */
  lemma {:induction false} EachIsAccepted(cfg: Config, s: State, commands: seq<seq<Byte>>)
    requires LimitInv(cfg, s) && cfg.queueLimit < SIZE_MODULUS && StreamInv(s) && Fits(cfg, s, commands)
    ensures var s' := SendAll(cfg, s, commands);
            && !s'.flushing && LimitInv(cfg, s') && StreamInv(s')
            && |s'.sendQueue| <= |s.sendQueue| + |Concat(commands)|
            && s'.accepted == s.accepted + Concat(commands)
    ensures commands != [] ==>
              var last := commands[|commands|-1];
              Accepts(cfg, SendAll(cfg, s, commands[..|commands|-1]), |last|, |last|)
  {
    if commands != [] {
      var n := |commands| - 1;
      var init, last := commands[..n], commands[n];
      forall i | 0 <= i < n ensures |init[i]| <= cfg.maxMessageSize { assert init[i] == commands[i]; }
      hide StreamInv, LimitInv, Accepts, Send;
      EachIsAccepted(cfg, s, init);
      OneIsAccepted(cfg, SendAll(cfg, s, init), last);
      assert s.accepted + Concat(commands) == (s.accepted + Concat(init)) + last;
    }
  }

  lemma {:induction false} PrefixFits(cfg: Config, s: State, commands: seq<seq<Byte>>, k: nat)
    requires Fits(cfg, s, commands) && k <= |commands|
    ensures Fits(cfg, s, commands[..k])
    decreases |commands| - k
  {
    if k < |commands| {
      PrefixFits(cfg, s, commands, k + 1);
      var longer := commands[..k + 1];
      assert longer[..k] == commands[..k];
      assert forall i :: 0 <= i < k ==> commands[..k][i] == longer[i];
    } else {
      assert commands[..k] == commands;
    }
  }

  /**
   Batch refinement. If a batch of commands is accepted, then so is each command sent on its
   own in the same order, and both ways contribute the same bytes to the stream.
   */
  lemma BatchRefinement(cfg: Config, s: State, commands: seq<seq<Byte>>, k: nat)
    requires Inv(cfg, s) && cfg.queueLimit < SIZE_MODULUS && k < |commands|
    requires Build(commands).buffer != [] && |Build(commands).buffer| < SIZE_MODULUS
    requires AcceptsBatch(cfg, s, Build(commands))
    ensures Accepts(cfg, SendAll(cfg, s, commands[..k]), |commands[k]|, |commands[k]|)
    ensures var one, all := SendBatch(cfg, s, Build(commands)), SendAll(cfg, s, commands);
            && one.accepted == all.accepted == s.accepted + Concat(commands)
            && Concat(one.handed) + one.sendQueue == Concat(all.handed) + all.sendQueue
  {
    hide HandlerInv, AttemptsInv, Accepts, Append, SendAll, Build, Concat;
    BuildCollects(commands);
    var b := Build(commands);
    ChecksAreExact(cfg, s, |b.buffer|, b.largest);
    assert Fits(cfg, s, commands);
    EachIsAccepted(cfg, s, commands);
    AppendStream(s, b.buffer);
    AppendKeeps(s, b.buffer);
    PrefixFits(cfg, s, commands, k + 1);
    EachIsAccepted(cfg, s, commands[..k + 1]);
    assert commands[..k + 1][..k] == commands[..k];
  }

  /** An empty batch is accepted in any state, even while flushing, and changes nothing. */
  lemma EmptyBatchIsAccepted(cfg: Config, s: State, commands: seq<seq<Byte>>)
    requires forall i :: 0 <= i < |commands| ==> commands[i] == []
    ensures AcceptsBatch(cfg, s, Build(commands)) && SendBatch(cfg, s, Build(commands)) == s
  {
    NothingBuilt(commands);
  }

  lemma {:induction false} NothingBuilt(commands: seq<seq<Byte>>)
    requires forall i :: 0 <= i < |commands| ==> commands[i] == []
    ensures Build(commands) == EmptyBatch
  {
    if commands != [] { NothingBuilt(commands[..|commands|-1]); }
  }
}
