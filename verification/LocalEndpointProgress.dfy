/**
 What a local endpoint does and not only what it never does: queued data goes on to be written,
 connecting is retried exactly as often as allowed, and every change of phase, flag and handler has
 exactly the causes listed here.
 */
module LocalEndpointProgress {
  import opened Common
  import opened LocalEndpoint
  import opened LocalEndpointProofs

  // -------------------------------------------------------------------- queued data goes on

  /** A started and connected endpoint with queued data has a write outstanding. */
  predicate Busy(s: State) {
    s.started && s.phase == Connected && s.sendQueue != [] ==> s.outstanding == 1
  }

  lemma SendUnlockBusy(s: State)
    requires WritingInv(s)
    ensures Busy(SendUnlock(s))
  {
  }

  lemma EscalateBusy(s: State)
    ensures Busy(Escalate(s))
  {
  }

  /** Only a start of an endpoint that is connected already leaves data waiting, for its posted part. */
  lemma StepBusy(cfg: Config, s: State, e: Event)
    requires WritingInv(s) && Busy(s) && Enabled(s, e) && Sound(s, e)
    requires e.DoStart? ==> s.started || s.phase != Connected
    ensures Busy(Next(cfg, s, e))
  {
    hide Accepts, SendUnlock, Escalate;
    match e
    case DoResume => SendUnlockBusy(s);
    case DoSend(data) => SendUnlockBusy(s.(sendQueue := s.sendQueue + data, accepted := s.accepted + data));
    case DoSendBatch(b) => SendUnlockBusy(s.(sendQueue := s.sendQueue + b.buffer, accepted := s.accepted + b.buffer));
    case DoConnectDone(r) =>
      if s.phase == Connecting { SendUnlockBusy(s.(phase := Connected)); }
      EscalateBusy(s);
      EscalateBusy(s.(reconnects := s.reconnects + 1));
    case DoSendDone(r) => EscalateBusy(s.(outstanding := s.outstanding - 1));
    case DoEscalate => EscalateBusy(s);
    case DoStartFlushing => SendUnlockBusy(s.(flushing := true));
    case _ =>
  }

  /** The endpoint is running: started before it was connected, or with the posted part of its start done. */
  predicate Launches(s: State, e: Event) {
    (e.DoStart? && s.phase != Connected) || (e == DoResume && s.started)
  }

  lemma LaunchedBusy(cfg: Config, s: State, e: Event)
    requires WritingInv(s) && Enabled(s, e) && Launches(s, e)
    ensures Busy(Next(cfg, s, e)) && Next(cfg, s, e).started
  {
    if e == DoResume { SendUnlockBusy(s); }
  }

  lemma StaysStarted(cfg: Config, s: State, e: Event)
    requires Enabled(s, e)
    ensures Next(cfg, s, e).started <==> s.started || e.DoStart?
  {
    hide Accepts;
  }

  /**
   Queued data goes on. In every sound run, from where the endpoint is running, a connected endpoint
   with queued data has a write outstanding, whose completion hands over that data.
   */
  lemma {:induction false} QueueGoesOn(cfg: Config, ss: seq<State>, es: seq<Event>, j: nat, k: nat)
    requires IsSoundRun(cfg, ss, es) && j < k < |ss| && Launches(ss[j], es[j])
    ensures ss[k].started && (ss[k].phase == Connected && ss[k].sendQueue != [] ==> ss[k].outstanding == 1)
    decreases k
  {
    hide Next, Enabled, Sound, WritingInv;
    RunWriting(cfg, ss, es, k - 1);
    if j == k - 1 {
      LaunchedBusy(cfg, ss[j], es[j]);
    } else {
      QueueGoesOn(cfg, ss, es, j, k - 1);
      StepBusy(cfg, ss[k - 1], es[k - 1]);
      StaysStarted(cfg, ss[k - 1], es[k - 1]);
    }
  }

  /** Nothing is handed to the socket before the endpoint is started. */
  lemma {:induction false} NotBeforeStart(cfg: Config, ss: seq<State>, es: seq<Event>, k: nat)
    requires IsRun(cfg, ss, es) && IsInitial(ss[0]) && k < |ss| && cfg.queueLimit < SIZE_MODULUS
    requires forall i :: 0 <= i < k ==> !es[i].DoStart?
    ensures !ss[k].started && ss[k].handed == [] && ss[k].accepted == ss[k].sendQueue
  {
    if k > 0 {
      hide Next, Enabled;
      NotBeforeStart(cfg, ss, es, k - 1);
      StaysStarted(cfg, ss[k - 1], es[k - 1]);
    }
    hide LimitInv, HandlerInv, AttemptsInv;
    RunInv(cfg, ss, es, k);
    assert Concat([]) + ss[k].sendQueue == ss[k].sendQueue;
  }

  /** A write that completes hands over exactly the data queued meanwhile, or ends the sending. */
  lemma WrittenGoesOn(cfg: Config, s: State)
    requires s.outstanding > 0 && s.phase == Connected
    ensures var s' := Next(cfg, s, DoSendDone(Written));
            if s.sendQueue == [] then s'.handed == s.handed && !s'.sending && s'.outstanding == s.outstanding - 1
            else s'.handed == s.handed + [s.sendQueue] && s'.sendQueue == [] && s'.sending && s'.outstanding == s.outstanding
  {
  }

  /**
   Everything gets written: wherever a running endpoint is connected in a sound run, all bytes
   accepted so far are with the socket and no write is outstanding after at most two completions.
   */
  lemma TwoWritesSuffice(cfg: Config, ss: seq<State>, es: seq<Event>, j: nat, k: nat)
    requires IsSoundRun(cfg, ss, es) && j < k < |ss| && Launches(ss[j], es[j]) && cfg.queueLimit < SIZE_MODULUS
    requires ss[k].phase == Connected
    ensures var s := ss[k]; var once := if s.outstanding == 0 then s else SendDone(s, Written);
            var twice := if once.outstanding == 0 then once else SendDone(once, Written);
            Concat(twice.handed) == s.accepted && twice.outstanding == 0
  {
    QueueGoesOn(cfg, ss, es, j, k);
    RunInv(cfg, ss, es, k);
    hide IsSoundRun, IsRun, Concat, LimitInv, HandlerInv, AttemptsInv;
    var s := ss[k];
    if s.sendQueue == [] { assert Concat(s.handed) + [] == Concat(s.handed); }
    ConcatAppend(s.handed, s.sendQueue);
  }

  // --------------------------------------------------------------------- connecting again

  predicate Retries(cfg: Config, s: State, e: Event) {
    && s.phase == Connecting && e == DoConnectDone(ConnectError) && !s.flushing
    && (cfg.maxAttempts == MAX_RECONNECTS_UNLIMITED || s.reconnects + 1 <= cfg.maxAttempts)
  }

  predicate Fails(cfg: Config, s: State, e: Event) {
    || e == DoEscalate
    || e == DoSendDone(WriteFailed)
    || (s.phase == Connecting && e.DoConnectDone? && !Admits(cfg, e) && !Retries(cfg, s, e))
  }

  /** Which steps enter which phase. */
  lemma PhasesExactly(cfg: Config, s: State, e: Event)
    requires Enabled(s, e)
    ensures var q := Next(cfg, s, e).phase;
            && (q == Stopped <==> s.phase == Stopped || e == DoStop)
            && (q == Connecting && s.phase != Connecting <==>
                s.phase == Init && ((e.DoStart? && e.hasConfig) || (e.DoRetry? && e.hasConfig)))
            && (q == Connected && s.phase != Connected <==> s.phase == Connecting && Admits(cfg, e))
            && (q == Init && s.phase != Init <==> Retries(cfg, s, e))
            && (q == Failed && s.phase != Failed <==> s.phase != Stopped && s.phase != Failed && Fails(cfg, s, e))
  {
    hide Accepts, Append, SendBuffer, SendUnlock, Escalate, Release;
    match e
    case DoResume => SendBufferPhase(s);
    case DoSend(data) => AppendPhase(s, data);
    case DoSendBatch(b) => AppendPhase(s, b.buffer);
    case DoConnectDone(r) =>
      SendBufferPhase(s.(phase := Connected));
      EscalatePhase(s);
      EscalatePhase(s.(reconnects := s.reconnects + 1));
    case DoSendDone(r) =>
      SendBufferPhase(s.(outstanding := s.outstanding - 1));
      EscalatePhase(s.(outstanding := s.outstanding - 1));
    case DoEscalate => EscalatePhase(s);
    case DoStartFlushing =>
      SendBufferPhase(s.(flushing := true));
      ReleasePhase(s.(flushing := true), true);
    case _ =>
  }

  /**
   Giving up, exactly. In every run, a connect error that no flush is waiting for makes the endpoint
   fail if and only if connecting has been tried once more than the maximum; otherwise it is tried
   again.
   */
  lemma GivesUpExactly(cfg: Config, ss: seq<State>, es: seq<Event>, k: nat)
    requires IsRun(cfg, ss, es) && IsInitial(ss[0]) && k < |es| && cfg.queueLimit < SIZE_MODULUS
    requires ss[k].phase == Connecting && es[k] == DoConnectDone(ConnectError) && !ss[k].flushing
    ensures ss[k + 1].phase ==
            if cfg.maxAttempts != MAX_RECONNECTS_UNLIMITED && Attempts(ss[..k + 1]) == cfg.maxAttempts + 1 then Failed else Init
  {
    hide Next, Enabled, StreamInv, LimitInv, HandlerInv;
    RunInv(cfg, ss, es, k);
    AttemptsAreConnects(cfg, ss[..k + 1], es[..k]);
    assert ss[..k + 1][k] == ss[k];
    PhasesExactly(cfg, ss[k], es[k]);
    assert ss[k + 1] == Next(cfg, ss[k], es[k]);
    StepFollowsEdge(cfg, ss[k], es[k]);
  }

  /** A client endpoint after `n` attempts that all end with a connect error. */
  function FailedAttempts(cfg: Config, n: nat): State {
    if n == 0 then Create(Init)
    else
      var e := if n == 1 then DoStart(true) else DoRetry(true);
      Next(cfg, Next(cfg, FailedAttempts(cfg, n - 1), e), DoConnectDone(ConnectError))
  }

  lemma OneMoreAttempt(cfg: Config, s: State, e: Event)
    requires s.phase == Init && !s.flushing && s.reconnects <= cfg.maxAttempts && cfg.maxAttempts != MAX_RECONNECTS_UNLIMITED
    requires e == DoStart(true) || e == DoRetry(true)
    ensures var s' := Next(cfg, Next(cfg, s, e), DoConnectDone(ConnectError));
            && s'.connects == s.connects + 1 && s'.reconnects == s.reconnects + 1 && !s'.flushing
            && s'.phase == if s.reconnects == cfg.maxAttempts then Failed else Init
  {
    hide SendUnlock;
  }

  /** A peer that is never reached is tried the maximum number of times and once more, and not given up before. */
  lemma {:induction false} TriedToTheEnd(cfg: Config, n: nat)
    requires n <= cfg.maxAttempts + 1 && cfg.maxAttempts != MAX_RECONNECTS_UNLIMITED
    ensures var s := FailedAttempts(cfg, n);
            && s.connects == n && s.reconnects == n && !s.flushing
            && s.phase == if n == cfg.maxAttempts + 1 then Failed else Init
  {
    if n > 0 {
      hide Next;
      TriedToTheEnd(cfg, n - 1);
      OneMoreAttempt(cfg, FailedAttempts(cfg, n - 1), if n == 1 then DoStart(true) else DoRetry(true));
    }
  }

  // -------------------------------------------------------------------- flags and handlers

  predicate GivesUpFlush(s: State, e: Event) {
    e == DoStartFlushing && s.started && s.phase == Init
  }

  /** The step finds nothing left to send for a flush. */
  predicate FindsNothing(cfg: Config, s: State, e: Event) {
    && s.sendQueue == []
    && (|| (e == DoSendDone(Written) && s.phase == Connected && s.flushing)
        || (e == DoResume && s.started && s.phase == Connected && !s.sending && s.flushing)
        || (e == DoStartFlushing && s.started && s.phase == Connected && !s.sending)
        || (s.phase == Connecting && Admits(cfg, e) && s.started && !s.sending && s.flushing))
  }

  lemma ReleaseCalls(s: State, error: bool)
    ensures var s' := Release(s, error);
            && s'.invoked == (if s.handler.Some? then s.invoked + [Invocation(s.handler.value, error)] else s.invoked)
            && s' == s.(handler := None, invoked := s'.invoked)
  {
  }

  lemma SendUnlockCalls(s: State)
    ensures var s' := SendUnlock(s);
            var calls := s.started && s.phase == Connected && !s.sending && s.flushing && s.sendQueue == [] && s.handler.Some?;
            && s'.invoked == (if calls then s.invoked + [Invocation(s.handler.value, false)] else s.invoked)
            && s'.handler == (if calls then None else s.handler)
            && s'.registered == s.registered && s'.flushing == s.flushing
  {
  }

  lemma EscalateCalls(s: State)
    ensures var s' := Escalate(s); var calls := s.phase != Failed && s.phase != Stopped && s.handler.Some?;
            && s'.invoked == (if calls then s.invoked + [Invocation(s.handler.value, true)] else s.invoked)
            && s'.handler == (if calls then None else s.handler)
            && s'.registered == s.registered && s'.flushing == s.flushing
  {
  }

  predicate Errs(cfg: Config, s: State, e: Event) {
    (s.phase != Stopped && s.phase != Failed && Fails(cfg, s, e)) || GivesUpFlush(s, e)
  }

  predicate CallsAsDue(cfg: Config, s: State, e: Event, s': State) {
    var calls := s.handler.Some? && (Errs(cfg, s, e) || FindsNothing(cfg, s, e));
    && s'.invoked == (if calls then s.invoked + [Invocation(s.handler.value, Errs(cfg, s, e))] else s.invoked)
    && s'.handler == (if e == DoRegister then Some(s.registered) else if calls then None else s.handler)
    && s'.registered == s.registered + (if e == DoRegister then 1 else 0)
    && (s'.flushing <==> s.flushing || (e == DoStartFlushing && s.started && s.phase != Failed && s.phase != Stopped))
  }

  lemma AppendCalls(cfg: Config, s: State, e: Event, data: seq<Byte>)
    requires !s.flushing && (e == DoSend(data) || (e.DoSendBatch? && e.batch.buffer == data))
    ensures CallsAsDue(cfg, s, e, Append(s, data)) && CallsAsDue(cfg, s, e, s)
  {
    SendUnlockCalls(s.(sendQueue := s.sendQueue + data, accepted := s.accepted + data));
    hide SendUnlock;
  }

  lemma ConnectDoneCalls(cfg: Config, s: State, r: ConnectResult)
    ensures CallsAsDue(cfg, s, DoConnectDone(r), ConnectDone(cfg, s, r))
  {
    SendUnlockCalls(s.(phase := Connected));
    EscalateCalls(s);
    EscalateCalls(s.(reconnects := s.reconnects + 1));
    hide SendUnlock, Escalate;
  }

  lemma SendDoneCalls(cfg: Config, s: State, r: WriteResult)
    requires s.outstanding > 0
    ensures CallsAsDue(cfg, s, DoSendDone(r), SendDone(s, r))
  {
    EscalateCalls(s.(outstanding := s.outstanding - 1));
    ReleaseCalls(s.(outstanding := s.outstanding - 1, sending := false), false);
    hide Escalate, Release;
  }

  lemma StartFlushingCalls(cfg: Config, s: State)
    ensures CallsAsDue(cfg, s, DoStartFlushing, StartFlushing(s))
  {
    SendUnlockCalls(s.(flushing := true));
    ReleaseCalls(s.(flushing := true), true);
    hide SendUnlock, Release;
  }

  /**
   Which steps call the cleanup handler: with an error exactly those that fail the endpoint or flush
   it while nothing was ever connected, and without one exactly those at which a flush finds nothing
   left to send. Only a registration gives a new handler, and only a flush of a started endpoint that
   has not failed or stopped sets the flag.
   */
  lemma CallsExactly(cfg: Config, s: State, e: Event)
    requires Enabled(s, e)
    ensures CallsAsDue(cfg, s, e, Next(cfg, s, e))
  {
    match e
    case DoResume =>
      SendUnlockCalls(s);
      hide SendUnlock;
    case DoSend(data) =>
      hide Accepts, Append;
      if s.flushing { RejectsWhileFlushing(cfg, s); } else { AppendCalls(cfg, s, e, data); }
    case DoSendBatch(b) =>
      hide Accepts, Append;
      if s.flushing { RejectsWhileFlushing(cfg, s); } else { AppendCalls(cfg, s, e, b.buffer); }
    case DoConnectDone(r) =>
      hide CallsAsDue, ConnectDone;
      ConnectDoneCalls(cfg, s, r);
    case DoSendDone(r) =>
      hide CallsAsDue, SendDone;
      SendDoneCalls(cfg, s, r);
    case DoEscalate =>
      EscalateCalls(s);
      hide Escalate;
    case DoStartFlushing =>
      hide CallsAsDue, StartFlushing;
      StartFlushingCalls(cfg, s);
    case _ =>
  }

  /** What is accepted: a single command or a batch exactly if the endpoint is not flushing and it fits. */
  lemma AcceptsExactly(cfg: Config, s: State, e: Event)
    requires LimitInv(cfg, s) && Enabled(s, e) && cfg.queueLimit < SIZE_MODULUS
    ensures var data := if e.DoSend? then e.data else if e.DoSendBatch? then e.batch.buffer else [];
            var largest := if e.DoSend? then |e.data| else if e.DoSendBatch? then e.batch.largest else 0;
            var fits := && !s.flushing && |s.sendQueue| + |data| < SIZE_MODULUS && largest <= cfg.maxMessageSize
                        && (cfg.queueLimit == QUEUE_SIZE_UNLIMITED || |s.sendQueue| + |data| <= cfg.queueLimit);
            Next(cfg, s, e).accepted == s.accepted + if fits then data else []
  {
    hide Accepts;
    match e
    case DoSend(data) => ChecksAreExact(cfg, s, |data|, |data|);
    case DoSendBatch(b) => ChecksAreExact(cfg, s, |b.buffer|, b.largest);
    case _ =>
  }
}
