/**
 How the routing host keeps one connection per client: a live endpoint and, while that one is
 being cleaned up, a pending successor. The steps are the sections under the routing mutex and the
 reports that follow them outside of it.
 */
module RoutingHandover {
  import opened Common

  datatype Peer = Peer(address: nat, port: nat)

  /** What a transport without addresses reports as its peer. */
  const NoPeer: Peer := Peer(0, 0)

  datatype Endpoint = Endpoint(id: nat, client: nat, peer: Peer)

  datatype State = State(
    live: map<nat, Endpoint>,
    pending: map<nat, Endpoint>,
    // history
    given: set<Endpoint>,
    failing: set<Endpoint>,           // asked to fail by trigger_error
    started: multiset<Endpoint>,
    stopped: multiset<Endpoint>,
    graceful: multiset<Endpoint>,     // those of them that were stopped without error
    due: multiset<Endpoint>,          // installed, on_register_application to come
    reported: multiset<Endpoint>)

  const Empty: State :=
    State(map[], map[], {}, {}, multiset{}, multiset{}, multiset{}, multiset{}, multiset{})

  predicate IsLive(s: State, ep: Endpoint) {
    ep.client in s.live && s.live[ep.client] == ep
  }

  predicate IsPending(s: State, ep: Endpoint) {
    ep.client in s.pending && s.pending[ep.client] == ep
  }

  /** Live endpoints with the peer of a new one; the scan asks the first it meets to fail. */
  function Occupants(live: map<nat, Endpoint>, peer: Peer): set<Endpoint> {
    if peer == NoPeer then {} else set c | c in live && live[c].peer == peer :: live[c]
  }

  predicate IsVictim(live: map<nat, Endpoint>, peer: Peer, victim: Option<Endpoint>) {
    if Occupants(live, peer) == {} then victim.None? else victim.Some? && victim.value in Occupants(live, peer)
  }

  function Fail(s: State, victim: Option<Endpoint>): State {
    if victim.Some? then s.(failing := s.failing + {victim.value}) else s
  }

  function Install(s: State, ep: Endpoint, victim: Option<Endpoint>): State {
    var s1 := Fail(s, victim);
    s1.(live := s1.live[ep.client := ep], started := s1.started + multiset{ep}, due := s1.due + multiset{ep})
  }

  function Enqueue(s: State, ep: Endpoint): State
    requires ep.client in s.live
  {
    var c := ep.client;
    s.(stopped := if c in s.pending then s.stopped + multiset{s.pending[c]} else s.stopped,
       pending := s.pending[c := ep],
       failing := s.failing + {s.live[c]})
  }

  function AddUnlocked(s: State, ep: Endpoint, victim: Option<Endpoint>): State {
    if ep.client in s.live then Enqueue(s, ep) else Install(s, ep, victim)
  }

  function Unlist(s: State, c: nat): State {
    if c in s.live then s.(stopped := s.stopped + multiset{s.live[c]}, live := s.live - {c}) else s
  }

  function Remove(s: State, c: nat, victim: Option<Endpoint>): State {
    var s1 := Unlist(s, c);
    if c in s1.pending then
      var s2 := AddUnlocked(s1, s1.pending[c], victim);
      s2.(pending := s2.pending - {c})
    else
      s1
  }

  function At(m: map<nat, Endpoint>, address: nat): set<Endpoint> {
    set c | c in m && m[c].peer.address == address :: m[c]
  }

  function DropFrom(s: State, address: nat): State {
    s.(failing := s.failing + At(s.live, address),
       pending := map c | c in s.pending && s.pending[c].peer.address != address :: s.pending[c],
       stopped := s.stopped + multiset(At(s.pending, address)))
  }

  function Clear(s: State): State {
    s.(live := map[], pending := map[],
       stopped := s.stopped + multiset(s.live.Values) + multiset(s.pending.Values),
       graceful := s.graceful + multiset(s.live.Values))
  }

  // ------------------------------------------------------------------------------ runs

  datatype Event =
    | DoAdd(endpoint: Endpoint, victim: Option<Endpoint>)
    | DoRemove(client: nat, victim: Option<Endpoint>)
    | DoDropFrom(address: nat)
    | DoClear
    | DoReport(installed: Endpoint)

  /** Every endpoint is handed in once; the victims are those a scan can meet first. */
  predicate Enabled(s: State, e: Event) {
    match e
    case DoAdd(ep, v) => ep !in s.given && (ep.client !in s.live ==> IsVictim(s.live, ep.peer, v))
    case DoRemove(c, v) => c in s.pending ==> IsVictim(s.live - {c}, s.pending[c].peer, v)
    case DoReport(ep) => ep in s.due
    case _ => true
  }

  function Next(s: State, e: Event): State
    requires Enabled(s, e)
  {
    match e
    case DoAdd(ep, v) => AddUnlocked(s.(given := s.given + {ep}), ep, v)
    case DoRemove(c, v) => Remove(s, c, v)
    case DoDropFrom(a) => DropFrom(s, a)
    case DoClear => Clear(s)
    case DoReport(ep) => s.(due := s.due - multiset{ep}, reported := s.reported + multiset{ep})
  }

  ghost predicate IsRun(ss: seq<State>, es: seq<Event>) {
    && |ss| == |es| + 1 && ss[0] == Empty
    && forall i :: 0 <= i < |es| ==> Enabled(ss[i], es[i]) && ss[i + 1] == Next(ss[i], es[i])
  }

  // ------------------------------------------------------------------------- invariants

  function Count(b: bool): nat {
    if b then 1 else 0
  }

  /** How often an endpoint is found among the live, the pending and the stopped ones. */
  function Places(s: State, ep: Endpoint): nat {
    Count(IsLive(s, ep)) + Count(IsPending(s, ep)) + s.stopped[ep]
  }

  predicate Keyed(m: map<nat, Endpoint>) {
    forall c :: c in m ==> m[c].client == c
  }

  /** Every client with a pending endpoint has a live one that has been asked to fail. */
  predicate Backed(live: map<nat, Endpoint>, pending: map<nat, Endpoint>, failing: set<Endpoint>) {
    forall c :: c in pending ==> c in live && live[c] in failing
  }

  predicate Indexed(s: State) {
    Keyed(s.live) && Keyed(s.pending) && Backed(s.live, s.pending, s.failing)
  }

  predicate Accounted(s: State, ep: Endpoint) {
    && Places(s, ep) == Count(ep in s.given)
    && s.started[ep] == s.due[ep] + s.reported[ep] <= 1
    && (IsLive(s, ep) ==> s.started[ep] == 1)
    && (IsPending(s, ep) ==> s.started[ep] == 0)
    && (s.started[ep] == 1 ==> ep in s.given)
    && s.graceful[ep] <= s.stopped[ep]
    && (s.graceful[ep] > 0 ==> s.started[ep] == 1)
    && (ep in s.failing ==> ep in s.given)
  }

  ghost predicate Inv(s: State) {
    Indexed(s) && forall ep :: Accounted(s, ep)
  }

  lemma ValuesCount(m: map<nat, Endpoint>, ep: Endpoint)
    requires Keyed(m)
    ensures multiset(m.Values)[ep] == Count(ep.client in m && m[ep.client] == ep)
  {
    if ep in m.Values {
      var c :| c in m && m[c] == ep;
    }
  }

  lemma AtCount(m: map<nat, Endpoint>, address: nat, ep: Endpoint)
    requires Keyed(m)
    ensures ep in At(m, address) <==> ep.client in m && m[ep.client] == ep && ep.peer.address == address
  {
  }

  lemma EnqueueAccounts(s: State, n: Endpoint, ep: Endpoint)
    requires Indexed(s) && n !in s.given && n.client in s.live
    requires Accounted(s, ep) && Accounted(s, n) && Accounted(s, s.live[n.client])
    ensures Accounted(Enqueue(s.(given := s.given + {n}), n), ep)
  {
  }

  /** Installing a fresh endpoint, or the pending one of a client without a live one. */
  lemma InstallAccounts(s: State, n: Endpoint, v: Option<Endpoint>, ep: Endpoint)
    requires n.client !in s.live && s.started[n] == 0 && s.stopped[n] == 0
    requires IsPending(s, n) <==> n in s.given
    requires n.client in s.pending ==> IsPending(s, n)
    requires Accounted(s, ep)
    requires v.Some? ==> v.value in s.given
    ensures var s' := Install(s.(given := s.given + {n}), n, v); Accounted(s'.(pending := s'.pending - {n.client}), ep)
  {
  }

  lemma UnlistAccounts(s: State, c: nat, ep: Endpoint)
    requires Keyed(s.live) && Accounted(s, ep)
    ensures Accounted(Unlist(s, c), ep)
  {
  }

  lemma VictimsAreGiven(s: State, live: map<nat, Endpoint>, peer: Peer, v: Option<Endpoint>)
    requires Inv(s) && IsVictim(live, peer, v) && live.Items <= s.live.Items
    ensures v.Some? ==> v.value in s.given
  {
    if v.Some? {
      var c :| c in live && live[c] == v.value;
      assert (c, live[c]) in live.Items;
      assert Accounted(s, v.value);
    }
  }

  lemma AddAccounts(s: State, n: Endpoint, v: Option<Endpoint>, ep: Endpoint)
    requires Inv(s) && Enabled(s, DoAdd(n, v))
    ensures Accounted(Next(s, DoAdd(n, v)), ep)
  {
    hide Accounted, IsVictim;
    assert Accounted(s, n) && Accounted(s, ep);
    if n.client in s.live {
      assert Accounted(s, s.live[n.client]);
      EnqueueAccounts(s, n, ep);
    } else {
      VictimsAreGiven(s, s.live, n.peer, v);
      FreshFacts(s, n);
      InstallAccounts(s, n, v, ep);
      var s' := Next(s, DoAdd(n, v));
      assert s'.(pending := s'.pending - {n.client}) == s';
    }
  }

  lemma FreshFacts(s: State, n: Endpoint)
    requires Accounted(s, n) && n !in s.given
    ensures s.started[n] == 0 && s.stopped[n] == 0 && !IsPending(s, n)
  {
  }

  lemma PendingFacts(s: State, n: Endpoint)
    requires Accounted(s, n) && IsPending(s, n)
    ensures s.started[n] == 0 && s.stopped[n] == 0 && n in s.given
  {
  }

  lemma RemoveAccounts(s: State, c: nat, v: Option<Endpoint>, ep: Endpoint)
    requires Inv(s) && Enabled(s, DoRemove(c, v))
    ensures Accounted(Remove(s, c, v), ep)
  {
    hide Accounted, IsVictim;
    assert Accounted(s, ep);
    UnlistAccounts(s, c, ep);
    if c in s.pending {
      var n := s.pending[c];
      assert Accounted(s, n);
      var s1 := Unlist(s, c);
      assert s1.live == s.live - {c};
      UnlistAccounts(s, c, n);
      VictimsAreGiven(s, s1.live, n.peer, v);
      PendingFacts(s1, n);
      InstallAccounts(s1, n, v, ep);
      assert s1.(given := s1.given + {n}) == s1;
    }
  }

  lemma DropAccounts(s: State, address: nat, ep: Endpoint)
    requires Inv(s)
    ensures Accounted(DropFrom(s, address), ep)
  {
    assert Accounted(s, ep);
    AtCount(s.live, address, ep);
    AtCount(s.pending, address, ep);
  }

  lemma ClearAccounts(s: State, ep: Endpoint)
    requires Inv(s)
    ensures Accounted(Clear(s), ep)
  {
    assert Accounted(s, ep);
    ValuesCount(s.live, ep);
    ValuesCount(s.pending, ep);
  }

  /** A removal always installs the pending endpoint, whatever the address scan meets. */
  lemma RemovePromotes(s: State, c: nat, v: Option<Endpoint>)
    requires Indexed(s)
    ensures var s' := Remove(s, c, v);
            && s'.live == (if c in s.pending then s.live[c := s.pending[c]] else s.live - {c})
            && s'.pending == s.pending - {c} && s.failing <= s'.failing
            && s'.stopped == (if c in s.live then s.stopped + multiset{s.live[c]} else s.stopped)
  {
    if c in s.pending {
      assert s.live[c := s.pending[c]] == (s.live - {c})[c := s.pending[c]];
    }
  }

  lemma AddShape(s: State, n: Endpoint, v: Option<Endpoint>)
    ensures var s' := AddUnlocked(s, n, v);
            && s.failing <= s'.failing
            && (n.client in s.live ==> s'.live == s.live && s'.pending == s.pending[n.client := n] && s.live[n.client] in s'.failing)
            && (n.client !in s.live ==> s'.live == s.live[n.client := n] && s'.pending == s.pending)
            && s'.stopped == (if n.client in s.live && n.client in s.pending then s.stopped + multiset{s.pending[n.client]} else s.stopped)
  {
  }

  lemma AddIndexed(s: State, n: Endpoint, v: Option<Endpoint>)
    requires Indexed(s)
    ensures Indexed(AddUnlocked(s, n, v))
  {
    AddShape(s, n, v);
    hide AddUnlocked;
  }

  lemma RemoveIndexed(s: State, c: nat, v: Option<Endpoint>)
    requires Indexed(s)
    ensures Indexed(Remove(s, c, v))
  {
    RemovePromotes(s, c, v);
    hide Remove;
  }

  lemma StepIndexed(s: State, e: Event)
    requires Indexed(s) && Enabled(s, e)
    ensures Indexed(Next(s, e))
  {
    hide IsVictim, AddUnlocked, Remove, At, Indexed;
    match e
    case DoAdd(n, v) =>
      SameIndexed(s, s.(given := s.given + {n}));
      AddIndexed(s.(given := s.given + {n}), n, v);
    case DoRemove(c, v) => RemoveIndexed(s, c, v);
    case DoDropFrom(a) => DropIndexed(s, a);
    case DoClear => ClearIndexed(s);
    case DoReport(ep) => SameIndexed(s, Next(s, e));
  }

  lemma SameIndexed(s: State, s': State)
    requires Indexed(s) && s'.live == s.live && s'.pending == s.pending && s'.failing == s.failing
    ensures Indexed(s')
  {
  }

  lemma DropIndexed(s: State, address: nat)
    requires Indexed(s)
    ensures Indexed(DropFrom(s, address))
  {
  }

  lemma ClearIndexed(s: State)
    ensures Indexed(Clear(s))
  {
  }

  lemma StepInv(s: State, e: Event)
    requires Inv(s) && Enabled(s, e)
    ensures Inv(Next(s, e))
  {
    StepIndexed(s, e);
    forall ep ensures Accounted(Next(s, e), ep) {
      assert Accounted(s, ep);
      match e
      case DoAdd(n, v) => AddAccounts(s, n, v, ep);
      case DoRemove(c, v) => RemoveAccounts(s, c, v, ep);
      case DoDropFrom(a) => DropAccounts(s, a, ep);
      case DoClear => ClearAccounts(s, ep);
      case DoReport(n) =>
    }
  }

  lemma {:induction false} RunInv(ss: seq<State>, es: seq<Event>)
    requires IsRun(ss, es)
    ensures Inv(ss[|es|])
  {
    if es != [] {
      hide Inv, Next, Enabled;
      var n := |es| - 1;
      RunInv(ss[..|es|], es[..n]);
      StepInv(ss[n], es[n]);
    }
  }

  // ----------------------------------------------------------------------- main results

  /**
   Handover safety. In every reachable state an endpoint that was handed in is in exactly one
   of three places, live, pending or stopped, and none is stopped twice; only a client whose
   live endpoint has been asked to fail has a pending one.
   */
  lemma HandoverSafety(ss: seq<State>, es: seq<Event>, ep: Endpoint)
    requires IsRun(ss, es)
    ensures var s := ss[|es|];
            && (ep in s.given <==> Places(s, ep) == 1) && (ep !in s.given <==> Places(s, ep) == 0)
            && (ep.client in s.pending ==> ep.client in s.live && s.live[ep.client] in s.failing)
            && (ep.client in s.pending ==> s.live[ep.client] != s.pending[ep.client])
  {
    RunInv(ss, es);
    var s := ss[|es|];
    assert Accounted(s, ep);
    if ep.client in s.pending { assert Accounted(s, s.pending[ep.client]); }
  }

  /**
   An endpoint is started exactly if it is or was live, and then once. As soon as no report is
   outstanding, exactly the started endpoints have been reported, each once.
   */
  lemma StartedAndReportedOnce(ss: seq<State>, es: seq<Event>, ep: Endpoint)
    requires IsRun(ss, es)
    ensures var s := ss[|es|];
            && s.started[ep] <= 1 && s.reported[ep] <= s.started[ep]
            && (IsLive(s, ep) ==> s.started[ep] == 1)
            && (IsPending(s, ep) || ep !in s.given ==> s.started[ep] == 0)
            && (s.due == multiset{} ==> s.reported[ep] == s.started[ep])
            && (s.graceful[ep] > 0 ==> s.started[ep] == 1)
  {
    RunInv(ss, es);
    assert Accounted(ss[|es|], ep);
  }

  predicate StopsNow(s: State, e: Event, ep: Endpoint) {
    match e
    case DoAdd(n, _) => n.client == ep.client && IsPending(s, ep)
    case DoRemove(c, _) => c == ep.client && IsLive(s, ep)
    case DoDropFrom(a) => IsPending(s, ep) && ep.peer.address == a
    case DoClear => true
    case DoReport(_) => false
  }

  /**
   Which step stops an endpoint: a newer one of the same client if it is pending, a removal of
   its client if it is live, a drop of its address if it is pending, or the final clean-up.
   */
  lemma StopsExactly(s: State, e: Event, ep: Endpoint)
    requires Inv(s) && Enabled(s, e) && ep in s.given && s.stopped[ep] == 0
    ensures Next(s, e).stopped[ep] == Count(StopsNow(s, e, ep))
  {
    assert Accounted(s, ep);
    assert IsLive(s, ep) != IsPending(s, ep);
    hide Accounted, Enabled, At, AddUnlocked, Remove;
    match e
    case DoAdd(n, v) => AddShape(s.(given := s.given + {n}), n, v);
    case DoRemove(c, v) => RemovePromotes(s, c, v);
    case DoDropFrom(a) => AtCount(s.pending, a, ep);
    case DoClear => ValuesCount(s.live, ep); ValuesCount(s.pending, ep);
    case DoReport(_) =>
  }

  /** Only the final clean-up stops without error, and exactly the live endpoints. */
  lemma GracefulExactly(s: State, e: Event, ep: Endpoint)
    requires Inv(s) && Enabled(s, e)
    ensures Next(s, e).graceful[ep] == s.graceful[ep] + Count(e.DoClear? && IsLive(s, ep))
  {
    hide Enabled, At;
    ValuesCount(s.live, ep);
  }

  /** A live endpoint from the same address and port, which the transport knows. */
  ghost predicate Occupied(live: map<nat, Endpoint>, peer: Peer) {
    peer != NoPeer && exists c :: c in live && live[c].peer == peer
  }

  /** What the scan finds: nothing, or a live endpoint with the peer, and that if there is one. */
  lemma ScanFinds(live: map<nat, Endpoint>, peer: Peer, v: Option<Endpoint>)
    requires IsVictim(live, peer, v)
    ensures v.Some? <==> Occupied(live, peer)
    ensures v.Some? ==> v.value.peer == peer && exists c :: c in live && live[c] == v.value
  {
    if Occupied(live, peer) {
      var c :| c in live && live[c].peer == peer;
      assert live[c] in Occupants(live, peer);
    }
  }

  /** The live endpoints among which a step looks for the peer of the one it installs. */
  ghost function Installs(s: State, e: Event): Option<Endpoint> {
    match e
    case DoAdd(n, _) => if n.client in s.live then None else Some(n)
    case DoRemove(c, _) => if c in s.pending then Some(s.pending[c]) else None
    case _ => None
  }

  ghost predicate FailsNow(s: State, e: Event, ep: Endpoint) {
    || (e.DoDropFrom? && IsLive(s, ep) && ep.peer.address == e.address)
    || (e.DoAdd? && IsLive(s, ep) && ep.client == e.endpoint.client)
    || (Installs(s, e).Some? && (e.DoAdd? || e.DoRemove?) && e.victim == Some(ep))
  }

  function Found(v: Option<Endpoint>): set<Endpoint> {
    if v.Some? then {v.value} else {}
  }

  lemma AddFailing(s: State, n: Endpoint, v: Option<Endpoint>)
    ensures AddUnlocked(s, n, v).failing == s.failing + (if n.client in s.live then {s.live[n.client]} else Found(v))
  {
  }

  lemma RemoveFailing(s: State, c: nat, v: Option<Endpoint>)
    requires Indexed(s)
    ensures Remove(s, c, v).failing == s.failing + (if c in s.pending then Found(v) else {})
  {
    hide AddUnlocked;
    var s1 := Unlist(s, c);
    if c in s.pending { AddFailing(s1, s.pending[c], v); }
  }

  /**
   Which step asks an endpoint to fail: a drop of its address while it is live, a newer endpoint of
   its client while it is live, or an installation whose scan finds it.
   */
  lemma FailsExactly(s: State, e: Event, ep: Endpoint)
    requires Inv(s) && Enabled(s, e)
    ensures ep in Next(s, e).failing <==> ep in s.failing || FailsNow(s, e, ep)
  {
    hide IsVictim, Accounted, AddUnlocked, Remove, At;
    match e
    case DoAdd(n, v) => AddFailing(s.(given := s.given + {n}), n, v);
    case DoRemove(c, v) => RemoveFailing(s, c, v);
    case DoDropFrom(a) => AtCount(s.live, a, ep);
    case _ =>
  }

  /** An installation finds an endpoint to fail exactly if another live one has the same known peer, and finds such a one. */
  lemma InstallFails(s: State, e: Event)
    requires Enabled(s, e) && (e.DoAdd? || e.DoRemove?) && Installs(s, e).Some?
    ensures var others := if e.DoRemove? then s.live - {e.client} else s.live;
            && (e.victim.Some? <==> Occupied(others, Installs(s, e).value.peer))
            && (e.victim.Some? ==> FailsNow(s, e, e.victim.value) && e.victim.value.peer == Installs(s, e).value.peer)
            && (e.victim.Some? ==> exists c :: c in others && others[c] == e.victim.value)
  {
    ScanFinds(if e.DoRemove? then s.live - {e.client} else s.live, Installs(s, e).value.peer, e.victim);
    hide IsVictim, Occupied;
  }

  /** The newest endpoint of a client: its pending one or else its live one. */
  function Newest(s: State, c: nat): Option<Endpoint> {
    if c in s.pending then Some(s.pending[c]) else if c in s.live then Some(s.live[c]) else None
  }

  /**
   The newest endpoint handed in for a client wins: it becomes live at the removal of the one
   before it, and no step but its own removal, a drop of its address while it is pending, a newer
   endpoint or the final clean-up takes it away.
   */
  lemma NewestWins(s: State, e: Event, c: nat)
    requires Inv(s) && Enabled(s, e)
    ensures var s' := Next(s, e);
            && (e.DoAdd? && e.endpoint.client == c ==> Newest(s', c) == Some(e.endpoint))
            && (e.DoAdd? && e.endpoint.client != c ==> Newest(s', c) == Newest(s, c))
            && (e.DoReport? ==> Newest(s', c) == Newest(s, c))
            && (e.DoRemove? && (c != e.client || c in s.pending) ==> Newest(s', c) == Newest(s, c))
            && (e.DoRemove? && c == e.client && c in s.pending ==> IsLive(s', s.pending[c]))
            && (e.DoDropFrom? && (c !in s.pending || s.pending[c].peer.address != e.address) ==> Newest(s', c) == Newest(s, c))
  {
    hide Accounted, Enabled, AddUnlocked, Remove, At;
    match e
    case DoAdd(n, v) => AddShape(s.(given := s.given + {n}), n, v);
    case DoRemove(r, v) => RemovePromotes(s, r, v);
    case _ =>
  }
}
