/**
 What every sequence of finds, creations and removals of client endpoints keeps: the index holds
 exactly the endpoints in use, each at its own place, and local ports are never shared.
 */
module RemoteClientsProofs {
  import opened Common
  import opened ClientPorts
  import opened PortRounds
  import opened RemoteClients

  // ------------------------------------------------------------------------- the index

  type Services = map<User, Endpoint>
  type Index = map<Key, Endpoint>

  /** A user's endpoint is in the index, at the place that belongs to the two of them. */
  predicate UserOk(cfg: Config, services: Services, index: Index, u: User)
    requires u in services
  {
    var ep := services[u];
    var k := KeyOf(cfg, u, ep.remote);
    ep.reliable == u.reliable && u.major != ANY_MAJOR && k in index && index[k] == ep
  }

  /** What is in the index is used, by a user to whom the place belongs. */
  ghost predicate KeyOk(cfg: Config, services: Services, index: Index, k: Key)
    requires k in index
  {
    exists u :: u in services && services[u] == index[k] && KeyOf(cfg, u, index[k].remote) == k
  }

  predicate Injective(index: Index) {
    forall k, k' :: k in index && k' in index && index[k] == index[k'] ==> k == k'
  }

  ghost predicate IndexInv(cfg: Config, services: Services, index: Index) {
    && (forall u :: u in services ==> UserOk(cfg, services, index, u))
    && (forall k :: k in index ==> KeyOk(cfg, services, index, k))
    && Injective(index)
  }

  lemma ShareKeeps(cfg: Config, services: Services, index: Index, u: User, k: Key)
    requires IndexInv(cfg, services, index) && u !in services && u.major != ANY_MAJOR
    requires k in index && k == KeyOf(cfg, u, k.remote)
    ensures IndexInv(cfg, services[u := index[k]], index)
  {
    var services' := services[u := index[k]];
    assert KeyOk(cfg, services, index, k);
    var u0 :| u0 in services && services[u0] == index[k] && KeyOf(cfg, u0, index[k].remote) == k;
    assert UserOk(cfg, services, index, u0);
    forall v | v in services' ensures UserOk(cfg, services', index, v) {
      if v != u { assert UserOk(cfg, services, index, v); }
    }
    forall j | j in index ensures KeyOk(cfg, services', index, j) {
      assert KeyOk(cfg, services, index, j);
      var v :| v in services && services[v] == index[j] && KeyOf(cfg, v, index[j].remote) == j;
      assert services'[v] == index[j];
    }
  }

  lemma EnterKeeps(cfg: Config, services: Services, index: Index, u: User, ep: Endpoint)
    requires IndexInv(cfg, services, index) && u !in services && u.major != ANY_MAJOR && ep.reliable == u.reliable
    requires KeyOf(cfg, u, ep.remote) !in index && ep !in index.Values
    ensures IndexInv(cfg, services[u := ep], index[KeyOf(cfg, u, ep.remote) := ep])
  {
    var k := KeyOf(cfg, u, ep.remote);
    var services', index' := services[u := ep], index[k := ep];
    forall v | v in services' ensures UserOk(cfg, services', index', v) {
      if v != u { assert UserOk(cfg, services, index, v); }
    }
    forall j | j in index' ensures KeyOk(cfg, services', index', j) {
      if j == k {
        assert services'[u] == index'[k];
      } else {
        assert KeyOk(cfg, services, index, j);
        var v :| v in services && services[v] == index[j] && KeyOf(cfg, v, index[j].remote) == j;
        assert services'[v] == index'[j];
      }
    }
  }

  lemma OthersKeep(cfg: Config, services: Services, index: Index, t: User, other: User)
    requires IndexInv(cfg, services, index) && t in services
    requires other in services && other != t && services[other] == services[t]
    ensures IndexInv(cfg, services - {t}, index)
  {
    var services' := services - {t};
    forall v | v in services' ensures UserOk(cfg, services', index, v) { assert UserOk(cfg, services, index, v); }
    forall j | j in index ensures KeyOk(cfg, services', index, j) {
      assert KeyOk(cfg, services, index, j);
      var v :| v in services && services[v] == index[j] && KeyOf(cfg, v, index[j].remote) == j;
      assert UserOk(cfg, services, index, v) && UserOk(cfg, services, index, other);
      if v != t { assert services'[v] == index[j]; } else { assert services'[other] == index[j]; }
    }
  }

  lemma LastKeeps(cfg: Config, services: Services, index: Index, t: User)
    requires IndexInv(cfg, services, index) && t in services
    requires forall u :: u in services && u != t ==> services[u] != services[t]
    ensures IndexInv(cfg, services - {t}, index - {KeyOf(cfg, t, services[t].remote)})
    ensures services[t] !in (index - {KeyOf(cfg, t, services[t].remote)}).Values
  {
    var k := KeyOf(cfg, t, services[t].remote);
    var services', index' := services - {t}, index - {k};
    assert UserOk(cfg, services, index, t);
    forall v | v in services' ensures UserOk(cfg, services', index', v) { assert UserOk(cfg, services, index, v); }
    forall j | j in index' ensures KeyOk(cfg, services', index', j) {
      assert KeyOk(cfg, services, index, j);
      var v :| v in services && services[v] == index[j] && KeyOf(cfg, v, index[j].remote) == j;
      assert services'[v] == index'[j];
    }
  }

  lemma UnlistShape(cfg: Config, s: State, t: User)
    requires IndexInv(cfg, s.services, s.index) && t in s.services
    ensures var ep, s' := s.services[t], Unlist(cfg, s, t);
            var k := KeyOf(cfg, t, ep.remote);
            if Users(s, ep) == {t}
            then s' == s.(services := s.services - {t}, index := s.index - {k}, closing := s.closing + {ep})
                 && k in s.index && s.index[k] == ep
            else s' == s.(services := s.services - {t})
  {
    var ep := s.services[t];
    assert UserOk(cfg, s.services, s.index, t);
    assert t in Users(s, ep);
    if Users(s, ep) != {t} {
      var u :| u in Users(s, ep) && u != t;
      assert UserOk(cfg, s.services, s.index, u);
      assert u in s.services - {t};
    } else {
      assert forall u :: u in s.services && s.services[u] == ep ==> u in Users(s, ep);
    }
  }

  lemma UnlistIndex(cfg: Config, s: State, t: User)
    requires IndexInv(cfg, s.services, s.index)
    ensures var s' := Unlist(cfg, s, t); IndexInv(cfg, s'.services, s'.index)
  {
    if t in s.services {
      hide IndexInv, Unlist;
      UnlistShape(cfg, s, t);
      var ep := s.services[t];
      if Users(s, ep) == {t} {
        assert forall u :: u in s.services && s.services[u] == ep ==> u in Users(s, ep);
        LastKeeps(cfg, s.services, s.index, t);
      } else {
        var u :| u in Users(s, ep) && u != t;
        OthersKeep(cfg, s.services, s.index, t, u);
      }
    }
  }

  // ---------------------------------------------------------------- lifetimes and ports

  function Count(b: bool): nat {
    if b then 1 else 0
  }

  function Places(s: State, ep: Endpoint): nat {
    Count(ep in s.index.Values) + Count(ep in s.closing) + s.stopped[ep]
  }

  /** Every endpoint that was created is indexed, about to be stopped, or stopped once. */
  ghost predicate LifeInv(s: State) {
    forall ep :: Places(s, ep) == Count(ep in s.created)
  }

  function Held(s: State): set<Endpoint> {
    s.index.Values + s.closing
  }

  predicate PortOk(used: UsedMap, ep: Endpoint) {
    ep.localPort != ILLEGAL_PORT && (ep.localPort != 0 ==> ep.localPort in UsedPorts(used, ep.remote, ep.reliable))
  }

  /** Two endpoints to the same remote endpoint, over the same protocol, from the same configured port. */
  predicate Clash(a: Endpoint, b: Endpoint) {
    a != b && a.remote == b.remote && a.reliable == b.reliable && a.localPort == b.localPort != 0
  }

  ghost predicate PortInv(held: set<Endpoint>, used: UsedMap) {
    && (forall ep :: ep in held ==> PortOk(used, ep))
    && (forall a, b :: a in held && b in held ==> !Clash(a, b))
    && (forall k :: k in used ==> ILLEGAL_PORT !in used[k])
    && (forall k, p :: k in used && p in used[k] ==> HeldBy(held, k, p))
  }

  /** Some endpoint in the set has the local port towards the remote endpoint. */
  ghost predicate HeldBy(held: set<Endpoint>, k: (Remote, bool), p: Word) {
    exists ep :: ep in held && ep.remote == k.0 && ep.reliable == k.1 && ep.localPort == p
  }

  lemma HoldKeeps(held: set<Endpoint>, used: UsedMap, ep: Endpoint)
    requires PortInv(held, used) && ep.localPort != ILLEGAL_PORT
    requires ep.localPort != 0 ==> ep.localPort !in UsedPorts(used, ep.remote, ep.reliable)
    ensures var k := (ep.remote, ep.reliable);
            PortInv(held + {ep}, used[k := UsedPorts(used, ep.remote, ep.reliable) + {ep.localPort}])
  {
    var k := (ep.remote, ep.reliable);
    var used' := used[k := UsedPorts(used, ep.remote, ep.reliable) + {ep.localPort}];
    forall a | a in held + {ep} ensures PortOk(used', a) { if a != ep { assert PortOk(used, a); } }
    forall a, b | a in held + {ep} && b in held + {ep} ensures !Clash(a, b) {
      if a in held { assert PortOk(used, a); }
      if b in held { assert PortOk(used, b); }
    }
    forall j, p | j in used' && p in used'[j] ensures HeldBy(held + {ep}, j, p) {
      if j in used && p in used[j] {
        assert HeldBy(held, j, p);
        var h :| h in held && h.remote == j.0 && h.reliable == j.1 && h.localPort == p;
        assert h in held + {ep};
      }
    }
  }

  lemma DropKeeps(held: set<Endpoint>, used: UsedMap, ep: Endpoint)
    requires PortInv(held, used) && ep in held
    ensures var k := (ep.remote, ep.reliable);
            PortInv(held - {ep}, if k in used then used[k := used[k] - {ep.localPort}] else used)
  {
    var k := (ep.remote, ep.reliable);
    var used' := if k in used then used[k := used[k] - {ep.localPort}] else used;
    forall a | a in held - {ep} ensures PortOk(used', a) { assert PortOk(used, a) && !Clash(a, ep); }
    forall j, p | j in used' && p in used'[j] ensures HeldBy(held - {ep}, j, p) {
      assert HeldBy(held, j, p);
      var h :| h in held && h.remote == j.0 && h.reliable == j.1 && h.localPort == p;
      assert h != ep;
    }
  }

  lemma InsertValues(index: Index, k: Key, ep: Endpoint)
    requires k !in index
    ensures index[k := ep].Values == index.Values + {ep}
  {
    var index' := index[k := ep];
    assert index'[k] == ep;
    forall e ensures e in index'.Values <==> e in index.Values || e == ep {
      if e in index.Values {
        var j :| j in index && index[j] == e;
        assert index'[j] == e;
      }
    }
  }

  lemma RemoveValues(index: Index, k: Key)
    requires k in index && Injective(index)
    ensures (index - {k}).Values == index.Values - {index[k]}
  {
    var index' := index - {k};
    forall e ensures e in index'.Values <==> e in index.Values && e != index[k] {
      if e in index.Values && e != index[k] {
        var j :| j in index && index[j] == e;
        assert index'[j] == e;
      }
      if e in index'.Values {
        var j :| j in index' && index'[j] == e;
        assert index[j] == e;
      }
    }
  }

  /** The allocator never answers with a port that is in use, nor with the illegal one. */
  lemma AllocateIsFree(cfg: Config, s: State, u: User, r: Remote)
    requires RemoteClients.ValidCursors(cfg, s)
    ensures var a := Allocate(cfg, s, u, r);
            && (a.ok ==> a.port != ILLEGAL_PORT && (a.port != 0 ==> a.port !in UsedPorts(s.used, r, u.reliable)))
            && |a.cursors| == |a.specific| == |Entries(cfg, u.reliable)|
  {
    var entries, c, used := Entries(cfg, u.reliable), s.cursors[u.reliable], UsedPorts(s.used, r, u.reliable);
    FindPortFinds(entries, c.generic, r.port, used);
    var ports := SpecificPorts(entries, u.service, u.instance);
    if ports != [] {
      FirstFreeIs(Rotation(ports, c.specific[FindClient(entries, u.service, u.instance)]), used);
    }
  }

  // ------------------------------------------------------------------------------- runs

  ghost predicate Inv(cfg: Config, s: State) {
    && RemoteClients.ValidCursors(cfg, s)
    && IndexInv(cfg, s.services, s.index)
    && LifeInv(s)
    && PortInv(Held(s), s.used)
  }

  lemma SameLife(s: State, s': State)
    requires LifeInv(s)
    requires s'.index == s.index && s'.closing == s.closing && s'.stopped == s.stopped && s'.created == s.created
    ensures LifeInv(s') && Held(s') == Held(s)
  {
    forall ep ensures Places(s', ep) == Count(ep in s'.created) { assert Places(s, ep) == Count(ep in s.created); }
  }

  lemma BornLife(s: State, s': State, ep: Endpoint)
    requires LifeInv(s) && ep !in s.created
    requires s'.index.Values == s.index.Values + {ep} && s'.closing == s.closing && s'.stopped == s.stopped
    requires s'.created == s.created + {ep}
    ensures LifeInv(s') && Held(s') == Held(s) + {ep} && ep !in s.index.Values
  {
    assert Places(s, ep) == 0;
    forall e ensures Places(s', e) == Count(e in s'.created) { assert Places(s, e) == Count(e in s.created); }
  }

  lemma ClosingLife(s: State, s': State, ep: Endpoint)
    requires LifeInv(s) && ep in s.index.Values
    requires s'.index.Values == s.index.Values - {ep} && s'.closing == s.closing + {ep}
    requires s'.stopped == s.stopped && s'.created == s.created
    ensures LifeInv(s') && Held(s') == Held(s)
  {
    assert Places(s, ep) == Count(ep in s.created);
    forall e ensures Places(s', e) == Count(e in s'.created) { assert Places(s, e) == Count(e in s.created); }
  }

  lemma StoppedLife(s: State, s': State, ep: Endpoint)
    requires LifeInv(s) && ep in s.closing
    requires s'.index == s.index && s'.closing == s.closing - {ep}
    requires s'.stopped == s.stopped + multiset{ep} && s'.created == s.created
    ensures LifeInv(s') && Held(s') == Held(s) - {ep}
  {
    assert Places(s, ep) == Count(ep in s.created);
    forall e ensures Places(s', e) == Count(e in s'.created) { assert Places(s, e) == Count(e in s.created); }
  }

  lemma FindInv(cfg: Config, s: State, u: User)
    requires Inv(cfg, s)
    ensures Inv(cfg, Find(cfg, s, u).0)
    ensures var (s', found) := Find(cfg, s, u);
            && (found.None? ==> s' == s)
            && (found.None? && u.major != ANY_MAJOR ==> u !in s.services)
            && (found.None? && u.major != ANY_MAJOR && u in s.info ==> KeyOf(cfg, u, s.info[u]) !in s.index)
  {
    hide IndexInv, LifeInv, PortInv, Held;
    if u.major != ANY_MAJOR && u !in s.services && u in s.info && KeyOf(cfg, u, s.info[u]) in s.index {
      ShareKeeps(cfg, s.services, s.index, u, KeyOf(cfg, u, s.info[u]));
      SameLife(s, Find(cfg, s, u).0);
    }
  }

  lemma EnterInv(cfg: Config, s: State, u: User, ep: Endpoint)
    requires Inv(cfg, s) && u !in s.services && u.major != ANY_MAJOR && ep.reliable == u.reliable
    requires KeyOf(cfg, u, ep.remote) !in s.index && ep !in s.created && ep.localPort != ILLEGAL_PORT
    requires ep.localPort != 0 ==> ep.localPort !in UsedPorts(s.used, ep.remote, ep.reliable)
    ensures Inv(cfg, Enter(cfg, s, u, ep))
  {
    hide IndexInv, LifeInv, PortInv, Held;
    InsertValues(s.index, KeyOf(cfg, u, ep.remote), ep);
    BornLife(s, Enter(cfg, s, u, ep), ep);
    EnterKeeps(cfg, s.services, s.index, u, ep);
    HoldKeeps(Held(s), s.used, ep);
  }

  lemma CreateInv(cfg: Config, s: State, u: User, id: nat, works: bool)
    requires Inv(cfg, s) && u !in s.services && (forall ep :: ep in s.created ==> ep.id != id)
    requires u in s.info ==> KeyOf(cfg, u, s.info[u]) !in s.index
    ensures Inv(cfg, Create(cfg, s, u, id, works).0)
  {
    if !(u.major == ANY_MAJOR || u !in s.info || s.info[u].port == ILLEGAL_PORT) {
      var r := s.info[u];
      var a := Allocate(cfg, s, u, r);
      AllocateIsFree(cfg, s, u, r);
      var s1 := s.(cursors := s.cursors[u.reliable := Cursors(a.cursors, a.specific)]);
      hide IndexInv, LifeInv, PortInv, Held, Allocate;
      SameLife(s, s1);
      if a.ok && works { EnterInv(cfg, s1, u, Endpoint(id, r, u.reliable, a.port)); }
    }
  }

  lemma UnlistInv(cfg: Config, s: State, t: User)
    requires Inv(cfg, s)
    ensures Inv(cfg, Unlist(cfg, s, t))
  {
    if t in s.services {
      UnlistIndex(cfg, s, t);
      UnlistShape(cfg, s, t);
      var s', ep := Unlist(cfg, s, t), s.services[t];
      assert Injective(s.index);
      hide IndexInv, LifeInv, PortInv, Held, Unlist, Users, Injective;
      if Users(s, ep) == {t} {
        RemoveValues(s.index, KeyOf(cfg, t, ep.remote));
        ClosingLife(s, s', ep);
      } else {
        SameLife(s, s');
      }
    }
  }

  lemma FinishInv(cfg: Config, s: State, ep: Endpoint)
    requires Inv(cfg, s) && ep in s.closing
    ensures Inv(cfg, Finish(s, ep))
  {
    assert ep in Held(s);
    hide IndexInv, LifeInv, PortInv, Held;
    DropKeeps(Held(s), s.used, ep);
    StoppedLife(s, Finish(s, ep), ep);
  }

  lemma StepInv(cfg: Config, s: State, e: Event)
    requires Inv(cfg, s) && Enabled(s, e)
    ensures Inv(cfg, Next(cfg, s, e))
  {
    match e
    case DoFindOrCreate(u, id, works) =>
      FindInv(cfg, s, u);
      hide Inv, Create, Find;
      if Find(cfg, s, u).1.None? && u.major != ANY_MAJOR { CreateInv(cfg, s, u, id, works); }
    case DoClear(_, t) => UnlistInv(cfg, s, t);
    case DoFinish(ep) => FinishInv(cfg, s, ep);
    case DoInform(u, r) =>
      hide IndexInv, LifeInv, PortInv, Held;
      SameLife(s, Next(cfg, s, e));
  }

  lemma {:induction false} RunInv(cfg: Config, ss: seq<State>, es: seq<Event>)
    requires IsRun(cfg, ss, es)
    ensures Inv(cfg, ss[|es|])
  {
    if es != [] {
      hide Inv, Next, Enabled, Initial;
      var n := |es| - 1;
      RunInv(cfg, ss[..|es|], es[..n]);
      StepInv(cfg, ss[n], es[n]);
    }
  }

  // ----------------------------------------------------------------------- main results

  /**
   The shared index. In every reachable state the index holds exactly the endpoints that some
   remote service uses, and every user's endpoint is found at the place given by its remote
   address and port, the protocol and the user's partition, and nowhere else.
   */
  lemma SharedIndex(cfg: Config, ss: seq<State>, es: seq<Event>, ep: Endpoint, u: User)
    requires IsRun(cfg, ss, es)
    ensures var s := ss[|es|];
            && (ep in s.index.Values <==> Users(s, ep) != {})
            && (u in Users(s, ep) ==> forall k :: k in s.index && s.index[k] == ep <==> k == KeyOf(cfg, u, ep.remote))
            && (u in Users(s, ep) ==> u.reliable == ep.reliable && u.major != ANY_MAJOR)
  {
    RunInv(cfg, ss, es);
    InUse(cfg, ss[|es|], ep);
    if u in Users(ss[|es|], ep) { assert UserOk(cfg, ss[|es|].services, ss[|es|].index, u); }
  }

  lemma InUse(cfg: Config, s: State, ep: Endpoint)
    requires IndexInv(cfg, s.services, s.index)
    ensures ep in s.index.Values <==> Users(s, ep) != {}
  {
    if ep in s.index.Values {
      var k :| k in s.index && s.index[k] == ep;
      assert KeyOk(cfg, s.services, s.index, k);
      var u :| u in s.services && s.services[u] == ep;
      assert u in Users(s, ep);
    }
    if u :| u in Users(s, ep) {
      assert UserOk(cfg, s.services, s.index, u);
    }
  }

  /** A new user of a remote endpoint that is already in use in its partition gets the same client endpoint. */
  lemma SharesEndpoint(cfg: Config, s: State, u: User, v: User, id: nat, works: bool)
    requires Inv(cfg, s) && u !in s.services && u.major != ANY_MAJOR && u in s.info
    requires v in s.services && v.reliable == u.reliable && Partition(cfg, v) == Partition(cfg, u)
    requires s.services[v].remote == s.info[u]
    ensures FindOrCreate(cfg, s, u, id, works)
            == (s.(services := s.services[u := s.services[v]]), Some(s.services[v]))
  {
    assert UserOk(cfg, s.services, s.index, v);
  }

  /** Every endpoint is indexed, about to be stopped or stopped, exactly one of them, and stopped at most once. */
  lemma StoppedOnce(cfg: Config, ss: seq<State>, es: seq<Event>, ep: Endpoint)
    requires IsRun(cfg, ss, es)
    ensures var s := ss[|es|]; (ep in s.created <==> Places(s, ep) == 1) && (ep !in s.created <==> Places(s, ep) == 0)
  {
    RunInv(cfg, ss, es);
    assert Places(ss[|es|], ep) == Count(ep in ss[|es|].created);
  }

  /** A step orders the stop of an endpoint exactly if it takes away the last user of it. */
  lemma StopsWithLastUser(cfg: Config, s: State, e: Event, ep: Endpoint)
    requires Inv(cfg, s) && Enabled(s, e)
    ensures var s' := Next(cfg, s, e);
            ep in s'.closing && ep !in s.closing <==> Users(s, ep) != {} && Users(s', ep) == {}
  {
    var s' := Next(cfg, s, e);
    StepInv(cfg, s, e);
    InUse(cfg, s, ep);
    InUse(cfg, s', ep);
    assert Places(s, ep) == Count(ep in s.created) && Places(s', ep) == Count(ep in s'.created);
    hide Inv, IndexInv, Users;
    match e
    case DoFindOrCreate(u, id, works) => CreatesOnly(cfg, s, u, id, works);
    case DoClear(_, t) => UnlistLife(cfg, s, t);
    case DoFinish(_) =>
    case DoInform(_, _) =>
  }

  lemma CreatesOnly(cfg: Config, s: State, u: User, id: nat, works: bool)
    requires RemoteClients.ValidCursors(cfg, s)
    ensures var s' := FindOrCreate(cfg, s, u, id, works).0;
            s'.closing == s.closing && s'.stopped == s.stopped && s.created <= s'.created
  {
    hide Allocate;
  }

  lemma UnlistLife(cfg: Config, s: State, t: User)
    ensures var s' := Unlist(cfg, s, t); s'.stopped == s.stopped && s'.created == s.created && s.closing <= s'.closing
  {
  }

  /**
   Local ports. No two endpoints that are in use or about to be stopped go to the same remote
   address and port over the same protocol from the same configured local port.
   */
  lemma LocalPortsAreUnique(cfg: Config, ss: seq<State>, es: seq<Event>, a: Endpoint, b: Endpoint)
    requires IsRun(cfg, ss, es)
    ensures var s := ss[|es|];
            a in Held(s) && b in Held(s) && a != b && a.remote == b.remote && a.reliable == b.reliable
            ==> a.localPort != b.localPort || a.localPort == 0
  {
    RunInv(cfg, ss, es);
    if a in Held(ss[|es|]) && b in Held(ss[|es|]) { assert !Clash(a, b); }
  }

  /**
   Release of local ports. In every reachable state a configured local port counts as used towards a
   remote endpoint exactly as long as an endpoint that is in use or about to be stopped has it.
   */
  lemma UsedWhileHeld(cfg: Config, ss: seq<State>, es: seq<Event>, r: Remote, reliable: bool, p: Word)
    requires IsRun(cfg, ss, es) && p != 0
    ensures var s := ss[|es|]; p in UsedPorts(s.used, r, reliable) <==> HeldBy(Held(s), (r, reliable), p)
  {
    RunInv(cfg, ss, es);
    var s := ss[|es|];
    if HeldBy(Held(s), (r, reliable), p) {
      var ep :| ep in Held(s) && ep.remote == r && ep.reliable == reliable && ep.localPort == p;
      assert PortOk(s.used, ep);
    }
  }

  /**
   Who shares. In every reachable state two remote services have the same client endpoint if and only
   if theirs go to the same address and port over the same protocol and they are in the same partition.
   */
  lemma SharesExactly(cfg: Config, ss: seq<State>, es: seq<Event>, u: User, v: User)
    requires IsRun(cfg, ss, es) && u in ss[|es|].services && v in ss[|es|].services
    ensures var s := ss[|es|];
            s.services[u] == s.services[v] <==>
              s.services[u].remote == s.services[v].remote && u.reliable == v.reliable && Partition(cfg, u) == Partition(cfg, v)
  {
    RunInv(cfg, ss, es);
    var s := ss[|es|];
    assert UserOk(cfg, s.services, s.index, u) && UserOk(cfg, s.services, s.index, v);
  }

  /** Remote services of different partitions never share; one without a partition is in partition 0. */
  lemma PartitionsSeparate(cfg: Config, ss: seq<State>, es: seq<Event>, u: User, v: User)
    requires IsRun(cfg, ss, es) && u in ss[|es|].services && v in ss[|es|].services
    requires var a, b := (u.service, u.instance), (v.service, v.instance);
             (if a in cfg.partitions then cfg.partitions[a] else 0) != (if b in cfg.partitions then cfg.partitions[b] else 0)
    ensures ss[|es|].services[u] != ss[|es|].services[v]
  {
    SharesExactly(cfg, ss, es, u, v);
  }

  // ------------------------------------------------------------------- what one step does

  /** Specific ports or a range are configured for the user and its remote port, in the user's protocol. */
  predicate PortsConfigured(cfg: Config, u: User, r: Remote) {
    var entries := if u.reliable then cfg.reliable else cfg.unreliable;
    SpecificPorts(entries, u.service, u.instance) != [] || Configured(entries, r.port)
  }

  /** A port that is configured for the user and not used towards the remote endpoint. */
  predicate Usable(cfg: Config, s: State, u: User, r: Remote, p: Word) {
    && Candidate(if u.reliable then cfg.reliable else cfg.unreliable, u.service, u.instance, r.port, p)
    && p !in UsedPorts(s.used, r, u.reliable)
  }

  lemma AllocateAnswers(cfg: Config, s: State, u: User, r: Remote)
    requires RemoteClients.ValidCursors(cfg, s)
    ensures var a := Allocate(cfg, s, u, r);
            && (a.ok ==> (Usable(cfg, s, u, r, a.port) && a.port != ILLEGAL_PORT) || (a.port == 0 && !PortsConfigured(cfg, u, r)))
            && (Sane(Entries(cfg, u.reliable), u.service, u.instance, r.port) ==>
                  && (a.ok <==> !PortsConfigured(cfg, u, r) || exists p :: Usable(cfg, s, u, r, p))
                  && (a.ok ==> (a.port == 0 <==> !PortsConfigured(cfg, u, r))))
  {
    var entries, c, used := Entries(cfg, u.reliable), s.cursors[u.reliable], UsedPorts(s.used, r, u.reliable);
    var ports := SpecificPorts(entries, u.service, u.instance);
    FindPortFinds(entries, c.generic, r.port, used);
    if ports != [] { SpecificIsFree(ports, c.specific[FindClient(entries, u.service, u.instance)], used); }
    if Sane(entries, u.service, u.instance, r.port) {
      ClientPortAnswers(entries, c.generic, c.specific, u.service, u.instance, r.port, used);
    }
    hide FindSpecific, FindPort, FindClient, Configured, Offers, Sane, SpecificPorts;
  }

  /** What a search answers that needs no new endpoint. */
  lemma FindsExactly(cfg: Config, s: State, u: User, id: nat, works: bool)
    requires RemoteClients.ValidCursors(cfg, s)
    ensures u.major == ANY_MAJOR ==> FindOrCreate(cfg, s, u, id, works) == (s, None)
    ensures u.major != ANY_MAJOR && u in s.services ==> FindOrCreate(cfg, s, u, id, works) == (s, Some(s.services[u]))
  {
  }

  /**
   What a search creates if there is nothing to find: for a user whose remote endpoint is known, an
   endpoint to just that one over the user's protocol, from a local port that is configured for the
   user and free, or from any port exactly if none is configured. Nothing is created, and only cursors
   may move, if the socket does not work or all configured ports are used.
   */
  lemma CreatesExactly(cfg: Config, s: State, u: User, id: nat, works: bool)
    requires RemoteClients.ValidCursors(cfg, s) && u !in s.services && u.major != ANY_MAJOR
    requires u in s.info ==> KeyOf(cfg, u, s.info[u]) !in s.index
    ensures var (s', made) := FindOrCreate(cfg, s, u, id, works);
            && (made.None? ==> s' == s.(cursors := s'.cursors))
            && (made.Some? ==> u in s.info && s.info[u].port != ILLEGAL_PORT && works)
            && (made.Some? ==>
                  var ep, r := made.value, s.info[u];
                  && ep.id == id && ep.remote == r && ep.reliable == u.reliable
                  && ((Usable(cfg, s, u, r, ep.localPort) && ep.localPort != ILLEGAL_PORT)
                      || (ep.localPort == 0 && !PortsConfigured(cfg, u, r)))
                  && s'.services == s.services[u := ep] && s'.index == s.index[KeyOf(cfg, u, r) := ep]
                  && s'.created == s.created + {ep} && s'.closing == s.closing && s'.stopped == s.stopped)
            && (u in s.info && Sane(Entries(cfg, u.reliable), u.service, u.instance, s.info[u].port) ==>
                  var r := s.info[u];
                  && (made.Some? <==> r.port != ILLEGAL_PORT && works
                                      && (!PortsConfigured(cfg, u, r) || exists p :: Usable(cfg, s, u, r, p)))
                  && (made.Some? ==> (made.value.localPort == 0 <==> !PortsConfigured(cfg, u, r))))
  {
    if u in s.info { AllocateAnswers(cfg, s, u, s.info[u]); }
    hide Allocate, Usable, PortsConfigured, Sane;
  }

  /** Where a creation leaves the cursors: as the allocation for the user does, and those of the other protocol as they were. */
  lemma CreateMovesCursors(cfg: Config, s: State, u: User, id: nat, works: bool)
    requires RemoteClients.ValidCursors(cfg, s) && u !in s.services && u.major != ANY_MAJOR
    requires u in s.info && KeyOf(cfg, u, s.info[u]) !in s.index && s.info[u].port != ILLEGAL_PORT
    requires ILLEGAL_PORT !in SpecificPorts(Entries(cfg, u.reliable), u.service, u.instance)
    ensures var (s', made) := FindOrCreate(cfg, s, u, id, works); var entries := Entries(cfg, u.reliable);
            var c, used := FindClient(entries, u.service, u.instance), UsedPorts(s.used, s.info[u], u.reliable);
            && s'.cursors.Keys == s.cursors.Keys && s'.cursors[!u.reliable] == s.cursors[!u.reliable]
            && (made.Some? && HasSpecific(entries, u.service, u.instance, used) ==>
                  && made.value.localPort in SpecificPorts(entries, u.service, u.instance)
                  && s'.cursors[u.reliable].specific == s.cursors[u.reliable].specific[c := made.value.localPort])
            && (made.Some? && !HasSpecific(entries, u.service, u.instance, used) && Configured(entries, s.info[u].port) ==>
                  Marks(entries, s.info[u].port, Found(s'.cursors[u.reliable].generic, Some(made.value.localPort))))
  {
    var entries, c, r := Entries(cfg, u.reliable), s.cursors[u.reliable], s.info[u];
    var used := UsedPorts(s.used, r, u.reliable);
    SpecificCursor(entries, c.generic, c.specific, u.service, u.instance, r.port, used);
    if !HasSpecific(entries, u.service, u.instance, used) {
      AllocationMarks(entries, c.generic, c.specific, u.service, u.instance, r.port, used);
    }
    hide ClientPort, HasSpecific, Marks, Configured, FindClient, SpecificPorts;
  }

  /** Some user of the service instance has the major, over either protocol. */
  ghost predicate HasMajor(s: State, service: Word, instance: Word, m: Byte) {
    exists reliable :: User(service, instance, m, reliable) in s.services
  }

  /**
   Whom a removal is for: the user itself, unless it is for any major, there is no entry of that name
   and there are others of the service instance; then for one of those, and there is always one.
   */
  lemma TargetsExactly(s: State, u: User, t: User)
    ensures var other := u.major == ANY_MAJOR && !HasMajor(s, u.service, u.instance, ANY_MAJOR)
                         && exists m :: HasMajor(s, u.service, u.instance, m);
            && (!other ==> (IsTarget(s, u, t) <==> t == u))
            && (other ==> (IsTarget(s, u, t) <==> t == u.(major := t.major) && HasMajor(s, u.service, u.instance, t.major)))
    ensures exists v :: IsTarget(s, u, v)
  {
    forall m ensures HasMajor(s, u.service, u.instance, m) <==> Listed(s, u.service, u.instance, m) {
      if Listed(s, u.service, u.instance, m) {
        assert User(u.service, u.instance, m, true) in s.services || User(u.service, u.instance, m, false) in s.services;
      }
    }
    hide Listed, HasMajor;
    if u.major == ANY_MAJOR && !Listed(s, u.service, u.instance, ANY_MAJOR) && (exists m :: Listed(s, u.service, u.instance, m)) {
      var m :| Listed(s, u.service, u.instance, m);
      assert IsTarget(s, u, u.(major := m));
    } else {
      assert IsTarget(s, u, u);
    }
  }

  /** A removal takes away exactly the entry of its target, and for the rest only what follows from that. */
  lemma ClearsExactly(cfg: Config, s: State, t: User)
    ensures var s' := Unlist(cfg, s, t);
            s' == s.(services := s.services - {t}, index := s'.index, closing := s'.closing)
  {
    if t !in s.services { assert s.services - {t} == s.services; }
  }

  /** An endpoint that is created after the remote service info has changed goes to the new address and port. */
  lemma CreatesAsInformed(cfg: Config, s: State, u: User, r: Option<Remote>, id: nat, works: bool)
    requires RemoteClients.ValidCursors(cfg, s) && u !in s.services
    ensures var s1 := Next(cfg, s, DoInform(u, r)); var (s2, made) := FindOrCreate(cfg, s1, u, id, works);
            && (r.None? ==> made == None && s2.created == s.created)
            && (r.Some? && s2.created != s.created ==> made.Some? && made.value.remote == r.value)
            && forall v :: v != u ==> (v in s1.info <==> v in s.info) && (v in s.info ==> s1.info[v] == s.info[v])
  {
    hide Allocate;
  }
}
