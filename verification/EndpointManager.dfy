/** The manager of client endpoints as an object that is updated in place, on top of its tables. */
module EndpointManager {
  import opened Common
  import opened ClientPorts
  import opened PortAllocator
  import opened RemoteClients
  import opened EndpointTables
  import Proofs = RemoteClientsProofs

  class Manager {
    const cfg: Config
    const tcp: Clients
    const udp: Clients
    var remoteServices: ServiceTable
    var clientEndpoints: EndpointTable
    var usedClientPorts: PortTable
    var info: map<User, Remote>
    ghost var state: State

    /** The tables are those of the ghost state. */
    ghost predicate Shows()
      reads this
    {
      && Serves(remoteServices, state.services)
      && Indexes(clientEndpoints, state.index)
      && Marks(usedClientPorts, state.used)
      && info == state.info
    }

    ghost predicate Allocators()
      reads this, tcp, udp
    {
      && tcp != udp && tcp.Valid() && udp.Valid()
      && tcp.entries == cfg.reliable && udp.entries == cfg.unreliable
      && state.cursors == map[true := Cursors(tcp.cursors, tcp.specific), false := Cursors(udp.cursors, udp.specific)]
    }

    ghost predicate Valid()
      reads this, tcp, udp
    {
      Shows() && Allocators() && Proofs.Inv(cfg, state)
    }

    constructor (cfg: Config)
      requires forall i :: 0 <= i < |cfg.reliable| ==> Ascending(cfg.reliable[i].ports)
      requires forall i :: 0 <= i < |cfg.unreliable| ==> Ascending(cfg.unreliable[i].ports)
      ensures Valid() && this.cfg == cfg && state == Initial(cfg) && fresh(tcp) && fresh(udp)
    {
      this.cfg := cfg;
      tcp := new Clients(cfg.reliable);
      udp := new Clients(cfg.unreliable);
      remoteServices, clientEndpoints, usedClientPorts, info := map[], map[], map[], map[];
      state := Initial(cfg);
      new;
      Proofs.RunInv(cfg, [state], []);
      assert Cursors(tcp.cursors, tcp.specific) == Fresh(|cfg.reliable|);
      assert Cursors(udp.cursors, udp.specific) == Fresh(|cfg.unreliable|);
    }

    method LookupUser(u: User) returns (found: Option<Endpoint>)
      requires Shows()
      ensures found == Get(state.services, u)
    {
      assert LookupService(remoteServices, u) == Get(state.services, u);
      if ServiceOf(u) in remoteServices && u.reliable in remoteServices[ServiceOf(u)] {
        return Some(remoteServices[ServiceOf(u)][u.reliable]);
      }
      found := None;
    }

    method LookupKey(k: Key) returns (found: Option<Endpoint>)
      requires Shows()
      ensures found == Get(state.index, k) == LookupEndpoint(clientEndpoints, k)
    {
      assert LookupEndpoint(clientEndpoints, k) == Get(state.index, k);
      found := None;
      if k.remote.address in clientEndpoints {
        var ports := clientEndpoints[k.remote.address];
        if k.remote.port in ports {
          var protocols := ports[k.remote.port];
          if k.reliable in protocols {
            var partitions := protocols[k.reliable];
            if k.partition in partitions {
              found := Some(partitions[k.partition]);
            }
          }
        }
      }
    }

    /** Stores an endpoint under a user. */
    method Attach(u: User, ep: Endpoint)
      requires Shows()
      modifies this`remoteServices, this`state
      ensures Shows() && state == old(state).(services := old(state).services[u := ep])
    {
      InsertService(remoteServices, state.services, u, ep);
      remoteServices := remoteServices[ServiceOf(u) := Inner(remoteServices, ServiceOf(u))[u.reliable := ep]];
      state := state.(services := state.services[u := ep]);
    }

    method Find(u: User) returns (found: Option<Endpoint>)
      requires Shows()
      modifies this`remoteServices, this`state
      ensures Shows() && (state, found) == RemoteClients.Find(cfg, old(state), u)
    {
      found := None;
      if u.major == ANY_MAJOR {
        return;
      }
      found := LookupUser(u);
      if found.Some? {
        return;
      }
      if u in info {
        found := LookupKey(Key(info[u], u.reliable, Partition(cfg, u)));
        if found.Some? {
          Attach(u, found.value);
        }
      }
    }

    /** Asks the allocator of the protocol for a local port. */
    method AllocatePort(u: User, r: Remote) returns (ok: bool, port: Word)
      requires Shows() && Allocators() && RemoteClients.ValidCursors(cfg, state)
      requires ILLEGAL_PORT !in UsedPorts(state.used, r, u.reliable)
      modifies this`state, tcp, udp
      ensures Shows() && Allocators()
      ensures var a := Allocate(cfg, old(state), u, r);
              && ok == a.ok && port == a.port
              && state == old(state).(cursors := old(state).cursors[u.reliable := Cursors(a.cursors, a.specific)])
    {
      hide ClientPorts.ValidCursors, ClientPort, Serves, Indexes, Marks;
      var used := GetUsedPorts(r, u.reliable);
      if u.reliable {
        ok, port := tcp.GetClientPort(u.service, u.instance, r.port, used);
        state := state.(cursors := state.cursors[true := Cursors(tcp.cursors, tcp.specific)]);
      } else {
        ok, port := udp.GetClientPort(u.service, u.instance, r.port, used);
        state := state.(cursors := state.cursors[false := Cursors(udp.cursors, udp.specific)]);
      }
    }

    method GetUsedPorts(r: Remote, reliable: bool) returns (used: set<Word>)
      requires Shows()
      ensures used == UsedPorts(state.used, r, reliable)
    {
      assert LookupPorts(usedClientPorts, r, reliable) == UsedPorts(state.used, r, reliable);
      used := {};
      if r.address in usedClientPorts {
        if r.port in usedClientPorts[r.address] {
          var protocols := usedClientPorts[r.address][r.port];
          used := if reliable in protocols then protocols[reliable] else {};
        }
      }
    }

    method RequestUsedPort(ep: Endpoint)
      requires Shows()
      modifies this`usedClientPorts, this`state
      ensures Shows()
      ensures state == old(state).(used := old(state).used[(ep.remote, ep.reliable) :=
                                     UsedPorts(old(state).used, ep.remote, ep.reliable) + {ep.localPort}])
    {
      InsertedPort(usedClientPorts, state.used, ep.remote, ep.reliable, ep.localPort);
      hide Serves, Indexes, Marks, InsertPort;
      usedClientPorts := InsertPort(usedClientPorts, ep.remote, ep.reliable, ep.localPort);
      state := state.(used := state.used[(ep.remote, ep.reliable) := UsedPorts(state.used, ep.remote, ep.reliable) + {ep.localPort}]);
    }

    /** Stores an endpoint at its place in the index. */
    method AddToIndex(k: Key, ep: Endpoint)
      requires Shows()
      modifies this`clientEndpoints, this`state
      ensures Shows()
      ensures state == old(state).(index := old(state).index[k := ep], created := old(state).created + {ep})
    {
      InsertedEndpoint(clientEndpoints, state.index, k, ep);
      hide Serves, Indexes, Marks, InsertEndpoint;
      clientEndpoints := InsertEndpoint(clientEndpoints, k, ep);
      state := state.(index := state.index[k := ep], created := state.created + {ep});
    }

    /** Marks the port, stores the endpoint under the user and at its place in the index. */
    method Enter(u: User, ep: Endpoint)
      requires Shows()
      modifies this`remoteServices, this`clientEndpoints, this`usedClientPorts, this`state
      ensures Shows() && state == RemoteClients.Enter(cfg, old(state), u, ep) && state.cursors == old(state).cursors
    {
      hide Shows;
      RequestUsedPort(ep);
      Attach(u, ep);
      AddToIndex(KeyOf(cfg, u, ep.remote), ep);
    }

    /** `id` names the new endpoint; `works` says whether its socket could be set up. */
    method Create(u: User, id: nat, works: bool) returns (created: Option<Endpoint>)
      requires Shows() && Allocators() && RemoteClients.ValidCursors(cfg, state)
      requires forall k :: k in state.used ==> ILLEGAL_PORT !in state.used[k]
      modifies this, tcp, udp
      ensures Shows() && Allocators()
      ensures (state, created) == RemoteClients.Create(cfg, old(state), u, id, works)
    {
      hide ClientPorts.ValidCursors, Allocate, RemoteClients.Enter, Serves, Indexes, Marks;
      created := None;
      if u.major == ANY_MAJOR {
        return;
      }
      if u !in info || info[u].port == ILLEGAL_PORT {
        return;
      }
      var r := info[u];
      var ok, port := AllocatePort(u, r);
      if ok && works {
        var ep := Endpoint(id, r, u.reliable, port);
        Enter(u, ep);
        created := Some(ep);
      }
    }

    method FindOrCreate(u: User, id: nat, works: bool) returns (found: Option<Endpoint>)
      requires Valid() && Enabled(state, DoFindOrCreate(u, id, works))
      modifies this, tcp, udp
      ensures Valid() && (state, found) == RemoteClients.FindOrCreate(cfg, old(state), u, id, works)
    {
      Proofs.StepInv(cfg, state, DoFindOrCreate(u, id, works));
      Proofs.FindInv(cfg, state, u);
      hide Proofs.Inv, Shows, RemoteClients.Find, RemoteClients.Create, ClientPorts.ValidCursors, Enabled;
      ghost var before := state;
      found := Find(u);
      KeepsCursors(before, u);
      if found.None? {
        Unreserved(cfg, state);
        found := Create(u, id, works);
      }
    }

    lemma KeepsCursors(s: State, u: User)
      ensures RemoteClients.Find(cfg, s, u).0.cursors == s.cursors
    {
    }

    /** The remote service info changes. */
    method Inform(u: User, r: Option<Remote>)
      requires Valid()
      modifies this`info, this`state
      ensures Valid() && state == Next(cfg, old(state), DoInform(u, r))
    {
      Proofs.StepInv(cfg, state, DoInform(u, r));
      hide Proofs.Inv, Serves, Indexes, Marks, ClientPorts.ValidCursors;
      info := if r.Some? then info[u := r.value] else info - {u};
      state := state.(info := info);
    }

    /** The scan for another service that is reached through the endpoint. */
    method HasOtherUser(ep: Endpoint, reliable: bool) returns (other: bool)
      requires Shows()
      ensures other <==> exists u :: u in state.services && u.reliable == reliable && state.services[u] == ep
    {
      var ids := remoteServices.Keys;
      while ids != {}
        invariant ids <= remoteServices.Keys
        invariant forall k :: k in remoteServices && k !in ids ==> LookupService(remoteServices, UserOf(k, reliable)) != Some(ep)
        decreases |ids|
      {
        var k :| k in ids;
        if reliable in remoteServices[k] && remoteServices[k][reliable] == ep {
          assert LookupService(remoteServices, UserOf(k, reliable)) == Get(state.services, UserOf(k, reliable));
          return true;
        }
        ids := ids - {k};
      }
      forall u | u in state.services && u.reliable == reliable ensures state.services[u] != ep {
        assert LookupService(remoteServices, u) == Get(state.services, u);
        assert UserOf(ServiceOf(u), reliable) == u;
      }
      other := false;
    }

    /** The entry a request to clear is about. */
    method FindTarget(u: User) returns (t: User)
      requires Shows()
      ensures IsTarget(state, u, t)
    {
      Lists(remoteServices, state, u.service, u.instance);
      t := u;
      if ServiceOf(u) !in remoteServices && u.major == ANY_MAJOR {
        var ids := remoteServices.Keys;
        while ids != {}
          invariant ids <= remoteServices.Keys && t == u
          invariant forall k :: k in remoteServices && k !in ids ==> k.service != u.service || k.instance != u.instance
          decreases |ids|
        {
          var k :| k in ids;
          if k.service == u.service && k.instance == u.instance {
            assert k == Service(u.service, u.instance, k.major);
            return u.(major := k.major);
          }
          ids := ids - {k};
        }
      }
    }

    method Detach(t: User)
      requires Shows() && t in state.services
      modifies this`remoteServices, this`state
      ensures Shows() && state == old(state).(services := old(state).services - {t})
    {
      ErasedService(remoteServices, state.services, t);
      remoteServices := EraseService(remoteServices, t);
      state := state.(services := state.services - {t});
    }

    /** Removes an endpoint from its place in the index, if it is there. */
    method Unindex(k: Key, ep: Endpoint)
      requires Shows()
      modifies this`clientEndpoints, this`state
      ensures Shows()
      ensures var i := old(state).index; state == old(state).(index := if k in i && i[k] == ep then i - {k} else i)
    {
      var found := LookupKey(k);
      if found == Some(ep) {
        ErasedEndpoint(clientEndpoints, state.index, k);
        hide Serves, Indexes, Marks, EraseEndpoint;
        clientEndpoints := EraseEndpoint(clientEndpoints, k);
        state := state.(index := state.index - {k});
      }
    }

    /** The section that removes a user; an endpoint without users is returned, to be finished. */
    method Unlist(u: User) returns (last: Option<Endpoint>, ghost t: User)
      requires Shows()
      modifies this`remoteServices, this`clientEndpoints, this`state
      ensures Shows() && IsTarget(old(state), u, t) && state == RemoteClients.Unlist(cfg, old(state), t)
      ensures last.Some? <==> t in old(state).services && !(exists v :: v in state.services && v.reliable == t.reliable && state.services[v] == old(state).services[t])
      ensures last.Some? ==> last.value == old(state).services[t]
    {
      hide IsTarget, Serves, Indexes, Marks;
      last := None;
      var target := FindTarget(u);
      t := target;
      var found := LookupUser(target);
      if found.Some? {
        var ep := found.value;
        Detach(target);
        var other := HasOtherUser(ep, target.reliable);
        if !other {
          Unindex(KeyOf(cfg, target, ep.remote), ep);
          state := state.(closing := state.closing + {ep});
          last := Some(ep);
        }
      }
    }

    /** Releases the local port and stops the endpoint. */
    method Finish(ep: Endpoint)
      requires Shows()
      modifies this`usedClientPorts, this`state
      ensures Shows() && state == RemoteClients.Finish(old(state), ep) && state.cursors == old(state).cursors
    {
      ErasedPort(usedClientPorts, state.used, ep.remote, ep.reliable, ep.localPort);
      hide Serves, Indexes, Marks, ErasePort;
      usedClientPorts := ErasePort(usedClientPorts, ep.remote, ep.reliable, ep.localPort);
      state := RemoteClients.Finish(state, ep);
    }

    /** Both sections in a row: the endpoint is stopped exactly if its last user is taken away. */
    method Clear(u: User) returns (stopped: Option<Endpoint>, ghost t: User)
      requires Valid()
      modifies this`remoteServices, this`clientEndpoints, this`usedClientPorts, this`state
      ensures Valid() && IsTarget(old(state), u, t)
      ensures stopped == (if t in old(state).services && Users(old(state), old(state).services[t]) == {t}
                          then Some(old(state).services[t]) else None)
      ensures var s := RemoteClients.Unlist(cfg, old(state), t);
              state == if stopped.Some? then RemoteClients.Finish(s, stopped.value) else s
    {
      ghost var before := state;
      hide Shows, IsTarget, Proofs.Inv, ClientPorts.ValidCursors, RemoteClients.Unlist, RemoteClients.Finish, Users;
      stopped, t := Unlist(u);
      Proofs.UnlistInv(cfg, before, t);
      LastUser(cfg, before, t);
      if stopped.Some? {
        Finish(stopped.value);
        Proofs.FinishInv(cfg, RemoteClients.Unlist(cfg, before, t), stopped.value);
      }
    }
  }

  lemma Unreserved(cfg: Config, s: State)
    requires Proofs.Inv(cfg, s)
    ensures RemoteClients.ValidCursors(cfg, s) && forall k :: k in s.used ==> ILLEGAL_PORT !in s.used[k]
  {
  }

  lemma HasProtocol(inner: map<bool, Endpoint>)
    requires inner != map[]
    ensures true in inner || false in inner
  {
    assert forall b: bool :: b in inner.Keys ==> b == true || b == false;
    assert !(true in inner || false in inner) ==> inner.Keys == {};
  }

  /** A service is listed exactly if one of its protocols has an entry. */
  lemma Lists(m: ServiceTable, s: State, service: Word, instance: Word)
    requires Serves(m, s.services)
    ensures forall major :: Listed(s, service, instance, major) <==> Service(service, instance, major) in m
  {
    forall major ensures Listed(s, service, instance, major) <==> Service(service, instance, major) in m {
      var k := Service(service, instance, major);
      assert LookupService(m, UserOf(k, true)) == Get(s.services, UserOf(k, true));
      assert LookupService(m, UserOf(k, false)) == Get(s.services, UserOf(k, false));
      if k in m {
        HasProtocol(m[k]);
      }
    }
  }

  lemma LastUser(cfg: Config, s: State, t: User)
    requires Proofs.Inv(cfg, s)
    ensures var s' := RemoteClients.Unlist(cfg, s, t);
            && s'.cursors == s.cursors
            && (t in s.services ==>
                  var ep := s.services[t];
                  && (Users(s, ep) == {t} <==> !(exists v :: v in s'.services && v.reliable == t.reliable && s'.services[v] == ep))
                  && (Users(s, ep) == {t} ==> ep in s'.closing))
  {
    if t in s.services {
      var s', ep := RemoteClients.Unlist(cfg, s, t), s.services[t];
      Proofs.UnlistShape(cfg, s, t);
      assert s'.services == s.services - {t};
      if Users(s, ep) == {t} {
        assert forall v :: v in s.services && s.services[v] == ep ==> v in Users(s, ep);
      } else {
        assert t in Users(s, ep);
        var v :| v in Users(s, ep) && v != t;
        assert Proofs.UserOk(cfg, s.services, s.index, v) && Proofs.UserOk(cfg, s.services, s.index, t);
        assert v in s'.services;
      }
    }
  }
}
