/**
 The maps of routing endpoints as an object that is updated in place. Each method is one section
 under the routing mutex; calls of endpoints are recorded in the ghost state.
 */
module RoutingTable {
  import opened Common
  import opened RoutingHandover

  class Table {
    var live: map<nat, Endpoint>
    var pending: map<nat, Endpoint>
    ghost var state: State

    /** The maps are those of the ghost state. */
    ghost predicate Shows()
      reads this
    {
      state.live == live && state.pending == pending
    }

    /** Between sections the invariant of the protocol holds. */
    ghost predicate Valid()
      reads this
    {
      Shows() && Inv(state)
    }

    constructor ()
      ensures Valid() && state == Empty
    {
      live, pending := map[], map[];
      state := Empty;
    }

    /** The scan for a live endpoint with the same peer, in any order. */
    method FindOccupant(peer: Peer) returns (victim: Option<Endpoint>)
      ensures IsVictim(live, peer, victim)
    {
      victim := None;
      if peer != NoPeer {
        var ids := live.Keys;
        while ids != {}
          invariant ids <= live.Keys
          invariant forall c :: c in live && c !in ids ==> live[c].peer != peer
          decreases |ids|
        {
          var id :| id in ids;
          if live[id].peer == peer {
            assert live[id] in Occupants(live, peer);
            return Some(live[id]);
          }
          ids := ids - {id};
        }
      }
    }

    method AddUnlocked(ep: Endpoint) returns (installed: bool, ghost victim: Option<Endpoint>)
      requires Shows()
      modifies this
      ensures Shows() && state == RoutingHandover.AddUnlocked(old(state), ep, victim)
      ensures installed == (ep.client !in old(live))
      ensures installed ==> IsVictim(old(live), ep.peer, victim)
    {
      victim := None;
      if ep.client in live {
        if ep.client in pending {
          state := state.(stopped := state.stopped + multiset{pending[ep.client]});
        }
        pending := pending[ep.client := ep];
        state := state.(pending := pending, failing := state.failing + {live[ep.client]});
        return false, None;
      }
      var occupant := FindOccupant(ep.peer);
      victim := occupant;
      if occupant.Some? {
        state := state.(failing := state.failing + {occupant.value});
      }
      live := live[ep.client := ep];
      state := state.(live := live, started := state.started + multiset{ep}, due := state.due + multiset{ep});
      installed := true;
    }

    /** `installed` says that a report has to follow. */
    method Add(ep: Endpoint) returns (installed: bool, ghost e: Event)
      requires Valid() && ep !in state.given
      modifies this
      ensures Valid() && e.DoAdd? && e.endpoint == ep && Enabled(old(state), e) && state == Next(old(state), e)
      ensures installed <==> state.due[ep] > old(state).due[ep]
    {
      ghost var v: Option<Endpoint>;
      state := state.(given := state.given + {ep});
      installed, v := AddUnlocked(ep);
      e := DoAdd(ep, v);
      hide Inv, Next, Enabled, RoutingHandover.AddUnlocked;
      StepInv(old(state), e);
    }

    /** `promoted` is the endpoint for which a report has to follow. */
    method Remove(client: nat) returns (promoted: Option<Endpoint>, ghost e: Event)
      requires Valid()
      modifies this
      ensures Valid() && e.DoRemove? && e.client == client && Enabled(old(state), e) && state == Next(old(state), e)
      ensures state.due == if promoted.Some? then old(state).due + multiset{promoted.value} else old(state).due
    {
      ghost var v: Option<Endpoint> := None;
      promoted := None;
      if client in live {
        state := state.(stopped := state.stopped + multiset{live[client]}, live := live - {client});
        live := live - {client};
      }
      if client in pending {
        var installed;
        promoted := Some(pending[client]);
        installed, v := AddUnlocked(pending[client]);
        pending := pending - {client};
        state := state.(pending := pending);
      }
      e := DoRemove(client, v);
      StepInv(old(state), e);
    }

    method FailFrom(address: nat)
      requires Shows()
      modifies this
      ensures Shows() && state == old(state).(failing := old(state).failing + At(old(live), address))
    {
      hide Visited, At;
      VisitedNone(live);
      var ids := live.Keys;
      while ids != {}
        invariant Shows() && ids <= live.Keys && live == old(live)
        invariant state == old(state).(failing := old(state).failing + At(Visited(live, ids), address))
        decreases |ids|
      {
        var id :| id in ids;
        VisitAt(live, ids, id, address);
        if live[id].peer.address == address {
          state := state.(failing := state.failing + {live[id]});
        }
        ids := ids - {id};
      }
      VisitedAll(live);
    }

    method StopPending(id: nat)
      requires Shows() && id in pending
      modifies this`pending, this`state
      ensures Shows() && pending == old(pending) - {id}
      ensures state == old(state).(pending := pending, stopped := old(state).stopped + multiset{old(pending)[id]})
    {
      state := state.(stopped := state.stopped + multiset{pending[id]});
      pending := pending - {id};
      state := state.(pending := pending);
    }

    method StopPendingFrom(address: nat)
      requires Shows() && Keyed(pending)
      modifies this
      ensures Shows()
      ensures pending == map c | c in old(pending) && old(pending)[c].peer.address != address :: old(pending)[c]
      ensures state == old(state).(pending := pending, stopped := old(state).stopped + multiset(At(old(pending), address)))
    {
      ghost var all := pending;
      KeptEnds(all, address);
      VisitedNone(all);
      hide Visited, At, Kept;
      var ids := pending.Keys;
      while ids != {}
        invariant Shows() && ids <= all.Keys
        invariant pending == Kept(all, ids, address)
        invariant state == old(state).(pending := pending, stopped := old(state).stopped + multiset(At(Visited(all, ids), address)))
        decreases |ids|
      {
        var id :| id in ids;
        KeptStep(all, ids, id, address);
        if pending[id].peer.address == address {
          VisitAt(all, ids, id, address);
          Assoc(old(state).stopped, multiset(At(Visited(all, ids), address)), pending[id]);
          StopPending(id);
        } else {
          VisitAt(all, ids, id, address);
        }
        ids := ids - {id};
      }
      VisitedAll(all);
    }

    method DropFrom(address: nat)
      requires Valid()
      modifies this
      ensures Valid() && state == Next(old(state), DoDropFrom(address))
    {
      FailFrom(address);
      StopPendingFrom(address);
      assert state == Next(old(state), DoDropFrom(address));
      StepInv(old(state), DoDropFrom(address));
    }

    method Clear()
      requires Valid()
      modifies this
      ensures Valid() && state == Next(old(state), DoClear)
    {
      StopAllLive();
      StopAllPending();
      live, pending := map[], map[];
      state := state.(live := map[], pending := map[]);
      StepInv(old(state), DoClear);
    }

    method StopAllLive()
      requires Shows() && Keyed(live)
      modifies this`state
      ensures Shows()
      ensures state == old(state).(stopped := old(state).stopped + multiset(live.Values),
                                   graceful := old(state).graceful + multiset(live.Values))
    {
      hide Visited, At;
      VisitedNone(live);
      var ids := live.Keys;
      while ids != {}
        invariant Shows() && ids <= live.Keys
        invariant state == old(state).(stopped := old(state).stopped + multiset(Visited(live, ids).Values),
                                       graceful := old(state).graceful + multiset(Visited(live, ids).Values))
        decreases |ids|
      {
        var id :| id in ids;
        VisitValues(live, ids, id);
        Assoc(old(state).stopped, multiset(Visited(live, ids).Values), live[id]);
        Assoc(old(state).graceful, multiset(Visited(live, ids).Values), live[id]);
        state := state.(stopped := state.stopped + multiset{live[id]}, graceful := state.graceful + multiset{live[id]});
        ids := ids - {id};
      }
      VisitedAll(live);
    }

    method StopAllPending()
      requires Shows() && Keyed(pending)
      modifies this`state
      ensures Shows()
      ensures state == old(state).(stopped := old(state).stopped + multiset(pending.Values))
    {
      hide Visited, At;
      VisitedNone(pending);
      var ids := pending.Keys;
      while ids != {}
        invariant Shows() && ids <= pending.Keys
        invariant state == old(state).(stopped := old(state).stopped + multiset(Visited(pending, ids).Values))
        decreases |ids|
      {
        var id :| id in ids;
        VisitValues(pending, ids, id);
        Assoc(old(state).stopped, multiset(Visited(pending, ids).Values), pending[id]);
        state := state.(stopped := state.stopped + multiset{pending[id]});
        ids := ids - {id};
      }
      VisitedAll(pending);
    }

    /** `on_register_application`, called outside of the mutex. */
    method Report(ep: Endpoint)
      requires Valid() && ep in state.due
      modifies this`state
      ensures Valid() && state == Next(old(state), DoReport(ep))
    {
      state := state.(due := state.due - multiset{ep}, reported := state.reported + multiset{ep});
      StepInv(old(state), DoReport(ep));
    }
  }

  /** The entries a loop has visited when those of `ids` are still to come. */
  ghost function Visited(m: map<nat, Endpoint>, ids: set<nat>): map<nat, Endpoint> {
    m - ids
  }

  lemma VisitedNone(m: map<nat, Endpoint>)
    ensures Visited(m, m.Keys) == map[] && Visited(m, m.Keys).Values == {}
    ensures forall a :: At(map[], a) == {}
  {
  }

  lemma VisitedAll(m: map<nat, Endpoint>)
    ensures Visited(m, {}) == m
  {
  }

  lemma Assoc(a: multiset<Endpoint>, b: multiset<Endpoint>, x: Endpoint)
    ensures a + b + multiset{x} == a + (b + multiset{x})
  {
  }

  /** The pending endpoints while those of `ids` are still to be visited by a drop. */
  ghost function Kept(m: map<nat, Endpoint>, ids: set<nat>, address: nat): map<nat, Endpoint> {
    map c | c in m && (c in ids || m[c].peer.address != address) :: m[c]
  }

  lemma KeptEnds(m: map<nat, Endpoint>, address: nat)
    ensures Kept(m, m.Keys, address) == m
    ensures Kept(m, {}, address) == map c | c in m && m[c].peer.address != address :: m[c]
  {
  }

  lemma KeptStep(m: map<nat, Endpoint>, ids: set<nat>, id: nat, address: nat)
    requires id in ids && ids <= m.Keys
    ensures id in Kept(m, ids, address) && Kept(m, ids, address)[id] == m[id]
    ensures Kept(m, ids - {id}, address) ==
            if m[id].peer.address == address then Kept(m, ids, address) - {id} else Kept(m, ids, address)
  {
  }

  lemma VisitAt(m: map<nat, Endpoint>, ids: set<nat>, id: nat, address: nat)
    requires id in ids && ids <= m.Keys
    ensures var before, after := At(Visited(m, ids), address), At(Visited(m, ids - {id}), address);
            && after == (if m[id].peer.address == address then before + {m[id]} else before)
            && (Keyed(m) ==> m[id] !in before)
            && (Keyed(m) && m[id].peer.address == address ==> multiset(after) == multiset(before) + multiset{m[id]})
  {
    var before, after := Visited(m, ids), Visited(m, ids - {id});
    assert after.Keys == before.Keys + {id};
    assert forall c :: c in before ==> after[c] == before[c];
    forall ep | ep in At(after, address) || ep in At(before, address)
      ensures ep in At(after, address) <==> ep in At(before, address) || (ep == m[id] && ep.peer.address == address)
    {
      if ep == m[id] && ep.peer.address == address { assert after[id] == ep; }
    }
    if m[id].peer.address == address { assert after[id] == m[id]; }
  }

  lemma VisitValues(m: map<nat, Endpoint>, ids: set<nat>, id: nat)
    requires Keyed(m) && id in ids && ids <= m.Keys
    ensures multiset(Visited(m, ids - {id}).Values) == multiset(Visited(m, ids).Values) + multiset{m[id]}
  {
    var before, after := Visited(m, ids), Visited(m, ids - {id});
    assert after == before[id := m[id]];
    assert m[id] !in before.Values;
    forall ep ensures ep in after.Values <==> ep in before.Values || ep == m[id] {
      if ep == m[id] { assert after[id] == ep; }
      if ep in before.Values {
        var c :| c in before && before[c] == ep;
        assert after[c] == ep;
      }
    }
    assert after.Values == before.Values + {m[id]};
  }
}
