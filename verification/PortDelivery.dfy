/**
 When the search in port ranges keeps its promise over runs of calls. A range that ends at 0xFFFF,
 which is also what an entry without client ports gets, makes the search stop with the illegal
 port and so hides the ports behind it.
 */
module PortDelivery {
  import opened Common
  import opened ClientPorts

  ghost predicate HasFree(entries: seq<Entry>, remote: Word, used: set<Word>) {
    exists q: Word :: Offers(entries, remote, q) && q != ILLEGAL_PORT && q !in used
  }

  /** The promise of the search: a usable port exactly if a matching range has a free one. */
  ghost predicate Delivers(entries: seq<Entry>, cursors: seq<Word>, remote: Word, used: set<Word>)
    requires |cursors| == |entries|
  {
    ToPort(FindPort(entries, cursors, remote, used).port) != ILLEGAL_PORT <==> HasFree(entries, remote, used)
  }

  predicate Ends(e: Entry) {
    e.clientPorts.last == ILLEGAL_PORT
  }

  // -------------------------------------------------------------------- for any cursors

  /** While no matching range ends at 0xFFFF, the search delivers for all cursors and used ports. */
  lemma BelowDelivers(entries: seq<Entry>, cursors: seq<Word>, remote: Word, used: set<Word>)
    requires |cursors| == |entries|
    requires forall i :: 0 <= i < |entries| && Matches(entries[i], remote) ==> !Ends(entries[i])
    ensures Delivers(entries, cursors, remote, used)
  {
    FindPortFinds(entries, cursors, remote, used);
    assert !Offers(entries, remote, ILLEGAL_PORT);
    hide FindPort, Offers;
  }

  // ------------------------------------------------------------------------------- runs

  datatype Call = Call(remote: Word, used: set<Word>)

  /** Port 0xFFFF is never in use. */
  predicate Possible(calls: seq<Call>) {
    forall i :: 0 <= i < |calls| ==> ILLEGAL_PORT !in calls[i].used
  }

  /** The cursors after a run of calls that starts with fresh ones. */
  function CursorsAfter(entries: seq<Entry>, calls: seq<Call>): (cursors: seq<Word>)
    ensures |cursors| == |entries|
  {
    if calls == [] then seq(|entries|, i => ILLEGAL_PORT)
    else
      var c := calls[|calls|-1];
      FindPort(entries, CursorsAfter(entries, calls[..|calls|-1]), c.remote, c.used).cursors
  }

  /** The first matching range that ends at 0xFFFF, or the number of entries. */
  function FirstEnd(entries: seq<Entry>, remote: Word, i: nat): (k: nat)
    requires i <= |entries|
    ensures i <= k <= |entries|
    ensures k < |entries| ==> Matches(entries[k], remote) && Ends(entries[k])
    ensures forall j :: i <= j < k && Matches(entries[j], remote) ==> !Ends(entries[j])
    decreases |entries| - i
  {
    if i == |entries| || (Matches(entries[i], remote) && Ends(entries[i])) then i else FirstEnd(entries, remote, i + 1)
  }

  predicate OffersBefore(entries: seq<Entry>, remote: Word, q: Word, k: nat)
    requires k <= |entries|
  {
    exists i :: 0 <= i < k && Matches(entries[i], remote) && InRange(q, entries[i].clientPorts)
  }

  /** Every port for the remote port is offered by a range before the first that ends at 0xFFFF. */
  ghost predicate Covered(entries: seq<Entry>, remote: Word) {
    forall q :: Offers(entries, remote, q) && q != ILLEGAL_PORT ==> OffersBefore(entries, remote, q, FirstEnd(entries, remote, 0))
  }

  /** The cursors from that range on are as fresh ones. */
  predicate Quiet(entries: seq<Entry>, cursors: seq<Word>, remote: Word)
    requires |cursors| == |entries|
  {
    forall i :: FirstEnd(entries, remote, 0) <= i < |entries| && Matches(entries[i], remote) ==> cursors[i] == ILLEGAL_PORT
  }

  // ------------------------------------------------------------------- where it delivers

  lemma NothingBehind(r: Range)
    ensures Behind(r, ILLEGAL_PORT) == []
  {
  }

  lemma FoundInRange(candidates: seq<Word>, r: Range, used: set<Word>)
    requires forall p :: p in candidates ==> InRange(p, r)
    ensures FirstFree(candidates, used).Some? ==> InRange(FirstFree(candidates, used).value, r)
  {
    FirstFreeIs(candidates, used);
  }

  /** The first pass finds nothing from the first such range on, and never the illegal port. */
  lemma {:induction false} ResumeQuiet(entries: seq<Entry>, cursors: seq<Word>, remote: Word, used: set<Word>, i: nat)
    requires |cursors| == |entries| && i <= |entries| && Quiet(entries, cursors, remote)
    ensures var f := Resume(entries, cursors, remote, used, i);
            && f.port != Some(ILLEGAL_PORT)
            && (f.port.Some? ==> Quiet(entries, f.cursors, remote))
            && forall j :: 0 <= j < |entries| && !Matches(entries[j], remote) ==> f.cursors[j] == cursors[j]
    decreases |entries| - i
  {
    if i < |entries| {
      hide Behind, FirstFree, Advance;
      var r, c := entries[i].clientPorts, cursors[i];
      if !Matches(entries[i], remote) {
        ResumeQuiet(entries, cursors, remote, used, i + 1);
      } else if i >= FirstEnd(entries, remote, 0) {
        ResumeIdle(entries, cursors, remote, used, i);
        ResumeOthers(entries, cursors, remote, used, i);
      } else {
        forall p ensures p in Behind(r, c) ==> InRange(p, r) { BehindInRange(r, c, p); }
        FoundInRange(Behind(r, c), r, used);
        ResumeQuiet(entries, cursors[i := Advance(r, c)], remote, used, i + 1);
      }
    }
  }

  /** Fresh cursors find nothing in the first pass. */
  lemma {:induction false} ResumeIdle(entries: seq<Entry>, cursors: seq<Word>, remote: Word, used: set<Word>, i: nat)
    requires |cursors| == |entries| && i <= |entries|
    requires forall j :: i <= j < |entries| && Matches(entries[j], remote) ==> cursors[j] == ILLEGAL_PORT
    ensures Resume(entries, cursors, remote, used, i).port == None
    decreases |entries| - i
  {
    if i < |entries| {
      var r, c := entries[i].clientPorts, cursors[i];
      NothingBehind(r);
      ResumeIdle(entries, if Matches(entries[i], remote) then cursors[i := Advance(r, c)] else cursors, remote, used, i + 1);
    }
  }

  /** A pass does not touch the cursors of other remote ports. */
  lemma {:induction false} ResumeOthers(entries: seq<Entry>, cursors: seq<Word>, remote: Word, used: set<Word>, i: nat)
    requires |cursors| == |entries| && i <= |entries|
    ensures forall j :: 0 <= j < |entries| && !Matches(entries[j], remote) ==>
              Resume(entries, cursors, remote, used, i).cursors[j] == cursors[j]
    decreases |entries| - i
  {
    if i < |entries| {
      hide Behind, FirstFree, Advance;
      var r, c := entries[i].clientPorts, cursors[i];
      ResumeOthers(entries, if Matches(entries[i], remote) then cursors[i := Advance(r, c)] else cursors, remote, used, i + 1);
    }
  }

  lemma {:induction false} RestartOthers(entries: seq<Entry>, cursors: seq<Word>, remote: Word, used: set<Word>, i: nat)
    requires |cursors| == |entries| && i <= |entries|
    ensures forall j :: 0 <= j < |entries| && !Matches(entries[j], remote) ==>
              Restart(entries, cursors, remote, used, i).cursors[j] == cursors[j]
    decreases |entries| - i
  {
    if i < |entries| {
      hide FirstFree, Ports;
      RestartOthers(entries, cursors, remote, used, i + 1);
    }
  }

  /** A free port in front of that range is found there, and not the illegal port. */
  lemma {:induction false} RestartFinds(entries: seq<Entry>, cursors: seq<Word>, remote: Word, used: set<Word>, q: Word, j: nat, i: nat)
    requires |cursors| == |entries| && i <= j < FirstEnd(entries, remote, 0)
    requires Matches(entries[j], remote) && InRange(q, entries[j].clientPorts) && q !in used
    ensures var f := Restart(entries, cursors, remote, used, i);
            && f.port.Some? && f.port.value != ILLEGAL_PORT
            && forall l :: FirstEnd(entries, remote, 0) <= l < |entries| ==> f.cursors[l] == cursors[l]
    decreases j - i
  {
    var r := entries[i].clientPorts;
    if Matches(entries[i], remote) {
      forall p ensures p in Ports(r.first, r.last) <==> InRange(p, r) { PortsAre(r.first, r.last, p); }
      FirstFreeIs(Ports(r.first, r.last), used);
      hide FirstFree, Ports;
    }
    if i < j { RestartFinds(entries, cursors, remote, used, q, j, i + 1); }
  }

  /** Without a free port in front of an entry, the second pass gets to it. */
  lemma {:induction false} RestartSkips(entries: seq<Entry>, cursors: seq<Word>, remote: Word, used: set<Word>, k: nat, i: nat)
    requires |cursors| == |entries| && i <= k <= |entries|
    requires forall q :: q !in used ==> !OffersBefore(entries, remote, q, k)
    ensures Restart(entries, cursors, remote, used, i) == Restart(entries, cursors, remote, used, k)
    decreases k - i
  {
    if i < k {
      var r := entries[i].clientPorts;
      if Matches(entries[i], remote) {
        forall p ensures p in Ports(r.first, r.last) <==> InRange(p, r) { PortsAre(r.first, r.last, p); }
        FirstFreeIs(Ports(r.first, r.last), used);
        var p := FirstFree(Ports(r.first, r.last), used);
        if p.Some? { assert OffersBefore(entries, remote, p.value, k); }
      }
      hide FirstFree, Ports;
      RestartSkips(entries, cursors, remote, used, k, i + 1);
    }
  }

  /** At that range the second pass ends with a port of it, the illegal one if no other is free. */
  lemma RestartEnds(entries: seq<Entry>, cursors: seq<Word>, remote: Word, used: set<Word>, k: nat)
    requires |cursors| == |entries| && k < |entries| && Matches(entries[k], remote) && Ends(entries[k]) && ILLEGAL_PORT !in used
    ensures var f := Restart(entries, cursors, remote, used, k);
            && f.port.Some? && InRange(f.port.value, entries[k].clientPorts) && f.port.value !in used
            && f.cursors == cursors[k := f.port.value]
  {
    var r := entries[k].clientPorts;
    forall p ensures p in Ports(r.first, r.last) <==> InRange(p, r) { PortsAre(r.first, r.last, p); }
    FirstFreeIs(Ports(r.first, r.last), used);
    var ports := Ports(r.first, r.last);
    assert InRange(ILLEGAL_PORT, r) && ILLEGAL_PORT in ports;
    var i :| 0 <= i < |ports| && ports[i] == ILLEGAL_PORT;
  }

  /** One call with quiet cursors delivers and leaves them quiet. */
  lemma CallDelivers(entries: seq<Entry>, cursors: seq<Word>, remote: Word, used: set<Word>)
    requires |cursors| == |entries| && ILLEGAL_PORT !in used
    requires Covered(entries, remote) && Quiet(entries, cursors, remote)
    ensures Delivers(entries, cursors, remote, used)
    ensures Quiet(entries, FindPort(entries, cursors, remote, used).cursors, remote)
  {
    var k := FirstEnd(entries, remote, 0);
    ResumeQuiet(entries, cursors, remote, used, 0);
    FindPortFinds(entries, cursors, remote, used);
    var f := Resume(entries, cursors, remote, used, 0);
    hide Resume;
    if f.port.None? {
      var clean := Reset(entries, f.cursors, remote);
      if q :| q !in used && OffersBefore(entries, remote, q, k) {
        var j :| 0 <= j < k && Matches(entries[j], remote) && InRange(q, entries[j].clientPorts);
        RestartFinds(entries, clean, remote, used, q, j, 0);
      } else {
        RestartSkips(entries, clean, remote, used, k, 0);
        if k < |entries| {
          RestartEnds(entries, clean, remote, used, k);
          var p := Restart(entries, clean, remote, used, k).port.value;
          assert Offers(entries, remote, p);
        }
      }
    }
  }

  lemma CallOthers(entries: seq<Entry>, cursors: seq<Word>, remote: Word, used: set<Word>, j: nat)
    requires |cursors| == |entries| && j < |entries| && !Matches(entries[j], remote)
    ensures FindPort(entries, cursors, remote, used).cursors[j] == cursors[j]
  {
    hide Resume, Restart;
    ResumeOthers(entries, cursors, remote, used, 0);
    var f := Resume(entries, cursors, remote, used, 0);
    RestartOthers(entries, Reset(entries, f.cursors, remote), remote, used, 0);
  }

  /** All calls of the run are for one remote port. */
  predicate For(calls: seq<Call>, remote: Word) {
    forall i :: 0 <= i < |calls| ==> calls[i].remote == remote
  }

  lemma {:induction false} OneRemoteIsQuiet(entries: seq<Entry>, calls: seq<Call>, remote: Word)
    requires Possible(calls) && For(calls, remote) && Covered(entries, remote)
    ensures Quiet(entries, CursorsAfter(entries, calls), remote)
  {
    if calls != [] {
      hide FindPort, Covered, Quiet;
      var n := |calls| - 1;
      OneRemoteIsQuiet(entries, calls[..n], remote);
      CallDelivers(entries, CursorsAfter(entries, calls[..n]), remote, calls[n].used);
    }
  }

  // ----------------------------------------------------------------------- where it fails

  /** All ports but one and the illegal one. */
  function AllBut(q: Word): (ports: set<Word>)
    ensures forall p: Word :: p in ports <==> p != q && p != ILLEGAL_PORT
  {
    AllPorts();
    set p | p in Ports(0, 0xFFFE) && p != q
  }

  lemma AllPorts()
    ensures forall p: Word :: p in Ports(0, 0xFFFE) <==> p != ILLEGAL_PORT
  {
    forall p: Word ensures p in Ports(0, 0xFFFE) <==> p != ILLEGAL_PORT { PortsAre(0, 0xFFFE, p); }
  }

  /** A pass with fresh cursors in front reaches a cursor from which only the illegal port is free. */
  lemma {:induction false} StopsAtIllegal(entries: seq<Entry>, cursors: seq<Word>, remote: Word, q: Word, k: nat, i: nat)
    requires |cursors| == |entries| && i <= k < |entries| && cursors[k] == q != ILLEGAL_PORT
    requires forall j :: i <= j < k && Matches(entries[j], remote) ==> cursors[j] == ILLEGAL_PORT
    requires Matches(entries[k], remote) && Ends(entries[k]) && InRange(q, entries[k].clientPorts)
    ensures Resume(entries, cursors, remote, AllBut(q), i).port == Some(ILLEGAL_PORT)
    decreases k - i
  {
    var r := entries[i].clientPorts;
    if i == k {
      assert Behind(r, q) == Ports(q + 1, ILLEGAL_PORT);
      OnlyIllegal(q, q + 1);
    } else {
      NothingBehind(r);
      StopsAtIllegal(entries, if Matches(entries[i], remote) then cursors[i := Advance(r, cursors[i])] else cursors, remote, q, k, i + 1);
    }
  }

  lemma {:induction false} OnlyIllegal(q: Word, from: nat)
    requires q < from <= ILLEGAL_PORT
    ensures FirstFree(Ports(from, ILLEGAL_PORT), AllBut(q)) == Some(ILLEGAL_PORT)
    decreases ILLEGAL_PORT - from
  {
    var ports := Ports(from, ILLEGAL_PORT);
    assert ports[1..] == Ports(from + 1, ILLEGAL_PORT);
    if from < ILLEGAL_PORT { OnlyIllegal(q, from + 1); }
  }

  /** A call for the remote port, after other calls for it from fresh cursors, does not deliver. */
  ghost predicate Fails(entries: seq<Entry>, remote: Word, calls: seq<Call>, used: set<Word>) {
    && Possible(calls) && For(calls, remote) && ILLEGAL_PORT !in used
    && !Delivers(entries, CursorsAfter(entries, calls), remote, used)
  }

  /** The first or second call from fresh cursors fails. */
  lemma {:induction false} UncoveredFails(entries: seq<Entry>, remote: Word)
    requires !Covered(entries, remote)
    ensures exists calls, used :: |calls| <= 1 && Fails(entries, remote, calls, used)
  {
    var k := FirstEnd(entries, remote, 0);
    var q: Word :| Offers(entries, remote, q) && q != ILLEGAL_PORT && !OffersBefore(entries, remote, q, k);
    var used := AllBut(q);
    assert HasFree(entries, remote, used);
    var clean := CursorsAfter(entries, []);
    ResumeIdle(entries, clean, remote, used, 0);
    var f := Resume(entries, clean, remote, used, 0);
    var reset := Reset(entries, f.cursors, remote);
    forall p | p !in used ensures !OffersBefore(entries, remote, p, k) {
      if p == ILLEGAL_PORT { NotIllegalBefore(entries, remote); }
    }
    assert k < |entries|;
    hide Covered, Offers, OffersFrom, OffersBefore, FirstEnd, Resume, Restart, HasFree;
    RestartSkips(entries, reset, remote, used, k, 0);
    RestartEnds(entries, reset, remote, used, k);
    var found := FindPort(entries, clean, remote, used);
    if found.port == Some(ILLEGAL_PORT) {
      assert Fails(entries, remote, [], used);
    } else {
      var calls := [Call(remote, used)];
      assert calls[..0] == [];
      StopsAtIllegal(entries, found.cursors, remote, q, k, 0);
      assert Fails(entries, remote, calls, used);
    }
  }

  lemma FailingCall(entries: seq<Entry>, remote: Word, calls: seq<Call>, used: set<Word>)
    requires Fails(entries, remote, calls, used)
    ensures Possible(calls) && ILLEGAL_PORT !in used && !Delivers(entries, CursorsAfter(entries, calls), remote, used)
  {
  }

  lemma NotIllegalBefore(entries: seq<Entry>, remote: Word)
    ensures !OffersBefore(entries, remote, ILLEGAL_PORT, FirstEnd(entries, remote, 0))
  {
  }

  // ------------------------------------------------------------------------ main results

  /**
   Delivery for one remote port, exactly. In every run of calls for it that starts with fresh
   cursors the search ends with a usable port exactly when a matching range has a free one, if
   and only if the ranges in front of the first matching one that ends at 0xFFFF offer all
   usable ports.
   */
  lemma DeliversExactly(entries: seq<Entry>, remote: Word)
    ensures Covered(entries, remote) <==>
            (forall calls, used :: Possible(calls) && For(calls, remote) && ILLEGAL_PORT !in used ==>
               Delivers(entries, CursorsAfter(entries, calls), remote, used))
  {
    hide Covered, Delivers, CursorsAfter, Quiet;
    if Covered(entries, remote) {
      forall calls, used | Possible(calls) && For(calls, remote) && ILLEGAL_PORT !in used
        ensures Delivers(entries, CursorsAfter(entries, calls), remote, used)
      {
        OneRemoteIsQuiet(entries, calls, remote);
        CallDelivers(entries, CursorsAfter(entries, calls), remote, used);
      }
    } else {
      UncoveredFails(entries, remote);
      var calls, used :| Fails(entries, remote, calls, used);
    }
  }

  /**
   Behind a range that ends at 0xFFFF come only entries whose remote ports are all matched by that
   range, or none of which is.
   */
  ghost predicate Shielded(entries: seq<Entry>) {
    forall k, j :: 0 <= k < j < |entries| && Ends(entries[k]) ==> Screens(entries[k], entries[j])
  }

  ghost predicate Screens(a: Entry, b: Entry) {
    (exists r :: Matches(a, r) && Matches(b, r)) ==> forall r :: Matches(b, r) ==> Matches(a, r)
  }

  /** A call for one remote port keeps the cursors quiet for all of them. */
  lemma CallKeepsQuiet(entries: seq<Entry>, cursors: seq<Word>, call: Call, remote: Word)
    requires |cursors| == |entries| && ILLEGAL_PORT !in call.used && Shielded(entries) && Covered(entries, call.remote)
    requires Quiet(entries, cursors, call.remote) && Quiet(entries, cursors, remote)
    ensures Quiet(entries, FindPort(entries, cursors, call.remote, call.used).cursors, remote)
  {
    hide FindPort, Covered, Matches;
    CallDelivers(entries, cursors, call.remote, call.used);
    var k := FirstEnd(entries, remote, 0);
    var after := FindPort(entries, cursors, call.remote, call.used).cursors;
    forall i | k <= i < |entries| && Matches(entries[i], remote) ensures after[i] == ILLEGAL_PORT {
      if Matches(entries[i], call.remote) {
        if k < i { assert Screens(entries[k], entries[i]); }
        assert Matches(entries[k], call.remote);
        assert FirstEnd(entries, call.remote, 0) <= k;
      } else {
        CallOthers(entries, cursors, call.remote, call.used, i);
      }
    }
  }

  lemma {:induction false} RunsAreQuiet(entries: seq<Entry>, calls: seq<Call>, remote: Word)
    requires Possible(calls) && Shielded(entries) && forall r :: Covered(entries, r)
    ensures Quiet(entries, CursorsAfter(entries, calls), remote)
    decreases |calls|
  {
    if calls != [] {
      hide FindPort, Covered, Quiet, Shielded;
      var n := |calls| - 1;
      RunsAreQuiet(entries, calls[..n], remote);
      RunsAreQuiet(entries, calls[..n], calls[n].remote);
      CallKeepsQuiet(entries, CursorsAfter(entries, calls[..n]), calls[n], remote);
    }
  }

  /**
   Delivery for all remote ports, exactly. For shielded entries, in every run of calls for any
   remote ports that starts with fresh cursors, the search delivers if and only if for every
   remote port the ranges in front of the first one that ends at 0xFFFF offer all usable ports.
   */
  lemma DeliversEverywhereExactly(entries: seq<Entry>)
    requires Shielded(entries)
    ensures (forall r :: Covered(entries, r)) <==>
            (forall calls, r, used :: Possible(calls) && ILLEGAL_PORT !in used ==>
               Delivers(entries, CursorsAfter(entries, calls), r, used))
  {
    hide Covered, Delivers, CursorsAfter, Quiet, Shielded;
    if forall r :: Covered(entries, r) {
      forall calls, r, used | Possible(calls) && ILLEGAL_PORT !in used
        ensures Delivers(entries, CursorsAfter(entries, calls), r, used)
      {
        RunsAreQuiet(entries, calls, r);
        CallDelivers(entries, CursorsAfter(entries, calls), r, used);
      }
    } else {
      var r: Word :| !Covered(entries, r);
      UncoveredFails(entries, r);
      var calls, used :| Fails(entries, r, calls, used);
      FailingCall(entries, r, calls, used);
    }
  }

  // ------------------------------------------------------- without the shield it may fail

  const Near: Range := Range(0xFFFC, 0xFFFD)

  /**
   An entry without client ports for remote port 1, between two entries with the same ranges. The
   last entry is for remote port 2 as well, so it is not shielded.
   */
  const Unshielded: seq<Entry> := [
    Entry(0, 0, [], Range(1, 1), Near),
    Entry(0, 0, [], Range(1, 1), Range(ILLEGAL_PORT, ILLEGAL_PORT)),
    Entry(0, 0, [], Range(1, 2), Near)]

  lemma UnshieldedIsCovered(r: Word)
    ensures Covered(Unshielded, r)
  {
    if r == 1 {
      assert FirstEnd(Unshielded, 1, 0) == FirstEnd(Unshielded, 1, 1) == 1;
      forall q | Offers(Unshielded, 1, q) && q != ILLEGAL_PORT ensures OffersBefore(Unshielded, 1, q, 1) {
        assert Matches(Unshielded[0], 1) && InRange(q, Unshielded[0].clientPorts);
      }
    } else {
      assert !Matches(Unshielded[1], r);
    }
  }

  lemma NearPorts(c: Word)
    ensures Ports(0xFFFC, 0xFFFD) == [0xFFFC, 0xFFFD]
    ensures Behind(Near, c) == if c == 0xFFFC then [0xFFFD] else if c == 0xFFFE then [0xFFFC, 0xFFFD] else []
  {
    assert Ports(0xFFFE, 0xFFFD) == [];
    assert Ports(0xFFFD, 0xFFFD) == [0xFFFD];
    if 0xFFFC <= c <= 0xFFFD { assert Behind(Near, c) == Ports(c + 1, 0xFFFD); }
  }

  /** A call for remote port 2 moves the last cursor to 0xFFFC. */
  lemma CallTwo(a: Word, t: Word, j: Word)
    requires j != 0xFFFE
    ensures FindPort(Unshielded, [a, t, j], 2, AllBut(0xFFFC)).cursors == [a, t, 0xFFFC]
  {
    NearPorts(j);
    var used, c := AllBut(0xFFFC), [a, t, j];
    assert Matches(Unshielded[2], 2) && !Matches(Unshielded[0], 2) && !Matches(Unshielded[1], 2);
    var c' := c[2 := Advance(Near, j)];
    assert FirstFree(Behind(Near, j), used) == None;
    assert Resume(Unshielded, c, 2, used, 2) == Resume(Unshielded, c', 2, used, 3) == Found(c', None);
    assert Resume(Unshielded, c, 2, used, 1) == Found(c', None);
    assert Resume(Unshielded, c, 2, used, 0) == Found(c', None);
    var reset := Reset(Unshielded, c', 2);
    assert reset == [a, t, ILLEGAL_PORT];
    assert FirstFree(Ports(0xFFFC, 0xFFFD), used) == Some(0xFFFC);
    assert Restart(Unshielded, reset, 2, used, 2) == Found(reset[2 := 0xFFFC], Some(0xFFFC));
    assert Restart(Unshielded, reset, 2, used, 1) == Restart(Unshielded, reset, 2, used, 2);
    assert Restart(Unshielded, reset, 2, used, 0) == Restart(Unshielded, reset, 2, used, 1);
  }

  /** A call for remote port 1 that passes the first two cursors pushes both. */
  lemma CallOne(a: Word, t: Word)
    requires a != 0xFFFC && a != 0xFFFE && t != 0xFFFE
    ensures FindPort(Unshielded, [a, t, 0xFFFC], 1, AllBut(0xFFFD)).cursors == [Advance(Near, a), Increment(t), 0xFFFD]
  {
    NearPorts(a);
    NearPorts(0xFFFC);
    var used, c := AllBut(0xFFFD), [a, t, 0xFFFC];
    assert Matches(Unshielded[0], 1) && Matches(Unshielded[1], 1) && Matches(Unshielded[2], 1);
    var c1 := [Advance(Near, a), t, 0xFFFC];
    var c2 := [Advance(Near, a), Increment(t), 0xFFFC];
    assert FirstFree([0xFFFD], used) == Some(0xFFFD);
    assert Resume(Unshielded, c2, 1, used, 2) == Found(c2[2 := 0xFFFD], Some(0xFFFD));
    assert Behind(Unshielded[1].clientPorts, t) == [] && c1[1 := Advance(Unshielded[1].clientPorts, t)] == c2;
    assert Resume(Unshielded, c1, 1, used, 1) == Resume(Unshielded, c2, 1, used, 2);
    assert c[0 := Advance(Near, a)] == c1;
    assert Resume(Unshielded, c, 1, used, 0) == Resume(Unshielded, c1, 1, used, 1);
  }

  /** With the first cursor at 0xFFFC that one finds the port. */
  lemma CallOneFirst(t: Word)
    ensures FindPort(Unshielded, [0xFFFC, t, 0xFFFC], 1, AllBut(0xFFFD)).cursors == [0xFFFD, t, 0xFFFC]
  {
    NearPorts(0xFFFC);
    var used, c := AllBut(0xFFFD), [0xFFFC, t, 0xFFFC];
    assert FirstFree([0xFFFD], used) == Some(0xFFFD);
    assert Resume(Unshielded, c, 1, used, 0) == Found(c[0 := 0xFFFD], Some(0xFFFD));
  }

  /** With the second cursor at 0xFFFE the call ends with the illegal port. */
  lemma CallOneFails(a: Word)
    requires a != 0xFFFC && a != 0xFFFE
    ensures FindPort(Unshielded, [a, 0xFFFE, 0xFFFC], 1, AllBut(0xFFFD)).port == Some(ILLEGAL_PORT)
  {
    NearPorts(a);
    var used, c := AllBut(0xFFFD), [a, 0xFFFE, 0xFFFC];
    var c1 := c[0 := Advance(Near, a)];
    assert Ports(ILLEGAL_PORT, ILLEGAL_PORT) == [ILLEGAL_PORT] by { assert Ports(0x1_0000, ILLEGAL_PORT) == []; }
    assert Behind(Unshielded[1].clientPorts, 0xFFFE) == [ILLEGAL_PORT];
    assert Resume(Unshielded, c1, 1, used, 1) == Found(c1[1 := ILLEGAL_PORT], Some(ILLEGAL_PORT));
    assert Resume(Unshielded, c, 1, used, 0) == Resume(Unshielded, c1, 1, used, 1);
  }

  const Two: Call := Call(2, AllBut(0xFFFC))
  const One: Call := Call(1, AllBut(0xFFFD))

  function Rounds(n: nat): seq<Call> {
    if n == 0 then [] else Rounds(n - 1) + [Two] + [One]
  }

  lemma AfterCall(entries: seq<Entry>, calls: seq<Call>, c: Call)
    ensures CursorsAfter(entries, calls + [c]) == FindPort(entries, CursorsAfter(entries, calls), c.remote, c.used).cursors
  {
    assert (calls + [c])[..|calls|] == calls;
  }

  /** One round, a call for remote port 2 and one for remote port 1. */
  lemma AfterRound(calls: seq<Call>, a: Word, t: Word, j: Word)
    requires CursorsAfter(Unshielded, calls) == [a, t, j] && j != 0xFFFE
    requires a != 0xFFFC && a != 0xFFFE && t != 0xFFFE
    ensures CursorsAfter(Unshielded, calls + [Two] + [One]) == [Advance(Near, a), Increment(t), 0xFFFD]
  {
    hide FindPort, CursorsAfter, AllBut;
    AfterCall(Unshielded, calls, Two);
    CallTwo(a, t, j);
    AfterCall(Unshielded, calls + [Two], One);
    CallOne(a, t);
  }

  lemma {:induction false} PushedBy(n: nat)
    requires 1 <= n <= 0xFFFD
    ensures CursorsAfter(Unshielded, Rounds(n)) == [n - 1, n - 1, 0xFFFD]
  {
    hide CursorsAfter, Advance;
    if n == 1 {
      assert CursorsAfter(Unshielded, []) == [ILLEGAL_PORT, ILLEGAL_PORT, ILLEGAL_PORT] by { FreshCursors(); }
      AfterRound([], ILLEGAL_PORT, ILLEGAL_PORT, ILLEGAL_PORT);
      assert Rounds(1) == [] + [Two] + [One] by { assert Rounds(0) == []; }
      AdvanceIs(ILLEGAL_PORT);
    } else {
      PushedBy(n - 1);
      AfterRound(Rounds(n - 1), n - 2, n - 2, 0xFFFD);
      AdvanceIs(n - 2);
    }
  }

  lemma FreshCursors()
    ensures CursorsAfter(Unshielded, []) == [ILLEGAL_PORT, ILLEGAL_PORT, ILLEGAL_PORT]
  {
  }

  lemma AdvanceIs(a: Word)
    ensures Advance(Near, a) == if 0xFFFC <= a <= 0xFFFD then (a + 2) % 0x1_0000 else (a + 1) % 0x1_0000
  {
  }

  lemma {:induction false} RoundsArePossible(n: nat)
    ensures Possible(Rounds(n))
  {
    if n > 0 { RoundsArePossible(n - 1); }
  }

  lemma PossibleMore(calls: seq<Call>)
    requires Possible(calls)
    ensures Possible(calls + [Two]) && Possible(calls + [Two] + [One])
  {
  }

  /** A few rounds more, in one of which the first entry takes the port itself. */
  lemma PushedToTheEnd() returns (calls: seq<Call>)
    ensures Possible(calls) && CursorsAfter(Unshielded, calls) == [0, 0xFFFE, 0xFFFC]
  {
    hide FindPort, CursorsAfter, AllBut, Rounds, Advance, Possible;
    var c0 := Rounds(0xFFFD);
    RoundsArePossible(0xFFFD);
    PushedBy(0xFFFD);
    AfterCall(Unshielded, c0, Two);
    CallTwo(0xFFFC, 0xFFFC, 0xFFFD);
    AfterCall(Unshielded, c0 + [Two], One);
    CallOneFirst(0xFFFC);
    var c1 := c0 + [Two] + [One];
    PossibleMore(c0);
    AfterRound(c1, 0xFFFD, 0xFFFC, 0xFFFC);
    AdvanceIs(0xFFFD);
    var c2 := c1 + [Two] + [One];
    PossibleMore(c1);
    AfterRound(c2, ILLEGAL_PORT, 0xFFFD, 0xFFFD);
    AdvanceIs(ILLEGAL_PORT);
    var c3 := c2 + [Two] + [One];
    PossibleMore(c2);
    PossibleMore(c3);
    AfterCall(Unshielded, c3, Two);
    CallTwo(0, 0xFFFE, 0xFFFD);
    calls := c3 + [Two];
  }

  /**
   The shield is needed: calls for the other remote port let each call push the cursor of the
   entry without client ports one further, until it makes a call end with the illegal port
   although a port is free and all ports are covered.
   */
  lemma UnshieldedFails() returns (calls: seq<Call>)
    ensures (forall r :: Covered(Unshielded, r)) && Possible(calls)
    ensures !Delivers(Unshielded, CursorsAfter(Unshielded, calls), One.remote, One.used)
  {
    forall r ensures Covered(Unshielded, r) { UnshieldedIsCovered(r); }
    assert Offers(Unshielded, 1, 0xFFFD) by { assert Matches(Unshielded[0], 1) && InRange(0xFFFD, Unshielded[0].clientPorts); }
    hide FindPort, CursorsAfter, Covered, Possible;
    calls := PushedToTheEnd();
    CallOneFails(0);
    assert HasFree(Unshielded, 1, One.used);
  }
}
