/**
 The allocation of local ports for client endpoints: ports configured for one service instance,
 taken round robin, and port ranges configured for ranges of remote ports, searched with a cursor
 per range. All ports are 16-bit numbers. One protocol (reliable or unreliable) is modelled; the
 configuration keeps the same state once more for the other one, and the two never meet.
 */
module ClientPorts {
  import opened Common

  const ILLEGAL_PORT: Word := 0xFFFF

  datatype Range = Range(first: Word, last: Word)

  predicate InRange(port: Word, r: Range) {
    r.first <= port <= r.last
  }

  /** A configured client; `ports` are the ports of its service instance in ascending order. */
  datatype Entry = Entry(service: Word, instance: Word, ports: seq<Word>, remotePorts: Range, clientPorts: Range)

  function Increment(port: Word): Word {
    (port + 1) % 0x1_0000
  }

  // ------------------------------------------------------------------ searches, in general

  function FirstFree(candidates: seq<Word>, used: set<Word>): Option<Word> {
    if candidates == [] then None
    else if candidates[0] !in used then Some(candidates[0])
    else FirstFree(candidates[1..], used)
  }

  /** What the first free candidate is: the one before which all are used. */
  lemma {:induction false} FirstFreeIs(candidates: seq<Word>, used: set<Word>)
    ensures var p := FirstFree(candidates, used);
            && (p.None? <==> forall i :: 0 <= i < |candidates| ==> candidates[i] in used)
            && (p.Some? ==> p.value in candidates && p.value !in used)
            && (p.Some? ==> exists i :: 0 <= i < |candidates| && candidates[i] == p.value && forall j :: 0 <= j < i ==> candidates[j] in used)
  {
    if candidates != [] && candidates[0] in used {
      var rest := candidates[1..];
      FirstFreeIs(rest, used);
      assert forall i :: 0 < i < |candidates| ==> candidates[i] == rest[i - 1];
      assert forall i :: 0 <= i < |rest| ==> rest[i] == candidates[i + 1];
      var p := FirstFree(rest, used);
      if p.Some? {
        var i :| 0 <= i < |rest| && rest[i] == p.value && forall j :: 0 <= j < i ==> rest[j] in used;
        assert candidates[i + 1] == p.value && forall j :: 0 <= j < i + 1 ==> candidates[j] in used;
      }
    }
  }

  lemma {:induction false} FirstFreeConcat(a: seq<Word>, b: seq<Word>, used: set<Word>)
    ensures FirstFree(a + b, used) == if FirstFree(a, used).Some? then FirstFree(a, used) else FirstFree(b, used)
  {
    if a == [] {
      assert a + b == b;
    } else {
      assert (a + b)[1..] == a[1..] + b;
      FirstFreeConcat(a[1..], b, used);
    }
  }

  /** The ports `from`, ..., `last`. */
  function Ports(from: nat, last: Word): seq<Word>
    decreases 0x1_0000 - from
  {
    if from > last then [] else [from] + Ports(from + 1, last)
  }

  lemma {:induction false} PortsAre(from: nat, last: Word, p: Word)
    ensures p in Ports(from, last) <==> from <= p <= last
    decreases 0x1_0000 - from
  {
    if from <= last { PortsAre(from + 1, last, p); }
  }

  // ------------------------------------------------------------------------ port ranges

  predicate Matches(e: Entry, remote: Word) {
    remote != ILLEGAL_PORT && InRange(remote, e.remotePorts)
  }

  datatype Found = Found(cursors: seq<Word>, port: Option<Word>)

  /** The cursor a first pass leaves behind when it finds nothing in the range. */
  function Advance(r: Range, cursor: Word): Word {
    if cursor != ILLEGAL_PORT && InRange(cursor, r) then Increment(Increment(cursor)) else Increment(cursor)
  }

  /** The ports a first pass looks at: behind a cursor in the range, or all of a range whose cursor wraps. */
  function Behind(r: Range, cursor: Word): seq<Word> {
    if cursor != ILLEGAL_PORT && InRange(cursor, r) then Ports(cursor + 1, r.last)
    else if Increment(cursor) == ILLEGAL_PORT then Ports(r.first, r.last)
    else []
  }

  /** The first pass from entry `i` on, which continues at the cursors. */
  function Resume(entries: seq<Entry>, cursors: seq<Word>, remote: Word, used: set<Word>, i: nat): (f: Found)
    requires |cursors| == |entries| && i <= |entries|
    ensures |f.cursors| == |cursors|
    decreases |entries| - i
  {
    if i == |entries| then Found(cursors, None)
    else if !Matches(entries[i], remote) then Resume(entries, cursors, remote, used, i + 1)
    else
      var r := entries[i].clientPorts;
      var p := FirstFree(Behind(r, cursors[i]), used);
      if p.Some? then Found(cursors[i := p.value], p)
      else Resume(entries, cursors[i := Advance(r, cursors[i])], remote, used, i + 1)
  }

  function Reset(entries: seq<Entry>, cursors: seq<Word>, remote: Word): (r: seq<Word>)
    requires |cursors| == |entries|
    ensures |r| == |cursors|
  {
    seq(|cursors|, i requires 0 <= i < |cursors| => if Matches(entries[i], remote) then ILLEGAL_PORT else cursors[i])
  }

  /** The second pass from entry `i` on, over whole ranges. */
  function Restart(entries: seq<Entry>, cursors: seq<Word>, remote: Word, used: set<Word>, i: nat): (f: Found)
    requires |cursors| == |entries| && i <= |entries|
    ensures |f.cursors| == |cursors|
    decreases |entries| - i
  {
    if i == |entries| then Found(cursors, None)
    else if !Matches(entries[i], remote) then Restart(entries, cursors, remote, used, i + 1)
    else
      var r := entries[i].clientPorts;
      var p := FirstFree(Ports(r.first, r.last), used);
      if p.Some? then Found(cursors[i := p.value], p) else Restart(entries, cursors, remote, used, i + 1)
  }

  function FindPort(entries: seq<Entry>, cursors: seq<Word>, remote: Word, used: set<Word>): (f: Found)
    requires |cursors| == |entries|
    ensures |f.cursors| == |cursors|
  {
    var f := Resume(entries, cursors, remote, used, 0);
    if f.port.Some? then f else Restart(entries, Reset(entries, f.cursors, remote), remote, used, 0)
  }

  /** The out-parameter, which keeps its initial value when nothing is found. */
  function ToPort(p: Option<Word>): Word {
    if p.Some? then p.value else ILLEGAL_PORT
  }

  predicate Configured(entries: seq<Entry>, remote: Word) {
    exists i :: 0 <= i < |entries| && Matches(entries[i], remote)
  }

  predicate OffersFrom(entries: seq<Entry>, remote: Word, port: Word, i: nat) {
    exists k :: i <= k < |entries| && Matches(entries[k], remote) && InRange(port, entries[k].clientPorts)
  }

  /** Some range configured for the remote port contains the port. */
  predicate Offers(entries: seq<Entry>, remote: Word, port: Word) {
    OffersFrom(entries, remote, port, 0)
  }

  /** What a first pass from entry `i` on looks at. */
  function Continued(entries: seq<Entry>, cursors: seq<Word>, remote: Word, i: nat): seq<Word>
    requires |cursors| == |entries| && i <= |entries|
    decreases |entries| - i
  {
    if i == |entries| then []
    else
      (if Matches(entries[i], remote) then Behind(entries[i].clientPorts, cursors[i]) else [])
      + Continued(entries, cursors, remote, i + 1)
  }

  lemma ContinuedStep(entries: seq<Entry>, cursors: seq<Word>, remote: Word, i: nat)
    requires |cursors| == |entries| && i < |entries|
    ensures Continued(entries, cursors, remote, i) ==
            (if Matches(entries[i], remote) then Behind(entries[i].clientPorts, cursors[i]) else [])
            + Continued(entries, cursors, remote, i + 1)
  {
    hide Matches, Behind;
  }

  /** What a second pass from entry `i` on looks at. */
  function Whole(entries: seq<Entry>, remote: Word, i: nat): seq<Word>
    requires i <= |entries|
    decreases |entries| - i
  {
    if i == |entries| then []
    else
      (if Matches(entries[i], remote) then Ports(entries[i].clientPorts.first, entries[i].clientPorts.last) else [])
      + Whole(entries, remote, i + 1)
  }

  lemma {:induction false} ContinuedFrame(entries: seq<Entry>, cursors: seq<Word>, k: nat, c: Word, remote: Word, i: nat)
    requires |cursors| == |entries| && k < i <= |entries|
    ensures Continued(entries, cursors[k := c], remote, i) == Continued(entries, cursors, remote, i)
    decreases |entries| - i
  {
    if i < |entries| { ContinuedFrame(entries, cursors, k, c, remote, i + 1); }
  }

  lemma {:induction false} ResumeSearches(entries: seq<Entry>, cursors: seq<Word>, remote: Word, used: set<Word>, i: nat)
    requires |cursors| == |entries| && i <= |entries|
    ensures Resume(entries, cursors, remote, used, i).port == FirstFree(Continued(entries, cursors, remote, i), used)
    decreases |entries| - i
  {
    if i < |entries| {
      var r, c := entries[i].clientPorts, cursors[i];
      if Matches(entries[i], remote) {
        ResumeSearches(entries, cursors[i := Advance(r, c)], remote, used, i + 1);
        ContinuedFrame(entries, cursors, i, Advance(r, c), remote, i + 1);
        FirstFreeConcat(Behind(r, c), Continued(entries, cursors, remote, i + 1), used);
      } else {
        ResumeSearches(entries, cursors, remote, used, i + 1);
        FirstFreeConcat([], Continued(entries, cursors, remote, i + 1), used);
      }
    }
  }

  lemma {:induction false} RestartSearches(entries: seq<Entry>, cursors: seq<Word>, remote: Word, used: set<Word>, i: nat)
    requires |cursors| == |entries| && i <= |entries|
    ensures Restart(entries, cursors, remote, used, i).port == FirstFree(Whole(entries, remote, i), used)
    decreases |entries| - i
  {
    if i < |entries| {
      var r := entries[i].clientPorts;
      RestartSearches(entries, cursors, remote, used, i + 1);
      FirstFreeConcat(if Matches(entries[i], remote) then Ports(r.first, r.last) else [], Whole(entries, remote, i + 1), used);
    }
  }

  /** With its cursors and passes the search is one for the first free of a list of candidates. */
  lemma FindPortSearches(entries: seq<Entry>, cursors: seq<Word>, remote: Word, used: set<Word>)
    requires |cursors| == |entries|
    ensures FindPort(entries, cursors, remote, used).port ==
            FirstFree(Continued(entries, cursors, remote, 0) + Whole(entries, remote, 0), used)
  {
    var f := Resume(entries, cursors, remote, used, 0);
    ResumeSearches(entries, cursors, remote, used, 0);
    RestartSearches(entries, Reset(entries, f.cursors, remote), remote, used, 0);
    FirstFreeConcat(Continued(entries, cursors, remote, 0), Whole(entries, remote, 0), used);
  }

  lemma OffersStep(entries: seq<Entry>, remote: Word, p: Word, i: nat)
    requires i < |entries|
    ensures OffersFrom(entries, remote, p, i) <==>
            (Matches(entries[i], remote) && InRange(p, entries[i].clientPorts)) || OffersFrom(entries, remote, p, i + 1)
  {
    hide Matches, InRange;
    if OffersFrom(entries, remote, p, i) {
      var k :| i <= k < |entries| && Matches(entries[k], remote) && InRange(p, entries[k].clientPorts);
    }
  }

  /** The candidates of a second pass are exactly the ports of the ranges that match. */
  lemma {:induction false} WholeOffers(entries: seq<Entry>, remote: Word, p: Word, i: nat)
    requires i <= |entries|
    ensures p in Whole(entries, remote, i) <==> OffersFrom(entries, remote, p, i)
    decreases |entries| - i
  {
    if i < |entries| {
      OffersStep(entries, remote, p, i);
      hide OffersFrom, Matches, Ports;
      WholeOffers(entries, remote, p, i + 1);
      PortsAre(entries[i].clientPorts.first, entries[i].clientPorts.last, p);
    }
  }

  lemma BehindInRange(r: Range, cursor: Word, p: Word)
    ensures p in Behind(r, cursor) ==> InRange(p, r)
  {
    PortsAre(cursor + 1, r.last, p);
    PortsAre(r.first, r.last, p);
  }

  lemma {:induction false} ContinuedOffers(entries: seq<Entry>, cursors: seq<Word>, remote: Word, p: Word, i: nat)
    requires |cursors| == |entries| && i <= |entries|
    ensures p in Continued(entries, cursors, remote, i) ==> OffersFrom(entries, remote, p, i)
    decreases |entries| - i
  {
    if i < |entries| {
      OffersStep(entries, remote, p, i);
      BehindInRange(entries[i].clientPorts, cursors[i], p);
      ContinuedOffers(entries, cursors, remote, p, i + 1);
      hide OffersFrom, Matches, Behind, InRange, Continued;
      var here := if Matches(entries[i], remote) then Behind(entries[i].clientPorts, cursors[i]) else [];
      ContinuedStep(entries, cursors, remote, i);
      assert p in Continued(entries, cursors, remote, i) ==> p in here || p in Continued(entries, cursors, remote, i + 1);
    }
  }

  /**
   Soundness and completeness, for any value of the cursors: the search ends with a port that is
   unused and in a range for the remote port, and it ends with one exactly if there is one.
   */
  lemma FindPortFinds(entries: seq<Entry>, cursors: seq<Word>, remote: Word, used: set<Word>)
    requires |cursors| == |entries|
    ensures var p := FindPort(entries, cursors, remote, used).port;
            && (p.Some? ==> Offers(entries, remote, p.value) && p.value !in used)
            && (p.None? ==> forall q :: Offers(entries, remote, q) ==> q in used)
  {
    var a, b := Continued(entries, cursors, remote, 0), Whole(entries, remote, 0);
    FindPortSearches(entries, cursors, remote, used);
    FirstFreeIs(a + b, used);
    var p := FindPort(entries, cursors, remote, used).port;
    if p.Some? {
      ContinuedOffers(entries, cursors, remote, p.value, 0);
      WholeOffers(entries, remote, p.value, 0);
    } else {
      forall q | Offers(entries, remote, q) ensures q in used {
        WholeOffers(entries, remote, q, 0);
        var i :| 0 <= i < |b| && b[i] == q;
        assert (a + b)[|a| + i] == q;
      }
    }
  }

  // --------------------------------------------------------------------- specific ports

  predicate Ascending(ports: seq<Word>) {
    forall i, j :: 0 <= i < j < |ports| ==> ports[i] < ports[j]
  }

  function Position(ports: seq<Word>, p: Word): (i: nat)
    requires p in ports
    ensures i < |ports| && ports[i] == p
  {
    if ports[0] == p then 0 else 1 + Position(ports[1..], p)
  }

  /** Where the search starts: behind the cursor, or at the begin. */
  function StartIndex(ports: seq<Word>, cursor: Word): (i: nat)
    ensures i < |ports| || i == 0
  {
    if cursor != ILLEGAL_PORT && cursor in ports && Position(ports, cursor) + 1 < |ports| then Position(ports, cursor) + 1 else 0
  }

  function Rotation(ports: seq<Word>, cursor: Word): seq<Word> {
    ports[StartIndex(ports, cursor)..] + ports[..StartIndex(ports, cursor)]
  }

  function FindSpecific(ports: seq<Word>, cursor: Word, used: set<Word>): Option<Word> {
    FirstFree(Rotation(ports, cursor), used)
  }

  /** How many increments of a 16-bit counter lie between a cursor and a port. */
  function Distance(cursor: Word, p: Word): nat {
    if cursor < p then p - cursor - 1 else p + 0xFFFF - cursor
  }

  predicate IsCursor(ports: seq<Word>, cursor: Word) {
    cursor == ILLEGAL_PORT || cursor in ports
  }

  lemma CursorPosition(ports: seq<Word>, cursor: Word, a: nat)
    requires Ascending(ports) && IsCursor(ports, cursor) && a < |ports|
    ensures var s := StartIndex(ports, cursor);
            && (s > 0 ==> (a < s <==> ports[a] <= cursor))
            && (s == 0 && cursor != ILLEGAL_PORT ==> ports[a] <= cursor)
  {
    if cursor != ILLEGAL_PORT {
      var i := Position(ports, cursor);
      assert a < i ==> ports[a] < ports[i];
      assert i < a ==> ports[i] < ports[a];
    }
  }

  lemma RotationIsOrdered(ports: seq<Word>, cursor: Word, i: nat, j: nat)
    requires Ascending(ports) && IsCursor(ports, cursor) && i < j < |ports|
    ensures Distance(cursor, Rotation(ports, cursor)[i]) < Distance(cursor, Rotation(ports, cursor)[j])
  {
    var s, m := StartIndex(ports, cursor), |ports|;
    var a, b := Cyclic(s, i, m), Cyclic(s, j, m);
    CursorPosition(ports, cursor, a);
    CursorPosition(ports, cursor, b);
    assert a < b ==> ports[a] < ports[b];
    assert b < a ==> ports[b] < ports[a];
    hide StartIndex, Ascending;
    assert Rotation(ports, cursor)[i] == ports[a] && Rotation(ports, cursor)[j] == ports[b];
  }

  lemma RotationMembers(ports: seq<Word>, cursor: Word)
    ensures multiset(Rotation(ports, cursor)) == multiset(ports)
    ensures forall q :: q in Rotation(ports, cursor) <==> q in ports
  {
    var s := StartIndex(ports, cursor);
    assert ports == ports[..s] + ports[s..];
  }

  /** Whatever the cursor, a free configured port is found exactly if there is one. */
  lemma SpecificIsFree(ports: seq<Word>, cursor: Word, used: set<Word>)
    ensures var p := FindSpecific(ports, cursor, used);
            && (p.None? <==> forall q :: q in ports ==> q in used)
            && (p.Some? ==> p.value in ports && p.value !in used)
  {
    var r := Rotation(ports, cursor);
    RotationMembers(ports, cursor);
    FirstFreeIs(r, used);
    if FindSpecific(ports, cursor, used).None? {
      forall q | q in ports ensures q in used {
        var j :| 0 <= j < |r| && r[j] == q;
      }
    }
  }

  /** The first free configured port that a 16-bit counter meets when it counts on from the cursor. */
  lemma SpecificIsNext(ports: seq<Word>, cursor: Word, used: set<Word>)
    requires Ascending(ports) && IsCursor(ports, cursor)
    ensures var p := FindSpecific(ports, cursor, used);
            && (p.None? <==> forall q :: q in ports ==> q in used)
            && (p.Some? ==> p.value in ports && p.value !in used)
            && (p.Some? ==> forall q :: q in ports && q !in used ==> Distance(cursor, p.value) <= Distance(cursor, q))
  {
    var r := Rotation(ports, cursor);
    SpecificIsFree(ports, cursor, used);
    RotationMembers(ports, cursor);
    FirstFreeIs(r, used);
    var p := FindSpecific(ports, cursor, used);
    assert p == FirstFree(r, used) && |r| == |ports|;
    hide Rotation, FirstFree, FindSpecific, Ascending, IsCursor, Distance;
    if p.Some? {
      var i :| 0 <= i < |r| && r[i] == p.value && forall j :: 0 <= j < i ==> r[j] in used;
      forall q | q in ports && q !in used ensures Distance(cursor, p.value) <= Distance(cursor, q) {
        var j :| 0 <= j < |r| && r[j] == q;
        if i < j { RotationIsOrdered(ports, cursor, i, j); }
      }
    }
  }

  /** The results of `n` searches in a row with the same ports in use. */
  function Calls(ports: seq<Word>, cursor: Word, used: set<Word>, n: nat): (r: seq<Option<Word>>)
    ensures |r| == n
    decreases n
  {
    if n == 0 then []
    else
      var p := FindSpecific(ports, cursor, used);
      [p] + Calls(ports, ToPort(p), used, n - 1)
  }

  /** The index `k` steps behind `i` in a cycle of length `m`. */
  function Cyclic(i: nat, k: nat, m: nat): (r: nat)
    requires i < m && k <= m
    ensures r < m
  {
    if i + k < m then i + k else i + k - m
  }

  lemma CyclicStep(i: nat, k: nat, m: nat)
    requires i < m && 0 < k < m
    ensures Cyclic(Cyclic(i, 1, m), k - 1, m) == Cyclic(i, k, m)
  {
  }

  lemma AscendingPosition(ports: seq<Word>, i: nat)
    requires Ascending(ports) && i < |ports|
    ensures Position(ports, ports[i]) == i
  {
    var k := Position(ports, ports[i]);
  }

  lemma NextStart(ports: seq<Word>, cursor: Word)
    requires Ascending(ports) && ports != [] && ILLEGAL_PORT !in ports
    ensures var s := StartIndex(ports, cursor);
            FindSpecific(ports, cursor, {}) == Some(ports[s]) && StartIndex(ports, ports[s]) == Cyclic(s, 1, |ports|)
  {
    var s := StartIndex(ports, cursor);
    assert Rotation(ports, cursor)[0] == ports[s];
    AscendingPosition(ports, s);
  }

  lemma {:induction false} CallsCycle(ports: seq<Word>, cursor: Word, n: nat, k: nat)
    requires Ascending(ports) && ports != [] && ILLEGAL_PORT !in ports && k < n <= |ports|
    ensures Calls(ports, cursor, {}, n)[k] == Some(ports[Cyclic(StartIndex(ports, cursor), k, |ports|)])
    decreases n
  {
    var s := StartIndex(ports, cursor);
    NextStart(ports, cursor);
    assert Calls(ports, cursor, {}, n) == [Some(ports[s])] + Calls(ports, ports[s], {}, n - 1);
    assert Cyclic(s, 0, |ports|) == s;
    hide FindSpecific, StartIndex, Ascending, ToPort, Calls, Cyclic;
    if k > 0 {
      CallsCycle(ports, ports[s], n - 1, k - 1);
      CyclicStep(s, k, |ports|);
    }
  }

  /** While no port is in use, as many searches as there are ports return every port once, in cyclic order. */
  lemma RoundRobin(ports: seq<Word>, cursor: Word)
    requires Ascending(ports) && ports != [] && ILLEGAL_PORT !in ports
    ensures forall k :: 0 <= k < |ports| ==> Calls(ports, cursor, {}, |ports|)[k] == Some(Rotation(ports, cursor)[k])
    ensures multiset(Rotation(ports, cursor)) == multiset(ports)
  {
    RotationMembers(ports, cursor);
    forall k | 0 <= k < |ports| ensures Calls(ports, cursor, {}, |ports|)[k] == Some(Rotation(ports, cursor)[k]) {
      hide Ascending, Calls, StartIndex;
      CallsCycle(ports, cursor, |ports|, k);
    }
  }

  // ---------------------------------------------------------------------- both together

  /** The first entry for the service instance, or the number of entries. */
  function FindClient(entries: seq<Entry>, service: Word, instance: Word): (i: nat)
    ensures i <= |entries|
  {
    if entries == [] then 0
    else if entries[0].service == service && entries[0].instance == instance then 0
    else 1 + FindClient(entries[1..], service, instance)
  }

  function SpecificPorts(entries: seq<Entry>, service: Word, instance: Word): seq<Word> {
    var c := FindClient(entries, service, instance);
    if c < |entries| then entries[c].ports else []
  }

  /** Entry `i` is the first one for the service instance. */
  predicate FirstFor(entries: seq<Entry>, service: Word, instance: Word, i: nat) {
    && i < |entries| && entries[i].service == service && entries[i].instance == instance
    && forall j :: 0 <= j < i ==> !(entries[j].service == service && entries[j].instance == instance)
  }

  /** The specific ports are those of the first entry for the service instance, and none if there is no such entry. */
  lemma {:induction false} SpecificPortsAre(entries: seq<Entry>, service: Word, instance: Word)
    ensures var c := FindClient(entries, service, instance);
            && (c < |entries| ==> FirstFor(entries, service, instance, c) && SpecificPorts(entries, service, instance) == entries[c].ports)
            && (c == |entries| ==> SpecificPorts(entries, service, instance) == [])
            && (c == |entries| ==> forall j :: 0 <= j < |entries| ==> !(entries[j].service == service && entries[j].instance == instance))
  {
    if entries != [] && !(entries[0].service == service && entries[0].instance == instance) {
      var rest := entries[1..];
      SpecificPortsAre(rest, service, instance);
      assert forall j :: 0 < j < |entries| ==> entries[j] == rest[j - 1];
    }
  }

  datatype Allocation = Allocation(ok: bool, port: Word, cursors: seq<Word>, specific: seq<Word>)

  function ClientPort(entries: seq<Entry>, cursors: seq<Word>, specific: seq<Word>,
                      service: Word, instance: Word, remote: Word, used: set<Word>): (a: Allocation)
    requires |cursors| == |specific| == |entries|
    ensures |a.cursors| == |a.specific| == |entries|
  {
    var c := FindClient(entries, service, instance);
    var ports := SpecificPorts(entries, service, instance);
    var p := if ports != [] then FindSpecific(ports, specific[c], used) else None;
    var specific' := if ports != [] then specific[c := ToPort(p)] else specific;
    if ToPort(p) != ILLEGAL_PORT then Allocation(true, ToPort(p), cursors, specific')
    else
      var f := FindPort(entries, cursors, remote, used);
      if ToPort(f.port) != ILLEGAL_PORT then Allocation(true, ToPort(f.port), f.cursors, specific')
      else if ports == [] && !Configured(entries, remote) then Allocation(true, 0, f.cursors, specific')
      else Allocation(false, ILLEGAL_PORT, f.cursors, specific')
  }

  /** A port of the service instance or of a range for the remote port. */
  predicate Candidate(entries: seq<Entry>, service: Word, instance: Word, remote: Word, p: Word) {
    p in SpecificPorts(entries, service, instance) || Offers(entries, remote, p)
  }

  /** Configured ports are neither 0 nor the illegal port. */
  predicate Sane(entries: seq<Entry>, service: Word, instance: Word, remote: Word) {
    forall p: Word :: Candidate(entries, service, instance, remote, p) ==> 0 < p < ILLEGAL_PORT
  }

  predicate ValidCursors(entries: seq<Entry>, cursors: seq<Word>, specific: seq<Word>) {
    && |cursors| == |specific| == |entries|
    && forall i :: 0 <= i < |entries| ==> Ascending(entries[i].ports) && IsCursor(entries[i].ports, specific[i])
  }

  lemma OffersNothing(entries: seq<Entry>, remote: Word, p: Word)
    requires !Configured(entries, remote)
    ensures !Offers(entries, remote, p)
  {
  }

  /**
   What the allocation answers: an unused candidate, specific ports first; 0 exactly if neither
   kind of port is configured; failure exactly if some are and all candidates are in use.
   */
  lemma ClientPortAnswers(entries: seq<Entry>, cursors: seq<Word>, specific: seq<Word>,
                          service: Word, instance: Word, remote: Word, used: set<Word>)
    requires |cursors| == |specific| == |entries| && Sane(entries, service, instance, remote)
    ensures var a := ClientPort(entries, cursors, specific, service, instance, remote, used);
            var ports := SpecificPorts(entries, service, instance);
            var configured := ports != [] || Configured(entries, remote);
            && (a.ok && a.port != 0 ==> Candidate(entries, service, instance, remote, a.port) && a.port !in used)
            && (a.ok && a.port != 0 && a.port !in ports ==> forall q :: q in ports ==> q in used)
            && (a.ok && a.port == 0 <==> !configured)
            && (!a.ok <==> configured && forall q :: Candidate(entries, service, instance, remote, q) ==> q in used)
    ensures var a := ClientPort(entries, cursors, specific, service, instance, remote, used);
            ValidCursors(entries, cursors, specific) ==> ValidCursors(entries, a.cursors, a.specific)
  {
    var c := FindClient(entries, service, instance);
    var ports := SpecificPorts(entries, service, instance);
    if ports != [] {
      SpecificIsFree(ports, specific[c], used);
      assert Candidate(entries, service, instance, remote, ports[0]);
    }
    FindPortFinds(entries, cursors, remote, used);
    hide FindSpecific, FindPort, Offers, Configured, FindClient;
    var p := if ports != [] then FindSpecific(ports, specific[c], used) else None;
    if p.Some? { assert Candidate(entries, service, instance, remote, p.value); }
    var f := FindPort(entries, cursors, remote, used).port;
    if f.Some? {
      assert Candidate(entries, service, instance, remote, f.value);
      if !Configured(entries, remote) { OffersNothing(entries, remote, f.value); }
    }
  }
}
