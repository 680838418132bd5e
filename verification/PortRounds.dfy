/**
 Round robin over whole allocations: where each allocation leaves the cursors, and that allocations
 in a row go through the specific ports of a service instance, and through a port range, in turn.
 */
module PortRounds {
  import opened Common
  import opened ClientPorts
  import opened PortDelivery

  // --------------------------------------------------------------------- specific ports

  /** Some specific port of the service instance is free. */
  ghost predicate HasSpecific(entries: seq<Entry>, service: Word, instance: Word, used: set<Word>) {
    exists q :: q in SpecificPorts(entries, service, instance) && q !in used
  }

  /**
   The cursor of the specific ports: an allocation moves that of its service instance to the port
   it answers, or back to the begin if none of them is free, and leaves all others alone. A free
   specific port is always taken, and then no cursor of a range moves.
   */
  lemma SpecificCursor(entries: seq<Entry>, cursors: seq<Word>, specific: seq<Word>,
                       service: Word, instance: Word, remote: Word, used: set<Word>)
    requires |cursors| == |specific| == |entries| && ILLEGAL_PORT !in SpecificPorts(entries, service, instance)
    ensures var a := ClientPort(entries, cursors, specific, service, instance, remote, used);
            var c, ports := FindClient(entries, service, instance), SpecificPorts(entries, service, instance);
            && (forall i :: 0 <= i < |entries| && i != c ==> a.specific[i] == specific[i])
            && (ports == [] ==> a.specific == specific)
            && (HasSpecific(entries, service, instance, used) ==>
                  a.ok && a.port in ports && a.port !in used && a.specific == specific[c := a.port] && a.cursors == cursors)
            && (ports != [] && (forall q :: q in ports ==> q in used) ==> a.specific == specific[c := ILLEGAL_PORT])
  {
    var c, ports := FindClient(entries, service, instance), SpecificPorts(entries, service, instance);
    if ports != [] { SpecificIsFree(ports, specific[c], used); }
    hide FindSpecific, FindPort, FindClient, Configured;
  }

  /** Allocations in a row for one service instance, with the same ports in use. */
  function Answers(entries: seq<Entry>, cursors: seq<Word>, specific: seq<Word>,
                   service: Word, instance: Word, remote: Word, used: set<Word>, n: nat): (r: seq<Allocation>)
    requires |cursors| == |specific| == |entries|
    ensures |r| == n
    decreases n
  {
    if n == 0 then []
    else
      var a := ClientPort(entries, cursors, specific, service, instance, remote, used);
      [a] + Answers(entries, a.cursors, a.specific, service, instance, remote, used, n - 1)
  }

  lemma AnswerIsCall(entries: seq<Entry>, cursors: seq<Word>, specific: seq<Word>,
                     service: Word, instance: Word, remote: Word, used: set<Word>)
    requires |cursors| == |specific| == |entries| && FindClient(entries, service, instance) < |entries|
    requires ILLEGAL_PORT !in SpecificPorts(entries, service, instance) && HasSpecific(entries, service, instance, used)
    ensures var a := ClientPort(entries, cursors, specific, service, instance, remote, used);
            var c, ports := FindClient(entries, service, instance), SpecificPorts(entries, service, instance);
            && FindSpecific(ports, specific[c], used) == Some(a.port)
            && a.ok && a.specific[c] == a.port && a.cursors == cursors
  {
    var c, ports := FindClient(entries, service, instance), SpecificPorts(entries, service, instance);
    SpecificIsFree(ports, specific[c], used);
    hide FindSpecific, FindPort, FindClient, Configured;
  }

  lemma {:induction false} AnswersAreCalls(entries: seq<Entry>, cursors: seq<Word>, specific: seq<Word>,
                                           service: Word, instance: Word, remote: Word, used: set<Word>, n: nat, k: nat)
    requires |cursors| == |specific| == |entries| && k < n && FindClient(entries, service, instance) < |entries|
    requires ILLEGAL_PORT !in SpecificPorts(entries, service, instance) && HasSpecific(entries, service, instance, used)
    ensures var a := Answers(entries, cursors, specific, service, instance, remote, used, n)[k];
            var ports, cursor := SpecificPorts(entries, service, instance), specific[FindClient(entries, service, instance)];
            a.ok && Calls(ports, cursor, used, n)[k] == Some(a.port)
    decreases n
  {
    hide FindSpecific, ClientPort, FindClient, SpecificPorts, HasSpecific;
    AnswerIsCall(entries, cursors, specific, service, instance, remote, used);
    var a := ClientPort(entries, cursors, specific, service, instance, remote, used);
    if k > 0 { AnswersAreCalls(entries, a.cursors, a.specific, service, instance, remote, used, n - 1, k - 1); }
  }

  /**
   Round robin. While no port is in use, as many allocations for a service instance as it has
   specific ports answer every one of them once, in cyclic order from the cursor.
   */
  lemma AllocatesInTurn(entries: seq<Entry>, cursors: seq<Word>, specific: seq<Word>,
                        service: Word, instance: Word, remote: Word, i: nat, k: nat)
    requires |cursors| == |specific| == |entries| && FirstFor(entries, service, instance, i)
    requires Ascending(entries[i].ports) && ILLEGAL_PORT !in entries[i].ports && k < |entries[i].ports|
    ensures var ports, cursor := entries[i].ports, specific[i];
            var a := Answers(entries, cursors, specific, service, instance, remote, {}, |ports|)[k];
            && a.ok && a.port == ports[Cyclic(StartIndex(ports, cursor), k, |ports|)]
            && multiset(Rotation(ports, cursor)) == multiset(ports) && a.port == Rotation(ports, cursor)[k]
  {
    var ports, cursor := entries[i].ports, specific[i];
    SpecificPortsAre(entries, service, instance);
    assert FindClient(entries, service, instance) == i;
    assert ports[0] in ports && ports[0] !in {};
    assert HasSpecific(entries, service, instance, {});
    AnswersAreCalls(entries, cursors, specific, service, instance, remote, {}, |ports|, k);
    CallsCycle(ports, cursor, |ports|, k);
    RoundRobin(ports, cursor);
    hide Answers, Calls, FindClient, Rotation, StartIndex, Cyclic;
  }

  // ------------------------------------------------------------------------------ ranges

  /** A port found in a range is left as the cursor of a range for the remote port that holds it. */
  predicate Marks(entries: seq<Entry>, remote: Word, f: Found)
    requires |f.cursors| == |entries|
  {
    f.port.Some? ==>
      exists i :: 0 <= i < |entries| && Matches(entries[i], remote)
                  && InRange(f.port.value, entries[i].clientPorts) && f.cursors[i] == f.port.value
  }

  lemma {:induction false} ResumeMarks(entries: seq<Entry>, cursors: seq<Word>, remote: Word, used: set<Word>, i: nat)
    requires |cursors| == |entries| && i <= |entries|
    ensures Marks(entries, remote, Resume(entries, cursors, remote, used, i))
    decreases |entries| - i
  {
    if i < |entries| {
      var r, c := entries[i].clientPorts, cursors[i];
      forall p ensures p in Behind(r, c) ==> InRange(p, r) { BehindInRange(r, c, p); }
      FoundInRange(Behind(r, c), r, used);
      hide Behind, FirstFree, Advance;
      ResumeMarks(entries, if Matches(entries[i], remote) then cursors[i := Advance(r, c)] else cursors, remote, used, i + 1);
      var p := FirstFree(Behind(r, c), used);
      if Matches(entries[i], remote) && p.Some? { assert cursors[i := p.value][i] == p.value; }
    }
  }

  lemma {:induction false} RestartMarks(entries: seq<Entry>, cursors: seq<Word>, remote: Word, used: set<Word>, i: nat)
    requires |cursors| == |entries| && i <= |entries|
    ensures Marks(entries, remote, Restart(entries, cursors, remote, used, i))
    decreases |entries| - i
  {
    if i < |entries| {
      var r := entries[i].clientPorts;
      forall p ensures p in Ports(r.first, r.last) ==> InRange(p, r) { PortsAre(r.first, r.last, p); }
      FoundInRange(Ports(r.first, r.last), r, used);
      hide Ports, FirstFree;
      RestartMarks(entries, cursors, remote, used, i + 1);
      var p := FirstFree(Ports(r.first, r.last), used);
      if Matches(entries[i], remote) && p.Some? { assert cursors[i := p.value][i] == p.value; }
    }
  }

  /** The cursors of the ranges: a search leaves the port it finds as a cursor, and other remote ports' cursors alone. */
  lemma RangeCursor(entries: seq<Entry>, cursors: seq<Word>, remote: Word, used: set<Word>)
    requires |cursors| == |entries|
    ensures var f := FindPort(entries, cursors, remote, used);
            && Marks(entries, remote, f)
            && forall j :: 0 <= j < |entries| && !Matches(entries[j], remote) ==> f.cursors[j] == cursors[j]
  {
    ResumeMarks(entries, cursors, remote, used, 0);
    var f := Resume(entries, cursors, remote, used, 0);
    RestartMarks(entries, Reset(entries, f.cursors, remote), remote, used, 0);
    forall j | 0 <= j < |entries| && !Matches(entries[j], remote)
      ensures FindPort(entries, cursors, remote, used).cursors[j] == cursors[j]
    {
      CallOthers(entries, cursors, remote, used, j);
    }
    hide Marks, Resume, Restart;
  }

  /** Entry `i` is the only one for the remote port. */
  predicate Only(entries: seq<Entry>, remote: Word, i: nat) {
    i < |entries| && forall j :: 0 <= j < |entries| ==> (Matches(entries[j], remote) <==> j == i)
  }

  lemma {:induction false} ResumeOnly(entries: seq<Entry>, cursors: seq<Word>, remote: Word, used: set<Word>, i: nat, j: nat)
    requires |cursors| == |entries| && Only(entries, remote, i) && j <= |entries|
    ensures var r, c := entries[i].clientPorts, cursors[i];
            var p := FirstFree(Behind(r, c), used);
            Resume(entries, cursors, remote, used, j) ==
            if i < j then Found(cursors, None)
            else if p.Some? then Found(cursors[i := p.value], p) else Found(cursors[i := Advance(r, c)], None)
    decreases |entries| - j
  {
    if j < |entries| {
      hide Behind, FirstFree, Advance;
      if j == i {
        ResumeOnly(entries, cursors[i := Advance(entries[i].clientPorts, cursors[i])], remote, used, i, j + 1);
      } else {
        ResumeOnly(entries, cursors, remote, used, i, j + 1);
      }
    }
  }

  lemma {:induction false} RestartOnly(entries: seq<Entry>, cursors: seq<Word>, remote: Word, used: set<Word>, i: nat, j: nat)
    requires |cursors| == |entries| && Only(entries, remote, i) && j <= |entries|
    ensures var p := FirstFree(Ports(entries[i].clientPorts.first, entries[i].clientPorts.last), used);
            Restart(entries, cursors, remote, used, j) ==
            if j <= i && p.Some? then Found(cursors[i := p.value], p) else Found(cursors, None)
    decreases |entries| - j
  {
    if j < |entries| {
      hide Ports, FirstFree;
      RestartOnly(entries, cursors, remote, used, i, j + 1);
    }
  }

  /** What a cursor of a range can be from fresh cursors on. */
  predicate IsRangeCursor(r: Range, cursor: Word) {
    cursor == ILLEGAL_PORT || InRange(cursor, r)
  }

  /** The ports of a range from behind the cursor on, and then from its begin. */
  function InTurnFrom(r: Range, cursor: Word): seq<Word> {
    (if cursor == ILLEGAL_PORT then [] else Ports(cursor + 1, r.last)) + Ports(r.first, r.last)
  }

  /** With one range for the remote port the search answers its next free port in turn, and marks it. */
  lemma RangeIsNext(entries: seq<Entry>, cursors: seq<Word>, remote: Word, used: set<Word>, i: nat)
    requires |cursors| == |entries| && Only(entries, remote, i) && IsRangeCursor(entries[i].clientPorts, cursors[i])
    ensures var p := FirstFree(InTurnFrom(entries[i].clientPorts, cursors[i]), used);
            FindPort(entries, cursors, remote, used) == Found(cursors[i := ToPort(p)], p)
  {
    var r, c := entries[i].clientPorts, cursors[i];
    var b := Behind(r, c);
    assert b == if c == ILLEGAL_PORT then [] else Ports(c + 1, r.last);
    FirstFreeConcat(b, Ports(r.first, r.last), used);
    ResumeOnly(entries, cursors, remote, used, i, 0);
    var f := Resume(entries, cursors, remote, used, 0);
    var clean := Reset(entries, f.cursors, remote);
    RestartOnly(entries, clean, remote, used, i, 0);
    hide Resume, Restart, Behind, FirstFree, Ports;
    if f.port.None? { assert clean == cursors[i := ILLEGAL_PORT]; }
  }

  /** The port that follows the cursor in turn. */
  function NextOf(r: Range, cursor: Word): Word {
    if cursor == ILLEGAL_PORT || cursor >= r.last then r.first else cursor + 1
  }

  lemma OneSearch(entries: seq<Entry>, cursors: seq<Word>, remote: Word, i: nat)
    requires |cursors| == |entries| && Only(entries, remote, i) && IsRangeCursor(entries[i].clientPorts, cursors[i])
    requires entries[i].clientPorts.first <= entries[i].clientPorts.last < ILLEGAL_PORT
    ensures var p := NextOf(entries[i].clientPorts, cursors[i]);
            FindPort(entries, cursors, remote, {}) == Found(cursors[i := p], Some(p)) && InRange(p, entries[i].clientPorts)
  {
    RangeIsNext(entries, cursors, remote, {}, i);
    var r, c := entries[i].clientPorts, cursors[i];
    assert Ports(r.first, r.last)[0] == r.first;
    if c != ILLEGAL_PORT && c < r.last { assert Ports(c + 1, r.last)[0] == c + 1; }
    hide FindPort;
  }

  /**
   What an allocation without a free specific port does to the ranges: it leaves the port it
   answers as the cursor of a range that holds it, and other remote ports' cursors alone.
   */
  lemma AllocationMarks(entries: seq<Entry>, cursors: seq<Word>, specific: seq<Word>,
                        service: Word, instance: Word, remote: Word, used: set<Word>)
    requires |cursors| == |specific| == |entries| && !HasSpecific(entries, service, instance, used)
    ensures var a := ClientPort(entries, cursors, specific, service, instance, remote, used);
            && (a.ok && Configured(entries, remote) ==> Marks(entries, remote, Found(a.cursors, Some(a.port))))
            && forall j :: 0 <= j < |entries| && !Matches(entries[j], remote) ==> a.cursors[j] == cursors[j]
  {
    var c, ports := FindClient(entries, service, instance), SpecificPorts(entries, service, instance);
    if ports != [] { SpecificIsFree(ports, specific[c], used); }
    RangeCursor(entries, cursors, remote, used);
    hide FindSpecific, FindPort, FindClient, Configured, Marks;
  }

  /**
   Round robin in a range. While no port is in use, allocations in a row for a service instance
   without specific ports and a remote port with one range answer the ports of the range in turn:
   each the one above the one before it, and the first one after the last.
   */
  lemma {:induction false} RangeAllocatesInTurn(entries: seq<Entry>, cursors: seq<Word>, specific: seq<Word>,
                                                service: Word, instance: Word, remote: Word, i: nat, n: nat, k: nat)
    requires |cursors| == |specific| == |entries| && SpecificPorts(entries, service, instance) == []
    requires Only(entries, remote, i) && IsRangeCursor(entries[i].clientPorts, cursors[i])
    requires entries[i].clientPorts.first <= entries[i].clientPorts.last < ILLEGAL_PORT && k < n
    ensures var r, a := entries[i].clientPorts, Answers(entries, cursors, specific, service, instance, remote, {}, n);
            && a[k].ok
            && (k == 0 ==> a[0].port == NextOf(r, cursors[i]))
            && (k > 0 ==> a[k].port == NextOf(r, a[k - 1].port))
    decreases n
  {
    OneSearch(entries, cursors, remote, i);
    var p := NextOf(entries[i].clientPorts, cursors[i]);
    var a := ClientPort(entries, cursors, specific, service, instance, remote, {});
    assert a == Allocation(true, p, cursors[i := p], specific);
    hide FindPort, ClientPort, NextOf, SpecificPorts;
    if k > 0 { RangeAllocatesInTurn(entries, a.cursors, a.specific, service, instance, remote, i, n - 1, k - 1); }
  }
}
