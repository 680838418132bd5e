/** The port allocators as they run, with cursors that are moved in place. */
module PortAllocator {
  import opened Common
  import opened ClientPorts

  /**
   The first unused port in `from`, ..., `last`. The 16-bit counter would run in circles if
   0xFFFF were in use and the last port of the range.
   */
  method Scan(from: Word, last: Word, used: set<Word>) returns (p: Option<Word>)
    requires ILLEGAL_PORT !in used
    ensures p == FirstFree(Ports(from, last), used)
  {
    var port := from;
    while port <= last
      invariant FirstFree(Ports(from, last), used) == FirstFree(Ports(port, last), used)
      decreases 0xFFFF - port
    {
      if port !in used {
        return Some(port);
      }
      port := Increment(port);
    }
    p := None;
  }

  class Clients {
    const entries: seq<Entry>
    var cursors: seq<Word>
    var specific: seq<Word>

    ghost predicate Valid()
      reads this
    {
      ValidCursors(entries, cursors, specific)
    }

    constructor (entries: seq<Entry>)
      requires forall i :: 0 <= i < |entries| ==> Ascending(entries[i].ports)
      ensures Valid() && this.entries == entries
      ensures forall i :: 0 <= i < |entries| ==> cursors[i] == specific[i] == ILLEGAL_PORT
    {
      this.entries := entries;
      cursors := seq(|entries|, i => ILLEGAL_PORT);
      specific := seq(|entries|, i => ILLEGAL_PORT);
    }

    /** The part of the first pass for one matching entry. */
    method ResumeEntry(i: nat, used: set<Word>) returns (port: Option<Word>)
      requires Valid() && i < |entries| && ILLEGAL_PORT !in used
      modifies this`cursors
      ensures var r, c := entries[i].clientPorts, old(cursors)[i];
              && port == FirstFree(Behind(r, c), used)
              && cursors == old(cursors)[i := if port.Some? then port.value else Advance(r, c)]
    {
      var r := entries[i].clientPorts;
      port := None;
      if cursors[i] != ILLEGAL_PORT && InRange(cursors[i], r) {
        cursors := cursors[i := Increment(cursors[i])];
        var start := cursors[i];
        cursors := cursors[i := Increment(cursors[i])];
        port := Scan(start, r.last, used);
      } else {
        cursors := cursors[i := Increment(cursors[i])];
        if cursors[i] == ILLEGAL_PORT {
          port := Scan(r.first, r.last, used);
        }
      }
      if port.Some? {
        cursors := cursors[i := port.value];
      }
    }

    /** The first pass; `configured` says whether it met a range for the remote port. */
    method ResumePass(remote: Word, used: set<Word>) returns (configured: bool, port: Option<Word>)
      requires Valid() && ILLEGAL_PORT !in used
      modifies this`cursors
      ensures Valid() && Found(cursors, port) == Resume(entries, old(cursors), remote, used, 0)
      ensures port.None? ==> configured == Configured(entries, remote)
      ensures port.Some? ==> configured && Configured(entries, remote)
    {
      hide Ascending, IsCursor, Behind, Advance, FirstFree, Matches;
      configured, port := false, None;
      var i := 0;
      while i < |entries|
        invariant i <= |entries| && Valid() && port.None?
        invariant Resume(entries, old(cursors), remote, used, 0) == Resume(entries, cursors, remote, used, i)
        invariant configured <==> exists k :: 0 <= k < i && Matches(entries[k], remote)
      {
        if Matches(entries[i], remote) {
          configured := true;
          port := ResumeEntry(i, used);
          if port.Some? {
            return;
          }
        }
        i := i + 1;
      }
    }

    method ResetPass(remote: Word)
      requires Valid()
      modifies this`cursors
      ensures Valid() && cursors == Reset(entries, old(cursors), remote)
    {
      var i := 0;
      while i < |entries|
        invariant i <= |entries| == |cursors|
        invariant forall k :: 0 <= k < |cursors| ==>
                    cursors[k] == if k < i && Matches(entries[k], remote) then ILLEGAL_PORT else old(cursors)[k]
      {
        if Matches(entries[i], remote) {
          cursors := cursors[i := ILLEGAL_PORT];
        }
        i := i + 1;
      }
    }

    /** The second pass, over whole ranges. */
    method RestartPass(remote: Word, used: set<Word>) returns (port: Option<Word>)
      requires Valid() && ILLEGAL_PORT !in used
      modifies this`cursors
      ensures Valid() && Found(cursors, port) == Restart(entries, old(cursors), remote, used, 0)
    {
      port := None;
      var i := 0;
      while i < |entries|
        invariant i <= |entries| && Valid() && cursors == old(cursors) && port.None?
        invariant Restart(entries, cursors, remote, used, 0) == Restart(entries, cursors, remote, used, i)
      {
        if Matches(entries[i], remote) {
          port := Scan(entries[i].clientPorts.first, entries[i].clientPorts.last, used);
          if port.Some? {
            cursors := cursors[i := port.value];
            return;
          }
        }
        i := i + 1;
      }
    }

    method FindPort(remote: Word, used: set<Word>) returns (configured: bool, port: Word)
      requires Valid() && ILLEGAL_PORT !in used
      modifies this`cursors
      ensures Valid() && configured == Configured(entries, remote)
      ensures var f := ClientPorts.FindPort(entries, old(cursors), remote, used); cursors == f.cursors && port == ToPort(f.port)
    {
      var found: Option<Word>;
      configured, found := ResumePass(remote, used);
      if found.Some? {
        return configured, found.value;
      }
      ResetPass(remote);
      found := RestartPass(remote, used);
      port := if found.Some? then found.value else ILLEGAL_PORT;
    }

    /** The first entry for the service instance. */
    method FindClient(service: Word, instance: Word) returns (c: nat)
      ensures c == ClientPorts.FindClient(entries, service, instance)
      ensures c < |entries| ==> entries[c].service == service && entries[c].instance == instance
      ensures forall i :: 0 <= i < c ==> !(entries[i].service == service && entries[i].instance == instance)
    {
      c := 0;
      while c < |entries|
        invariant c <= |entries|
        invariant ClientPorts.FindClient(entries, service, instance) == c + ClientPorts.FindClient(entries[c..], service, instance)
        invariant forall i :: 0 <= i < c ==> !(entries[i].service == service && entries[i].instance == instance)
      {
        if entries[c].service == service && entries[c].instance == instance {
          return;
        }
        assert entries[c..][1..] == entries[c + 1..];
        c := c + 1;
      }
    }

    /** `configured` says whether the service instance has ports of its own. */
    method FindSpecificPort(service: Word, instance: Word, used: set<Word>) returns (configured: bool, port: Word)
      requires Valid()
      modifies this`specific
      ensures Valid()
      ensures var ports := SpecificPorts(entries, service, instance);
              var c := ClientPorts.FindClient(entries, service, instance);
              && configured == (ports != [])
              && (!configured ==> port == ILLEGAL_PORT && specific == old(specific))
              && (configured ==> port == ToPort(FindSpecific(ports, old(specific)[c], used)) && specific == old(specific)[c := port])
    {
      var c := FindClient(service, instance);
      if c == |entries| || entries[c].ports == [] {
        return false, ILLEGAL_PORT;
      }
      var ports := entries[c].ports;
      var start := Start(ports, specific[c]);
      SpecificIsNext(ports, specific[c], used);
      FirstFreeConcat(ports[start..], ports[..start], used);
      assert ports[start..|ports|] == ports[start..] && ports[0..start] == ports[..start];
      hide FirstFree, StartIndex, Ascending;
      var found := TryAllocate(ports, start, |ports|, used);
      if found.None? {
        found := TryAllocate(ports, 0, start, used);
      }
      specific := specific[c := if found.Some? then found.value else ILLEGAL_PORT];
      return true, specific[c];
    }

    method GetClientPort(service: Word, instance: Word, remote: Word, used: set<Word>) returns (ok: bool, port: Word)
      requires Valid() && ILLEGAL_PORT !in used
      modifies this
      ensures Valid()
      ensures Allocation(ok, port, cursors, specific)
              == ClientPort(entries, old(cursors), old(specific), service, instance, remote, used)
    {
      if !Configured(entries, remote) { Unconfigured(entries, cursors, remote, used); }
      hide ClientPorts.FindPort, FindSpecific, Configured, SpecificPorts, Ascending, IsCursor;
      var isSpecific, found := FindSpecificPort(service, instance, used);
      if isSpecific && found != ILLEGAL_PORT {
        return true, found;
      }
      var isGeneric;
      isGeneric, found := FindPort(remote, used);
      if isGeneric && found != ILLEGAL_PORT {
        return true, found;
      }
      if !isSpecific && !isGeneric {
        return true, 0;
      }
      return false, ILLEGAL_PORT;
    }
  }

  /** Where the search for a specific port starts. */
  method Start(ports: seq<Word>, cursor: Word) returns (start: nat)
    requires ports != []
    ensures start == StartIndex(ports, cursor)
  {
    start := 0;
    if cursor != ILLEGAL_PORT {
      var i := 0;
      while i < |ports| && ports[i] != cursor
        invariant i <= |ports|
        invariant cursor !in ports[..i]
        invariant cursor in ports ==> cursor in ports[i..] && Position(ports, cursor) == i + Position(ports[i..], cursor)
      {
        assert ports[i..][1..] == ports[i + 1..];
        i := i + 1;
      }
      if i != |ports| {
        start := i + 1;
        if start == |ports| {
          start := 0;
        }
      }
    }
  }

  method TryAllocate(ports: seq<Word>, from: nat, to: nat, used: set<Word>) returns (port: Option<Word>)
    requires from <= to <= |ports|
    ensures port == FirstFree(ports[from..to], used)
  {
    var i := from;
    while i != to
      invariant from <= i <= to
      invariant FirstFree(ports[from..to], used) == FirstFree(ports[i..to], used)
    {
      if ports[i] !in used {
        return Some(ports[i]);
      }
      assert ports[i..to][1..] == ports[i + 1..to];
      i := i + 1;
    }
    port := None;
  }

  lemma Unconfigured(entries: seq<Entry>, cursors: seq<Word>, remote: Word, used: set<Word>)
    requires |cursors| == |entries| && !Configured(entries, remote)
    ensures ClientPorts.FindPort(entries, cursors, remote, used).port.None?
  {
    FindPortFinds(entries, cursors, remote, used);
  }
}
