/** The correction of guest ranges and the search for a server port, as they run. */
module GuestAllocator {
  import opened Common
  import opened ClientPorts
  import opened GuestPorts

  /** What a set of ranges is corrected to. */
  function CorrectAll(ranges: set<Range>, host: Word): set<Range> {
    set r | r in ranges :: Correct(r, host)
  }

  predicate NeedsCorrection(r: Range, host: Word) {
    !IsEven(r) || !IsMatching(r, host)
  }

  class Routing {
    var guests: Guests

    constructor (guests: Guests)
      ensures this.guests == guests
    {
      this.guests := guests;
    }

    /** Collects the invalid ranges and their replacements, then exchanges them. */
    static method CorrectSet(ranges: set<Range>, host: Word) returns (corrected: set<Range>)
      ensures corrected == CorrectAll(ranges, host)
    {
      var invalid: set<Range>, replaced: set<Range> := {}, {};
      var todo := ranges;
      while todo != {}
        invariant todo <= ranges
        invariant invalid == set r | r in ranges - todo && NeedsCorrection(r, host)
        invariant replaced == set r | r in ranges - todo && NeedsCorrection(r, host) :: Correct(r, host)
        decreases |todo|
      {
        var r :| r in todo;
        var first, last := r.first, r.last;
        var isEven := (r.last - r.first + 1) % 2 == 0;
        var isMatching := r.first % 2 == host % 2;
        if !isMatching {
          first := Increment(first);
          if isEven {
            last := Decrement(last);
          }
        } else if !isEven {
          last := Decrement(last);
        }
        if !isEven || !isMatching {
          invalid := invalid + {r};
          replaced := replaced + {Range(first, last)};
        }
        todo := todo - {r};
      }
      corrected := ranges - invalid + replaced;
      Exchanged(ranges, host);
    }

    method CorrectGuests(host: Word)
      modifies this
      ensures guests == map c | c in old(guests) :: CorrectAll(old(guests)[c], host)
    {
      var todo := guests.Keys;
      while todo != {}
        invariant todo <= guests.Keys == old(guests).Keys
        invariant forall c :: c in guests ==> guests[c] == if c in todo then old(guests)[c] else CorrectAll(old(guests)[c], host)
        decreases |todo|
      {
        var c :| c in todo;
        var ranges := CorrectSet(guests[c], host);
        guests := guests[c := ranges];
        todo := todo - {c};
      }
    }
  }

  lemma Exchanged(ranges: set<Range>, host: Word)
    ensures (ranges - (set r | r in ranges && NeedsCorrection(r, host)))
            + (set r | r in ranges && NeedsCorrection(r, host) :: Correct(r, host)) == CorrectAll(ranges, host)
  {
    forall r | r in ranges && !NeedsCorrection(r, host) ensures Correct(r, host) == r { }
  }

  /** Whatever the order of iteration, the ranges searched are corrected ones of configured ranges. */
  lemma {:induction false} IterationIsCorrected(ranges: seq<Range>, configured: set<Range>, host: Word) returns (origins: seq<Range>)
    requires forall i :: 0 <= i < |ranges| ==> ranges[i] in CorrectAll(configured, host)
    requires forall r :: r in configured ==> IsLoaded(r)
    ensures Corrected(ranges, origins, host) && forall i :: 0 <= i < |origins| ==> origins[i] in configured
  {
    if ranges == [] {
      origins := [];
    } else {
      assert ranges[0] in CorrectAll(configured, host);
      var r :| r in configured && Correct(r, host) == ranges[0];
      hide Correct, IsLoaded;
      assert forall i :: 0 <= i < |ranges[1..]| ==> ranges[1..][i] == ranges[i + 1];
      var rest := IterationIsCorrected(ranges[1..], configured, host);
      origins := [r] + rest;
    }
  }

  /** `ranges` are the ranges of the guest in the order of iteration. */
  method GetLocalServerPort(ranges: seq<Range>, host: Word, used: set<Word>) returns (port: Option<Word>)
    ensures port == ServerPort(ranges, host, used)
  {
    var i := 0;
    while i < |ranges|
      invariant i <= |ranges|
      invariant FirstFree(Servers(ranges), used + {host}) == FirstFree(Servers(ranges[i..]), used + {host})
    {
      var r: nat, end := ranges[i].first, ranges[i].last;
      assert ranges[i..][1..] == ranges[i + 1..];
      while r < end
        invariant FirstFree(Servers(ranges), used + {host})
                  == FirstFree(ServersFrom(r, end) + Servers(ranges[i + 1..]), used + {host})
      {
        FirstFreeConcat(ServersFrom(r, end), Servers(ranges[i + 1..]), used + {host});
        FirstFreeConcat(ServersFrom(r + 2, end), Servers(ranges[i + 1..]), used + {host});
        if r !in used && r != host {
          return Some(r);
        }
        r := r + 2;
      }
      assert ServersFrom(r, end) + Servers(ranges[i + 1..]) == Servers(ranges[i + 1..]);
      i := i + 1;
    }
    port := None;
  }

  datatype Bind = Bound | InUse | OtherError

  datatype Try = Try(port: Word, outcome: Bind)

  /** The ports that tries found in use. */
  function FoundInUse(tries: seq<Try>): set<Word> {
    if tries == [] then {}
    else
      var t := tries[|tries|-1];
      FoundInUse(tries[..|tries|-1]) + if t.outcome == InUse then {t.port} else {}
  }

  /** The time spent waiting after other errors. */
  function Waited(tries: seq<Try>, waitTime: nat): nat {
    if tries == [] then 0
    else Waited(tries[..|tries|-1], waitTime) + if tries[|tries|-1].outcome == OtherError then waitTime else 0
  }

  /** Every try was the next one to make: for the first server port that no try before it found in use. */
  ghost predicate InTurn(ranges: seq<Range>, host: Word, tries: seq<Try>) {
    forall i :: 0 <= i < |tries| ==> ServerPort(ranges, host, FoundInUse(tries[..i])) == Some(tries[i].port)
  }

  lemma NextInTurn(ranges: seq<Range>, host: Word, tries: seq<Try>, t: Try)
    requires InTurn(ranges, host, tries)
    requires ServerPort(ranges, host, FoundInUse(tries)) == Some(t.port)
    ensures InTurn(ranges, host, tries + [t])
  {
    var tries' := tries + [t];
    forall i | 0 <= i < |tries'|
      ensures ServerPort(ranges, host, FoundInUse(tries'[..i])) == Some(tries'[i].port)
    {
      assert tries'[..i] == tries[..i];
      assert tries[..|tries|] == tries;
    }
  }

  lemma IsServer(ranges: seq<Range>, host: Word, used: set<Word>, p: Word)
    requires ServerPort(ranges, host, used) == Some(p)
    ensures p in Servers(ranges) && p !in used
  {
    FirstFreeIs(Servers(ranges), used + {host});
  }

  lemma NextCounts(tries: seq<Try>, t: Try, waitTime: nat)
    ensures FoundInUse(tries + [t]) == FoundInUse(tries) + if t.outcome == InUse then {t.port} else {}
    ensures Waited(tries + [t], waitTime) == Waited(tries, waitTime) + if t.outcome == OtherError then waitTime else 0
  {
    assert (tries + [t])[..|tries|] == tries;
  }

  lemma {:induction false} FoundBefore(tries: seq<Try>, i: nat)
    requires i < |tries| && tries[i].outcome == InUse
    ensures tries[i].port in FoundInUse(tries)
    decreases |tries|
  {
    if i < |tries| - 1 { FoundBefore(tries[..|tries|-1], i); }
  }

  /** A port that was found in use is not tried again. */
  lemma NotTriedAgain(ranges: seq<Range>, host: Word, tries: seq<Try>, i: nat, j: nat)
    requires InTurn(ranges, host, tries) && i < j < |tries| && tries[i].outcome == InUse
    ensures tries[j].port != tries[i].port
  {
    FoundBefore(tries[..j], i);
    FirstFreeIs(Servers(ranges), FoundInUse(tries[..j]) + {host});
  }

  lemma NoTries(ranges: seq<Range>, host: Word, waitTime: nat)
    ensures InTurn(ranges, host, []) && FoundInUse([]) == {} && Waited([], waitTime) == 0
  {
  }

  /**
   The search for a port to listen on, where an attempt to bind may have any outcome.
   It ends with the first server port, in the order of the ranges, that no attempt found in use,
   and with the port above it for outgoing connections; or without one, exactly when all server
   ports are in use or other errors have used up the time to wait.
   */
  method CreateAcceptor(ranges: seq<Range>, host: Word, waitTime: nat, maxWait: nat)
    returns (listening: Option<Word>, localPort: Word, tries: seq<Try>)
    requires waitTime > 0
    ensures InTurn(ranges, host, tries)
    ensures listening.Some? <==> tries != [] && tries[|tries| - 1].outcome == Bound
    ensures listening.Some? ==> listening == ServerPort(ranges, host, FoundInUse(tries)) == Some(tries[|tries| - 1].port)
    ensures listening.Some? ==> localPort == Increment(listening.value)
    ensures listening.None? ==> ServerPort(ranges, host, FoundInUse(tries)).None? || Waited(tries, waitTime) > maxWait
  {
    NoTries(ranges, host, waitTime);
    hide InTurn, FoundInUse, Waited, ServerPort, Servers, Increment;
    listening, localPort, tries := None, 0, [];
    var used: set<Word> := {};
    var wait := 0;
    ghost var all: set<Word> := set p | p in Servers(ranges);
    var port := GetLocalServerPort(ranges, host, used);
    while port.Some? && listening.None?
      invariant port == ServerPort(ranges, host, used) && used == FoundInUse(tries)
      invariant wait == Waited(tries, waitTime) <= maxWait
      invariant InTurn(ranges, host, tries)
      invariant listening.Some? <==> tries != [] && tries[|tries| - 1].outcome == Bound
      invariant listening.Some? ==> listening == port == Some(tries[|tries| - 1].port) && localPort == Increment(listening.value)
      decreases all - used, maxWait - wait, listening.None?
    {
      var outcome: Bind := *;
      var t := Try(port.value, outcome);
      NextInTurn(ranges, host, tries, t);
      NextCounts(tries, t, waitTime);
      IsServer(ranges, host, used, port.value);
      tries := tries + [t];
      if t.outcome == Bound {
        localPort := Increment(port.value);
        listening := port;
      } else if t.outcome == InUse {
        used := used + {port.value};
      } else {
        wait := wait + waitTime;
        if wait > maxWait {
          break;
        }
      }
      port := GetLocalServerPort(ranges, host, used);
    }
  }
}
