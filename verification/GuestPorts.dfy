/**
 The port ranges of guests that talk to the routing host over local TCP. A guest listens on a
 server port and connects to others from the port above it, so ranges are cut such that all
 server ports have the parity of the routing host port.
 */
module GuestPorts {
  import opened Common
  import opened ClientPorts

  const ANY: nat := 0xFFFF_FFFF

  /** User and group of a guest; `ANY` stands for all of them. */
  datatype Credentials = Credentials(uid: nat, gid: nat)

  type Guests = map<Credentials, set<Range>>

  predicate IsEven(r: Range) {
    (r.last - r.first + 1) % 2 == 0
  }

  predicate IsMatching(r: Range, host: Word) {
    r.first % 2 == host % 2
  }

  function Decrement(port: Word): Word {
    (port - 1) % 0x1_0000
  }

  function Correct(r: Range, host: Word): Range {
    if !IsMatching(r, host) then Range(Increment(r.first), if IsEven(r) then Decrement(r.last) else r.last)
    else if !IsEven(r) then Range(r.first, Decrement(r.last))
    else r
  }

  /** Ranges as they are loaded: not empty and without port 0. */
  predicate IsLoaded(r: Range) {
    0 < r.first <= r.last
  }

  predicate IsSubrange(inner: Range, outer: Range) {
    forall p: Word :: InRange(p, inner) ==> InRange(p, outer)
  }

  /** The case in which the start of the range wraps around to 0. */
  predicate Wraps(r: Range, host: Word) {
    r.first == 0xFFFF && host % 2 == 0
  }

  lemma CorrectBounds(r: Range, host: Word)
    requires IsLoaded(r)
    ensures var c := Correct(r, host);
            && IsEven(c) && IsMatching(c, host) && c.last <= r.last && r.last <= c.last + 1
            && (if Wraps(r, host) then c == Range(0, 0xFFFF) else r.first <= c.first <= r.first + 1)
  {
    assert Decrement(r.last) == r.last - 1;
    assert Increment(r.first) == if r.first == 0xFFFF then 0 else r.first + 1;
    hide Decrement, Increment;
  }

  /**
   The correction keeps a range inside the configured one exactly if it does not start at 0xFFFF
   for an even host port; in that case it becomes the range of all ports.
   */
  lemma CorrectIsSubrange(r: Range, host: Word)
    requires IsLoaded(r)
    ensures IsEven(Correct(r, host)) && IsMatching(Correct(r, host), host)
    ensures IsSubrange(Correct(r, host), r) <==> !Wraps(r, host)
    ensures Wraps(r, host) ==> Correct(r, host) == Range(0, 0xFFFF)
  {
    CorrectBounds(r, host);
    if Wraps(r, host) {
      assert InRange(0, Correct(r, host)) && !InRange(0, r);
    }
  }

  /** No larger part of the configured range has an even number of ports and the host port's parity. */
  lemma CorrectIsLargest(r: Range, host: Word, other: Range)
    requires IsLoaded(r) && other.first <= other.last && IsEven(other) && IsMatching(other, host)
    requires r.first <= other.first && other.last <= r.last
    ensures IsSubrange(other, Correct(r, host))
  {
    var c := Correct(r, host);
    CorrectBounds(r, host);
    var a, b := r.first % 2, r.last % 2;
    if other.first == r.first { assert c.first == r.first; }
    if other.last == r.last { assert c.last == r.last; }
  }

  // ------------------------------------------------------------------- credentials

  /** The ranges for a guest, from the most specific credentials that are configured. */
  function RangesOf(guests: Guests, uid: nat, gid: nat): set<Range> {
    if Credentials(uid, gid) in guests then guests[Credentials(uid, gid)]
    else if Credentials(uid, ANY) in guests then guests[Credentials(uid, ANY)]
    else if Credentials(ANY, gid) in guests then guests[Credentials(ANY, gid)]
    else if Credentials(ANY, ANY) in guests then guests[Credentials(ANY, ANY)]
    else {}
  }

  predicate Fits(c: Credentials, uid: nat, gid: nat) {
    (c.uid == uid || c.uid == ANY) && (c.gid == gid || c.gid == ANY)
  }

  /** The user counts more than the group. */
  function Specific(c: Credentials): nat {
    (if c.uid != ANY then 2 else 0) + (if c.gid != ANY then 1 else 0)
  }

  /** There are no ranges if no entry fits. */
  lemma NoRangesIfNoneFits(guests: Guests, uid: nat, gid: nat)
    requires forall c :: c in guests ==> !Fits(c, uid, gid)
    ensures RangesOf(guests, uid, gid) == {}
  {
    assert Fits(Credentials(uid, gid), uid, gid) && Fits(Credentials(uid, ANY), uid, gid);
    assert Fits(Credentials(ANY, gid), uid, gid) && Fits(Credentials(ANY, ANY), uid, gid);
  }

  /** The ranges are those of the most specific entry that fits. */
  lemma MostSpecificWins(guests: Guests, uid: nat, gid: nat, c: Credentials)
    requires c in guests && Fits(c, uid, gid)
    requires forall d :: d in guests && Fits(d, uid, gid) ==> Specific(d) <= Specific(c)
    ensures RangesOf(guests, uid, gid) == guests[c]
  {
    var exact, user, group := Credentials(uid, gid), Credentials(uid, ANY), Credentials(ANY, gid);
    assert exact in guests ==> Fits(exact, uid, gid);
    assert user in guests ==> Fits(user, uid, gid);
    assert group in guests ==> Fits(group, uid, gid);
  }

  // ------------------------------------------------------------------- server ports

  /** The server ports of a range from `r` on. */
  function ServersFrom(r: nat, end: Word): seq<Word>
    decreases 0x1_0000 - r
  {
    if r < end then [r] + ServersFrom(r + 2, end) else []
  }

  function Servers(ranges: seq<Range>): seq<Word> {
    if ranges == [] then [] else ServersFrom(ranges[0].first, ranges[0].last) + Servers(ranges[1..])
  }

  function ServerPort(ranges: seq<Range>, host: Word, used: set<Word>): Option<Word> {
    FirstFree(Servers(ranges), used + {host})
  }

  lemma {:induction false} ServersFromAre(r: nat, end: Word, p: Word)
    ensures p in ServersFrom(r, end) <==> r <= p < end && p % 2 == r % 2
    decreases 0x1_0000 - r
  {
    if r < end { ServersFromAre(r + 2, end, p); }
  }

  lemma {:induction false} ServersAre(ranges: seq<Range>, p: Word)
    ensures p in Servers(ranges) <==>
            exists i :: 0 <= i < |ranges| && ranges[i].first <= p < ranges[i].last && p % 2 == ranges[i].first % 2
  {
    if ranges != [] {
      var rest := ranges[1..];
      ServersFromAre(ranges[0].first, ranges[0].last, p);
      ServersAre(rest, p);
      assert forall i :: 0 <= i < |rest| ==> rest[i] == ranges[i + 1];
      assert forall i :: 0 < i < |ranges| ==> ranges[i] == rest[i - 1];
    }
  }

  /** The ranges are the corrected ones of the configured ranges. */
  predicate Corrected(ranges: seq<Range>, configured: seq<Range>, host: Word) {
    && |ranges| == |configured|
    && forall i :: 0 <= i < |ranges| ==> IsLoaded(configured[i]) && ranges[i] == Correct(configured[i], host)
  }

  predicate HoldsPair(r: Range, p: Word) {
    InRange(p, r) && p < 0xFFFF && InRange(p + 1, r)
  }

  lemma PairInRange(r: Range, host: Word, p: Word)
    requires IsLoaded(r)
    requires var c := Correct(r, host); c.first <= p < c.last && p % 2 == c.first % 2
    ensures p % 2 == host % 2 && p + 1 != host
    ensures HoldsPair(Correct(r, host), p) && (Wraps(r, host) || HoldsPair(r, p))
  {
    CorrectBounds(r, host);
    hide Correct;
  }

  /**
   A server port that is handed out and the port above it lie in one configured range, unless the
   correction of that range wraps; neither is the routing host port, and the server port has its
   parity.
   */
  lemma ServerPairs(ranges: seq<Range>, configured: seq<Range>, host: Word, used: set<Word>)
    requires Corrected(ranges, configured, host)
    ensures var p := ServerPort(ranges, host, used);
            p.Some? ==>
              && p.value !in used && p.value % 2 == host % 2 && p.value != host && p.value + 1 != host
              && exists i :: 0 <= i < |ranges| && HoldsPair(ranges[i], p.value) && (Wraps(configured[i], host) || HoldsPair(configured[i], p.value))
  {
    FirstFreeIs(Servers(ranges), used + {host});
    var p := ServerPort(ranges, host, used);
    if p.Some? {
      ServersAre(ranges, p.value);
      var i :| 0 <= i < |ranges| && ranges[i].first <= p.value < ranges[i].last && p.value % 2 == ranges[i].first % 2;
      hide FirstFree, Servers, Correct, HoldsPair, Wraps, IsLoaded;
      PairInRange(configured[i], host, p.value);
    }
  }

  /**
   Guests never collide: the pairs of two different server ports handed out under one host port
   have no port in common, whatever the ranges are and however they overlap.
   */
  lemma PairsAreDisjoint(a: seq<Range>, b: seq<Range>, aConfigured: seq<Range>, bConfigured: seq<Range>,
                         host: Word, aUsed: set<Word>, bUsed: set<Word>)
    requires Corrected(a, aConfigured, host) && Corrected(b, bConfigured, host)
    ensures var p, q := ServerPort(a, host, aUsed), ServerPort(b, host, bUsed);
            p.Some? && q.Some? && p != q ==> {p.value, p.value + 1} !! {q.value, q.value + 1}
  {
    hide ServerPort, Corrected, HoldsPair, Wraps;
    ServerPairs(a, aConfigured, host, aUsed);
    ServerPairs(b, bConfigured, host, bUsed);
  }

  /** A port of the range on which a guest may listen. */
  predicate IsServer(r: Range, p: Word) {
    r.first <= p < r.last && p % 2 == r.first % 2
  }

  /** No port is handed out exactly if every server port is in use or the routing host's. */
  lemma NoServerPort(ranges: seq<Range>, host: Word, used: set<Word>)
    ensures ServerPort(ranges, host, used).None? <==>
            forall i, p: Word :: 0 <= i < |ranges| && IsServer(ranges[i], p) ==> p in used || p == host
  {
    var servers := Servers(ranges);
    FirstFreeIs(servers, used + {host});
    if ServerPort(ranges, host, used).None? {
      forall i, p: Word | 0 <= i < |ranges| && IsServer(ranges[i], p) ensures p in used || p == host {
        ServersAre(ranges, p);
        var k :| 0 <= k < |servers| && servers[k] == p;
      }
    } else {
      ServersAre(ranges, ServerPort(ranges, host, used).value);
    }
  }

  lemma {:induction false} FromIsFirst(r: nat, end: Word, used: set<Word>, q: Word)
    requires r <= q < end && q % 2 == r % 2 && q !in used
    ensures var p := FirstFree(ServersFrom(r, end), used); p.Some? && p.value <= q
    decreases 0x1_0000 - r
  {
    if r != q && r in used {
      assert ServersFrom(r, end)[1..] == ServersFrom(r + 2, end);
      FromIsFirst(r + 2, end, used, q);
    }
  }

  /** The port handed out is the lowest free one of the first range that has any. */
  lemma {:induction false} LowestOfFirst(ranges: seq<Range>, host: Word, used: set<Word>, i: nat, q: Word)
    requires i < |ranges| && IsServer(ranges[i], q) && q !in used && q != host
    ensures var p := ServerPort(ranges, host, used);
            p.Some? && exists k :: 0 <= k <= i && IsServer(ranges[k], p.value) && (k == i ==> p.value <= q)
  {
    var here, rest := ServersFrom(ranges[0].first, ranges[0].last), ranges[1..];
    FirstFreeConcat(here, Servers(rest), used + {host});
    FirstFreeIs(here, used + {host});
    var p := FirstFree(here, used + {host});
    if p.Some? {
      ServersFromAre(ranges[0].first, ranges[0].last, p.value);
      if i == 0 { FromIsFirst(ranges[0].first, ranges[0].last, used + {host}, q); }
      assert IsServer(ranges[0], p.value);
    } else if i == 0 {
      FromIsFirst(ranges[0].first, ranges[0].last, used + {host}, q);
    } else {
      LowestOfFirst(rest, host, used, i - 1, q);
      var k :| 0 <= k <= i - 1 && IsServer(rest[k], ServerPort(rest, host, used).value)
               && (k == i - 1 ==> ServerPort(rest, host, used).value <= q);
      assert rest[k] == ranges[k + 1];
    }
  }
}
