/**
 The client endpoints to remote services. Services that are hosted on the same remote endpoint
 and belong to the same partition share a client endpoint; it is stopped with its last user. The
 steps are the sections under the manager's mutex.
 */
module RemoteClients {
  import opened Common
  import opened ClientPorts

  const ANY_MAJOR: Byte := 0xFF

  /** A key of the table of remote services: service, instance and major, once per protocol. */
  datatype User = User(service: Word, instance: Word, major: Byte, reliable: bool)

  datatype Remote = Remote(address: nat, port: Word)

  /** The place of a client endpoint in the index. */
  datatype Key = Key(remote: Remote, reliable: bool, partition: nat)

  datatype Endpoint = Endpoint(id: nat, remote: Remote, reliable: bool, localPort: Word)

  datatype Cursors = Cursors(generic: seq<Word>, specific: seq<Word>)

  datatype Config = Config(reliable: seq<Entry>, unreliable: seq<Entry>, partitions: map<(Word, Word), nat>)

  function Entries(cfg: Config, reliable: bool): seq<Entry> {
    if reliable then cfg.reliable else cfg.unreliable
  }

  function Partition(cfg: Config, u: User): nat {
    if (u.service, u.instance) in cfg.partitions then cfg.partitions[(u.service, u.instance)] else 0
  }

  datatype State = State(
    services: map<User, Endpoint>,              // remote_services_
    index: map<Key, Endpoint>,                  // client_endpoints_
    info: map<User, Remote>,                    // remote_service_info_
    used: UsedMap,                              // used_client_ports_
    cursors: map<bool, Cursors>,                // of the port allocators
    // history
    created: set<Endpoint>,
    closing: set<Endpoint>,                     // unlisted, not yet stopped
    stopped: multiset<Endpoint>)

  function KeyOf(cfg: Config, u: User, r: Remote): Key {
    Key(r, u.reliable, Partition(cfg, u))
  }

  type UsedMap = map<(Remote, bool), set<Word>>

  function UsedPorts(used: UsedMap, r: Remote, reliable: bool): set<Word> {
    if (r, reliable) in used then used[(r, reliable)] else {}
  }

  // ----------------------------------------------------------------------- find, create

  /** The endpoint of a user, or the one it can share; the user is entered for the latter. */
  function Find(cfg: Config, s: State, u: User): (State, Option<Endpoint>) {
    if u.major == ANY_MAJOR then (s, None)
    else if u in s.services then (s, Some(s.services[u]))
    else if u in s.info && KeyOf(cfg, u, s.info[u]) in s.index then
      var ep := s.index[KeyOf(cfg, u, s.info[u])];
      (s.(services := s.services[u := ep]), Some(ep))
    else (s, None)
  }

  predicate ValidCursors(cfg: Config, s: State) {
    forall r: bool :: r in s.cursors && |s.cursors[r].generic| == |s.cursors[r].specific| == |Entries(cfg, r)|
  }

  function Allocate(cfg: Config, s: State, u: User, r: Remote): Allocation
    requires ValidCursors(cfg, s)
  {
    var c := s.cursors[u.reliable];
    ClientPort(Entries(cfg, u.reliable), c.generic, c.specific, u.service, u.instance, r.port, UsedPorts(s.used, r, u.reliable))
  }

  function Enter(cfg: Config, s: State, u: User, ep: Endpoint): State {
    var k := (ep.remote, ep.reliable);
    s.(services := s.services[u := ep],
       index := s.index[KeyOf(cfg, u, ep.remote) := ep],
       used := s.used[k := UsedPorts(s.used, ep.remote, ep.reliable) + {ep.localPort}],
       created := s.created + {ep})
  }

  /** `id` names the new endpoint; `works` says whether its socket could be set up. */
  function Create(cfg: Config, s: State, u: User, id: nat, works: bool): (State, Option<Endpoint>)
    requires ValidCursors(cfg, s)
  {
    if u.major == ANY_MAJOR || u !in s.info || s.info[u].port == ILLEGAL_PORT then (s, None)
    else
      var r := s.info[u];
      var a := Allocate(cfg, s, u, r);
      var s1 := s.(cursors := s.cursors[u.reliable := Cursors(a.cursors, a.specific)]);
      if a.ok && works then
        var ep := Endpoint(id, r, u.reliable, a.port);
        (Enter(cfg, s1, u, ep), Some(ep))
      else (s1, None)
  }

  function FindOrCreate(cfg: Config, s: State, u: User, id: nat, works: bool): (State, Option<Endpoint>)
    requires ValidCursors(cfg, s)
  {
    var (s1, found) := Find(cfg, s, u);
    if found.Some? then (s1, found) else Create(cfg, s1, u, id, works)
  }

  // ------------------------------------------------------------------------------ clear

  function Users(s: State, ep: Endpoint): set<User> {
    set u | u in s.services && s.services[u] == ep
  }

  predicate Listed(s: State, service: Word, instance: Word, major: Byte) {
    User(service, instance, major, true) in s.services || User(service, instance, major, false) in s.services
  }

  /** A request for any major falls back to an arbitrary listed one if there is none of that name. */
  ghost predicate IsTarget(s: State, u: User, t: User) {
    if u.major == ANY_MAJOR && !Listed(s, u.service, u.instance, u.major)
       && (exists m :: Listed(s, u.service, u.instance, m))
    then t == u.(major := t.major) && Listed(s, t.service, t.instance, t.major)
    else t == u
  }

  /** Removes the entry of user `t`, and the endpoint from the index if no other user has it. */
  function Unlist(cfg: Config, s: State, t: User): State {
    if t !in s.services then s
    else
      var ep := s.services[t];
      var s1 := s.(services := s.services - {t});
      if exists u :: u in s1.services && u.reliable == t.reliable && s1.services[u] == ep then s1
      else
        var k := KeyOf(cfg, t, ep.remote);
        s1.(index := if k in s.index && s.index[k] == ep then s.index - {k} else s.index,
            closing := s.closing + {ep})
  }

  /** Releases the local port of an unlisted endpoint and stops it. */
  function Finish(s: State, ep: Endpoint): State {
    var k := (ep.remote, ep.reliable);
    s.(used := if k in s.used then s.used[k := s.used[k] - {ep.localPort}] else s.used,
       closing := s.closing - {ep},
       stopped := s.stopped + multiset{ep})
  }

  // ------------------------------------------------------------------------------- runs

  datatype Event =
    | DoFindOrCreate(user: User, id: nat, works: bool)
    | DoClear(user: User, target: User)
    | DoFinish(endpoint: Endpoint)
    | DoInform(user: User, remote: Option<Remote>)    // the remote service info changes

  ghost predicate Enabled(s: State, e: Event) {
    match e
    case DoFindOrCreate(u, id, _) => forall ep :: ep in s.created ==> ep.id != id
    case DoClear(u, t) => IsTarget(s, u, t)
    case DoFinish(ep) => ep in s.closing
    case DoInform(_, _) => true
  }

  ghost function Next(cfg: Config, s: State, e: Event): State
    requires ValidCursors(cfg, s)
  {
    match e
    case DoFindOrCreate(u, id, works) => FindOrCreate(cfg, s, u, id, works).0
    case DoClear(_, t) => Unlist(cfg, s, t)
    case DoFinish(ep) => Finish(s, ep)
    case DoInform(u, r) => s.(info := if r.Some? then s.info[u := r.value] else s.info - {u})
  }

  function Fresh(n: nat): Cursors {
    Cursors(seq(n, i => ILLEGAL_PORT), seq(n, i => ILLEGAL_PORT))
  }

  function Initial(cfg: Config): State {
    State(map[], map[], map[], map[], map[true := Fresh(|cfg.reliable|), false := Fresh(|cfg.unreliable|)],
          {}, {}, multiset{})
  }

  ghost predicate IsRun(cfg: Config, ss: seq<State>, es: seq<Event>) {
    && |ss| == |es| + 1 && ss[0] == Initial(cfg)
    && forall i :: 0 <= i < |es| ==> ValidCursors(cfg, ss[i]) && Enabled(ss[i], es[i]) && ss[i + 1] == Next(cfg, ss[i], es[i])
  }
}
