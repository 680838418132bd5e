/**
 The tables of the endpoint manager as they are kept: maps of maps, from which inner maps are
 removed when they get empty. A lookup sees the flat map of the specification.
 */
module EndpointTables {
  import opened Common
  import opened RemoteClients

  datatype Service = Service(service: Word, instance: Word, major: Byte)

  function ServiceOf(u: User): Service {
    Service(u.service, u.instance, u.major)
  }

  function UserOf(k: Service, reliable: bool): User {
    User(k.service, k.instance, k.major, reliable)
  }

  type ServiceTable = map<Service, map<bool, Endpoint>>

  type EndpointTable = map<nat, map<Word, map<bool, map<nat, Endpoint>>>>

  type PortTable = map<nat, map<Word, map<bool, set<Word>>>>

  function LookupService(m: ServiceTable, u: User): Option<Endpoint> {
    if ServiceOf(u) in m && u.reliable in m[ServiceOf(u)] then Some(m[ServiceOf(u)][u.reliable]) else None
  }

  function LookupEndpoint(m: EndpointTable, k: Key): Option<Endpoint> {
    if k.remote.address in m && k.remote.port in m[k.remote.address]
       && k.reliable in m[k.remote.address][k.remote.port]
       && k.partition in m[k.remote.address][k.remote.port][k.reliable]
    then Some(m[k.remote.address][k.remote.port][k.reliable][k.partition]) else None
  }

  function LookupPorts(m: PortTable, r: Remote, reliable: bool): set<Word> {
    if r.address in m && r.port in m[r.address] && reliable in m[r.address][r.port] then m[r.address][r.port][reliable] else {}
  }

  function Get<K, V>(m: map<K, V>, k: K): Option<V> {
    if k in m then Some(m[k]) else None
  }

  ghost predicate Serves(m: ServiceTable, services: map<User, Endpoint>) {
    && (forall u :: LookupService(m, u) == Get(services, u))
    && (forall k :: k in m ==> m[k] != map[])
  }

  ghost predicate Indexes(m: EndpointTable, index: map<Key, Endpoint>) {
    forall k :: LookupEndpoint(m, k) == Get(index, k)
  }

  ghost predicate Marks(m: PortTable, used: UsedMap) {
    forall r, reliable :: LookupPorts(m, r, reliable) == UsedPorts(used, r, reliable)
  }

  function Inner<K, K2, V>(m: map<K, map<K2, V>>, k: K): map<K2, V> {
    if k in m then m[k] else map[]
  }

  lemma InsertService(m: ServiceTable, services: map<User, Endpoint>, u: User, ep: Endpoint)
    requires Serves(m, services)
    ensures Serves(m[ServiceOf(u) := Inner(m, ServiceOf(u))[u.reliable := ep]], services[u := ep])
  {
    var m', services' := m[ServiceOf(u) := Inner(m, ServiceOf(u))[u.reliable := ep]], services[u := ep];
    forall v ensures LookupService(m', v) == Get(services', v) { assert LookupService(m, v) == Get(services, v); }
    assert u.reliable in m'[ServiceOf(u)];
  }

  /** Replaces an inner map, or removes it if it has become empty. */
  function Prune<K, K2, V>(m: map<K, map<K2, V>>, k: K, inner: map<K2, V>): map<K, map<K2, V>> {
    if inner == map[] then m - {k} else m[k := inner]
  }

  function EraseService(m: ServiceTable, u: User): ServiceTable
    requires ServiceOf(u) in m
  {
    Prune(m, ServiceOf(u), m[ServiceOf(u)] - {u.reliable})
  }

  lemma ErasedService(m: ServiceTable, services: map<User, Endpoint>, u: User)
    requires Serves(m, services) && u in services
    ensures LookupService(m, u) == Some(services[u]) && Serves(EraseService(m, u), services - {u})
  {
    assert LookupService(m, u) == Get(services, u);
    var m', services' := EraseService(m, u), services - {u};
    var rest := m[ServiceOf(u)] - {u.reliable};
    forall v ensures LookupService(m', v) == Get(services', v) {
      assert LookupService(m, v) == Get(services, v);
      if ServiceOf(v) == ServiceOf(u) && v != u && v.reliable in m[ServiceOf(u)] {
        assert v.reliable in rest;
      }
    }
  }

  function InsertEndpoint(m: EndpointTable, k: Key, ep: Endpoint): EndpointTable {
    var ports := Inner(m, k.remote.address);
    var protocols := Inner(ports, k.remote.port);
    var partitions := Inner(protocols, k.reliable);
    m[k.remote.address := ports[k.remote.port := protocols[k.reliable := partitions[k.partition := ep]]]]
  }

  lemma InsertedEndpoint(m: EndpointTable, index: map<Key, Endpoint>, k: Key, ep: Endpoint)
    requires Indexes(m, index)
    ensures Indexes(InsertEndpoint(m, k, ep), index[k := ep])
  {
    var m' := InsertEndpoint(m, k, ep);
    forall j ensures LookupEndpoint(m', j) == Get(index[k := ep], j) { assert LookupEndpoint(m, j) == Get(index, j); }
  }

  function EraseEndpoint(m: EndpointTable, k: Key): EndpointTable
    requires LookupEndpoint(m, k).Some?
  {
    var a: nat, p: Word := k.remote.address, k.remote.port;
    Prune(m, a, Prune(m[a], p, Prune(m[a][p], k.reliable, m[a][p][k.reliable] - {k.partition})))
  }

  lemma PruneInner<K, K2, V>(m: map<K, map<K2, V>>, k: K, inner: map<K2, V>, j: K)
    ensures Inner(Prune(m, k, inner), j) == if j == k then inner else Inner(m, j)
  {
  }

  lemma LookupByLevels(m: EndpointTable, k: Key)
    ensures LookupEndpoint(m, k) == Get(Inner(Inner(Inner(m, k.remote.address), k.remote.port), k.reliable), k.partition)
  {
  }

  lemma ErasedEndpoint(m: EndpointTable, index: map<Key, Endpoint>, k: Key)
    requires Indexes(m, index) && LookupEndpoint(m, k).Some?
    ensures Indexes(EraseEndpoint(m, k), index - {k})
  {
    var a: nat, p: Word := k.remote.address, k.remote.port;
    var partitions := m[a][p][k.reliable] - {k.partition};
    var protocols := Prune(m[a][p], k.reliable, partitions);
    var ports := Prune(m[a], p, protocols);
    forall j ensures LookupEndpoint(EraseEndpoint(m, k), j) == Get(index - {k}, j) {
      assert LookupEndpoint(m, j) == Get(index, j);
      LookupByLevels(m, j);
      LookupByLevels(EraseEndpoint(m, k), j);
      PruneInner(m, a, ports, j.remote.address);
      PruneInner(m[a], p, protocols, j.remote.port);
      PruneInner(m[a][p], k.reliable, partitions, j.reliable);
    }
  }

  function InsertPort(m: PortTable, r: Remote, reliable: bool, port: Word): PortTable {
    var ports := Inner(m, r.address);
    m[r.address := ports[r.port := Inner(ports, r.port)[reliable := LookupPorts(m, r, reliable) + {port}]]]
  }

  lemma InsertedPort(m: PortTable, used: UsedMap, r: Remote, reliable: bool, port: Word)
    requires Marks(m, used)
    ensures Marks(InsertPort(m, r, reliable, port), used[(r, reliable) := UsedPorts(used, r, reliable) + {port}])
  {
    var m', used' := InsertPort(m, r, reliable, port), used[(r, reliable) := UsedPorts(used, r, reliable) + {port}];
    forall q, b ensures LookupPorts(m', q, b) == UsedPorts(used', q, b) {
      assert LookupPorts(m, q, b) == UsedPorts(used, q, b);
      assert LookupPorts(m, r, reliable) == UsedPorts(used, r, reliable);
    }
  }

  function ErasePort(m: PortTable, r: Remote, reliable: bool, port: Word): PortTable {
    if r.address in m && r.port in m[r.address] && reliable in m[r.address][r.port]
    then
      var ports: map<Word, map<bool, set<Word>>> := m[r.address];
      var protocols: map<bool, set<Word>> := ports[r.port];
      var ports': map<Word, map<bool, set<Word>>> := ports[r.port := protocols[reliable := protocols[reliable] - {port}]];
      m[r.address := ports']
    else m
  }

  lemma ErasedPort(m: PortTable, used: UsedMap, r: Remote, reliable: bool, port: Word)
    requires Marks(m, used)
    ensures var k := (r, reliable);
            Marks(ErasePort(m, r, reliable, port), if k in used then used[k := used[k] - {port}] else used)
  {
    var k := (r, reliable);
    var m', used' := ErasePort(m, r, reliable, port), if k in used then used[k := used[k] - {port}] else used;
    forall q, b ensures LookupPorts(m', q, b) == UsedPorts(used', q, b) {
      assert LookupPorts(m, q, b) == UsedPorts(used, q, b);
      assert LookupPorts(m, r, reliable) == UsedPorts(used, r, reliable);
    }
  }
}
