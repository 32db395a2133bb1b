/** From the Thunder inventory to the pools wanted: what each zone offers of each GPU type, summed by zone name. */
module Pools {
  import opened Sequences
  import opened Text
  import opened Wrappers
  import opened Names
  import opened Slices
  import opened Sync
  import opened Stability

  datatype Answer<T> = Failed | Ok(value: T)

  datatype Server = Server(status: string, gpuType: string, gpuCount: int)
  datatype Client = Client(gpuType: string, gpuCount: int, decommissioned: bool)
  datatype Target = Target(gpuType: string, target: real)
  datatype Targets = Targets(byType: seq<Target>, fallback: real)

  /** A listed zone, and what the calls about it answer. */
  datatype Zone = Zone(id: string, displayName: string, servers: Answer<seq<Server>>, clients: Answer<seq<Client>>,
                       targets: Answer<Targets>)

  // ---------------------------------------------------------------- sums

  function Sum<T>(f: T -> int, s: seq<T>): int { if s == [] then 0 else Sum(f, s[..|s| - 1]) + f(s[|s| - 1]) }

  lemma {:induction false} SumConcat<T>(f: T -> int, a: seq<T>, b: seq<T>)
    ensures Sum(f, a + b) == Sum(f, a) + Sum(f, b)
    decreases |b|
  {
    if b == [] {
      assert a + b == a;
    } else {
      assert (a + b)[..|a + b| - 1] == a + b[..|b| - 1];
      SumConcat(f, a, b[..|b| - 1]);
    }
  }

  /** A sum does not depend on the order. */
  lemma {:induction false} SumPermuted<T>(f: T -> int, a: seq<T>, b: seq<T>)
    requires multiset(a) == multiset(b)
    ensures Sum(f, a) == Sum(f, b)
    decreases |a|
  {
    if a == [] {
      SameLength(a, b);
    } else {
      var i := Locate(a, b);
      WithoutOne(a, b, i);
      SumPermuted(f, a[1..], b[..i] + b[i + 1..]);
      assert a == [a[0]] + a[1..];
      SumConcat(f, [a[0]], a[1..]);
      SumConcat(f, b[..i], [a[0]] + b[i + 1..]);
      SumConcat(f, [a[0]], b[i + 1..]);
      SumConcat(f, b[..i], b[i + 1..]);
    }
  }

  lemma {:induction false} SumsCompare<T>(f: T -> int, g: T -> int, s: seq<T>)
    requires forall x :: x in s ==> f(x) <= g(x)
    ensures Sum(f, s) <= Sum(g, s)
    ensures Sum(f, s) == Sum(g, s) <==> forall x :: x in s ==> f(x) == g(x)
  {
    if s != [] {
      var init, last := s[..|s| - 1], s[|s| - 1];
      SumsCompare(f, g, init);
      assert last in s && s == init + [last];
    }
  }

  // ---------------------------------------------------------------- counting GPUs

  function NormalizeGPUType(gpuType: string): string { Lower(TrimSpace(gpuType)) }

  predicate NodeHealthy(status: string) {
    var s := TrimSpace(Lower(status));
    s == "" || s == "active" || s == "online" || s == "ready" || s == "healthy"
  }

  /** How many GPUs of a type an entry adds: none without a type, or for a count that is not positive. */
  function Share(gpuType: string, count: int, wanted: string): nat {
    if wanted == "" || NormalizeGPUType(gpuType) != wanted || count <= 0 then 0 else count
  }

  function ServerShare(wanted: string): Server -> int {
    (s: Server) => if NodeHealthy(s.status) then Share(s.gpuType, s.gpuCount, wanted) else 0
  }

  function ClientShare(wanted: string): Client -> int {
    (c: Client) => if c.decommissioned then 0 else Share(c.gpuType, c.gpuCount, wanted)
  }

  function Count(counts: map<string, int>, gpuType: string): int { if gpuType in counts then counts[gpuType] else 0 }

  method AddGPUCount(counts: map<string, int>, gpuType: string, count: int) returns (r: map<string, int>)
    ensures forall g :: Count(r, g) == Count(counts, g) + Share(gpuType, count, g)
    ensures forall g :: g in r <==> g in counts || Share(gpuType, count, g) > 0
  {
    var normalized := NormalizeGPUType(gpuType);
    if normalized == "" || count <= 0 {
      return counts;
    }
    r := counts[normalized := Count(counts, normalized) + count];
  }

  method CountServers(servers: seq<Server>) returns (counts: map<string, int>)
    ensures forall g :: Count(counts, g) == Sum(ServerShare(g), servers)
    ensures forall g :: g !in counts ==> Sum(ServerShare(g), servers) == 0
  {
    counts := map[];
    for i := 0 to |servers|
      invariant forall g :: Count(counts, g) == Sum(ServerShare(g), servers[..i])
    {
      assert servers[..i + 1][..i] == servers[..i];
      if NodeHealthy(servers[i].status) {
        counts := AddGPUCount(counts, servers[i].gpuType, servers[i].gpuCount);
      }
    }
    assert servers[..|servers|] == servers;
  }

  /** A decommissioned client is a revoked enrollment, not demand. */
  method CountClients(clients: seq<Client>) returns (counts: map<string, int>)
    ensures forall g :: Count(counts, g) == Sum(ClientShare(g), clients)
    ensures forall g :: g !in counts ==> Sum(ClientShare(g), clients) == 0
  {
    counts := map[];
    for i := 0 to |clients|
      invariant forall g :: Count(counts, g) == Sum(ClientShare(g), clients[..i])
    {
      assert clients[..i + 1][..i] == clients[..i];
      if !clients[i].decommissioned {
        counts := AddGPUCount(counts, clients[i].gpuType, clients[i].gpuCount);
      }
    }
    assert clients[..|clients|] == clients;
  }

  // ---------------------------------------------------------------- oversubscription

  /** The last target given for a type, if any. */
  function TargetOf(byType: seq<Target>, gpuType: string): Option<real> {
    if byType == [] then None
    else
      var last := byType[|byType| - 1];
      if NormalizeGPUType(last.gpuType) == gpuType != "" then Some(last.target)
      else TargetOf(byType[..|byType| - 1], gpuType)
  }

  /** A target that is not positive is none: then the zone's default, then 1. */
  function For(targets: Answer<Targets>, gpuType: string): (target: real)
    ensures target > 0.0
  {
    if targets.Failed? then 1.0
    else
      var specific := TargetOf(targets.value.byType, NormalizeGPUType(gpuType));
      if specific.Some? && specific.value > 0.0 then specific.value
      else if targets.value.fallback > 0.0 then targets.value.fallback
      else 1.0
  }

  method ZoneOversubscription(targets: Answer<Targets>) returns (byType: map<string, real>, fallback: real)
    ensures forall g :: targets.Ok? ==> Lookup(byType, g) == TargetOf(targets.value.byType, g)
    ensures targets.Ok? ==> fallback == targets.value.fallback
    ensures targets.Failed? ==> byType == map[] && fallback == 1.0
  {
    byType, fallback := map[], 1.0;
    if targets.Failed? {
      return;
    }
    fallback := targets.value.fallback;
    var list := targets.value.byType;
    for i := 0 to |list|
      invariant forall g :: Lookup(byType, g) == TargetOf(list[..i], g)
    {
      assert list[..i + 1][..i] == list[..i];
      var gpuType := NormalizeGPUType(list[i].gpuType);
      if gpuType != "" {
        byType := byType[gpuType := list[i].target];
      }
    }
    assert list[..|list|] == list;
  }

  method TargetFor(byType: map<string, real>, fallback: real, gpuType: string, ghost targets: Answer<Targets>)
      returns (target: real)
    requires forall g :: targets.Ok? ==> Lookup(byType, g) == TargetOf(targets.value.byType, g)
    requires targets.Ok? ==> fallback == targets.value.fallback
    requires targets.Failed? ==> byType == map[] && fallback == 1.0
    ensures target == For(targets, gpuType)
  {
    var normalized := NormalizeGPUType(gpuType);
    if normalized in byType && byType[normalized] > 0.0 {
      return byType[normalized];
    }
    return if fallback > 0.0 then fallback else 1.0;
  }

  /** Rounded down, so a target is never exceeded. */
  function Oversubscribed(hostCapacity: int, target: real): int {
    if hostCapacity <= 0 || target <= 0.0 then 0 else (hostCapacity as real * target).Floor
  }

  // ---------------------------------------------------------------- one zone

  function ZoneName(z: Zone): string {
    var name := TrimSpace(z.displayName);
    if name == "" then TrimSpace(z.id) else name
  }

  predicate Answered(z: Zone) { z.servers.Ok? && z.clients.Ok? }

  function HostsIn(z: Zone, gpuType: string): int {
    if z.servers.Ok? then Sum(ServerShare(gpuType), z.servers.value) else 0
  }

  function ClientsIn(z: Zone, gpuType: string): int {
    if z.clients.Ok? then Sum(ClientShare(gpuType), z.clients.value) else 0
  }

  /** What a zone offers of a type: its hosts, oversubscribed, and never less than its clients hold. */
  function Offer(z: Zone, gpuType: string): int {
    var hosts := Oversubscribed(HostsIn(z, gpuType), For(z.targets, gpuType));
    if ClientsIn(z, gpuType) > hosts then ClientsIn(z, gpuType) else hosts
  }

  /** The zone goes by the pool's zone name. */
  predicate GoesBy(z: Zone, zone: string) { zone != "" && ZoneName(z) == zone }

  predicate Adds(z: Zone, key: PoolKey) { GoesBy(z, key.zone) && Offer(z, key.gpuType) > 0 }

  function Grown(e: Option<Definition>, z: Zone, key: PoolKey): Definition {
    var d := if e.Some? then e.value else Definition("", "", 0, 0, 0.0, 0);
    Definition(key.zone, key.gpuType, d.hostCapacity + HostsIn(z, key.gpuType),
               d.clientCapacity + ClientsIn(z, key.gpuType), For(z.targets, key.gpuType),
               d.capacity + Offer(z, key.gpuType))
  }

  /** A pool's definition, zone after zone. */
  function Entry(zones: seq<Zone>, key: PoolKey): Option<Definition> {
    if zones == [] then None
    else
      var before, last := Entry(zones[..|zones| - 1], key), zones[|zones| - 1];
      if Adds(last, key) then Some(Grown(before, last, key)) else before
  }

  method BuildDesiredPools(zones: Answer<seq<Zone>>) returns (desired: Option<Desired>)
    ensures desired.None? <==> zones.Failed? || exists z :: z in zones.value && ZoneName(z) != "" && !Answered(z)
    ensures desired.Some? ==> forall key :: Lookup(desired.value, key) == Entry(zones.value, key)
  {
    if zones.Failed? {
      return None;
    }
    var list := zones.value;
    var pools: Desired := map[];
    for i := 0 to |list|
      invariant forall z :: z in list[..i] && ZoneName(z) != "" ==> Answered(z)
      invariant forall key :: Lookup(pools, key) == Entry(list[..i], key)
    {
      var z := list[i];
      assert list[..i + 1][..i] == list[..i] && list[..i + 1] == list[..i] + [z];
      if ZoneName(z) != "" {
        if z.servers.Failed? || z.clients.Failed? {
          assert z in list;
          return None;
        }
        pools := AddZone(pools, z);
      }
    }
    assert list[..|list|] == list;
    return Some(pools);
  }

  method AddZone(pools: Desired, z: Zone) returns (r: Desired)
    requires Answered(z) && ZoneName(z) != ""
    ensures forall key :: Lookup(r, key) ==
              if Adds(z, key) then Some(Grown(Lookup(pools, key), z, key)) else Lookup(pools, key)
  {
    var hostCounts := CountServers(z.servers.value);
    var clientCounts := CountClients(z.clients.value);
    var byType, fallback := ZoneOversubscription(z.targets);
    var left := hostCounts.Keys + clientCounts.Keys;
    forall key: PoolKey | key.gpuType !in left ensures !Adds(z, key) {
      assert HostsIn(z, key.gpuType) == 0 && ClientsIn(z, key.gpuType) == 0;
    }
    r := pools;
    while left != {}
      invariant forall key :: Lookup(r, key) ==
                  if Adds(z, key) && key.gpuType !in left then Some(Grown(Lookup(pools, key), z, key))
                  else Lookup(pools, key)
      decreases |left|
    {
      var gpuType :| gpuType in left;
      var target := TargetFor(byType, fallback, gpuType, z.targets);
      r := AddType(r, z, gpuType, Count(hostCounts, gpuType), Count(clientCounts, gpuType), target);
      left := left - {gpuType};
    }
  }

  method AddType(pools: Desired, z: Zone, gpuType: string, hosts: int, clients: int, target: real) returns (r: Desired)
    requires ZoneName(z) != ""
    requires hosts == HostsIn(z, gpuType) && clients == ClientsIn(z, gpuType) && target == For(z.targets, gpuType)
    ensures forall key :: Lookup(r, key) ==
              if Adds(z, key) && key.gpuType == gpuType then Some(Grown(Lookup(pools, key), z, key))
              else Lookup(pools, key)
  {
    var capacity := Oversubscribed(hosts, target);
    if clients > capacity {
      capacity := clients;
    }
    if capacity <= 0 {
      return pools;
    }
    var key := PoolKey(ZoneName(z), gpuType);
    var d := if key in pools then pools[key] else Definition("", "", 0, 0, 0.0, 0);
    r := pools[key := Definition(key.zone, gpuType, d.hostCapacity + hosts, d.clientCapacity + clients, target,
                                 d.capacity + capacity)];
  }

  // ---------------------------------------------------------------- conservation

  function ZoneClients(key: PoolKey): Zone -> int {
    (z: Zone) => if GoesBy(z, key.zone) then ClientsIn(z, key.gpuType) else 0
  }

  function ZoneHosts(key: PoolKey): Zone -> int {
    (z: Zone) => if GoesBy(z, key.zone) then HostsIn(z, key.gpuType) else 0
  }

  /** The hosts of a zone that offers anything. */
  function CountedHosts(key: PoolKey): Zone -> int {
    (z: Zone) => if Adds(z, key) then HostsIn(z, key.gpuType) else 0
  }

  function ZoneOffer(key: PoolKey): Zone -> int {
    (z: Zone) => if GoesBy(z, key.zone) then Offer(z, key.gpuType) else 0
  }

  lemma {:induction false} SumIsNatural<T>(f: T -> int, s: seq<T>)
    requires forall x :: x in s ==> f(x) >= 0
    ensures Sum(f, s) >= 0
    ensures Sum(f, s) == 0 <==> forall x :: x in s ==> f(x) == 0
  {
    if s != [] {
      var init, last := s[..|s| - 1], s[|s| - 1];
      SumIsNatural(f, init);
      assert last in s && s == init + [last];
    }
  }

  lemma SharesAreNatural(z: Zone, gpuType: string)
    ensures HostsIn(z, gpuType) >= 0 && ClientsIn(z, gpuType) >= 0 && Offer(z, gpuType) >= ClientsIn(z, gpuType)
  {
    if z.servers.Ok? { SumIsNatural(ServerShare(gpuType), z.servers.value); }
    if z.clients.Ok? { SumIsNatural(ClientShare(gpuType), z.clients.value); }
  }

  /** Conservation: a pool exists exactly if its zones offer something together; its client count is that of all
    * its zones, its capacity all they offer, its host count that of the zones that offer anything. */
  lemma {:induction false} PoolsAreSums(zones: seq<Zone>, key: PoolKey)
    ensures Entry(zones, key).Some? <==> Sum(ZoneOffer(key), zones) > 0
    ensures Sum(ZoneOffer(key), zones) >= Sum(ZoneClients(key), zones) >= 0
    ensures Entry(zones, key).None? ==> Sum(CountedHosts(key), zones) == 0
    ensures Entry(zones, key).Some? ==>
              var d := Entry(zones, key).value;
              && d.Key() == key && d.oversubscription > 0.0
              && d.clientCapacity == Sum(ZoneClients(key), zones)
              && d.hostCapacity == Sum(CountedHosts(key), zones)
              && d.capacity == Sum(ZoneOffer(key), zones)
  {
    if zones != [] {
      var init, last := zones[..|zones| - 1], zones[|zones| - 1];
      PoolsAreSums(init, key);
      SharesAreNatural(last, key.gpuType);
    }
  }

  /** So what the builder returns is fit to be published: every pool under its own key, with something to offer,
    * no less than its clients hold, and a positive target. */
  lemma DesiredIsWellFormed(zones: seq<Zone>, desired: Desired)
    requires forall key :: Lookup(desired, key) == Entry(zones, key)
    ensures WellFormed(desired) && forall key :: key in desired ==> desired[key].capacity >= desired[key].clientCapacity
  {
    forall key | key in desired
      ensures var d := desired[key];
              d.Key() == key && d.capacity > 0 && d.oversubscription > 0.0 && d.capacity >= d.clientCapacity
    {
      assert Lookup(desired, key) == Entry(zones, key);
      PoolsAreSums(zones, key);
    }
  }

  /** Hosts are all counted exactly if no zone of the name has hosts and offers nothing. */
  lemma HostsAreConserved(zones: seq<Zone>, key: PoolKey)
    requires Entry(zones, key).Some?
    ensures Entry(zones, key).value.hostCapacity <= Sum(ZoneHosts(key), zones)
    ensures Entry(zones, key).value.hostCapacity == Sum(ZoneHosts(key), zones) <==>
              forall z :: z in zones && GoesBy(z, key.zone) && HostsIn(z, key.gpuType) > 0 ==> Adds(z, key)
  {
    PoolsAreSums(zones, key);
    forall z | z in zones ensures CountedHosts(key)(z) <= ZoneHosts(key)(z)
      && (CountedHosts(key)(z) == ZoneHosts(key)(z) <==>
          (GoesBy(z, key.zone) && HostsIn(z, key.gpuType) > 0 ==> Adds(z, key)))
    {
      SharesAreNatural(z, key.gpuType);
    }
    SumsCompare(CountedHosts(key), ZoneHosts(key), zones);
  }

  // ---------------------------------------------------------------- order

  /** The same zone, its servers and clients listed in another order. */
  predicate Relisted(z: Zone, y: Zone) {
    && z.id == y.id && z.displayName == y.displayName && z.targets == y.targets && Answered(z) && Answered(y)
    && multiset(z.servers.value) == multiset(y.servers.value) && multiset(z.clients.value) == multiset(y.clients.value)
  }

  /** In what order servers and clients are listed makes no difference at all. */
  lemma {:induction false} ListingOrderIsIrrelevant(a: seq<Zone>, b: seq<Zone>, key: PoolKey)
    requires |a| == |b| && forall i :: 0 <= i < |a| ==> Relisted(a[i], b[i])
    ensures Entry(a, key) == Entry(b, key)
  {
    if a != [] {
      var n := |a| - 1;
      ListingOrderIsIrrelevant(a[..n], b[..n], key);
      assert Relisted(a[n], b[n]);
      RelistedAddsTheSame(a[n], b[n], key);
      SameGrowth(a[n], b[n], Entry(a[..n], key), key);
    }
  }

  lemma RelistedAddsTheSame(z: Zone, y: Zone, key: PoolKey)
    requires Relisted(z, y)
    ensures HostsIn(z, key.gpuType) == HostsIn(y, key.gpuType) && ClientsIn(z, key.gpuType) == ClientsIn(y, key.gpuType)
  {
    SumPermuted(ServerShare(key.gpuType), z.servers.value, y.servers.value);
    SumPermuted(ClientShare(key.gpuType), z.clients.value, y.clients.value);
  }

  lemma SameGrowth(z: Zone, y: Zone, e: Option<Definition>, key: PoolKey)
    requires Relisted(z, y)
    requires HostsIn(z, key.gpuType) == HostsIn(y, key.gpuType)
              && ClientsIn(z, key.gpuType) == ClientsIn(y, key.gpuType)
    ensures Adds(z, key) == Adds(y, key) && Grown(e, z, key) == Grown(e, y, key)
  {
  }

  /** In what order zones are listed changes a pool in its target only. */
  lemma ZoneOrderMovesOnlyTheTarget(a: seq<Zone>, b: seq<Zone>, key: PoolKey)
    requires multiset(a) == multiset(b)
    ensures Entry(a, key).Some? == Entry(b, key).Some?
    ensures Entry(a, key).Some? ==>
              Entry(a, key).value == Entry(b, key).value.(oversubscription := Entry(a, key).value.oversubscription)
  {
    PoolsAreSums(a, key);
    PoolsAreSums(b, key);
    SumPermuted(ZoneOffer(key), a, b);
    SumPermuted(ZoneClients(key), a, b);
    SumPermuted(CountedHosts(key), a, b);
  }

  /** The target is that of one of the zones that add to the pool. */
  lemma {:induction false} TargetIsAZones(zones: seq<Zone>, key: PoolKey)
    requires Entry(zones, key).Some?
    ensures exists z :: z in zones && Adds(z, key)
              && Entry(zones, key).value.oversubscription == For(z.targets, key.gpuType)
  {
    var init, last := zones[..|zones| - 1], zones[|zones| - 1];
    if Adds(last, key) {
      assert last in zones;
    } else {
      TargetIsAZones(init, key);
      var z :| z in init && Adds(z, key) && Entry(init, key).value.oversubscription == For(z.targets, key.gpuType);
      assert z in zones;
    }
  }

  /** The zones that add to the pool agree on the target. */
  predicate Agree(zones: seq<Zone>, key: PoolKey) {
    forall y, z :: y in zones && z in zones && Adds(y, key) && Adds(z, key) ==>
      For(y.targets, key.gpuType) == For(z.targets, key.gpuType)
  }

  /** The order of the zones is irrelevant altogether exactly if the zones that add to the pool agree on the
    * target. */
  lemma ZoneOrderIsIrrelevantIfTheyAgree(zones: seq<Zone>, key: PoolKey)
    ensures Agree(zones, key) <==> forall other :: multiset(other) == multiset(zones) ==>
              Entry(other, key) == Entry(zones, key)
  {
    if Agree(zones, key) {
      forall other | multiset(other) == multiset(zones) ensures Entry(other, key) == Entry(zones, key) {
        AgreeingOrders(zones, other, key);
      }
    } else {
      var y, z :| y in zones && z in zones && Adds(y, key) && Adds(z, key)
                  && For(y.targets, key.gpuType) != For(z.targets, key.gpuType);
      var a := MovedLast(zones, y, key);
      var b := MovedLast(zones, z, key);
      assert Entry(a, key) != Entry(b, key);
    }
  }

  lemma AgreeingOrders(a: seq<Zone>, b: seq<Zone>, key: PoolKey)
    requires multiset(a) == multiset(b) && Agree(a, key)
    ensures Entry(a, key) == Entry(b, key)
  {
    ZoneOrderMovesOnlyTheTarget(a, b, key);
    if Entry(a, key).Some? {
      TargetIsAZones(a, key);
      TargetIsAZones(b, key);
      assert forall z :: z in b ==> z in multiset(a);
    }
  }

  lemma MovedLast(zones: seq<Zone>, z: Zone, key: PoolKey) returns (other: seq<Zone>)
    requires z in zones && Adds(z, key)
    ensures multiset(other) == multiset(zones)
    ensures Entry(other, key).Some? && Entry(other, key).value.oversubscription == For(z.targets, key.gpuType)
  {
    var i :| 0 <= i < |zones| && zones[i] == z;
    other := zones[..i] + zones[i + 1..] + [z];
    assert zones == zones[..i] + [z] + zones[i + 1..];
  }

  // ---------------------------------------------------------------- both happen

  const TYPE: string := "h"

  /** A zone of this name with so many healthy hosts of one type, and this target. */
  function HostZone(name: string, hosts: int, target: real): Zone {
    Zone("", name, Ok([Server("", TYPE, hosts)]), Ok([]), Ok(Targets([], target)))
  }

  lemma HostZoneOffers(name: string, hosts: int, target: real)
    requires TrimSpace(name) == name && name != "" && hosts > 0 && target > 0.0
    ensures var z := HostZone(name, hosts, target);
            && GoesBy(z, name) && HostsIn(z, TYPE) == hosts && For(z.targets, TYPE) == target
            && Offer(z, TYPE) == (hosts as real * target).Floor
  {
    var z := HostZone(name, hosts, target);
    assert NormalizeGPUType(TYPE) == TYPE && NodeHealthy("");
    assert z.servers.value[..0] == [];
    assert Sum(ServerShare(TYPE), z.servers.value) == hosts;
    assert (hosts as real * target).Floor >= 0;
  }

  /** Two zones of one name that disagree on the target make a pool that depends on their order. */
  lemma DisagreeingZonesShow(name: string)
    requires TrimSpace(name) == name && name != ""
    ensures var y, z, key := HostZone(name, 1, 1.0), HostZone(name, 1, 2.0), PoolKey(name, TYPE);
            && multiset([y, z]) == multiset([z, y])
            && Entry([y, z], key) == Some(Definition(name, TYPE, 2, 0, 2.0, 3))
            && Entry([z, y], key) == Some(Definition(name, TYPE, 2, 0, 1.0, 3))
  {
    var y, z, key := HostZone(name, 1, 1.0), HostZone(name, 1, 2.0), PoolKey(name, TYPE);
    HostZoneOffers(name, 1, 1.0);
    HostZoneOffers(name, 1, 2.0);
    EntryOfTwo(y, z, key);
    EntryOfTwo(z, y, key);
  }

  lemma EntryOfTwo(y: Zone, z: Zone, key: PoolKey)
    ensures var first := if Adds(y, key) then Some(Grown(None, y, key)) else None;
            Entry([y, z], key) == if Adds(z, key) then Some(Grown(first, z, key)) else first
    ensures Sum(ZoneHosts(key), [y, z]) == ZoneHosts(key)(y) + ZoneHosts(key)(z)
  {
    assert [y, z][..1] == [y] && [y][..0] == [];
    assert Entry([y], key) == if Adds(y, key) then Some(Grown(None, y, key)) else None;
    assert Sum(ZoneHosts(key), [y]) == ZoneHosts(key)(y);
  }

  /** A zone whose one host rounds down to no offer is missing from the pool's two zones' three hosts. */
  lemma UncountedHostsShow(name: string)
    requires TrimSpace(name) == name && name != ""
    ensures var y, z, key := HostZone(name, 1, 0.5), HostZone(name, 2, 1.0), PoolKey(name, TYPE);
            && Entry([y, z], key) == Some(Definition(name, TYPE, 2, 0, 1.0, 2))
            && Sum(ZoneHosts(key), [y, z]) == 3
  {
    var y, z, key := HostZone(name, 1, 0.5), HostZone(name, 2, 1.0), PoolKey(name, TYPE);
    HostZoneOffers(name, 1, 0.5);
    HostZoneOffers(name, 2, 1.0);
    EntryOfTwo(y, z, key);
  }
}
