/** What the inventory says should be published, written down entry by entry, and that the pools are just that. */
module Capacity {
  import opened Text
  import opened Names
  import opened Pools

  // ---------------------------------------------------------------- reading an entry

  /** The word that is read in s: without the spaces around it, in lower case. */
  ghost predicate Reads(s: string, word: string) { exists t :: Trims(s, t) && Folds(t, word) }

  /** Statuses of a server whose GPUs are there. */
  const HEALTHY: set<string> := {"", "active", "online", "ready", "healthy"}

  /** The GPUs of a type that a server has to offer. */
  ghost function Hosted(s: Server, gpuType: string): int {
    if (exists w :: w in HEALTHY && Reads(s.status, w)) && gpuType != "" && Reads(s.gpuType, gpuType) && s.gpuCount > 0
    then s.gpuCount else 0
  }

  /** The GPUs of a type that a client holds. */
  ghost function Held(c: Client, gpuType: string): int {
    if !c.decommissioned && gpuType != "" && Reads(c.gpuType, gpuType) && c.gpuCount > 0 then c.gpuCount else 0
  }

  /** The zone goes by its display name, or by its ID if that is blank; a zone with neither has no name. */
  ghost predicate Called(z: Zone, name: string) {
    name != "" && if Trims(z.displayName, "") then Trims(z.id, name) else Trims(z.displayName, name)
  }

  ghost predicate IsLastFor(targets: seq<Target>, gpuType: string, i: int) {
    && 0 <= i < |targets| && Reads(targets[i].gpuType, gpuType)
    && forall j :: i < j < |targets| ==> !Reads(targets[j].gpuType, gpuType)
  }

  /** The last target given for a type, if one is, and if it is positive. */
  ghost predicate GivenFor(targets: seq<Target>, gpuType: string, x: real) {
    x > 0.0 && exists i :: IsLastFor(targets, gpuType, i) && targets[i].target == x
  }

  /** The target that holds for a type: the one given for it, or else the zone's default if that is positive, or else 1;
    * and 1 if targets cannot be read. */
  ghost predicate Targeted(targets: Answer<Targets>, gpuType: string, x: real) {
    if targets.Failed? then x == 1.0
    else if exists y :: GivenFor(targets.value.byType, gpuType, y) then GivenFor(targets.value.byType, gpuType, x)
    else x == if targets.value.fallback > 0.0 then targets.value.fallback else 1.0
  }

  // ---------------------------------------------------------------- what a zone offers

  ghost function HostsOf(z: Zone, gpuType: string): int {
    if z.servers.Ok? then Sum((s: Server) => Hosted(s, gpuType), z.servers.value) else 0
  }

  ghost function ClientsOf(z: Zone, gpuType: string): int {
    if z.clients.Ok? then Sum((c: Client) => Held(c, gpuType), z.clients.value) else 0
  }

  predicate IsFloor(n: int, x: real) { n as real <= x < n as real + 1.0 }

  /** The zone's hosts times its target, rounded down. */
  ghost predicate Supplies(z: Zone, gpuType: string, n: int) {
    exists x :: Targeted(z.targets, gpuType, x) && IsFloor(n, HostsOf(z, gpuType) as real * x)
  }

  predicate IsLarger(n: int, a: int, b: int) { n >= a && n >= b && (n == a || n == b) }

  /** A zone of the pool's name adds what it supplies or what its clients hold, whichever is more; any other adds
    * nothing. */
  ghost predicate Offers(z: Zone, key: PoolKey, n: int) {
    if Called(z, key.zone)
    then exists supply :: Supplies(z, key.gpuType, supply) && IsLarger(n, supply, ClientsOf(z, key.gpuType))
    else n == 0
  }

  // ---------------------------------------------------------------- and what the builder computes

  lemma ReadsExactly(s: string, word: string)
    ensures Lower(TrimSpace(s)) == word <==> Reads(s, word)
    ensures TrimSpace(Lower(s)) == word <==> Reads(s, word)
  {
    var t := TrimSpace(s);
    TrimSpaceTrims(s, t);
    LowerFolds(t, word);
    if Reads(s, word) {
      var u :| Trims(s, u) && Folds(u, word);
      TrimSpaceTrims(s, u);
    }
    LowerTrims(s, t);
  }

  lemma LowerTrims(s: string, t: string)
    requires Trims(s, t)
    ensures TrimSpace(Lower(s)) == Lower(t)
  {
    var a, b :| AllSpaces(a) && AllSpaces(b) && s == a + t + b;
    assert AllSpaces(Lower(a)) by { assert forall i :: 0 <= i < |a| ==> a[i] in a; }
    assert AllSpaces(Lower(b)) by { assert forall i :: 0 <= i < |b| ==> b[i] in b; }
    assert Lower(s) == Lower(a) + Lower(t) + Lower(b);
    TrimSpaceTrims(Lower(s), Lower(t));
  }

  lemma HostedIs(s: Server, gpuType: string)
    ensures ServerShare(gpuType)(s) == Hosted(s, gpuType)
  {
    ReadsExactly(s.gpuType, gpuType);
    forall w ensures TrimSpace(Lower(s.status)) == w <==> Reads(s.status, w) { ReadsExactly(s.status, w); }
  }

  lemma HeldIs(c: Client, gpuType: string)
    ensures ClientShare(gpuType)(c) == Held(c, gpuType)
  {
    ReadsExactly(c.gpuType, gpuType);
  }

  lemma {:induction false} SameSum<T>(f: T -> int, g: T -> int, s: seq<T>)
    requires forall x :: x in s ==> f(x) == g(x)
    ensures Sum(f, s) == Sum(g, s)
  {
    if s != [] {
      assert s[|s| - 1] in s;
      SameSum(f, g, s[..|s| - 1]);
    }
  }

  lemma SumsAre(z: Zone, gpuType: string)
    ensures HostsIn(z, gpuType) == HostsOf(z, gpuType) && ClientsIn(z, gpuType) == ClientsOf(z, gpuType)
  {
    if z.servers.Ok? {
      forall s ensures ServerShare(gpuType)(s) == Hosted(s, gpuType) { HostedIs(s, gpuType); }
      SameSum(ServerShare(gpuType), (s: Server) => Hosted(s, gpuType), z.servers.value);
    }
    if z.clients.Ok? {
      forall c ensures ClientShare(gpuType)(c) == Held(c, gpuType) { HeldIs(c, gpuType); }
      SameSum(ClientShare(gpuType), (c: Client) => Held(c, gpuType), z.clients.value);
    }
  }

  lemma NamesAre(z: Zone, name: string)
    ensures GoesBy(z, name) <==> Called(z, name)
  {
    TrimSpaceTrims(z.displayName, "");
    TrimSpaceTrims(z.displayName, name);
    TrimSpaceTrims(z.id, name);
  }

  lemma {:induction false} LastTargetIs(targets: seq<Target>, gpuType: string)
    requires gpuType != ""
    ensures TargetOf(targets, gpuType).None? ==>
              forall i :: 0 <= i < |targets| ==> NormalizeGPUType(targets[i].gpuType) != gpuType
    ensures TargetOf(targets, gpuType).Some? ==>
              exists i :: 0 <= i < |targets| && NormalizeGPUType(targets[i].gpuType) == gpuType
                && targets[i].target == TargetOf(targets, gpuType).value
                && forall j :: i < j < |targets| ==> NormalizeGPUType(targets[j].gpuType) != gpuType
  {
    if targets != [] {
      var init := targets[..|targets| - 1];
      LastTargetIs(init, gpuType);
      assert forall i :: 0 <= i < |init| ==> init[i] == targets[i];
    }
  }

  lemma LastIs(targets: seq<Target>, gpuType: string)
    requires gpuType != ""
    ensures TargetOf(targets, gpuType).None? ==> forall i :: !IsLastFor(targets, gpuType, i)
    ensures TargetOf(targets, gpuType).Some? ==>
              exists i :: IsLastFor(targets, gpuType, i) && targets[i].target == TargetOf(targets, gpuType).value
  {
    LastTargetIs(targets, gpuType);
    forall t: Target ensures NormalizeGPUType(t.gpuType) == gpuType <==> Reads(t.gpuType, gpuType) {
      ReadsExactly(t.gpuType, gpuType);
    }
    if TargetOf(targets, gpuType).Some? {
      var i :| 0 <= i < |targets| && NormalizeGPUType(targets[i].gpuType) == gpuType
            && targets[i].target == TargetOf(targets, gpuType).value
            && forall j :: i < j < |targets| ==> NormalizeGPUType(targets[j].gpuType) != gpuType;
      assert IsLastFor(targets, gpuType, i);
    }
  }

  lemma TargetsAre(targets: Answer<Targets>, gpuType: string)
    requires gpuType != "" && NormalizeGPUType(gpuType) == gpuType
    ensures Targeted(targets, gpuType, For(targets, gpuType))
  {
    if targets.Ok? {
      var list := targets.value.byType;
      LastIs(list, gpuType);
      forall i, j | IsLastFor(list, gpuType, i) && IsLastFor(list, gpuType, j) ensures i == j {
      }
      var last := TargetOf(list, gpuType);
      if last.Some? && last.value > 0.0 {
        assert GivenFor(list, gpuType, last.value);
      }
    }
  }

  lemma FloorIs(hosts: int, x: real)
    requires hosts >= 0 && x > 0.0
    ensures IsFloor(Oversubscribed(hosts, x), hosts as real * x) && Oversubscribed(hosts, x) >= 0
  {
    if hosts > 0 { assert hosts as real * x >= 0.0; }
  }

  lemma SuppliesAt(z: Zone, gpuType: string, x: real, n: int)
    requires Targeted(z.targets, gpuType, x) && IsFloor(n, HostsOf(z, gpuType) as real * x)
    ensures Supplies(z, gpuType, n)
  {
  }

  lemma HostsAreSupplied(z: Zone, gpuType: string, x: real)
    requires Targeted(z.targets, gpuType, x) && x > 0.0
    ensures Supplies(z, gpuType, Oversubscribed(HostsIn(z, gpuType), x))
  {
    SumsAre(z, gpuType);
    SharesAreNatural(z, gpuType);
    FloorIs(HostsOf(z, gpuType), x);
    SuppliesAt(z, gpuType, x, Oversubscribed(HostsOf(z, gpuType), x));
  }

  /** What a zone is taken to supply is what it supplies. */
  lemma SupplyIs(z: Zone, gpuType: string)
    ensures Supplies(z, gpuType, Oversubscribed(HostsIn(z, gpuType), For(z.targets, gpuType)))
    ensures Oversubscribed(HostsIn(z, gpuType), For(z.targets, gpuType)) >= 0
  {
    SupplyIsNatural(HostsIn(z, gpuType), For(z.targets, gpuType));
    if HostsIn(z, gpuType) > 0 {
      CountedTypesAreRead(z, gpuType);
      TargetsAre(z.targets, gpuType);
      HostsAreSupplied(z, gpuType, For(z.targets, gpuType));
    } else {
      var x := SomeTarget(z.targets, gpuType);
      HostsAreSupplied(z, gpuType, x);
    }
  }

  lemma SupplyIsNatural(hosts: int, x: real)
    ensures Oversubscribed(hosts, x) >= 0
  {
    if hosts > 0 && x > 0.0 { FloorIs(hosts, x); }
  }

  lemma OfferIs(z: Zone, key: PoolKey)
    ensures Offers(z, key, ZoneOffer(key)(z)) && ZoneOffer(key)(z) >= 0
  {
    NamesAre(z, key.zone);
    SumsAre(z, key.gpuType);
    SupplyIs(z, key.gpuType);
  }

  lemma OfferIsTargeted(z: Zone, key: PoolKey)
    requires ZoneOffer(key)(z) > 0
    ensures Targeted(z.targets, key.gpuType, For(z.targets, key.gpuType))
  {
    SharesAreNatural(z, key.gpuType);
    CountedTypesAreRead(z, key.gpuType);
    TargetsAre(z.targets, key.gpuType);
  }

  /** Nothing is counted of a type that is not written as types are read. */
  lemma CountedTypesAreRead(z: Zone, gpuType: string)
    requires HostsIn(z, gpuType) > 0 || ClientsIn(z, gpuType) > 0
    ensures gpuType != "" && NormalizeGPUType(gpuType) == gpuType
  {
    if gpuType == "" || NormalizeGPUType(gpuType) != gpuType {
      forall s: string ensures gpuType == "" || NormalizeGPUType(s) != gpuType {
        if NormalizeGPUType(s) == gpuType { ReadTwice(s); }
      }
      if z.servers.Ok? { SumIsNatural(ServerShare(gpuType), z.servers.value); }
      if z.clients.Ok? { SumIsNatural(ClientShare(gpuType), z.clients.value); }
    }
  }

  lemma ReadTwice(s: string)
    ensures NormalizeGPUType(NormalizeGPUType(s)) == NormalizeGPUType(s)
  {
    var t := TrimSpace(s);
    TrimSpaceTrims(s, t);
    assert Trims(t, t) by { assert t == "" + t + "" && AllSpaces(""); }
    LowerTrims(t, t);
    LowerTwice(t);
  }

  lemma LowerTwice(t: string)
    ensures Lower(Lower(t)) == Lower(t)
  {
  }

  lemma SomeTarget(targets: Answer<Targets>, gpuType: string) returns (x: real)
    ensures Targeted(targets, gpuType, x) && x > 0.0
  {
    if targets.Failed? {
      x := 1.0;
    } else if exists y :: GivenFor(targets.value.byType, gpuType, y) {
      x :| GivenFor(targets.value.byType, gpuType, x);
    } else {
      x := if targets.value.fallback > 0.0 then targets.value.fallback else 1.0;
    }
  }

  // ---------------------------------------------------------------- a pool, over all zones

  function Total(offers: seq<int>): int {
    if offers == [] then 0 else Total(offers[..|offers| - 1]) + offers[|offers| - 1]
  }

  /** What the clients hold in the zones of the name. */
  ghost function Committed(zones: seq<Zone>, key: PoolKey): int {
    if zones == [] then 0
    else
      var last := zones[|zones| - 1];
      Committed(zones[..|zones| - 1], key) + if Called(last, key.zone) then ClientsOf(last, key.gpuType) else 0
  }

  /** The hosts of the zones that offer anything. */
  ghost function Physical(zones: seq<Zone>, key: PoolKey, offers: seq<int>): int
    requires |offers| == |zones|
  {
    if zones == [] then 0
    else
      var n := |zones| - 1;
      Physical(zones[..n], key, offers[..n]) + if offers[n] > 0 then HostsOf(zones[n], key.gpuType) else 0
  }

  /** The target of the last zone that offers anything. */
  ghost predicate TargetIs(zones: seq<Zone>, key: PoolKey, offers: seq<int>, x: real)
    requires |offers| == |zones|
  {
    exists i :: 0 <= i < |zones| && offers[i] > 0 && Targeted(zones[i].targets, key.gpuType, x)
      && forall j :: i < j < |zones| ==> offers[j] == 0
  }

  lemma TargetMoves(zones: seq<Zone>, key: PoolKey, offers: seq<int>, x: real)
    requires zones != [] && |offers| == |zones|
    requires var n := |zones| - 1;
             if offers[n] > 0 then Targeted(zones[n].targets, key.gpuType, x)
             else offers[n] == 0 && TargetIs(zones[..n], key, offers[..n], x)
    ensures TargetIs(zones, key, offers, x)
  {
    var n := |zones| - 1;
    if offers[n] == 0 {
      var i :| 0 <= i < n && offers[..n][i] > 0 && Targeted(zones[..n][i].targets, key.gpuType, x)
            && forall j :: i < j < n ==> offers[..n][j] == 0;
      assert offers[i] > 0 && zones[i] == zones[..n][i];
      assert forall j :: i < j < n ==> offers[j] == offers[..n][j];
    }
  }

  lemma {:induction false} SumsOfOffers(zones: seq<Zone>, key: PoolKey, offers: seq<int>)
    requires |offers| == |zones| && forall i :: 0 <= i < |zones| ==> offers[i] == ZoneOffer(key)(zones[i])
    ensures Total(offers) == Sum(ZoneOffer(key), zones) && Committed(zones, key) == Sum(ZoneClients(key), zones)
    ensures Physical(zones, key, offers) == Sum(CountedHosts(key), zones)
  {
    if zones != [] {
      var n := |zones| - 1;
      SumsOfOffers(zones[..n], key, offers[..n]);
      NamesAre(zones[n], key.zone);
      SumsAre(zones[n], key.gpuType);
    }
  }

  lemma {:induction false} TargetOfOffers(zones: seq<Zone>, key: PoolKey, offers: seq<int>)
    requires |offers| == |zones| && forall i :: 0 <= i < |zones| ==> offers[i] == ZoneOffer(key)(zones[i])
    ensures Entry(zones, key).Some? ==> TargetIs(zones, key, offers, Entry(zones, key).value.oversubscription)
  {
    if zones != [] {
      var n := |zones| - 1;
      TargetOfOffers(zones[..n], key, offers[..n]);
      if Adds(zones[n], key) {
        OfferIsTargeted(zones[n], key);
      } else {
        OfferIs(zones[n], key);
      }
      if Entry(zones, key).Some? {
        TargetMoves(zones, key, offers, Entry(zones, key).value.oversubscription);
      }
    }
  }

  /** A pool is published exactly if its zones offer anything together; and then with the sum of what each offers, of
    * what its clients hold, and of the hosts of those that offer, at the target of the last of those. */
  lemma PoolIsWhatItsZonesOffer(zones: seq<Zone>, key: PoolKey) returns (offers: seq<int>)
    ensures |offers| == |zones| && forall i :: 0 <= i < |zones| ==> Offers(zones[i], key, offers[i])
    ensures Entry(zones, key).Some? <==> Total(offers) > 0
    ensures Entry(zones, key).Some? ==>
              var d := Entry(zones, key).value;
              && d.zone == key.zone && d.gpuType == key.gpuType
              && d.capacity == Total(offers) && d.clientCapacity == Committed(zones, key)
              && d.hostCapacity == Physical(zones, key, offers) && TargetIs(zones, key, offers, d.oversubscription)
  {
    offers := seq(|zones|, i requires 0 <= i < |zones| => ZoneOffer(key)(zones[i]));
    forall i | 0 <= i < |zones| ensures Offers(zones[i], key, offers[i]) { OfferIs(zones[i], key); }
    PoolsAreSums(zones, key);
    SumsOfOffers(zones, key, offers);
    TargetOfOffers(zones, key, offers);
  }

  /** The zones the builder looks at are just those that have a name, and each has one. */
  lemma NamedExactly(z: Zone)
    ensures ZoneName(z) != "" <==> exists name :: Called(z, name)
    ensures forall a, b :: Called(z, a) && Called(z, b) ==> a == b
  {
    forall name ensures GoesBy(z, name) <==> Called(z, name) { NamesAre(z, name); }
    assert ZoneName(z) != "" ==> GoesBy(z, ZoneName(z));
  }
}
