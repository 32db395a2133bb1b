/** What repeated reconciles amount to: what one leaves is what the next one finds. */
module Stability {
  import opened Wrappers
  import opened Names
  import opened Slices
  import opened Listing
  import opened Sync

  /** What the inventory builder promises of its result. */
  ghost predicate WellFormed(desired: Desired) {
    forall k :: k in desired ==> desired[k].Key() == k && desired[k].capacity > 0 && desired[k].oversubscription > 0.0
  }

  predicate IsLabelled(k: PoolKey) { IsLabel(k.zone) && IsLabel(k.gpuType) }

  /** Kubernetes admits no negative pool generation. */
  ghost predicate Admitted(store: Store) { Keyed(store) && forall n :: n in store ==> store[n].spec.generation >= 0 }

  /** What a process that started with an empty cache can remember: generation 0 only if read back. */
  ghost predicate Sane(cache: Cache) {
    forall k :: k in cache ==>
      cache[k].generation >= 1 || (cache[k].generation == 0 && cache[k].definition.oversubscription == 0.0)
  }

  // ---------------------------------------------------------------- generations are positive

  lemma GenerationsArePositive(cfg: Config, store: Store, cache: Cache, desired: Desired)
    requires Admitted(store) && Sane(cache) && WellFormed(desired)
    ensures Sane(Seeded(Existing(cfg, store), cache))
    ensures var generations := Generations(cfg, Existing(cfg, store), cache, desired);
            forall k :: k in desired ==> generations[k] >= 1
  {
    var pools: Pools := Existing(cfg, store);
    ExistingIsPartition(cfg, store);
    forall k: PoolKey | k in pools ensures pools[k][0].spec.generation >= 0 {
      assert pools[k][0] in pools[k];
    }
    SeededIsSane(pools, cache);
    forall k | k in desired
      ensures NextGeneration(cfg, Lookup(Seeded(pools, cache), k), desired[k], Current(pools, k)) >= 1
    {
      NextIsPositive(cfg, Seeded(pools, cache), k, desired[k], Current(pools, k));
    }
  }

  lemma SeededIsSane(pools: Pools, cache: Cache)
    requires Sane(cache) && forall k :: k in pools ==> pools[k] != [] && pools[k][0].spec.generation >= 0
    ensures Sane(Seeded(pools, cache))
  {
    forall k | k in pools && ReadBack(pools[k]).Some?
      ensures var p := ReadBack(pools[k]).value;
              p.generation >= 0 && p.definition.oversubscription == 0.0
    {
    }
  }

  lemma NextIsPositive(cfg: Config, cache: Cache, k: PoolKey, d: Definition, current: seq<Slice>)
    requires Sane(cache) && d.oversubscription > 0.0
    ensures NextGeneration(cfg, Lookup(cache, k), d, current) >= 1
  {
  }

  /** Every reconcile, failed or not, leaves slices Kubernetes admits and a sane cache. */
  lemma SanityIsKept(cfg: Config, store: Store, cache: Cache, desired: Desired, failed: set<PoolKey>, after: Store,
                     remembered: Cache)
    requires Admitted(store) && Sane(cache) && WellFormed(desired) && Keyed(after)
    requires Synced(cfg, store, cache, desired, failed, after, remembered)
    ensures Admitted(after) && Sane(remembered)
  {
    SlicesStayAdmitted(cfg, store, cache, desired, failed, after, remembered);
    GenerationsArePositive(cfg, store, cache, desired);
    CacheStaysSane(Seeded(Existing(cfg, store), cache), desired,
                   Generations(cfg, Existing(cfg, store), cache, desired), failed);
  }

  lemma CacheStaysSane(cache: Cache, desired: Desired, generations: map<PoolKey, int>, failed: set<PoolKey>)
    requires Sane(cache) && desired.Keys == generations.Keys && forall k :: k in desired ==> generations[k] >= 1
    ensures Sane(CacheAfter(cache, desired, generations, failed))
  {
  }

  lemma SlicesStayAdmitted(cfg: Config, store: Store, cache: Cache, desired: Desired, failed: set<PoolKey>,
                           after: Store, remembered: Cache)
    requires Admitted(store) && Sane(cache) && WellFormed(desired) && Keyed(after)
    requires Synced(cfg, store, cache, desired, failed, after, remembered)
    ensures Admitted(after)
  {
    var generations := Generations(cfg, Existing(cfg, store), cache, desired);
    GenerationsArePositive(cfg, store, cache, desired);
    ReconciledStaysAdmitted(cfg, store, desired, generations, failed, after);
  }

  lemma ReconciledStaysAdmitted(cfg: Config, store: Store, desired: Desired, generations: map<PoolKey, int>,
                                failed: set<PoolKey>, after: Store)
    requires Admitted(store) && Keyed(after) && desired.Keys == generations.Keys
    requires forall k :: k in desired ==> generations[k] >= 1
    requires Reconciled(Existing(cfg, store), Wanted(cfg, desired, generations), Foreign(cfg, store), failed, after)
    ensures Admitted(after)
  {
    ExistingIsPartition(cfg, store);
    LeftAreAdmitted(cfg, Existing(cfg, store), generations, desired, Foreign(cfg, store), store, failed, after);
  }

  lemma LeftAreAdmitted(cfg: Config, pools: Pools, generations: map<PoolKey, int>, desired: Desired, foreign: Store,
                        store: Store, failed: set<PoolKey>, after: Store)
    requires Partition(pools, store) && Admitted(store) && desired.Keys == generations.Keys && Keyed(after)
    requires forall m :: m in foreign ==> m in store && foreign[m] == store[m]
    requires forall k :: k in desired ==> generations[k] >= 1
    requires Reconciled(pools, Wanted(cfg, desired, generations), foreign, failed, after)
    ensures Admitted(after)
  {
    forall n | n in after ensures after[n].spec.generation >= 0 {
      LeftIsAdmitted(cfg, pools, generations, desired, foreign, store, failed, after, n);
    }
  }

  lemma LeftIsAdmitted(cfg: Config, pools: Pools, generations: map<PoolKey, int>, desired: Desired, foreign: Store,
                       store: Store, failed: set<PoolKey>, after: Store, n: string)
    requires Partition(pools, store) && Admitted(store) && desired.Keys == generations.Keys && n in after
    requires forall m :: m in foreign ==> m in store && foreign[m] == store[m]
    requires forall k :: k in desired ==> generations[k] >= 1
    requires Reconciled(pools, Wanted(cfg, desired, generations), foreign, failed, after)
    ensures after[n].spec.generation >= 0
  {
    var want := Wanted(cfg, desired, generations);
    if From(want, want.Keys, after[n]) {
      var k :| k in want && after[n] in want[k];
      BuiltIsRecognised(cfg, desired[k], generations[k], after[n]);
    } else if From(pools, failed, after[n]) {
      var k :| k in failed && k in pools && after[n] in pools[k];
      assert after[n].name in store;
    } else {
      assert n in foreign && after[n] == store[n];
    }
  }

  // ---------------------------------------------------------------- what the next listing finds

  /** Whatever the builder makes is taken for a slice of the pool with the labelled name. */
  lemma BuiltIsRecognised(cfg: Config, d: Definition, generation: int, s: Slice)
    requires s in Built(cfg, d, generation)
    ensures PoolOf(cfg, s) == Some(Labelled(cfg.hash, d.Key()))
    ensures s.spec.generation == generation && s.spec.driver == cfg.driver
  {
    var i :| 0 <= i < |Built(cfg, d, generation)| && Built(cfg, d, generation)[i] == s;
    assert s == Shard(cfg, d, generation, i);
    PoolNameIsRecognised(cfg.hash, d.Key());
  }

  lemma LabelledIsFixed(hash: Hasher, k: PoolKey)
    ensures IsLabelled(Labelled(hash, k)) && (IsLabelled(k) <==> Labelled(hash, k) == k)
  {
    DnsLabelIsLabel(hash, k.zone);
    DnsLabelIsLabel(hash, k.gpuType);
    FixedPointsAreLabels(hash, k.zone);
    FixedPointsAreLabels(hash, k.gpuType);
  }

  ghost predicate PublishedAs(labelOf: PoolKey -> PoolKey, want: Pools, k: PoolKey, s: Slice) {
    exists j :: j in want && labelOf(j) == k && s in want[j]
  }

  function Labeller(cfg: Config): PoolKey -> PoolKey { j => Labelled(cfg.hash, j) }

  lemma OnlyTheWanted(poolOf: Slice -> Option<PoolKey>, labelOf: PoolKey -> PoolKey, pools: Pools, want: Pools,
                      foreign: Store,
                      after: Store, members: seq<Slice>, k: PoolKey)
    requires Reconciled(pools, want, foreign, {}, after)
    requires forall s :: s in members <==> s.name in after && after[s.name] == s && poolOf(s) == Some(k)
    requires forall n :: n in foreign ==> poolOf(foreign[n]) == None
    requires forall j, s :: j in want && s in want[j] ==> poolOf(s) == Some(labelOf(j))
    ensures forall s :: s in members <==> PublishedAs(labelOf, want, k, s)
  {
    forall s | s in members ensures PublishedAs(labelOf, want, k, s) {
      assert !From(pools, {}, s);
      assert From(want, want.Keys, s);
    }
    forall s | PublishedAs(labelOf, want, k, s) ensures s in members {
      var j :| j in want && labelOf(j) == k && s in want[j];
      assert Holds(after, want[j]);
    }
  }

  /** After a reconcile without errors the next listing finds, under every pool name, just the slices wanted by
    * the pools labelled so. */
  lemma FoundAsPublished(cfg: Config, store: Store, cache: Cache, desired: Desired, after: Store, remembered: Cache,
                         k: PoolKey)
    requires Keyed(after) && WellFormed(desired) && Synced(cfg, store, cache, desired, {}, after, remembered)
    ensures forall s :: s in Members(cfg, after, k) <==>
              PublishedAs(Labeller(cfg), Goal(cfg, store, cache, desired), k, s)
  {
    var pools, want, foreign := Existing(cfg, store), Goal(cfg, store, cache, desired), Foreign(cfg, store);
    MembersAre(cfg, after, k);
    forall j, s | j in want && s in want[j] ensures PoolOf(cfg, s) == Some(Labelled(cfg.hash, j)) {
      BuiltIsRecognised(cfg, desired[j], Generations(cfg, pools, cache, desired)[j], s);
    }
    OnlyTheWanted(s => PoolOf(cfg, s), Labeller(cfg), pools, want, foreign, after, Members(cfg, after, k), k);
  }

  lemma PublishedUnderItself(labelOf: PoolKey -> PoolKey, want: Pools, k: PoolKey)
    requires labelOf(k) == k && forall j :: j in want && labelOf(j) == k ==> j == k
    ensures forall s :: PublishedAs(labelOf, want, k, s) <==> s in Current(want, k)
  {
  }

  lemma PublishedUnderNone(labelOf: PoolKey -> PoolKey, want: Pools, k: PoolKey)
    requires forall j :: j in want ==> labelOf(j) != k
    ensures forall s :: !PublishedAs(labelOf, want, k, s)
  {
  }

  /** No other wanted pool is published under this pool's name. */
  ghost predicate Unshared(cfg: Config, desired: Desired, k: PoolKey) {
    forall j :: j in desired && Labelled(cfg.hash, j) == k ==> j == k
  }

  /** A pool whose name is a label, and its alone, is found as it was wanted. */
  lemma FoundUnderItself(cfg: Config, store: Store, cache: Cache, desired: Desired, after: Store, remembered: Cache,
                         k: PoolKey)
    requires Keyed(after) && WellFormed(desired) && Synced(cfg, store, cache, desired, {}, after, remembered)
    requires Unshared(cfg, desired, k) && (k in desired ==> IsLabelled(k))
    ensures SameSlices(Current(Existing(cfg, after), k), Current(Goal(cfg, store, cache, desired), k))
  {
    FoundAsPublished(cfg, store, cache, desired, after, remembered, k);
    ListedAreMembers(cfg, after, k);
    LabelledIsFixed(cfg.hash, k);
    forall j | j in desired ensures Labeller(cfg)(j) == k ==> j == k {
      assert Labeller(cfg)(j) == Labelled(cfg.hash, j);
    }
    if Labeller(cfg)(k) == k {
      PublishedUnderItself(Labeller(cfg), Goal(cfg, store, cache, desired), k);
    } else {
      PublishedUnderNone(Labeller(cfg), Goal(cfg, store, cache, desired), k);
    }
  }

  lemma LabelledAreUnshared(cfg: Config, desired: Desired, k: PoolKey)
    requires forall j :: j in desired ==> IsLabelled(j)
    ensures Unshared(cfg, desired, k)
  {
    forall j | j in desired && Labelled(cfg.hash, j) == k ensures j == k {
      LabelledIsFixed(cfg.hash, j);
    }
  }

  ghost predicate IsWanted(want: Pools, s: Slice) { exists k :: k in want && s in want[k] }

  /** Self-stabilisation. Whatever slices were there, stale, partial or of mixed generations, and whatever the
    * cache said: a reconcile without errors leaves as slices of recognised pools exactly the ones wanted, leaves
    * all other slices alone, and remembers just what it published. */
  lemma SelfStabilises(cfg: Config, store: Store, cache: Cache, desired: Desired, after: Store, remembered: Cache)
    requires Keyed(store) && Keyed(after) && WellFormed(desired)
    requires Synced(cfg, store, cache, desired, {}, after, remembered)
    ensures Foreign(cfg, after) == Foreign(cfg, store)
    ensures forall n :: n in after && n !in Foreign(cfg, after) ==> IsWanted(Goal(cfg, store, cache, desired), after[n])
    ensures forall s :: IsWanted(Goal(cfg, store, cache, desired), s) ==>
              s.name in after && after[s.name] == s && PoolOf(cfg, s).Some?
    ensures OthersKept(cfg, store, after)
    ensures forall n :: n in after ==> (Own(cfg, after[n]) <==> IsWanted(Goal(cfg, store, cache, desired), after[n]))
    ensures remembered == map k | k in desired ::
              Published(desired[k], Generations(cfg, Existing(cfg, store), cache, desired)[k])
  {
    WantedIsRecognised(cfg, store, cache, desired);
    LeftApart(s => PoolOf(cfg, s), Existing(cfg, store), Goal(cfg, store, cache, desired), Foreign(cfg, store), after);
    SameForeign(cfg, Foreign(cfg, store), after);
    ReconciledKeepsOthers(cfg, store, Goal(cfg, store, cache, desired), {}, after);
    forall n | n in after
      ensures Own(cfg, after[n]) <==> IsWanted(Goal(cfg, store, cache, desired), after[n])
    {
      OwnExactly(cfg, after[n]);
    }
    RemembersWhatItPublished(Seeded(Existing(cfg, store), cache), desired,
                             Generations(cfg, Existing(cfg, store), cache, desired));
  }

  /** Two pools of different zones that want one slice name cannot both be brought to their slices: every reconcile is
    * in error on one of them. */
  lemma AClashIsAnError(cfg: Config, store: Store, cache: Cache, desired: Desired, failed: set<PoolKey>, after: Store,
                        remembered: Cache, k: PoolKey, l: PoolKey, i: nat, j: nat)
    requires WellFormed(desired) && Synced(cfg, store, cache, desired, failed, after, remembered)
    requires k in desired && l in desired && k.zone != l.zone
    requires i < Shards(desired[k].capacity) && j < Shards(desired[l].capacity)
    requires SliceName(cfg.hash, cfg.prefix, k.zone, k.gpuType, i)
          == SliceName(cfg.hash, cfg.prefix, l.zone, l.gpuType, j)
    ensures k in failed || l in failed
  {
    var generations := Generations(cfg, Existing(cfg, store), cache, desired);
    var s, t := Shard(cfg, desired[k], generations[k], i), Shard(cfg, desired[l], generations[l], j);
    assert s == Built(cfg, desired[k], generations[k])[i] && t == Built(cfg, desired[l], generations[l])[j];
    NoNameForTwo(Existing(cfg, store), Goal(cfg, store, cache, desired), Foreign(cfg, store), failed, after, k, l, s,
                 t);
  }

  lemma NoNameForTwo(pools: Pools, want: Pools, foreign: Store, failed: set<PoolKey>, after: Store, k: PoolKey,
                     l: PoolKey, s: Slice, t: Slice)
    requires Reconciled(pools, want, foreign, failed, after)
    requires k in want && l in want && s in want[k] && t in want[l] && s.name == t.name && s != t
    ensures k in failed || l in failed
  {
  }

  lemma LeftApart(poolOf: Slice -> Option<PoolKey>, pools: Pools, want: Pools, foreign: Store, after: Store)
    requires Reconciled(pools, want, foreign, {}, after)
    requires forall n :: n in foreign ==> poolOf(foreign[n]).None?
    requires forall s :: IsWanted(want, s) ==> poolOf(s).Some?
    ensures forall n :: n in after && poolOf(after[n]).Some? ==> IsWanted(want, after[n])
    ensures forall n :: n in after && poolOf(after[n]).None? ==> n in foreign && after[n] == foreign[n]
    ensures forall n :: n in foreign ==> n in after && after[n] == foreign[n]
    ensures forall s :: IsWanted(want, s) ==> s.name in after && after[s.name] == s
  {
    forall n | n in after && !(n in foreign && after[n] == foreign[n]) ensures IsWanted(want, after[n]) {
      LeftIsWanted(pools, want, foreign, after, n);
    }
    forall s | IsWanted(want, s) ensures s.name in after && after[s.name] == s {
      var k :| k in want && s in want[k];
      assert Holds(after, want[k]);
    }
  }

  lemma SameForeign(cfg: Config, foreign: Store, after: Store)
    requires forall n :: n in foreign ==> n in after && after[n] == foreign[n] && PoolOf(cfg, foreign[n]).None?
    requires forall n :: n in after && PoolOf(cfg, after[n]).None? ==> n in foreign
    ensures Foreign(cfg, after) == foreign
  {
  }

  lemma RemembersWhatItPublished(cache: Cache, desired: Desired, generations: map<PoolKey, int>)
    requires desired.Keys == generations.Keys
    ensures CacheAfter(cache, desired, generations, {}) == map k | k in desired :: Published(desired[k], generations[k])
  {
  }

  lemma WantedIsRecognised(cfg: Config, store: Store, cache: Cache, desired: Desired)
    ensures forall s :: IsWanted(Goal(cfg, store, cache, desired), s) ==> PoolOf(cfg, s).Some?
  {
    var want := Goal(cfg, store, cache, desired);
    forall s | IsWanted(want, s) ensures PoolOf(cfg, s).Some? {
      var k :| k in want && s in want[k];
      BuiltIsRecognised(cfg, desired[k], Generations(cfg, Existing(cfg, store), cache, desired)[k], s);
    }
  }

  lemma LeftIsWanted(pools: Pools, want: Pools, foreign: Store, after: Store, n: string)
    requires Reconciled(pools, want, foreign, {}, after) && n in after && !(n in foreign && after[n] == foreign[n])
    ensures IsWanted(want, after[n])
  {
    assert !From(pools, {}, after[n]);
    assert From(want, want.Keys, after[n]);
  }

  /** Under a name that is no label nothing is found, whatever was wanted. */
  lemma NothingUnderOtherNames(cfg: Config, store: Store, cache: Cache, desired: Desired, after: Store,
                               remembered: Cache, k: PoolKey)
    requires Keyed(after) && WellFormed(desired) && Synced(cfg, store, cache, desired, {}, after, remembered)
    requires !IsLabelled(k)
    ensures Current(Existing(cfg, after), k) == []
  {
    FoundAsPublished(cfg, store, cache, desired, after, remembered, k);
    ListedAreMembers(cfg, after, k);
    forall j | j in desired ensures Labeller(cfg)(j) != k {
      LabelledIsFixed(cfg.hash, j);
    }
    PublishedUnderNone(Labeller(cfg), Goal(cfg, store, cache, desired), k);
    EmptyUnlessHas(Members(cfg, after, k));
  }

  lemma EmptyUnlessHas(slices: seq<Slice>)
    ensures slices == [] || exists s :: s in slices
  {
    if slices != [] { assert slices[0] in slices; }
  }

  lemma ListedAreMembers(cfg: Config, store: Store, k: PoolKey)
    requires Keyed(store)
    ensures Current(Existing(cfg, store), k) == Members(cfg, store, k)
  {
    MembersAre(cfg, store, k);
    EmptyUnlessHas(Members(cfg, store, k));
  }

  // ---------------------------------------------------------------- a second reconcile

  /** The generation the next reconcile gives a pool that was just published as wanted. */
  lemma GenerationAgain(cfg: Config, current: seq<Slice>, d: Definition, generation: int, cached: Option<Published>)
    requires SameSlices(current, Built(cfg, d, generation)) && d.capacity > 0 && generation >= 1
    requires cached == Some(Published(d, generation))
    ensures NextGeneration(cfg, cached, d, current) == generation
  {
    if current != [] {
      assert current[0] in current;
      BuiltIsRecognised(cfg, d, generation, current[0]);
    }
  }

  /** No-op: when a reconcile without errors is followed by one with the same inventory, the second makes no call
    * that changes anything, and keeps every generation, exactly if every pool's zone and type are labels.
    * Pools of any size: where the name order of more than ten slices is not their shard order, the cache decides. */
  lemma SecondSyncIsQuiet(cfg: Config, store: Store, cache: Cache, desired: Desired, after: Store, remembered: Cache)
    requires Admitted(store) && Sane(cache) && Keyed(after) && WellFormed(desired)
    requires Synced(cfg, store, cache, desired, {}, after, remembered)
    ensures Settled(Existing(cfg, after), Goal(cfg, after, remembered, desired)) <==>
              forall k :: k in desired ==> IsLabelled(k)
    ensures (forall k :: k in desired ==> IsLabelled(k)) ==>
              Goal(cfg, after, remembered, desired) == Goal(cfg, store, cache, desired)
  {
    if forall k :: k in desired ==> IsLabelled(k) {
      QuietWhenLabelled(cfg, store, cache, desired, after, remembered);
    } else {
      NotQuietOtherwise(cfg, store, cache, desired, after, remembered);
    }
  }

  lemma NotQuietOtherwise(cfg: Config, store: Store, cache: Cache, desired: Desired, after: Store, remembered: Cache)
    requires Keyed(after) && WellFormed(desired) && Synced(cfg, store, cache, desired, {}, after, remembered)
    requires exists k :: k in desired && !IsLabelled(k)
    ensures !Settled(Existing(cfg, after), Goal(cfg, after, remembered, desired))
  {
    var k :| k in desired && !IsLabelled(k);
    NothingUnderOtherNames(cfg, store, cache, desired, after, remembered, k);
    NothingFound(Existing(cfg, after), Goal(cfg, after, remembered, desired), k);
  }

  lemma NothingFound(pools: Pools, want: Pools, k: PoolKey)
    requires k in want && want[k] != [] && Current(pools, k) == []
    ensures !Settled(pools, want)
  {
    assert want[k][0] in Current(want, k);
    assert k in pools.Keys + want.Keys;
  }

  lemma QuietWhenLabelled(cfg: Config, store: Store, cache: Cache, desired: Desired, after: Store, remembered: Cache)
    requires Admitted(store) && Sane(cache) && Keyed(after) && WellFormed(desired)
    requires Synced(cfg, store, cache, desired, {}, after, remembered)
    requires forall k :: k in desired ==> IsLabelled(k)
    ensures Settled(Existing(cfg, after), Goal(cfg, after, remembered, desired))
    ensures Goal(cfg, after, remembered, desired) == Goal(cfg, store, cache, desired)
  {
    var want, again := Goal(cfg, store, cache, desired), Goal(cfg, after, remembered, desired);
    forall k | k in desired ensures again[k] == want[k] {
      SameGoal(cfg, store, cache, desired, after, remembered, k);
    }
    SamePools(again, want);
    var pools := Existing(cfg, after);
    forall k | k in pools.Keys + want.Keys ensures SameSlices(Current(pools, k), Current(want, k)) {
      LabelledAreUnshared(cfg, desired, k);
      FoundUnderItself(cfg, store, cache, desired, after, remembered, k);
    }
  }

  lemma SamePools(a: Pools, b: Pools)
    requires a.Keys == b.Keys && forall k :: k in a ==> a[k] == b[k]
    ensures a == b
  {
  }

  lemma SameGoal(cfg: Config, store: Store, cache: Cache, desired: Desired, after: Store, remembered: Cache, k: PoolKey)
    requires Admitted(store) && Sane(cache) && Keyed(after) && WellFormed(desired)
    requires Synced(cfg, store, cache, desired, {}, after, remembered)
    requires k in desired && forall j :: j in desired ==> IsLabelled(j)
    ensures Goal(cfg, after, remembered, desired)[k] == Goal(cfg, store, cache, desired)[k]
  {
    var generations := Generations(cfg, Existing(cfg, store), cache, desired);
    GenerationsArePositive(cfg, store, cache, desired);
    LabelledAreUnshared(cfg, desired, k);
    FoundUnderItself(cfg, store, cache, desired, after, remembered, k);
    assert Lookup(Seeded(Existing(cfg, after), remembered), k) == Some(Published(desired[k], generations[k]));
    GenerationAgain(cfg, Current(Existing(cfg, after), k), desired[k], generations[k],
                    Lookup(Seeded(Existing(cfg, after), remembered), k));
  }
}
