/** The generations pools get over runs of reconciles. */
module Generations {
  import opened Wrappers
  import opened Names
  import opened Slices
  import opened Listing
  import opened Sync
  import opened Stability
  import Text

  /** A reconcile without errors: what it wanted, what it found, the generations it gave, and what it left. */
  datatype Pass = Pass(desired: Desired, store: Store, cache: Cache, generations: map<PoolKey, int>, after: Store,
                       remembered: Cache)

  ghost predicate Succeeds(cfg: Config, p: Pass) {
    && Admitted(p.store) && Sane(p.cache) && Keyed(p.after) && WellFormed(p.desired)
    && p.generations == Generations(cfg, Existing(cfg, p.store), p.cache, p.desired)
    && Synced(cfg, p.store, p.cache, p.desired, {}, p.after, p.remembered)
  }

  /** Each entry is what the last reconcile remembered, or what a listing since then read back. */
  ghost predicate Faithful(cache: Cache, pools: Pools, remembered: Cache) {
    forall k :: k in cache ==>
      Lookup(remembered, k) == Some(cache[k]) || (k in pools && ReadBack(pools[k]) == Some(cache[k]))
  }

  /** Between two passes nobody touched the operator's slices; it may have restarted. */
  ghost predicate Follows(cfg: Config, p: Pass, q: Pass) {
    Existing(cfg, q.store) == Existing(cfg, p.after) && Faithful(q.cache, Existing(cfg, p.after), p.remembered)
  }

  /** The next pass may be one of the same process or of a new one, and either may have listed the slices before
    * without getting an inventory. */
  lemma EveryProcessFollows(cfg: Config, p: Pass, q: Pass, start: Cache)
    requires Existing(cfg, q.store) == Existing(cfg, p.after)
    requires start == p.remembered || start == map[]
    requires q.cache == start || q.cache == Seeded(Existing(cfg, p.after), start)
    ensures Follows(cfg, p, q)
  {
  }

  /** The operator still remembers what it published for this pool. */
  predicate Kept(p: Pass, q: Pass, k: PoolKey) { Lookup(q.cache, k) == Lookup(p.remembered, k) }

  /** A rebuilt pool matches only if it is the same size. */
  lemma MatchingIsSameSize(cfg: Config, current: seq<Slice>, d: Definition, e: Definition, generation: int)
    requires Sorted(current) && SameSlices(current, Built(cfg, d, generation)) && d.capacity > 0 && e.capacity > 0
    requires Matches(cfg, current, e)
    ensures e.capacity == d.capacity
  {
    var built, rebuilt := Built(cfg, d, generation), Rebuilt(cfg, current[0], e);
    SortedIsDistinct(current);
    SliceNamesAreDistinct(cfg, d, generation);
    SameElements(current, built);
    DeviceCountPermuted(current, built);
    DeviceCountOfBuilt(cfg, d, generation);
    SameSpecsSameCount(current, rebuilt);
    DeviceCountOfBuilt(Config(current[0].spec.driver, DEFAULT_NAME_PREFIX, cfg.zoneLabelKey, cfg.hash), e,
                       current[0].spec.generation);
  }

  lemma DeviceCountOfBuilt(cfg: Config, d: Definition, generation: int)
    requires d.capacity > 0
    ensures DeviceCount(Built(cfg, d, generation)) == d.capacity
  {
    ShardingPartitions(cfg, d, generation);
    DeviceCountIsAll(Built(cfg, d, generation));
  }

  lemma {:induction false} SameSpecsSameCount(a: seq<Slice>, b: seq<Slice>)
    requires SameSpecs(a, b)
    ensures DeviceCount(a) == DeviceCount(b)
  {
    if a != [] {
      assert a[0].spec == b[0].spec;
      assert SameSpecs(a[1..], b[1..]);
      SameSpecsSameCount(a[1..], b[1..]);
    }
  }

  lemma SortedIsDistinct(slices: seq<Slice>)
    requires Sorted(slices)
    ensures Distinct(slices)
  {
    var names := NamesOf(slices);
    forall i, j | 0 <= i < j < |slices| ensures slices[i].name != slices[j].name {
      assert Text.Before(names[i], names[j]);
      Text.BeforeIsAsymmetric(names[i], names[j]);
    }
  }

  lemma {:induction false} SameElements(a: seq<Slice>, b: seq<Slice>)
    requires Distinct(a) && Distinct(b) && SameSlices(a, b)
    ensures multiset(a) == multiset(b)
  {
    if a == [] {
      EmptyUnlessHas(b);
    } else {
      assert a[0] in b;
      var i :| 0 <= i < |b| && b[i] == a[0];
      var rest := b[..i] + b[i + 1..];
      forall s ensures s in a[1..] <==> s in rest {
        assert s in a <==> s == a[0] || s in a[1..];
        assert b == b[..i] + [b[i]] + b[i + 1..];
        assert s in b <==> s == b[i] || s in rest;
      }
      SameElements(a[1..], rest);
      assert a == [a[0]] + a[1..] && b == b[..i] + [b[i]] + b[i + 1..];
    }
  }

  /** The next generation of a pool found just as it was published: the same for the same devices, or a later one. */
  lemma NextNeverFalls(cfg: Config, current: seq<Slice>, d: Definition, e: Definition, generation: int,
                       cached: Option<Published>)
    requires Sorted(current) && SameSlices(current, Built(cfg, d, generation)) && generation >= 1
    requires d.capacity > 0 && e.capacity > 0 && e.oversubscription > 0.0
    requires cached == Some(Published(d, generation)) || (cached.Some? && cached == ReadBack(current))
    ensures var next := NextGeneration(cfg, cached, e, current);
            next > generation || (next == generation && e.capacity == d.capacity)
  {
    FirstIsBuilt(cfg, current, d, generation);
    if Matches(cfg, current, e) {
      MatchingIsSameSize(cfg, current, d, e, generation);
    }
  }

  lemma FirstIsBuilt(cfg: Config, current: seq<Slice>, d: Definition, generation: int)
    requires SameSlices(current, Built(cfg, d, generation)) && d.capacity > 0
    ensures current != [] && current[0].spec.generation == generation
    ensures ReadBack(current).Some? ==> ReadBack(current).value.generation == generation
                                        && ReadBack(current).value.definition.oversubscription == 0.0
  {
    assert Built(cfg, d, generation)[0] in current;
    assert current[0] in current;
    BuiltIsRecognised(cfg, d, generation, current[0]);
  }

  lemma ReadsBack(cfg: Config, current: seq<Slice>, d: Definition, generation: int)
    requires Sorted(current) && SameSlices(current, Built(cfg, d, generation)) && d.capacity > 0
    ensures ReadBack(current).Some?
  {
    FirstIsBuilt(cfg, current, d, generation);
    assert current[0] in current;
    BuiltIsRecognised(cfg, d, generation, current[0]);
    SortedIsDistinct(current);
    SliceNamesAreDistinct(cfg, d, generation);
    SameElements(current, Built(cfg, d, generation));
    DeviceCountPermuted(current, Built(cfg, d, generation));
    DeviceCountOfBuilt(cfg, d, generation);
  }

  // ---------------------------------------------------------------- one pass after another

  predicate Has(p: Pass, k: PoolKey) { k in p.desired && k in p.generations }

  /** A pool's generation and size at one pass. */
  datatype Mark = Mark(generation: int, capacity: int)

  predicate NotBefore(a: Mark, b: Mark) {
    b.generation > a.generation || (b.generation == a.generation && b.capacity == a.capacity)
  }

  function MarkOf(p: Pass, k: PoolKey): Mark
    requires Has(p, k)
  {
    Mark(p.generations[k], p.desired[k].capacity)
  }

  lemma LabelledStep(cfg: Config, p: Pass, q: Pass, k: PoolKey)
    requires Succeeds(cfg, p) && Succeeds(cfg, q) && Follows(cfg, p, q)
    requires k in p.desired && k in q.desired && IsLabelled(k) && Unshared(cfg, p.desired, k)
    ensures Has(p, k) && Has(q, k) && NotBefore(MarkOf(p, k), MarkOf(q, k))
  {
    var pools, g := Existing(cfg, p.after), p.generations[k];
    var d, current := p.desired[k], Current(pools, k);
    GenerationsArePositive(cfg, p.store, p.cache, p.desired);
    FoundUnderItself(cfg, p.store, p.cache, p.desired, p.after, p.remembered, k);
    ListedAreMembers(cfg, p.after, k);
    MembersAre(cfg, p.after, k);
    FirstIsBuilt(cfg, current, d, g);
    ReadsBack(cfg, current, d, g);
    var cached := Lookup(Seeded(pools, q.cache), k);
    CachedIsKnown(pools, q.cache, p.remembered, k);
    assert Lookup(p.remembered, k) == Some(Published(d, g));
    NextNeverFalls(cfg, current, d, q.desired[k], g, cached);
  }

  lemma CachedIsKnown(pools: Pools, cache: Cache, remembered: Cache, k: PoolKey)
    requires Faithful(cache, pools, remembered) && k in pools && ReadBack(pools[k]).Some?
    ensures var cached := Lookup(Seeded(pools, cache), k);
            cached.Some? && (cached == Lookup(remembered, k) || cached == ReadBack(pools[k]))
    ensures Lookup(cache, k) == Lookup(remembered, k) != None ==>
              Lookup(Seeded(pools, cache), k) == Lookup(remembered, k)
    ensures Lookup(cache, k) != Lookup(remembered, k) ==> Lookup(Seeded(pools, cache), k) == ReadBack(pools[k])
  {
  }

  /** A pool whose name is no label is never found again, so only the cache carries its generation on; a new
    * process starts it over. */
  lemma UnlabelledStep(cfg: Config, p: Pass, q: Pass, k: PoolKey)
    requires Succeeds(cfg, p) && Succeeds(cfg, q) && Follows(cfg, p, q)
    requires k in p.desired && k in q.desired && !IsLabelled(k)
    ensures Has(p, k) && Has(q, k) && Current(Existing(cfg, q.store), k) == []
    ensures q.generations[k] == if !Kept(p, q, k) then 1
                                else if q.desired[k] == p.desired[k] then p.generations[k]
                                else p.generations[k] + 1
  {
    var pools := Existing(cfg, p.after);
    UnlabelledIsLost(cfg, p, k);
    UnlabelledCached(pools, q.cache, p.remembered, k);
    UnlabelledNext(cfg, Lookup(Seeded(pools, q.cache), k), q.desired[k]);
    assert Lookup(p.remembered, k) == Some(Published(p.desired[k], p.generations[k]));
  }

  lemma UnlabelledIsLost(cfg: Config, p: Pass, k: PoolKey)
    requires Succeeds(cfg, p) && !IsLabelled(k)
    ensures k !in Existing(cfg, p.after)
  {
    NothingUnderOtherNames(cfg, p.store, p.cache, p.desired, p.after, p.remembered, k);
    ExistingIsPartition(cfg, p.after);
  }

  lemma UnlabelledCached(pools: Pools, cache: Cache, remembered: Cache, k: PoolKey)
    requires Faithful(cache, pools, remembered) && k !in pools
    ensures Lookup(Seeded(pools, cache), k) ==
              if Lookup(cache, k) == Lookup(remembered, k) then Lookup(remembered, k) else None
  {
  }

  lemma UnlabelledNext(cfg: Config, cached: Option<Published>, e: Definition)
    ensures NextGeneration(cfg, cached, e, []) ==
              if cached.None? then 1
              else if cached.value.definition == e then cached.value.generation else cached.value.generation + 1
  {
  }

  /** Slices that match one definition are of one generation. */
  lemma MatchingIsOneGeneration(cfg: Config, current: seq<Slice>, e: Definition, s: Slice)
    requires Matches(cfg, current, e) && s in current
    ensures s.spec.generation == current[0].spec.generation
  {
    var rebuilt := Rebuilt(cfg, current[0], e);
    var i :| 0 <= i < |current| && current[i] == s;
    assert current[i].spec == rebuilt[i].spec;
    BuiltIsRecognised(Config(current[0].spec.driver, DEFAULT_NAME_PREFIX, cfg.zoneLabelKey, cfg.hash), e,
                      current[0].spec.generation, rebuilt[i]);
  }

  lemma {:induction false} CountIsPositive(slices: seq<Slice>, s: Slice)
    requires s in slices && s.spec.devices != []
    ensures DeviceCount(slices) > 0
  {
    if slices[0] != s { CountIsPositive(slices[1..], s); }
  }

  /** The generation of a pool that is found, its own slices among those found. */
  lemma FoundNext(cfg: Config, current: seq<Slice>, d: Definition, e: Definition, g: int, s: Slice,
                  cached: Option<Published>)
    requires s in current && s.spec.generation == g >= 1 && e.oversubscription > 0.0
    requires cached == Some(Published(d, g)) || (cached.Some? && cached == ReadBack(current))
    ensures var next := NextGeneration(cfg, cached, e, current);
            next < g <==> !Matches(cfg, current, e) && cached == ReadBack(current) && current[0].spec.generation + 1 < g
  {
    if Matches(cfg, current, e) { MatchingIsOneGeneration(cfg, current, e, s); }
  }

  /** After a reconcile without errors a pool whose name is a label has its slices under that name, perhaps among
    * others'. */
  lemma OwnSlicesAreFound(cfg: Config, p: Pass, k: PoolKey) returns (s: Slice)
    requires Succeeds(cfg, p) && k in p.desired && IsLabelled(k)
    ensures s in Current(Existing(cfg, p.after), k) && k in p.generations
    ensures s.spec.generation == p.generations[k] && s.spec.devices != []
  {
    var want, d := Goal(cfg, p.store, p.cache, p.desired), p.desired[k];
    FoundAsPublished(cfg, p.store, p.cache, p.desired, p.after, p.remembered, k);
    ListedAreMembers(cfg, p.after, k);
    LabelledIsFixed(cfg.hash, k);
    ShardingPartitions(cfg, d, p.generations[k]);
    s := want[k][0];
    assert s in want[k];
    BuiltIsRecognised(cfg, d, p.generations[k], s);
    assert PublishedAs(Labeller(cfg), want, k, s);
  }

  lemma LabelledFallsExactly(cfg: Config, p: Pass, q: Pass, k: PoolKey)
    requires Succeeds(cfg, p) && Succeeds(cfg, q) && Follows(cfg, p, q)
    requires k in p.desired && k in q.desired && IsLabelled(k)
    ensures Has(p, k) && Has(q, k)
    ensures var found := Current(Existing(cfg, q.store), k);
            && found != []
            && (q.generations[k] < p.generations[k] <==>
                  && !Kept(p, q, k) && !Matches(cfg, found, q.desired[k])
                  && found[0].spec.generation + 1 < p.generations[k])
  {
    var pools, g := Existing(cfg, p.after), p.generations[k];
    var found := Current(pools, k);
    GenerationsArePositive(cfg, p.store, p.cache, p.desired);
    var s := OwnSlicesAreFound(cfg, p, k);
    CountIsPositive(found, s);
    FoundIsKnown(cfg, p.after, k);
    CachedIsKnown(pools, q.cache, p.remembered, k);
    assert Lookup(p.remembered, k) == Some(Published(p.desired[k], g));
    NotReadBack(p.desired[k], g, found);
    FoundNext(cfg, found, p.desired[k], q.desired[k], g, s, Lookup(Seeded(pools, q.cache), k));
  }

  /** What is read back has no target, so it is never what was published. */
  lemma NotReadBack(d: Definition, g: int, found: seq<Slice>)
    requires d.oversubscription > 0.0
    ensures ReadBack(found) != Some(Published(d, g))
  {
  }

  /** What a listing finds under a pool's name is of that pool, so a pool with devices reads back. */
  lemma FoundIsKnown(cfg: Config, store: Store, k: PoolKey)
    requires Keyed(store) && DeviceCount(Current(Existing(cfg, store), k)) > 0
    ensures k in Existing(cfg, store) && ReadBack(Existing(cfg, store)[k]).Some?
  {
    ListedAreMembers(cfg, store, k);
    MembersAre(cfg, store, k);
    var found := Current(Existing(cfg, store), k);
    assert found[0] in Members(cfg, store, k);
  }

  /** Exactly when a generation falls, for pools of any name: never while the process remembers the pool. A new
    * process starts a pool that is not found, because its name is no label, over at 1; and one that shares its
    * name with another goes on from whichever slice is listed first, unless all match. */
  lemma GenerationFallsExactly(cfg: Config, p: Pass, q: Pass, k: PoolKey)
    requires Succeeds(cfg, p) && Succeeds(cfg, q) && Follows(cfg, p, q) && k in p.desired && k in q.desired
    ensures Has(p, k) && Has(q, k)
    ensures var found := Current(Existing(cfg, q.store), k);
            && (found == [] <==> !IsLabelled(k))
            && (q.generations[k] < p.generations[k] <==>
                  && !Kept(p, q, k)
                  && if found == [] then p.generations[k] > 1
                     else !Matches(cfg, found, q.desired[k]) && found[0].spec.generation + 1 < p.generations[k])
  {
    if IsLabelled(k) { LabelledFallsExactly(cfg, p, q, k); } else { UnlabelledStep(cfg, p, q, k); }
  }

  // ---------------------------------------------------------------- runs of passes

  ghost predicate IsPass(cfg: Config, passes: seq<Pass>, n: nat)
    requires n < |passes|
  {
    Succeeds(cfg, passes[n]) && (n > 0 ==> Follows(cfg, passes[n - 1], passes[n]))
  }

  ghost predicate Runs(cfg: Config, passes: seq<Pass>) {
    forall n {:trigger IsPass(cfg, passes, n)} :: 0 <= n < |passes| ==> IsPass(cfg, passes, n)
  }

  /** The pool is wanted by both passes; its name is a label and its alone, or else the process remembers it. */
  ghost predicate Steady(cfg: Config, passes: seq<Pass>, k: PoolKey, n: int) {
    && 0 < n < |passes| && k in passes[n - 1].desired && k in passes[n].desired
    && if IsLabelled(k) then Unshared(cfg, passes[n - 1].desired, k) else Kept(passes[n - 1], passes[n], k)
  }

  predicate Climbs(passes: seq<Pass>, k: PoolKey, n: int) {
    && 0 < n < |passes| && Has(passes[n - 1], k) && Has(passes[n], k)
    && NotBefore(MarkOf(passes[n - 1], k), MarkOf(passes[n], k))
  }

  lemma {:induction false} ClimbingIsNotBefore(passes: seq<Pass>, k: PoolKey, i: nat, j: nat)
    requires i <= j < |passes| && Has(passes[i], k)
    requires forall n {:trigger Climbs(passes, k, n)} :: i < n <= j ==> Climbs(passes, k, n)
    ensures Has(passes[j], k) && NotBefore(MarkOf(passes[i], k), MarkOf(passes[j], k))
    decreases j
  {
    if i < j {
      ClimbingIsNotBefore(passes, k, i, j - 1);
      assert Climbs(passes, k, j);
    }
  }

  lemma SteadyClimbs(cfg: Config, passes: seq<Pass>, n: nat, k: PoolKey)
    requires Runs(cfg, passes) && Steady(cfg, passes, k, n)
    ensures Climbs(passes, k, n)
  {
    assert IsPass(cfg, passes, n - 1) && IsPass(cfg, passes, n);
    SteadyStep(cfg, passes[n - 1], passes[n], k);
  }

  lemma SteadyStep(cfg: Config, p: Pass, q: Pass, k: PoolKey)
    requires Succeeds(cfg, p) && Succeeds(cfg, q) && Follows(cfg, p, q) && k in p.desired && k in q.desired
    requires if IsLabelled(k) then Unshared(cfg, p.desired, k) else Kept(p, q, k)
    ensures Has(p, k) && Has(q, k) && NotBefore(MarkOf(p, k), MarkOf(q, k))
  {
    if IsLabelled(k) { LabelledStep(cfg, p, q, k); } else { UnlabelledStep(cfg, p, q, k); }
  }

  lemma PassHas(cfg: Config, passes: seq<Pass>, n: nat, k: PoolKey)
    requires Runs(cfg, passes) && n < |passes| && k in passes[n].desired
    ensures Has(passes[n], k) && passes[n].desired[k].Key() == k
  {
    assert IsPass(cfg, passes, n);
  }

  lemma LastIsNotBefore(cfg: Config, passes: seq<Pass>, i: nat, j: nat, k: PoolKey)
    requires Runs(cfg, passes) && i <= j < |passes| && k in passes[i].desired
    requires forall n {:trigger Steady(cfg, passes, k, n)} :: i < n <= j ==> Steady(cfg, passes, k, n)
    ensures Has(passes[i], k) && Has(passes[j], k) && NotBefore(MarkOf(passes[i], k), MarkOf(passes[j], k))
  {
    PassHas(cfg, passes, i, k);
    forall n | i < n <= j ensures Climbs(passes, k, n) {
      assert Steady(cfg, passes, k, n);
      SteadyClimbs(cfg, passes, n, k);
    }
    ClimbingIsNotBefore(passes, k, i, j);
  }

  /** Over a run of reconciles without errors, starting from any slices, a pool's generation never falls while the
    * pool is wanted: through any restarts if its name is a label and its alone, and otherwise as long as the process
    * remembers it. And where the generation is the same, so is every spec published: devices, number of slices, all
    * of it. */
  lemma GenerationsNeverFall(cfg: Config, passes: seq<Pass>, i: nat, j: nat, k: PoolKey)
    requires Runs(cfg, passes) && i <= j < |passes| && k in passes[i].desired
    requires forall n {:trigger Steady(cfg, passes, k, n)} :: i < n <= j ==> Steady(cfg, passes, k, n)
    ensures var p, q := passes[i], passes[j];
            && Has(p, k) && Has(q, k) && p.generations[k] <= q.generations[k]
            && (p.generations[k] == q.generations[k] ==>
                  SameSpecs(Built(cfg, p.desired[k], p.generations[k]), Built(cfg, q.desired[k], q.generations[k])))
  {
    LastIsNotBefore(cfg, passes, i, j, k);
    PassHas(cfg, passes, i, k);
    PassHas(cfg, passes, j, k);
    if passes[i].generations[k] == passes[j].generations[k] {
      SameSizeSameSpecs(cfg, passes[i].desired[k], passes[j].desired[k], passes[j].generations[k]);
    }
  }

  lemma SameSizeSameSpecs(cfg: Config, d: Definition, e: Definition, generation: int)
    requires d.Key() == e.Key() && d.capacity == e.capacity
    ensures SameSpecs(Built(cfg, d, generation), Built(cfg, e, generation))
  {
    forall i | 0 <= i < Shards(d.capacity)
      ensures Shard(cfg, d, generation, i).spec == Shard(cfg, e, generation, i).spec
    {
      SameDevices(cfg, d, e, i * DEVICES_PER_SLICE, Min((i + 1) * DEVICES_PER_SLICE, d.capacity));
    }
  }

  lemma SameDevices(cfg: Config, d: Definition, e: Definition, first: nat, last: nat)
    requires d.Key() == e.Key() && first <= last
    ensures Devices(cfg, d, first, last) == Devices(cfg, e, first, last)
  {
    assert forall i :: first <= i < last ==> BuildDevice(cfg, d, i) == BuildDevice(cfg, e, i);
  }

  // ---------------------------------------------------------------- a zone whose name is no label

  /** One GPU in such a zone, and two. */
  const ABROAD := Definition("US-East", "h100", 1, 0, 1.0, 1)
  const TWO_ABROAD := ABROAD.(hostCapacity := 2, capacity := 2)

  lemma AbroadIsUnlabelled()
    ensures !IsLabelled(ABROAD.Key())
  {
    assert ABROAD.zone[0] == 'U' && 'U' in ABROAD.zone;
  }

  /** A pass over an inventory of one pool of one slice, which leaves just that slice. */
  function OneSlicePass(cfg: Config, store: Store, cache: Cache, d: Definition, g: int): Pass
    requires d.capacity > 0
  {
    var s := Shard(cfg, d, g, 0);
    Pass(map[d.Key() := d], store, cache, map[d.Key() := g], map[s.name := s], map[d.Key() := Published(d, g)])
  }

  lemma OneSliceSucceeds(cfg: Config, store: Store, cache: Cache, d: Definition, g: int)
    requires 0 < d.capacity <= DEVICES_PER_SLICE && d.oversubscription > 0.0 && g >= 1
    requires Admitted(store) && Sane(cache) && Foreign(cfg, store) == map[]
    requires Generations(cfg, Existing(cfg, store), cache, map[d.Key() := d]) == map[d.Key() := g]
    ensures var p := OneSlicePass(cfg, store, cache, d, g);
            Succeeds(cfg, p) && Admitted(p.after) && Sane(p.remembered) && Foreign(cfg, p.after) == map[]
  {
    var p := OneSlicePass(cfg, store, cache, d, g);
    OneSliceIsSynced(cfg, store, cache, d, g);
    SelfStabilises(cfg, store, cache, p.desired, p.after, p.remembered);
    SanityIsKept(cfg, store, cache, p.desired, {}, p.after, p.remembered);
  }

  lemma OneSliceIsSynced(cfg: Config, store: Store, cache: Cache, d: Definition, g: int)
    requires 0 < d.capacity <= DEVICES_PER_SLICE && Foreign(cfg, store) == map[]
    requires Generations(cfg, Existing(cfg, store), cache, map[d.Key() := d]) == map[d.Key() := g]
    ensures var p := OneSlicePass(cfg, store, cache, d, g);
            Synced(cfg, store, cache, p.desired, {}, p.after, p.remembered)
  {
    var p := OneSlicePass(cfg, store, cache, d, g);
    OneSliceIsWanted(cfg, d, g);
    OnlyWantedIsReconciled(Existing(cfg, store), Wanted(cfg, p.desired, p.generations), d.Key(), Shard(cfg, d, g, 0));
    OneIsRemembered(Seeded(Existing(cfg, store), cache), d, g);
    IsSynced(cfg, store, cache, p.desired, p.generations, p.after, p.remembered);
  }

  lemma OneIsRemembered(cache: Cache, d: Definition, g: int)
    ensures CacheAfter(cache, map[d.Key() := d], map[d.Key() := g], {}) == map[d.Key() := Published(d, g)]
  {
    RemembersWhatItPublished(cache, map[d.Key() := d], map[d.Key() := g]);
  }

  lemma IsSynced(cfg: Config, store: Store, cache: Cache, desired: Desired, generations: map<PoolKey, int>,
                 after: Store, remembered: Cache)
    requires generations == Generations(cfg, Existing(cfg, store), cache, desired)
    requires Reconciled(Existing(cfg, store), Wanted(cfg, desired, generations), Foreign(cfg, store), {}, after)
    requires remembered == CacheAfter(Seeded(Existing(cfg, store), cache), desired, generations, {})
    ensures Synced(cfg, store, cache, desired, {}, after, remembered)
  {
  }

  lemma OneSliceIsWanted(cfg: Config, d: Definition, g: int)
    requires 0 < d.capacity <= DEVICES_PER_SLICE
    ensures Wanted(cfg, map[d.Key() := d], map[d.Key() := g]) == map[d.Key() := [Shard(cfg, d, g, 0)]]
  {
    assert Built(cfg, d, g) == [Shard(cfg, d, g, 0)];
  }

  lemma OnlyWantedIsReconciled(pools: Pools, want: Pools, k: PoolKey, s: Slice)
    requires want == map[k := [s]]
    ensures Reconciled(pools, want, map[], {}, map[s.name := s])
  {
    assert s in want[k];
    assert From(want, want.Keys, s);
  }

  lemma GenerationOfOne(cfg: Config, pools: Pools, cache: Cache, d: Definition)
    requires d.Key() !in pools
    ensures Generations(cfg, pools, cache, map[d.Key() := d]) ==
              map[d.Key() := NextGeneration(cfg, Lookup(Seeded(pools, cache), d.Key()), d, [])]
  {
  }

  /** It does happen: a zone "US-East" gets a second GPU, and then the operator restarts. */
  lemma ARestartLowersAGeneration(cfg: Config)
    ensures var key := ABROAD.Key();
            var first := OneSlicePass(cfg, map[], map[], ABROAD, 1);
            var second := OneSlicePass(cfg, first.after, first.remembered, TWO_ABROAD, 2);
            var third := OneSlicePass(cfg, second.after, map[], TWO_ABROAD, 1);
            && Runs(cfg, [first, second, third])
            && second.generations[key] == 2 && third.generations[key] == 1
  {
    var first := OneSlicePass(cfg, map[], map[], ABROAD, 1);
    FirstSucceeds(cfg);
    var second := OneSlicePass(cfg, first.after, first.remembered, TWO_ABROAD, 2);
    SecondSucceeds(cfg, first);
    var third := OneSlicePass(cfg, second.after, map[], TWO_ABROAD, 1);
    ThirdSucceeds(cfg, second);
    ThreeRun(cfg, first, second, third);
  }

  lemma ThreeRun(cfg: Config, p: Pass, q: Pass, r: Pass)
    requires Succeeds(cfg, p) && Succeeds(cfg, q) && Succeeds(cfg, r)
    requires q.store == p.after && q.cache == p.remembered && r.store == q.after && r.cache == map[]
    ensures Runs(cfg, [p, q, r])
  {
    EveryProcessFollows(cfg, p, q, p.remembered);
    EveryProcessFollows(cfg, q, r, map[]);
    forall n | 0 <= n < 3 ensures IsPass(cfg, [p, q, r], n) {}
  }

  lemma FirstSucceeds(cfg: Config)
    ensures var p := OneSlicePass(cfg, map[], map[], ABROAD, 1);
            Succeeds(cfg, p) && Admitted(p.after) && Sane(p.remembered) && Foreign(cfg, p.after) == map[]
  {
    NothingExists(cfg);
    GenerationOfOne(cfg, map[], map[], ABROAD);
    assert Lookup(Seeded(map[], map[]), ABROAD.Key()) == None;
    UnlabelledNext(cfg, None, ABROAD);
    OneSliceSucceeds(cfg, map[], map[], ABROAD, 1);
  }

  lemma NothingExists(cfg: Config)
    ensures Existing(cfg, map[]) == map[] && Foreign(cfg, map[]) == map[]
  {
  }

  /** A first reconcile without errors, and the same inventory is not quiet the second time. */
  lemma AnUnlabelledZoneIsNotQuiet(cfg: Config)
    ensures var p := OneSlicePass(cfg, map[], map[], ABROAD, 1);
            Succeeds(cfg, p) && !Settled(Existing(cfg, p.after), Goal(cfg, p.after, p.remembered, p.desired))
  {
    var p := OneSlicePass(cfg, map[], map[], ABROAD, 1);
    FirstSucceeds(cfg);
    AbroadIsUnlabelled();
    assert ABROAD.Key() in p.desired;
    NotQuietOtherwise(cfg, p.store, p.cache, p.desired, p.after, p.remembered);
  }

  lemma NextAbroad(cfg: Config, p: Pass)
    requires p == OneSlicePass(cfg, map[], map[], ABROAD, 1) && Succeeds(cfg, p)
    ensures Generations(cfg, Existing(cfg, p.after), p.remembered, map[TWO_ABROAD.Key() := TWO_ABROAD]) ==
              map[TWO_ABROAD.Key() := 2]
  {
    AbroadIsUnlabelled();
    UnlabelledIsLost(cfg, p, ABROAD.Key());
    GenerationOfOne(cfg, Existing(cfg, p.after), p.remembered, TWO_ABROAD);
    UnlabelledCached(Existing(cfg, p.after), p.remembered, p.remembered, ABROAD.Key());
    UnlabelledNext(cfg, Some(Published(ABROAD, 1)), TWO_ABROAD);
  }

  lemma SecondSucceeds(cfg: Config, p: Pass)
    requires p == OneSlicePass(cfg, map[], map[], ABROAD, 1)
    requires Succeeds(cfg, p) && Admitted(p.after) && Sane(p.remembered) && Foreign(cfg, p.after) == map[]
    ensures var q := OneSlicePass(cfg, p.after, p.remembered, TWO_ABROAD, 2);
            Succeeds(cfg, q) && Admitted(q.after) && Sane(q.remembered) && Foreign(cfg, q.after) == map[]
  {
    NextAbroad(cfg, p);
    OneSliceSucceeds(cfg, p.after, p.remembered, TWO_ABROAD, 2);
  }

  lemma ThirdSucceeds(cfg: Config, p: Pass)
    requires p.desired == map[ABROAD.Key() := TWO_ABROAD]
    requires p.remembered == map[ABROAD.Key() := Published(TWO_ABROAD, 2)]
    requires Succeeds(cfg, p) && Admitted(p.after) && Foreign(cfg, p.after) == map[]
    ensures Succeeds(cfg, OneSlicePass(cfg, p.after, map[], TWO_ABROAD, 1))
  {
    AbroadIsUnlabelled();
    UnlabelledIsLost(cfg, p, ABROAD.Key());
    GenerationOfOne(cfg, Existing(cfg, p.after), map[], TWO_ABROAD);
    UnlabelledCached(Existing(cfg, p.after), map[], p.remembered, ABROAD.Key());
    UnlabelledNext(cfg, None, TWO_ABROAD);
    OneSliceSucceeds(cfg, p.after, map[], TWO_ABROAD, 1);
  }
}
