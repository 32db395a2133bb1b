/** One reconcile of the published ResourceSlices: list, drop the pools no longer wanted, and bring every
  * wanted pool to what the slice builder makes of it. Any API call may fail, with or without its effect. */
module Sync {
  import opened Wrappers
  import opened Names
  import opened Slices
  import opened Listing

  datatype Published = Published(definition: Definition, generation: int)
  type Cache = map<PoolKey, Published>
  type Desired = map<PoolKey, Definition>

  const DEFAULT_NAME_PREFIX: string := "thunder"

  function Lookup<K, V>(m: map<K, V>, k: K): Option<V> { if k in m then Some(m[k]) else None }

  function Current(pools: Pools, key: PoolKey): seq<Slice> { if key in pools then pools[key] else [] }

  // ---------------------------------------------------------------- generations

  /** What a pool found in the cluster is remembered as, if it has any device. */
  function ReadBack(pool: seq<Slice>): Option<Published> {
    var d := DefinitionOf(pool);
    if d.capacity > 0 then Some(Published(d, pool[0].spec.generation)) else None
  }

  function FillIn<K, P, V>(found: map<K, P>, known: map<K, V>, read: P -> Option<V>): map<K, V> {
    known + map k | k in found && k !in known && read(found[k]).Some? :: read(found[k]).value
  }

  /** The cache once pools it does not know have been read back from the cluster. */
  function Seeded(pools: Pools, cache: Cache): Cache { FillIn(pools, cache, ReadBack) }

  /** What the slices would be, for comparing specs only: their names are made with the default prefix. */
  function Rebuilt(cfg: Config, first: Slice, d: Definition): seq<Slice> {
    Built(Config(first.spec.driver, DEFAULT_NAME_PREFIX, cfg.zoneLabelKey, cfg.hash), d, first.spec.generation)
  }

  predicate SameSpecs(a: seq<Slice>, b: seq<Slice>) {
    |a| == |b| && forall i :: 0 <= i < |a| ==> a[i].spec == b[i].spec
  }

  predicate Matches(cfg: Config, current: seq<Slice>, d: Definition) {
    current != [] && SameSpecs(current, Rebuilt(cfg, current[0], d))
  }

  function NextGeneration(cfg: Config, cached: Option<Published>, d: Definition, current: seq<Slice>): int {
    if Matches(cfg, current, d) then if current[0].spec.generation > 0 then current[0].spec.generation else 1
    else if cached.Some? then
      if cached.value.definition == d then cached.value.generation else cached.value.generation + 1
    else if current == [] || current[0].spec.generation <= 0 then 1
    else current[0].spec.generation + 1
  }

  function Generations(cfg: Config, pools: Pools, cache: Cache, desired: Desired): map<PoolKey, int> {
    map k | k in desired :: NextGeneration(cfg, Lookup(Seeded(pools, cache), k), desired[k], Current(pools, k))
  }

  /** The slices every wanted pool is to have. */
  function Wanted(cfg: Config, desired: Desired, generations: map<PoolKey, int>): Pools
    requires desired.Keys <= generations.Keys
  {
    map k | k in desired :: Built(cfg, desired[k], generations[k])
  }

  predicate IsPlan(cfg: Config, current: seq<Slice>, cached: Option<Published>, d: Definition, generation: int,
                   wanted: seq<Slice>)
  {
    generation == NextGeneration(cfg, cached, d, current) && wanted == Built(cfg, d, generation)
  }

  ghost predicate Planned(cfg: Config, pools: Pools, seeded: Cache, desired: Desired, generations: map<PoolKey, int>,
                          want: Pools)
    requires desired.Keys == generations.Keys == want.Keys
  {
    forall k {:trigger IsPlan(cfg, Current(pools, k), Lookup(seeded, k), desired[k], generations[k], want[k])} ::
      k in desired ==> IsPlan(cfg, Current(pools, k), Lookup(seeded, k), desired[k], generations[k], want[k])
  }

  // ---------------------------------------------------------------- applying one pool

  predicate Distinct(slices: seq<Slice>) { forall i, j :: 0 <= i < j < |slices| ==> slices[i].name != slices[j].name }

  predicate Named(n: string, slices: seq<Slice>) { exists s :: s in slices && s.name == n }

  predicate Holds(store: Store, slices: seq<Slice>) {
    forall s :: s in slices ==> s.name in store && store[s.name] == s
  }

  predicate SameSlices(a: seq<Slice>, b: seq<Slice>) {
    (forall s :: s in a ==> s in b) && (forall s :: s in b ==> s in a)
  }

  /** Only names in `slices` may have changed. */
  predicate Spares(slices: seq<Slice>, before: Store, after: Store) {
    forall n :: n in before && !Named(n, slices) ==> n in after && after[n] == before[n]
  }

  /** Whatever is there was there, or is one of `slices`. */
  predicate AddsOnly(slices: seq<Slice>, before: Store, after: Store) {
    forall n :: n in after ==> (n in before && after[n] == before[n]) || after[n] in slices
  }

  /** Each of `slices` took a name the pool already had, or one nobody had. */
  predicate TakesOnly(slices: seq<Slice>, current: seq<Slice>, before: Store) {
    forall s :: s in slices ==> Named(s.name, current) || s.name !in before
  }

  predicate Applied(current: seq<Slice>, wanted: seq<Slice>, before: Store, after: Store, ok: bool) {
    && Spares(current, before, after) && AddsOnly(wanted, before, after)
    && (ok ==> Holds(after, wanted) && TakesOnly(wanted, current, before))
    && (ok ==> forall n :: n in after && Named(n, current) ==> Named(n, wanted))
  }

  // ---------------------------------------------------------------- a whole reconcile

  /** Where a slice in the cluster may come from. */
  ghost predicate From(pools: Pools, keys: set<PoolKey>, s: Slice) {
    exists k :: k in keys && k in pools && s in pools[k]
  }

  /** A reconcile under way: `todo` are the pools not yet visited, `good` the ones visited without an error. */
  ghost predicate Progress(pools: Pools, want: Pools, foreign: Store, todo: set<PoolKey>, good: set<PoolKey>,
                           store: Store) {
    && todo !! good
    && (forall n :: n in foreign ==> n in store && store[n] == foreign[n])
    && (forall k :: k in todo ==> Holds(store, Current(pools, k)))
    && (forall k :: k in good ==> Holds(store, Current(want, k)))
    && (forall k, l, s :: k in good && l in todo && s in Current(want, k) ==> !Named(s.name, Current(pools, l)))
    && (forall n :: n in store ==>
          || (n in foreign && store[n] == foreign[n])
          || From(pools, pools.Keys - good, store[n])
          || From(want, want.Keys - todo, store[n]))
  }

  /** The wanted pools being brought to their slices: `left` are still to come. */
  ghost predicate Applying(pools: Pools, desired: Desired, seeded: Cache, generations: map<PoolKey, int>, want: Pools,
                           foreign: Store, gone: set<PoolKey>, left: set<PoolKey>, failed: set<PoolKey>,
                           good: set<PoolKey>, store: Store, cache: Cache)
    requires desired.Keys == generations.Keys
  {
    && left <= desired.Keys && failed <= desired.Keys && left !! failed
    && (forall k :: k in good <==> k in gone || (k in desired && k !in failed && k !in left))
    && Keyed(store) && Progress(pools, want, foreign, left, good, store)
    && (forall k :: k in desired ==>
          Lookup(cache, k) == if k in failed || k in left then Lookup(seeded, k)
                              else Some(Published(desired[k], generations[k])))
  }

  /** What a reconcile leaves: the slices of others as they were; every pool that did not fail has exactly the
    * slices wanted; the rest is left from failed pools, or wanted by them. */
  ghost predicate Reconciled(pools: Pools, want: Pools, foreign: Store, failed: set<PoolKey>, store: Store) {
    && (forall n :: n in foreign ==> n in store && store[n] == foreign[n])
    && (forall k :: k in want && k !in failed ==> Holds(store, want[k]))
    && (forall n :: n in store ==>
          || (n in foreign && store[n] == foreign[n])
          || From(pools, failed, store[n])
          || From(want, want.Keys, store[n]))
  }

  /** A slice that is not the operator's own is still there, as it was. */
  ghost predicate OthersKept(cfg: Config, before: Store, after: Store) {
    forall n :: n in before && !Own(cfg, before[n]) ==> n in after && after[n] == before[n]
  }

  /** Every slice that is the operator's own is one of these. */
  ghost predicate OnlyWanted(cfg: Config, after: Store, want: Pools) {
    forall n :: n in after && Own(cfg, after[n]) ==> From(want, want.Keys, after[n])
  }

  lemma ReconciledKeepsOthers(cfg: Config, store: Store, want: Pools, failed: set<PoolKey>, after: Store)
    requires Reconciled(Existing(cfg, store), want, Foreign(cfg, store), failed, after)
    ensures OthersKept(cfg, store, after)
  {
    forall n | n in store && !Own(cfg, store[n]) ensures n in after && after[n] == store[n] {
      OwnExactly(cfg, store[n]);
      assert n in Foreign(cfg, store);
    }
  }

  lemma ReconciledIsOnlyWanted(cfg: Config, store: Store, want: Pools, after: Store)
    requires Reconciled(Existing(cfg, store), want, Foreign(cfg, store), {}, after)
    ensures OnlyWanted(cfg, after, want)
  {
    forall n | n in after && Own(cfg, after[n]) ensures From(want, want.Keys, after[n]) {
      OwnExactly(cfg, after[n]);
      assert !From(Existing(cfg, store), {}, after[n]);
    }
  }

  /** Nothing to do: every pool already has the slices wanted, and there is no other pool. */
  ghost predicate Settled(pools: Pools, want: Pools) {
    forall k :: k in pools.Keys + want.Keys ==> SameSlices(Current(pools, k), Current(want, k))
  }

  function CacheAfter(cache: Cache, desired: Desired, generations: map<PoolKey, int>, failed: set<PoolKey>): Cache
    requires desired.Keys <= generations.Keys
  {
    map k | k in desired && (k !in failed || k in cache) ::
      if k !in failed then Published(desired[k], generations[k]) else cache[k]
  }

  /** What a reconcile aims for, given what it finds. */
  ghost function Goal(cfg: Config, store: Store, cache: Cache, desired: Desired): Pools {
    Wanted(cfg, desired, Generations(cfg, Existing(cfg, store), cache, desired))
  }

  /** A reconcile that reached the end, with these pools in error. */
  ghost predicate Synced(cfg: Config, store: Store, cache: Cache, desired: Desired, failed: set<PoolKey>,
                         after: Store, remembered: Cache)
  {
    var pools := Existing(cfg, store);
    && Reconciled(pools, Goal(cfg, store, cache, desired), Foreign(cfg, store), failed, after)
    && failed <= pools.Keys + desired.Keys
    && remembered == CacheAfter(Seeded(pools, cache), desired, Generations(cfg, pools, cache, desired), failed)
  }

  /** The names of different pools, and of the slices of others, differ. */
  ghost predicate Apart(pools: Pools, foreign: Store) {
    && (forall k, l, s :: k in pools && l in pools && s in pools[k] && Named(s.name, pools[l]) ==> k == l)
    && (forall k, s :: k in pools && s in pools[k] ==> s.name !in foreign)
  }

  lemma StepKeepsProgress(pools: Pools, want: Pools, foreign: Store, todo: set<PoolKey>, good: set<PoolKey>,
                          k: PoolKey, before: Store, after: Store, ok: bool)
    requires Progress(pools, want, foreign, todo, good, before) && Apart(pools, foreign) && k in todo
    requires Keyed(before) && Keyed(after)
    requires Applied(Current(pools, k), Current(want, k), before, after, ok)
    ensures Progress(pools, want, foreign, todo - {k}, if ok then good + {k} else good, after)
  {
    var current, rest := Current(pools, k), todo - {k};
    forall n | n in foreign ensures n in after && after[n] == foreign[n] {
      assert !Named(n, current);
    }
    forall l | l in rest ensures Holds(after, Current(pools, l)) {
      OthersHeld(pools, foreign, k, l, before, after);
    }
    forall l | l in good ensures Holds(after, Current(want, l)) {
      GoodKept(current, Current(want, l), before, after);
    }
    if ok {
      forall l, s | l in rest && s in Current(want, k) ensures !Named(s.name, Current(pools, l)) {
        TakenIsFree(pools, foreign, k, l, s, before);
      }
    }
    forall n | n in after
      ensures || (n in foreign && after[n] == foreign[n])
              || From(pools, pools.Keys - (if ok then good + {k} else good), after[n])
              || From(want, want.Keys - rest, after[n])
    {
      AfterwardsFrom(pools, want, foreign, todo, good, k, before, after, ok, n);
    }
  }

  lemma PoolsAreApart(pools: Pools, foreign: Store, store: Store)
    requires Partition(pools, store)
    requires forall n :: n in foreign ==> n in store && !From(pools, pools.Keys, store[n])
    ensures Apart(pools, foreign)
  {
    forall k, s | k in pools && s in pools[k] ensures s.name !in foreign {
      assert From(pools, pools.Keys, store[s.name]);
    }
  }

  lemma Begin(pools: Pools, want: Pools, foreign: Store, store: Store)
    requires Partition(pools, store)
    requires forall n :: n in foreign ==> n in store && store[n] == foreign[n]
    requires forall n :: n in store && n !in foreign ==> From(pools, pools.Keys, store[n])
    ensures Progress(pools, want, foreign, pools.Keys + want.Keys, {}, store)
  {
    assert pools.Keys - {} == pools.Keys;
  }

  lemma SettledIs(pools: Pools, want: Pools)
    requires forall k :: k in pools ==> pools[k] != []
    ensures Settled(pools, want) <==>
              && (forall k :: k in pools ==> k in want)
              && (forall k :: k in want ==> SameSlices(Current(pools, k), want[k]))
  {
    forall k | k in pools && k !in want ensures !SameSlices(Current(pools, k), Current(want, k)) {
      assert pools[k][0] in pools[k];
    }
  }

  lemma End(pools: Pools, want: Pools, foreign: Store, failed: set<PoolKey>, good: set<PoolKey>, store: Store)
    requires Progress(pools, want, foreign, {}, good, store)
    requires forall k :: k in good <==> (k in pools || k in want) && k !in failed
    ensures Reconciled(pools, want, foreign, failed, store)
  {
    forall k | k in want && k !in failed ensures Holds(store, want[k]) {
      assert k in good;
    }
    forall n | n in store && From(pools, pools.Keys - good, store[n]) ensures From(pools, failed, store[n]) {
      var k :| k in pools.Keys - good && store[n] in pools[k];
      assert k in failed;
    }
    assert want.Keys - {} == want.Keys;
  }

  lemma BeginSync(cfg: Config, store: Store, want: Pools)
    requires Keyed(store)
    ensures var pools := Existing(cfg, store);
            && Apart(pools, Foreign(cfg, store)) && (forall k :: k in pools ==> pools[k] != [])
            && Progress(pools, want, Foreign(cfg, store), pools.Keys + want.Keys, {}, store)
  {
    ExistingIsPartition(cfg, store);
    PoolsAreApart(Existing(cfg, store), Foreign(cfg, store), store);
    Begin(Existing(cfg, store), want, Foreign(cfg, store), store);
  }

  lemma Pruned(cache: Cache, seeded: Cache, desired: Desired, generations: map<PoolKey, int>,
               failed: set<PoolKey>, stale: set<PoolKey>)
    requires desired.Keys == generations.Keys && cache.Keys <= desired.Keys
    requires forall k :: k in desired ==>
               Lookup(cache, k) == if k in failed then Lookup(seeded, k)
                                   else Some(Published(desired[k], generations[k]))
    requires stale !! desired.Keys
    ensures cache == CacheAfter(seeded, desired, generations, stale + failed)
  {
    var after := CacheAfter(seeded, desired, generations, stale + failed);
    forall k ensures Lookup(cache, k) == Lookup(after, k) {
      if k in desired { assert k in stale + failed <==> k in failed; }
    }
    assert forall k :: k in cache <==> Lookup(cache, k).Some?;
    assert forall k :: k in after <==> Lookup(after, k).Some?;
    forall k | k in cache ensures cache[k] == after[k] {
      assert Lookup(cache, k) == Lookup(after, k);
    }
  }

  lemma OthersHeld(pools: Pools, foreign: Store, k: PoolKey, l: PoolKey, before: Store, after: Store)
    requires Apart(pools, foreign) && k != l && Holds(before, Current(pools, l))
    requires Spares(Current(pools, k), before, after)
    ensures Holds(after, Current(pools, l))
  {
    forall s | s in Current(pools, l) ensures s.name in after && after[s.name] == s {
      if Named(s.name, Current(pools, k)) { assert false; }
    }
  }

  lemma GoodKept(current: seq<Slice>, wanted: seq<Slice>, before: Store, after: Store)
    requires Spares(current, before, after) && Holds(before, wanted)
    requires forall s :: s in wanted ==> !Named(s.name, current)
    ensures Holds(after, wanted)
  {
  }

  /** A name the pool already had, or nobody had, is no name of another pool still to come. */
  lemma TakenIsFree(pools: Pools, foreign: Store, k: PoolKey, l: PoolKey, s: Slice, before: Store)
    requires Apart(pools, foreign) && k != l && Holds(before, Current(pools, l))
    requires Named(s.name, Current(pools, k)) || s.name !in before
    ensures !Named(s.name, Current(pools, l))
  {
    if Named(s.name, Current(pools, k)) {
      var t :| t in Current(pools, k) && t.name == s.name;
      assert t in pools[k];
    }
  }

  lemma AfterwardsFrom(pools: Pools, want: Pools, foreign: Store, todo: set<PoolKey>, good: set<PoolKey>,
                       k: PoolKey, before: Store, after: Store, ok: bool, n: string)
    requires Progress(pools, want, foreign, todo, good, before) && Apart(pools, foreign) && k in todo
    requires Keyed(before) && Keyed(after)
    requires Applied(Current(pools, k), Current(want, k), before, after, ok)
    requires n in after
    ensures || (n in foreign && after[n] == foreign[n])
            || From(pools, pools.Keys - (if ok then good + {k} else good), after[n])
            || From(want, want.Keys - (todo - {k}), after[n])
  {
    var current, wanted := Current(pools, k), Current(want, k);
    if after[n] in wanted {
      assert From(want, want.Keys - (todo - {k}), after[n]);
    } else {
      assert n in before && after[n] == before[n];
      if From(pools, pools.Keys - good, after[n]) {
        var l :| l in pools.Keys - good && after[n] in pools[l];
        if l != k || !ok {
          assert From(pools, pools.Keys - (if ok then good + {k} else good), after[n]);
        }
      } else if From(want, want.Keys - todo, after[n]) {
        var l :| l in want.Keys - todo && after[n] in want[l];
        assert From(want, want.Keys - (todo - {k}), after[n]);
      }
    }
  }

  // ---------------------------------------------------------------- the operator

  datatype Outcome = NotListed | NoInventory | Done(failed: set<PoolKey>)

  class Operator {
    const cfg: Config
    var cache: Cache
    /** The cluster's slices, how many calls to change them were made, and how many calls ended in an error. */
    var slices: Store
    var writes: nat
    ghost var errors: nat

    constructor (cfg: Config, slices: Store)
      ensures this.cfg == cfg && this.slices == slices && cache == map[] && writes == 0 && errors == 0
    {
      this.cfg, this.slices, cache, writes, errors := cfg, slices, map[], 0, 0;
    }

    // -------------------------------------------------------------- calls to the API server

    /** A name that is taken is refused; any other call may fail before or after taking effect. */
    method Create(s: Slice) returns (ok: bool)
      modifies `slices, `writes, `errors
      ensures writes == old(writes) + 1
      ensures slices == old(slices) || (s.name !in old(slices) && slices == old(slices)[s.name := s])
      ensures ok ==> s.name !in old(slices) && slices == old(slices)[s.name := s]
      ensures errors == old(errors) + if ok then 0 else 1
    {
      writes := writes + 1;
      var lands := *;
      if s.name in slices || !lands {
        errors := errors + 1;
        return false;
      }
      slices := slices[s.name := s];
      ok := *;
      if !ok {
        errors := errors + 1;
      }
    }

    method Update(s: Slice) returns (ok: bool)
      modifies `slices, `writes, `errors
      ensures writes == old(writes) + 1
      ensures slices == old(slices) || (s.name in old(slices) && slices == old(slices)[s.name := s])
      ensures ok ==> s.name in old(slices) && slices == old(slices)[s.name := s]
      ensures errors == old(errors) + if ok then 0 else 1
    {
      writes := writes + 1;
      var lands := *;
      if s.name !in slices || !lands {
        errors := errors + 1;
        return false;
      }
      slices := slices[s.name := s];
      ok := *;
      if !ok {
        errors := errors + 1;
      }
    }

    /** A slice already gone counts as deleted. */
    method DeleteSlice(name: string) returns (ok: bool)
      modifies `slices, `writes, `errors
      ensures writes == old(writes) + 1
      ensures slices == old(slices) || slices == old(slices) - {name}
      ensures ok ==> slices == old(slices) - {name}
      ensures errors == old(errors) + if ok then 0 else 1
    {
      writes := writes + 1;
      var lands := *;
      if !lands {
        errors := errors + 1;
        return false;
      }
      slices := slices - {name};
      ok := *;
      if !ok {
        errors := errors + 1;
      }
    }

    // -------------------------------------------------------------- listing

    /** The slices found, pool by pool in name order, whatever order they were listed in; pools new to the
      * operator are remembered as they are. */
    method ListExistingResourceSlices() returns (pools: Option<Pools>)
      requires Keyed(slices)
      modifies `cache, `errors
      ensures pools == None ==> cache == old(cache)
      ensures pools != None ==> pools.value == Existing(cfg, slices) && cache == Seeded(pools.value, old(cache))
      ensures errors == old(errors) + if pools == None then 1 else 0
    {
      var listed := *;
      if !listed {
        errors := errors + 1;
        return None;
      }
      var items := List(cfg, slices);
      var found := GroupByPool(items);
      GroupedKeys(cfg, slices, items, found);
      var sorted := SortPools(items, found);
      AllMembers(cfg, slices, sorted);
      return Some(sorted);
    }

    method SortPools(ghost items: seq<Slice>, found: Pools) returns (sorted: Pools)
      requires Keyed(slices) && Lists(cfg, slices, items) && Grouped(items, found)
      modifies `cache
      ensures sorted.Keys == found.Keys && forall k :: k in sorted ==> sorted[k] == Members(cfg, slices, k)
      ensures cache == Seeded(sorted, old(cache))
    {
      sorted := map[];
      var todo := found.Keys;
      assert Seeded(map[], cache) == cache;
      while todo != {}
        invariant todo <= found.Keys && sorted.Keys == found.Keys - todo
        invariant forall k :: k in sorted ==> sorted[k] == Members(cfg, slices, k)
        invariant cache == Seeded(sorted, old(cache))
        decreases |todo|
      {
        var key :| key in todo;
        var pool := SortPool(items, found, key, sorted, old(cache));
        sorted := sorted[key := pool];
        todo := todo - {key};
      }
    }

    /** Sort one pool, and remember it if it is new. */
    method SortPool(ghost items: seq<Slice>, found: Pools, key: PoolKey, sorted: Pools, ghost known: Cache)
        returns (pool: seq<Slice>)
      requires Keyed(slices) && Lists(cfg, slices, items) && Grouped(items, found) && key in found
      requires key !in sorted && cache == Seeded(sorted, known)
      modifies `cache
      ensures pool == Members(cfg, slices, key) && cache == Seeded(sorted[key := pool], known)
    {
      pool := SortByName(found[key]);
      SortedIsMembers(cfg, slices, items, found, key, pool);
      FillInStep(sorted, known, ReadBack, key, pool);
      if key !in cache {
        var read := Remember(pool);
        if read.Some? {
          cache := cache[key := read.value];
        }
      }
    }

    method GenerationFor(key: PoolKey, d: Definition, current: seq<Slice>) returns (generation: int)
      ensures generation == NextGeneration(cfg, Lookup(cache, key), d, current)
    {
      if |current| > 0 {
        var same := CurrentDefinitionMatches(cfg, current, d);
        if same {
          generation := current[0].spec.generation;
          return if generation > 0 then generation else 1;
        }
      }
      if key in cache {
        return if cache[key].definition == d then cache[key].generation else cache[key].generation + 1;
      }
      if |current| == 0 || current[0].spec.generation <= 0 {
        return 1;
      }
      return current[0].spec.generation + 1;
    }

    // -------------------------------------------------------------- the passes over the pools

    /** Bring the cluster to the inventory. A pool whose calls fail does not keep the others from theirs; each pool
      * that fails is given up at its first error, and none fails without one. */
    method Sync(inventory: Option<Desired>) returns (outcome: Outcome)
      requires Keyed(slices)
      modifies this
      ensures Keyed(slices)
      ensures !outcome.Done? ==> slices == old(slices) && writes == old(writes)
      ensures outcome.NotListed? ==> cache == old(cache)
      ensures outcome.NoInventory? ==> inventory == None && cache == Seeded(Existing(cfg, slices), old(cache))
      ensures outcome.Done? ==> inventory.Some?
      ensures outcome.Done? ==>
                Synced(cfg, old(slices), old(cache), inventory.value, outcome.failed, slices, cache)
      ensures outcome.Done? ==>
                (writes == old(writes) <==>
                 Settled(Existing(cfg, old(slices)), Goal(cfg, old(slices), old(cache), inventory.value)))
      ensures writes == old(writes) ==> slices == old(slices) && (outcome.Done? ==> outcome.failed == {})
      ensures OthersKept(cfg, old(slices), slices)
      ensures outcome.NotListed? ==> errors == old(errors) + 1
      ensures outcome.NoInventory? ==> errors == old(errors)
      ensures outcome.Done? ==> errors == old(errors) + |outcome.failed|
      ensures outcome == Done({}) ==>
                OnlyWanted(cfg, slices, Goal(cfg, old(slices), old(cache), inventory.value))
    {
      var existing := ListExistingResourceSlices();
      if existing.None? {
        return NotListed;
      }
      if inventory.None? {
        return NoInventory;
      }
      ghost var generations := Generations(cfg, existing.value, old(cache), inventory.value);
      ghost var want, foreign := Wanted(cfg, inventory.value, generations), Foreign(cfg, slices);
      BeginSync(cfg, slices, want);
      var failed := SyncPools(existing.value, inventory.value, generations, want, foreign);
      ReconciledKeepsOthers(cfg, old(slices), want, failed, slices);
      if failed == {} {
        ReconciledIsOnlyWanted(cfg, old(slices), want, slices);
      }
      return Done(failed);
    }

    method SyncPools(pools: Pools, desired: Desired, ghost generations: map<PoolKey, int>, ghost want: Pools,
                     ghost foreign: Store) returns (failed: set<PoolKey>)
      requires Keyed(slices) && Apart(pools, foreign) && desired.Keys == generations.Keys == want.Keys
      requires Planned(cfg, pools, cache, desired, generations, want)
      requires Progress(pools, want, foreign, pools.Keys + want.Keys, {}, slices)
      requires forall k :: k in pools ==> pools[k] != []
      modifies this
      ensures Keyed(slices) && failed <= pools.Keys + desired.Keys
      ensures Reconciled(pools, want, foreign, failed, slices)
      ensures cache == CacheAfter(old(cache), desired, generations, failed)
      ensures writes >= old(writes) && (writes == old(writes) <==> Settled(pools, want))
      ensures writes == old(writes) ==> slices == old(slices) && failed == {}
      ensures errors == old(errors) + |failed|
    {
      ghost var seeded := cache;
      SettledIs(pools, want);
      var stale, gone := DeleteStale(pools, desired, want, foreign);
      failed := ApplyAndPrune(pools, desired, seeded, generations, want, foreign, gone, stale);
      assert stale !! failed;
      failed := stale + failed;
    }

    method ApplyAndPrune(pools: Pools, desired: Desired, ghost seeded: Cache, ghost generations: map<PoolKey, int>,
                         ghost want: Pools, ghost foreign: Store, ghost gone: set<PoolKey>, ghost stale: set<PoolKey>)
        returns (failed: set<PoolKey>)
      requires Keyed(slices) && Apart(pools, foreign) && desired.Keys == generations.Keys == want.Keys
      requires Planned(cfg, pools, seeded, desired, generations, want)
      requires Progress(pools, want, foreign, want.Keys, gone, slices)
      requires forall k :: k in gone <==> k in pools && k !in want && k !in stale
      requires stale <= pools.Keys - want.Keys
      requires forall k :: k in desired ==> Lookup(cache, k) == Lookup(seeded, k)
      modifies this
      ensures Keyed(slices) && failed <= desired.Keys
      ensures Reconciled(pools, want, foreign, stale + failed, slices)
      ensures cache == CacheAfter(seeded, desired, generations, stale + failed)
      ensures writes >= old(writes)
      ensures writes == old(writes) <==> forall k :: k in desired ==> SameSlices(Current(pools, k), want[k])
      ensures writes == old(writes) ==> slices == old(slices) && failed == {}
      ensures errors == old(errors) + |failed|
    {
      ghost var good;
      failed, good := ApplyAll(pools, desired, seeded, generations, want, foreign, gone);
      Prune(desired, seeded, generations, failed, stale);
      End(pools, want, foreign, stale + failed, good, slices);
    }

    /** Forget the pools the inventory no longer has. */
    method Prune(desired: Desired, ghost seeded: Cache, ghost generations: map<PoolKey, int>,
                 ghost failed: set<PoolKey>, ghost stale: set<PoolKey>)
      requires desired.Keys == generations.Keys && stale !! desired.Keys
      requires forall k :: k in desired ==>
                 Lookup(cache, k) == if k in failed then Lookup(seeded, k)
                                     else Some(Published(desired[k], generations[k]))
      modifies `cache
      ensures cache == CacheAfter(seeded, desired, generations, stale + failed)
    {
      cache := map k | k in cache && k in desired :: cache[k];
      Pruned(cache, seeded, desired, generations, failed, stale);
    }

    /** Delete the pools the inventory no longer has, in any order. */
    method DeleteStale(pools: Pools, desired: Desired, ghost want: Pools, ghost foreign: Store)
        returns (failed: set<PoolKey>, ghost good: set<PoolKey>)
      requires Keyed(slices) && Apart(pools, foreign) && want.Keys == desired.Keys
      requires Progress(pools, want, foreign, pools.Keys + want.Keys, {}, slices)
                && forall k :: k in pools ==> pools[k] != []
      modifies this
      ensures Keyed(slices) && Progress(pools, want, foreign, want.Keys, good, slices)
      ensures failed <= pools.Keys - want.Keys
      ensures forall k :: k in good <==> k in pools && k !in want && k !in failed
      ensures forall k :: k in desired ==> Lookup(cache, k) == old(Lookup(cache, k))
      ensures writes >= old(writes) && (writes == old(writes) <==> forall k :: k in pools ==> k in want)
      ensures writes == old(writes) ==> slices == old(slices) && failed == {}
      ensures errors == old(errors) + |failed|
    {
      var left := set k | k in pools && k !in desired;
      ghost var todo := pools.Keys + want.Keys;
      failed, good := {}, {};
      while left != {}
        invariant forall k :: k in left ==> k in pools && k !in want
        invariant forall k :: k in todo <==> k in want || k in left
        invariant forall k :: k in good <==> k in pools && k !in want && k !in failed && k !in left
        invariant forall k :: k in failed ==> k in pools && k !in want && k !in left
        invariant Keyed(slices) && Progress(pools, want, foreign, todo, good, slices)
        invariant forall k :: k in desired ==> Lookup(cache, k) == old(Lookup(cache, k))
        invariant writes >= old(writes) && errors == old(errors) + |failed|
        invariant writes == old(writes) <==> forall k :: k in pools && k !in want ==> k in left
        invariant writes == old(writes) ==> slices == old(slices) && failed == {}
        decreases |left|
      {
        var key :| key in left;
        var ok := VisitStale(pools, want, foreign, todo, good, key);
        todo := todo - {key};
        if ok {
          good := good + {key};
        } else {
          failed := failed + {key};
        }
        left := left - {key};
      }
      assert todo == want.Keys;
    }

    method VisitStale(pools: Pools, ghost want: Pools, ghost foreign: Store, ghost todo: set<PoolKey>,
                      ghost good: set<PoolKey>, key: PoolKey) returns (ok: bool)
      requires Keyed(slices) && Apart(pools, foreign) && Progress(pools, want, foreign, todo, good, slices)
      requires key in todo && key in pools && key !in want && pools[key] != []
      modifies this
      ensures Keyed(slices) && Progress(pools, want, foreign, todo - {key}, if ok then good + {key} else good, slices)
      ensures cache == (if ok then old(cache) - {key} else old(cache)) && writes > old(writes)
      ensures errors == old(errors) + if ok then 0 else 1
    {
      ok := DeletePool(pools[key]);
      StepKeepsProgress(pools, want, foreign, todo, good, key, old(slices), slices, ok);
      if ok {
        cache := cache - {key};
      }
    }

    /** Bring every wanted pool to its slices, in any order. */
    method ApplyAll(pools: Pools, desired: Desired, ghost seeded: Cache, ghost generations: map<PoolKey, int>,
                    ghost want: Pools, ghost foreign: Store, ghost gone: set<PoolKey>)
        returns (failed: set<PoolKey>, ghost good: set<PoolKey>)
      requires Keyed(slices) && Apart(pools, foreign) && desired.Keys == generations.Keys == want.Keys
      requires Planned(cfg, pools, seeded, desired, generations, want)
      requires Progress(pools, want, foreign, want.Keys, gone, slices)
      requires forall k :: k in desired ==> Lookup(cache, k) == Lookup(seeded, k)
      modifies this
      ensures Keyed(slices) && Progress(pools, want, foreign, {}, good, slices)
      ensures failed <= desired.Keys && forall k :: k in good <==> k in gone || (k in desired && k !in failed)
      ensures forall k :: k in desired ==>
                Lookup(cache, k) == if k in failed then Lookup(seeded, k)
                                    else Some(Published(desired[k], generations[k]))
      ensures writes >= old(writes)
      ensures writes == old(writes) <==> forall k :: k in desired ==> SameSlices(Current(pools, k), want[k])
      ensures writes == old(writes) ==> slices == old(slices) && failed == {}
      ensures errors == old(errors) + |failed|
    {
      var left := desired.Keys;
      failed, good := {}, gone;
      while left != {}
        invariant Applying(pools, desired, seeded, generations, want, foreign, gone, left, failed, good, slices, cache)
        invariant writes >= old(writes) && errors == old(errors) + |failed|
        invariant writes == old(writes) <==>
                    forall k :: k in desired && k !in left ==> SameSlices(Current(pools, k), want[k])
        invariant writes == old(writes) ==> slices == old(slices) && failed == {}
        decreases |left|
      {
        var key :| key in left;
        failed, good := ApplyNext(pools, desired, seeded, generations, want, foreign, gone, left, failed, good, key);
        left := left - {key};
      }
    }

    method ApplyNext(pools: Pools, desired: Desired, ghost seeded: Cache, ghost generations: map<PoolKey, int>,
                     ghost want: Pools, ghost foreign: Store, ghost gone: set<PoolKey>, ghost left: set<PoolKey>,
                     failed: set<PoolKey>, ghost good: set<PoolKey>, key: PoolKey)
        returns (nowFailed: set<PoolKey>, ghost better: set<PoolKey>)
      requires Apart(pools, foreign) && desired.Keys == generations.Keys == want.Keys && key in left
      requires Planned(cfg, pools, seeded, desired, generations, want)
      requires Applying(pools, desired, seeded, generations, want, foreign, gone, left, failed, good, slices, cache)
      modifies this
      ensures Applying(pools, desired, seeded, generations, want, foreign, gone, left - {key}, nowFailed, better,
                       slices, cache)
      ensures writes >= old(writes) && (writes == old(writes) <==> SameSlices(Current(pools, key), want[key]))
      ensures writes == old(writes) ==> slices == old(slices) && nowFailed == failed
      ensures errors + |failed| == old(errors) + |nowFailed|
    {
      var ok;
      ok, better := VisitWanted(pools, desired, seeded, generations, want, foreign, left, good, key);
      nowFailed := if ok then failed else failed + {key};
    }

    method VisitWanted(pools: Pools, desired: Desired, ghost seeded: Cache, ghost generations: map<PoolKey, int>,
                       ghost want: Pools, ghost foreign: Store, ghost todo: set<PoolKey>, ghost good: set<PoolKey>,
                       key: PoolKey)
        returns (ok: bool, ghost better: set<PoolKey>)
      requires Keyed(slices) && Apart(pools, foreign) && Progress(pools, want, foreign, todo, good, slices)
      requires key in todo && key in want && desired.Keys == generations.Keys == want.Keys
      requires Planned(cfg, pools, seeded, desired, generations, want) && Lookup(cache, key) == Lookup(seeded, key)
      modifies this
      ensures Keyed(slices) && Progress(pools, want, foreign, todo - {key}, better, slices)
      ensures forall k :: k in better <==> k in good || (ok && k == key)
      ensures cache == if ok then old(cache)[key := Published(desired[key], generations[key])] else old(cache)
      ensures writes >= old(writes) && (writes == old(writes) <==> SameSlices(Current(pools, key), want[key]))
      ensures writes == old(writes) ==> ok && slices == old(slices)
      ensures errors == old(errors) + if ok then 0 else 1
    {
      assert IsPlan(cfg, Current(pools, key), Lookup(seeded, key), desired[key], generations[key], want[key]);
      var d, current := desired[key], Current(pools, key);
      var next := GenerationFor(key, d, current);
      var wanted := BuildResourceSlices(cfg, d, next);
      SliceNamesAreDistinct(cfg, d, next);
      ok := ApplyPool(current, wanted);
      better := if ok then good + {key} else good;
      StepKeepsProgress(pools, want, foreign, todo, good, key, old(slices), slices, ok);
      if ok {
        cache := cache[key := Published(d, next)];
      }
    }

    /** Delete a pool's slices; the first error ends it. */
    method DeletePool(pool: seq<Slice>) returns (ok: bool)
      requires Keyed(slices) && pool != []
      modifies `slices, `writes, `errors
      ensures Keyed(slices) && Applied(pool, [], old(slices), slices, ok)
      ensures writes > old(writes)
      ensures errors == old(errors) + if ok then 0 else 1
    {
      for i := 0 to |pool|
        invariant Spares(pool, old(slices), slices)
        invariant forall n :: n in slices ==> n in old(slices) && slices[n] == old(slices)[n]
        invariant forall s :: s in pool[..i] ==> s.name !in slices
        invariant writes == old(writes) + i && errors == old(errors)
      {
        assert pool[i] in pool && pool[..i + 1] == pool[..i] + [pool[i]];
        ok := DeleteSlice(pool[i].name);
        if !ok {
          return;
        }
      }
      assert pool[..|pool|] == pool;
      ok := true;
    }

    // -------------------------------------------------------------- applying one pool

    /** Bring one pool's slices to the wanted ones; the first error ends it. */
    method ApplyPool(current: seq<Slice>, wanted: seq<Slice>) returns (ok: bool)
      requires Keyed(slices) && Holds(slices, current) && Distinct(wanted)
      modifies `slices, `writes, `errors
      ensures Keyed(slices) && Applied(current, wanted, old(slices), slices, ok)
      ensures writes >= old(writes) && (writes == old(writes) <==> SameSlices(current, wanted))
      ensures writes == old(writes) ==> ok && slices == old(slices)
      ensures errors == old(errors) + if ok then 0 else 1
    {
      var byName := IndexByName(current, slices);
      ok, byName := ApplyWanted(current, wanted, byName);
      if !ok {
        return;
      }
      ghost var between := slices;
      ok := DeleteLeft(byName.Keys);
      DeletingApplies(current, wanted, byName, old(slices), between, slices, ok);
      SameWhenQuiet(current, wanted, old(slices), between, byName);
    }

    method ApplyWanted(current: seq<Slice>, wanted: seq<Slice>, index: Store) returns (ok: bool, byName: Store)
      requires Keyed(slices) && Holds(slices, current) && Distinct(wanted)
      requires Midway(current, [], slices, slices, index)
      modifies `slices, `writes, `errors
      ensures Keyed(slices) && Spares(current, old(slices), slices) && AddsOnly(wanted, old(slices), slices)
      ensures ok ==> Midway(current, wanted, old(slices), slices, byName)
      ensures writes >= old(writes) && (!ok ==> writes > old(writes))
      ensures writes == old(writes) ==> slices == old(slices)
      ensures writes == old(writes) <==> forall s :: s in wanted ==> s in current
      ensures errors == old(errors) + if ok then 0 else 1
    {
      byName := index;
      for i := 0 to |wanted|
        invariant Keyed(slices) && Midway(current, wanted[..i], old(slices), slices, byName)
        invariant errors == old(errors)
        invariant writes >= old(writes) && (writes == old(writes) ==> slices == old(slices))
        invariant writes == old(writes) <==> forall s :: s in wanted[..i] ==> s in current
      {
        assert wanted[..i + 1] == wanted[..i] + [wanted[i]];
        ok := ApplyOne(current, wanted, i, byName, old(slices));
        if !ok {
          assert wanted[i] in wanted;
          return;
        }
        byName := byName - {wanted[i].name};
      }
      assert wanted[..|wanted|] == wanted;
      ok := true;
    }

    method ApplyOne(current: seq<Slice>, wanted: seq<Slice>, i: nat, byName: Store,
                    ghost before: Store) returns (ok: bool)
      requires Keyed(slices) && Holds(before, current) && Distinct(wanted) && i < |wanted|
      requires Midway(current, wanted[..i], before, slices, byName)
      modifies `slices, `writes, `errors
      ensures Keyed(slices) && Spares(current, before, slices) && AddsOnly(wanted, before, slices)
      ensures ok ==> Midway(current, wanted[..i + 1], before, slices, byName - {wanted[i].name})
      ensures writes == old(writes) + if wanted[i] in current then 0 else 1
      ensures wanted[i] in current ==> ok && slices == old(slices)
      ensures errors == old(errors) + if ok then 0 else 1
    {
      var slice := wanted[i];
      NewToWanted(wanted, i);
      assert wanted[..i + 1] == wanted[..i] + [slice];
      assert slice in current <==> slice.name in byName && byName[slice.name] == slice;
      if slice.name !in byName {
        ok := Create(slice);
      } else if byName[slice.name] == slice {
        assert slices[slice.name := slice] == slices;
        ok := true;
      } else {
        ok := Update(slice);
      }
      FailedMidway(current, wanted, i, before, old(slices), slices, byName);
      if ok {
        StepMidway(current, wanted[..i], slice, before, old(slices), byName);
      }
    }

    /** Whatever is left belonged to a wider version of the pool. */
    method DeleteLeft(names: set<string>) returns (ok: bool)
      modifies `slices, `writes, `errors
      ensures forall n :: n in slices ==> n in old(slices) && slices[n] == old(slices)[n]
      ensures forall n :: n in old(slices) && n !in names ==> n in slices
      ensures ok ==> slices == old(slices) - names
      ensures writes >= old(writes) && (writes == old(writes) <==> names == {}) && (names == {} ==> ok)
      ensures errors == old(errors) + if ok then 0 else 1
    {
      var left := names;
      while left != {}
        invariant left <= names && slices == old(slices) - (names - left)
        invariant writes >= old(writes) && (writes == old(writes) <==> left == names) && errors == old(errors)
        decreases |left|
      {
        var n :| n in left;
        ok := DeleteSlice(n);
        if !ok {
          return;
        }
        left := left - {n};
      }
      ok := true;
    }
  }

  method IndexByName(current: seq<Slice>, store: Store) returns (byName: Store)
    requires Holds(store, current)
    ensures Midway(current, [], store, store, byName)
  {
    byName := map[];
    for i := 0 to |current|
      invariant forall n :: n in byName <==> Named(n, current[..i])
      invariant forall n :: n in byName ==> n in store && byName[n] == store[n]
    {
      assert current[i] in current;
      assert current[..i + 1] == current[..i] + [current[i]];
      NamedWith(current[..i], current[i]);
      byName := byName[current[i].name := current[i]];
    }
    assert current[..|current|] == current;
  }

  lemma NamedWith(slices: seq<Slice>, s: Slice)
    ensures forall n :: Named(n, slices + [s]) <==> n == s.name || Named(n, slices)
  {
    assert s in slices + [s];
    forall n | Named(n, slices) ensures Named(n, slices + [s]) {
      var t :| t in slices && t.name == n;
      assert t in slices + [s];
    }
  }

  /** A pool whose slices `done` are written: byName holds the current slices not among them, untouched. */
  ghost predicate Midway(current: seq<Slice>, done: seq<Slice>, before: Store, now: Store, byName: Store) {
    && Spares(current, before, now) && AddsOnly(done, before, now)
    && Holds(now, done) && TakesOnly(done, current, before)
    && (forall n :: n in byName <==> Named(n, current) && !Named(n, done))
    && (forall n :: n in byName ==> n in before && n in now && byName[n] == before[n] == now[n])
  }

  lemma StepMidway(current: seq<Slice>, done: seq<Slice>, s: Slice, before: Store, now: Store, byName: Store)
    requires Midway(current, done, before, now, byName)
    requires !Named(s.name, done) && (s.name in byName || s.name !in now)
    ensures Midway(current, done + [s], before, now[s.name := s], byName - {s.name})
  {
    NamedWith(done, s);
    StoreStepMidway(current, done, s, before, now);
    IndexStepMidway(current, done, s, before, now, byName);
  }

  lemma IndexStepMidway(current: seq<Slice>, done: seq<Slice>, s: Slice, before: Store, now: Store, byName: Store)
    requires forall n :: n in byName <==> Named(n, current) && !Named(n, done)
    requires forall n :: n in byName ==> n in before && n in now && byName[n] == before[n] == now[n]
    ensures var left, after := byName - {s.name}, now[s.name := s];
            && (forall n :: n in left <==> Named(n, current) && !Named(n, done + [s]))
            && (forall n :: n in left ==> n in before && n in after && left[n] == before[n] == after[n])
  {
    NamedWith(done, s);
  }

  lemma StoreStepMidway(current: seq<Slice>, done: seq<Slice>, s: Slice, before: Store, now: Store)
    requires Spares(current, before, now) && AddsOnly(done, before, now)
    requires Holds(now, done) && TakesOnly(done, current, before)
    requires !Named(s.name, done) && (Named(s.name, current) || s.name !in now)
    ensures var after, more := now[s.name := s], done + [s];
            && Spares(current, before, after) && AddsOnly(more, before, after)
            && Holds(after, more) && TakesOnly(more, current, before)
  {
    assert forall t :: t in done ==> Named(t.name, done);
  }

  lemma NewToWanted(wanted: seq<Slice>, i: nat)
    requires Distinct(wanted) && i < |wanted|
    ensures !Named(wanted[i].name, wanted[..i])
  {
  }

  lemma FailedMidway(current: seq<Slice>, wanted: seq<Slice>, i: nat, before: Store, now: Store, after: Store,
                     byName: Store)
    requires i < |wanted| && Midway(current, wanted[..i], before, now, byName)
    requires after == now
             || (after == now[wanted[i].name := wanted[i]] && (wanted[i].name in byName || wanted[i].name !in now))
    ensures Spares(current, before, after) && AddsOnly(wanted, before, after)
  {
    forall n | n in after ensures (n in before && after[n] == before[n]) || after[n] in wanted {
      if after[n] != wanted[i] { assert after[n] in wanted[..i] ==> after[n] in wanted; }
    }
  }

  lemma DeletingApplies(current: seq<Slice>, wanted: seq<Slice>, byName: Store, before: Store, between: Store,
                        after: Store,
                        ok: bool)
    requires Midway(current, wanted, before, between, byName)
    requires forall n :: n in after ==> n in between && after[n] == between[n]
    requires forall n :: n in between && n !in byName ==> n in after
    requires ok ==> after == between - byName.Keys
    ensures Applied(current, wanted, before, after, ok)
  {
    if ok {
      forall s | s in wanted ensures s.name in after && after[s.name] == s { assert Named(s.name, wanted); }
    }
  }

  lemma SameWhenQuiet(current: seq<Slice>, wanted: seq<Slice>, before: Store, now: Store, byName: Store)
    requires Midway(current, wanted, before, now, byName) && Holds(before, current)
    ensures SameSlices(current, wanted) <==> byName == map[] && forall s :: s in wanted ==> s in current
  {
    assert forall s :: s in current ==> Named(s.name, current);
    assert forall s :: s in wanted ==> Named(s.name, wanted);
  }

  // ---------------------------------------------------------------- generations, step by step

  method CurrentDefinitionMatches(cfg: Config, current: seq<Slice>, d: Definition) returns (same: bool)
    requires current != []
    ensures same == Matches(cfg, current, d)
  {
    var wanted := BuildResourceSlices(Config(current[0].spec.driver, DEFAULT_NAME_PREFIX, cfg.zoneLabelKey, cfg.hash),
                                      d, current[0].spec.generation);
    same := CompareSpecs(current, wanted);
  }

  method CompareSpecs(current: seq<Slice>, wanted: seq<Slice>) returns (same: bool)
    ensures same == SameSpecs(current, wanted)
  {
    if |wanted| != |current| {
      return false;
    }
    for i := 0 to |wanted|
      invariant forall j :: 0 <= j < i ==> current[j].spec == wanted[j].spec
    {
      if current[i].spec != wanted[i].spec {
        return false;
      }
    }
    return true;
  }

  // ---------------------------------------------------------------- listing and grouping

  /** A listing: the slices the selectors let through, each once, in any order. */
  ghost predicate Lists(cfg: Config, store: Store, items: seq<Slice>) {
    && Distinct(items)
    && forall s :: s in items <==> s.name in store && store[s.name] == s && Selected(cfg, s)
  }

  method List(cfg: Config, store: Store) returns (items: seq<Slice>)
    requires Keyed(store)
    ensures Lists(cfg, store, items)
  {
    var left := set n | n in store && Selected(cfg, store[n]);
    items := [];
    while left != {}
      invariant left <= store.Keys && Distinct(items) && forall s :: s in items ==> s.name !in left
      invariant forall s: Slice :: s in items || (s.name in left && store[s.name] == s) <==>
                           s.name in store && store[s.name] == s && Selected(cfg, s)
      decreases |left|
    {
      var n :| n in left;
      items := items + [store[n]];
      left := left - {n};
    }
  }

  /** The listed slices by pool. */
  ghost predicate Grouped(items: seq<Slice>, pools: Pools) {
    && (forall k :: k in pools ==> pools[k] != [] && Distinct(pools[k]))
    && (forall k, s :: s in Current(pools, k) <==> s in items && KeyOf(s) == Some(k))
  }

  method GroupByPool(items: seq<Slice>) returns (pools: Pools)
    requires Distinct(items)
    ensures Grouped(items, pools)
  {
    pools := map[];
    for i := 0 to |items|
      invariant Grouped(items[..i], pools)
    {
      var key := KeyOf(items[i]);
      ghost var was := pools;
      if key.Some? {
        pools := pools[key.value := Current(pools, key.value) + [items[i]]];
      }
      GroupStep(items[..i], was, items[i], pools);
      assert items[..i + 1] == items[..i] + [items[i]];
    }
    assert items[..|items|] == items;
  }

  method Remember(pool: seq<Slice>) returns (p: Option<Published>)
    ensures p == ReadBack(pool)
  {
    var d := DefinitionFromResourceSlices(pool);
    if d.capacity > 0 {
      return Some(Published(d, pool[0].spec.generation));
    }
    return None;
  }

  lemma GroupStep(seen: seq<Slice>, was: Pools, item: Slice, pools: Pools)
    requires Grouped(seen, was) && forall s :: s in seen ==> s.name != item.name
    requires pools == if KeyOf(item).None? then was
                      else was[KeyOf(item).value := Current(was, KeyOf(item).value) + [item]]
    ensures Grouped(seen + [item], pools)
  {
  }

  lemma SortedIsMembers(cfg: Config, store: Store, items: seq<Slice>, found: Pools, k: PoolKey, sorted: seq<Slice>)
    requires Keyed(store) && Lists(cfg, store, items) && Grouped(items, found) && k in found
    requires Sorted(sorted) && multiset(sorted) == multiset(found[k])
    ensures sorted == Members(cfg, store, k) && sorted != []
  {
    forall s ensures s in sorted <==> s in Current(found, k) {
      assert s in sorted <==> s in multiset(sorted);
      assert s in found[k] <==> s in multiset(found[k]);
    }
    MembersOnly(cfg, store, k, sorted);
    assert found[k][0] in multiset(sorted);
  }

  lemma GroupedKeys(cfg: Config, store: Store, items: seq<Slice>, found: Pools)
    requires Keyed(store) && Lists(cfg, store, items) && Grouped(items, found)
    ensures found.Keys == PoolKeys(cfg, store)
  {
    forall k | k in found ensures k in PoolKeys(cfg, store) {
      var s := found[k][0];
      assert s in Current(found, k);
      assert s.name in store && PoolOf(cfg, store[s.name]) == Some(k);
    }
    forall k | k in PoolKeys(cfg, store) ensures k in found {
      var n :| n in store && PoolOf(cfg, store[n]) == Some(k);
      assert store[n] in items;
      assert store[n] in Current(found, k);
    }
  }

  lemma AllMembers(cfg: Config, store: Store, pools: Pools)
    requires pools.Keys == PoolKeys(cfg, store) && forall k :: k in pools ==> pools[k] == Members(cfg, store, k)
    ensures pools == Existing(cfg, store)
  {
  }

  lemma FillInStep<K, P, V>(found: map<K, P>, known: map<K, V>, read: P -> Option<V>, k: K, p: P)
    requires k !in found
    ensures FillIn(found[k := p], known, read) ==
              if k !in known && read(p).Some? then FillIn(found, known, read)[k := read(p).value]
              else FillIn(found, known, read)
    ensures k in FillIn(found, known, read) <==> k in known
  {
  }
}
