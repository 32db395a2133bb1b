/** Generations after a pass that failed on a pool: its slices may have changed, but the cache has not advanced. */
module HalfApplied {
  import opened Wrappers
  import opened Names
  import opened Slices
  import opened Listing
  import opened Sync
  import opened Stability
  import opened Generations

  /** Whether specs of one generation differ shows in the pool's size. */
  lemma SpecsTellSize(cfg: Config, d: Definition, e: Definition, generation: int)
    requires d.Key() == e.Key() && d.capacity > 0 && e.capacity > 0
    ensures SameSpecs(Built(cfg, d, generation), Built(cfg, e, generation)) <==> d.capacity == e.capacity
  {
    if d.capacity == e.capacity {
      SameSizeSameSpecs(cfg, d, e, generation);
    } else if SameSpecs(Built(cfg, d, generation), Built(cfg, e, generation)) {
      SameSpecsSameCount(Built(cfg, d, generation), Built(cfg, e, generation));
      DeviceCountOfBuilt(cfg, d, generation);
      DeviceCountOfBuilt(cfg, e, generation);
    }
  }

  /** A pool the pass failed on is remembered as it was before the pass. */
  lemma FailureKeepsTheCache(cfg: Config, store: Store, cache: Cache, desired: Desired, failed: set<PoolKey>,
                             after: Store, remembered: Cache, k: PoolKey)
    requires Synced(cfg, store, cache, desired, failed, after, remembered) && k in failed && k in desired
    requires Lookup(Seeded(Existing(cfg, store), cache), k).Some?
    ensures Lookup(Seeded(Existing(cfg, after), remembered), k) == Lookup(Seeded(Existing(cfg, store), cache), k)
  {
    KnownStaysKnown(Existing(cfg, after), remembered, k);
  }

  lemma KnownStaysKnown(pools: Pools, cache: Cache, k: PoolKey)
    requires k in cache
    ensures Lookup(Seeded(pools, cache), k) == Some(cache[k])
  {
  }

  /** The numbers a remembered pool is given by two passes that both find it changed. */
  lemma NumbersFrom(cfg: Config, c: Published, d: Definition, e: Definition, found: seq<Slice>, later: seq<Slice>)
    requires !Matches(cfg, found, d) && !Matches(cfg, later, e)
    ensures var first, second := NextGeneration(cfg, Some(c), d, found), NextGeneration(cfg, Some(c), e, later);
            && (first == second <==> (d == c.definition <==> e == c.definition))
            && (second < first <==> d != c.definition && e == c.definition)
  {
  }

  /** Exactly when one generation number is given to different specs: a pass failed on a pool the operator remembers,
    * and neither what that pass wanted nor what the next one wants, of another size, is what is remembered. If the
    * next one wants just that again, its number even falls back. Neither pass finds the pool as it wants it; one
    * that does goes on with the number it finds. */
  lemma OneNumberForDifferentSpecsExactly(cfg: Config, store: Store, cache: Cache, first: Desired, failed: set<PoolKey>,
                                          after: Store, remembered: Cache, second: Desired, k: PoolKey)
    requires Synced(cfg, store, cache, first, failed, after, remembered) && WellFormed(first) && WellFormed(second)
    requires k in failed && k in first && k in second
    requires Lookup(Seeded(Existing(cfg, store), cache), k).Some?
    requires !Matches(cfg, Current(Existing(cfg, store), k), first[k])
    requires !Matches(cfg, Current(Existing(cfg, after), k), second[k])
    ensures var c := Lookup(Seeded(Existing(cfg, store), cache), k).value;
            var g := Sync.Generations(cfg, Existing(cfg, store), cache, first)[k];
            var h := Sync.Generations(cfg, Existing(cfg, after), remembered, second)[k];
            && (g == h && !SameSpecs(Built(cfg, first[k], g), Built(cfg, second[k], h)) <==>
                  first[k].capacity != second[k].capacity && first[k] != c.definition && second[k] != c.definition)
            && (h < g <==> first[k] != c.definition && second[k] == c.definition)
  {
    var c := Lookup(Seeded(Existing(cfg, store), cache), k).value;
    FailureKeepsTheCache(cfg, store, cache, first, failed, after, remembered, k);
    NumbersFrom(cfg, c, first[k], second[k], Current(Existing(cfg, store), k), Current(Existing(cfg, after), k));
    SpecsTellSize(cfg, first[k], second[k], Sync.Generations(cfg, Existing(cfg, store), cache, first)[k]);
  }

  // ---------------------------------------------------------------- it happens

  /** A pass in which every call took effect, but the answers for some pools were lost. */
  lemma LostAnswers(cfg: Config, p: Pass, lost: set<PoolKey>, remembered: Cache)
    requires Succeeds(cfg, p) && lost <= p.desired.Keys == p.generations.Keys
    requires remembered == CacheAfter(Seeded(Existing(cfg, p.store), p.cache), p.desired, p.generations, lost)
    ensures Synced(cfg, p.store, p.cache, p.desired, lost, p.after, remembered)
  {
    StillReconciled(Existing(cfg, p.store), Wanted(cfg, p.desired, p.generations), Foreign(cfg, p.store), lost,
                    p.after);
  }

  lemma StillReconciled(pools: Pools, want: Pools, foreign: Store, failed: set<PoolKey>, store: Store)
    requires Reconciled(pools, want, foreign, {}, store)
    ensures Reconciled(pools, want, foreign, failed, store)
  {
    forall n | n in store && !(n in foreign && store[n] == foreign[n]) ensures From(want, want.Keys, store[n]) {
      assert !From(pools, {}, store[n]);
    }
  }

  /** One GPU in a zone whose name is a label, then two, then three. */
  const HOME := Definition("us-east", "h100", 1, 0, 1.0, 1)
  const TWO_HOME := HOME.(hostCapacity := 2, capacity := 2)
  const THREE_HOME := HOME.(hostCapacity := 3, capacity := 3)

  lemma HomeIsLabelled()
    ensures IsLabelled(HOME.Key())
  {
  }

  /** A pass that wants one pool, when an earlier one of another size is found and remembered under this number. */
  lemma NextAtHome(cfg: Config, p: Pass, c: Published, d: Definition)
    requires Succeeds(cfg, p) && p.desired.Keys == {HOME.Key()} && d.Key() == HOME.Key()
    requires d.capacity > 0 && d.capacity != p.desired[HOME.Key()].capacity && c.definition != d
    ensures !Matches(cfg, Current(Existing(cfg, p.after), HOME.Key()), d)
    ensures Sync.Generations(cfg, Existing(cfg, p.after), map[HOME.Key() := c], map[d.Key() := d]) ==
              map[d.Key() := c.generation + 1]
  {
    NotMatchingAtHome(cfg, p, d);
    KnownStaysKnown(Existing(cfg, p.after), map[HOME.Key() := c], HOME.Key());
    OneGeneration(cfg, Existing(cfg, p.after), map[HOME.Key() := c], d, c);
  }

  lemma NotMatchingAtHome(cfg: Config, p: Pass, d: Definition)
    requires Succeeds(cfg, p) && p.desired.Keys == {HOME.Key()}
    requires d.capacity > 0 && d.capacity != p.desired[HOME.Key()].capacity
    ensures !Matches(cfg, Current(Existing(cfg, p.after), HOME.Key()), d)
  {
    var k := HOME.Key();
    HomeIsLabelled();
    FoundUnderItself(cfg, p.store, p.cache, p.desired, p.after, p.remembered, k);
    ListedAreMembers(cfg, p.after, k);
    MembersAre(cfg, p.after, k);
    if Matches(cfg, Current(Existing(cfg, p.after), k), d) {
      MatchingIsSameSize(cfg, Current(Existing(cfg, p.after), k), p.desired[k], d, p.generations[k]);
    }
  }

  lemma OneGeneration(cfg: Config, pools: Pools, cache: Cache, d: Definition, c: Published)
    requires Lookup(Seeded(pools, cache), d.Key()) == Some(c) && c.definition != d
    requires !Matches(cfg, Current(pools, d.Key()), d)
    ensures Sync.Generations(cfg, pools, cache, map[d.Key() := d]) == map[d.Key() := c.generation + 1]
  {
  }

  lemma FirstAtHome(cfg: Config)
    ensures var p := OneSlicePass(cfg, map[], map[], HOME, 1);
            Succeeds(cfg, p) && Admitted(p.after) && Sane(p.remembered) && Foreign(cfg, p.after) == map[]
  {
    NothingExists(cfg);
    GenerationOfOne(cfg, map[], map[], HOME);
    assert Lookup(Seeded(map[], map[]), HOME.Key()) == None;
    UnlabelledNext(cfg, None, HOME);
    OneSliceSucceeds(cfg, map[], map[], HOME, 1);
  }

  lemma SecondAtHome(cfg: Config, p: Pass)
    requires p == OneSlicePass(cfg, map[], map[], HOME, 1)
    requires Succeeds(cfg, p) && Admitted(p.after) && Sane(p.remembered) && Foreign(cfg, p.after) == map[]
    ensures var q := OneSlicePass(cfg, p.after, p.remembered, TWO_HOME, 2);
            Succeeds(cfg, q) && Admitted(q.after) && Foreign(cfg, q.after) == map[]
  {
    NextAtHome(cfg, p, Published(HOME, 1), TWO_HOME);
    OneSliceSucceeds(cfg, p.after, p.remembered, TWO_HOME, 2);
  }

  /** A first pass publishes one device, a second wants two, a third three. */
  function One(cfg: Config): Pass { OneSlicePass(cfg, map[], map[], HOME, 1) }

  function Two(cfg: Config): Pass { OneSlicePass(cfg, One(cfg).after, One(cfg).remembered, TWO_HOME, 2) }

  function Three(cfg: Config): Pass { OneSlicePass(cfg, Two(cfg).after, One(cfg).remembered, THREE_HOME, 2) }

  lemma TwoSucceeds(cfg: Config)
    ensures var q := Two(cfg); Succeeds(cfg, q) && Admitted(q.after) && Foreign(cfg, q.after) == map[]
  {
    FirstAtHome(cfg);
    SecondAtHome(cfg, One(cfg));
  }

  /** The second publishes its two devices, but the answer is lost: it fails, and the operator remembers the first. */
  lemma TheAnswerIsLost(cfg: Config)
    ensures var q := Two(cfg);
            Synced(cfg, q.store, q.cache, q.desired, {HOME.Key()}, q.after, q.cache)
  {
    TwoSucceeds(cfg);
    TwoIsOfOnePool(cfg);
    LostPass(cfg, Two(cfg), HOME.Key());
  }

  lemma TwoIsOfOnePool(cfg: Config)
    ensures var q, k := Two(cfg), HOME.Key();
            q.desired.Keys == {k} && q.generations.Keys == {k} && q.cache.Keys == {k}
  {
  }

  /** So the third, which succeeds, publishes three devices under the number of the second's two. */
  lemma HalfAppliedReusesItsNumber(cfg: Config)
    ensures var q, r := Two(cfg), Three(cfg);
            && Succeeds(cfg, r) && r.store == q.after && r.cache == q.cache
            && r.generations == q.generations == map[HOME.Key() := 2]
            && !SameSpecs(Built(cfg, TWO_HOME, 2), Built(cfg, THREE_HOME, 2))
  {
    TwoSucceeds(cfg);
    ThirdAtHome(cfg, Two(cfg));
    SpecsTellSize(cfg, TWO_HOME, THREE_HOME, 2);
  }

  /** The answers of a pass over one pool were lost: the operator remembers what it did before. */
  lemma LostPass(cfg: Config, q: Pass, k: PoolKey)
    requires Succeeds(cfg, q) && q.desired.Keys == q.generations.Keys == {k} == q.cache.Keys
    ensures Synced(cfg, q.store, q.cache, q.desired, {k}, q.after, q.cache)
  {
    LostKeeps(Existing(cfg, q.store), q.cache, q.desired, q.generations, k);
    LostAnswers(cfg, q, {k}, q.cache);
  }

  lemma LostKeeps(pools: Pools, cache: Cache, desired: Desired, generations: map<PoolKey, int>, k: PoolKey)
    requires desired.Keys == generations.Keys == {k} == cache.Keys
    ensures CacheAfter(Seeded(pools, cache), desired, generations, {k}) == cache
  {
    KnownStaysKnown(pools, cache, k);
    LostIsKept(Seeded(pools, cache), desired, generations, k);
    assert cache == map[k := cache[k]];
  }

  lemma LostIsKept(cache: Cache, desired: Desired, generations: map<PoolKey, int>, k: PoolKey)
    requires desired.Keys == generations.Keys == {k} && k in cache
    ensures CacheAfter(cache, desired, generations, {k}) == map[k := cache[k]]
  {
  }

  lemma ThirdAtHome(cfg: Config, q: Pass)
    requires q.desired == map[HOME.Key() := TWO_HOME] && Succeeds(cfg, q)
    requires Admitted(q.after) && Foreign(cfg, q.after) == map[]
    ensures Succeeds(cfg, OneSlicePass(cfg, q.after, map[HOME.Key() := Published(HOME, 1)], THREE_HOME, 2))
  {
    NextAtHome(cfg, q, Published(HOME, 1), THREE_HOME);
    OneSliceSucceeds(cfg, q.after, map[HOME.Key() := Published(HOME, 1)], THREE_HOME, 2);
  }
}
