/** The slices the operator finds in the cluster, grouped by pool and sorted by name. */
module Listing {
  import opened Text
  import opened Wrappers
  import opened Names
  import opened Slices

  /** The ResourceSlices the API server holds, by name. */
  type Store = map<string, Slice>

  predicate Keyed(store: Store) { forall n :: n in store ==> store[n].name == n }

  /** What the list's label and field selectors let through. */
  predicate Selected(cfg: Config, s: Slice) {
    s.labels.app == APP && s.labels.component == COMPONENT && s.spec.driver == cfg.driver
  }

  /** The pool a slice is taken to belong to, if the operator takes it as its own at all. */
  function PoolOf(cfg: Config, s: Slice): Option<PoolKey> { if Selected(cfg, s) then KeyOf(s) else None }

  /** The operator's own slices, by their fields: both its labels, its driver, and a pool named zone/type. */
  ghost predicate Own(cfg: Config, s: Slice) {
    && s.labels.app == "thunder-dra-driver" && s.labels.component == "resource-inventory"
    && s.spec.driver == cfg.driver && exists key :: IsNameOf(s.spec.pool, key)
  }

  lemma OwnExactly(cfg: Config, s: Slice)
    ensures PoolOf(cfg, s).Some? <==> Own(cfg, s)
    ensures forall key :: PoolOf(cfg, s) == Some(key) ==> IsNameOf(s.spec.pool, key)
  {
    forall key ensures KeyOfPool(s.spec.pool) == Some(key) <==> IsNameOf(s.spec.pool, key) {
      KeysAreRead(s.spec.pool, key);
    }
    if KeyOf(s).Some? { assert IsNameOf(s.spec.pool, KeyOf(s).value); }
  }

  // ---------------------------------------------------------------- sorting by name

  predicate Ascending(names: seq<string>) { forall i, j :: 0 <= i < j < |names| ==> Before(names[i], names[j]) }

  function NamesOf(slices: seq<Slice>): (names: seq<string>)
    ensures |names| == |slices|
  {
    seq(|slices|, i requires 0 <= i < |slices| => slices[i].name)
  }

  predicate Sorted(slices: seq<Slice>) { Ascending(NamesOf(slices)) }

  predicate IsLeast(m: string, names: set<string>) { m in names && forall n :: n in names ==> n == m || Before(m, n) }

  lemma {:induction false} LeastExists(names: set<string>)
    requires names != {}
    ensures exists m :: IsLeast(m, names)
    decreases |names|
  {
    var x :| x in names;
    var rest := names - {x};
    if rest == {} {
      assert IsLeast(x, names) by { assert forall n :: n in names ==> n == x || n in rest; }
    } else {
      LeastExists(rest);
      var m :| IsLeast(m, rest);
      LesserIsLeast(x, m, names);
    }
  }

  lemma LesserIsLeast(x: string, m: string, names: set<string>)
    requires x in names && IsLeast(m, names - {x})
    ensures IsLeast(if Before(x, m) then x else m, names)
  {
    BeforeIsTotal(x, m);
    if Before(x, m) {
      forall n | n in names - {x} ensures Before(x, n) {
        if n != m { BeforeIsTransitive(x, m, n); }
      }
      assert forall n :: n in names ==> n == x || n in names - {x};
    } else {
      assert forall n :: n in names ==> n == x || n in names - {x};
    }
  }

  /** The names in order. */
  ghost function InOrder(names: set<string>): (r: seq<string>)
    ensures forall i :: 0 <= i < |r| ==> r[i] in names
  {
    if names == {} then []
    else
      LeastExists(names);
      var m :| IsLeast(m, names);
      [m] + InOrder(names - {m})
  }

  lemma {:induction false} InOrderSorts(names: set<string>)
    ensures forall n :: n in InOrder(names) <==> n in names
    ensures Ascending(InOrder(names))
  {
    if names != {} {
      var r := InOrder(names);
      LeastExists(names);
      assert IsLeast(r[0], names);
      InOrderSorts(names - {r[0]});
      assert r == [r[0]] + InOrder(names - {r[0]});
      forall i, j | 0 <= i < j < |r| ensures Before(r[i], r[j]) {
        assert r[j] == InOrder(names - {r[0]})[j - 1];
        if i > 0 { assert r[i] == InOrder(names - {r[0]})[i - 1]; }
      }
    }
  }

  lemma HasElement(a: seq<string>)
    ensures a == [] || exists n :: n in a
  {
    if a != [] { assert a[0] in a; }
  }

  /** There is only one way to sort. */
  lemma {:induction false} SortingIsUnique(a: seq<string>, b: seq<string>)
    requires Ascending(a) && Ascending(b) && forall n :: n in a <==> n in b
    ensures a == b
  {
    if a == [] {
      HasElement(b);
    } else {
      assert a[0] in b;
      assert b != [] && b[0] in a;
      FirstIsFirst(a, b);
      forall n ensures n in a[1..] <==> n in b[1..] {
        RestHas(a, n);
        RestHas(b, n);
      }
      SortingIsUnique(a[1..], b[1..]);
      assert a == [a[0]] + a[1..] && b == [b[0]] + b[1..];
    }
  }

  lemma FirstIsFirst(a: seq<string>, b: seq<string>)
    requires a != [] && b != [] && Ascending(a) && Ascending(b) && a[0] in b && b[0] in a
    ensures a[0] == b[0]
  {
    if a[0] != b[0] {
      assert Before(a[0], b[0]) && Before(b[0], a[0]);
      BeforeIsAsymmetric(a[0], b[0]);
    }
  }

  lemma RestHas(a: seq<string>, n: string)
    requires a != [] && Ascending(a)
    ensures n in a[1..] <==> n in a && n != a[0]
  {
    if n in a[1..] {
      var i :| 0 <= i < |a[1..]| && a[1..][i] == n;
      assert Before(a[0], a[i + 1]);
      BeforeIsAsymmetric(a[0], n);
    }
  }

  /** sort.Slice by name, as insertion. */
  method SortByName(slices: seq<Slice>) returns (sorted: seq<Slice>)
    requires forall i, j :: 0 <= i < j < |slices| ==> slices[i].name != slices[j].name
    ensures multiset(sorted) == multiset(slices) && Sorted(sorted)
  {
    sorted := [];
    for i := 0 to |slices|
      invariant multiset(sorted) == multiset(slices[..i]) && Sorted(sorted)
    {
      assert slices[..i + 1] == slices[..i] + [slices[i]];
      forall s | s in sorted ensures s.name != slices[i].name {
        assert s in multiset(slices[..i]);
        var j :| 0 <= j < i && slices[j] == s;
      }
      sorted := Insert(slices[i], sorted);
    }
    assert slices[..|slices|] == slices;
  }

  method Insert(s: Slice, slices: seq<Slice>) returns (r: seq<Slice>)
    requires Sorted(slices) && forall t :: t in slices ==> t.name != s.name
    ensures multiset(r) == multiset([s] + slices) && Sorted(r)
  {
    var i := 0;
    while i < |slices| && Before(slices[i].name, s.name)
      invariant 0 <= i <= |slices|
      invariant forall j :: 0 <= j < i ==> Before(slices[j].name, s.name)
    {
      i := i + 1;
    }
    r := slices[..i] + [s] + slices[i..];
    assert slices == slices[..i] + slices[i..];
    InsertedIsSorted(s, slices, i);
  }

  lemma InsertedIsSorted(s: Slice, slices: seq<Slice>, i: nat)
    requires Sorted(slices) && i <= |slices| && (forall t :: t in slices ==> t.name != s.name)
    requires forall j :: 0 <= j < i ==> Before(slices[j].name, s.name)
    requires i < |slices| ==> !Before(slices[i].name, s.name)
    ensures Sorted(slices[..i] + [s] + slices[i..])
  {
    var names, r := NamesOf(slices), NamesOf(slices[..i] + [s] + slices[i..]);
    if i < |slices| {
      BeforeIsTotal(names[i], s.name);
      forall j | i < j < |slices| ensures Before(s.name, names[j]) { BeforeIsTransitive(s.name, names[i], names[j]); }
    }
    forall j, k | 0 <= j < k < |r| ensures Before(r[j], r[k]) {
      assert r[j] == if j < i then names[j] else if j == i then s.name else names[j - 1];
      assert r[k] == if k < i then names[k] else if k == i then s.name else names[k - 1];
    }
  }

  // ---------------------------------------------------------------- the pools found

  type Pools = map<PoolKey, seq<Slice>>

  ghost function NamesIn(cfg: Config, store: Store, key: PoolKey): set<string> {
    set n | n in store && PoolOf(cfg, store[n]) == Some(key)
  }

  ghost function Existing(cfg: Config, store: Store): Pools {
    map key | key in PoolKeys(cfg, store) :: Members(cfg, store, key)
  }

  ghost function PoolKeys(cfg: Config, store: Store): set<PoolKey> {
    set n | n in store && PoolOf(cfg, store[n]).Some? :: PoolOf(cfg, store[n]).value
  }

  ghost function Members(cfg: Config, store: Store, key: PoolKey): seq<Slice> {
    var names := InOrder(NamesIn(cfg, store, key));
    seq(|names|, i requires 0 <= i < |names| => store[names[i]])
  }

  /** The slices of no pool the operator knows. */
  ghost function Foreign(cfg: Config, store: Store): Store {
    map n | n in store && PoolOf(cfg, store[n]).None? :: store[n]
  }

  lemma MembersAre(cfg: Config, store: Store, key: PoolKey)
    requires Keyed(store)
    ensures Sorted(Members(cfg, store, key))
    ensures forall s :: s in Members(cfg, store, key) <==>
                          s.name in store && store[s.name] == s && PoolOf(cfg, s) == Some(key)
  {
    var names, members := InOrder(NamesIn(cfg, store, key)), Members(cfg, store, key);
    InOrderSorts(NamesIn(cfg, store, key));
    assert forall i :: 0 <= i < |names| ==> members[i].name == names[i];
    assert NamesOf(members) == names;
    forall s: Slice | s.name in store && store[s.name] == s && PoolOf(cfg, s) == Some(key) ensures s in members {
      assert s.name in names;
      var i :| 0 <= i < |names| && names[i] == s.name;
      assert members[i] == s;
    }
  }

  /** However the slices of a pool were collected, sorting them gives the same list. */
  lemma MembersOnly(cfg: Config, store: Store, key: PoolKey, slices: seq<Slice>)
    requires Keyed(store) && Sorted(slices)
    requires forall s :: s in slices <==> s.name in store && store[s.name] == s && PoolOf(cfg, s) == Some(key)
    ensures slices == Members(cfg, store, key)
  {
    var members := Members(cfg, store, key);
    MembersAre(cfg, store, key);
    SameNames(slices, members);
    SameNames(members, slices);
    SortingIsUnique(NamesOf(slices), NamesOf(members));
    forall i | 0 <= i < |slices| ensures slices[i] == members[i] {
      assert NamesOf(slices)[i] == NamesOf(members)[i];
      assert slices[i] in slices && members[i] in members;
    }
  }

  lemma SameNames(a: seq<Slice>, b: seq<Slice>)
    requires forall s :: s in a ==> s in b
    ensures forall n :: n in NamesOf(a) ==> n in NamesOf(b)
  {
    forall n | n in NamesOf(a) ensures n in NamesOf(b) {
      var i :| 0 <= i < |a| && NamesOf(a)[i] == n;
      assert a[i] in b;
      var j :| 0 <= j < |b| && b[j] == a[i];
      assert NamesOf(b)[j] == n;
    }
  }

  /** Every listed slice is in one pool, as it is in the store; no pool is empty. */
  ghost predicate Partition(pools: Pools, store: Store) {
    && (forall k :: k in pools ==> pools[k] != [] && Sorted(pools[k]))
    && (forall k, s :: k in pools && s in pools[k] ==> s.name in store && store[s.name] == s)
    && (forall k, l, s, t :: k in pools && l in pools && s in pools[k] && t in pools[l] && s.name == t.name ==> k == l)
  }

  lemma ExistingIsPartition(cfg: Config, store: Store)
    requires Keyed(store)
    ensures Partition(Existing(cfg, store), store)
    ensures forall n :: n in store ==>
              (n in Foreign(cfg, store) <==>
               !exists k :: k in Existing(cfg, store) && store[n] in Existing(cfg, store)[k])
  {
    var pools := Existing(cfg, store);
    forall k ensures Sorted(Members(cfg, store, k)) &&
        forall s :: s in Members(cfg, store, k) <==> s.name in store && store[s.name] == s && PoolOf(cfg, s) == Some(k)
    {
      MembersAre(cfg, store, k);
    }
    forall k | k in pools ensures pools[k] != [] {
      var n :| n in store && PoolOf(cfg, store[n]) == Some(k);
      assert store[n] in pools[k];
    }
    forall n | n in store && PoolOf(cfg, store[n]).Some? ensures exists k :: k in pools && store[n] in pools[k] {
      var k := PoolOf(cfg, store[n]).value;
      assert k in pools && store[n] in pools[k];
    }
  }
}
