/** The operator's reaping passes over ThunderClients whose ResourceClaim is gone: when a pass may revoke,
  * and by when it must. What one reap does to the API objects is part of module Lifecycle. */
module Reaper {

  datatype Item = Item(key: string, claimNamespace: string, claimName: string, claimUID: string)

  datatype Lookup = Found(uid: string) | NotFound | LookupFailed
  datatype Verdict = Alive | Gone | Unknown
  datatype Listing = Items(items: seq<Item>) | NotInstalled | ListFailed

  /** What one pass meets: the listing, and for each item the answer about its claim, the clock when the
    * item is visited, and whether reaping it would succeed. */
  datatype Pass = Pass(listing: Listing, claims: Item -> Lookup, clock: Item -> int, reaps: Item -> bool)

  /** A revocation: the key and when. */
  datatype Reap = Reap(key: string, at: int)

  /** claimIsAlive: a claim recreated under the same name is a different claim. */
  function ClaimIsAlive(item: Item, lookup: Lookup): Verdict {
    if item.claimNamespace == "" || item.claimName == "" then Alive
    else
      match lookup
      case NotFound => Gone
      case LookupFailed => Unknown
      case Found(uid) => if item.claimUID != "" && uid != item.claimUID then Gone else Alive
  }

  function Judge(p: Pass, item: Item): Verdict { ClaimIsAlive(item, p.claims(item)) }

  datatype Sweep = Sweep(orphans: map<string, int>, reaped: seq<Reap>, ok: bool)

  function Visit(grace: int, p: Pass, item: Item, s: Sweep): Sweep {
    match Judge(p, item)
    case Unknown => s.(ok := false)
    case Alive => s.(orphans := s.orphans - {item.key})
    case Gone =>
      var now := p.clock(item);
      if item.key !in s.orphans then s.(orphans := s.orphans[item.key := now])
      else if now - s.orphans[item.key] < grace then s
      else
        var t := s.(reaped := s.reaped + [Reap(item.key, now)]);
        if p.reaps(item) then t.(orphans := t.orphans - {item.key}) else t.(ok := false)
  }

  /** Visit the items in order; the first error ends the sweep. */
  function SweepItems(grace: int, p: Pass, items: seq<Item>, orphans: map<string, int>): Sweep {
    if items == [] then Sweep(orphans, [], true)
    else
      var s := SweepItems(grace, p, items[..|items| - 1], orphans);
      if s.ok then Visit(grace, p, items[|items| - 1], s) else s
  }

  function Keys(items: seq<Item>): set<string> { set item | item in items :: item.key }

  function RunPass(grace: int, p: Pass, orphans: map<string, int>): Sweep {
    match p.listing
    case NotInstalled => Sweep(orphans, [], true)
    case ListFailed => Sweep(orphans, [], false)
    case Items(items) =>
      var s := SweepItems(grace, p, items, orphans);
      if s.ok then s.(orphans := map k | k in s.orphans && k in Keys(items) :: s.orphans[k]) else s
  }

  class Operator {
    const grace: int
    var orphans: map<string, int>

    constructor (grace: int)
      ensures this.grace == grace && orphans == map[]
    {
      this.grace, orphans := grace, map[];
    }

    method ReapOrphanedClients(p: Pass) returns (ok: bool, reaped: seq<Reap>)
      modifies this
      ensures Sweep(orphans, reaped, ok) == RunPass(grace, p, old(orphans))
    {
      reaped := [];
      if p.listing.ListFailed? || p.listing.NotInstalled? {
        return p.listing.NotInstalled?, [];
      }
      var items := p.listing.items;
      var seen: set<string> := {};
      for i := 0 to |items|
        invariant seen == Keys(items[..i])
        invariant Sweep(orphans, reaped, true) == SweepItems(grace, p, items[..i], old(orphans))
      {
        var item := items[i];
        assert items[..i + 1][..i] == items[..i];
        SweepStops(grace, p, items, old(orphans), i + 1);
        seen := seen + {item.key};
        match Judge(p, item) {
          case Unknown => return false, reaped;
          case Alive => orphans := orphans - {item.key};
          case Gone =>
            var now := p.clock(item);
            if item.key !in orphans {
              orphans := orphans[item.key := now];
            } else if now - orphans[item.key] >= grace {
              reaped := reaped + [Reap(item.key, now)];
              if !p.reaps(item) {
                return false, reaped;
              }
              orphans := orphans - {item.key};
            }
        }
      }
      assert items[..|items|] == items;
      Forget(seen);
      ok := true;
    }

    /** Forget the orphans whose object is no longer listed. */
    method Forget(seen: set<string>)
      modifies this
      ensures orphans == map k | k in old(orphans) && k in seen :: old(orphans)[k]
    {
      var rest := orphans.Keys;
      while rest != {}
        invariant rest <= old(orphans).Keys
        invariant orphans == map k | k in old(orphans) && (k in rest || k in seen) :: old(orphans)[k]
      {
        var key :| key in rest;
        if key !in seen {
          orphans := orphans - {key};
        }
        rest := rest - {key};
      }
    }
  }

  lemma {:induction false} SweepStops(grace: int, p: Pass, items: seq<Item>, orphans: map<string, int>, n: nat)
    requires n <= |items|
    ensures !SweepItems(grace, p, items[..n], orphans).ok ==>
              SweepItems(grace, p, items, orphans) == SweepItems(grace, p, items[..n], orphans)
    decreases |items|
  {
    if n < |items| {
      var init := items[..|items| - 1];
      SweepStops(grace, p, init, orphans, n);
      assert init[..n] == items[..n];
    } else {
      assert items[..n] == items;
    }
  }

  // ---------------------------------------------------------------- one pass

  ghost predicate UniqueKeys(items: seq<Item>) {
    forall i, j :: 0 <= i < j < |items| ==> items[i].key != items[j].key
  }

  /** The items a sweep gets to: all up to the first error. */
  function Visited(grace: int, p: Pass, items: seq<Item>, orphans: map<string, int>): (n: nat)
    ensures n <= |items|
  {
    if items == [] then 0
    else if SweepItems(grace, p, items[..|items| - 1], orphans).ok then |items|
    else Visited(grace, p, items[..|items| - 1], orphans)
  }

  lemma VisitsAll(grace: int, p: Pass, items: seq<Item>, orphans: map<string, int>)
    requires SweepItems(grace, p, items, orphans).ok
    ensures Visited(grace, p, items, orphans) == |items|
  {
  }

  lemma {:induction false} KeyUntouched(grace: int, p: Pass, items: seq<Item>, orphans: map<string, int>, key: string)
    requires key !in Keys(items)
    ensures var s := SweepItems(grace, p, items, orphans);
            && (key in s.orphans <==> key in orphans) && (key in orphans ==> s.orphans[key] == orphans[key])
            && forall r :: r in s.reaped ==> r.key != key
    decreases |items|
  {
    if items != [] {
      assert items[|items| - 1] in items;
      KeyUntouched(grace, p, items[..|items| - 1], orphans, key);
    }
  }

  lemma VisitIsLocal(grace: int, p: Pass, last: Item, s: Sweep)
    ensures var t := Visit(grace, p, last, s);
            && (forall k :: k in t.orphans && k != last.key ==> k in s.orphans && t.orphans[k] == s.orphans[k])
            && (forall r :: r in t.reaped ==> r in s.reaped || r == Reap(last.key, p.clock(last)))
  {
  }

  // ---------------------------------------------------------------- runs of passes

  /** The orphans the operator remembers after some passes; it starts with none, also after a restart. */
  function Remembered(grace: int, passes: seq<Pass>): map<string, int> {
    if passes == [] then map[]
    else RunPass(grace, passes[|passes| - 1], Remembered(grace, passes[..|passes| - 1])).orphans
  }

  function Outcome(grace: int, passes: seq<Pass>, n: nat): Sweep
    requires n < |passes|
  {
    RunPass(grace, passes[n], Remembered(grace, passes[..n]))
  }

  ghost predicate WellListed(passes: seq<Pass>) {
    forall p :: p in passes && p.listing.Items? ==> UniqueKeys(p.listing.items)
  }

  lemma RememberedAfter(grace: int, passes: seq<Pass>, n: nat)
    requires n < |passes|
    ensures Remembered(grace, passes[..n + 1]) == Outcome(grace, passes, n).orphans
  {
    assert passes[..n + 1][..n] == passes[..n];
  }
}
