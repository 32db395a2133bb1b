/** Reaping in terms of what the API answers about the claims: whose record is reaped, and whose never. */
module Orphans {
  import opened Reaper

  /** The record says which claim it was made for. */
  predicate Traceable(item: Item) { item.claimNamespace != "" && item.claimName != "" }

  /** Its claim is gone: not found, or found under another UID than the one recorded, if one is. */
  predicate Orphan(p: Pass, item: Item) {
    && Traceable(item)
    && var answer := p.claims(item);
       answer.NotFound? || (answer.Found? && item.claimUID != "" && answer.uid != item.claimUID)
  }

  predicate Unanswered(p: Pass, item: Item) { Traceable(item) && p.claims(item).LookupFailed? }

  /** It has been known as an orphan for the grace period. */
  predicate Due(grace: int, p: Pass, orphans: map<string, int>, item: Item) {
    Orphan(p, item) && item.key in orphans && p.clock(item) - orphans[item.key] >= grace
  }

  predicate Lists(p: Pass, item: Item) { p.listing.Items? && item in p.listing.items }

  lemma VerdictIs(p: Pass, item: Item)
    ensures (Judge(p, item).Gone? <==> Orphan(p, item)) && (Judge(p, item).Unknown? <==> Unanswered(p, item))
  {
  }

  // ---------------------------------------------------------------- one pass

  /** What a sweep does about an item it gets to. An orphan seen before is reaped once its grace is over; it is
    * remembered, since it was first seen, until a reap of it succeeds. */
  lemma {:induction false} SweepDecides(grace: int, p: Pass, items: seq<Item>, orphans: map<string, int>, i: nat)
    requires UniqueKeys(items) && i < Visited(grace, p, items, orphans)
    ensures var s, item := SweepItems(grace, p, items, orphans), items[i];
            var key, now := item.key, p.clock(item);
            var due := Due(grace, p, orphans, item);
            && (forall r :: r in s.reaped && r.key == key ==> due && r.at == now)
            && (due ==> Reap(key, now) in s.reaped)
            && (key in s.orphans <==> if Orphan(p, item) then !(due && p.reaps(item))
                                      else Unanswered(p, item) && key in orphans)
            && (key in s.orphans ==> s.orphans[key] == if key in orphans then orphans[key] else now)
    decreases |items|
  {
    var init, last := items[..|items| - 1], items[|items| - 1];
    VerdictIs(p, items[i]);
    if i < |init| {
      if SweepItems(grace, p, init, orphans).ok { VisitsAll(grace, p, init, orphans); }
      SweepDecides(grace, p, init, orphans, i);
      assert init[i] == items[i];
      VisitIsLocal(grace, p, last, SweepItems(grace, p, init, orphans));
    } else {
      KeyUntouched(grace, p, init, orphans, last.key);
    }
  }

  /** Its claim is answered for, and if it is due, reaping it goes through. */
  predicate GoesWell(grace: int, p: Pass, orphans: map<string, int>, item: Item) {
    !Unanswered(p, item) && (Due(grace, p, orphans, item) ==> p.reaps(item))
  }

  /** A sweep succeeds exactly if all items go well. */
  lemma {:induction false} SweepSucceeds(grace: int, p: Pass, items: seq<Item>, orphans: map<string, int>)
    requires UniqueKeys(items)
    ensures SweepItems(grace, p, items, orphans).ok <==>
              forall item :: item in items ==> GoesWell(grace, p, orphans, item)
    decreases |items|
  {
    if items != [] {
      var init, last := items[..|items| - 1], items[|items| - 1];
      SweepSucceeds(grace, p, init, orphans);
      VerdictIs(p, last);
      KeyUntouched(grace, p, init, orphans, last.key);
      assert SweepItems(grace, p, items, orphans).ok <==>
        SweepItems(grace, p, init, orphans).ok && GoesWell(grace, p, orphans, last);
      assert items == init + [last];
    }
  }

  /** A pass succeeds exactly if the records can be listed, or are not installed, and all that are listed go well. */
  lemma PassSucceeds(grace: int, p: Pass, orphans: map<string, int>)
    requires p.listing.Items? ==> UniqueKeys(p.listing.items)
    ensures RunPass(grace, p, orphans).ok <==>
              !p.listing.ListFailed? && forall item :: Lists(p, item) ==> GoesWell(grace, p, orphans, item)
  {
    if p.listing.Items? { SweepSucceeds(grace, p, p.listing.items, orphans); }
  }

  /** A sweep gets to an item exactly if all before it go well. */
  lemma {:induction false} GetsToExactly(grace: int, p: Pass, items: seq<Item>, orphans: map<string, int>, i: nat)
    requires UniqueKeys(items) && i < |items|
    ensures i < Visited(grace, p, items, orphans) <==> forall k :: 0 <= k < i ==> GoesWell(grace, p, orphans, items[k])
    decreases |items|
  {
    var n := |items| - 1;
    SweepSucceeds(grace, p, items[..n], orphans);
    assert forall k :: 0 <= k < n ==> items[..n][k] == items[k] && items[k] in items[..n];
    if i < n { GetsToExactly(grace, p, items[..n], orphans, i); }
  }

  /** What a sweep does not get to it leaves alone. */
  lemma {:induction false} SweepIsVisited(grace: int, p: Pass, items: seq<Item>, orphans: map<string, int>)
    ensures SweepItems(grace, p, items, orphans) ==
              SweepItems(grace, p, items[..Visited(grace, p, items, orphans)], orphans)
    decreases |items|
  {
    if items != [] {
      var init := items[..|items| - 1];
      if SweepItems(grace, p, init, orphans).ok {
        assert items[..|items|] == items;
      } else {
        SweepIsVisited(grace, p, init, orphans);
        assert items[..Visited(grace, p, items, orphans)] == init[..Visited(grace, p, init, orphans)];
      }
    }
  }

  lemma UnvisitedIsKept(grace: int, p: Pass, items: seq<Item>, orphans: map<string, int>, key: string)
    requires forall i :: 0 <= i < Visited(grace, p, items, orphans) ==> items[i].key != key
    ensures var s := SweepItems(grace, p, items, orphans);
            && (key in s.orphans <==> key in orphans) && (key in orphans ==> s.orphans[key] == orphans[key])
            && forall r :: r in s.reaped ==> r.key != key
  {
    var visited := items[..Visited(grace, p, items, orphans)];
    SweepIsVisited(grace, p, items, orphans);
    assert forall item :: item in visited ==> item.key != key;
    KeyUntouched(grace, p, visited, orphans, key);
  }

  // ---------------------------------------------------------------- runs of passes

  /** Pass j gets to this item. */
  ghost predicate Reaches(grace: int, passes: seq<Pass>, j: nat, item: Item)
    requires j < |passes|
  {
    && passes[j].listing.Items?
    && var items := passes[j].listing.items;
       exists i :: 0 <= i < Visited(grace, passes[j], items, Remembered(grace, passes[..j])) && items[i] == item
  }

  /** Pass j finds the record an orphan, at this time. */
  ghost predicate Shows(grace: int, passes: seq<Pass>, j: nat, key: string, at: int)
    requires j < |passes|
  {
    exists item :: Reaches(grace, passes, j, item) && item.key == key && Orphan(passes[j], item)
                   && passes[j].clock(item) == at
  }

  /** Pass j settles the record: it succeeds and does not list it, or it finds its claim, or reaps it. */
  ghost predicate Settles(grace: int, passes: seq<Pass>, j: nat, key: string)
    requires j < |passes|
  {
    var p, s := passes[j], Outcome(grace, passes, j);
    || (p.listing.Items? && s.ok && forall item :: Lists(p, item) ==> item.key != key)
    || exists item :: Reaches(grace, passes, j, item) && item.key == key && SettlesItem(p, s, item)
  }

  predicate SettlesItem(p: Pass, s: Sweep, item: Item) {
    || (!Orphan(p, item) && !Unanswered(p, item))
    || (Reap(item.key, p.clock(item)) in s.reaped && p.reaps(item))
  }

  /** No pass before m showed the record since one last settled it, or since the process started. */
  ghost predicate Fresh(grace: int, passes: seq<Pass>, m: nat, key: string)
    requires m <= |passes|
  {
    exists l: nat :: l <= m && FreshSince(grace, passes, l, m, key)
  }

  ghost predicate FreshSince(grace: int, passes: seq<Pass>, l: nat, m: nat, key: string)
    requires l <= m <= |passes|
  {
    && (l > 0 ==> Settles(grace, passes, l - 1, key))
    && forall k, t :: l <= k < m ==> !Shows(grace, passes, k, key, t)
  }

  /** Pass m was the first to show the record, at this time, and no pass before n has settled it. */
  ghost predicate Since(grace: int, passes: seq<Pass>, m: nat, n: nat, key: string, at: int)
    requires m < n <= |passes|
  {
    && Fresh(grace, passes, m, key) && Shows(grace, passes, m, key, at)
    && forall j :: m <= j < n ==> !Settles(grace, passes, j, key)
  }

  lemma ReachedIsDecided(grace: int, passes: seq<Pass>, j: nat, item: Item)
    requires j < |passes| && WellListed(passes) && Reaches(grace, passes, j, item)
    ensures var p, before, s, key := passes[j], Remembered(grace, passes[..j]), Outcome(grace, passes, j), item.key;
            var now := p.clock(item);
            var due := Due(grace, p, before, item);
            && (forall r :: r in s.reaped && r.key == key ==> due && r.at == now)
            && (due ==> Reap(key, now) in s.reaped)
            && (key in s.orphans <==> if Orphan(p, item) then !(due && p.reaps(item))
                                      else Unanswered(p, item) && key in before)
            && (key in s.orphans ==> s.orphans[key] == if key in before then before[key] else now)
  {
    var p := passes[j];
    assert p in passes;
    var i :| 0 <= i < Visited(grace, p, p.listing.items, Remembered(grace, passes[..j])) && p.listing.items[i] == item;
    SweepDecides(grace, p, p.listing.items, Remembered(grace, passes[..j]), i);
    assert item.key in Keys(p.listing.items);
  }

  lemma OnlyOneReached(grace: int, passes: seq<Pass>, j: nat, a: Item, b: Item)
    requires j < |passes| && WellListed(passes) && Reaches(grace, passes, j, a) && Reaches(grace, passes, j, b)
    requires a.key == b.key
    ensures a == b
  {
    assert passes[j] in passes;
  }

  lemma UnreachedIsKept(grace: int, passes: seq<Pass>, j: nat, key: string)
    requires j < |passes| && WellListed(passes)
    requires forall item :: Reaches(grace, passes, j, item) ==> item.key != key
    ensures var before, s := Remembered(grace, passes[..j]), Outcome(grace, passes, j);
            && (forall r :: r in s.reaped ==> r.key != key)
            && (key in s.orphans <==> key in before && !Settles(grace, passes, j, key))
            && (key in s.orphans ==> s.orphans[key] == before[key])
  {
    var p, before := passes[j], Remembered(grace, passes[..j]);
    assert p in passes;
    if p.listing.Items? {
      var items := p.listing.items;
      forall i | 0 <= i < Visited(grace, p, items, before) ensures items[i].key != key {
        assert Reaches(grace, passes, j, items[i]);
      }
      UnvisitedIsKept(grace, p, items, before, key);
      if Outcome(grace, passes, j).ok {
        VisitsAll(grace, p, items, before);
        forall item | Lists(p, item) ensures item.key != key {
          var i :| 0 <= i < |items| && items[i] == item;
        }
      }
    }
  }

  /** What one pass makes of what was remembered of a record. */
  lemma PassRemembers(grace: int, passes: seq<Pass>, j: nat, key: string)
    requires j < |passes| && WellListed(passes)
    ensures var before, s := Remembered(grace, passes[..j]), Outcome(grace, passes, j);
            && (key in s.orphans <==> && !Settles(grace, passes, j, key)
                                      && (key in before || exists t :: Shows(grace, passes, j, key, t)))
            && (key in s.orphans ==>
                  if key in before then s.orphans[key] == before[key] else Shows(grace, passes, j, key, s.orphans[key]))
            && (forall t :: Reap(key, t) in s.reaped <==>
                  Shows(grace, passes, j, key, t) && key in before && t - before[key] >= grace)
  {
    if item :| Reaches(grace, passes, j, item) && item.key == key {
      ReachedIsDecided(grace, passes, j, item);
      ReachedIsAll(grace, passes, j, item);
      assert Orphan(passes[j], item) ==> Shows(grace, passes, j, key, passes[j].clock(item));
    } else {
      UnreachedIsKept(grace, passes, j, key);
    }
  }

  /** A record's only item decides whether it is shown and settled. */
  lemma ReachedIsAll(grace: int, passes: seq<Pass>, j: nat, item: Item)
    requires j < |passes| && WellListed(passes) && Reaches(grace, passes, j, item)
    ensures forall t :: Shows(grace, passes, j, item.key, t) <==>
              Orphan(passes[j], item) && passes[j].clock(item) == t
    ensures Settles(grace, passes, j, item.key) <==> SettlesItem(passes[j], Outcome(grace, passes, j), item)
  {
    forall other | Reaches(grace, passes, j, other) && other.key == item.key ensures other == item {
      OnlyOneReached(grace, passes, j, item, other);
    }
    assert Lists(passes[j], item);
  }

  lemma {:induction false} FreshIsForgotten(grace: int, passes: seq<Pass>, l: nat, m: nat, key: string)
    requires l <= m <= |passes| && WellListed(passes) && FreshSince(grace, passes, l, m, key)
    ensures key !in Remembered(grace, passes[..m])
    decreases m
  {
    if m > 0 {
      PassRemembers(grace, passes, m - 1, key);
      RememberedAfter(grace, passes, m - 1);
      assert m - 1 + 1 == m;
      if l < m { FreshIsForgotten(grace, passes, l, m - 1, key); }
    }
  }

  lemma {:induction false} ForgottenIsFresh(grace: int, passes: seq<Pass>, m: nat, key: string) returns (l: nat)
    requires m <= |passes| && WellListed(passes) && key !in Remembered(grace, passes[..m])
    ensures l <= m && FreshSince(grace, passes, l, m, key)
    decreases m
  {
    l := m;
    if m > 0 {
      PassRemembers(grace, passes, m - 1, key);
      RememberedAfter(grace, passes, m - 1);
      assert m - 1 + 1 == m;
      if !Settles(grace, passes, m - 1, key) { l := ForgottenIsFresh(grace, passes, m - 1, key); }
    }
  }

  lemma {:induction false} RememberedIsSince(grace: int, passes: seq<Pass>, n: nat, key: string) returns (m: nat)
    requires n <= |passes| && WellListed(passes) && key in Remembered(grace, passes[..n])
    ensures m < n && Since(grace, passes, m, n, key, Remembered(grace, passes[..n])[key])
    decreases n
  {
    PassRemembers(grace, passes, n - 1, key);
    RememberedAfter(grace, passes, n - 1);
    assert n - 1 + 1 == n;
    if key in Remembered(grace, passes[..n - 1]) {
      m := RememberedIsSince(grace, passes, n - 1, key);
      StillSince(grace, passes, m, n - 1, key, Remembered(grace, passes[..n])[key]);
    } else {
      m := n - 1;
      var l := ForgottenIsFresh(grace, passes, m, key);
      assert Fresh(grace, passes, m, key);
    }
  }

  lemma StillSince(grace: int, passes: seq<Pass>, m: nat, n: nat, key: string, at: int)
    requires m < n < |passes| && Since(grace, passes, m, n, key, at) && !Settles(grace, passes, n, key)
    ensures Since(grace, passes, m, n + 1, key, at)
  {
  }

  lemma {:induction false} SinceIsRemembered(grace: int, passes: seq<Pass>, m: nat, n: nat, key: string, at: int)
    requires m < n <= |passes| && WellListed(passes) && Since(grace, passes, m, n, key, at)
    ensures key in Remembered(grace, passes[..n]) && Remembered(grace, passes[..n])[key] == at
    decreases n
  {
    PassRemembers(grace, passes, n - 1, key);
    RememberedAfter(grace, passes, n - 1);
    assert n - 1 + 1 == n;
    if m < n - 1 {
      SinceIsRemembered(grace, passes, m, n - 1, key, at);
    } else {
      var l: nat :| l <= m && FreshSince(grace, passes, l, m, key);
      FreshIsForgotten(grace, passes, l, m, key);
      ShownOnce(grace, passes, m, key, at, Outcome(grace, passes, m).orphans[key]);
    }
  }

  lemma ShownOnce(grace: int, passes: seq<Pass>, j: nat, key: string, a: int, b: int)
    requires j < |passes| && WellListed(passes) && Shows(grace, passes, j, key, a) && Shows(grace, passes, j, key, b)
    ensures a == b
  {
    var item :| Reaches(grace, passes, j, item) && item.key == key && Orphan(passes[j], item)
              && passes[j].clock(item) == a;
    ReachedIsAll(grace, passes, j, item);
  }

  /** Over any passes, with any listings, answers, clocks and errors: a pass reaps a record exactly if it finds it an
    * orphan, and so did an earlier pass, the first to since the record was last settled, the grace period before. */
  lemma ReapsExactly(grace: int, passes: seq<Pass>, n: nat, key: string, at: int)
    requires n < |passes| && WellListed(passes)
    ensures Reap(key, at) in Outcome(grace, passes, n).reaped <==>
              && Shows(grace, passes, n, key, at)
              && exists m: nat, first :: m < n && Since(grace, passes, m, n, key, first) && at - first >= grace
  {
    PassRemembers(grace, passes, n, key);
    if key in Remembered(grace, passes[..n]) {
      var m := RememberedIsSince(grace, passes, n, key);
    }
    forall m: nat, first | m < n && Since(grace, passes, m, n, key, first)
      ensures key in Remembered(grace, passes[..n]) && Remembered(grace, passes[..n])[key] == first
    {
      SinceIsRemembered(grace, passes, m, n, key, first);
    }
  }

  /** A record whose claim every pass finds under the UID recorded is never reaped, whatever else happens. */
  lemma ALiveClaimIsNeverReaped(grace: int, passes: seq<Pass>, key: string)
    requires WellListed(passes)
    requires forall p, item :: p in passes && Lists(p, item) && item.key == key ==>
               p.claims(item) == Found(item.claimUID)
    ensures forall n, r :: 0 <= n < |passes| && r in Outcome(grace, passes, n).reaped ==> r.key != key
  {
    forall n, r | 0 <= n < |passes| && r in Outcome(grace, passes, n).reaped ensures r.key != key {
      ReapsExactly(grace, passes, n, r.key, r.at);
      var item :| Reaches(grace, passes, n, item) && item.key == r.key && Orphan(passes[n], item);
      assert Lists(passes[n], item) && passes[n] in passes;
    }
  }
}
