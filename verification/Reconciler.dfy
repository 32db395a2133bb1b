/** The node repair state machine: `ensureEnrolled` drives four counters against three thresholds,
  * `reconcile` wraps it with zone resolution, and `loop` paces the passes. */
module Reconciler {
  import opened Wrappers

  const UNHEALTHY_THRESHOLD: nat := 3
  const RESTART_LIMIT: nat := 2
  const TRANSITIONAL_THRESHOLD: nat := 30

  /** What one pass finds: the booleans `thunder status` reports (none are meaningful unless `readable`),
    * and how each repair would end if the pass tried it. */
  datatype Check = Check(readable: bool, healthy: bool, enrolled: bool, transitional: bool,
                         restartWorks: bool, enrollWorks: bool)
  {
    predicate Healthy() { readable && healthy }
  }

  datatype Counters = Counters(everHealthy: bool, unhealthy: nat, transitional: nat, restarts: nat)
  {
    predicate Bounded() { transitional <= TRANSITIONAL_THRESHOLD && restarts <= RESTART_LIMIT }

    function Threshold(): nat { if everHealthy then UNHEALTHY_THRESHOLD else 1 }
  }

  const INITIAL := Counters(false, 0, 0, 0)

  /** What a pass did about the node. */
  datatype Deed = Rested | Restarted | Enrolled(afterRestart: bool, completed: bool)
  {
    predicate Repairs() { !Rested? }
    function RestartCount(): nat { if Restarted? || (Enrolled? && afterRestart) then 1 else 0 }
    function Completed(): nat { if Enrolled? && completed then 1 else 0 }
  }

  function Enroll(c: Counters, k: Check, afterRestart: bool): (Counters, Deed) {
    (if k.enrollWorks then Counters(c.everHealthy, 0, 0, 0) else c, Enrolled(afterRestart, k.enrollWorks))
  }

  function Repair(c: Counters, k: Check): (Counters, Deed) {
    if k.readable && k.enrolled && c.restarts < RESTART_LIMIT then
      if k.restartWorks then (Counters(c.everHealthy, 0, 0, c.restarts + 1), Restarted)
      else Enroll(c.(restarts := c.restarts + 1), k, true)
    else Enroll(c, k, false)
  }

  function Pass(c: Counters, k: Check): (Counters, Deed) {
    if k.Healthy() then (Counters(true, 0, 0, 0), Rested)
    else if k.readable && k.transitional && c.transitional < TRANSITIONAL_THRESHOLD then
      (c.(transitional := c.transitional + 1), Rested)
    else if c.unhealthy + 1 < c.Threshold() then (c.(unhealthy := c.unhealthy + 1), Rested)
    else Repair(c.(unhealthy := c.unhealthy + 1), k)
  }

  /** The node attributes a pass reads from the node's labels. */
  datatype Attributes = Attributes(zone: string, advertisedIP: string)

  class Node {
    var resolved: Attributes
    var zoneID: string
    var passes: nat
    var pluginStarted: bool
    var everHealthy: bool
    var unhealthy: nat
    var transitional: nat
    var restarts: nat
    // The zone name whose lookup produced zoneID, and every zone ID an enrollment was asked for.
    ghost var zoneIDNames: string
    ghost var enrolledIn: seq<string>

    ghost function State(): Counters
      reads `everHealthy, `unhealthy, `transitional, `restarts
    {
      Counters(everHealthy, unhealthy, transitional, restarts)
    }

    ghost predicate Valid()
      reads this
    {
      && State().Bounded()
      && (zoneID != "" ==> zoneIDNames == resolved.zone)
    }

    constructor ()
      ensures Valid() && State() == INITIAL && enrolledIn == [] && zoneID == "" && !pluginStarted
    {
      resolved, zoneID, passes, pluginStarted := Attributes("", ""), "", 0, false;
      everHealthy, unhealthy, transitional, restarts := false, 0, 0, 0;
      zoneIDNames, enrolledIn := "", [];
    }

    method EnsureEnrolled(k: Check) returns (ok: bool, deed: Deed)
      requires Valid()
      modifies `everHealthy, `unhealthy, `transitional, `restarts, `enrolledIn
      ensures Valid()
      ensures (State(), deed) == Pass(old(State()), k)
      ensures ok <==> !(deed.Enrolled? && !deed.completed)
      ensures enrolledIn == old(enrolledIn) + (if deed.Enrolled? then [zoneID] else [])
    {
      if k.readable && k.healthy {
        unhealthy, transitional, restarts, everHealthy := 0, 0, 0, true;
        return true, Rested;
      }
      if k.readable && k.transitional && transitional < TRANSITIONAL_THRESHOLD {
        transitional := transitional + 1;
        return true, Rested;
      }
      unhealthy := unhealthy + 1;
      var threshold := 1;
      if everHealthy {
        threshold := UNHEALTHY_THRESHOLD;
      }
      if unhealthy < threshold {
        return true, Rested;
      }
      var restarted := false;
      if k.readable && k.enrolled && restarts < RESTART_LIMIT {
        restarts := restarts + 1;
        restarted := true;
        if k.restartWorks {
          unhealthy, transitional := 0, 0;
          return true, Restarted;
        }
      }
      enrolledIn := enrolledIn + [zoneID];
      if !k.enrollWorks {
        return false, Enrolled(restarted, false);
      }
      restarts, unhealthy, transitional := 0, 0, 0;
      return true, Enrolled(restarted, true);
    }

    /** Take up the labels, and look the zone up if its ID is not known. */
    method Adopt(cfg: Attributes, lookup: Option<string>) returns (attempted: bool)
      requires Valid()
      modifies `resolved, `zoneID, `passes, `zoneIDNames
      ensures Valid() && resolved == cfg
      ensures attempted == (lookup.Some? || (old(zoneID) != "" && old(resolved).zone == cfg.zone))
      ensures attempted && zoneID != "" ==> zoneIDNames == cfg.zone
    {
      if passes == 0 || resolved.zone != cfg.zone || resolved.advertisedIP != cfg.advertisedIP {
        if resolved.zone != cfg.zone {
          zoneID := "";
        }
      }
      resolved := cfg;
      passes := passes + 1;
      if zoneID == "" {
        if lookup.None? {
          return false;
        }
        zoneID := lookup.value;
        zoneIDNames := cfg.zone;
      }
      return true;
    }

    /** One whole pass. However the labels change between passes, an enrollment is only ever asked for
      * in the Thunder zone that was looked up for the zone the node's labels name in this very pass. */
    method Reconcile(labels: Option<Attributes>, lookup: Option<string>, k: Check, pluginStarts: bool)
        returns (ok: bool, deed: Deed)
      requires Valid()
      modifies this
      ensures Valid()
      ensures var attempted := labels.Some?
                                && (lookup.Some? || (old(zoneID) != "" && old(resolved).zone == labels.value.zone));
              var works := attempted && (deed.Enrolled? ==> deed.completed);
              && (State(), deed) == (if attempted then Pass(old(State()), k) else (old(State()), Rested))
              && (attempted && zoneID != "" ==> zoneIDNames == labels.value.zone)
              && pluginStarted == (old(pluginStarted) || (works && pluginStarts))
              && ok == (works && pluginStarted)
      ensures enrolledIn == old(enrolledIn) + (if deed.Enrolled? then [zoneID] else [])
      ensures labels.Some? ==> resolved == labels.value
    {
      if labels.None? {
        return false, Rested;
      }
      var attempted := Adopt(labels.value, lookup);
      if !attempted {
        return false, Rested;
      }
      ok, deed := EnsureEnrolled(k);
      if ok && !pluginStarted {
        pluginStarted := pluginStarts;
        ok := pluginStarts;
      }
    }
  }

  // ---------------------------------------------------------------- runs of ensureEnrolled

  function Run(c: Counters, ks: seq<Check>): Counters
    decreases |ks|
  {
    if ks == [] then c else Run(Pass(c, ks[0]).0, ks[1..])
  }

  function Deeds(c: Counters, ks: seq<Check>): (ds: seq<Deed>)
    ensures |ds| == |ks|
    decreases |ks|
  {
    if ks == [] then [] else [Pass(c, ks[0]).1] + Deeds(Pass(c, ks[0]).0, ks[1..])
  }

  ghost predicate Reachable(c: Counters) { exists ks :: Run(INITIAL, ks) == c }

  lemma {:induction false} RunStaysBounded(c: Counters, ks: seq<Check>)
    requires c.Bounded()
    ensures Run(c, ks).Bounded()
    decreases |ks|
  {
    if ks != [] { RunStaysBounded(Pass(c, ks[0]).0, ks[1..]); }
  }

  /** How many more passes the counters allow before a pass must repair. */
  function Patience(c: Counters): nat
    requires c.Bounded()
  {
    TRANSITIONAL_THRESHOLD - c.transitional +
    if c.unhealthy + 1 < c.Threshold() then c.Threshold() - 1 - c.unhealthy else 0
  }

  ghost predicate NoneHealthy(ks: seq<Check>) { forall i :: 0 <= i < |ks| ==> !ks[i].Healthy() }

  lemma {:induction false} RestingRunIsShort(c: Counters, ks: seq<Check>)
    requires c.Bounded() && NoneHealthy(ks)
    requires forall d :: d in Deeds(c, ks) ==> !d.Repairs()
    ensures |ks| <= Patience(c)
    decreases |ks|
  {
    if ks != [] {
      var next := Pass(c, ks[0]).0;
      assert !ks[0].Healthy();
      assert Deeds(c, ks)[0] in Deeds(c, ks);
      assert Deeds(c, ks)[1..] == Deeds(next, ks[1..]);
      RestingRunIsShort(next, ks[1..]);
    }
  }

  lemma {:induction false} UnenrolledRunIsShort(c: Counters, ks: seq<Check>)
    requires c.Bounded() && NoneHealthy(ks)
    requires forall d :: d in Deeds(c, ks) ==> !d.Enrolled?
    ensures |ks| <= 33 * (RESTART_LIMIT - c.restarts) + Patience(c)
    decreases |ks|
  {
    if ks != [] {
      var next := Pass(c, ks[0]).0;
      assert !ks[0].Healthy();
      assert Deeds(c, ks)[0] in Deeds(c, ks);
      assert Deeds(c, ks)[1..] == Deeds(next, ks[1..]);
      UnenrolledRunIsShort(next, ks[1..]);
    }
  }

  /** A node that stays down is repaired within 33 passes and reinstalled within 99, from any state a
    * run can reach and whatever the passes see. */
  lemma BoundedRepair(c: Counters, ks: seq<Check>)
    requires Reachable(c) && NoneHealthy(ks)
    ensures |ks| >= 33 ==> exists d :: d in Deeds(c, ks) && d.Repairs()
    ensures |ks| >= 99 ==> exists d :: d in Deeds(c, ks) && d.Enrolled?
  {
    var history :| Run(INITIAL, history) == c;
    RunStaysBounded(INITIAL, history);
    if forall d :: d in Deeds(c, ks) ==> !d.Repairs() { RestingRunIsShort(c, ks); }
    if forall d :: d in Deeds(c, ks) ==> !d.Enrolled? { UnenrolledRunIsShort(c, ks); }
  }

  const HEALTHY := Check(true, true, true, false, true, true)
  const STARTING := Check(true, false, true, true, true, true)
  const DOWN := Check(true, false, true, false, true, true)

  function Repeat(k: Check, n: nat): (ks: seq<Check>)
    ensures |ks| == n && forall i :: 0 <= i < n ==> ks[i] == k
  {
    seq(n, _ => k)
  }

  lemma {:induction false} RunConcat(c: Counters, a: seq<Check>, b: seq<Check>)
    ensures Run(c, a + b) == Run(Run(c, a), b)
    ensures Deeds(c, a + b) == Deeds(c, a) + Deeds(Run(c, a), b)
    decreases |a|
  {
    if a == [] {
      assert a + b == b;
    } else {
      assert (a + b)[1..] == a[1..] + b;
      RunConcat(Pass(c, a[0]).0, a[1..], b);
    }
  }

  lemma {:induction false} StartingRun(c: Counters, n: nat)
    requires c.transitional + n <= TRANSITIONAL_THRESHOLD
    ensures Run(c, Repeat(STARTING, n)) == c.(transitional := c.transitional + n)
    ensures forall d :: d in Deeds(c, Repeat(STARTING, n)) ==> d == Rested
    decreases n
  {
    if n > 0 {
      assert Repeat(STARTING, n)[1..] == Repeat(STARTING, n - 1);
      StartingRun(Pass(c, STARTING).0, n - 1);
    }
  }

  const STRETCH := Repeat(STARTING, 30) + [DOWN, DOWN]

  /** A once-healthy node with fresh counters rides out 32 passes; the 33rd restarts it if restarts remain. */
  lemma StretchRun(r: nat)
    requires r <= RESTART_LIMIT
    ensures var c := Counters(true, 0, 0, r);
            && |STRETCH| == 32 && NoneHealthy(STRETCH)
            && Run(c, STRETCH) == Counters(true, 2, 30, r)
            && (forall d :: d in Deeds(c, STRETCH) ==> d == Rested)
            && (r < RESTART_LIMIT ==>
                  && Run(c, STRETCH + [DOWN]) == Counters(true, 0, 0, r + 1)
                  && Deeds(c, STRETCH + [DOWN]) == Deeds(c, STRETCH) + [Restarted])
  {
    var c := Counters(true, 0, 0, r);
    StartingRun(c, 30);
    var mid := Counters(true, 0, 30, r);
    RunConcat(c, Repeat(STARTING, 30), [DOWN, DOWN]);
    assert [DOWN, DOWN][1..] == [DOWN];
    assert Run(mid, [DOWN, DOWN]) == Run(Counters(true, 1, 30, r), [DOWN]) == Counters(true, 2, 30, r);
    assert Deeds(mid, [DOWN, DOWN]) == [Rested] + Deeds(Counters(true, 1, 30, r), [DOWN]) == [Rested, Rested];
    RunConcat(c, STRETCH, [DOWN]);
  }

  /** The bounds 33 and 99 are exact: after one healthy pass, some 32 unhealthy passes repair nothing and
    * some 98 never reinstall. */
  lemma BoundsAreTight()
    ensures Reachable(Counters(true, 0, 0, 0))
    ensures exists ks :: |ks| == 32 && NoneHealthy(ks)
              && forall d :: d in Deeds(Counters(true, 0, 0, 0), ks) ==> !d.Repairs()
    ensures exists ks :: |ks| == 98 && NoneHealthy(ks)
              && forall d :: d in Deeds(Counters(true, 0, 0, 0), ks) ==> !d.Enrolled?
  {
    var c := Counters(true, 0, 0, 0);
    assert Run(INITIAL, [HEALTHY]) == c;
    StretchRun(0);
    StretchRun(1);
    StretchRun(2);
    var leg := STRETCH + [DOWN];
    RunConcat(c, leg, leg);
    RunConcat(c, leg + leg, STRETCH);
    var all := leg + leg + STRETCH;
    assert |all| == 98 && NoneHealthy(all);
  }

  /** A healthy pass is followed by at least two passes of grace: the earliest repair is the third
    * unhealthy pass after it, whatever state came before. */
  lemma GraceAfterHealth(c: Counters, k: Check, ks: seq<Check>, i: nat)
    requires k.Healthy() && NoneHealthy(ks) && i < |ks|
    requires Deeds(Pass(c, k).0, ks)[i].Repairs()
    ensures i >= 2
  {
    var reset := Pass(c, k).0;
    var next := Pass(reset, ks[0]).0;
    assert !ks[0].Healthy();
    assert i > 0;
    assert |ks| > 1 ==> !ks[1].Healthy() && Deeds(reset, ks)[1] == Deeds(next, ks[1..])[0] == Pass(next, ks[1]).1;
  }

  function Restarts(ds: seq<Deed>): nat { if ds == [] then 0 else ds[0].RestartCount() + Restarts(ds[1..]) }
  function Reenrollments(ds: seq<Deed>): nat { if ds == [] then 0 else ds[0].Completed() + Reenrollments(ds[1..]) }

  /** Amortised token cost. While the node answers, holds its auth token and accepts restarts, every
    * completed reinstall has been paid for by two restarts, plus those the current counter still holds. */
  lemma {:induction false} RestartsPayForReenrollments(c: Counters, ks: seq<Check>)
    requires c.Bounded()
    requires forall k :: k in ks ==> k.readable && k.enrolled && k.restartWorks
    ensures c.restarts + Restarts(Deeds(c, ks)) >= 2 * Reenrollments(Deeds(c, ks)) + Run(c, ks).restarts
    decreases |ks|
  {
    if ks != [] {
      var next := Pass(c, ks[0]).0;
      assert ks[0] in ks;
      assert Deeds(c, ks)[1..] == Deeds(next, ks[1..]);
      RestartsPayForReenrollments(next, ks[1..]);
    }
  }

  lemma ReenrollmentsAreAtMostHalfTheRestarts(ks: seq<Check>)
    requires forall k :: k in ks ==> k.readable && k.enrolled && k.restartWorks
    ensures Restarts(Deeds(INITIAL, ks)) - 2 * Reenrollments(Deeds(INITIAL, ks)) >= Run(INITIAL, ks).restarts
    ensures 2 * Reenrollments(Deeds(INITIAL, ks)) <= Restarts(Deeds(INITIAL, ks))
  {
    RestartsPayForReenrollments(INITIAL, ks);
  }

  // ---------------------------------------------------------------- what a node's history says

  function Last<T>(s: seq<T>): T
    requires s != []
  {
    s[|s| - 1]
  }

  function Init<T>(s: seq<T>): seq<T>
    requires s != []
  {
    s[..|s| - 1]
  }

  /** The check and what was done about it end the trouble, as far as the daemon can tell: the node is healthy, or was
    * restarted, or enrolled anew. */
  predicate Settles(k: Check, d: Deed) { k.Healthy() || d.Restarted? || (d.Enrolled? && d.completed) }

  /** How many checks in a row the daemon only waited for the service to settle, since trouble last ended. */
  function Waited(ks: seq<Check>, ds: seq<Deed>): nat
    requires |ks| == |ds|
  {
    if ks == [] || Settles(Last(ks), Last(ds)) then 0
    else Waited(Init(ks), Init(ds)) + if Waits(Last(ks), Waited(Init(ks), Init(ds))) then 1 else 0
  }

  predicate Waits(k: Check, waited: nat) { k.readable && !k.healthy && k.transitional && waited < 30 }

  /** How many checks have found the node down since trouble last ended. */
  function Downs(ks: seq<Check>, ds: seq<Deed>): nat
    requires |ks| == |ds|
  {
    if ks == [] || Settles(Last(ks), Last(ds)) then 0
    else Downs(Init(ks), Init(ds)) + if Waits(Last(ks), Waited(Init(ks), Init(ds))) then 0 else 1
  }

  /** How many restarts were tried since the node was last healthy or enrolled anew. */
  function Tried(ks: seq<Check>, ds: seq<Deed>): nat
    requires |ks| == |ds|
  {
    if ks == [] || Last(ks).Healthy() || (Last(ds).Enrolled? && Last(ds).completed) then 0
    else Tried(Init(ks), Init(ds)) + Last(ds).RestartCount()
  }

  predicate WasHealthy(ks: seq<Check>) { exists k :: k in ks && k.Healthy() }

  function Done(ks: seq<Check>): (ds: seq<Deed>)
    ensures |ds| == |ks|
  {
    Deeds(INITIAL, ks)
  }

  lemma RunMore(ks: seq<Check>, k: Check)
    ensures Run(INITIAL, ks + [k]) == Pass(Run(INITIAL, ks), k).0
    ensures Done(ks + [k]) == Done(ks) + [Pass(Run(INITIAL, ks), k).1]
    ensures Init(ks + [k]) == ks && Init(Done(ks + [k])) == Done(ks)
  {
    RunConcat(INITIAL, ks, [k]);
    assert [k][1..] == [];
  }

  /** The four counters are what they are for: over any run, each is what the history of checks and deeds says. */
  lemma {:induction false} CountersAreHistory(ks: seq<Check>)
    ensures Run(INITIAL, ks) == Counters(WasHealthy(ks), Downs(ks, Done(ks)), Waited(ks, Done(ks)), Tried(ks, Done(ks)))
  {
    if ks != [] {
      var init, k := Init(ks), Last(ks);
      assert ks == init + [k];
      CountersAreHistory(init);
      RunMore(init, k);
      HistoryMore(init, Done(init), k, Pass(Run(INITIAL, init), k).1);
    }
  }

  lemma HistoryMore(ks: seq<Check>, ds: seq<Deed>, k: Check, d: Deed)
    requires |ks| == |ds|
    ensures var more, did, waits := ks + [k], ds + [d], Waits(k, Waited(ks, ds));
            && WasHealthy(more) == (WasHealthy(ks) || k.Healthy())
            && Waited(more, did) == (if Settles(k, d) then 0 else Waited(ks, ds) + if waits then 1 else 0)
            && Downs(more, did) == (if Settles(k, d) then 0 else Downs(ks, ds) + if waits then 0 else 1)
            && Tried(more, did) == (if k.Healthy() || (d.Enrolled? && d.completed) then 0
                                    else Tried(ks, ds) + d.RestartCount())
  {
    assert Init(ks + [k]) == ks && Init(ds + [d]) == ds;
    assert k in ks + [k];
  }

  /** After any run, what the next check does about the node. It repairs exactly if the node is not healthy, is not
    * being waited for, and was never healthy or is found down for the third time. And then it restarts, rather than
    * enrolls, a node that answers and is enrolled, exactly unless two restarts were tried since it was last healthy or
    * enrolled anew; it enrolls such a node only for that, or because this restart failed. */
  lemma RepairsExactly(ks: seq<Check>, k: Check)
    ensures var d, ds := Pass(Run(INITIAL, ks), k).1, Done(ks);
            && (d.Repairs() <==> && !k.Healthy() && !Waits(k, Waited(ks, ds))
                                 && (WasHealthy(ks) ==> Downs(ks, ds) >= 2))
            && (d.Repairs() ==>
                  var restarts := k.readable && k.enrolled && Tried(ks, ds) < 2;
                  && (d == Restarted <==> restarts && k.restartWorks)
                  && (d.Enrolled? ==> d.afterRestart == restarts && d.completed == k.enrollWorks))
  {
    CountersAreHistory(ks);
  }

  /** So health restores the restarts: the first repair after a healthy check, of a node that answers and is enrolled,
    * tries a restart, whatever went before. */
  lemma HealthRestoresRestarts(before: seq<Check>, healthy: Check, down: seq<Check>, k: Check)
    requires healthy.Healthy() && NoneHealthy(down) && k.readable && k.enrolled
    requires forall d :: d in Deeds(Run(INITIAL, before + [healthy]), down) ==> !d.Repairs()
    ensures var d := Pass(Run(INITIAL, before + [healthy] + down), k).1; d.Repairs() ==> d.RestartCount() == 1
  {
    RunMore(before, healthy);
    NothingTried(before + [healthy], down);
    RepairsExactly(before + [healthy] + down, k);
  }

  lemma {:induction false} NothingTried(ks: seq<Check>, down: seq<Check>)
    requires Tried(ks, Done(ks)) == 0 && NoneHealthy(down)
    requires forall d :: d in Deeds(Run(INITIAL, ks), down) ==> !d.Repairs()
    ensures Tried(ks + down, Done(ks + down)) == 0
    decreases |down|
  {
    if down == [] {
      assert ks + down == ks;
    } else {
      var init, k := Init(down), Last(down);
      assert down == init + [k] && ks + down == (ks + init) + [k];
      RunConcat(Run(INITIAL, ks), init, [k]);
      RunConcat(INITIAL, ks, init);
      NothingTried(ks, init);
      RunMore(ks + init, k);
      var d := Pass(Run(INITIAL, ks + init), k).1;
      assert Deeds(Run(INITIAL, ks), down) == Deeds(Run(INITIAL, ks), init) + [d] by { assert [k][1..] == []; }
      assert d in Deeds(Run(INITIAL, ks), down);
    }
  }

  // ---------------------------------------------------------------- pacing

  const INT64_LIMIT := 0x8000_0000_0000_0000
  const DOUBLING_LIMIT := 0x4000_0000_0000_0000

  /** A Go time.Duration: signed 64-bit nanoseconds, on which arithmetic wraps around. */
  newtype Duration = x: int | -INT64_LIMIT <= x < INT64_LIMIT

  function Wrap(x: int): Duration { ((x + INT64_LIMIT) % (2 * INT64_LIMIT) - INT64_LIMIT) as Duration }

  function Pow2(n: nat): (p: nat)
    ensures p > 0
  {
    if n == 0 then 1 else 2 * Pow2(n - 1)
  }

  function Min(a: int, b: int): int { if a < b then a else b }

  /** The delay `loop` is meant to wait after its f-th failure in a row. */
  function BackoffAfter(base: int, max: int, f: nat): int
    requires f > 0
  {
    Min(max, base * Pow2(f - 1))
  }

  /** The delay doubled n times, or until it reaches the maximum. */
  function Doubled(base: Duration, max: Duration, n: nat): Duration {
    if n == 0 then base
    else
      var d := Doubled(base, max, n - 1);
      if d >= max then d else Wrap(2 * d as int)
  }

  function Delay(base: Duration, max: Duration, f: nat): Duration
    requires f > 0
  {
    var d := Doubled(base, max, f - 1);
    if d > max then max else d
  }

  method Backoff(base: Duration, max: Duration, failures: nat) returns (delay: Duration)
    ensures delay == Delay(base, max, if failures == 0 then 1 else failures)
  {
    delay := base;
    var i := 1;
    while i < failures
      invariant 1 <= i && (i <= failures || i == 1)
      invariant delay == Doubled(base, max, i - 1)
    {
      if delay >= max {
        DoubledStops(base, max, i - 1, failures - 1);
        break;
      }
      delay := Wrap(2 * delay as int);
      i := i + 1;
    }
    if delay > max {
      return max;
    }
  }

  lemma {:induction false} DoubledStops(base: Duration, max: Duration, m: nat, n: nat)
    requires m <= n && Doubled(base, max, m) >= max
    ensures Doubled(base, max, n) == Doubled(base, max, m)
  {
    if m < n { DoubledStops(base, max, m, n - 1); }
  }

  lemma {:induction false} PowGrows(base: int, m: nat, n: nat)
    requires m <= n && base >= 0
    ensures base * Pow2(m) <= base * Pow2(n)
  {
    if m < n {
      PowGrows(base, m, n - 1);
      assert base * Pow2(n) == 2 * (base * Pow2(n - 1));
    }
  }

  lemma IntendedIsMonotone(base: int, max: int, f: nat, g: nat)
    requires 0 < f <= g && base >= 0
    ensures BackoffAfter(base, max, f) <= BackoffAfter(base, max, g) <= max
  {
    PowGrows(base, f - 1, g - 1);
  }

  /** base * 2^n, which the loop would reach in n doublings. */
  function Scaled(base: int, n: nat): int { base * Pow2(n) }

  /** The n-th doubling starts from a delay that is too long to be doubled, and is not the maximum yet. */
  predicate Overflows(base: int, max: int, n: nat) { DOUBLING_LIMIT <= Scaled(base, n) < max }

  /** No delay on the way to the maximum is too long to be doubled. */
  ghost predicate HasRoom(base: int, max: int) { base >= 0 && forall n: nat :: !Overflows(base, max, n) }

  lemma ScaledDoubles(base: int, n: nat)
    ensures Scaled(base, n + 1) == 2 * Scaled(base, n)
  {
    assert base * (2 * Pow2(n)) == 2 * (base * Pow2(n));
  }

  lemma ScaledIsNatural(base: int, n: nat)
    requires base >= 0
    ensures Scaled(base, n) >= 0
  {
  }

  /** What doubling d has come to when it stands for p. */
  predicate StandsFor(max: int, d: int, p: int) { Min(max, d) == Min(max, p) && (p <= max ==> d == p) }

  lemma DoublingStands(max: Duration, d: Duration, p: int)
    requires StandsFor(max as int, d as int, p) && p >= 0 && !(DOUBLING_LIMIT <= p < max as int)
    ensures StandsFor(max as int, (if d >= max then d else Wrap(2 * d as int)) as int, 2 * p)
  {
    if p < max as int { WrapFits(2 * p); }
  }

  lemma WrapFits(x: int)
    requires -INT64_LIMIT <= x < INT64_LIMIT
    ensures Wrap(x) as int == x
  {
  }

  ghost predicate RoomFor(base: int, max: int, n: nat) { forall m: nat :: m < n ==> !Overflows(base, max, m) }

  /** Until a doubling overflows, the loop doubles and stops as it is meant to. */
  lemma {:induction false} DoubledBelow(base: Duration, max: Duration, n: nat)
    requires base >= 0
    requires RoomFor(base as int, max as int, n)
    ensures StandsFor(max as int, Doubled(base, max, n) as int, Scaled(base as int, n))
  {
    if n > 0 {
      DoubledBelow(base, max, n - 1);
      ScaledDoubles(base as int, n - 1);
      ScaledIsNatural(base as int, n - 1);
      assert !Overflows(base as int, max as int, n - 1);
      DoublingStands(max, Doubled(base, max, n - 1), Scaled(base as int, n - 1));
    }
  }

  lemma BackoffWithRoom(base: Duration, max: Duration, f: nat)
    requires HasRoom(base as int, max as int) && f > 0
    ensures Delay(base, max, f) as int == BackoffAfter(base as int, max as int, f)
  {
    DoubledBelow(base, max, f - 1);
  }

  /** A negative delay falls past every int64 sooner or later. */
  lemma NegativeIsWrong(base: Duration, max: Duration)
    requires base < 0
    ensures Delay(base, max, 65) as int != BackoffAfter(base as int, max as int, 65)
  {
    Pow64();
    assert base as int * Pow2(64) <= -2 * INT64_LIMIT;
  }

  lemma FirstOverflow(base: int, max: int, n: nat)
    requires base >= 0 && Overflows(base, max, n) && max <= 2 * DOUBLING_LIMIT
    ensures RoomFor(base, max, n)
  {
    forall m: nat | m < n ensures !Overflows(base, max, m) {
      PowGrows(base, m + 1, n);
      ScaledDoubles(base, m);
    }
  }

  /** The first doubling that overflows gives a negative delay. */
  lemma OverflowIsWrong(base: Duration, max: Duration, n: nat)
    requires base >= 0 && Overflows(base as int, max as int, n)
    ensures Delay(base, max, n + 2) as int != BackoffAfter(base as int, max as int, n + 2)
    ensures Delay(base, max, n + 2) < 0 <= Delay(base, max, n + 1)
  {
    FirstOverflow(base as int, max as int, n);
    DoubledBelow(base, max, n);
    ScaledDoubles(base as int, n);
    OverflowWraps(Scaled(base as int, n));
  }

  lemma OverflowWraps(p: int)
    requires DOUBLING_LIMIT <= p < INT64_LIMIT
    ensures Wrap(2 * p) < 0
  {
  }

  lemma Pow64()
    ensures Pow2(64) == 2 * INT64_LIMIT
  {
    assert Pow2(8) == 256;
    PowAdds(8, 8);
    PowAdds(16, 16);
    PowAdds(32, 32);
  }

  lemma {:induction false} PowAdds(m: nat, n: nat)
    ensures Pow2(m + n) == Pow2(m) * Pow2(n)
  {
    if n > 0 { PowAdds(m, n - 1); }
  }

  /** The delay after f failures is min(max, base * 2^(f-1)), for every f, exactly if the base is not negative and
    * no doubling of it lands in [2^62, max): so always for a maximum up to 2^62 nanoseconds, 146 years. */
  lemma BackoffIsExact(base: Duration, max: Duration)
    ensures HasRoom(base as int, max as int) <==>
              forall f: nat :: f > 0 ==> Delay(base, max, f) as int == BackoffAfter(base as int, max as int, f)
    ensures base >= 0 && max as int <= DOUBLING_LIMIT ==> HasRoom(base as int, max as int)
  {
    if HasRoom(base as int, max as int) {
      forall f: nat | f > 0 ensures Delay(base, max, f) as int == BackoffAfter(base as int, max as int, f) {
        BackoffWithRoom(base, max, f);
      }
    } else {
      if base < 0 {
        NegativeIsWrong(base, max);
      } else {
        var n: nat :| Overflows(base as int, max as int, n);
        OverflowIsWrong(base, max, n);
      }
    }
  }

  /** The delay never shrinks while failures go on. */
  ghost predicate NeverShrinks(base: Duration, max: Duration) {
    forall f: nat, g: nat :: 0 < f <= g ==> Delay(base, max, f) <= Delay(base, max, g)
  }

  lemma RoomNeverShrinks(base: Duration, max: Duration)
    requires HasRoom(base as int, max as int)
    ensures NeverShrinks(base, max)
  {
    forall f: nat, g: nat | 0 < f <= g ensures Delay(base, max, f) <= Delay(base, max, g) {
      BackoffWithRoom(base, max, f);
      BackoffWithRoom(base, max, g);
      IntendedIsMonotone(base as int, max as int, f, g);
    }
  }

  lemma LongBaseNeverShrinks(base: Duration, max: Duration)
    requires base >= max
    ensures NeverShrinks(base, max)
  {
    forall f: nat | 0 < f ensures Delay(base, max, f) == max {
      DoubledStops(base, max, 0, f - 1);
    }
  }

  /** After one doubling the loop goes on as if it had started from there. */
  lemma {:induction false} DoubledOnce(base: Duration, max: Duration, n: nat)
    requires base < max
    ensures Doubled(base, max, n + 1) == Doubled(Wrap(2 * base as int), max, n)
  {
    if n > 0 { DoubledOnce(base, max, n - 1); }
  }

  /** A base so negative that doubling it wraps around to a positive delay, or to 0. */
  predicate WrapsUp(base: Duration) { base as int < -DOUBLING_LIMIT }

  lemma WrappedIsNatural(base: Duration)
    requires WrapsUp(base)
    ensures Wrap(2 * base as int) as int == 2 * base as int + 2 * INT64_LIMIT
    ensures Wrap(2 * base as int) >= 0
  {
  }

  lemma WrappedNeverShrinks(base: Duration, max: Duration)
    requires base < max && WrapsUp(base)
    ensures NeverShrinks(base, max) <==> NeverShrinks(Wrap(2 * base as int), max)
  {
    var next := Wrap(2 * base as int);
    WrappedIsNatural(base);
    forall f: nat | f > 0 ensures Delay(base, max, f + 1) == Delay(next, max, f) {
      DoubledOnce(base, max, f - 1);
    }
    if NeverShrinks(base, max) {
      forall f: nat, g: nat | 0 < f <= g ensures Delay(next, max, f) <= Delay(next, max, g) {
        assert Delay(base, max, f + 1) <= Delay(base, max, g + 1);
      }
    }
    if NeverShrinks(next, max) {
      forall f: nat, g: nat | 0 < f <= g ensures Delay(base, max, f) <= Delay(base, max, g) {
        if f > 1 {
          assert Delay(next, max, f - 1) <= Delay(next, max, g - 1);
        } else if g > 1 {
          assert Delay(next, max, 1) <= Delay(next, max, g - 1);
        }
      }
    }
  }

  lemma NoRoomShrinks(base: Duration, max: Duration)
    requires base >= 0 && !HasRoom(base as int, max as int)
    ensures !NeverShrinks(base, max)
  {
    var n: nat :| Overflows(base as int, max as int, n);
    OverflowIsWrong(base, max, n);
  }

  lemma NegativeShrinks(base: Duration, max: Duration)
    requires -DOUBLING_LIMIT <= base as int < 0 && base < max
    ensures !NeverShrinks(base, max)
  {
    assert Doubled(base, max, 0) == base;
    WrapFits(2 * base as int);
    assert Delay(base, max, 2) < Delay(base, max, 1);
  }

  /** The delay never shrinks while failures go on exactly if it starts at the maximum or beyond, or no doubling
    * overflows, or the first one wraps around to a delay from which none does. For a base and a maximum that are
    * not negative that is: exactly if no doubling overflows. */
  lemma BackoffIsMonotone(base: Duration, max: Duration)
    ensures NeverShrinks(base, max) <==>
              || base >= max || HasRoom(base as int, max as int)
              || (WrapsUp(base) && HasRoom(2 * base as int + 2 * INT64_LIMIT, max as int))
    ensures base >= 0 ==> (NeverShrinks(base, max) <==> HasRoom(base as int, max as int))
    ensures forall f: nat :: f > 0 ==> Delay(base, max, f) <= max
  {
    if base >= max {
      LongBaseNeverShrinks(base, max);
      if base >= 0 { LongBaseHasRoom(base as int, max as int); }
    } else if base >= 0 {
      if HasRoom(base as int, max as int) { RoomNeverShrinks(base, max); } else { NoRoomShrinks(base, max); }
    } else if !WrapsUp(base) {
      NegativeShrinks(base, max);
    } else {
      var next := Wrap(2 * base as int);
      WrappedIsNatural(base);
      WrappedNeverShrinks(base, max);
      if HasRoom(next as int, max as int) { RoomNeverShrinks(next, max); } else { NoRoomShrinks(next, max); }
    }
  }

  lemma LongBaseHasRoom(base: int, max: int)
    requires base >= max && base >= 0
    ensures HasRoom(base, max)
  {
    forall n: nat ensures !Overflows(base, max, n) { PowGrows(base, 0, n); }
  }

  /** Passes j to i all failed, and the one before j, if any, did not. */
  ghost predicate Streak(failed: seq<bool>, j: nat, i: nat) {
    j <= i < |failed| && (forall k :: j <= k <= i ==> failed[k]) && (j == 0 || !failed[j - 1])
  }

  /** Every failed pass ends some streak, so the delay after every pass is given. */
  lemma {:induction false} StreakExists(failed: seq<bool>, i: nat) returns (j: nat)
    requires i < |failed| && failed[i]
    ensures Streak(failed, j, i)
    decreases i
  {
    if i == 0 || !failed[i - 1] {
      j := i;
    } else {
      j := StreakExists(failed, i - 1);
    }
  }

  lemma OneStreak(failed: seq<bool>, j: nat, k: nat, i: nat)
    requires Streak(failed, j, i) && Streak(failed, k, i)
    ensures j == k
  {
    assert (k == 0 || !failed[k - 1]) && (j == 0 || !failed[j - 1]);
  }

  /** `loop` over a finite stretch: pass i fails or not, and delays[i] is waited after it: the interval after a success,
    * and the backoff for the failures in a row after a failure. */
  method Loop(failed: seq<bool>, interval: Duration, maxBackoff: Duration) returns (delays: seq<Duration>)
    ensures |delays| == |failed|
    ensures forall i :: 0 <= i < |failed| && !failed[i] ==> delays[i] == interval
    ensures forall j: nat, i: nat :: Streak(failed, j, i) ==> delays[i] == Delay(interval, maxBackoff, i - j + 1)
  {
    var failures := 0;
    delays := [];
    for n := 0 to |failed|
      invariant |delays| == n
      invariant failures <= n && (failures > 0 ==> Streak(failed, n - failures, n - 1))
      invariant failures == 0 ==> n == 0 || !failed[n - 1]
      invariant forall i :: 0 <= i < n && !failed[i] ==> delays[i] == interval
      invariant forall j: nat, i: nat :: Streak(failed, j, i) && i < n ==>
                  delays[i] == Delay(interval, maxBackoff, i - j + 1)
    {
      if failed[n] {
        failures := failures + 1;
        var delay := Backoff(interval, maxBackoff, failures);
        delays := delays + [delay];
        assert Streak(failed, n + 1 - failures, n);
        forall j: nat | Streak(failed, j, n) ensures j == n + 1 - failures {
          OneStreak(failed, j, n + 1 - failures, n);
        }
      } else {
        failures := 0;
        delays := delays + [interval];
      }
    }
  }
}
