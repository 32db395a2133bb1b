/** The node's library cache: any number of processes call `Ensure` on one directory, with arbitrary
  * downloaded bytes, and each may fail or be killed between any two system calls.
  *
  * SHA-256 is an uninterpreted function `sha`. A cached build is filed under its digest, so the cache
  * is a map from digest to contents; temporary files have names of their own. */
module Library {
  import opened Temps
  import opened Wrappers

  type Bytes = seq<int>
  type Digest = string

  /** Where one call of `Ensure` for the build `digest` has got to. */
  datatype Call =
    | Entered(digest: Digest)
    | Missed(digest: Digest)
    | Locked(digest: Digest)
    | Fetching(digest: Digest)
    | Writing(digest: Digest, temp: nat)
    | Verified(digest: Digest, temp: nat)
    | Published(digest: Digest)
  {
    predicate HoldsLock() { !Entered? && !Missed? }
    predicate Downloads() { Fetching? || HasTemp() }
    predicate HasTemp() { Writing? || Verified? }
  }

  datatype State = State(files: map<Digest, Bytes>, temps: map<nat, Bytes>, holder: Option<nat>, calls: map<nat, Call>)
  {
    predicate Cached(d: Digest) { d in files && files[d] != [] }
  }

  datatype Action =
    | Enter(p: nat, digest: Digest)
    | Stat(p: nat)
    | Lock(p: nat)
    | Restat(p: nat)
    | Open(p: nat, temp: nat)
    | Write(p: nat, chunk: Bytes)
    | Verify(p: nat)
    | Rename(p: nat)
    | Return(p: nat)
    | Fail(p: nat)
    | Kill(p: nat)

  predicate Enabled(sha: Bytes -> Digest, s: State, a: Action) {
    if a.Enter? then a.p !in s.calls
    else
      && a.p in s.calls
      && var c := s.calls[a.p];
         match a
         case Stat(_) => c.Entered?
         case Lock(_) => c.Missed? && s.holder.None?
         case Restat(_) => c.Locked?
         case Open(_, temp) => c.Fetching? && temp !in s.temps
         case Write(_, _) => c.Writing? && c.temp in s.temps
         case Verify(_) => c.Writing? && c.temp in s.temps && sha(s.temps[c.temp]) == c.digest
         case Rename(_) => c.Verified? && c.temp in s.temps
         case Return(_) => c.Published?
         case _ => true
  }

  function Leave(s: State, p: nat): State {
    s.(calls := s.calls - {p}, holder := if s.holder == Some(p) then None else s.holder)
  }

  function Step(sha: Bytes -> Digest, s: State, a: Action): State {
    if !Enabled(sha, s, a) then s
    else if a.Enter? then s.(calls := s.calls[a.p := Entered(a.digest)])
    else
      var c := s.calls[a.p];
      match a
      case Enter(_, _) => s
      case Stat(p) => if s.Cached(c.digest) then Leave(s, p) else s.(calls := s.calls[p := Missed(c.digest)])
      case Lock(p) => s.(calls := s.calls[p := Locked(c.digest)], holder := Some(p))
      case Restat(p) => if s.Cached(c.digest) then Leave(s, p) else s.(calls := s.calls[p := Fetching(c.digest)])
      case Open(p, temp) => s.(calls := s.calls[p := Writing(c.digest, temp)], temps := s.temps[temp := []])
      case Write(p, chunk) => s.(temps := s.temps[c.temp := s.temps[c.temp] + chunk])
      case Verify(p) => s.(calls := s.calls[p := Verified(c.digest, c.temp)])
      case Rename(p) => s.(files := s.files[c.digest := s.temps[c.temp]], temps := s.temps - {c.temp},
                           calls := s.calls[p := Published(c.digest)])
      case Return(p) => Leave(s, p)
      case Fail(p) => Leave(if c.HasTemp() then s.(temps := s.temps - {c.temp}) else s, p)
      case Kill(p) => Leave(s, p)
  }

  /** The build whose path a call hands back in this step, if one does. */
  function Returned(sha: Bytes -> Digest, s: State, a: Action): Option<Digest> {
    if !Enabled(sha, s, a) || a.Enter? then None
    else
      var c := s.calls[a.p];
      if a.Return? || ((a.Stat? || a.Restat?) && s.Cached(c.digest)) then Some(c.digest) else None
  }

  /** The build whose download this step starts, if it does: the re-check under the lock that does not find it. */
  function Downloaded(sha: Bytes -> Digest, s: State, a: Action): Option<Digest> {
    if Enabled(sha, s, a) && a.Restat? && !s.Cached(s.calls[a.p].digest) then Some(s.calls[a.p].digest) else None
  }

  function Run(sha: Bytes -> Digest, s: State, acts: seq<Action>): State {
    if acts == [] then s else Step(sha, Run(sha, s, acts[..|acts| - 1]), acts[|acts| - 1])
  }

  const EMPTY := State(map[], map[], None, map[])

  ghost predicate Inv(sha: Bytes -> Digest, s: State) {
    && (forall d :: d in s.files ==> sha(s.files[d]) == d)
    && (forall p :: p in s.calls && s.calls[p].HoldsLock() <==> s.holder == Some(p))
    && (forall p :: p in s.calls ==>
          var c := s.calls[p];
          && (c.Downloads() ==> !s.Cached(c.digest))
          && (c.HasTemp() ==> c.temp in s.temps)
          && (c.Verified? ==> sha(s.temps[c.temp]) == c.digest)
          && (c.Published? ==> c.digest in s.files))
  }

  lemma StepKeepsInv(sha: Bytes -> Digest, s: State, a: Action)
    requires Inv(sha, s)
    ensures Inv(sha, Step(sha, s, a))
  {
    var t := Step(sha, s, a);
    if Enabled(sha, s, a) {
      assert a.p in s.calls && s.calls[a.p].HoldsLock() ==> s.holder == Some(a.p);
      forall p | p in t.calls
        ensures t.calls[p].HoldsLock() <==> t.holder == Some(p)
        ensures var c := t.calls[p];
                && (c.Downloads() ==> !t.Cached(c.digest))
                && (c.HasTemp() ==> c.temp in t.temps)
                && (c.Verified? ==> sha(t.temps[c.temp]) == c.digest)
                && (c.Published? ==> c.digest in t.files)
      {
        if p != a.p { assert t.calls[p] == s.calls[p]; }
      }
    }
  }

  lemma {:induction false} RunKeepsInv(sha: Bytes -> Digest, s: State, acts: seq<Action>)
    requires Inv(sha, s)
    ensures Inv(sha, Run(sha, s, acts))
    decreases |acts|
  {
    if acts != [] {
      RunKeepsInv(sha, s, acts[..|acts| - 1]);
      StepKeepsInv(sha, Run(sha, s, acts[..|acts| - 1]), acts[|acts| - 1]);
    }
  }

  /** Over every interleaving and every crash: a file at a digest's path hashes to that digest, every path
    * handed back names such a file, and at most one download is under way on the node. */
  lemma CacheIsVerified(sha: Bytes -> Digest, acts: seq<Action>, a: Action)
    ensures var s := Run(sha, EMPTY, acts);
            && (forall d :: d in s.files ==> sha(s.files[d]) == d)
            && (Returned(sha, s, a).Some? ==>
                  var d := Returned(sha, s, a).value;
                  d in Step(sha, s, a).files && sha(Step(sha, s, a).files[d]) == d)
            && (forall p, q :: p in s.calls && q in s.calls && s.calls[p].Downloads() && s.calls[q].Downloads() ==>
                  p == q)
  {
    RunKeepsInv(sha, EMPTY, acts);
    var s := Run(sha, EMPTY, acts);
    StepKeepsInv(sha, s, a);
    forall p, q | p in s.calls && q in s.calls && s.calls[p].Downloads() && s.calls[q].Downloads()
      ensures p == q
    {
      assert s.holder == Some(p) && s.holder == Some(q);
    }
  }

  lemma CachedBuildIsFrozen(sha: Bytes -> Digest, s: State, a: Action, d: Digest)
    requires Inv(sha, s) && s.Cached(d)
    ensures Step(sha, s, a).Cached(d) && Step(sha, s, a).files[d] == s.files[d]
    ensures Downloaded(sha, s, a) != Some(d)
  {
  }

  /** Once a non-empty build is published it is never replaced, and nobody ever starts downloading it
    * again: not a call that starts later, and not one that was already waiting for the lock. */
  lemma {:induction false} PublishedOnceAndForAll(sha: Bytes -> Digest, before: seq<Action>, after: seq<Action>,
                                                  a: Action, d: Digest)
    requires Run(sha, EMPTY, before).Cached(d)
    ensures var s := Run(sha, EMPTY, before);
            var t := Run(sha, s, after);
            t.Cached(d) && t.files[d] == s.files[d] && Downloaded(sha, t, a) != Some(d)
    decreases |after|
  {
    var s := Run(sha, EMPTY, before);
    RunKeepsInv(sha, EMPTY, before);
    RunKeepsInv(sha, s, after);
    if after != [] {
      var init := after[..|after| - 1];
      PublishedOnceAndForAll(sha, before, init, a, d);
      RunKeepsInv(sha, s, init);
      CachedBuildIsFrozen(sha, Run(sha, s, init), after[|after| - 1], d);
    }
    CachedBuildIsFrozen(sha, Run(sha, s, after), a, d);
  }

  function CallOf(s: State, p: nat): Option<Call> { if p in s.calls then Some(s.calls[p]) else None }

  lemma OtherCallsStay(sha: Bytes -> Digest, s: State, a: Action, p: nat)
    requires a.p != p
    ensures CallOf(Step(sha, s, a), p) == CallOf(s, p)
  {
  }

  /** While a call holds the lock nobody else touches the cache. */
  lemma HolderIsAlone(sha: Bytes -> Digest, s: State, a: Action, p: nat)
    requires Inv(sha, s) && a.p != p && p in s.calls && s.calls[p].HoldsLock()
    ensures var t := Step(sha, s, a); t.temps == s.temps && t.files == s.files
  {
    assert a.p in s.calls ==> !s.calls[a.p].HoldsLock();
  }

  // ---------------------------------------------------------------- one process among the others

  datatype Artifact = Artifact(url: string, sha256: Digest)

  /** How a call's own download goes, and what arrives, piece by piece. */
  datatype Luck = Luck(responds: bool, creates: bool, chunks: seq<Bytes>, closes: bool, renames: bool)

  function Body(chunks: seq<Bytes>): Bytes {
    if chunks == [] then [] else Body(chunks[..|chunks| - 1]) + chunks[|chunks| - 1]
  }

  /** The download goes well and is the build it should be. */
  predicate Sound(sha: Bytes -> Digest, luck: Luck, d: Digest) {
    luck.responds && luck.creates && luck.closes && luck.renames && sha(Body(luck.chunks)) == d
  }

  /** One process's `LibthunderCache`, over the directory all processes share. Between any two of its own
    * system calls the others may take any number of steps. */
  class LibthunderCache {
    const sha: Bytes -> Digest
    const me: nat
    const pin: Option<Artifact>
    var resolved: Option<Artifact>
    var dir: State
    ghost var trace: seq<Action>

    constructor (sha: Bytes -> Digest, me: nat, pin: Option<Artifact>)
      ensures this.sha == sha && this.me == me && this.pin == pin
      ensures resolved == None && dir == EMPTY && trace == []
    {
      this.sha, this.me, this.pin := sha, me, pin;
      resolved, dir, trace := None, EMPTY, [];
    }

    /** The answer is memoised; an explicit pin never consults the installer. */
    method Resolve(installer: Option<Artifact>) returns (r: Option<Artifact>)
      modifies `resolved
      ensures resolved == r || (r.None? && resolved == old(resolved))
      ensures old(resolved).Some? ==> r == old(resolved)
      ensures old(resolved).None? ==> r == if pin.Some? then pin else installer
    {
      if resolved.Some? {
        return resolved;
      }
      if pin.Some? {
        resolved := pin;
        return pin;
      }
      if installer.None? {
        return None;
      }
      resolved := installer;
      return installer;
    }

    /** The directory is one a run of all the processes can leave. */
    ghost predicate Valid()
      reads this
    {
      dir == Run(sha, EMPTY, trace) && Inv(sha, dir)
    }

    ghost function Mine(): Option<Call>
      reads `dir
    {
      CallOf(dir, me)
    }

    method Do(a: Action)
      requires Valid()
      modifies `dir, `trace
      ensures Valid() && dir == Step(sha, old(dir), a) && trace == old(trace) + [a]
    {
      StepKeepsInv(sha, dir, a);
      dir := Step(sha, dir, a);
      assert (trace + [a])[..|trace|] == trace;
      trace := trace + [a];
    }

    ghost predicate Locking()
      reads `dir
    {
      Mine().Some? && Mine().value.HoldsLock()
    }

    /** Any number of steps by other processes. */
    method Others()
      requires Valid()
      modifies `dir, `trace
      ensures Valid() && old(trace) <= trace && Mine() == old(Mine())
      ensures forall a :: a in trace[|old(trace)|..] ==> a.p != me
      ensures forall d :: old(dir).Cached(d) ==> dir.Cached(d)
      ensures old(Locking()) ==> dir.temps == old(dir).temps && dir.files == old(dir).files
    {
      var steps: nat := *;
      while steps > 0
        invariant Valid() && old(trace) <= trace && Mine() == old(Mine())
        invariant forall a :: a in trace[|old(trace)|..] ==> a.p != me
        invariant forall d :: old(dir).Cached(d) ==> dir.Cached(d)
        invariant old(Locking()) ==> dir.temps == old(dir).temps && dir.files == old(dir).files
      {
        var a: Action := *;
        if a.p != me {
          OtherCallsStay(sha, dir, a, me);
          forall d | dir.Cached(d) ensures Step(sha, dir, a).Cached(d) { CachedBuildIsFrozen(sha, dir, a, d); }
          if old(Locking()) {
            HolderIsAlone(sha, dir, a, me);
          }
          Do(a);
        }
        steps := steps - 1;
      }
    }

    /** One step of this process, and then whatever the others do. */
    method Go(a: Action)
      requires Valid() && a.p == me
      modifies `dir, `trace
      ensures Valid() && old(trace) + [a] <= trace && Mine() == CallOf(Step(sha, old(dir), a), me)
      ensures forall b :: b in trace[|old(trace)|..] && b.p == me ==> b == a
      ensures forall d :: old(dir).Cached(d) ==> dir.Cached(d)
      ensures Locking() ==>
                var next := Step(sha, old(dir), a); dir.temps == next.temps && dir.files == next.files
    {
      forall d | dir.Cached(d) ensures Step(sha, dir, a).Cached(d) { CachedBuildIsFrozen(sha, dir, a, d); }
      Do(a);
      Others();
    }

    /** `Ensure`, interleaved with everything the other processes do. A path it returns names a build that
      * is there and hashes to its digest; it leaves no call behind; and if the build was cached when it was
      * called, it succeeds without taking the lock or downloading. It goes without the lock only while another has
      * it; with the lock it fails exactly if the build is still not there and its own download is not sound. */
    method Ensure(installer: Option<Artifact>, luck: Luck) returns (path: Option<Digest>)
      requires Valid() && Mine() == None
      modifies this
      ensures Valid() && Mine() == None && old(trace) <= trace
      ensures path.Some? ==> resolved.Some? && path.value == resolved.value.sha256
      ensures path.Some? ==> path.value in dir.files && sha(dir.files[path.value]) == path.value
      ensures resolved.Some? && old(dir).Cached(resolved.value.sha256) ==>
                && path.Some?
                && forall a :: a in trace[|old(trace)|..] && a.p == me ==> a.Enter? || a.Stat?
      ensures resolved == if old(resolved).Some? then old(resolved) else if pin.Some? then pin else installer
      ensures path.Some? ==>
                || Sound(sha, luck, path.value)
                || forall a :: a in trace[|old(trace)|..] && a.p == me ==> !a.Open?
      ensures path.None? && resolved.Some? ==>
                || (Lock(me) !in trace[|old(trace)|..] && dir.holder.Some?)
                || (!Sound(sha, luck, resolved.value.sha256) && !dir.Cached(resolved.value.sha256))
    {
      var artifact := Resolve(installer);
      if artifact.None? {
        return None;
      }
      var hit := Check(artifact.value.sha256);
      if hit {
        return Some(artifact.value.sha256);
      }
      ghost var before, mine := old(trace), trace;
      path := FetchUnderLock(artifact.value.sha256, luck);
      assert trace[|before|..] == mine[|before|..] + trace[|mine|..];
    }

    /** Is the build there already? That takes no lock. */
    method Check(d: Digest) returns (hit: bool)
      requires Valid() && Mine() == None
      modifies `dir, `trace
      ensures Valid() && old(trace) <= trace && Mine() == if hit then None else Some(Missed(d))
      ensures hit ==> d in dir.files && sha(dir.files[d]) == d
      ensures old(dir).Cached(d) ==> hit
      ensures forall a :: a in trace[|old(trace)|..] && a.p == me ==> a.Enter? || a.Stat?
    {
      Go(Enter(me, d));
      hit := dir.Cached(d);
      Do(Stat(me));
    }

    /** Blocked on the lock until it is free, or until the runtime kills the process. */
    method AwaitLock(d: Digest)
      requires Valid() && Mine() == Some(Missed(d))
      modifies `dir, `trace
      ensures Valid() && Mine() == Some(Missed(d)) && old(trace) <= trace
      ensures forall a :: a in trace[|old(trace)|..] ==> a.p != me
    {
      var patience: nat := *;
      while patience > 0 && dir.holder.Some?
        invariant Valid() && Mine() == Some(Missed(d)) && old(trace) <= trace
        invariant forall a :: a in trace[|old(trace)|..] ==> a.p != me
      {
        Others();
        patience := patience - 1;
      }
    }

    method FetchUnderLock(d: Digest, luck: Luck) returns (path: Option<Digest>)
      requires Valid() && Mine() == Some(Missed(d))
      modifies `dir, `trace
      ensures Valid() && Mine() == None && old(trace) <= trace
      ensures path.Some? ==> path.value == d && d in dir.files && sha(dir.files[d]) == d
      ensures path.Some? ==>
                Sound(sha, luck, d) || forall a :: a in trace[|old(trace)|..] && a.p == me ==> !a.Open?
      ensures path.None? ==>
                || (Lock(me) !in trace[|old(trace)|..] && dir.holder.Some?)
                || (!Sound(sha, luck, d) && !dir.Cached(d))
    {
      AwaitLock(d);
      if dir.holder.Some? {
        Do(Kill(me));
        return None;
      }
      Go(Lock(me));
      path := FetchLocked(d, luck);
    }

    /** Under the lock: whoever held it before may have finished the very same download. */
    method FetchLocked(d: Digest, luck: Luck) returns (path: Option<Digest>)
      requires Valid() && Mine() == Some(Locked(d))
      modifies `dir, `trace
      ensures Valid() && Mine() == None && old(trace) <= trace
      ensures path.Some? ==> path.value == d && d in dir.files && sha(dir.files[d]) == d
      ensures path.Some? ==>
                Sound(sha, luck, d) || forall a :: a in trace[|old(trace)|..] && a.p == me ==> !a.Open?
      ensures path.None? ==> !Sound(sha, luck, d) && !dir.Cached(d)
    {
      var hit := dir.Cached(d);
      Do(Restat(me));
      if hit {
        return Some(d);
      }
      path := Download(d, luck);
    }

    method Download(d: Digest, luck: Luck) returns (path: Option<Digest>)
      requires Valid() && Mine() == Some(Fetching(d))
      modifies `dir, `trace
      ensures Valid() && Mine() == None && old(trace) <= trace
      ensures path.Some? ==> path.value == d && d in dir.files && sha(dir.files[d]) == d
      ensures (path.Some? <==> Sound(sha, luck, d)) && (path.None? ==> !dir.Cached(d))
    {
      if !luck.responds || !luck.creates {
        Do(Fail(me));
        return None;
      }
      var temp := CreateTemp(dir.temps.Keys);
      Go(Open(me, temp));
      Receive(d, temp, luck.chunks);
      path := Publish(d, temp, luck);
    }

    method Receive(d: Digest, temp: nat, chunks: seq<Bytes>)
      requires Valid() && Mine() == Some(Writing(d, temp)) && dir.temps[temp] == []
      modifies `dir, `trace
      ensures Valid() && old(trace) <= trace && Mine() == Some(Writing(d, temp)) && dir.temps[temp] == Body(chunks)
    {
      for i := 0 to |chunks|
        invariant Valid() && old(trace) <= trace && Mine() == Some(Writing(d, temp))
        invariant dir.temps[temp] == Body(chunks[..i])
      {
        assert chunks[..i + 1][..i] == chunks[..i];
        Go(Write(me, chunks[i]));
      }
      assert chunks[..|chunks|] == chunks;
    }

    method Publish(d: Digest, temp: nat, luck: Luck) returns (path: Option<Digest>)
      requires Valid() && Mine() == Some(Writing(d, temp)) && dir.temps[temp] == Body(luck.chunks)
      modifies `dir, `trace
      ensures Valid() && Mine() == None && old(trace) <= trace
      ensures path.Some? ==> path.value == d && d in dir.files && sha(dir.files[d]) == d
      ensures path.Some? <==> luck.closes && luck.renames && sha(Body(luck.chunks)) == d
      ensures path.None? ==> !dir.Cached(d)
    {
      if !luck.closes || sha(dir.temps[temp]) != d {
        Do(Fail(me));
        return None;
      }
      Go(Verify(me));
      path := Install(d, temp, luck);
    }

    method Install(d: Digest, temp: nat, luck: Luck) returns (path: Option<Digest>)
      requires Valid() && Mine() == Some(Verified(d, temp))
      modifies `dir, `trace
      ensures Valid() && Mine() == None && old(trace) <= trace
      ensures path.Some? ==> path.value == d && d in dir.files && sha(dir.files[d]) == d
      ensures (path.Some? <==> luck.renames) && (path.None? ==> !dir.Cached(d))
    {
      if !luck.renames {
        Do(Fail(me));
        return None;
      }
      Go(Rename(me));
      Do(Return(me));
      return Some(d);
    }
  }
}
