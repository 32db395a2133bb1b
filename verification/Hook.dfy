/** The CDI hook: any number of hooks of one claim, started concurrently or again after a crash, between
  * the claim's Create and its Remove. They share the claim's state directory, whose lock they take, and
  * one single-use enrollment token. Each system call and each request is one step. */
module Hook {
  import opened Outcomes
  import opened Temps
  import opened Wrappers

  type Client = nat

  /** What a config file can hold: an unfinished write, or the config of a client. */
  datatype Contents = Partial | Config(client: Client)

  const EXCHANGE_ATTEMPTS: nat := 5

  /** Where one hook has got to. */
  datatype Stage =
    | Waiting
    | Locked
    | Exchanging(attempt: nat)
    | Exchanged(client: Client)
    | Writing(client: Client, temp: nat)
    | Written(client: Client, temp: nat)
    | Cached(client: Client)
    | Staging(client: Client)
  {
    predicate HoldsLock() { !Waiting? }
    predicate HasClient() { Exchanged? || HasTemp() || Cached? || Staging? }
    predicate HasTemp() { Writing? || Written? }
    predicate BeforeCached() { Exchanging? || Exchanged? || HasTemp() }
  }

  /** `enrolled` is the client Thunder made of the claim's token, `revoked` whether the token still works. */
  datatype State = State(token: bool, config: Option<Contents>, temps: map<nat, Contents>,
                         enrolled: Option<Client>, revoked: bool, holder: Option<nat>, hooks: map<nat, Stage>)
  {
    predicate Configured() { config.Some? && config.value.Config? }
    predicate Spendable() { enrolled.None? && !revoked }
  }

  const CREATED := State(true, None, map[], None, false, None, map[])

  datatype Action =
    | Start(p: nat)
    | Lock(p: nat)
    | Read(p: nat)
    | Exchange(p: nat, outcome: Outcome, client: Client)
    | Open(p: nat, temp: nat)
    | Write(p: nat)
    | Rename(p: nat)
    | DropToken(p: nat, outcome: Outcome)
    | Deliver(p: nat)
    | Fail(p: nat)
    | Kill(p: nat)
    | RevokeToken(p: nat)

  function Leave(s: State, p: nat): State {
    s.(hooks := s.hooks - {p}, holder := if s.holder == Some(p) then None else s.holder)
  }

  function Set(s: State, p: nat, h: Stage): State { s.(hooks := s.hooks[p := h]) }

  function Step(s: State, a: Action): State {
    if a.RevokeToken? then s.(revoked := true)
    else if a.Start? then (if a.p in s.hooks then s else Set(s, a.p, Waiting))
    else if a.p !in s.hooks then s
    else HookStep(s, a, s.hooks[a.p])
  }

  function HookStep(s: State, a: Action, h: Stage): State {
    match a
    case Lock(p) =>
      if h.Waiting? && s.holder.None? then Set(s, p, Locked).(holder := Some(p)) else s
    case Read(p) =>
      if !h.Locked? then s
      else if s.Configured() then Set(s, p, Staging(s.config.value.client))
      else if s.token then Set(s, p, Exchanging(1))
      else Leave(s, p)
    case Exchange(p, outcome, client) =>
      if !h.Exchanging? then s
      else if outcome == Failed then Retry(s, p, h.attempt)
      else if !s.Spendable() then Leave(s, p)
      else if outcome == Done then Set(s, p, Exchanged(client)).(enrolled := Some(client))
      else Retry(s.(enrolled := Some(client)), p, h.attempt)
    case Open(p, temp) =>
      if h.Exchanged? && temp !in s.temps then
        Set(s, p, Writing(h.client, temp)).(temps := s.temps[temp := Partial])
      else s
    case Write(p) =>
      if h.Writing? then Set(s, p, Written(h.client, h.temp)).(temps := s.temps[h.temp := Config(h.client)]) else s
    case Rename(p) =>
      if h.Written? && h.temp in s.temps then
        Set(s, p, Cached(h.client)).(config := Some(s.temps[h.temp]), temps := s.temps - {h.temp})
      else s
    case DropToken(p, outcome) =>
      if h.Cached? then Set(s, p, Staging(h.client)).(token := s.token && outcome == Failed) else s
    case Deliver(p) => if h.Staging? then Leave(s, p) else s
    case Fail(p) => Leave(if h.HasTemp() then s.(temps := s.temps - {h.temp}) else s, p)
    case Kill(p) => Leave(s, p)
    case _ => s
  }

  /** A retryable failure is tried again while attempts remain; a rejection is final. */
  function Retry(s: State, p: nat, attempt: nat): State {
    if attempt < EXCHANGE_ATTEMPTS then Set(s, p, Exchanging(attempt + 1)) else Leave(s, p)
  }

  /** The client a hook puts into its container in this step, if it finishes in it. */
  function Delivered(s: State, a: Action): Option<Client> {
    if a.Deliver? && a.p in s.hooks && s.hooks[a.p].Staging? then Some(s.hooks[a.p].client) else None
  }

  function Run(s: State, acts: seq<Action>): State {
    if acts == [] then s else Step(Run(s, acts[..|acts| - 1]), acts[|acts| - 1])
  }

  ghost predicate StageInv(s: State, p: nat, h: Stage) {
    && (h.HoldsLock() ==> s.holder == Some(p))
    && (h.HasClient() ==> s.enrolled == Some(h.client))
    && (h.HasTemp() ==> h.temp in s.temps)
    && (h.Written? ==> s.temps[h.temp] == Config(h.client))
    && (h.BeforeCached() ==> !s.Configured())
    && (h.Cached? || h.Staging? ==> s.Configured())
  }

  ghost predicate Inv(s: State) {
    && (s.token || s.Configured())
    && (s.config.Some? ==> s.Configured() && s.enrolled == Some(s.config.value.client))
    && (s.holder.Some? ==> s.holder.value in s.hooks && s.hooks[s.holder.value].HoldsLock())
    && (forall p :: p in s.hooks ==> StageInv(s, p, s.hooks[p]))
  }

  lemma StepKeepsInv(s: State, a: Action)
    requires Inv(s)
    ensures Inv(Step(s, a))
  {
    var t := Step(s, a);
    if a.p in s.hooks { assert StageInv(s, a.p, s.hooks[a.p]); }
    forall p | p in t.hooks ensures StageInv(t, p, t.hooks[p]) {
      if p in s.hooks {
        assert StageInv(s, p, s.hooks[p]);
        if p != a.p && !a.RevokeToken? { OthersStay(s, a, p); }
      }
    }
  }

  /** Only the lock's holder changes the directory or the enrollment. */
  lemma OthersStay(s: State, a: Action, p: nat)
    requires Inv(s) && p != a.p && p in s.hooks
    ensures var t := Step(s, a); p in t.hooks && t.hooks[p] == s.hooks[p] && StageInv(t, p, t.hooks[p])
  {
    assert StageInv(s, p, s.hooks[p]);
    if a.p in s.hooks { assert StageInv(s, a.p, s.hooks[a.p]); }
  }

  lemma {:induction false} RunKeepsInv(s: State, acts: seq<Action>)
    requires Inv(s)
    ensures Inv(Run(s, acts))
    decreases |acts|
  {
    if acts != [] {
      RunKeepsInv(s, acts[..|acts| - 1]);
      StepKeepsInv(Run(s, acts[..|acts| - 1]), acts[|acts| - 1]);
    }
  }

  /** Crash consistency: whatever hooks start, fail or die, and wherever, the directory holds the token or a
    * whole config of the one client Thunder enrolled, and at most one hook is past the lock. */
  lemma DirectoryIsAlwaysUsable(acts: seq<Action>)
    ensures var s := Run(CREATED, acts);
            && (s.token || s.Configured())
            && (s.config.Some? ==> s.Configured() && s.enrolled == Some(s.config.value.client))
            && (forall p, q :: p in s.hooks && q in s.hooks && s.hooks[p].HoldsLock() && s.hooks[q].HoldsLock() ==>
                  p == q)
  {
    RunKeepsInv(CREATED, acts);
    var s := Run(CREATED, acts);
    forall p, q | p in s.hooks && q in s.hooks && s.hooks[p].HoldsLock() && s.hooks[q].HoldsLock()
      ensures p == q
    {
      assert StageInv(s, p, s.hooks[p]) && StageInv(s, q, s.hooks[q]);
    }
  }

  lemma {:induction false} EnrollmentIsFinal(s: State, acts: seq<Action>)
    requires Inv(s) && s.enrolled.Some?
    ensures Run(s, acts).enrolled == s.enrolled
    ensures s.Configured() ==> Run(s, acts).Configured()
    decreases |acts|
  {
    if acts != [] {
      var init := acts[..|acts| - 1];
      EnrollmentIsFinal(s, init);
      RunKeepsInv(s, init);
      StepKeepsEnrollment(Run(s, init), acts[|acts| - 1]);
    }
  }

  lemma StepKeepsEnrollment(s: State, a: Action)
    requires Inv(s) && s.enrolled.Some?
    ensures Step(s, a).enrolled == s.enrolled && (s.Configured() ==> Step(s, a).Configured())
  {
  }

  /** Agreement: all the hooks that succeed, at whatever times, put the same client into their containers. */
  lemma HooksAgree(before: seq<Action>, a: Action, between: seq<Action>, b: Action)
    requires var s := Run(CREATED, before); Delivered(s, a).Some? && Delivered(Run(Step(s, a), between), b).Some?
    ensures var s := Run(CREATED, before); Delivered(s, a) == Delivered(Run(Step(s, a), between), b)
  {
    var s := Run(CREATED, before);
    RunKeepsInv(CREATED, before);
    assert StageInv(s, a.p, s.hooks[a.p]);
    StepKeepsInv(s, a);
    RunKeepsInv(Step(s, a), between);
    EnrollmentIsFinal(Step(s, a), between);
    var t := Run(Step(s, a), between);
    assert StageInv(t, b.p, t.hooks[b.p]);
  }

  // ---------------------------------------------------------------- the window in which a claim is lost

  /** Thunder has enrolled a client that no file and no running hook knows. */
  ghost predicate Orphaned(s: State) {
    && s.enrolled.Some? && !s.Configured()
    && forall p :: p in s.hooks ==> !s.hooks[p].HasClient()
  }

  /** An orphaned claim never recovers: every later hook is rejected, and none delivers a client. */
  lemma {:induction false} OrphansStay(s: State, acts: seq<Action>, b: Action)
    requires Inv(s) && Orphaned(s)
    ensures Orphaned(Run(s, acts)) && Delivered(Run(s, acts), b).None?
    decreases |acts|
  {
    if acts != [] {
      var init, a := acts[..|acts| - 1], acts[|acts| - 1];
      OrphansStay(s, init, a);
      RunKeepsInv(s, init);
      OrphanStep(Run(s, init), a);
    }
    RunKeepsInv(s, acts);
  }

  lemma OrphanStep(s: State, a: Action)
    requires Inv(s) && Orphaned(s)
    ensures Orphaned(Step(s, a))
  {
  }

  /** The steps that can orphan a claim: the exchange's answer is lost, or the hook that has the client
    * fails or dies before its config is renamed into place. */
  predicate LosesClient(s: State, a: Action) {
    && !a.RevokeToken? && a.p in s.hooks
    && var h := s.hooks[a.p];
       || (a.Exchange? && a.outcome == Lost && h.Exchanging? && s.Spendable())
       || ((a.Fail? || a.Kill?) && h.HasClient() && h.BeforeCached())
  }

  lemma LosingOrphans(s: State, a: Action)
    requires Inv(s) && LosesClient(s, a)
    ensures Orphaned(Step(s, a))
  {
    var t := Step(s, a);
    assert StageInv(s, a.p, s.hooks[a.p]);
    forall p | p in t.hooks ensures !t.hooks[p].HasClient() {
      if p != a.p { assert StageInv(s, p, s.hooks[p]) && t.hooks[p] == s.hooks[p]; }
    }
  }

  /** In any run, a claim is orphaned in exactly that window, and then for good: whatever hooks do after it,
    * none delivers a client. */
  lemma ClaimIsOrphanedOnlyByAnUncachedExchange(before: seq<Action>, a: Action)
    requires !Orphaned(Run(CREATED, before))
    ensures var s := Run(CREATED, before); Orphaned(Step(s, a)) <==> LosesClient(s, a)
    ensures var s := Run(CREATED, before);
            LosesClient(s, a) ==> forall after, b :: Delivered(Run(Step(s, a), after), b).None?
  {
    var s := Run(CREATED, before);
    RunKeepsInv(CREATED, before);
    OrphanedExactlyThen(s, a);
    if LosesClient(s, a) {
      StepKeepsInv(s, a);
      forall after, b ensures Delivered(Run(Step(s, a), after), b).None? {
        OrphansStay(Step(s, a), after, b);
      }
    }
  }

  lemma OrphanedExactlyThen(s: State, a: Action)
    requires Inv(s) && !Orphaned(s)
    ensures Orphaned(Step(s, a)) <==> LosesClient(s, a)
  {
    var t := Step(s, a);
    if LosesClient(s, a) {
      LosingOrphans(s, a);
    } else if s.enrolled.Some? && !s.Configured() {
      var p :| p in s.hooks && s.hooks[p].HasClient();
      assert StageInv(s, p, s.hooks[p]);
      if p != a.p { OthersStay(s, a, p); }
      assert p in t.hooks && t.hooks[p].HasClient();
    } else if s.enrolled.None? && t.enrolled.Some? {
      assert a.p in t.hooks && t.hooks[a.p].HasClient();
    }
  }

  /** The window is reached: a hook killed right after its exchange orphans the claim. */
  lemma AKilledHookOrphansItsClaim(client: Client)
    ensures var s := Run(CREATED, [Start(0)] + [Lock(0)] + [Read(0)] + [Exchange(0, Done, client)]);
            !Orphaned(s) && LosesClient(s, Kill(0)) && Orphaned(Step(s, Kill(0)))
  {
    var a: seq<Action> := [Start(0)];
    assert a[..0] == [];
    RunMore(a, Lock(0));
    RunMore(a + [Lock(0)], Read(0));
    var b := a + [Lock(0)] + [Read(0)];
    assert Run(CREATED, b) == CREATED.(holder := Some(0), hooks := map[0 := Exchanging(1)]);
    RunMore(b, Exchange(0, Done, client));
    ClaimIsOrphanedOnlyByAnUncachedExchange(b + [Exchange(0, Done, client)], Kill(0));
  }

  lemma RunMore(acts: seq<Action>, a: Action)
    ensures Run(CREATED, acts + [a]) == Step(Run(CREATED, acts), a)
  {
    assert (acts + [a])[..|acts|] == acts;
  }

  // ---------------------------------------------------------------- one hook among the others

  function StageOf(s: State, p: nat): Option<Stage> { if p in s.hooks then Some(s.hooks[p]) else None }

  /** What the other hooks do leaves hook p where it is, and a cached config cached. */
  lemma OthersLeave(s: State, a: Action, p: nat)
    requires Inv(s) && a.p != p
    ensures var t := Step(s, a);
            && Inv(t) && StageOf(t, p) == StageOf(s, p)
            && (s.Configured() ==> t.Configured()) && (s.enrolled.Some? ==> t.enrolled == s.enrolled)
  {
    StepKeepsInv(s, a);
    if p in s.hooks { OthersStay(s, a, p); }
  }

  /** How often hook p asked Thunder to exchange the token. */
  function Asks(p: nat, acts: seq<Action>): nat
    decreases |acts|
  {
    if acts == [] then 0
    else
      var last := acts[|acts| - 1];
      Asks(p, acts[..|acts| - 1]) + if last.p == p && last.Exchange? then 1 else 0
  }

  /** How a hook's own calls end: whether the library is there, what the n-th request comes to and whether the
    * deadline is too near for another, and how writing the config and staging it go. */
  datatype Luck = Luck(library: bool, answers: nat -> Outcome, late: nat -> bool, creates: bool, writes: bool,
                       renames: bool, drops: Outcome, copies: bool)

  /** One of the requests allowed is answered, every one before it having failed with time for another. */
  ghost predicate Answered(luck: Luck) {
    exists k :: 1 <= k <= 5 && luck.answers(k) == Done && forall j :: 1 <= j < k ==> ToBeTriedAgain(luck, j)
  }

  predicate ToBeTriedAgain(luck: Luck, j: nat) { luck.answers(j) == Failed && !luck.late(j) }

  ghost predicate AllFailed(luck: Luck, n: nat) { forall j :: 1 <= j <= n ==> luck.answers(j) == Failed }

  ghost predicate NoneLate(luck: Luck, n: nat) { forall j :: 1 <= j <= n ==> !luck.late(j) }

  lemma AnsweredNow(luck: Luck, n: nat)
    requires 1 <= n <= 5 && luck.answers(n) == Done && AllFailed(luck, n - 1) && NoneLate(luck, n - 1)
    ensures Answered(luck)
  {
    assert forall j :: 1 <= j < n ==> ToBeTriedAgain(luck, j);
  }

  lemma NeverAnswered(luck: Luck, n: nat)
    requires 1 <= n <= 5 && AllFailed(luck, n) && (n == 5 || luck.late(n))
    ensures !Answered(luck)
  {
    forall k | 1 <= k <= 5 && luck.answers(k) == Done ensures exists j :: 1 <= j < k && !ToBeTriedAgain(luck, j) {
      assert !ToBeTriedAgain(luck, n);
    }
  }

  /** Nothing a hook does goes wrong, be it one that asks Thunder or one that need not. */
  ghost predicate Favours(luck: Luck, asks: bool) {
    luck.library && luck.copies && (asks ==> Answered(luck) && luck.creates && luck.writes && luck.renames)
  }

  class ClaimHook {
    const me: nat
    var dir: State
    ghost var trace: seq<Action>

    constructor (me: nat)
      ensures this.me == me && dir == CREATED && trace == []
    {
      this.me, dir, trace := me, CREATED, [];
    }

    ghost predicate Valid()
      reads this
    {
      dir == Run(CREATED, trace) && Inv(dir)
    }

    ghost predicate AskedNothing(since: nat)
      reads this
      requires since <= |trace|
    {
      forall a :: a in trace[since..] && a.p == me ==> !a.Exchange?
    }

    method Do(a: Action)
      requires Valid()
      modifies this
      ensures Valid() && dir == Step(old(dir), a) && trace == old(trace) + [a]
      ensures Asks(me, trace) == Asks(me, old(trace)) + if a.p == me && a.Exchange? then 1 else 0
    {
      StepKeepsInv(dir, a);
      dir := Step(dir, a);
      assert (trace + [a])[..|trace|] == trace;
      trace := trace + [a];
    }

    method Others()
      requires Valid()
      modifies this
      ensures Valid() && old(trace) <= trace && StageOf(dir, me) == StageOf(old(dir), me)
      ensures forall a :: a in trace[|old(trace)|..] ==> a.p != me
      ensures (old(dir).Configured() ==> dir.Configured()) && (dir.Spendable() ==> old(dir).Spendable())
      ensures Asks(me, trace) == Asks(me, old(trace))
    {
      var steps: nat := *;
      while steps > 0
        invariant Valid() && old(trace) <= trace && StageOf(dir, me) == StageOf(old(dir), me)
        invariant Asks(me, trace) == Asks(me, old(trace))
        invariant forall a :: a in trace[|old(trace)|..] ==> a.p != me
        invariant (old(dir).Configured() ==> dir.Configured()) && (dir.Spendable() ==> old(dir).Spendable())
      {
        var a: Action := *;
        if a.p != me {
          OthersLeave(dir, a, me);
          Do(a);
        }
        steps := steps - 1;
      }
    }

    /** One hook from its start to its end, interleaved with all the others. What it delivers is the client
      * Thunder enrolled, cached whole in the directory; and once a client is cached, a hook asks Thunder for
      * nothing, so it succeeds however often the token has been spent. It goes without the lock only while another
      * has it; with the lock it delivers exactly if nothing it does goes wrong, or else it had to ask and Thunder
      * no longer takes the token. */
    method RunCDIHook(luck: Luck) returns (delivered: Option<Client>)
      requires Valid() && StageOf(dir, me) == None
      modifies this
      ensures Valid() && StageOf(dir, me) == None && old(trace) <= trace
      ensures delivered.Some? ==> dir.Configured() && dir.enrolled == delivered
      ensures old(dir).Configured() ==> AskedNothing(|old(trace)|)
      ensures Lock(me) !in trace[|old(trace)|..] ==> delivered.None? && dir.holder.Some?
      ensures var asked := Asks(me, trace) > Asks(me, old(trace));
              && (delivered.Some? ==> Favours(luck, asked))
              && (Lock(me) in trace[|old(trace)|..] && delivered.None? && Favours(luck, asked) ==>
                    asked && !dir.Spendable())
    {
      Queue();
      if dir.holder.Some? {
        Do(Kill(me));
        return None;
      }
      ghost var at := |trace|;
      delivered := StageUnderLock(luck);
      assert trace[|old(trace)|..][at - |old(trace)|] == Lock(me);
    }

    /** Start, and wait for the lock. */
    method Queue()
      requires Valid() && StageOf(dir, me) == None
      modifies this
      ensures Valid() && old(trace) <= trace && StageOf(dir, me) == Some(Waiting)
      ensures forall a :: a in trace[|old(trace)|..] && a.p == me ==> a == Start(me)
      ensures Asks(me, trace) == Asks(me, old(trace)) && (old(dir).Configured() ==> dir.Configured())
    {
      Do(Start(me));
      Others();
      AwaitLock();
    }

    method StageUnderLock(luck: Luck) returns (delivered: Option<Client>)
      requires Valid() && StageOf(dir, me) == Some(Waiting) && dir.holder.None?
      modifies this
      ensures Valid() && StageOf(dir, me) == None && old(trace) + [Lock(me)] <= trace
      ensures delivered.Some? ==> dir.Configured() && dir.enrolled == delivered
      ensures old(dir).Configured() ==> AskedNothing(|old(trace)|)
      ensures var asked := Asks(me, trace) > Asks(me, old(trace));
              && Asks(me, trace) >= Asks(me, old(trace)) && (delivered.Some? ==> Favours(luck, asked))
              && (delivered.None? && Favours(luck, asked) ==> asked && !dir.Spendable())
    {
      Do(Lock(me));
      Others();
      delivered := Stage(luck);
    }

    /** Blocked on the lock until it is free, or until the runtime kills the hook. */
    method AwaitLock()
      requires Valid() && StageOf(dir, me) == Some(Waiting)
      modifies this
      ensures Valid() && old(trace) <= trace && StageOf(dir, me) == Some(Waiting)
      ensures forall a :: a in trace[|old(trace)|..] ==> a.p != me
      ensures Asks(me, trace) == Asks(me, old(trace)) && (old(dir).Configured() ==> dir.Configured())
    {
      var patience: nat := *;
      while patience > 0 && dir.holder.Some?
        invariant Valid() && old(trace) <= trace && StageOf(dir, me) == Some(Waiting)
        invariant forall a :: a in trace[|old(trace)|..] ==> a.p != me
        invariant Asks(me, trace) == Asks(me, old(trace)) && (old(dir).Configured() ==> dir.Configured())
      {
        Others();
        patience := patience - 1;
      }
    }

    /** Everything under the lock. */
    method Stage(luck: Luck) returns (delivered: Option<Client>)
      requires Valid() && StageOf(dir, me) == Some(Locked)
      modifies this
      ensures Valid() && StageOf(dir, me) == None && old(trace) <= trace
      ensures delivered.Some? ==> dir.Configured() && dir.enrolled == delivered
      ensures old(dir).Configured() ==> AskedNothing(|old(trace)|)
      ensures var asked := Asks(me, trace) > Asks(me, old(trace));
              && Asks(me, trace) >= Asks(me, old(trace)) && (delivered.Some? ==> Favours(luck, asked))
              && (delivered.None? && Favours(luck, asked) ==> asked && !dir.Spendable())
    {
      if !luck.library {
        Do(Fail(me));
        return None;
      }
      var cached := dir.Configured();
      Do(Read(me));
      if StageOf(dir, me).None? {
        return None;
      }
      if cached {
        delivered := Deliver(dir.config.value.client, luck);
        return;
      }
      Others();
      var exchanged := ExchangeWithRetry(luck);
      if exchanged.Some? {
        delivered := Cache(exchanged.value, luck);
      } else {
        delivered := None;
      }
    }

    /** At most five requests; the first answer that is not worth another attempt ends them. There is a client exactly
      * if the answers allow it, unless Thunder no longer takes the token. */
    method ExchangeWithRetry(luck: Luck) returns (client: Option<Client>)
      requires Valid() && StageOf(dir, me) == Some(Exchanging(1))
      modifies this
      ensures Valid() && old(trace) <= trace
      ensures StageOf(dir, me) == if client.Some? then Some(Exchanged(client.value)) else None
      ensures Asks(me, old(trace)) < Asks(me, trace) <= Asks(me, old(trace)) + EXCHANGE_ATTEMPTS
      ensures client.Some? ==> Answered(luck)
      ensures client.None? && Answered(luck) ==> !dir.Spendable()
    {
      var attempt: nat := 1;
      while attempt <= EXCHANGE_ATTEMPTS
        invariant 1 <= attempt <= EXCHANGE_ATTEMPTS + 1
        invariant Valid() && old(trace) <= trace
        invariant StageOf(dir, me) == if attempt <= EXCHANGE_ATTEMPTS then Some(Exchanging(attempt)) else None
        invariant Asks(me, trace) == Asks(me, old(trace)) + attempt - 1
        invariant dir.Spendable() ==> AllFailed(luck, attempt - 1)
        invariant attempt <= EXCHANGE_ATTEMPTS ==> NoneLate(luck, attempt - 1)
      {
        var again;
        client, again := Attempt(attempt, luck);
        if !again {
          return;
        }
        attempt := attempt + 1;
      }
      if dir.Spendable() {
        NeverAnswered(luck, EXCHANGE_ATTEMPTS);
      }
      return None;
    }

    /** One attempt, after some that failed; another only if there is time. */
    method Attempt(attempt: nat, luck: Luck) returns (client: Option<Client>, again: bool)
      requires Valid() && StageOf(dir, me) == Some(Exchanging(attempt)) && 1 <= attempt <= EXCHANGE_ATTEMPTS
      requires NoneLate(luck, attempt - 1) && (dir.Spendable() ==> AllFailed(luck, attempt - 1))
      modifies this
      ensures Valid() && old(trace) <= trace && Asks(me, trace) == Asks(me, old(trace)) + 1
      ensures client.Some? ==> !again && Answered(luck)
      ensures !again ==> StageOf(dir, me) == if client.Some? then Some(Exchanged(client.value)) else None
      ensures !again && client.None? && Answered(luck) ==> !dir.Spendable()
      ensures again ==>
                StageOf(dir, me) == if attempt < EXCHANGE_ATTEMPTS then Some(Exchanging(attempt + 1)) else None
      ensures again && attempt < EXCHANGE_ATTEMPTS ==> NoneLate(luck, attempt)
      ensures again && dir.Spendable() ==> AllFailed(luck, attempt)
    {
      client, again := Ask(attempt, luck.answers(attempt));
      if client.Some? {
        AnsweredNow(luck, attempt);
      } else if again && attempt < EXCHANGE_ATTEMPTS && luck.late(attempt) {
        if dir.Spendable() {
          NeverAnswered(luck, attempt);
        }
        Do(Fail(me));
        return None, false;
      }
    }

    /** One request: a client, or a rejection, which is final, or a failure worth another attempt. */
    method Ask(attempt: nat, outcome: Outcome) returns (client: Option<Client>, again: bool)
      requires Valid() && StageOf(dir, me) == Some(Exchanging(attempt)) && attempt <= EXCHANGE_ATTEMPTS
      modifies this
      ensures Valid() && old(trace) <= trace && Asks(me, trace) == Asks(me, old(trace)) + 1
      ensures client.Some? ==> !again && StageOf(dir, me) == Some(Exchanged(client.value))
      ensures client.None? && !again ==> StageOf(dir, me) == None
      ensures again ==>
                StageOf(dir, me) == if attempt < EXCHANGE_ATTEMPTS then Some(Exchanging(attempt + 1)) else None
      ensures client.Some? <==> outcome == Done && old(dir).Spendable()
      ensures client.None? && !again <==> outcome != Failed && !old(dir).Spendable()
      ensures dir.Spendable() ==> old(dir).Spendable() && outcome == Failed
    {
      var answer: Client := *;
      var spendable := dir.Spendable();
      Do(Exchange(me, outcome, answer));
      if outcome != Failed && !spendable {
        return None, false;
      }
      if outcome == Done {
        return Some(answer), false;
      }
      Others();
      return None, true;
    }

    /** Write the config beside its place, rename it there, and drop the spent token. */
    method Cache(client: Client, luck: Luck) returns (delivered: Option<Client>)
      requires Valid() && StageOf(dir, me) == Some(Exchanged(client))
      modifies this
      ensures Valid() && StageOf(dir, me) == None && old(trace) <= trace
      ensures delivered.Some? ==> dir.Configured() && dir.enrolled == delivered
      ensures Asks(me, trace) == Asks(me, old(trace))
      ensures delivered.Some? <==> luck.creates && luck.writes && luck.renames && luck.copies
    {
      Others();
      if !luck.creates {
        Do(Fail(me));
        return None;
      }
      var temp := CreateTemp(dir.temps.Keys);
      Do(Open(me, temp));
      Others();
      delivered := Publish(client, temp, luck);
    }

    method Publish(client: Client, temp: nat, luck: Luck) returns (delivered: Option<Client>)
      requires Valid() && StageOf(dir, me) == Some(Writing(client, temp))
      modifies this
      ensures Valid() && StageOf(dir, me) == None && old(trace) <= trace
      ensures delivered.Some? ==> dir.Configured() && dir.enrolled == delivered
      ensures Asks(me, trace) == Asks(me, old(trace))
      ensures delivered.Some? <==> luck.writes && luck.renames && luck.copies
    {
      if !luck.writes {
        Do(Fail(me));
        return None;
      }
      Do(Write(me));
      Others();
      if !luck.renames {
        Do(Fail(me));
        return None;
      }
      assert StageInv(dir, me, dir.hooks[me]);
      Do(Rename(me));
      delivered := DropAndDeliver(client, luck);
    }

    /** That the token file could not be dropped is no failure. */
    method DropAndDeliver(client: Client, luck: Luck) returns (delivered: Option<Client>)
      requires Valid() && StageOf(dir, me) == Some(Cached(client))
      modifies this
      ensures Valid() && StageOf(dir, me) == None && old(trace) <= trace
      ensures delivered.Some? ==> dir.Configured() && dir.enrolled == delivered
      ensures Asks(me, trace) == Asks(me, old(trace)) && (delivered.Some? <==> luck.copies)
    {
      Others();
      Do(DropToken(me, luck.drops));
      Others();
      delivered := Deliver(client, luck);
    }

    method Deliver(client: Client, luck: Luck) returns (delivered: Option<Client>)
      requires Valid() && StageOf(dir, me) == Some(Staging(client))
      modifies this
      ensures Valid() && StageOf(dir, me) == None && old(trace) <= trace
      ensures delivered.Some? ==> dir.Configured() && dir.enrolled == delivered
      ensures AskedNothing(|old(trace)|)
      ensures Asks(me, trace) == Asks(me, old(trace)) && (delivered.Some? <==> luck.copies)
    {
      assert StageInv(dir, me, dir.hooks[me]);
      if !luck.copies {
        Do(Fail(me));
        return None;
      }
      Do(Action.Deliver(me));
      return Some(client);
    }
  }
}
