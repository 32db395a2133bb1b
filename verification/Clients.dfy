/** What becomes of the clients Thunder makes of a claim's tokens: every one of them is revoked, named on the
  * node, or stranded, and exactly which steps strand one. */
module Clients {
  import opened Outcomes
  import opened Wrappers
  import opened Lifecycle
  import Enrollment

  /** The clients the node can still name: the one in the directory and the one a hook is about to cache. */
  function Known(s: State): set<Client> {
    (if s.dir.config.Some? then {s.dir.config.value} else {}) + (if s.hook.Caching? then {s.hook.client} else {})
  }

  ghost predicate ClientInv(s: State) {
    && (s.dir.config.Some? ==> s.dir.config.value in s.spent.Values)
    && (s.hook.Caching? ==> s.hook.client in s.spent.Values && s.hook.client !in s.gone)
    && (s.hook.Caching? || s.hook.Spending? ==> s.dir.config.None?)
    && (s.daemon.RevokingClient? ==> s.dir.config == Some(s.daemon.client))
  }

  lemma HookKeepsClientInv(s: State, a: Action)
    requires ClientInv(s) && a.ByHook()
    ensures ClientInv(HookStep(s, a))
  {
    var t := HookStep(s, a);
    if t.spent != s.spent {
      assert t.spent == s.spent[s.hook.token := a.client];
      assert forall c :: c in s.spent.Values ==> c in t.spent.Values by {
        forall c | c in s.spent.Values ensures c in t.spent.Values {
          var token :| token in s.spent && s.spent[token] == c;
          assert t.spent[token] == c;
        }
      }
      assert t.spent[s.hook.token] == a.client;
    }
  }

  /** Whoever is not the hook only takes files away, revokes what the daemon read, and exchanges nothing. */
  lemma OthersKeepClientInv(s: State, t: State)
    requires ClientInv(s) && t.spent == s.spent && t.hook == s.hook
    requires t.dir.config == None || t.dir.config == s.dir.config
    requires t.daemon.RevokingClient? ==>
               t.dir == s.dir && (t.daemon == s.daemon || s.dir.config == Some(t.daemon.client))
    requires t.gone == s.gone || (s.daemon.RevokingClient? && t.gone == s.gone + {s.daemon.client})
    ensures ClientInv(t)
  {
  }

  lemma CallKeepsClientInv(s: State, a: Action)
    requires ClientInv(s) && a.Call? && CallEnabled(s, a)
    ensures ClientInv(DaemonStep(s, a))
  {
    if s.daemon.Reading? || s.daemon.InUnprepare() {
      OthersKeepClientInv(s, UnprepareCall(s, a));
    } else {
      OthersKeepClientInv(s, PrepareCall(s, a));
    }
  }

  lemma StepKeepsClientInv(s: State, a: Action)
    requires ClientInv(s)
    ensures ClientInv(Step(s, a))
  {
    if a.ByHook() { HookKeepsClientInv(s, a); }
    else if a.Call? && CallEnabled(s, a) { CallKeepsClientInv(s, a); }
    else if a.ByDaemon() { OthersKeepClientInv(s, DaemonStep(s, a)); }
    else if a.ByOperator() { OthersKeepClientInv(s, OperatorStep(s, a)); }
    else { OthersKeepClientInv(s, OutsideStep(s, a)); }
  }

  lemma {:induction false} RunKeepsClientInv(acts: seq<Action>)
    ensures ClientInv(Run(START, acts))
    decreases |acts|
  {
    if acts != [] {
      RunKeepsClientInv(acts[..|acts| - 1]);
      StepKeepsClientInv(Run(START, acts[..|acts| - 1]), acts[|acts| - 1]);
    }
  }

  // ---------------------------------------------------------------- what a teardown forgets

  /** A scan that cannot read the config of a client that is not revoked yet; the daemon takes it for none. */
  predicate ScanMisses(s: State, a: Action) {
    && s.daemon.Scanning? && a.Call? && a.outcome != Done
    && s.dir.config.Some? && s.dir.config.value !in s.gone
  }

  predicate Caches(s: State, a: Action) { s.hook.Caching? && a.HookCall? && a.outcome == Done && s.dir.present }

  /** Since the last scan: it missed a client, or a hook has cached one. */
  predicate Missed(acts: seq<Action>)
    decreases |acts|
  {
    acts != [] &&
    var init, a := acts[..|acts| - 1], acts[|acts| - 1];
    var s := Run(START, init);
    if s.daemon.Scanning? && a.Call? then ScanMisses(s, a) else Caches(s, a) || Missed(init)
  }

  /** The directory names a client that is not revoked. */
  predicate NamesLiveClient(s: State) { s.dir.config.Some? && s.dir.config.value !in s.gone }

  /** How the daemon's knowledge relates to the directory between its scan and its removal. */
  predicate Tracks(s: State, missed: bool) {
    && (s.daemon.RevokingClient? ==> !missed)
    && (s.daemon.RevokingToken? || s.daemon.RemovingCDI? ==> (NamesLiveClient(s) <==> missed))
  }

  lemma DaemonStepTracks(s: State, a: Action, missed: bool)
    requires Inv(s) && ClientInv(s) && Tracks(s, missed) && a.ByDaemon()
    ensures Tracks(DaemonStep(s, a), if s.daemon.Scanning? && a.Call? then ScanMisses(s, a) else missed)
  {
  }

  lemma HookStepTracks(s: State, a: Action, missed: bool)
    requires ClientInv(s) && Tracks(s, missed) && a.ByHook()
    ensures Tracks(HookStep(s, a), Caches(s, a) || missed)
  {
  }

  lemma {:induction false} RunTracks(acts: seq<Action>)
    ensures Tracks(Run(START, acts), Missed(acts))
    decreases |acts|
  {
    if acts != [] {
      var init, a := acts[..|acts| - 1], acts[|acts| - 1];
      RunTracks(init);
      Enrollment.RunKeepsInv(START, init);
      RunKeepsClientInv(init);
      StepTracks(Run(START, init), a, Missed(init));
    }
  }

  lemma StepTracks(s: State, a: Action, missed: bool)
    requires Inv(s) && ClientInv(s) && Tracks(s, missed)
    ensures Tracks(Step(s, a), if s.daemon.Scanning? && a.Call? then ScanMisses(s, a) else Caches(s, a) || missed)
  {
    if a.ByDaemon() { DaemonStepTracks(s, a, missed); }
    else if a.ByHook() { HookStepTracks(s, a, missed); }
  }

  /** StagedClientID reads without the hook's lock and has no error to report. So, over any run, an unprepare that
    * removes the file naming a client removes it unrevoked exactly when, since its own scan, that scan failed on
    * a client not revoked yet, or a hook cached one. */
  lemma TeardownForgetsExactlyAnUncachedClient(acts: seq<Action>, a: Action)
    requires var s := Run(START, acts);
             s.daemon.InUnprepare() && a.ByDaemon() && s.dir.config.Some? && Step(s, a).dir.config != s.dir.config
    ensures var s := Run(START, acts); s.daemon.RemovingCDI? && Step(s, a).dir.config.None?
    ensures var s := Run(START, acts); s.dir.config.value !in s.gone <==> Missed(acts)
  {
    RemovesOnlyThere(Run(START, acts), a);
    RunTracks(acts);
  }

  lemma RemovesOnlyThere(s: State, a: Action)
    requires s.daemon.InUnprepare() && a.ByDaemon() && s.dir.config.Some? && Step(s, a).dir.config != s.dir.config
    ensures s.daemon.RemovingCDI? && Step(s, a).dir.config.None?
  {
  }

  /** In particular, an attempt in which neither happens revokes the client before it removes the file, whatever
    * earlier attempts missed. */
  lemma UnprepareRevokesBeforeRemoving(acts: seq<Action>, a: Action)
    requires !Missed(acts)
    ensures var s := Run(START, acts);
            s.daemon.InUnprepare() && a.ByDaemon() && s.dir.config.Some? && Step(s, a).dir.config != s.dir.config ==>
              s.dir.config.value in s.gone
  {
    var s := Run(START, acts);
    if s.daemon.InUnprepare() && a.ByDaemon() && s.dir.config.Some? && Step(s, a).dir.config != s.dir.config {
      TeardownForgetsExactlyAnUncachedClient(acts, a);
    }
  }

  // ---------------------------------------------------------------- conservation of clients

  /** Clients that are alive in Thunder although nothing on the node names them any more. */
  function Stranded(s: State): set<Client> { s.spent.Values - s.gone - Known(s) }

  predicate Exchanges(s: State, a: Action) {
    && a.HookCall? && s.hook.Spending? && a.outcome.TakesEffect()
    && s.hook.token in s.minted - s.revoked && s.hook.token !in s.spent
    && a.client !in s.spent.Values && a.client !in s.gone
  }

  /** The client a step strands, if any: an exchange took effect but its answer was lost; the hook that had the
    * client died or could not cache it; the file that named it was removed while it was not revoked. */
  function Strands(s: State, a: Action): set<Client> {
    if Exchanges(s, a) then if a.outcome == Lost then {a.client} else {}
    else if s.hook.Caching? && a.ByHook() && !a.HookStarts? then if Caches(s, a) then {} else {s.hook.client}
    else if s.dir.config.Some? && Step(s, a).dir.config.None? then {s.dir.config.value} - s.gone
    else {}
  }

  lemma ValuesWith(m: map<Token, Client>, k: Token, v: Client)
    requires k !in m
    ensures m[k := v].Values == m.Values + {v}
  {
    assert m[k := v][k] == v;
    forall x | x in m.Values ensures x in m[k := v].Values {
      var y :| y in m && m[y] == x;
      assert m[k := v][y] == x;
    }
  }

  lemma HookStrands(s: State, a: Action)
    requires ClientInv(s) && a.ByHook()
    ensures Stranded(HookStep(s, a)) == Stranded(s) + Strands(s, a)
  {
    if Exchanges(s, a) { ValuesWith(s.spent, s.hook.token, a.client); }
  }

  /** Whoever is not the hook makes no client; only taking the config away can strand one. */
  lemma OthersStrand(s: State, t: State, a: Action)
    requires ClientInv(s) && !a.ByHook() && t == Step(s, a) && t.spent == s.spent && t.hook == s.hook
    requires t.dir.config == None || t.dir.config == s.dir.config
    requires t.gone == s.gone || (s.daemon.RevokingClient? && t.gone == s.gone + {s.daemon.client} && t.dir == s.dir)
    ensures Stranded(t) == Stranded(s) + Strands(s, a)
  {
  }

  lemma CallStrands(s: State, a: Action)
    requires ClientInv(s) && a.Call? && CallEnabled(s, a)
    ensures Stranded(Step(s, a)) == Stranded(s) + Strands(s, a)
  {
    OthersStrand(s, Step(s, a), a);
  }

  /** Exactly what a step adds to the stranded clients; none is ever found again. */
  lemma StepStrands(s: State, a: Action)
    requires ClientInv(s)
    ensures Stranded(Step(s, a)) == Stranded(s) + Strands(s, a)
    ensures Stranded(s) !! Strands(s, a) && |Strands(s, a)| <= 1
  {
    if a.ByHook() { HookStrands(s, a); }
    else if a.Call? && CallEnabled(s, a) { CallStrands(s, a); }
    else { RestStrands(s, a); }
    StrandsAreNew(s, a);
  }

  lemma RestStrands(s: State, a: Action)
    requires ClientInv(s) && !a.ByHook() && !(a.Call? && CallEnabled(s, a))
    ensures Stranded(Step(s, a)) == Stranded(s) + Strands(s, a)
  {
    if a.ByOperator() { OperatorTouchesNoClient(s, a); }
    OthersStrand(s, Step(s, a), a);
  }

  lemma StrandsAreNew(s: State, a: Action)
    requires ClientInv(s)
    ensures Stranded(s) !! Strands(s, a) && |Strands(s, a)| <= 1
  {
  }

  function StrandedCount(s: State, acts: seq<Action>): nat {
    if acts == [] then 0
    else
      var init := acts[..|acts| - 1];
      StrandedCount(s, init) + |Strands(Run(s, init), acts[|acts| - 1])|
  }

  /** Over any run, the clients that are neither revoked, nor named by the directory, nor held by the hook are
    * exactly as many as the steps that strand one; and no later step revokes or names any of them. */
  lemma {:induction false} ClientsAreConserved(acts: seq<Action>)
    ensures |Stranded(Run(START, acts))| == StrandedCount(START, acts)
    ensures acts != [] ==> Stranded(Run(START, acts[..|acts| - 1])) <= Stranded(Run(START, acts))
    decreases |acts|
  {
    if acts != [] {
      var init, a := acts[..|acts| - 1], acts[|acts| - 1];
      ClientsAreConserved(init);
      StrandedGrow(init, a);
    }
  }

  lemma StrandedGrow(init: seq<Action>, a: Action)
    ensures var s := Run(START, init);
            && |Stranded(Step(s, a))| == |Stranded(s)| + |Strands(s, a)| && Stranded(s) <= Stranded(Step(s, a))
  {
    RunKeepsClientInv(init);
    StepStrands(Run(START, init), a);
  }

  // ---------------------------------------------------------------- what a reap leaves behind

  /** The operator never revokes a client, and never touches the directory that names one. */
  lemma OperatorTouchesNoClient(s: State, a: Action)
    requires a.ByOperator()
    ensures var t := OperatorStep(s, a);
            t == s.(stored := t.stored, clock := t.clock, revoked := t.revoked, reapers := t.reapers)
  {
  }

  /** Once the record is gone, an unprepare finds nothing to do. So unless the claim is prepared anew, no client
    * is ever revoked again, and the directory goes on naming the one it names. */
  lemma {:induction false} NothingIsRevokedWithoutARecord(s: State, after: seq<Action>)
    requires s.stored.None? && (s.daemon.Idle? || s.daemon.Reading?)
    requires BeginPrepare !in after
    ensures var t := Run(s, after);
            && t.stored.None? && (t.daemon.Idle? || t.daemon.Reading?) && t.gone == s.gone
            && (s.dir.config.Some? && s.hook.NoHook? ==> t.dir.config == s.dir.config && t.hook.NoHook?)
    decreases |after|
  {
    if after != [] {
      var init, a := after[..|after| - 1], after[|after| - 1];
      NothingIsRevokedWithoutARecord(s, init);
      assert a in after;
      StaysWithoutARecord(Run(s, init), a);
    }
  }

  lemma StaysWithoutARecord(s: State, a: Action)
    requires s.stored.None? && (s.daemon.Idle? || s.daemon.Reading?) && !a.BeginPrepare?
    ensures var t := Step(s, a);
            && t.stored.None? && (t.daemon.Idle? || t.daemon.Reading?) && t.gone == s.gone
            && (s.dir.config.Some? && s.hook.NoHook? ==> t.dir.config == s.dir.config && t.hook.NoHook?)
  {
  }

  // ---------------------------------------------------------------- both happen without a failure

  lemma RunMore(acts: seq<Action>, a: Action)
    ensures Run(START, acts + [a]) == Step(Run(START, acts), a)
  {
    assert (acts + [a])[..|acts|] == acts;
  }

  const CALL := Call(Done, "", NO_DIR, true)
  const HOOK := HookCall(Done, 1)
  const REAP := OperatorCall(0, Done)

  function Minted(): seq<Action> { [BeginPrepare] + [CALL] + [Call(Done, "token", NO_DIR, true)] }

  function Begun(): seq<Action> { Minted() + [CALL] + [CALL] + [CALL] + [CALL] }

  lemma MintedReaches()
    ensures Run(START, Minted()) == START.(minted := {"token"}, daemon := StagingGuest("token"))
  {
    var a: seq<Action> := [BeginPrepare];
    assert Run(START, a) == START.(daemon := Loading) by { assert a[..0] == []; }
    RunMore(a, CALL);
    RunMore(a + [CALL], Call(Done, "token", NO_DIR, true));
  }

  /** The claim prepared, before any container started. */
  const PREPARED := START.(minted := {"token"}, secret := Some("token"), dir := Dir(true, Some("token"), None, true),
                           stored := Some(Object(Record("token", CDI_NAME), true, {}, false, 0)), clock := 1)

  lemma BegunReaches()
    ensures Run(START, Begun()) == PREPARED
  {
    var b := Minted();
    MintedReaches();
    RunMore(b, CALL);
    RunMore(b + [CALL], CALL);
    RunMore(b + [CALL] + [CALL], CALL);
    RunMore(b + [CALL] + [CALL] + [CALL], CALL);
    FourCalls(Run(START, b));
  }

  lemma FourCalls(s: State)
    requires s == START.(minted := {"token"}, daemon := StagingGuest("token"))
    ensures Step(Step(Step(Step(s, CALL), CALL), CALL), CALL) == PREPARED
  {
    var guest := s.(secret := Some("token"), daemon := StagingCDI("token"));
    var cdi := guest.(dir := Dir(true, Some("token"), None, true), daemon := Looking("token"));
    assert Step(s, CALL) == guest;
    assert NO_DIR.Leaves(NO_DIR);
    assert Step(guest, CALL) == cdi;
    assert Step(cdi, CALL) == cdi.(daemon := Storing("token", None));
  }

  /** A claim whose container is being created when its unprepare scans the directory. */
  function Scanned(): seq<Action> { Begun() + [HookStarts] + [BeginUnprepare] + [CALL] + [CALL] }

  lemma ScannedReaches()
    ensures Run(START, Scanned()) ==
              PREPARED.(hook := Spending("token"), daemon := RevokingToken(Record("token", CDI_NAME), None))
    ensures !Missed(Scanned())
  {
    var b := Begun();
    BegunReaches();
    RunMore(b, HookStarts);
    RunMore(b + [HookStarts], BeginUnprepare);
    RunMore(b + [HookStarts] + [BeginUnprepare], CALL);
    RunMore(b + [HookStarts] + [BeginUnprepare] + [CALL], CALL);
    var c := b + [HookStarts] + [BeginUnprepare] + [CALL];
    assert Scanned()[..|Scanned()| - 1] == c;
  }

  /** Then the hook exchanges the token just before it is revoked, and caches the client. */
  function Forgotten(): seq<Action> { Scanned() + [HOOK] + [CALL] + [HOOK] + [HOOK] }

  /** A teardown in which no call fails, and which strands a client. */
  lemma AnUncachedClientIsReachable()
    ensures var s := Run(START, Forgotten());
            && s.daemon.RemovingCDI? && s.hook.NoHook? && s.dir.config == Some(1) && 1 !in s.gone && Missed(Forgotten())
            && Step(s, CALL).daemon.RemovingGuest? && Stranded(Step(s, CALL)) == {1}
  {
    var b := Scanned();
    ScannedReaches();
    RunMore(b, HOOK);
    RunMore(b + [HOOK], CALL);
    RunMore(b + [HOOK] + [CALL], HOOK);
    RunMore(b + [HOOK] + [CALL] + [HOOK], HOOK);
    CachedLate(Run(START, b));
    var s := Run(START, Forgotten());
    assert s.spent["token"] == 1;
    RunTracks(Forgotten());
  }

  lemma CachedLate(s: State)
    requires s == PREPARED.(hook := Spending("token"), daemon := RevokingToken(Record("token", CDI_NAME), None))
    ensures Step(Step(Step(Step(s, HOOK), CALL), HOOK), HOOK) ==
              PREPARED.(revoked := {"token"}, spent := map["token" := 1], dir := Dir(true, None, Some(1), true),
                        daemon := RemovingCDI(Record("token", CDI_NAME), None))
  {
    var t := s.(spent := map["token" := 1], hook := Caching(1));
    assert Step(s, HOOK) == t;
    var u := t.(revoked := {"token"}, daemon := RemovingCDI(Record("token", CDI_NAME), None));
    assert Step(t, CALL) == u;
    assert Step(u, HOOK) == u.(dir := Dir(true, Some("token"), Some(1), true), hook := Cleaning);
  }

  /** A claim whose container ran, and which the operator reaps: nothing failed, and nothing revokes its client
    * unless the claim is prepared anew. */
  function Reaped(): seq<Action> {
    Begun() + [HookStarts] + [HOOK] + [HOOK] + [HOOK] + [OperatorLists(0)] + [REAP] + [REAP] + [REAP]
  }

  lemma AReapedClientStaysAlive(after: seq<Action>)
    requires BeginPrepare !in after
    ensures var s := Run(START, Reaped()); s.stored.None? && "token" in s.revoked && s.spent == map["token" := 1]
    ensures var t := Run(Run(START, Reaped()), after); 1 !in t.gone && t.dir.config == Some(1)
  {
    var b := Begun();
    BegunReaches();
    RunMore(b, HookStarts);
    RunMore(b + [HookStarts], HOOK);
    RunMore(b + [HookStarts] + [HOOK], HOOK);
    RunMore(b + [HookStarts] + [HOOK] + [HOOK], HOOK);
    Staged(PREPARED);
    var c := b + [HookStarts] + [HOOK] + [HOOK] + [HOOK];
    RunMore(c, OperatorLists(0));
    RunMore(c + [OperatorLists(0)], REAP);
    RunMore(c + [OperatorLists(0)] + [REAP], REAP);
    RunMore(c + [OperatorLists(0)] + [REAP] + [REAP], REAP);
    ReapedFrom(Run(START, c));
    NothingIsRevokedWithoutARecord(Run(START, Reaped()), after);
  }

  const STAGED := PREPARED.(spent := map["token" := 1], dir := Dir(true, None, Some(1), true))

  lemma Staged(s: State)
    requires s == PREPARED
    ensures Step(Step(Step(Step(s, HookStarts), HOOK), HOOK), HOOK) == STAGED
  {
    var t := s.(hook := Spending("token"));
    var u := s.(spent := map["token" := 1], hook := Caching(1));
    assert Step(s, HookStarts) == t;
    assert Step(t, HOOK) == u;
    assert Step(u, HOOK) == u.(dir := Dir(true, Some("token"), Some(1), true), hook := Cleaning);
  }

  lemma ReapedFrom(s: State)
    requires s == STAGED
    ensures var t := Step(Step(Step(Step(s, OperatorLists(0)), REAP), REAP), REAP);
            && t.stored.None? && t.revoked == {"token"} && t.daemon.Idle? && t.hook.NoHook?
            && t.gone == {} && t.dir == s.dir && t.spent == s.spent
  {
    var o := s.stored.value;
    var t := s.(reapers := map[0 := Listed(o)]);
    var u := s.(revoked := {"token"}, reapers := map[0 := Revoked(o)]);
    assert Step(s, OperatorLists(0)) == t;
    assert Step(t, REAP) == u;
    var v := Step(u, REAP);
    assert v.reapers[0] == Released(o) && v.stored == Some(o.(ours := false, version := 1));
  }
}
