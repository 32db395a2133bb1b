/** What a prepare that finds a record hands out: the record says nothing of the Secret and the directory it was
  * stored with, and what has become of them since. */
module Reuse {
  import opened Outcomes
  import opened Wrappers
  import opened Lifecycle
  import Clients
  import Enrollment
  import Preparation

  /** The Secret holds the token, and the claim's directory and CDI spec are there. */
  predicate Whole(s: State, token: Token) { s.secret == Some(token) && s.dir.present && s.dir.spec }

  /** The step stores the claim's record, whatever it answers. */
  predicate Stores(s: State, a: Action) {
    a.Call? && s.daemon.Storing? && s.stored.None? && Step(s, a).stored.Some?
  }

  /** A call of a rollback or of a teardown that takes away the directory, the spec or the Secret. */
  predicate Takes(s: State, a: Action) {
    && a.Call? && CallEnabled(s, a)
    && (|| ((s.daemon.UndoingCDI? || s.daemon.RemovingCDI?) && !(Step(s, a).dir.present && Step(s, a).dir.spec))
        || ((s.daemon.UndoingGuest? || s.daemon.RemovingGuest?) && a.outcome.TakesEffect()))
  }

  /** Since the record was stored, a rollback or a teardown has taken something away. */
  predicate Spoiled(acts: seq<Action>)
    decreases |acts|
  {
    acts != [] &&
    var init, a := acts[..|acts| - 1], acts[|acts| - 1];
    var s := Run(START, init);
    !Stores(s, a) && (Takes(s, a) || Spoiled(init))
  }

  predicate OwnToken(s: State, token: Token) { s.dir.token == None || s.dir.token == Some(token) }

  /** How Secret and directory stand to the record, and to a prepare about to store one. */
  predicate Stands(s: State, spoiled: bool) {
    && (s.stored.Some? ==>
          var token := s.stored.value.record.token; (Whole(s, token) <==> !spoiled) && OwnToken(s, token))
    && (s.daemon.StagingCDI? ==> s.secret == Some(s.daemon.token))
    && (s.daemon.Looking? || s.daemon.Storing? ==> Whole(s, s.daemon.token) && OwnToken(s, s.daemon.token))
  }

  lemma PrepareStands(s: State, a: Action, spoiled: bool)
    requires Inv(s) && Stands(s, spoiled) && a.Call? && CallEnabled(s, a)
    requires s.daemon.Loading? || s.daemon.Minting? || s.daemon.InPrepare()
    ensures Stands(PrepareCall(s, a), !Stores(s, a) && (Takes(s, a) || spoiled))
  {
  }

  lemma UnprepareStands(s: State, a: Action, spoiled: bool)
    requires Inv(s) && Stands(s, spoiled) && a.Call? && CallEnabled(s, a)
    requires s.daemon.Reading? || s.daemon.InUnprepare()
    ensures Stands(UnprepareCall(s, a), Takes(s, a) || spoiled)
  {
    if s.daemon.RemovingCDI? || s.daemon.RemovingGuest? { RemovalStands(s, a, spoiled); }
    else { OtherCallsStand(s, a, spoiled); }
  }

  lemma RemovalStands(s: State, a: Action, spoiled: bool)
    requires Inv(s) && Stands(s, spoiled) && a.Call? && CallEnabled(s, a)
    requires s.daemon.RemovingCDI? || s.daemon.RemovingGuest?
    ensures Stands(UnprepareCall(s, a), Takes(s, a) || spoiled)
  {
  }

  lemma OtherCallsStand(s: State, a: Action, spoiled: bool)
    requires Inv(s) && Stands(s, spoiled) && a.Call? && CallEnabled(s, a)
    requires (s.daemon.Reading? || s.daemon.InUnprepare()) && !s.daemon.RemovingCDI? && !s.daemon.RemovingGuest?
    ensures Stands(UnprepareCall(s, a), spoiled)
  {
    if s.daemon.Releasing? && !Stale(s, s.daemon.base) { ReleaseFollows(s, s.daemon.base); }
    if s.daemon.Deleting? { DeleteFollows(s); }
  }

  lemma OthersStand(s: State, a: Action, spoiled: bool)
    requires Inv(s) && Stands(s, spoiled) && !(a.Call? && CallEnabled(s, a))
    ensures Stands(Step(s, a), spoiled)
  {
    if a.ByOperator() { OperatorFollows(s, a); }
  }

  lemma StepStands(s: State, a: Action, spoiled: bool)
    requires Inv(s) && Stands(s, spoiled)
    ensures Stands(Step(s, a), !Stores(s, a) && (Takes(s, a) || spoiled))
  {
    if !(a.Call? && CallEnabled(s, a)) { OthersStand(s, a, spoiled); }
    else if s.daemon.Reading? || s.daemon.InUnprepare() { UnprepareStands(s, a, spoiled); }
    else { PrepareStands(s, a, spoiled); }
  }

  lemma {:induction false} RunStands(acts: seq<Action>)
    ensures Stands(Run(START, acts), Spoiled(acts))
    decreases |acts|
  {
    if acts != [] {
      var init, a := acts[..|acts| - 1], acts[|acts| - 1];
      RunStands(init);
      Enrollment.RunKeepsInv(START, init);
      StepStands(Run(START, init), a, Spoiled(init));
    }
  }

  /** A claim with a record still has its Secret, directory and spec exactly if, since the record was stored, no
    * rollback and no teardown has taken any of them away. */
  lemma ARecordIsWholeExactly(acts: seq<Action>)
    requires Run(START, acts).stored.Some?
    ensures var s := Run(START, acts); Whole(s, s.stored.value.record.token) <==> !Spoiled(acts)
  {
    RunStands(acts);
  }

  // ---------------------------------------------------------------- starting the container

  /** A hook in which nothing goes wrong; Thunder would make this client. */
  function HookRun(s: State, client: Client): State {
    var a := HookCall(Done, client);
    Step(Step(Step(Step(s, HookStarts), a), a), a)
  }

  /** It stages a client exactly if one is cached, or the directory holds a token Thunder still exchanges. */
  lemma HookStagesExactly(s: State, client: Client)
    requires s.hook.NoHook? && s.dir.present && client !in s.spent.Values && client !in s.gone
    ensures HookRun(s, client).dir.config.Some? <==>
              || s.dir.config.Some?
              || (s.dir.token.Some? && s.dir.token.value in s.minted - s.revoked && s.dir.token.value !in s.spent)
  {
    if s.dir.config.None? && s.dir.token.Some? && s.dir.token.value in s.minted - s.revoked
       && s.dir.token.value !in s.spent
    {
      var t := s.(hook := Spending(s.dir.token.value));
      assert Step(s, HookStarts) == t;
      var u := t.(spent := t.spent[s.dir.token.value := client], hook := Caching(client));
      assert Step(t, HookCall(Done, client)) == u;
    }
  }

  /** A prepare that finds a record changes nothing. */
  lemma ReuseChangesNothing(acts: seq<Action>, issued: Token)
    requires var s := Run(START, acts); s.daemon.Idle? && s.stored.Some?
    ensures var s := Run(START, acts); Preparation.Proceed(Step(s, BeginPrepare), issued) == s
  {
    Enrollment.RunKeepsInv(START, acts);
    var s := Run(START, acts);
    var t := s.(daemon := Loading);
    assert Step(t, Preparation.GoodCall(t, issued)) == s;
    assert Preparation.Proceed(s, issued) == s;
  }

  /** So a prepare that finds a record hands out a claim whose container can start exactly if nothing has been
    * taken away since the record was stored, and a client is cached or the token neither revoked nor spent. */
  lemma AReusedRecordIsUsableExactly(acts: seq<Action>, issued: Token, client: Client)
    requires var s := Run(START, acts); s.daemon.Idle? && s.hook.NoHook? && s.stored.Some?
    requires var s := Run(START, acts); client !in s.spent.Values && client !in s.gone
    ensures var s := Run(START, acts);
            var token := s.stored.value.record.token;
            var t := Preparation.Proceed(Step(s, BeginPrepare), issued);
            Whole(t, token) && HookRun(t, client).dir.config.Some? <==>
              && !Spoiled(acts)
              && (s.dir.config.Some? || (s.dir.token == Some(token) && token !in s.revoked && token !in s.spent))
  {
    var s := Run(START, acts);
    ReuseChangesNothing(acts, issued);
    RunStands(acts);
    Enrollment.RunKeepsInv(START, acts);
    if s.dir.present { HookStagesExactly(s, client); }
  }

  // ---------------------------------------------------------------- an empty claim is handed out

  const LOST := Call(Lost, "", NO_DIR, true)

  /** Everything of a prepare goes well but the answer to its last call; and so does the rollback. */
  function RolledBack(): seq<Action> {
    Clients.Minted() + [Clients.CALL] + [Clients.CALL] + [Clients.CALL] + [LOST]
    + [Clients.CALL] + [Clients.CALL] + [Clients.CALL]
  }

  const EMPTY := START.(minted := {"token"}, revoked := {"token"},
                        stored := Some(Object(Record("token", CDI_NAME), true, {}, false, 0)), clock := 1)

  lemma SevenCalls(s: State)
    requires s == START.(minted := {"token"}, daemon := StagingGuest("token"))
    ensures var c := Clients.CALL;
            Step(Step(Step(Step(Step(Step(Step(s, c), c), c), LOST), c), c), c) == EMPTY
  {
    var c := Clients.CALL;
    var guest := s.(secret := Some("token"), daemon := StagingCDI("token"));
    var cdi := guest.(dir := Dir(true, Some("token"), None, true), daemon := Looking("token"));
    var put := cdi.(daemon := Storing("token", None));
    var lost := cdi.(stored := EMPTY.stored, clock := 1, daemon := UndoingCDI("token"));
    assert Step(s, c) == guest;
    assert NO_DIR.Leaves(NO_DIR);
    assert Step(guest, c) == cdi;
    assert Step(cdi, c) == put;
    assert Step(put, LOST) == lost;
    assert Step(lost, c) == lost.(dir := NO_DIR, daemon := UndoingGuest("token"));
  }

  lemma RolledBackReaches()
    ensures Run(START, RolledBack()) == EMPTY
  {
    var c, b := Clients.CALL, Clients.Minted();
    Clients.MintedReaches();
    Clients.RunMore(b, c);
    Clients.RunMore(b + [c], c);
    Clients.RunMore(b + [c] + [c], c);
    Clients.RunMore(b + [c] + [c] + [c], LOST);
    Clients.RunMore(b + [c] + [c] + [c] + [LOST], c);
    Clients.RunMore(b + [c] + [c] + [c] + [LOST] + [c], c);
    Clients.RunMore(b + [c] + [c] + [c] + [LOST] + [c] + [c], c);
    SevenCalls(Run(START, b));
  }

  /** The upsert took effect, its answer was lost, and the rollback went through: a complete record is left, held by
    * our finalizer, with its token revoked and neither Secret nor directory. The next prepare hands it out. */
  lemma AnEmptyClaimIsPrepared(issued: Token)
    ensures var s := Run(START, RolledBack());
            && s == EMPTY && s.stored.value.record.Complete() && s.secret.None? && s.dir == NO_DIR
            && Spoiled(RolledBack())
            && Preparation.Proceed(Step(s, BeginPrepare), issued) == s
  {
    RolledBackReaches();
    ReuseChangesNothing(RolledBack(), issued);
    ARecordIsWholeExactly(RolledBack());
  }
}
