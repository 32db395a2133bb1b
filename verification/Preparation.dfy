/** prepareOne when nothing interferes: what it leaves when it goes well, what its rollback leaves, and that a
  * following unprepare takes it all back. */
module Preparation {
  import opened Outcomes
  import opened Wrappers
  import opened Lifecycle
  import Enrollment
  import Teardown

  function Left(d: Daemon): nat {
    match d
    case Idle => 0
    case UndoingToken(_) => 1
    case UndoingGuest(_) => 2
    case UndoingCDI(_) => 3
    case Storing(_, _) => 4
    case Looking(_) => 5
    case StagingCDI(_) => 6
    case StagingGuest(_) => 7
    case Minting => 8
    case Loading => 9
    case _ => 10
  }

  /** The daemon's next call, going well; a mint would return this token. */
  function GoodCall(s: State, issued: Token): Action { Call(Done, issued, s.dir, true) }

  /** The rest of a prepare in which no further call fails and nothing interferes. */
  function Proceed(s: State, issued: Token): State
    decreases Left(s.daemon)
  {
    var t := Step(s, GoodCall(s, issued));
    if Left(t.daemon) < Left(s.daemon) < 10 then Proceed(t, issued) else s
  }

  /** A prepared claim: its token in the Secret and the directory, its record held by our finalizer. What else
    * the directory held before stays. */
  function Prepared(s: State, token: Token): State {
    s.(minted := s.minted + {token}, secret := Some(token), dir := Dir(true, Some(token), s.dir.config, true),
       stored := Some(Object(Record(token, CDI_NAME), true, {}, false, s.clock)), clock := s.clock + 1, daemon := Idle)
  }

  lemma Stored(s: State, issued: Token)
    requires s.stored.None? && s.daemon.Looking?
    ensures var token := s.daemon.token;
            Proceed(s, issued) == s.(stored := Some(Object(Record(token, CDI_NAME), true, {}, false, s.clock)),
                                     clock := s.clock + 1, daemon := Idle)
  {
    var token := s.daemon.token;
    var t := s.(daemon := Storing(token, None));
    var u := s.(stored := Some(Object(Record(token, CDI_NAME), true, {}, false, s.clock)), clock := s.clock + 1,
                daemon := Idle);
    assert Step(s, GoodCall(s, issued)) == t;
    assert Step(t, GoodCall(t, issued)) == u;
    assert Proceed(u, issued) == u;
    assert Proceed(t, issued) == u;
  }

  lemma Staged(s: State, issued: Token)
    requires s.stored.None? && s.daemon.StagingGuest?
    ensures var token := s.daemon.token;
            Proceed(s, issued) == Prepared(s, token).(minted := s.minted)
  {
    var token := s.daemon.token;
    var t := s.(secret := Some(token), daemon := StagingCDI(token));
    var u := t.(dir := Dir(true, Some(token), s.dir.config, true), daemon := Looking(token));
    assert Step(s, GoodCall(s, issued)) == t;
    assert Step(t, GoodCall(t, issued)) == u;
    Stored(u, issued);
    assert Proceed(t, issued) == Proceed(u, issued);
  }

  /** A claim without a record, prepared with no failure: exactly this, and nothing else has changed. */
  lemma PrepareCompletes(s: State, issued: Token)
    requires s.daemon.Idle? && s.stored.None? && issued != "" && issued !in s.minted
    ensures Proceed(Step(s, BeginPrepare), issued) == Prepared(s, issued)
  {
    var t := s.(daemon := Loading);
    var u := s.(daemon := Minting);
    var v := s.(minted := s.minted + {issued}, daemon := StagingGuest(issued));
    assert Step(s, BeginPrepare) == t;
    assert Step(t, GoodCall(t, issued)) == u;
    assert Step(u, GoodCall(u, issued)) == v;
    Staged(v, issued);
    assert Proceed(u, issued) == Proceed(v, issued);
    assert Proceed(t, issued) == Proceed(u, issued);
  }

  /** The rollback, each call going well, takes back what had been done when it began: always the token, the
    * Secret once it was written, and the directory and spec file too if storing the record failed. */
  lemma RollbackCompletes(s: State)
    requires s.daemon.UndoingCDI? || s.daemon.UndoingGuest? || s.daemon.UndoingToken?
    requires s.daemon.UndoingCDI? ==> s.hook.NoHook?
    ensures Proceed(s, "") == s.(
              revoked := s.revoked + {s.daemon.token},
              secret := if s.daemon.UndoingToken? then s.secret else None,
              dir := if s.daemon.UndoingCDI? then NO_DIR else s.dir,
              daemon := Idle)
    decreases Left(s.daemon)
  {
    var t := Step(s, GoodCall(s, ""));
    if s.daemon.UndoingToken? {
      assert Proceed(t, "") == t;
    } else {
      RollbackCompletes(t);
    }
  }

  /** Unprepare undoes prepare: of a claim prepared from any state a run can reach nothing is left, neither
    * Secret nor directory nor record, and its token is revoked. */
  lemma UnprepareUndoesPrepare(acts: seq<Action>, issued: Token)
    requires var s := Run(START, acts); s.daemon.Idle? && s.hook.NoHook? && s.stored.None?
    requires issued != "" && issued !in Run(START, acts).minted
    ensures var s := Run(START, acts);
            var t := Teardown.Finish(Step(Proceed(Step(s, BeginPrepare), issued), BeginUnprepare));
            && Teardown.Clean(t, Record(issued, CDI_NAME), {}) && t.stored.None?
            && (s.dir.config.Some? ==> s.dir.config.value in t.gone)
  {
    var s := Run(START, acts);
    Enrollment.RunKeepsInv(START, acts);
    PrepareCompletes(s, issued);
    var t := Prepared(s, issued);
    PreparedKeepsInv(s, issued);
    StepKeepsInv(t, BeginUnprepare);
    Teardown.FinishesReading(Step(t, BeginUnprepare));
  }

  lemma PreparedKeepsInv(s: State, issued: Token)
    requires Inv(s) && s.daemon.Idle? && s.stored.None? && issued != "" && issued !in s.minted
    ensures Inv(Prepared(s, issued))
  {
    var t := Prepared(s, issued);
    forall i | i in t.reapers ensures ReaperInv(t, t.reapers[i]) {
      assert ReaperInv(s, s.reapers[i]);
    }
  }
}
