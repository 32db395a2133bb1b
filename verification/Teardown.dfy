/** unprepareOne as a recovery procedure. */
module Teardown {
  import opened Outcomes
  import opened Wrappers
  import opened Lifecycle
  import Enrollment

  function Remaining(d: Daemon): nat {
    match d
    case Idle => 0
    case Deleting(_) => 1
    case Releasing(_, _) => 2
    case Rereading(_) => 3
    case RemovingGuest(_) => 4
    case RemovingCDI(_, _) => 5
    case RevokingToken(_, _) => 6
    case RevokingClient(_, _) => 7
    case Scanning(_) => 8
    case Reading => 9
    case _ => 10
  }

  /** The daemon's next call, going well. */
  function NextCall(s: State): Action { Call(Done, "", s.dir, true) }

  /** The rest of an unprepare in which no call fails and nothing interferes. */
  function Finish(s: State): State
    decreases Remaining(s.daemon)
  {
    var t := Step(s, NextCall(s));
    if Remaining(t.daemon) < Remaining(s.daemon) < 10 then Finish(t) else s
  }

  function Foreign(s: State): set<string> { if s.stored.Some? then s.stored.value.others else {} }

  /** Nothing of the claim is left but, at most, an object only other controllers' finalizers hold. */
  predicate Clean(s: State, r: Record, foreign: set<string>) {
    && r.token in s.revoked && s.dir == NO_DIR && s.secret == None && s.daemon == Idle && s.hook == NoHook
    && (s.stored.Some? ==>
          !s.stored.value.ours && s.stored.value.deleting && {} != s.stored.value.others <= foreign)
  }

  predicate Swept(s: State) { s.dir == NO_DIR && s.secret == None && s.hook.NoHook? }

  lemma FinishesIdle(s: State)
    requires s.daemon.Idle?
    ensures Finish(s) == s
  {
  }

  lemma LastCall(s: State)
    requires s.daemon.Deleting? && s.hook.NoHook?
    ensures Step(s, NextCall(s)) == DeleteObject(s).(daemon := Idle)
  {
  }

  lemma FinishesDeleting(s: State)
    requires Inv(s) && s.daemon.Deleting? && Swept(s)
    ensures Clean(Finish(s), s.daemon.record, Foreign(s)) && Finish(s).gone == s.gone
  {
    FinishDeletes(s);
    DeletedIsClean(s);
  }

  lemma FinishDeletes(s: State)
    requires s.daemon.Deleting? && s.hook.NoHook?
    ensures Finish(s) == DeleteObject(s).(daemon := Idle)
  {
    LastCall(s);
    FinishesIdle(DeleteObject(s).(daemon := Idle));
  }

  lemma DeletedIsClean(s: State)
    requires Inv(s) && s.daemon.Deleting? && Swept(s)
    ensures Clean(DeleteObject(s).(daemon := Idle), s.daemon.record, Foreign(s))
  {
  }

  lemma FinishesReleasing(s: State)
    requires Inv(s) && s.daemon.Releasing? && Swept(s) && s.stored == Some(s.daemon.base)
    ensures Clean(Finish(s), s.daemon.record, Foreign(s)) && Finish(s).gone == s.gone
  {
    var t := Step(s, NextCall(s));
    StepKeepsInv(s, NextCall(s));
    assert t.daemon == Deleting(s.daemon.record);
    FinishesDeleting(t);
  }

  lemma FinishesRereading(s: State)
    requires Inv(s) && s.daemon.Rereading? && Swept(s)
    ensures Clean(Finish(s), s.daemon.record, Foreign(s)) && Finish(s).gone == s.gone
  {
    var t := Step(s, NextCall(s));
    StepKeepsInv(s, NextCall(s));
    if s.stored.None? {
      FinishesIdle(t);
      assert Finish(s) == Finish(t);
    } else if s.stored.value.ours {
      FinishesReleasing(t);
      assert Finish(s) == Finish(t);
    } else {
      FinishesDeleting(t);
      assert Finish(s) == Finish(t);
    }
  }

  lemma FinishesRemovingGuest(s: State)
    requires Inv(s) && s.hook.NoHook? && s.daemon.RemovingGuest? && s.dir == NO_DIR
    ensures Clean(Finish(s), s.daemon.record, Foreign(s)) && Finish(s).gone == s.gone
  {
    var t := s.(secret := None, daemon := Rereading(s.daemon.record));
    assert Step(s, NextCall(s)) == t;
    StepKeepsInv(s, NextCall(s));
    FinishesRereading(t);
    assert Finish(s) == Finish(t);
  }

  lemma FinishesRemoving(s: State)
    requires Inv(s) && s.hook.NoHook? && s.daemon.RemovingCDI?
    ensures Clean(Finish(s), s.daemon.record, Foreign(s)) && Finish(s).gone == s.gone
  {
    var t := s.(dir := NO_DIR, daemon := RemovingGuest(s.daemon.record));
    assert Step(s, NextCall(s)) == t;
    StepKeepsInv(s, NextCall(s));
    FinishesRemovingGuest(t);
    assert Finish(s) == Finish(t);
  }

  lemma FinishesRevoking(s: State)
    requires Inv(s) && s.hook.NoHook?
    requires s.daemon.Scanning? || s.daemon.RevokingClient? || s.daemon.RevokingToken?
    ensures Clean(Finish(s), s.daemon.record, Foreign(s)) && s.gone <= Finish(s).gone
    ensures s.daemon.Scanning? && s.dir.config.Some? ==> s.dir.config.value in Finish(s).gone
    ensures s.daemon.RevokingClient? ==> s.daemon.client in Finish(s).gone
    decreases Remaining(s.daemon)
  {
    var t := Step(s, NextCall(s));
    StepKeepsInv(s, NextCall(s));
    if s.daemon.RevokingToken? { FinishesRemoving(t); } else { FinishesRevoking(t); }
  }

  /** Teardown is retryable. From any state a run can reach, however many attempts failed or died before,
    * if the record is there and no hook is staging the claim, one unprepare whose calls go well revokes the
    * token and the client the directory names, and removes the directory, the Secret and the record. */
  lemma UnprepareCompletes(acts: seq<Action>)
    requires var s := Run(START, acts); s.daemon.Idle? && s.hook.NoHook? && s.stored.Some?
    ensures var s := Run(START, acts);
            var t := Finish(Step(s, BeginUnprepare));
            && Clean(t, s.stored.value.record, s.stored.value.others)
            && (s.stored.value.others == {} ==> t.stored == None)
            && (s.dir.config.Some? ==> s.dir.config.value in t.gone)
  {
    var s := Run(START, acts);
    Enrollment.RunKeepsInv(START, acts);
    StepKeepsInv(s, BeginUnprepare);
    FinishesReading(Step(s, BeginUnprepare));
  }

  lemma FinishesReading(s: State)
    requires Inv(s) && s.hook.NoHook? && s.daemon.Reading? && s.stored.Some?
    ensures Clean(Finish(s), s.stored.value.record, Foreign(s))
    ensures s.dir.config.Some? ==> s.dir.config.value in Finish(s).gone
  {
    var t := Step(s, NextCall(s));
    StepKeepsInv(s, NextCall(s));
    assert Finish(s) == Finish(t);
    FinishesRevoking(t);
  }

  /** A reap in which nothing fails or interferes takes the record away, or leaves it to others' finalizers, with its
    * token revoked first. */
  lemma ReapCompletes(s: State, i: nat)
    requires Inv(s) && s.stored.Some? && i !in s.reapers
    ensures var o := s.stored.value;
            var listed := Step(s, OperatorLists(i));
            var revoked := Step(listed, OperatorCall(i, Done));
            var released := Step(revoked, OperatorCall(i, Done));
            var t := Step(released, OperatorCall(i, Done));
            && revoked == listed.(revoked := s.revoked + {o.record.token}, reapers := revoked.reapers)
            && t.revoked == revoked.revoked && t.reapers == s.reapers
            && (if o.others == {} then t.stored == None
                else t.stored.Some? && t.stored.value.record == o.record && t.stored.value.others == o.others
                     && !t.stored.value.ours && t.stored.value.deleting)
            && t == s.(stored := t.stored, clock := t.clock, revoked := t.revoked)
  {
    var o, listed := s.stored.value, Step(s, OperatorLists(i));
    assert listed.reapers[i] == Listed(o);
    var revoked := Step(listed, OperatorCall(i, Done));
    assert revoked.reapers == s.reapers[i := Revoked(o)] && !Stale(revoked, o);
    var released := Step(revoked, OperatorCall(i, Done));
    assert released.reapers == s.reapers[i := Released(o)];
    var t := Step(released, OperatorCall(i, Done));
    assert t.reapers == s.reapers;
  }
}
