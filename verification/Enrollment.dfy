/** What the lifecycle protocol guarantees over whole runs. */
module Enrollment {
  import opened Outcomes
  import opened Lifecycle

  lemma {:induction false} RunKeepsInv(s: State, acts: seq<Action>)
    requires Inv(s)
    ensures Inv(Run(s, acts))
    decreases |acts|
  {
    if acts != [] {
      RunKeepsInv(s, acts[..|acts| - 1]);
      StepKeepsInv(Run(s, acts[..|acts| - 1]), acts[|acts| - 1]);
    }
  }

  // ---------------------------------------------------------------- no live token is forgotten

  /** In every interleaving of the daemon, the operators, outside deletes, foreign finalizers, failures and
    * crashes: as long as a stored token is not revoked, its record stays in the API, complete, unchanged
    * and under our finalizer. */
  lemma {:induction false} LiveTokenStaysRecorded(before: seq<Action>, after: seq<Action>)
    ensures var s := Run(START, before);
            var t := Run(s, after);
            s.stored.Some? && s.stored.value.record.token !in t.revoked ==>
              && t.stored.Some? && t.stored.value.record == s.stored.value.record
              && t.stored.value.ours && t.stored.value.record.Complete()
    decreases |after|
  {
    var s := Run(START, before);
    RunKeepsInv(START, before);
    RunKeepsInv(s, after);
    if after != [] {
      var init := after[..|after| - 1];
      LiveTokenStaysRecorded(before, init);
      RunKeepsInv(s, init);
      StepKeepsInv(Run(s, init), after[|after| - 1]);
    }
  }

  /** prepareOne's upsert always creates: it never finds, so never overwrites, another record. */
  lemma UpsertNeverOverwrites(acts: seq<Action>)
    ensures var s := Run(START, acts); s.daemon.BeforeStore() ==> s.stored.None?
    ensures var s := Run(START, acts); s.daemon.Storing? ==> s.daemon.current.None?
  {
    RunKeepsInv(START, acts);
  }

  // ---------------------------------------------------------------- conservation of tokens

  /** The tokens a step gives up on: a mint whose answer was lost, and a token still in hand when the daemon
    * dies or its last rollback call fails. */
  function Dropped(s: State, a: Action): set<Token> {
    if a.DaemonDies? then s.InHand() - s.revoked - s.Recorded()
    else if a.Call? && CallEnabled(s, a) && s.daemon.Minting? && a.outcome == Lost then {a.issued}
    else if a.Call? && CallEnabled(s, a) && s.daemon.UndoingToken? && a.outcome == Failed then
      s.InHand() - s.revoked - s.Recorded()
    else {}
  }

  lemma PrepareAbandons(s: State, a: Action)
    requires Inv(s) && a.Call? && CallEnabled(s, a)
    requires s.daemon.Loading? || s.daemon.Minting? || s.daemon.InPrepare()
    ensures PrepareCall(s, a).Abandoned() == s.Abandoned() + Dropped(s, a)
  {
  }

  lemma UnprepareAbandons(s: State, a: Action)
    requires Inv(s) && a.Call? && CallEnabled(s, a)
    requires s.daemon.Reading? || s.daemon.InUnprepare()
    ensures UnprepareCall(s, a).Abandoned() == s.Abandoned()
  {
    UnprepareMoves(s, a);
    AbandonedStay(s, UnprepareCall(s, a));
  }

  /** All an unprepare does about tokens is to revoke the recorded one, before it gives up the record. */
  lemma UnprepareMoves(s: State, a: Action)
    requires Inv(s) && a.Call? && CallEnabled(s, a)
    requires s.daemon.Reading? || s.daemon.InUnprepare()
    ensures var t := UnprepareCall(s, a);
            && t.minted == s.minted && t.InHand() == s.InHand()
            && s.revoked <= t.revoked <= s.revoked + s.Recorded()
            && t.Recorded() <= s.Recorded() <= t.Recorded() + t.revoked
  {
    UnprepareFollows(s, a);
    if s.daemon.RevokingToken? { assert Remembered(s, s.daemon.record); }
  }

  /** Moving a token from the record to the revoked ones, and nothing else, abandons none. */
  lemma AbandonedStay(s: State, t: State)
    requires t.minted == s.minted && t.InHand() == s.InHand()
    requires s.revoked <= t.revoked <= s.revoked + s.Recorded()
    requires t.Recorded() <= s.Recorded() <= t.Recorded() + t.revoked
    ensures t.Abandoned() == s.Abandoned()
  {
  }

  lemma OperatorAbandons(s: State, a: Action)
    requires Inv(s) && a.ByOperator()
    ensures OperatorStep(s, a).Abandoned() == s.Abandoned()
  {
    var t := OperatorStep(s, a);
    OperatorKeepsInv(s, a);
    if a.OperatorCall? && a.i in s.reapers {
      var base := s.reapers[a.i].base;
      assert ReaperInv(s, s.reapers[a.i]);
      match s.reapers[a.i]
      case Listed(_) =>
      case Revoked(_) => if !Stale(s, base) { ReleaseFollows(s, base); }
      case Released(_) => DeleteFollows(s);
    }
    AbandonedStay(s, t);
  }

  lemma OthersAbandon(s: State, a: Action)
    requires Inv(s) && !a.ByDaemon()
    ensures Step(s, a).Abandoned() == s.Abandoned()
  {
    if a.ByOperator() {
      OperatorAbandons(s, a);
    } else if !a.ByHook() {
      OutsideKeepsInv(s, a);
      AbandonedStay(s, OutsideStep(s, a));
    }
  }

  lemma DeathAbandons(s: State)
    requires Inv(s)
    ensures s.(daemon := Idle).Abandoned() == s.Abandoned() + Dropped(s, DaemonDies)
  {
  }

  lemma DroppedIsNew(s: State, a: Action)
    requires Inv(s)
    ensures s.Abandoned() !! Dropped(s, a) && |Dropped(s, a)| <= 1
  {
    assert Dropped(s, a) <= s.InHand() || (a.Call? && Dropped(s, a) <= {a.issued});
    if s.daemon.InPrepare() { assert s.InHand() == {s.daemon.token}; }
  }

  lemma DaemonAbandons(s: State, a: Action)
    requires Inv(s) && a.ByDaemon()
    ensures DaemonStep(s, a).Abandoned() == s.Abandoned() + Dropped(s, a)
  {
    match a
    case BeginPrepare =>
    case BeginUnprepare =>
    case DaemonDies => DeathAbandons(s);
    case Call(_, _, _, _) =>
      if CallEnabled(s, a) {
        if s.daemon.Reading? || s.daemon.InUnprepare() { UnprepareAbandons(s, a); } else { PrepareAbandons(s, a); }
      }
  }

  /** Exactly what a step adds to the abandoned tokens; nothing is ever taken back from them. */
  lemma StepAbandons(s: State, a: Action)
    requires Inv(s)
    ensures Step(s, a).Abandoned() == s.Abandoned() + Dropped(s, a)
    ensures |Step(s, a).Abandoned()| == |s.Abandoned()| + |Dropped(s, a)| <= |s.Abandoned()| + 1
  {
    DroppedIsNew(s, a);
    if a.ByDaemon() { DaemonAbandons(s, a); } else { OthersAbandon(s, a); }
  }

  function DroppedCount(s: State, acts: seq<Action>): nat {
    if acts == [] then 0
    else
      var init := acts[..|acts| - 1];
      DroppedCount(s, init) + |Dropped(Run(s, init), acts[|acts| - 1])|
  }

  /** By the definition of the abandoned tokens, and because the others are all minted ones. */
  lemma TokensArePartitioned(s: State)
    requires Inv(s)
    ensures s.minted == s.revoked + s.Recorded() + s.InHand() + s.Abandoned()
    ensures s.Abandoned() !! s.revoked + s.Recorded() + s.InHand()
  {
  }

  lemma AbandonedGrow(init: seq<Action>, a: Action)
    ensures var s := Run(START, init);
            |Step(s, a).Abandoned()| == |s.Abandoned()| + |Dropped(s, a)|
  {
    RunKeepsInv(START, init);
    StepAbandons(Run(START, init), a);
  }

  lemma {:induction false} AbandonedAreCounted(acts: seq<Action>)
    ensures |Run(START, acts).Abandoned()| == DroppedCount(START, acts)
    decreases |acts|
  {
    if acts == [] {
      assert START.Abandoned() == {};
    } else {
      var init, a := acts[..|acts| - 1], acts[|acts| - 1];
      AbandonedAreCounted(init);
      AbandonedGrow(init, a);
    }
  }

  /** Over any run, the minted tokens that are not revoked, recorded or in the daemon's hand are exactly as many as
    * the events that drop one. That is the content: abandoned means to be none of those, so that the four make up
    * the minted tokens holds by definition. */
  lemma TokensAreConserved(acts: seq<Action>)
    ensures var s := Run(START, acts);
            && s.minted == s.revoked + s.Recorded() + s.InHand() + s.Abandoned()
            && s.Abandoned() !! s.revoked + s.Recorded() + s.InHand()
            && |s.Abandoned()| == DroppedCount(START, acts)
  {
    RunKeepsInv(START, acts);
    TokensArePartitioned(Run(START, acts));
    AbandonedAreCounted(acts);
  }
}
