/** The enrollment of one claim, as a protocol between the node's daemon, the operator's reaper, the CDI
  * hook and whoever else deletes API objects or puts finalizers on them.
  *
  * Every external call is one step. It may be done, fail without effect, or take effect and still report
  * an error (`Lost`); any process may die between two steps. A disabled action changes nothing. */
module Lifecycle {
  import opened Outcomes
  import opened Wrappers

  type Token = string
  type Client = nat

  /** The fields of a stored ThunderClient that the daemon and the operator act on. */
  datatype Record = Record(token: Token, cdi: string)
  {
    predicate Complete() { token != "" && cdi != "" }
  }

  /** The API object: its finalizers are ours and others'; a delete of a held object only marks it. */
  datatype Object = Object(record: Record, ours: bool, others: set<string>, deleting: bool, version: nat)
  {
    predicate Held() { ours || others != {} }
  }

  /** The claim's state directory and CDI spec file. */
  datatype Dir = Dir(present: bool, token: Option<Token>, config: Option<Client>, spec: bool)
  {
    /** What may be left when removing this directory fails part of the way. */
    predicate Leaves(d: Dir) {
      && (d.token == None || d.token == token)
      && (d.config == None || d.config == config)
      && (d.spec ==> spec) && (d.present ==> present)
    }
  }

  const NO_DIR := Dir(false, None, None, false)
  const CDI_NAME: string := "thundercompute.com/gpu=claim"

  /** Where the daemon is, in prepareOne (up to UndoingToken) or unprepareOne (from Reading). */
  datatype Daemon =
    | Idle
    | Loading
    | Minting
    | StagingGuest(token: Token)
    | StagingCDI(token: Token)
    | Looking(token: Token)
    | Storing(token: Token, current: Option<Object>)
    | UndoingCDI(token: Token)
    | UndoingGuest(token: Token)
    | UndoingToken(token: Token)
    | Reading
    | Scanning(record: Record)
    | RevokingClient(record: Record, client: Client)
    | RevokingToken(record: Record, staged: Option<Client>)
    | RemovingCDI(record: Record, staged: Option<Client>)
    | RemovingGuest(record: Record)
    | Rereading(record: Record)
    | Releasing(record: Record, base: Object)
    | Deleting(record: Record)
  {
    predicate InPrepare() {
      StagingGuest? || StagingCDI? || Looking? || Storing? || UndoingCDI? || UndoingGuest? || UndoingToken?
    }
    predicate BeforeStore() { Minting? || StagingGuest? || StagingCDI? || Looking? || Storing? }
    predicate InUnprepare() {
      || Scanning? || RevokingClient? || RevokingToken? || RemovingCDI?
      || RemovingGuest? || Rereading? || Releasing? || Deleting?
    }
    predicate AfterRevoke() { RemovingCDI? || RemovingGuest? || Rereading? || Releasing? || Deleting? }
    predicate TakesDirLock() { UndoingCDI? || RemovingCDI? }
  }

  /** One pass of the operator over this object: `base` is the copy its List returned. */
  datatype Reaper = Listed(base: Object) | Revoked(base: Object) | Released(base: Object)

  /** The one hook that holds the directory's lock. */
  datatype Hook = NoHook | Spending(token: Token) | Caching(client: Client) | Cleaning

  datatype State = State(
    minted: set<Token>, revoked: set<Token>, spent: map<Token, Client>, gone: set<Client>,
    stored: Option<Object>, clock: nat, secret: Option<Token>, dir: Dir,
    daemon: Daemon, hook: Hook, reapers: map<nat, Reaper>)
  {
    function Recorded(): set<Token> { if stored.Some? then {stored.value.record.token} else {} }
    function InHand(): set<Token> { if daemon.InPrepare() then {daemon.token} else {} }
    /** Tokens that are alive in Thunder although nothing knows them any more. */
    function Abandoned(): set<Token> { minted - revoked - Recorded() - InHand() }
  }

  const START := State({}, {}, map[], {}, None, 0, None, NO_DIR, Idle, NoHook, map[])

  datatype Action =
    | BeginPrepare
    | BeginUnprepare
    | Call(outcome: Outcome, issued: Token, left: Dir, locks: bool)
    | DaemonDies
    | OperatorLists(i: nat)
    | OperatorCall(i: nat, outcome: Outcome)
    | OperatorDies(i: nat)
    | OutsideDelete
    | ForeignAdd(name: string)
    | ForeignDrop(name: string)
    | HookStarts
    | HookCall(outcome: Outcome, client: Client)
    | HookDies
  {
    predicate ByDaemon() { BeginPrepare? || BeginUnprepare? || Call? || DaemonDies? }
    predicate ByOperator() { OperatorLists? || OperatorCall? || OperatorDies? }
    predicate ByHook() { HookStarts? || HookCall? || HookDies? }
  }

  // ---------------------------------------------------------------- the API server

  /** A write that lost a race: the object is gone or is no longer at the version that was read. */
  predicate Stale(s: State, base: Object) { s.stored.None? || s.stored.value.version != base.version }

  /** Update with our finalizer taken off; an object already being deleted leaves when nothing holds it. */
  function PutReleased(s: State, base: Object): State
    requires !Stale(s, base)
  {
    if s.stored.value.deleting && base.others == {} then s.(stored := None)
    else s.(stored := Some(base.(ours := false, version := s.clock)), clock := s.clock + 1)
  }

  function DeleteObject(s: State): State {
    if s.stored.None? || s.stored.value.deleting then s
    else if s.stored.value.Held() then
      s.(stored := Some(s.stored.value.(deleting := true, version := s.clock)), clock := s.clock + 1)
    else s.(stored := None)
  }

  // ---------------------------------------------------------------- the daemon

  predicate CallEnabled(s: State, a: Action)
    requires a.Call?
  {
    && !s.daemon.Idle?
    && (s.daemon.Minting? && a.outcome.TakesEffect() ==> a.issued != "" && a.issued !in s.minted)
    && (s.daemon.StagingCDI? ==>
          s.dir.(present := true, token := Some(s.daemon.token)).Leaves(a.left) || s.dir.Leaves(a.left))
    && (s.daemon.TakesDirLock() ==> s.dir.Leaves(a.left) && (a.locks ==> s.hook.NoHook?))
  }

  /** prepareOne: each call either goes on to the next or starts the rollback. */
  function PrepareCall(s: State, a: Action): State
    requires a.Call? && (s.daemon.Loading? || s.daemon.Minting? || s.daemon.InPrepare())
  {
    match s.daemon
    case Loading =>
      if a.outcome != Done then s.(daemon := Idle)
      else if s.stored.Some? && s.stored.value.record.Complete() then s.(daemon := Idle)
      else s.(daemon := Minting)
    case Minting =>
      var t := if a.outcome.TakesEffect() then s.(minted := s.minted + {a.issued}) else s;
      t.(daemon := if a.outcome == Done then StagingGuest(a.issued) else Idle)
    case StagingGuest(token) =>
      var t := if a.outcome.TakesEffect() then s.(secret := Some(token)) else s;
      t.(daemon := if a.outcome == Done then StagingCDI(token) else UndoingToken(token))
    case StagingCDI(token) =>
      if a.outcome == Done then
        s.(dir := Dir(true, Some(token), s.dir.config, true), daemon := Looking(token))
      else s.(dir := a.left, daemon := UndoingGuest(token))
    case Looking(token) =>
      s.(daemon := if a.outcome == Done then Storing(token, s.stored) else UndoingCDI(token))
    case Storing(token, current) =>
      var t := if a.outcome.TakesEffect() then PutRecord(s, current, Record(token, CDI_NAME)) else s;
      t.(daemon := if a.outcome == Done && t != s then Idle else UndoingCDI(token))
    case UndoingCDI(token) =>
      s.(dir := if a.outcome == Done then NO_DIR else a.left, daemon := UndoingGuest(token))
    case UndoingGuest(token) =>
      s.(secret := if a.outcome.TakesEffect() then None else s.secret, daemon := UndoingToken(token))
    case UndoingToken(token) =>
      s.(revoked := if a.outcome.TakesEffect() then s.revoked + {token} else s.revoked, daemon := Idle)
    case _ => s
  }

  /** Upsert's write: create with our finalizer, or update what was read, keeping its other finalizers.
    * An object that is being deleted accepts no new finalizer. Rejected writes change nothing. */
  function PutRecord(s: State, current: Option<Object>, record: Record): State {
    if current.None? then
      if s.stored.Some? then s
      else s.(stored := Some(Object(record, true, {}, false, s.clock)), clock := s.clock + 1)
    else if Stale(s, current.value) || (s.stored.value.deleting && !current.value.ours) then s
    else s.(stored := Some(current.value.(record := record, ours := true, version := s.clock)), clock := s.clock + 1)
  }

  function UnprepareCall(s: State, a: Action): State
    requires a.Call? && (s.daemon.Reading? || s.daemon.InUnprepare())
  {
    match s.daemon
    case Reading =>
      if a.outcome != Done || s.stored.None? then s.(daemon := Idle)
      else s.(daemon := Scanning(s.stored.value.record))
    case Scanning(r) =>
      // An unreadable config counts as no client, so this call has no error to report.
      var staged := if r.cdi != "" && a.outcome == Done then s.dir.config else None;
      s.(daemon := if staged.Some? then RevokingClient(r, staged.value) else RevokingToken(r, None))
    case RevokingClient(r, c) =>
      var t := if a.outcome.TakesEffect() then s.(gone := s.gone + {c}) else s;
      t.(daemon := if a.outcome == Done then RevokingToken(r, Some(c)) else Idle)
    case RevokingToken(r, staged) =>
      if r.token == "" then s.(daemon := RemovingCDI(r, staged))
      else
        var t := if a.outcome.TakesEffect() then s.(revoked := s.revoked + {r.token}) else s;
        t.(daemon := if a.outcome == Done then RemovingCDI(r, staged) else Idle)
    case RemovingCDI(r, staged) =>
      if r.cdi == "" then s.(daemon := RemovingGuest(r))
      else if a.outcome == Done then s.(dir := NO_DIR, daemon := RemovingGuest(r))
      else s.(dir := a.left, daemon := Idle)
    case RemovingGuest(r) =>
      s.(secret := if a.outcome.TakesEffect() then None else s.secret,
         daemon := if a.outcome == Done then Rereading(r) else Idle)
    case Rereading(r) =>
      if a.outcome != Done || s.stored.None? then s.(daemon := Idle)
      else s.(daemon := if s.stored.value.ours then Releasing(r, s.stored.value) else Deleting(r))
    case Releasing(r, base) =>
      if s.stored.None? then s.(daemon := if a.outcome == Done then Deleting(r) else Idle)
      else if Stale(s, base) then s.(daemon := Idle)
      else
        var t := if a.outcome.TakesEffect() then PutReleased(s, base) else s;
        t.(daemon := if a.outcome == Done then Deleting(r) else Idle)
    case Deleting(r) =>
      (if a.outcome.TakesEffect() then DeleteObject(s) else s).(daemon := Idle)
    case _ => s
  }

  function DaemonStep(s: State, a: Action): State
    requires a.ByDaemon()
  {
    match a
    case BeginPrepare => if s.daemon.Idle? then s.(daemon := Loading) else s
    case BeginUnprepare => if s.daemon.Idle? then s.(daemon := Reading) else s
    case DaemonDies => s.(daemon := Idle)
    case Call(_, _, _, _) =>
      if !CallEnabled(s, a) then s
      else if s.daemon.Reading? || s.daemon.InUnprepare() then UnprepareCall(s, a)
      else PrepareCall(s, a)
  }

  // ---------------------------------------------------------------- everyone else

  /** The operator's reap of an object it listed: revoke, release the finalizer, delete. */
  function OperatorStep(s: State, a: Action): State
    requires a.ByOperator()
  {
    match a
    case OperatorLists(i) =>
      if i in s.reapers || s.stored.None? then s else s.(reapers := s.reapers[i := Listed(s.stored.value)])
    case OperatorDies(i) => s.(reapers := s.reapers - {i})
    case OperatorCall(i, outcome) =>
      if i !in s.reapers then s
      else
        match s.reapers[i]
        case Listed(base) =>
          if base.record.token == "" then s.(reapers := s.reapers[i := Revoked(base)])
          else
            var t := if outcome.TakesEffect() then s.(revoked := s.revoked + {base.record.token}) else s;
            t.(reapers := if outcome == Done then s.reapers[i := Revoked(base)] else s.reapers - {i})
        case Revoked(base) =>
          if !base.ours then s.(reapers := s.reapers[i := Released(base)])
          else if s.stored.Some? && Stale(s, base) then s.(reapers := s.reapers - {i})
          else
            var t := if outcome.TakesEffect() && s.stored.Some? then PutReleased(s, base) else s;
            t.(reapers := if outcome == Done then s.reapers[i := Released(base)] else s.reapers - {i})
        case Released(base) =>
          (if outcome.TakesEffect() then DeleteObject(s) else s).(reapers := s.reapers - {i})
  }

  function OutsideStep(s: State, a: Action): State
    requires a.OutsideDelete? || a.ForeignAdd? || a.ForeignDrop?
  {
    if a.OutsideDelete? then DeleteObject(s)
    else if s.stored.None? then s
    else
      var o := s.stored.value;
      if a.ForeignAdd? then
        if o.deleting then s
        else s.(stored := Some(o.(others := o.others + {a.name}, version := s.clock)), clock := s.clock + 1)
      else
        var kept := o.others - {a.name};
        if o.deleting && !o.ours && kept == {} then s.(stored := None)
        else s.(stored := Some(o.(others := kept, version := s.clock)), clock := s.clock + 1)
  }

  /** The hook: spend the token unless a client is cached, cache the client, drop the spent token.
    * Thunder exchanges a token once, and only while it is not revoked. */
  function HookStep(s: State, a: Action): State
    requires a.ByHook()
  {
    match a
    case HookDies => s.(hook := NoHook)
    case HookStarts =>
      if s.hook.NoHook? && s.dir.present && s.dir.config.None? && s.dir.token.Some?
      then s.(hook := Spending(s.dir.token.value)) else s
    case HookCall(outcome, client) =>
      match s.hook
      case NoHook => s
      case Spending(token) =>
        if token !in s.minted - s.revoked || token in s.spent then s.(hook := NoHook)
        else if client in s.spent.Values || client in s.gone then s
        else
          var t := if outcome.TakesEffect() then s.(spent := s.spent[token := client]) else s;
          t.(hook := if outcome == Done then Caching(client) else NoHook)
      case Caching(c) =>
        if outcome == Done && s.dir.present then s.(dir := s.dir.(config := Some(c)), hook := Cleaning)
        else s.(hook := NoHook)
      case Cleaning =>
        s.(dir := if outcome == Done then s.dir.(token := None) else s.dir, hook := NoHook)
  }

  function Step(s: State, a: Action): State {
    if a.ByDaemon() then DaemonStep(s, a)
    else if a.ByOperator() then OperatorStep(s, a)
    else if a.ByHook() then HookStep(s, a)
    else OutsideStep(s, a)
  }

  function Run(s: State, acts: seq<Action>): State {
    if acts == [] then s else Step(Run(s, acts[..|acts| - 1]), acts[|acts| - 1])
  }

  // ---------------------------------------------------------------- the invariant

  /** A copy of the object that some process took. If its token is alive, the object still holds it. */
  ghost predicate Copied(s: State, b: Object) {
    && b.record.Complete() && b.record.token in s.minted
    && b.version < s.clock
    && (s.stored.Some? && s.stored.value.version == b.version ==> s.stored.value == b)
    && Remembered(s, b.record)
  }

  ghost predicate Remembered(s: State, r: Record) {
    r.token in s.revoked || (s.stored.Some? && s.stored.value.record == r)
  }

  ghost predicate ObjectInv(s: State) {
    s.stored.Some? ==>
      var o := s.stored.value;
      && o.record.Complete() && o.record.token in s.minted
      && o.version < s.clock
      && (o.record.token !in s.revoked ==> o.ours)
      && (o.deleting ==> o.Held())
  }

  ghost predicate ReaperInv(s: State, r: Reaper) {
    Copied(s, r.base) && (!r.Listed? ==> r.base.record.token in s.revoked)
  }

  ghost predicate DaemonInv(s: State) {
    var d := s.daemon;
    && (d.InPrepare() ==> d.token in s.minted)
    && (d.BeforeStore() ==> s.stored.None?)
    && (d.Storing? ==> d.current.None?)
    && (d.InUnprepare() ==>
          && d.record.Complete() && d.record.token in s.minted
          && (s.stored.Some? ==> s.stored.value.record == d.record)
          && Remembered(s, d.record))
    && (d.AfterRevoke() ==> d.record.token in s.revoked)
    && ((d.RevokingToken? || d.RemovingCDI?) && d.staged.Some? ==> d.staged.value in s.gone)
    && (d.Releasing? ==> Copied(s, d.base) && d.base.record == d.record)
    && (d.Deleting? && s.stored.Some? ==> !s.stored.value.ours)
  }

  ghost predicate Inv(s: State) {
    && s.revoked <= s.minted && "" !in s.minted
    && ObjectInv(s)
    && DaemonInv(s)
    && forall i :: i in s.reapers ==> ReaperInv(s, s.reapers[i])
  }

  // ---------------------------------------------------------------- what every step keeps

  /** How the API objects may change in one step. In particular, a stored token that is still alive after
    * the step is still stored, in the same record and under our finalizer. */
  ghost predicate Follows(s: State, t: State) {
    && s.minted <= t.minted && s.revoked <= t.revoked && s.clock <= t.clock
    && (t.stored.Some? && t.stored != s.stored ==> s.clock <= t.stored.value.version)
    && (s.stored.Some? && s.stored.value.record.token !in t.revoked ==>
          t.stored.Some? && t.stored.value.record == s.stored.value.record && t.stored.value.ours)
  }

  /** The parts of the invariant that do not look at the daemon. */
  ghost predicate ApiInv(s: State) {
    s.revoked <= s.minted && "" !in s.minted && ObjectInv(s)
  }

  lemma CopiesStay(s: State, t: State, b: Object)
    requires Copied(s, b) && Follows(s, t)
    ensures Copied(t, b)
  {
  }

  lemma DeleteFollows(s: State)
    requires ApiInv(s)
    ensures var t := DeleteObject(s); Follows(s, t) && ApiInv(t)
    ensures var t := DeleteObject(s); t == s.(stored := t.stored, clock := t.clock)
    ensures var t := DeleteObject(s);
            t.stored.Some? ==>
              && s.stored.Some? && t.stored.value.record == s.stored.value.record
              && t.stored.value.ours == s.stored.value.ours
  {
  }

  lemma ReleaseFollows(s: State, b: Object)
    requires ApiInv(s) && Copied(s, b) && b.record.token in s.revoked && !Stale(s, b)
    ensures var t := PutReleased(s, b); Follows(s, t) && ApiInv(t)
    ensures var t := PutReleased(s, b); t == s.(stored := t.stored, clock := t.clock)
    ensures var t := PutReleased(s, b); t.stored.Some? ==> t.stored.value.record == b.record && !t.stored.value.ours
  {
  }

  lemma RevokeFollows(s: State, token: Token)
    requires ApiInv(s) && token in s.minted
    ensures var t := s.(revoked := s.revoked + {token}); Follows(s, t) && ApiInv(t)
  {
  }

  lemma ReapersStay(s: State, t: State, i: nat)
    requires Follows(s, t) && i in s.reapers && ReaperInv(s, s.reapers[i])
    ensures ReaperInv(t, s.reapers[i])
  {
    CopiesStay(s, t, s.reapers[i].base);
  }

  lemma OperatorFollows(s: State, a: Action)
    requires Inv(s) && a.ByOperator()
    ensures var t := OperatorStep(s, a);
            && Follows(s, t) && ApiInv(t)
            && t == s.(stored := t.stored, clock := t.clock, revoked := t.revoked, reapers := t.reapers)
            && (t.stored.Some? ==> s.stored.Some? && t.stored.value.record == s.stored.value.record)
            && (t.stored.Some? && t.stored.value.ours ==> s.stored.value.ours)
  {
    if a.OperatorCall? && a.i in s.reapers {
      var base := s.reapers[a.i].base;
      assert ReaperInv(s, s.reapers[a.i]);
      match s.reapers[a.i]
      case Listed(_) => RevokeFollows(s, base.record.token);
      case Revoked(_) => if !Stale(s, base) { ReleaseFollows(s, base); }
      case Released(_) => DeleteFollows(s);
    }
  }

  lemma OperatorKeepsInv(s: State, a: Action)
    requires Inv(s) && a.ByOperator()
    ensures var t := OperatorStep(s, a); Follows(s, t) && Inv(t)
  {
    var t := OperatorStep(s, a);
    OperatorFollows(s, a);
    forall i | i in t.reapers ensures ReaperInv(t, t.reapers[i]) {
      if i in s.reapers { ReapersStay(s, t, i); }
    }
    DaemonUntouched(s, t);
  }

  /** The daemon's part of the invariant survives whatever the others do. */
  lemma DaemonUntouched(s: State, t: State)
    requires ApiInv(s) && DaemonInv(s) && Follows(s, t) && t.daemon == s.daemon && s.gone <= t.gone
    requires t.stored.Some? ==> s.stored.Some? && t.stored.value.record == s.stored.value.record
    requires t.stored.Some? && t.stored.value.ours ==> s.stored.value.ours
    ensures DaemonInv(t)
  {
  }

  lemma OutsideKeepsInv(s: State, a: Action)
    requires Inv(s) && (a.OutsideDelete? || a.ForeignAdd? || a.ForeignDrop?)
    ensures var t := OutsideStep(s, a); Follows(s, t) && Inv(t)
  {
    var t := OutsideStep(s, a);
    forall i | i in t.reapers ensures ReaperInv(t, t.reapers[i]) { ReapersStay(s, t, i); }
    DaemonUntouched(s, t);
  }

  lemma PrepareFollows(s: State, a: Action)
    requires Inv(s) && a.Call? && CallEnabled(s, a)
    requires s.daemon.Loading? || s.daemon.Minting? || s.daemon.InPrepare()
    ensures var t := PrepareCall(s, a); Follows(s, t) && ApiInv(t) && t.reapers == s.reapers
  {
    if s.daemon.UndoingToken? { RevokeFollows(s, s.daemon.token); }
  }

  lemma PrepareKeepsInv(s: State, a: Action)
    requires Inv(s) && a.Call? && CallEnabled(s, a)
    requires s.daemon.Loading? || s.daemon.Minting? || s.daemon.InPrepare()
    ensures var t := PrepareCall(s, a); Follows(s, t) && Inv(t)
  {
    var t := PrepareCall(s, a);
    PrepareFollows(s, a);
    forall i | i in t.reapers ensures ReaperInv(t, t.reapers[i]) { ReapersStay(s, t, i); }
  }

  lemma UnprepareFollows(s: State, a: Action)
    requires Inv(s) && a.Call? && CallEnabled(s, a)
    requires s.daemon.Reading? || s.daemon.InUnprepare()
    ensures var t := UnprepareCall(s, a); Follows(s, t) && ApiInv(t)
  {
    if s.daemon.RevokingToken? { RevokeFollows(s, s.daemon.record.token); }
    if s.daemon.Releasing? && !Stale(s, s.daemon.base) { ReleaseFollows(s, s.daemon.base); }
    if s.daemon.Deleting? { DeleteFollows(s); }
  }

  lemma RevokingKeepsDaemonInv(s: State, a: Action)
    requires Inv(s) && a.Call? && CallEnabled(s, a)
    requires var d := s.daemon; d.Reading? || d.Scanning? || d.RevokingClient? || d.RevokingToken?
    ensures DaemonInv(UnprepareCall(s, a))
  {
  }

  lemma RemovingKeepsDaemonInv(s: State, a: Action)
    requires Inv(s) && a.Call? && CallEnabled(s, a)
    requires var d := s.daemon; d.RemovingCDI? || d.RemovingGuest? || d.Rereading?
    ensures DaemonInv(UnprepareCall(s, a))
  {
  }

  lemma ReleasingKeepsDaemonInv(s: State, a: Action)
    requires Inv(s) && a.Call? && CallEnabled(s, a) && s.daemon.Releasing?
    ensures DaemonInv(UnprepareCall(s, a))
  {
    if !Stale(s, s.daemon.base) { ReleaseFollows(s, s.daemon.base); }
  }

  lemma UnprepareKeepsInv(s: State, a: Action)
    requires Inv(s) && a.Call? && CallEnabled(s, a)
    requires s.daemon.Reading? || s.daemon.InUnprepare()
    ensures var t := UnprepareCall(s, a); Follows(s, t) && Inv(t)
  {
    var t := UnprepareCall(s, a);
    UnprepareFollows(s, a);
    forall i | i in t.reapers ensures ReaperInv(t, t.reapers[i]) { ReapersStay(s, t, i); }
    var d := s.daemon;
    if d.Reading? || d.Scanning? || d.RevokingClient? || d.RevokingToken? { RevokingKeepsDaemonInv(s, a); }
    else if d.Releasing? { ReleasingKeepsDaemonInv(s, a); }
    else if !d.Deleting? { RemovingKeepsDaemonInv(s, a); }
  }

  /** A process that starts or dies, and a hook, leave the API objects alone. */
  lemma OtherStepsKeepInv(s: State, t: State)
    requires Inv(s) && t == s.(daemon := t.daemon, hook := t.hook, spent := t.spent, dir := t.dir)
    requires t.daemon == s.daemon || t.daemon in {Idle, Loading, Reading}
    ensures Follows(s, t) && Inv(t)
  {
    forall i | i in t.reapers ensures ReaperInv(t, t.reapers[i]) { ReapersStay(s, t, i); }
  }

  lemma StepKeepsInv(s: State, a: Action)
    requires Inv(s)
    ensures Follows(s, Step(s, a)) && Inv(Step(s, a))
  {
    if a.ByHook() {
      OtherStepsKeepInv(s, HookStep(s, a));
    } else if a.BeginPrepare? || a.BeginUnprepare? || a.DaemonDies? || (a.Call? && !CallEnabled(s, a)) {
      OtherStepsKeepInv(s, DaemonStep(s, a));
    } else if a.Call? {
      if s.daemon.Reading? || s.daemon.InUnprepare() { UnprepareKeepsInv(s, a); } else { PrepareKeepsInv(s, a); }
    } else if a.ByOperator() {
      OperatorKeepsInv(s, a);
    } else if a.OutsideDelete? || a.ForeignAdd? || a.ForeignDrop? {
      OutsideKeepsInv(s, a);
    }
  }
}
