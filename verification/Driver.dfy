/** prepareOne and unprepareOne as the daemon runs them: each external call is one step of the lifecycle
  * protocol, and between any two calls the operator, the hook and everyone else may take any steps. */
module Driver {
  import opened Outcomes
  import opened Wrappers
  import opened Lifecycle

  lemma FollowsTransitively(s: State, t: State, u: State)
    requires Follows(s, t) && Follows(t, u)
    ensures Follows(s, u)
  {
  }

  /** A call of the daemon that stands in its way: one that does not go well, or a release through a copy that has
    * gone stale. The scan of the directory reports no error. */
  predicate Hinders(s: State, a: Action) {
    && a.Call? && CallEnabled(s, a) && !s.daemon.Scanning?
    && (a.outcome != Done || (s.daemon.Releasing? && s.stored.Some? && Stale(s, s.daemon.base)))
  }

  /** How many such calls a run has. */
  function Setbacks(acts: seq<Action>): nat {
    if acts == [] then 0
    else
      var init := acts[..|acts| - 1];
      Setbacks(init) + if Hinders(Run(START, init), acts[|acts| - 1]) then 1 else 0
  }

  class Driver {
    var world: State
    ghost var trace: seq<Action>

    constructor ()
      ensures Valid() && world == START && trace == []
    {
      world, trace := START, [];
    }

    /** The world is one that a run of the whole protocol reaches. */
    ghost predicate Valid()
      reads this
    {
      world == Run(START, trace) && Inv(world)
    }

    method Do(a: Action)
      requires Valid()
      modifies this
      ensures Valid() && world == Step(old(world), a) && trace == old(trace) + [a]
      ensures Setbacks(trace) == Setbacks(old(trace)) + if Hinders(old(world), a) then 1 else 0
      ensures Follows(old(world), world)
    {
      StepKeepsInv(world, a);
      world := Step(world, a);
      assert (trace + [a])[..|trace|] == trace;
      trace := trace + [a];
    }

    /** Any steps of the other processes. They leave the daemon where it is, and nobody else creates a
      * record or puts our finalizer on one. */
    method Others()
      requires Valid()
      modifies this
      ensures Valid() && old(trace) <= trace && Leads(old(world), world)
      ensures Setbacks(trace) == Setbacks(old(trace))
    {
      var steps: nat := *;
      while steps > 0
        invariant Valid() && old(trace) <= trace && Leads(old(world), world)
        invariant Setbacks(trace) == Setbacks(old(trace))
      {
        var a: Action := *;
        if !a.ByDaemon() {
          ghost var before := world;
          OthersLead(world, a);
          Do(a);
          LeadsOn(old(world), before, world);
        }
        steps := steps - 1;
      }
    }

    /** The daemon's next external call. `at` is the world it acted on, and its outcome is anybody's guess.
      * A call that needs the directory's lock waits while a hook holds it; when the lock cannot be had, it
      * goes on without. */
    method Attempt(issued: Token) returns (a: Action, at: State)
      requires Valid() && !world.daemon.Idle?
      requires world.daemon.Minting? ==> issued != "" && issued !in world.minted
      modifies this
      ensures Valid() && old(trace) <= trace && Follows(old(world), world)
      ensures Inv(at) && Leads(old(world), at) && at.daemon == old(world).daemon
      ensures a.Call? && a.issued == issued && CallEnabled(at, a) && Leads(Step(at, a), world)
      ensures Setbacks(trace) == Setbacks(old(trace)) + if Hinders(at, a) then 1 else 0
    {
      var outcome, left: Dir, locks: bool := *, *, *;
      ghost var before := world;
      Others();
      var patience: nat := *;
      while patience > 0 && locks && !world.hook.NoHook?
        invariant Valid() && old(trace) <= trace && Leads(before, world)
        invariant Setbacks(trace) == Setbacks(old(trace))
      {
        ghost var now := world;
        Others();
        LeadsOn(before, now, world);
        patience := patience - 1;
      }
      if !world.dir.Leaves(left) {
        left := world.dir;
      }
      at := world;
      a := Call(outcome, issued, left, locks && world.hook.NoHook?);
      Do(a);
      ghost var t := world;
      Others();
      FollowsTransitively(before, at, t);
      FollowsTransitively(before, t, world);
    }

    /** Prepare a claim; `issued` is the token a mint would return. However the calls and the other processes
      * interleave:
      *  - a prepared claim has a complete record naming the CDI device handed out, and that record is only ever
      *    missing once its token is revoked;
      *  - a claim prepared with a fresh token has that token in its Secret, its directory and CDI spec, and
      *    something there for a hook to start from, unless one strays in from before;
      *  - a claim whose record is found is left just as it is, whatever is left of it;
      *  - a failure after the mint takes back what had been made, as far as the rollback's calls go;
      *  - it fails exactly if one of its own calls stood in its way. */
    method PrepareOne(issued: Token) returns (cdi: Option<string>, ghost r: Record, ghost undo: Option<Undo>)
      requires Valid() && world.daemon.Idle?
      requires issued != "" && issued !in world.minted
      modifies this
      ensures Valid() && world.daemon.Idle? && old(trace) <= trace && Follows(old(world), world)
      ensures old(world).minted <= world.minted <= old(world).minted + {issued}
      ensures cdi.Some? ==> cdi.value == r.cdi && r.Complete() && r.token in world.minted && Remembered(world, r)
      ensures cdi.Some? && issued in world.minted ==>
                r == Record(issued, CDI_NAME) && Ready(world, issued, Strays(old(world)))
      ensures cdi.Some? && issued !in world.minted ==>
                && old(world).stored.Some? && old(world).stored.value.record == r && Files(old(world), world)
      ensures undo.Some? ==> cdi.None? && issued in world.minted && TakenBack(world, issued, undo.value)
      ensures old(world).stored.Some? && old(world).stored.value.record.token !in world.revoked ==>
                world.minted == old(world).minted && (cdi.Some? ==> r == old(world).stored.value.record)
      ensures Setbacks(trace) >= Setbacks(old(trace)) && (cdi.Some? <==> Setbacks(trace) == Setbacks(old(trace)))
    {
      r, undo := Record("", ""), None;
      ghost var start := world;
      Do(BeginPrepare);
      var got, existing := Load(start);
      if !got {
        return None, r, None;
      }
      if existing.Some? {
        return Some(existing.value.cdi), existing.value, None;
      }
      ghost var before := world;
      cdi, undo := Enroll(issued, before);
      FollowsTransitively(start, before, world);
      r := Record(issued, CDI_NAME);
    }

    /** Look the claim's record up. A record that is complete is all there is to do; only where none is stored,
      * so any earlier one had its token revoked, does prepare go on to mint. */
    method Load(ghost start: State) returns (got: bool, existing: Option<Record>)
      requires Valid() && world.daemon.Loading? && world == start.(daemon := Loading) && Follows(start, world)
      modifies this
      ensures Valid() && old(trace) <= trace && Follows(start, world) && world.minted == start.minted
      ensures world.daemon == (if got && existing.None? then Minting else Idle) && Files(start, world)
      ensures existing.Some? ==> got && existing.value.Complete() && existing.value.token in world.minted
      ensures existing.Some? ==>
                Remembered(world, existing.value) && start.stored.Some? && start.stored.value.record == existing.value
      ensures got && existing.None? && start.stored.Some? ==> start.stored.value.record.token in world.revoked
      ensures Setbacks(trace) >= Setbacks(old(trace)) && (got <==> Setbacks(trace) == Setbacks(old(trace)))
    {
      var get, found := Attempt("");
      FollowsTransitively(start, found, world);
      if get.outcome != Done {
        return false, None;
      }
      if found.stored.Some? && found.stored.value.record.Complete() {
        return true, Some(found.stored.value.record);
      }
      return true, None;
    }

    method Enroll(issued: Token, ghost start: State) returns (cdi: Option<string>, ghost undo: Option<Undo>)
      requires Valid() && world.daemon.Minting? && world == start
      requires issued != "" && issued !in world.minted
      modifies this
      ensures Valid() && world.daemon.Idle? && old(trace) <= trace && Follows(start, world)
      ensures world.minted <= start.minted + {issued}
      ensures cdi.Some? ==>
                cdi.value == CDI_NAME && issued in world.minted && Remembered(world, Record(issued, CDI_NAME))
      ensures cdi.Some? ==> Ready(world, issued, Strays(start))
      ensures undo.Some? ==> cdi.None? && issued in world.minted && TakenBack(world, issued, undo.value)
      ensures Setbacks(trace) >= Setbacks(old(trace)) && (cdi.Some? <==> Setbacks(trace) == Setbacks(old(trace)))
    {
      var mint, _ := Attempt(issued);
      if mint.outcome != Done {
        return None, None;
      }
      ghost var w := world;
      var stored;
      stored, undo := Stage(issued);
      FollowsTransitively(start, w, world);
      cdi := if stored then Some(CDI_NAME) else None;
    }

    /** The calls of prepareOne after the mint, each with its rollback: a failure to write the Secret takes back the
      * token, one to create the device also the Secret, one to store the record all three. */
    method Stage(token: Token) returns (stored: bool, ghost undo: Option<Undo>)
      requires Valid() && world.daemon == StagingGuest(token)
      modifies this
      ensures Valid() && world.daemon.Idle? && old(trace) <= trace && Follows(old(world), world)
      ensures world.minted == old(world).minted
      ensures stored ==> Remembered(world, Record(token, CDI_NAME)) && Ready(world, token, Strays(old(world)))
      ensures stored <==> undo.None?
      ensures undo.Some? ==> TakenBack(world, token, undo.value)
      ensures Setbacks(trace) >= Setbacks(old(trace)) && (stored <==> Setbacks(trace) == Setbacks(old(trace)))
    {
      ghost var start := world;
      var guest, _ := Attempt("");
      if guest.outcome != Done {
        var revoked := RevokeMinted(token, start);
        return false, Some(Undo(None, None, revoked));
      }
      ghost var w := world;
      stored, undo := StageDevice(token);
      FollowsTransitively(start, w, world);
    }

    method StageDevice(token: Token) returns (stored: bool, ghost undo: Option<Undo>)
      requires Valid() && world.daemon == StagingCDI(token) && world.secret == Some(token)
      modifies this
      ensures Valid() && world.daemon.Idle? && old(trace) <= trace && Follows(old(world), world)
      ensures world.minted == old(world).minted
      ensures stored ==> Remembered(world, Record(token, CDI_NAME)) && Ready(world, token, Strays(old(world)))
      ensures stored <==> undo.None?
      ensures undo.Some? ==> TakenBack(world, token, undo.value) && undo.value.secret.Some?
      ensures Setbacks(trace) >= Setbacks(old(trace)) && (stored <==> Setbacks(trace) == Setbacks(old(trace)))
    {
      ghost var start := world;
      var cdi, _ := Attempt("");
      if cdi.outcome != Done {
        var secret, revoked := RemoveSecret(token, start);
        return false, Some(Undo(None, Some(secret), revoked));
      }
      stored, undo := Upsert(token, start, Strays(start));
    }

    method Upsert(token: Token, ghost start: State, ghost strays: bool) returns (stored: bool, ghost undo: Option<Undo>)
      requires Valid() && world.daemon == Looking(token) && Follows(start, world) && world.minted == start.minted
      requires Ready(world, token, strays)
      modifies this
      ensures Valid() && world.daemon.Idle? && old(trace) <= trace && Follows(start, world)
      ensures world.minted == start.minted
      ensures stored ==> Remembered(world, Record(token, CDI_NAME)) && Ready(world, token, strays)
      ensures stored <==> undo.None?
      ensures undo.Some? ==> TakenBack(world, token, undo.value) && undo.value.directory.Some?
      ensures Setbacks(trace) >= Setbacks(old(trace)) && (stored <==> Setbacks(trace) == Setbacks(old(trace)))
    {
      ghost var w := world;
      var get, found := Attempt("");
      FollowsTransitively(start, w, world);
      if get.outcome == Done {
        stored := Put(token, start, strays);
        if stored {
          return true, None;
        }
      }
      var directory, secret, revoked := RemoveDevice(token, start);
      return false, Some(Undo(Some(directory), Some(secret), revoked));
    }

    /** The record did not exist when it was looked up, so this is a create, and it goes through. */
    method Put(token: Token, ghost start: State, ghost strays: bool) returns (stored: bool)
      requires Valid() && world.daemon == Storing(token, None) && Follows(start, world) && world.minted == start.minted
      requires Ready(world, token, strays)
      modifies this
      ensures Valid() && old(trace) <= trace && Follows(start, world) && world.minted == start.minted
      ensures world.daemon == if stored then Idle else UndoingCDI(token)
      ensures stored ==> Remembered(world, Record(token, CDI_NAME)) && Ready(world, token, strays)
      ensures Setbacks(trace) >= Setbacks(old(trace)) && (stored <==> Setbacks(trace) == Setbacks(old(trace)))
    {
      ghost var w := world;
      var put, at := Attempt("");
      FollowsTransitively(start, w, world);
      assert at.stored.None?;
      return put.outcome == Done;
    }

    method RemoveDevice(token: Token, ghost start: State)
        returns (directory: Outcome, secret: Outcome, revoked: Outcome)
      requires Valid() && world.daemon == UndoingCDI(token) && Follows(start, world) && world.minted == start.minted
      modifies this
      ensures Valid() && world.daemon.Idle? && old(trace) <= trace && Follows(start, world)
      ensures world.minted == start.minted
      ensures TakenBack(world, token, Undo(Some(directory), Some(secret), revoked))
      ensures Setbacks(trace) >= Setbacks(old(trace))
    {
      ghost var w := world;
      var remove, _ := Attempt("");
      FollowsTransitively(start, w, world);
      directory := remove.outcome;
      secret, revoked := RemoveSecret(token, start);
    }

    method RemoveSecret(token: Token, ghost start: State) returns (secret: Outcome, revoked: Outcome)
      requires Valid() && world.daemon == UndoingGuest(token) && Follows(start, world) && world.minted == start.minted
      modifies this
      ensures Valid() && world.daemon.Idle? && old(trace) <= trace && Follows(start, world)
      ensures world.minted == start.minted && (old(world).dir == NO_DIR ==> world.dir == NO_DIR)
      ensures TakenBack(world, token, Undo(None, Some(secret), revoked))
      ensures Setbacks(trace) >= Setbacks(old(trace))
    {
      ghost var w := world;
      var remove, _ := Attempt("");
      FollowsTransitively(start, w, world);
      secret := remove.outcome;
      revoked := RevokeMinted(token, start);
    }

    method RevokeMinted(token: Token, ghost start: State) returns (revoked: Outcome)
      requires Valid() && world.daemon == UndoingToken(token) && Follows(start, world) && world.minted == start.minted
      modifies this
      ensures Valid() && world.daemon.Idle? && old(trace) <= trace && Follows(start, world)
      ensures world.minted == start.minted && Files(old(world), world)
      ensures revoked.TakesEffect() ==> token in world.revoked
      ensures Setbacks(trace) >= Setbacks(old(trace))
    {
      ghost var w := world;
      var revoke, _ := Attempt("");
      FollowsTransitively(start, w, world);
      return revoke.outcome;
    }

    /** Unprepare a claim. It succeeds exactly if none of its own calls stood in its way; that there is no record, now
      * or when it comes to delete it, is none. Success means there was no record to read; or the client the directory
      * named, if it could be read, and the token are revoked, directory and Secret are gone, and our finalizer no
      * longer holds the record. Failure or not, a record whose token is alive is still there. */
    method UnprepareOne() returns (ok: bool, record: Option<Record>, ghost staged: Option<Client>)
      requires Valid() && world.daemon.Idle?
      modifies this
      ensures Valid() && world.daemon.Idle? && old(trace) <= trace && Follows(old(world), world)
      ensures world.minted == old(world).minted
      ensures ok && record.Some? ==>
                && record.value.token in world.revoked && world.secret == None && world.dir == NO_DIR
                && (staged.Some? ==> staged.value in world.gone)
                && (world.stored.Some? ==> world.stored.value.record == record.value && !world.stored.value.ours)
      ensures record.Some? ==> old(world).stored.Some? && old(world).stored.value.record == record.value
      ensures ok && record.None? ==> world.stored.None?
      ensures Setbacks(trace) >= Setbacks(old(trace)) && (ok <==> Setbacks(trace) == Setbacks(old(trace)))
    {
      ghost var start := world;
      Do(BeginUnprepare);
      ghost var w := world;
      var get, found := Attempt("");
      FollowsTransitively(start, w, world);
      if get.outcome != Done || found.stored.None? {
        return get.outcome == Done, None, None;
      }
      record := Some(found.stored.value.record);
      ok, staged := TakeDown(record.value, start);
    }

    /** Revoke first, then remove. */
    method TakeDown(r: Record, ghost start: State) returns (ok: bool, ghost staged: Option<Client>)
      requires Valid() && world.daemon == Scanning(r) && Follows(start, world) && world.minted == start.minted
      modifies this
      ensures Valid() && world.daemon.Idle? && old(trace) <= trace && Follows(start, world)
      ensures world.minted == start.minted
      ensures ok ==>
                && r.token in world.revoked && world.secret == None && world.dir == NO_DIR
                && (staged.Some? ==> staged.value in world.gone)
                && (world.stored.Some? ==> world.stored.value.record == r && !world.stored.value.ours)
      ensures Setbacks(trace) >= Setbacks(old(trace)) && (ok <==> Setbacks(trace) == Setbacks(old(trace)))
    {
      ok, staged := Revoke(r, start);
      if ok {
        ok := Remove(r, start, staged);
      }
    }

    /** The client the directory names, and then the token. */
    method Revoke(r: Record, ghost start: State) returns (ok: bool, ghost staged: Option<Client>)
      requires Valid() && world.daemon == Scanning(r) && Follows(start, world) && world.minted == start.minted
      modifies this
      ensures Valid() && old(trace) <= trace && Follows(start, world) && world.minted == start.minted
      ensures world.daemon == if ok then RemovingCDI(r, staged) else Idle
      ensures ok ==> r.token in world.revoked && (staged.Some? ==> staged.value in world.gone)
      ensures Setbacks(trace) >= Setbacks(old(trace)) && (ok <==> Setbacks(trace) == Setbacks(old(trace)))
    {
      var clientID := Scan(r, start);
      staged := clientID;
      if clientID.Some? {
        ok := RevokeClient(r, clientID.value, start);
        if !ok {
          return;
        }
      }
      ok := RevokeRecorded(r, clientID, start);
    }

    /** A config that cannot be read counts as no client, so this has no error to report. */
    method Scan(r: Record, ghost start: State) returns (clientID: Option<Client>)
      requires Valid() && world.daemon == Scanning(r) && Follows(start, world) && world.minted == start.minted
      modifies this
      ensures Valid() && old(trace) <= trace && Follows(start, world) && world.minted == start.minted
      ensures world.daemon == if clientID.Some? then RevokingClient(r, clientID.value) else RevokingToken(r, None)
      ensures Setbacks(trace) == Setbacks(old(trace))
    {
      ghost var w := world;
      var scan, at := Attempt("");
      FollowsTransitively(start, w, world);
      return if scan.outcome == Done then at.dir.config else None;
    }

    method RevokeClient(r: Record, client: Client, ghost start: State) returns (ok: bool)
      requires Valid() && world.daemon == RevokingClient(r, client) && Follows(start, world)
      requires world.minted == start.minted
      modifies this
      ensures Valid() && old(trace) <= trace && Follows(start, world) && world.minted == start.minted
      ensures world.daemon == if ok then RevokingToken(r, Some(client)) else Idle
      ensures ok ==> client in world.gone
      ensures Setbacks(trace) >= Setbacks(old(trace)) && (ok <==> Setbacks(trace) == Setbacks(old(trace)))
    {
      ghost var w := world;
      var revoke, _ := Attempt("");
      FollowsTransitively(start, w, world);
      return revoke.outcome == Done;
    }

    method RevokeRecorded(r: Record, staged: Option<Client>, ghost start: State) returns (ok: bool)
      requires Valid() && world.daemon == RevokingToken(r, staged) && Follows(start, world)
      requires world.minted == start.minted && (staged.Some? ==> staged.value in world.gone)
      modifies this
      ensures Valid() && old(trace) <= trace && Follows(start, world) && world.minted == start.minted
      ensures world.daemon == if ok then RemovingCDI(r, staged) else Idle
      ensures ok ==> r.token in world.revoked && (staged.Some? ==> staged.value in world.gone)
      ensures Setbacks(trace) >= Setbacks(old(trace)) && (ok <==> Setbacks(trace) == Setbacks(old(trace)))
    {
      ghost var w := world;
      var unenroll, _ := Attempt("");
      FollowsTransitively(start, w, world);
      return unenroll.outcome == Done;
    }

    /** Directory, Secret and record, in that order. */
    method Remove(r: Record, ghost start: State, ghost staged: Option<Client>) returns (ok: bool)
      requires Valid() && world.daemon == RemovingCDI(r, staged)
      requires Follows(start, world) && world.minted == start.minted
      modifies this
      ensures Valid() && world.daemon.Idle? && old(trace) <= trace && Follows(start, world)
      ensures world.minted == start.minted && world.gone == old(world).gone
      ensures ok ==> r.token in world.revoked && world.secret == None && world.dir == NO_DIR
      ensures ok && world.stored.Some? ==> world.stored.value.record == r && !world.stored.value.ours
      ensures Setbacks(trace) >= Setbacks(old(trace)) && (ok <==> Setbacks(trace) == Setbacks(old(trace)))
    {
      ghost var w := world;
      var cdi, _ := Attempt("");
      FollowsTransitively(start, w, world);
      if cdi.outcome != Done {
        return false;
      }
      ok := RemoveGuest(r, start);
    }

    method RemoveGuest(r: Record, ghost start: State) returns (ok: bool)
      requires Valid() && world.daemon == RemovingGuest(r) && Follows(start, world) && world.minted == start.minted
      requires world.dir == NO_DIR
      modifies this
      ensures Valid() && world.daemon.Idle? && old(trace) <= trace && Follows(start, world)
      ensures world.minted == start.minted && world.gone == old(world).gone
      ensures ok ==> r.token in world.revoked && world.secret == None && world.dir == NO_DIR
      ensures ok && world.stored.Some? ==> world.stored.value.record == r && !world.stored.value.ours
      ensures Setbacks(trace) >= Setbacks(old(trace)) && (ok <==> Setbacks(trace) == Setbacks(old(trace)))
    {
      ghost var w := world;
      var guest, _ := Attempt("");
      FollowsTransitively(start, w, world);
      if guest.outcome != Done {
        return false;
      }
      ok := DeleteRecord(r, start);
    }

    method DeleteRecord(r: Record, ghost start: State) returns (ok: bool)
      requires Valid() && world.daemon == Rereading(r) && Follows(start, world) && world.minted == start.minted
      modifies this
      ensures Valid() && world.daemon.Idle? && old(trace) <= trace && Follows(start, world)
      ensures world.minted == start.minted && Files(old(world), world)
      ensures ok ==> r.token in world.revoked
      ensures ok && world.stored.Some? ==> world.stored.value.record == r && !world.stored.value.ours
      ensures Setbacks(trace) >= Setbacks(old(trace)) && (ok <==> Setbacks(trace) == Setbacks(old(trace)))
    {
      ghost var w := world;
      var get, found := Attempt("");
      FollowsTransitively(start, w, world);
      if get.outcome != Done || found.stored.None? {
        return get.outcome == Done;
      }
      if found.stored.value.ours {
        ok := Release(r, found.stored.value, start);
        if !ok {
          return;
        }
      }
      ok := DeleteReleased(r, start);
    }

    /** Update the copy that was read, without our finalizer; a stale copy is refused, an object gone is fine. */
    method Release(r: Record, base: Object, ghost start: State) returns (ok: bool)
      requires Valid() && world.daemon == Releasing(r, base) && Follows(start, world) && world.minted == start.minted
      modifies this
      ensures Valid() && old(trace) <= trace && Follows(start, world) && world.minted == start.minted
      ensures world.daemon == (if ok then Deleting(r) else Idle) && Files(old(world), world)
      ensures Setbacks(trace) >= Setbacks(old(trace)) && (ok <==> Setbacks(trace) == Setbacks(old(trace)))
    {
      ghost var w := world;
      var update, at := Attempt("");
      FollowsTransitively(start, w, world);
      return update.outcome == Done && !(at.stored.Some? && Stale(at, base));
    }

    method DeleteReleased(r: Record, ghost start: State) returns (ok: bool)
      requires Valid() && world.daemon == Deleting(r) && Follows(start, world) && world.minted == start.minted
      modifies this
      ensures Valid() && world.daemon.Idle? && old(trace) <= trace && Follows(start, world)
      ensures world.minted == start.minted && Files(old(world), world)
      ensures ok ==> r.token in world.revoked
      ensures ok && world.stored.Some? ==> world.stored.value.record == r && !world.stored.value.ours
      ensures Setbacks(trace) >= Setbacks(old(trace)) && (ok <==> Setbacks(trace) == Setbacks(old(trace)))
    {
      ghost var w := world;
      var delete, at := Attempt("");
      DeleteFollows(at);
      FollowsTransitively(start, w, world);
      return delete.outcome == Done;
    }
  }

  /** What the other processes may turn one world into, as the daemon sees it. */
  ghost predicate Leads(s: State, t: State) {
    && Follows(s, t) && Files(s, t) && t.daemon == s.daemon && t.minted == s.minted
    && (t.stored.Some? ==> Keeps(s, t))
  }

  /** The others may take the token file, once a config is there, and put a config; the rest of the claim's
    * directory, its Secret and its clients are the daemon's. */
  ghost predicate Files(s: State, t: State) {
    && t.secret == s.secret && t.gone == s.gone && t.dir.present == s.dir.present && t.dir.spec == s.dir.spec
    && (t.dir.token == s.dir.token || t.dir.token == None)
    && (s.dir == NO_DIR ==> t.dir == NO_DIR)
    && (Armed(s) ==> Armed(t)) && (Strays(t) ==> Strays(s))
  }

  /** A hook can start the claim's container: a client is cached, or the token file is there to stay. */
  predicate Armed(s: State) { s.dir.config.Some? || (s.dir.token.Some? && !s.hook.Cleaning?) }

  /** A hook whose config was removed under it is about to drop the token file all the same. */
  predicate Strays(s: State) { s.hook.Cleaning? && s.dir.config.None? }

  /** Such a hook comes only of a removal that went ahead without the lock, or of a failed create that cleared the
    * directory, which takes no lock. */
  lemma StraysComeFrom(s: State, a: Action)
    requires Inv(s) && !Strays(s) && Strays(Step(s, a))
    ensures && a.Call? && CallEnabled(s, a)
            && ((s.daemon.TakesDirLock() && !a.locks) || (s.daemon.StagingCDI? && a.outcome != Done))
  {
  }

  /** What a prepare that minted this token leaves for the hook, unless such a hook strays in. */
  ghost predicate Ready(s: State, token: Token, strays: bool) {
    && s.secret == Some(token) && s.dir.present && s.dir.spec
    && (s.dir.token == Some(token) || s.dir.token == None) && (!strays ==> Armed(s))
  }

  /** How the rollback's calls ended; their errors are ignored. One that was not made is None: only what had been
    * made before is taken back. */
  datatype Undo = Undo(directory: Option<Outcome>, secret: Option<Outcome>, token: Outcome)

  /** What a rollback has taken back. A failed removal may leave part of the directory. */
  ghost predicate TakenBack(s: State, token: Token, undo: Undo) {
    && (undo.token.TakesEffect() ==> token in s.revoked)
    && (undo.secret.Some? && undo.secret.value.TakesEffect() ==> s.secret == None)
    && (undo.directory == Some(Done) ==> s.dir == NO_DIR)
    && (undo.directory.Some? ==> undo.secret.Some?)
  }

  lemma LeadsOn(s: State, t: State, u: State)
    requires Leads(s, t) && Leads(t, u)
    ensures Leads(s, u)
  {
    FollowsTransitively(s, t, u);
  }

  /** The record, if still there, is the same one, and it has not come back under our finalizer. */
  predicate Keeps(s: State, t: State)
    requires t.stored.Some?
  {
    && s.stored.Some? && t.stored.value.record == s.stored.value.record
    && (t.stored.value.ours ==> s.stored.value.ours)
  }

  lemma OthersLead(s: State, a: Action)
    requires Inv(s) && !a.ByDaemon()
    ensures Leads(s, Step(s, a))
  {
    StepKeepsInv(s, a);
    OthersKeepFiles(s, a);
    if a.ByOperator() { OperatorFollows(s, a); }
  }

  lemma OthersKeepFiles(s: State, a: Action)
    requires Inv(s) && !a.ByDaemon()
    ensures Files(s, Step(s, a))
  {
    if a.ByOperator() { OperatorFollows(s, a); }
  }
}
