/**
The ledger of `internal/store/store.go` as one process sees it: the table and the
lock directory are shared with other processes, the owned locks are its own.
Whether the database or a lock file fails is a parameter.
*/
module Store {
  import opened Operation

  class Database {
    var rows: Rows

    constructor ()
      ensures rows == map[]
    {
      rows := map[];
    }

    /** `SELECT operation_id ... WHERE stage = 'send_started'`: each once, in any order. */
    method SelectInterrupted() returns (ids: seq<Id>)
      ensures forall id :: id in ids <==> id in rows && rows[id].stage == SendStarted
      ensures forall i, j :: 0 <= i < j < |ids| ==> ids[i] != ids[j]
    {
      ids := [];
      var rest := set id | id in rows && rows[id].stage == SendStarted;
      while rest != {}
        invariant forall id :: id in ids || id in rest <==> id in rows && rows[id].stage == SendStarted
        invariant forall id :: id in ids ==> id !in rest
        invariant forall i, j :: 0 <= i < j < |ids| ==> ids[i] != ids[j]
        decreases |rest|
      {
        var id :| id in rest;
        ids, rest := ids + [id], rest - {id};
      }
    }
  }

  class LockDirectory {
    var held: set<Id>

    constructor ()
      ensures held == {}
    {
      held := {};
    }
  }

  /** An error at this row ends a recovery pass. */
  predicate EndsPass(id: Id, broken: set<Id>, refusing: set<Id>, held: set<Id>) {
    id in broken || (id in refusing && id !in held)
  }

  /** The table after recovery handled the ids of `done`: those without a lock holder are ambiguous. */
  function RecoveredAll(rows: Rows, done: seq<Id>, held: set<Id>, now: int): Rows {
    map id | id in rows :: if id in done && id !in held then RecoveredRow(rows[id], now) else rows[id]
  }

  function Lockless(done: seq<Id>, held: set<Id>): set<Id> { set id | id in done && id !in held }

  function Handled(done: seq<Id>, held: set<Id>): nat { |Lockless(done, held)| }

  class Store {
    const database: Database
    const directory: LockDirectory
    var owners: set<Id>

    ghost function View(): Ground
      reads this, database, directory
    {
      Ground(database.rows, owners, directory.held)
    }

    ghost predicate Valid()
      reads this, database, directory
    {
      RowsValid(database.rows) && owners <= directory.held
    }

    constructor (database: Database, directory: LockDirectory)
      requires RowsValid(database.rows)
      ensures Valid() && this.database == database && this.directory == directory && owners == {}
    {
      this.database, this.directory, owners := database, directory, {};
    }

    /** `Begin`: registers the request, or answers with what is already registered under its id. */
    method Begin(request: Request, now: int, update: Update) returns (result: Result<(Row, bool)>)
      requires Valid()
      modifies database
      ensures Valid() && directory.held == old(directory.held)
      ensures result == (
        if !RequestValid(request) then Err(InvalidRequest)
        else if update.NotApplied? then Err(StorageFailed)
        else if request.id in old(database.rows) && old(database.rows)[request.id].request.digest != request.digest then Err(Conflict)
        else if update.Unanswered? then Err(StorageFailed)
        else if request.id !in old(database.rows) then Ok((Opening(request, now), false))
        else Ok((old(database.rows)[request.id], true)))
      ensures database.rows ==
        if result.Ok? || (update.Unanswered? && result == Err(StorageFailed)) then Inserted(old(database.rows), request, now)
        else old(database.rows)
    {
      if !RequestValid(request) { return Err(InvalidRequest); }
      if update.NotApplied? { return Err(StorageFailed); }
      var before := database.rows;
      database.rows := Inserted(before, request, now);
      var receipt := database.rows[request.id];
      if receipt.request.digest != request.digest {
        database.rows := before;
        return Err(Conflict);
      }
      if update.Unanswered? { return Err(StorageFailed); }
      return Ok((receipt, request.id in before));
    }

    /** `Transition`. */
    method Transition(id: Id, to: Stage, patch: Patch, now: int, update: Update) returns (result: Result<Row>)
      requires Valid()
      modifies this, database, directory
      ensures Valid()
      ensures result == TransitionResult(old(View()), id, to, patch, now, update)
      ensures View() == TransitionGround(old(View()), id, to, patch, now, update)
    {
      hide RowValid, PatchAllowed, Moved;
      var acquired, committed := false, false;
      if to == SendStarted && id !in owners {
        if id in directory.held { return Err(InvalidTransition); }
        directory.held := directory.held + {id};
        owners := owners + {id};
        acquired := true;
      }
      if update.NotApplied? {
        result := Err(StorageFailed);
      } else if id !in database.rows {
        result := Err(NotFound);
      } else if !PatchAllowed(database.rows[id].stage, to, patch) {
        result := Err(InvalidTransition);
      } else {
        MovesKeepRows(id, database.rows[id], to, patch, now);
        result := Ok(Moved(database.rows[id], to, patch, now));
        database.rows := database.rows[id := result.value];
        committed := update.Applied?;
        if !committed { result := Err(StorageFailed); }
      }
      if (acquired && !committed) || (committed && Terminal(to)) {
        if id in owners {
          directory.held := directory.held - {id};
          owners := owners - {id};
        }
      }
    }

    /**
    `RecoverInterrupted`. A lock file in `broken` makes `TryLock` fail, and a row in `refusing` its update
    (after the lock, which is given back): either ends the pass with what was recovered so far.
    */
    method RecoverInterrupted(now: int, broken: set<Id>, refusing: set<Id>) returns (recovered: nat, error: bool, ghost done: seq<Id>)
      requires Valid()
      modifies database, directory
      ensures Valid() && directory.held == old(directory.held)
      ensures forall id :: id in done ==>
        id in old(database.rows) && old(database.rows)[id].stage == SendStarted && !EndsPass(id, broken, refusing, directory.held)
      ensures !error ==> forall id :: id in old(database.rows) && old(database.rows)[id].stage == SendStarted ==> id in done
      ensures error <==>
        exists id :: id in old(database.rows) && old(database.rows)[id].stage == SendStarted && EndsPass(id, broken, refusing, directory.held)
      ensures database.rows == RecoveredAll(old(database.rows), done, old(directory.held), now)
      ensures recovered == Handled(done, old(directory.held))
    {
      hide RecoveredAll, RecoveredRow, Recovered, RowsValid, Handled;
      var ids := database.SelectInterrupted();
      recovered, error, done := 0, false, [];
      ghost var was, held := database.rows, directory.held;
      RecoveredNone(was, held, now);
      var i := 0;
      while i < |ids|
        invariant 0 <= i <= |ids| && done == ids[..i]
        invariant directory.held == held && recovered == Handled(done, held)
        invariant forall id :: id in done ==> !EndsPass(id, broken, refusing, held)
        invariant !error
        invariant database.rows == RecoveredAll(was, done, held, now)
        modifies database, directory
      {
        var id := ids[i];
        if EndsPass(id, broken, refusing, directory.held) {
          error := true;
          break;
        }
        HandledStep(ids, i, held);
        RecoveredGrows(was, done, id, held, now);
        if id !in directory.held {
          directory.held := directory.held + {id};
          if id in database.rows && database.rows[id].stage == SendStarted {
            database.rows := Recovered(database.rows, id, now);
            recovered := recovered + 1;
          }
          directory.held := directory.held - {id};
        }
        assert ids[..i + 1] == done + [id];
        done := ids[..i + 1];
        i := i + 1;
      }
      RecoveredStaySound(was, done, held, now);
    }

    /** `PurgeTerminalBefore`. */
    method PurgeTerminalBefore(cutoff: int) returns (removed: nat)
      requires Valid()
      modifies database
      ensures Valid() && directory.held == old(directory.held)
      ensures database.rows == Purged(old(database.rows), cutoff)
      ensures removed == |old(database.rows)| - |database.rows|
      ensures forall id :: id in old(database.rows) && !Terminal(old(database.rows)[id].stage) ==> id in database.rows
    {
      var kept := Purged(database.rows, cutoff);
      assert kept.Keys <= database.rows.Keys;
      SmallerMap(kept, database.rows);
      removed := |database.rows| - |kept|;
      database.rows := kept;
    }

    /** `Close` gives every owned lock back. */
    method Close()
      requires Valid()
      modifies this, directory
      ensures Valid() && owners == {} && directory.held == old(directory.held) - old(owners)
    {
      while owners != {}
        invariant owners <= directory.held && owners <= old(owners)
        invariant directory.held == old(directory.held) - (old(owners) - owners)
        decreases |owners|
      {
        var id :| id in owners;
        directory.held := directory.held - {id};
        owners := owners - {id};
      }
    }
  }

  lemma HandledStep(ids: seq<Id>, i: nat, held: set<Id>)
    requires i < |ids| && forall a, b :: 0 <= a < b < |ids| ==> ids[a] != ids[b]
    ensures ids[i] !in ids[..i]
    ensures Handled(ids[..i + 1], held) == Handled(ids[..i], held) + if ids[i] in held then 0 else 1
  {
    var done, next := ids[..i], ids[..i + 1];
    assert next == done + [ids[i]];
    if ids[i] in held {
      assert Lockless(next, held) == Lockless(done, held);
    } else {
      assert Lockless(next, held) == Lockless(done, held) + {ids[i]};
    }
  }

  lemma RecoveredGrows(rows: Rows, done: seq<Id>, id: Id, held: set<Id>, now: int)
    requires id in rows && rows[id].stage == SendStarted && id !in done
    ensures
      var before, after := RecoveredAll(rows, done, held, now), RecoveredAll(rows, done + [id], held, now);
      && id in before && before[id].stage == SendStarted
      && after == if id in held then before else Recovered(before, id, now)
  {
    hide RecoveredRow;
  }

  lemma RecoveredNone(rows: Rows, held: set<Id>, now: int)
    ensures RecoveredAll(rows, [], held, now) == rows && Handled([], held) == 0
  {
    assert Lockless([], held) == {};
  }

  lemma RecoveredStaySound(rows: Rows, done: seq<Id>, held: set<Id>, now: int)
    requires RowsValid(rows) && forall id :: id in done ==> id in rows && rows[id].stage == SendStarted
    ensures RowsValid(RecoveredAll(rows, done, held, now))
  {
    forall id | id in rows && id in done ensures RowValid(id, RecoveredRow(rows[id], now)) {
      MovesKeepRows(id, rows[id], Ambiguous, RecoveryPatch(rows[id].patch), now);
    }
  }

  lemma SmallerMap(small: Rows, large: Rows)
    requires small.Keys <= large.Keys
    ensures |small| <= |large|
  {
    assert large.Keys == small.Keys + (large.Keys - small.Keys);
  }
}
