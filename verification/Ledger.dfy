/**
Several processes over one ledger and one directory of lock files, interleaved
arbitrarily with crashes and recoveries. A step is one critical section: taking a
lock, one transaction, or giving a lock back.
*/
module Ledger {
  import opened Basics
  import opened Operation

  type Pid = nat

  /** Locks are exclusive per open file: a recovery's lock differs from its own process's owner lock. */
  datatype Holder = Owner(pid: Pid) | Recoverer(pid: Pid)

  /** Where a process is inside `Transition`, which holds its `ownersMu`. */
  datatype Phase =
    | Quiet
    | Prepared(id: Id, to: Stage, patch: Patch, acquired: bool)
    | Settled(id: Id, to: Stage, acquired: bool, committed: bool)

  /** Where a process is inside `RecoverInterrupted`. */
  datatype Recovery = NoRecovery | Listed(ids: seq<Id>) | Holding(id: Id, rest: seq<Id>) | Written(id: Id, rest: seq<Id>)

  datatype Process = Process(owners: set<Id>, phase: Phase, recovery: Recovery)

  datatype Event = Created(id: Id) | Went(id: Id, from: Stage, to: Stage) | Removed(id: Id)

  /** `starters` and `trace` record the run: who was told that its `send_started` is committed, and every change of a row. */
  datatype World = World(
    rows: Rows, locks: map<Id, Holder>, processes: map<Pid, Process>, starters: map<Id, Pid>, trace: seq<Event>)

  const EMPTY := World(map[], map[], map[], map[], [])

  // ------------------------------------------------------------------ steps

  function SetProcess(w: World, pid: Pid, p: Process): World { w.(processes := w.processes[pid := p]) }

  /** `Open`: a new process, about to recover what it finds. */
  function StartProcess(w: World, pid: Pid, listed: seq<Id>): World {
    if pid in w.processes then w else SetProcess(w, pid, Process({}, Quiet, Listed(listed)))
  }

  function BeginOperation(w: World, r: Request, now: int): World {
    if !RequestValid(r) || r.id in w.rows then w
    else w.(rows := Inserted(w.rows, r, now), trace := w.trace + [Created(r.id)])
  }

  /** The start of `Transition`: a lock is taken for `send_started` unless already owned. */
  function Prepare(w: World, pid: Pid, id: Id, to: Stage, patch: Patch): World {
    if pid !in w.processes || !w.processes[pid].phase.Quiet? then w
    else
      var p := w.processes[pid];
      if to == SendStarted && id !in p.owners then
        if id in w.locks then w
        else SetProcess(w.(locks := w.locks[id := Owner(pid)]), pid, p.(owners := p.owners + {id}, phase := Prepared(id, to, patch, true)))
      else SetProcess(w, pid, p.(phase := Prepared(id, to, patch, false)))
  }

  /**
  The transaction of `Transition`. Only an answered commit of `send_started` makes its process the
  starter: told of an error, a process does not send.
  */
  function Commit(w: World, pid: Pid, now: int, update: Update): World {
    if pid !in w.processes || !w.processes[pid].phase.Prepared? then w
    else
      var p := w.processes[pid];
      var h := p.phase;
      if update.NotApplied? || !CanMove(w.rows, h.id, h.to, h.patch) then
        SetProcess(w, pid, p.(phase := Settled(h.id, h.to, h.acquired, false)))
      else
        var row := w.rows[h.id];
        SetProcess(w.(rows := w.rows[h.id := Moved(row, h.to, h.patch, now)],
                   starters := if h.to != SendStarted then w.starters else if update.Applied? then w.starters[h.id := pid] else w.starters - {h.id},
                   trace := w.trace + [Went(h.id, row.stage, h.to)]),
                   pid, p.(phase := Settled(h.id, h.to, h.acquired, update.Applied?)))
  }

  /** The deferred part of `Transition`: the lock is given back on failure and at the end. */
  function Settle(w: World, pid: Pid): World {
    if pid !in w.processes || !w.processes[pid].phase.Settled? then w
    else
      var p := w.processes[pid];
      var h := p.phase;
      if ((h.acquired && !h.committed) || (h.committed && Terminal(h.to))) && h.id in p.owners then
        SetProcess(w.(locks := w.locks - {h.id}), pid, p.(owners := p.owners - {h.id}, phase := Quiet))
      else SetProcess(w, pid, p.(phase := Quiet))
  }

  /** `RecoverInterrupted` lists the interrupted rows; the order is the database's. */
  function List(w: World, pid: Pid, listed: seq<Id>): World {
    if pid !in w.processes || !w.processes[pid].recovery.NoRecovery? then w
    else SetProcess(w, pid, w.processes[pid].(recovery := Listed(listed)))
  }

  /** For the next listed row, try its lock; a held lock means it is skipped. */
  function TryRecover(w: World, pid: Pid): World {
    if pid !in w.processes || !w.processes[pid].recovery.Listed? then w
    else
      var p := w.processes[pid];
      var ids := p.recovery.ids;
      if ids == [] then SetProcess(w, pid, p.(recovery := NoRecovery))
      else if ids[0] in w.locks then SetProcess(w, pid, p.(recovery := Listed(ids[1..])))
      else SetProcess(w.(locks := w.locks[ids[0] := Recoverer(pid)]), pid, p.(recovery := Holding(ids[0], ids[1..])))
  }

  /** The conditional update of recovery; an error ends the pass after its lock is given back. */
  function WriteRecovery(w: World, pid: Pid, now: int, update: Update): World {
    if pid !in w.processes || !w.processes[pid].recovery.Holding? then w
    else
      var p := w.processes[pid];
      var id := p.recovery.id;
      var v := SetProcess(w, pid, p.(recovery := Written(id, if update.Applied? then p.recovery.rest else [])));
      if id in w.rows && w.rows[id].stage == SendStarted && !update.NotApplied?
      then v.(rows := Recovered(w.rows, id, now), trace := w.trace + [Went(id, SendStarted, Ambiguous)]) else v
  }

  function EndRecovery(w: World, pid: Pid): World {
    if pid !in w.processes || !w.processes[pid].recovery.Written? then w
    else
      var p := w.processes[pid];
      SetProcess(w.(locks := w.locks - {p.recovery.id}), pid, p.(recovery := Listed(p.recovery.rest)))
  }

  /** The operating system drops every lock of a process that is gone; `Close` leaves the same behind. */
  function Crash(w: World, pid: Pid): World {
    w.(processes := w.processes - {pid}, locks := map id | id in w.locks && w.locks[id].pid != pid :: w.locks[id])
  }

  function Purge(w: World, cutoff: int, removed: seq<Id>): World {
    w.(rows := Purged(w.rows, cutoff), trace := w.trace + Removals(removed))
  }

  datatype Step =
    | Start(pid: Pid, listed: seq<Id>) | Register(request: Request, now: int)
    | Preparing(pid: Pid, id: Id, to: Stage, patch: Patch) | Committing(pid: Pid, now: int, update: Update) | Settling(pid: Pid)
    | Listing(pid: Pid, listed: seq<Id>) | Trying(pid: Pid) | Writing(pid: Pid, now: int, update: Update) | Ending(pid: Pid)
    | Crashing(pid: Pid) | Purging(cutoff: int, removed: seq<Id>)

  /** A listing is the `send_started` rows; a purge names what it removes. A process id names one lifetime. */
  ghost predicate Enabled(w: World, s: Step) {
    match s
    case Start(pid, listed) => ListsInterrupted(w, listed) && forall id :: id in w.starters ==> w.starters[id] != pid
    case Listing(_, listed) => ListsInterrupted(w, listed)
    case Purging(cutoff, removed) =>
      (forall id :: id in removed <==> id in w.rows && id !in Purged(w.rows, cutoff))
    case _ => true
  }

  predicate Interrupted(rows: Rows, id: Id) { id in rows && rows[id].stage == SendStarted }

  ghost predicate ListsInterrupted(w: World, listed: seq<Id>) {
    forall id :: id in listed <==> Interrupted(w.rows, id)
  }

  function Apply(w: World, s: Step): World {
    match s
    case Start(pid, listed) => StartProcess(w, pid, listed)
    case Register(r, now) => BeginOperation(w, r, now)
    case Preparing(pid, id, to, patch) => Prepare(w, pid, id, to, patch)
    case Committing(pid, now, update) => Commit(w, pid, now, update)
    case Settling(pid) => Settle(w, pid)
    case Listing(pid, listed) => List(w, pid, listed)
    case Trying(pid) => TryRecover(w, pid)
    case Writing(pid, now, update) => WriteRecovery(w, pid, now, update)
    case Ending(pid) => EndRecovery(w, pid)
    case Crashing(pid) => Crash(w, pid)
    case Purging(cutoff, removed) => Purge(w, cutoff, removed)
  }

  /** A run: worlds from the empty one, each obtained by an enabled step. */
  ghost predicate IsRun(ws: seq<World>, steps: seq<Step>) {
    && |ws| == |steps| + 1 && ws[0] == EMPTY
    && forall i :: 0 <= i < |steps| ==> Enabled(ws[i], steps[i]) && ws[i + 1] == Apply(ws[i], steps[i])
  }

  // -------------------------------------------------------------- histories

  function AfterEvent(path: seq<Stage>, e: Event): seq<Stage> {
    match e
    case Created(_) => [NotSent]
    case Went(_, _, to) => path + [to]
    case Removed(_) => []
  }

  /** The stages an operation went through since it was last created; empty when there is none. */
  function Path(trace: seq<Event>, id: Id): seq<Stage>
    decreases |trace|
  {
    if trace == [] then []
    else
      var before, e := Path(trace[..|trace| - 1], id), trace[|trace| - 1];
      if e.id == id then AfterEvent(before, e) else before
  }

  ghost predicate Legal(path: seq<Stage>) {
    forall i :: 0 < i < |path| ==> TransitionAllowed(path[i - 1], path[i])
  }

  // ------------------------------------------------------------- invariants

  /** Rows and history agree. */
  ghost predicate RecordedRow(row: Row, path: seq<Stage>) {
    && path != [] && path[0] == NotSent && path[|path| - 1] == row.stage && Legal(path)
    && (row.sendStartedAt.Some? <==> SendStarted in path)
  }

  ghost predicate Recorded(rows: Rows, trace: seq<Event>) {
    && RowsValid(rows)
    && (forall id :: id in rows ==> RecordedRow(rows[id], Path(trace, id)))
    && (forall id :: id !in rows ==> Path(trace, id) == [])
  }

  /** The operation a process holds a recovery lock for. */
  function Recovering(p: Process): Option<Id> {
    match p.recovery
    case Holding(id, _) => Some(id)
    case Written(id, _) => Some(id)
    case _ => None
  }

  predicate Knows(p: Process, id: Id, h: Holder) {
    if h.Owner? then id in p.owners else Recovering(p) == Some(id)
  }

  /** Every lock has a living holder that knows of it. */
  ghost predicate LocksHeld(locks: map<Id, Holder>, processes: map<Pid, Process>) {
    forall id :: id in locks ==> locks[id].pid in processes && Knows(processes[locks[id].pid], id, locks[id])
  }

  /** Every process holds the locks it knows of; a commit of `send_started` is prepared only under its lock. */
  ghost predicate Honest(locks: map<Id, Holder>, pid: Pid, p: Process) {
    && (forall id :: id in p.owners ==> id in locks && locks[id] == Owner(pid))
    && (Recovering(p).Some? ==> Recovering(p).value in locks && locks[Recovering(p).value] == Recoverer(pid))
    && (p.phase.Prepared? ==> (p.phase.acquired ==> p.phase.to == SendStarted) && (p.phase.to == SendStarted ==> p.phase.id in p.owners))
    && (p.phase.Settled? && p.phase.acquired ==> p.phase.to == SendStarted)
  }

  ghost predicate LocksKnown(locks: map<Id, Holder>, processes: map<Pid, Process>) {
    && LocksHeld(locks, processes)
    && forall pid :: pid in processes ==> Honest(locks, pid, processes[pid])
  }

  /** The row is in `send_started`, and `pid` put it there and knows it. */
  predicate StartedBy(w: World, id: Id, pid: Pid) {
    Interrupted(w.rows, id) && id in w.starters && w.starters[id] == pid
  }

  /** No give-back is under way for an operation the process itself started. */
  predicate KeepsLock(w: World, pid: Pid, phase: Phase) {
    match phase
    case Quiet => true
    case Prepared(id, _, _, acquired) => acquired ==> !StartedBy(w, id, pid)
    case Settled(id, to, acquired, committed) =>
      StartedBy(w, id, pid) ==> (acquired ==> committed) && (committed ==> !Terminal(to))
  }

  /** While the process that started a send lives, it holds the lock: nobody can recover the operation. */
  ghost predicate StartersGuard(w: World) {
    && (forall id, pid :: StartedBy(w, id, pid) && pid in w.processes ==> id in w.locks && w.locks[id] == Owner(pid))
    && (forall pid :: pid in w.processes ==> KeepsLock(w, pid, w.processes[pid].phase))
  }

  ghost predicate Inv(w: World) {
    Recorded(w.rows, w.trace) && LocksKnown(w.locks, w.processes) && StartersGuard(w)
  }

  // ---------------------------------------------------- rows against history

  lemma PathGrows(trace: seq<Event>, e: Event, id: Id)
    ensures Path(trace + [e], id) == if e.id == id then AfterEvent(Path(trace, id), e) else Path(trace, id)
  {
    assert (trace + [e])[..|trace + [e]| - 1] == trace;
  }

  function Removals(removed: seq<Id>): (events: seq<Event>)
    ensures |events| == |removed| && forall i :: 0 <= i < |removed| ==> events[i] == Removed(removed[i])
  {
    seq(|removed|, i requires 0 <= i < |removed| => Removed(removed[i]))
  }

  lemma {:induction false} PathPurged(trace: seq<Event>, removed: seq<Id>, id: Id)
    ensures Path(trace + Removals(removed), id) == if id in removed then [] else Path(trace, id)
    decreases |removed|
  {
    if removed == [] {
      assert trace + Removals(removed) == trace;
    } else {
      var init, last := removed[..|removed| - 1], removed[|removed| - 1];
      PathPurged(trace, init, id);
      PathGrows(trace + Removals(init), Removed(last), id);
      assert trace + Removals(removed) == trace + Removals(init) + [Removed(last)];
      assert id in removed <==> id in init || id == last;
    }
  }

  lemma RowRecorded(row: Row, next: Row, path: seq<Stage>, to: Stage)
    requires RecordedRow(row, path) && TransitionAllowed(row.stage, to) && next.stage == to
    requires next.sendStartedAt.Some? <==> row.sendStartedAt.Some? || to == SendStarted
    ensures RecordedRow(next, path + [to])
  {
    hide TransitionAllowed;
    var longer := path + [to];
    forall i | 0 < i < |longer| ensures TransitionAllowed(longer[i - 1], longer[i]) {
      if i < |path| { assert TransitionAllowed(path[i - 1], path[i]); }
    }
  }

  /** One row follows one legal transition. */
  lemma RowGoes(rows: Rows, trace: seq<Event>, id: Id, to: Stage, row: Row)
    requires Recorded(rows, trace) && id in rows && TransitionAllowed(rows[id].stage, to)
    requires RowValid(id, row) && row.stage == to
    requires row.sendStartedAt.Some? <==> rows[id].sendStartedAt.Some? || to == SendStarted
    ensures Recorded(rows[id := row], trace + [Went(id, rows[id].stage, to)])
  {
    hide Path, RowValid, RecordedRow, TransitionAllowed;
    var e := Went(id, rows[id].stage, to);
    forall other ensures Path(trace + [e], other) == if other == id then AfterEvent(Path(trace, id), e) else Path(trace, other) {
      PathGrows(trace, e, other);
    }
    RowRecorded(rows[id], row, Path(trace, id), to);
  }

  lemma RowOpens(rows: Rows, trace: seq<Event>, r: Request, now: int)
    requires Recorded(rows, trace) && r.id !in rows
    ensures Recorded(rows[r.id := Opening(r, now)], trace + [Created(r.id)])
  {
    forall other ensures Path(trace + [Created(r.id)], other) == if other == r.id then [NotSent] else Path(trace, other) {
      PathGrows(trace, Created(r.id), other);
    }
  }

  lemma CommitKeepsRecord(w: World, pid: Pid, now: int, update: Update)
    requires Recorded(w.rows, w.trace)
    ensures var v := Commit(w, pid, now, update); Recorded(v.rows, v.trace)
  {
    hide Path, RecordedRow, RowValid, Recorded;
    if pid in w.processes && w.processes[pid].phase.Prepared? {
      var h := w.processes[pid].phase;
      if !update.NotApplied? && CanMove(w.rows, h.id, h.to, h.patch) {
        RecordedValid(w.rows, w.trace, h.id);
        MovesKeepRows(h.id, w.rows[h.id], h.to, h.patch, now);
        RowGoes(w.rows, w.trace, h.id, h.to, Moved(w.rows[h.id], h.to, h.patch, now));
      }
    }
  }

  lemma WriteKeepsRecord(w: World, pid: Pid, now: int, update: Update)
    requires Recorded(w.rows, w.trace)
    ensures var v := WriteRecovery(w, pid, now, update); Recorded(v.rows, v.trace)
  {
    hide Path, RecordedRow, RowValid, Recorded;
    if pid in w.processes && w.processes[pid].recovery.Holding? {
      var id := w.processes[pid].recovery.id;
      if id in w.rows && w.rows[id].stage == SendStarted && !update.NotApplied? {
        RecordedValid(w.rows, w.trace, id);
        MovesKeepRows(id, w.rows[id], Ambiguous, RecoveryPatch(w.rows[id].patch), now);
        RowGoes(w.rows, w.trace, id, Ambiguous, RecoveredRow(w.rows[id], now));
      }
    }
  }

  lemma RecordedValid(rows: Rows, trace: seq<Event>, id: Id)
    requires Recorded(rows, trace) && id in rows
    ensures RowValid(id, rows[id])
  {
    hide RowValid, RecordedRow, Path;
  }

  lemma StepKeepsRecord(w: World, s: Step)
    requires Recorded(w.rows, w.trace) && Enabled(w, s)
    ensures Recorded(Apply(w, s).rows, Apply(w, s).trace)
  {
    hide Path, RecordedRow, RowValid, Commit, WriteRecovery;
    match s
    case Register(r, now) =>
      if RequestValid(r) && r.id !in w.rows { RowOpens(w.rows, w.trace, r, now); }
    case Committing(pid, now, update) => CommitKeepsRecord(w, pid, now, update);
    case Writing(pid, now, update) => WriteKeepsRecord(w, pid, now, update);
    case Purging(cutoff, removed) =>
      assert Apply(w, s).trace == w.trace + Removals(removed);
      forall id ensures Path(w.trace + Removals(removed), id) == if id in removed then [] else Path(w.trace, id) {
        PathPurged(w.trace, removed, id);
      }
    case _ =>
  }

  ghost predicate InPhase(w: World, pid: Pid, phase: Phase, owners: set<Id>) {
    pid in w.processes && w.processes[pid].phase == phase && w.processes[pid].owners == owners
  }

  lemma Prepares(w: World, pid: Pid, id: Id, to: Stage, patch: Patch)
    requires pid in w.processes && w.processes[pid].phase.Quiet? && w.processes[pid].owners <= w.locks.Keys
    ensures
      var v, owners := Prepare(w, pid, id, to, patch), w.processes[pid].owners;
      var takes := to == SendStarted && id !in owners;
      && v.rows == w.rows
      && (takes && id in w.locks ==> v == w)
      && (takes && id !in w.locks ==> InPhase(v, pid, Prepared(id, to, patch, true), owners + {id}) && v.locks.Keys == w.locks.Keys + {id})
      && (!takes ==> InPhase(v, pid, Prepared(id, to, patch, false), owners) && v.locks == w.locks)
  {
  }

  lemma CommitsOrNot(w: World, pid: Pid, now: int, update: Update, owners: set<Id>)
    requires pid in w.processes && w.processes[pid].phase.Prepared? && w.processes[pid].owners == owners
    ensures
      var v, h := Commit(w, pid, now, update), w.processes[pid].phase;
      var moves := !update.NotApplied? && CanMove(w.rows, h.id, h.to, h.patch);
      && v.rows == (if moves then w.rows[h.id := Moved(w.rows[h.id], h.to, h.patch, now)] else w.rows) && v.locks == w.locks
      && InPhase(v, pid, Settled(h.id, h.to, h.acquired, moves && update.Applied?), owners)
  {
    hide CanMove, Moved;
  }

  lemma Settles(w: World, pid: Pid, owners: set<Id>)
    requires pid in w.processes && w.processes[pid].phase.Settled? && w.processes[pid].owners == owners
    ensures
      var v, h := Settle(w, pid), w.processes[pid].phase;
      var freed := if ((h.acquired && !h.committed) || (h.committed && Terminal(h.to))) && h.id in owners then {h.id} else {};
      v.rows == w.rows && v.locks.Keys == w.locks.Keys - freed && InPhase(v, pid, Quiet, owners - freed)
  {
  }

  /** A lock that was taken and given back, and one taken when it was already there. */
  lemma LocksReturn(owners: set<Id>, held: set<Id>, id: Id)
    ensures id !in owners ==> owners + {id} - {id} == owners
    ensures id !in held ==> held + {id} - {id} == held
    ensures id in owners ==> owners + {id} == owners
    ensures id in held ==> held + {id} == held
    ensures owners + {} - {} == owners && held + {} - {} == held && owners - {} == owners && held - {} == held
  {
  }

  /** The three critical sections of `Transition`, undisturbed, are one transition. */
  lemma TransitionIsThreeSteps(w: World, pid: Pid, id: Id, to: Stage, patch: Patch, now: int, update: Update)
    requires pid in w.processes && w.processes[pid].phase.Quiet?
    requires w.processes[pid].owners <= w.locks.Keys
    ensures
      var g := Ground(w.rows, w.processes[pid].owners, w.locks.Keys);
      var refused := to == SendStarted && id !in g.owners && id in g.held;
      var v := if refused then Prepare(w, pid, id, to, patch) else Settle(Commit(Prepare(w, pid, id, to, patch), pid, now, update), pid);
      && pid in v.processes && v.processes[pid].phase.Quiet?
      && Ground(v.rows, v.processes[pid].owners, v.locks.Keys) == TransitionGround(g, id, to, patch, now, update)
  {
    hide Prepare, Commit, Settle, PatchAllowed, Moved;
    var owners := w.processes[pid].owners;
    Prepares(w, pid, id, to, patch);
    if !(to == SendStarted && id !in owners && id in w.locks) {
      var mine := if to == SendStarted then owners + {id} else owners;
      var v := Prepare(w, pid, id, to, patch);
      CommitsOrNot(v, pid, now, update, mine);
      Settles(Commit(v, pid, now, update), pid, mine);
      LocksReturn(owners, w.locks.Keys, id);
    }
  }

  // ------------------------------------------------------------------ locks

  /** One process changes its own locks only. */
  ghost predicate OthersKeep(locks: map<Id, Holder>, next: map<Id, Holder>, pid: Pid) {
    forall id :: (id in locks && locks[id].pid != pid) || (id in next && next[id].pid != pid) ==>
      id in locks && id in next && locks[id] == next[id]
  }

  lemma ProcessKeepsLocks(w: World, next: map<Id, Holder>, pid: Pid, p: Process)
    requires LocksKnown(w.locks, w.processes) && OthersKeep(w.locks, next, pid) && Honest(next, pid, p)
    requires forall id :: id in next && next[id].pid == pid ==> Knows(p, id, next[id])
    ensures LocksKnown(next, w.processes[pid := p])
  {
    forall other | other in w.processes && other != pid ensures Honest(next, other, w.processes[other]) {
      assert Honest(w.locks, other, w.processes[other]);
    }
  }

  lemma PrepareKeepsLocks(w: World, pid: Pid, id: Id, to: Stage, patch: Patch)
    requires LocksKnown(w.locks, w.processes)
    ensures var v := Prepare(w, pid, id, to, patch); LocksKnown(v.locks, v.processes)
  {
    hide Honest, LocksHeld;
    var v := Prepare(w, pid, id, to, patch);
    if pid in w.processes && w.processes[pid].phase.Quiet? {
      var p := w.processes[pid];
      assert Honest(w.locks, pid, p);
      PreparedIsHonest(w.locks, pid, p, id, to, patch);
      OwnLocksKnown(w.locks, w.processes, pid);
      ProcessKeepsLocks(w, v.locks, pid, v.processes[pid]);
    }
  }

  lemma PreparedIsHonest(locks: map<Id, Holder>, pid: Pid, p: Process, id: Id, to: Stage, patch: Patch)
    requires Honest(locks, pid, p) && p.phase.Quiet?
    ensures to == SendStarted && id !in locks ==>
      Honest(locks[id := Owner(pid)], pid, p.(owners := p.owners + {id}, phase := Prepared(id, to, patch, true)))
    ensures to != SendStarted || id in p.owners ==> Honest(locks, pid, p.(phase := Prepared(id, to, patch, false)))
    ensures Honest(locks, pid, p)
  {
  }

  lemma CommitKeepsLocks(w: World, pid: Pid, now: int, update: Update)
    requires LocksKnown(w.locks, w.processes)
    ensures var v := Commit(w, pid, now, update); LocksKnown(v.locks, v.processes)
  {
    hide CanMove, Recovered, Moved;
    var v := Commit(w, pid, now, update);
    if pid in w.processes {
      assert Honest(w.locks, pid, w.processes[pid]);
      ProcessKeepsLocks(w, v.locks, pid, v.processes[pid]);
    }
  }

  lemma SettleKeepsLocks(w: World, pid: Pid)
    requires LocksKnown(w.locks, w.processes)
    ensures var v := Settle(w, pid); LocksKnown(v.locks, v.processes)
  {
    hide CanMove, Recovered, Moved;
    var v := Settle(w, pid);
    if pid in w.processes {
      assert Honest(w.locks, pid, w.processes[pid]);
      ProcessKeepsLocks(w, v.locks, pid, v.processes[pid]);
    }
  }

  lemma TryRecoverKeepsLocks(w: World, pid: Pid)
    requires LocksKnown(w.locks, w.processes)
    ensures var v := TryRecover(w, pid); LocksKnown(v.locks, v.processes)
  {
    hide Honest, LocksHeld;
    var v := TryRecover(w, pid);
    if pid in w.processes && w.processes[pid].recovery.Listed? {
      assert Honest(w.locks, pid, w.processes[pid]);
      TriedIsHonest(w.locks, pid, w.processes[pid]);
      OwnLocksKnown(w.locks, w.processes, pid);
      var p := w.processes[pid];
      var ids := p.recovery.ids;
      if ids == [] {
        ProcessKeepsLocks(w, w.locks, pid, p.(recovery := NoRecovery));
      } else if ids[0] in w.locks {
        ProcessKeepsLocks(w, w.locks, pid, p.(recovery := Listed(ids[1..])));
      } else {
        ProcessKeepsLocks(w, w.locks[ids[0] := Recoverer(pid)], pid, p.(recovery := Holding(ids[0], ids[1..])));
      }
    }
  }

  lemma OwnLocksKnown(locks: map<Id, Holder>, processes: map<Pid, Process>, pid: Pid)
    requires LocksHeld(locks, processes) && pid in processes
    ensures forall id :: id in locks && locks[id].pid == pid ==> Knows(processes[pid], id, locks[id])
  {
  }

  lemma TriedIsHonest(locks: map<Id, Holder>, pid: Pid, p: Process)
    requires Honest(locks, pid, p) && p.recovery.Listed?
    ensures forall rest :: Honest(locks, pid, p.(recovery := Listed(rest))) && Honest(locks, pid, p.(recovery := NoRecovery))
    ensures forall id, rest :: id !in locks ==> Honest(locks[id := Recoverer(pid)], pid, p.(recovery := Holding(id, rest)))
  {
  }

  lemma WriteRecoveryKeepsLocks(w: World, pid: Pid, now: int, update: Update)
    requires LocksKnown(w.locks, w.processes)
    ensures var v := WriteRecovery(w, pid, now, update); LocksKnown(v.locks, v.processes)
  {
    hide CanMove, Recovered, Moved;
    var v := WriteRecovery(w, pid, now, update);
    if pid in w.processes {
      assert Honest(w.locks, pid, w.processes[pid]);
      ProcessKeepsLocks(w, v.locks, pid, v.processes[pid]);
    }
  }

  lemma EndRecoveryKeepsLocks(w: World, pid: Pid)
    requires LocksKnown(w.locks, w.processes)
    ensures var v := EndRecovery(w, pid); LocksKnown(v.locks, v.processes)
  {
    hide CanMove, Recovered, Moved;
    var v := EndRecovery(w, pid);
    if pid in w.processes {
      assert Honest(w.locks, pid, w.processes[pid]);
      ProcessKeepsLocks(w, v.locks, pid, v.processes[pid]);
    }
  }

  lemma StartKeepsLocks(w: World, pid: Pid, listed: seq<Id>)
    requires LocksKnown(w.locks, w.processes)
    ensures LocksKnown(w.locks, StartProcess(w, pid, listed).processes)
  {
    if pid !in w.processes { ProcessKeepsLocks(w, w.locks, pid, Process({}, Quiet, Listed(listed))); }
  }

  lemma ListKeepsLocks(w: World, pid: Pid, listed: seq<Id>)
    requires LocksKnown(w.locks, w.processes)
    ensures LocksKnown(w.locks, List(w, pid, listed).processes)
  {
    if pid in w.processes {
      assert Honest(w.locks, pid, w.processes[pid]);
      ProcessKeepsLocks(w, w.locks, pid, List(w, pid, listed).processes[pid]);
    }
  }

  lemma CrashKeepsLocks(w: World, pid: Pid)
    requires LocksKnown(w.locks, w.processes)
    ensures var v := Crash(w, pid); LocksKnown(v.locks, v.processes)
  {
    var v := Crash(w, pid);
    forall other | other in v.processes ensures Honest(v.locks, other, v.processes[other]) {
      assert Honest(w.locks, other, w.processes[other]);
    }
  }

  lemma StepKeepsLocks(w: World, s: Step)
    requires LocksKnown(w.locks, w.processes)
    ensures LocksKnown(Apply(w, s).locks, Apply(w, s).processes)
  {
    hide Prepare, Commit, Settle, TryRecover, WriteRecovery, EndRecovery, Crash, LocksHeld, Honest;
    match s
    case Preparing(pid, id, to, patch) => PrepareKeepsLocks(w, pid, id, to, patch);
    case Committing(pid, now, update) => CommitKeepsLocks(w, pid, now, update);
    case Settling(pid) => SettleKeepsLocks(w, pid);
    case Trying(pid) => TryRecoverKeepsLocks(w, pid);
    case Writing(pid, now, update) => WriteRecoveryKeepsLocks(w, pid, now, update);
    case Ending(pid) => EndRecoveryKeepsLocks(w, pid);
    case Crashing(pid) => CrashKeepsLocks(w, pid);
    case Start(pid, listed) => StartKeepsLocks(w, pid, listed);
    case Listing(pid, listed) => ListKeepsLocks(w, pid, listed);
    case _ =>
  }

  // ------------------------------------------------- the starter's own lock

  /** Nothing new was started, no starter lost its lock, and no process began to give one back. */
  lemma StartsDwindle(w: World, v: World)
    requires StartersGuard(w) && v.starters == w.starters
    requires forall id :: Interrupted(v.rows, id) ==> Interrupted(w.rows, id)
    requires forall id, pid :: StartedBy(v, id, pid) && pid in v.processes ==>
      pid in w.processes && (w.locks[id] == Owner(pid) ==> id in v.locks && v.locks[id] == Owner(pid))
    requires forall pid :: pid in v.processes ==>
      (pid in w.processes && v.processes[pid].phase == w.processes[pid].phase) || KeepsLock(v, pid, v.processes[pid].phase)
    ensures StartersGuard(v)
  {
    forall pid | pid in v.processes ensures KeepsLock(v, pid, v.processes[pid].phase) {
      if pid in w.processes { assert KeepsLock(w, pid, w.processes[pid].phase); }
    }
  }

  lemma PrepareKeepsGuard(w: World, pid: Pid, id: Id, to: Stage, patch: Patch)
    requires LocksKnown(w.locks, w.processes) && StartersGuard(w)
    ensures StartersGuard(Prepare(w, pid, id, to, patch))
  {
    hide LocksHeld;
    var v := Prepare(w, pid, id, to, patch);
    if pid in w.processes {
      assert Honest(w.locks, pid, w.processes[pid]);
      StartsDwindle(w, v);
    }
  }

  /** A commit of `send_started` happens under the lock of the process that becomes the starter. */
  lemma SendCommitted(w: World, pid: Pid, now: int, update: Update)
    requires StartersGuard(w) && pid in w.processes && w.processes[pid].phase.Prepared? && w.processes[pid].phase.to == SendStarted
    requires Honest(w.locks, pid, w.processes[pid])
    ensures StartersGuard(Commit(w, pid, now, update))
  {
    hide PatchAllowed;
    assert KeepsLock(w, pid, w.processes[pid].phase);
  }

  lemma CommitKeepsGuard(w: World, pid: Pid, now: int, update: Update)
    requires LocksKnown(w.locks, w.processes) && StartersGuard(w)
    ensures StartersGuard(Commit(w, pid, now, update))
  {
    hide PatchAllowed, LocksHeld;
    if pid in w.processes && w.processes[pid].phase.Prepared? {
      var p, v := w.processes[pid], Commit(w, pid, now, update);
      assert Honest(w.locks, pid, p) && KeepsLock(w, pid, p.phase);
      if p.phase.to != SendStarted { StartsDwindle(w, v); } else { SendCommitted(w, pid, now, update); }
    }
  }

  lemma SettleKeepsGuard(w: World, pid: Pid)
    requires LocksKnown(w.locks, w.processes) && StartersGuard(w)
    ensures StartersGuard(Settle(w, pid))
  {
    if pid in w.processes { assert Honest(w.locks, pid, w.processes[pid]) && KeepsLock(w, pid, w.processes[pid].phase); }
  }

  lemma TryRecoverKeepsGuard(w: World, pid: Pid)
    requires LocksKnown(w.locks, w.processes) && StartersGuard(w)
    ensures StartersGuard(TryRecover(w, pid))
  {
    hide Honest, LocksHeld, LocksKnown, KeepsLock;
    var v := TryRecover(w, pid);
    StartsDwindle(w, v);
  }

  lemma WriteRecoveryKeepsGuard(w: World, pid: Pid, now: int, update: Update)
    requires LocksKnown(w.locks, w.processes) && StartersGuard(w)
    ensures StartersGuard(WriteRecovery(w, pid, now, update))
  {
    hide Honest, LocksHeld, LocksKnown, KeepsLock;
    var v := WriteRecovery(w, pid, now, update);
    StartsDwindle(w, v);
  }

  lemma EndRecoveryKeepsGuard(w: World, pid: Pid)
    requires LocksKnown(w.locks, w.processes) && StartersGuard(w)
    ensures StartersGuard(EndRecovery(w, pid))
  {
    hide KeepsLock;
    if pid in w.processes {
      assert Honest(w.locks, pid, w.processes[pid]);
      var v := EndRecovery(w, pid);
      StartsDwindle(w, v);
    }
  }

  lemma CrashKeepsGuard(w: World, pid: Pid)
    requires LocksKnown(w.locks, w.processes) && StartersGuard(w)
    ensures StartersGuard(Crash(w, pid))
  {
    hide Honest, LocksHeld, LocksKnown, KeepsLock;
    var v := Crash(w, pid);
    StartsDwindle(w, v);
  }

  /** The steps that neither touch a lock nor go into `send_started`. */
  lemma QuietStepKeepsGuard(w: World, s: Step)
    requires StartersGuard(w) && Enabled(w, s)
    requires s.Start? || s.Register? || s.Listing? || s.Purging?
    ensures StartersGuard(Apply(w, s))
  {
    StartsDwindle(w, Apply(w, s));
  }

  lemma StepKeepsGuard(w: World, s: Step)
    requires LocksKnown(w.locks, w.processes) && StartersGuard(w) && Enabled(w, s)
    ensures StartersGuard(Apply(w, s))
  {
    hide StartProcess, BeginOperation, List, Purge, Prepare, Commit, Settle, TryRecover, WriteRecovery, EndRecovery, Crash, LocksKnown, StartersGuard, Enabled;
    match s
    case Preparing(pid, id, to, patch) => PrepareKeepsGuard(w, pid, id, to, patch);
    case Committing(pid, now, update) => CommitKeepsGuard(w, pid, now, update);
    case Settling(pid) => SettleKeepsGuard(w, pid);
    case Trying(pid) => TryRecoverKeepsGuard(w, pid);
    case Writing(pid, now, update) => WriteRecoveryKeepsGuard(w, pid, now, update);
    case Ending(pid) => EndRecoveryKeepsGuard(w, pid);
    case Crashing(pid) => CrashKeepsGuard(w, pid);
    case _ => QuietStepKeepsGuard(w, s);
  }

  // ---------------------------------------------------------------- results

  lemma {:induction false} RunKeeps(ws: seq<World>, steps: seq<Step>, i: nat)
    requires IsRun(ws, steps) && i < |ws|
    ensures Inv(ws[i])
  {
    hide Apply, Enabled, Recorded, LocksKnown, StartersGuard;
    if i == 0 {
      EmptyIsSound();
    } else {
      RunKeeps(ws, steps, i - 1);
      assert Enabled(ws[i - 1], steps[i - 1]) && ws[i - 1 + 1] == Apply(ws[i - 1], steps[i - 1]);
      StepKeepsRecord(ws[i - 1], steps[i - 1]);
      StepKeepsLocks(ws[i - 1], steps[i - 1]);
      StepKeepsGuard(ws[i - 1], steps[i - 1]);
    }
  }

  lemma EmptyIsSound()
    ensures Inv(EMPTY)
  {
  }

  lemma {:induction false} LegalLowersRank(path: seq<Stage>, i: nat, j: nat)
    requires Legal(path) && i < j < |path|
    ensures Rank(path[j]) < Rank(path[i])
  {
    TransitionLowersRank(path[j - 1], path[j]);
    if i < j - 1 { LegalLowersRank(path, i, j - 1); }
  }

  /** A retained operation went down its stages, sent at most once, and is retry-safe exactly if it never sent. */
  lemma RetainedSentAtMostOnce(ws: seq<World>, steps: seq<Step>, id: Id)
    requires IsRun(ws, steps) && id in ws[|ws| - 1].rows
    ensures
      var row, path := ws[|ws| - 1].rows[id], Path(ws[|ws| - 1].trace, id);
      && path != [] && path[0] == NotSent && path[|path| - 1] == row.stage
      && (forall i, j :: 0 <= i < j < |path| ==> Rank(path[j]) < Rank(path[i]))
      && (forall i, j :: 0 <= i < j < |path| ==> !(path[i] == SendStarted && path[j] == SendStarted))
      && (row.patch.retrySafe <==> row.sendStartedAt.None?)
      && (row.patch.retrySafe <==> SendStarted !in path)
  {
    var w := ws[|ws| - 1];
    RunKeeps(ws, steps, |ws| - 1);
    assert RecordedRow(w.rows[id], Path(w.trace, id)) && RowValid(id, w.rows[id]);
    forall i: nat, j: nat | i < j < |Path(w.trace, id)| ensures Rank(Path(w.trace, id)[j]) < Rank(Path(w.trace, id)[i]) {
      LegalLowersRank(Path(w.trace, id), i, j);
    }
  }

  /** One step leaves a row, moves it by one legal transition, or removes it when it is terminal. */
  lemma StepMovesLegally(w: World, s: Step, id: Id)
    requires Recorded(w.rows, w.trace) && Enabled(w, s) && id in w.rows
    ensures
      var v := Apply(w, s);
      && (id !in v.rows ==> s.Purging? && Terminal(w.rows[id].stage))
      && (id in v.rows && v.rows[id] != w.rows[id] ==>
            && (s.Committing? || s.Writing?)
            && PatchAllowed(w.rows[id].stage, v.rows[id].stage, v.rows[id].patch)
            && v.rows[id] == Moved(w.rows[id], v.rows[id].stage, v.rows[id].patch, s.now))
  {
    hide Path, RecordedRow, PatchAllowed;
    assert RowValid(id, w.rows[id]);
    MovesKeepRows(id, w.rows[id], Ambiguous, RecoveryPatch(w.rows[id].patch), if s.Writing? then s.now else 0);
  }

  ghost predicate Retained(ws: seq<World>, id: Id, i: nat, j: nat)
    requires j < |ws|
  {
    forall k :: i <= k <= j ==> id in ws[k].rows
  }

  lemma RetainedIsSound(ws: seq<World>, steps: seq<Step>, id: Id, i: nat)
    requires IsRun(ws, steps) && i < |ws| && id in ws[i].rows
    ensures RowValid(id, ws[i].rows[id])
  {
    RunKeeps(ws, steps, i);
  }

  /** While it is retained, an operation keeps its request and its one send time, whoever acts on it. */
  lemma {:induction false} RetainedNeverResends(ws: seq<World>, steps: seq<Step>, id: Id, i: nat, j: nat)
    requires IsRun(ws, steps) && i <= j < |ws| && Retained(ws, id, i, j)
    ensures Advanced(ws[i].rows[id], ws[j].rows[id])
    decreases j
  {
    hide Apply, Recorded, LocksKnown, StartersGuard, Enabled, PatchAllowed, TransitionAllowed;
    RetainedIsSound(ws, steps, id, i);
    if i < j {
      RetainedNeverResends(ws, steps, id, i, j - 1);
      RunKeeps(ws, steps, j - 1);
      var row, next := ws[j - 1].rows[id], ws[j].rows[id];
      assert Enabled(ws[j - 1], steps[j - 1]) && ws[j - 1 + 1] == Apply(ws[j - 1], steps[j - 1]);
      StepMovesLegally(ws[j - 1], steps[j - 1], id);
      if next != row { MoveKeepsSendTime(row, next.stage, next.patch, steps[j - 1].now); }
    }
  }

  lemma MoveKeepsSendTime(row: Row, to: Stage, p: Patch, now: int)
    requires PatchAllowed(row.stage, to, p)
    ensures Rank(to) < Rank(row.stage)
    ensures row.stage != NotSent ==> Moved(row, to, p, now).sendStartedAt == row.sendStartedAt && to != NotSent
  {
  }

  /** Where the recovery lock is held, no living process was told to send. */
  lemma RecovererMeansDead(w: World, pid: Pid, id: Id)
    requires LocksKnown(w.locks, w.processes) && StartersGuard(w)
    requires pid in w.processes && w.processes[pid].recovery.Holding? && w.processes[pid].recovery.id == id && Interrupted(w.rows, id)
    ensures id in w.starters ==> w.starters[id] !in w.processes
  {
    hide KeepsLock, LocksHeld;
    assert Honest(w.locks, pid, w.processes[pid]);
    assert id in w.starters && w.starters[id] in w.processes ==> StartedBy(w, id, w.starters[id]);
  }

  /**
  What recovery does in any reachable world: it only ever ends an operation in
  `send_started` whose starter is gone or was told of an error, by a legal transition, and after an applied update
  the operation it holds is no longer in `send_started`; an error changes nothing else.
  */
  lemma RecoverySparesTheLiving(ws: seq<World>, steps: seq<Step>, i: nat, pid: Pid, now: int, update: Update)
    requires IsRun(ws, steps) && i < |ws|
    ensures
      var w := ws[i];
      var v := WriteRecovery(w, pid, now, update);
      && v.rows.Keys == w.rows.Keys && v.locks == w.locks
      && (forall id :: id in w.rows && v.rows[id] != w.rows[id] ==>
            && w.rows[id].stage == SendStarted && (id in w.starters ==> w.starters[id] !in w.processes)
            && v.rows[id].stage == Ambiguous && PatchAllowed(SendStarted, Ambiguous, v.rows[id].patch)
            && v.rows[id] == Moved(w.rows[id], Ambiguous, v.rows[id].patch, now))
      && (pid in w.processes && w.processes[pid].recovery.Holding? ==>
            var id := w.processes[pid].recovery.id;
            id in w.rows ==> v.rows[id].stage == if w.rows[id].stage == SendStarted && !update.NotApplied? then Ambiguous else w.rows[id].stage)
      && (update.NotApplied? ==> v.rows == w.rows && v.trace == w.trace)
  {
    hide LocksKnown, StartersGuard, Path, PatchAllowed, RecordedRow;
    var w := ws[i];
    RunKeeps(ws, steps, i);
    if pid in w.processes && w.processes[pid].recovery.Holding? {
      var id := w.processes[pid].recovery.id;
      if Interrupted(w.rows, id) {
        RecovererMeansDead(w, pid, id);
        MovesKeepRows(id, w.rows[id], Ambiguous, RecoveryPatch(w.rows[id].patch), now);
      }
    }
  }

  /**
  The limit of recovery: once the transport accepted, only `Transition` moves the
  operation on. Crashes, restarts, listings, recoveries and purges leave it as it is.
  */
  lemma {:induction false} AcceptedIsNotRecovered(ws: seq<World>, steps: seq<Step>, id: Id, i: nat, j: nat)
    requires IsRun(ws, steps) && i <= j < |ws| && id in ws[i].rows
    requires ws[i].rows[id].stage in {TransportAccepted, ObservationStarted, StateObserved}
    requires forall k :: i <= k < j ==> !steps[k].Committing?
    ensures id in ws[j].rows && ws[j].rows[id] == ws[i].rows[id]
    decreases j
  {
    hide Recorded, LocksKnown, StartersGuard, Enabled, Path;
    if i < j {
      AcceptedIsNotRecovered(ws, steps, id, i, j - 1);
      RunKeeps(ws, steps, j - 1);
      assert Enabled(ws[j - 1], steps[j - 1]) && ws[j - 1 + 1] == Apply(ws[j - 1], steps[j - 1]);
      StepMovesLegally(ws[j - 1], steps[j - 1], id);
    }
  }
}
