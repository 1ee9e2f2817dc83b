/**
The stage machine of `internal/operation/operation.go` and the rows of the ledger
in `internal/store/store.go`, as functions. SQL statements are taken as atomic
operations on a map; times are whole milliseconds.
*/
module Operation {
  import opened Basics

  datatype Stage =
    | NotSent | SendStarted | TransportAccepted | ObservationStarted | StateObserved
    | Completed | Failed | Ambiguous | Cancelled

  datatype Delivery = DeliveryNotSent | PossiblySent | Accepted

  /** `Unset` stands for any string that is not one of the four statuses. */
  datatype Status = Unset | NotRequested | Pending | Observed | NotObserved

  datatype Patch = Patch(
    delivery: Delivery, status: Status, observationId: string, signals: seq<string>,
    claim: string, retrySafe: bool, errorKind: string, warnings: seq<string>)

  const NOT_PROVEN := "not_proven"

  predicate Terminal(s: Stage) { s in {Completed, Failed, Ambiguous, Cancelled} }

  /** `ValidateTransition`. */
  predicate TransitionAllowed(from: Stage, to: Stage) {
    if Terminal(from) || from == to then false
    else
      match from
      case NotSent => to in {SendStarted, Failed, Cancelled}
      case SendStarted => to in {TransportAccepted, Ambiguous}
      case TransportAccepted => to in {ObservationStarted, Completed, Failed}
      case ObservationStarted => to in {StateObserved, Completed, Failed}
      case StateObserved => to in {Completed, Failed}
      case _ => false
  }

  /** `ValidatePatch`. */
  predicate PatchAllowed(from: Stage, to: Stage, p: Patch) {
    && TransitionAllowed(from, to)
    && p.claim != "" && p.status != Unset
    && (match to
        case NotSent => true
        case SendStarted => p.delivery == PossiblySent && !p.retrySafe
        case TransportAccepted => p.delivery == Accepted && !p.retrySafe
        case ObservationStarted => p.delivery == Accepted && !p.retrySafe
        case StateObserved => p.delivery == Accepted && !p.retrySafe
        case Completed => p.delivery == Accepted && !p.retrySafe
        case Ambiguous => p.delivery == PossiblySent && !p.retrySafe
        case Cancelled => p.delivery == DeliveryNotSent && p.retrySafe
        case Failed =>
          if from == NotSent then p.delivery == DeliveryNotSent && p.retrySafe
          else p.delivery == Accepted && !p.retrySafe)
    && (to == ObservationStarted ==> p.status == Pending)
    && (to == StateObserved ==> p.status == Observed && p.observationId != "")
  }

  /** What is left to happen: every legal transition strictly lowers it. */
  function Rank(s: Stage): nat {
    match s
    case NotSent => 5
    case SendStarted => 4
    case TransportAccepted => 3
    case ObservationStarted => 2
    case StateObserved => 1
    case _ => 0
  }

  // ------------------------------------------------------------------- rows

  type Id = nat

  datatype Effect = Input | Power | Media | Admin | UnknownEffect

  /** `id == 0` is the nil identifier and `digest == 0` the all-zero digest. */
  datatype Request = Request(
    id: Id, digest: nat, device: string, generation: nat, effect: Effect, action: string, policy: string)

  predicate RequestValid(r: Request) {
    && r.id != 0 && r.device != "" && r.action != "" && r.policy != ""
    && r.generation <= 0x7FFF_FFFF_FFFF_FFFF && !r.effect.UnknownEffect? && r.digest != 0
  }

  datatype Row = Row(
    request: Request, stage: Stage, patch: Patch, createdAt: int, updatedAt: int,
    sendStartedAt: Option<int>, terminalAt: Option<int>)

  type Rows = map<Id, Row>

  function Opening(r: Request, now: int): Row {
    Row(r, NotSent, Patch(DeliveryNotSent, NotRequested, "", [], NOT_PROVEN, true, "", []), now, now, None, None)
  }

  /** `INSERT ... ON CONFLICT DO NOTHING`. */
  function Inserted(rows: Rows, r: Request, now: int): Rows {
    if r.id in rows then rows else rows[r.id := Opening(r, now)]
  }

  /** The row after one transition. */
  function Moved(row: Row, to: Stage, p: Patch, now: int): Row {
    row.(stage := to, patch := p, updatedAt := now,
    sendStartedAt := if to == SendStarted then Some(now) else row.sendStartedAt,
    terminalAt := if Terminal(to) then Some(now) else None)
  }

  predicate CanMove(rows: Rows, id: Id, to: Stage, p: Patch) {
    id in rows && PatchAllowed(rows[id].stage, to, p)
  }

  /** The patch recovery writes; signals and warnings are left as they are. */
  function RecoveryPatch(old_: Patch): Patch {
    Patch(PossiblySent, NotObserved, old_.observationId, old_.signals, NOT_PROVEN, false,
          "process_interrupted_after_send_started", old_.warnings)
  }

  function RecoveredRow(row: Row, now: int): Row {
    row.(stage := Ambiguous, patch := RecoveryPatch(row.patch), updatedAt := now, terminalAt := Some(now))
  }

  function Recovered(rows: Rows, id: Id, now: int): Rows {
    if id in rows && rows[id].stage == SendStarted then rows[id := RecoveredRow(rows[id], now)] else rows
  }

  function Purged(rows: Rows, cutoff: int): Rows {
    map id | id in rows && !(rows[id].terminalAt.Some? && rows[id].terminalAt.value < cutoff) :: rows[id]
  }

  // ------------------------------------------------- one whole transition

  datatype Error = InvalidRequest | Conflict | InvalidTransition | NotFound | StorageFailed

  datatype Result<+T> = Ok(value: T) | Err(error: Error)

  /** What `Transition` leaves: the table, the locks this store owns, all locks held in the directory. */
  datatype Ground = Ground(rows: Rows, owners: set<Id>, held: set<Id>)

  /** How a write to the database ends: `Unanswered` was applied and still reported as an error. */
  datatype Update = Applied | Unanswered | NotApplied

  /** The transition gets as far as its commit. */
  predicate Commits(g: Ground, id: Id, to: Stage, p: Patch) {
    !(to == SendStarted && id !in g.owners && id in g.held) && CanMove(g.rows, id, to, p)
  }

  function TransitionResult(g: Ground, id: Id, to: Stage, p: Patch, now: int, update: Update): Result<Row> {
    if to == SendStarted && id !in g.owners && id in g.held then Err(InvalidTransition)
    else if update.NotApplied? then Err(StorageFailed)
    else if id !in g.rows then Err(NotFound)
    else if !PatchAllowed(g.rows[id].stage, to, p) then Err(InvalidTransition)
    else if update.Unanswered? then Err(StorageFailed)
    else Ok(Moved(g.rows[id], to, p, now))
  }

  /**
  The lock is owned from the commit of `send_started` to the commit of a terminal stage. An
  unanswered commit moves the row and leaves the locks as they were.
  */
  function TransitionGround(g: Ground, id: Id, to: Stage, p: Patch, now: int, update: Update): Ground {
    var r := TransitionResult(g, id, to, p, now, update);
    if r.Err? then
      if update.Unanswered? && Commits(g, id, to, p) then g.(rows := g.rows[id := Moved(g.rows[id], to, p, now)]) else g
    else
      var locked := if to == SendStarted then {id} else {};
      var freed := if Terminal(to) && id in g.owners then {id} else {};
      Ground(g.rows[id := r.value], g.owners + locked - freed, g.held + locked - freed)
  }

  /** What every row in the ledger satisfies. */
  predicate RowValid(id: Id, row: Row) {
    && row.request.id == id
    && (row.patch.retrySafe <==> row.sendStartedAt.None?)
    && (row.patch.retrySafe <==> row.patch.delivery == DeliveryNotSent)
    && (row.stage == NotSent ==> row.sendStartedAt.None?)
    && (row.stage in {SendStarted, TransportAccepted, ObservationStarted, StateObserved, Completed, Ambiguous} ==> row.sendStartedAt.Some?)
    && (row.stage == Cancelled ==> row.sendStartedAt.None?)
    && (row.terminalAt.Some? <==> Terminal(row.stage))
  }

  ghost predicate RowsValid(rows: Rows) {
    forall id :: id in rows ==> RowValid(id, rows[id])
  }

  /** How a retained row can differ later: it went down its stages and kept its request and its one send time. */
  predicate Advanced(before: Row, after: Row) {
    && after.request == before.request
    && (after == before || Rank(after.stage) < Rank(before.stage))
    && (before.sendStartedAt.Some? ==> after.sendStartedAt == before.sendStartedAt && after.stage != NotSent)
  }

  lemma TransitionLowersRank(from: Stage, to: Stage)
    requires TransitionAllowed(from, to)
    ensures Rank(to) < Rank(from)
  {
  }

  /** Retry-safe is granted exactly by leaving `not_sent` without sending. */
  lemma RetrySafeOnlyFromNotSent(from: Stage, to: Stage, p: Patch)
    requires PatchAllowed(from, to, p)
    ensures p.retrySafe <==> from == NotSent && to != SendStarted
    ensures p.retrySafe <==> p.delivery == DeliveryNotSent
    ensures to == SendStarted ==> from == NotSent
  {
  }

  /** A legal move keeps a row valid; what recovery writes is itself a legal move. */
  lemma MovesKeepRows(id: Id, row: Row, to: Stage, p: Patch, now: int)
    requires RowValid(id, row)
    ensures PatchAllowed(row.stage, to, p) ==> RowValid(id, Moved(row, to, p, now))
    ensures row.stage == SendStarted ==>
      && PatchAllowed(SendStarted, Ambiguous, RecoveryPatch(row.patch))
      && RecoveredRow(row, now) == Moved(row, Ambiguous, RecoveryPatch(row.patch), now)
      && RowValid(id, RecoveredRow(row, now))
  {
  }

  lemma MoveAdvances(row: Row, to: Stage, p: Patch, now: int)
    requires RowValid(row.request.id, row) && PatchAllowed(row.stage, to, p)
    ensures Advanced(row, Moved(row, to, p, now)) && Moved(row, to, p, now) != row
    ensures forall earlier :: Advanced(earlier, row) ==> Advanced(earlier, Moved(row, to, p, now))
  {
    TransitionLowersRank(row.stage, to);
  }
}
