/**
Operations on a control session (`internal/automation/session.go`,
`internal/automation/service.go`): the ledger stage each outcome ends in. Policy,
confirmation, the control registry and the ledger's other users are the environment.
*/
module Automation {
  import opened Basics
  import opened HidProtocol
  import opened Actions
  import opened Plans
  import opened HidSession
  import opened InputLease
  import K = Keys
  import O = Operation

  /** How far `errors.Is` can tell a cause apart where it decides a stage. */
  datatype Cause = WasCancelled | DeadlineExceeded | RpcRefused | OtherCause

  /** The session of one generation, for one operation at a time (`operationMu`). Nothing in the program fences it. */
  class Session {
    const transport: HidTransport
    const manager: Manager
    /** `neutralized`: a release or a close succeeded once; nothing clears it again. */
    var neutralized: bool

    ghost predicate Valid()
      reads this, manager, transport, transport.record
    {
      && manager.transport == transport && manager.Valid() && transport.barrier == NoBarrier
      && !manager.fenceable && !manager.leaseHeld && manager.generation == transport.generation
    }

    constructor (transport: HidTransport, limits: Limits, observes: bool, inputCapability: bool)
      requires transport.Valid() && transport.Quiet() && transport.barrier == NoBarrier
      ensures Valid() && this.transport == transport && neutralized == !inputCapability && fresh(manager) && !manager.uncertain
      ensures manager.limits == limits
    {
      var m := new Manager(transport, transport.generation, limits, observes, false);
      this.transport, manager, neutralized := transport, m, !inputCapability;
    }

    /** `RunActions`: the batch runs behind a barrier around this operation's `send_started`. */
    method RunActions(record: Record, actions: seq<Action>, binding: Result<Option<Binding>>, now: int)
      returns (receipt: BatchReceipt, started: bool, failed: bool, ghost sent: seq<Event>)
      requires Valid() && record.Valid() && Named(actions) && (binding.Ok? ==> ScreenFits(binding.value))
      modifies manager, transport, record
      ensures Valid() && record.Valid() && O.Advanced(old(record.row), record.row)
      ensures SentAfterCommit(sent, started, record)
      ensures receipt == NO_RECEIPT <==>
        || old(transport.closed) || binding.Err? || old(manager.uncertain)
        || !Acceptable(actions, Context(manager.limits, binding.value, transport.generation, now))
      ensures receipt == NO_RECEIPT ==> failed && !started && sent == []
      ensures receipt != NO_RECEIPT ==> (receipt.neutralized && transport.Quiet()) || (receipt.cleanupFailed && manager.uncertain)
      ensures manager.uncertain <==> old(manager.uncertain) || receipt.cleanupFailed
      // No failure exactly for an accepted batch, and then every action ran.
      ensures !failed <==> receipt.status == BatchAccepted
      ensures receipt.status == BatchAccepted ==> receipt.neutralized && forall r :: r in receipt.actions ==> r.status == Accepted
      ensures CutShort(record, actions, binding, now)
      ensures transport.closed == old(transport.closed) && transport.record in {old(transport.record), record}
    {
      sent := [];
      if transport.closed { return NO_RECEIPT, false, true, sent; }
      if binding.Err? { return NO_RECEIPT, false, true, sent; }
      transport.Arm(record);
      var errs;
      receipt, errs := manager.RunActions(transport.generation, actions, binding.value, now, Never);
      sent := transport.log;
      started := transport.Disarm();
      failed := errs != [];
    }

    /** A batch that begins with a keypress, over a transport that dies after the press, leaves the keys down. */
    twostate predicate CutShort(record: Record, actions: seq<Action>, binding: Result<Option<Binding>>, now: int)
      requires Named(actions)
      reads this, manager, transport, transport.record
    {
      && old(!transport.closed && !manager.uncertain && Startable(record)) && binding.Ok?
      && (var c := Context(manager.limits, binding.value, transport.generation, now);
          Acceptable(actions, c) && Presses(CompiledOf(actions, c)[0]))
      && old(transport.FateOf(|transport.attempted|).Fine() && transport.LostFrom(|transport.attempted| + 1))
      ==>
      var first := CompiledOf(actions, Context(manager.limits, binding.value, transport.generation, now))[0];
      manager.uncertain && transport.Outcome() == Holding(old(transport.Outcome()), first.modifier, first.keys)
    }

    /** `ReleaseInput`: `Reconcile` behind the same barrier. */
    method ReleaseInput(record: Record) returns (started: bool, failed: bool, ghost sent: seq<Event>)
      requires Valid() && record.Valid()
      modifies this`neutralized, manager, transport, record
      ensures Valid() && record.Valid() && O.Advanced(old(record.row), record.row)
      ensures SentAfterCommit(sent, started, record)
      ensures !failed ==> transport.Quiet() && !manager.uncertain
      ensures neutralized == (old(neutralized) || !failed)
      ensures transport.closed == old(transport.closed) && transport.record in {old(transport.record), record}
      ensures !old(transport.closed) ==> transport.attempted == old(transport.attempted) + NeutralPlan(manager.lastPointer)
      ensures !old(transport.closed) && old(Startable(record)) ==> (!failed <==> transport.FineFor(old(|transport.attempted|), 4))
    {
      sent := [];
      if transport.closed { return false, true, sent; }
      transport.Arm(record);
      var err := manager.Reconcile(transport.generation, false);
      sent := transport.log;
      started := transport.Disarm();
      failed := err.Some?;
      if !failed { neutralized := true; }
    }

    /**
    `close`; `closes` says that the device session can be closed. An open session is neutralized before,
    unless an earlier release already set `neutralized`: then nothing is sent, whatever batches did since,
    and the host is left as it is.
    */
    method Close(closes: bool) returns (failed: bool)
      requires Valid()
      modifies this`neutralized, manager, transport, transport.record
      ensures Valid()
      ensures old(transport.closed) || old(neutralized) ==>
        && transport.attempted == old(transport.attempted) && manager.uncertain == old(manager.uncertain)
        && transport.queue == old(transport.queue) && transport.host == old(transport.host)
      ensures old(transport.closed) ==> !failed
      ensures !old(transport.closed) && old(neutralized) ==> failed == !closes
      ensures !failed ==> transport.closed && (old(transport.closed) || neutralized)
      // A close that succeeds leaves the host released exactly if it had anything to do with it, or the host was.
      ensures !failed && !old(transport.closed) ==> (transport.Quiet() <==> !old(neutralized) || old(transport.Quiet()))
    {
      if transport.closed { return false; }
      if !neutralized {
        var err := manager.Reconcile(transport.generation, false);
        if err.Some? { return true; }
        neutralized := true;
      }
      if !closes { return true; }
      transport.Shut();
      return false;
    }
  }

  /** The operation can still enter `send_started`, and nothing comes between. */
  ghost predicate Startable(record: Record)
    reads record
  {
    record.calm && record.row.stage == O.NotSent
  }

  /** Nothing is transmitted without a commit before it, and a commit is in the ledger for good. */
  ghost predicate SentAfterCommit(sent: seq<Event>, started: bool, record: Record)
    reads record
  {
    && (sent != [] ==> started && sent[0] == StartCommitted)
    && (started ==> record.row.sendStartedAt.Some?)
  }

  // ----------------------------------------------------------------- service

  const ACCEPTED_PATCH := O.Patch(O.Accepted, O.NotRequested, "", [], O.NOT_PROVEN, false, "", [])

  /** `errorKind`, as far as a cause is known here. */
  function ErrorKind(c: Cause): string {
    match c
    case WasCancelled => "cancelled"
    case DeadlineExceeded => "deadline_exceeded"
    case _ => "device_operation_failed"
  }

  function NotSentPatch(c: Cause): O.Patch { O.Patch(O.DeliveryNotSent, O.NotRequested, "", [], O.NOT_PROVEN, true, ErrorKind(c), []) }

  function FailedPatch(c: Cause): O.Patch { O.Patch(O.Accepted, O.NotRequested, "", [], O.NOT_PROVEN, false, ErrorKind(c), []) }

  function AmbiguousPatch(c: Cause): O.Patch { O.Patch(O.PossiblySent, O.NotRequested, "", [], O.NOT_PROVEN, false, ErrorKind(c), []) }

  /** What a caller may conclude from the receipt it got, if any. */
  ghost predicate Honest(receipt: Option<O.Row>, sent: seq<Event>, record: Record)
    reads record
  {
    && (sent != [] ==> sent[0] == StartCommitted && record.row.sendStartedAt.Some?)
    && (receipt.Some? ==> O.RowValid(receipt.value.request.id, receipt.value) && O.Advanced(receipt.value, record.row))
    && (receipt.Some? && receipt.value.patch.retrySafe ==> sent == [])
    && (record.row.patch.retrySafe ==> sent == [])
  }

  /** `finishNotSent`. */
  method FinishNotSent(record: Record, cause: Cause, now: int) returns (receipt: Option<O.Row>)
    requires record.Valid()
    modifies record
    ensures record.Valid() && O.Advanced(old(record.row), record.row)
    ensures receipt.Some? ==>
      && receipt.value == record.row && receipt.value.patch == NotSentPatch(cause)
      && receipt.value.stage == if cause.WasCancelled? || cause.DeadlineExceeded? then O.Cancelled else O.Failed
  {
    var stage := if cause.WasCancelled? || cause.DeadlineExceeded? then O.Cancelled else O.Failed;
    var r := record.Transition(stage, NotSentPatch(cause), now);
    receipt := if r.Ok? then Some(r.value) else None;
  }

  /** Two transitions, of which the second is tried only after the first succeeded. */
  method AcceptThen(record: Record, to: O.Stage, patch: O.Patch, now: int) returns (receipt: Option<O.Row>)
    requires record.Valid() && to in {O.Completed, O.Failed}
    modifies record
    ensures record.Valid() && O.Advanced(old(record.row), record.row)
    ensures receipt.Some? ==> receipt.value == record.row && receipt.value.stage == to && receipt.value.patch == patch
  {
    var accepted := record.Transition(O.TransportAccepted, ACCEPTED_PATCH, now);
    if accepted.Err? { return None; }
    var r := record.Transition(to, patch, now);
    receipt := if r.Ok? then Some(r.value) else None;
  }

  /** `finishActionFailure`. */
  method FinishActionFailure(record: Record, started: bool, batch: BatchReceipt, cause: Cause, now: int) returns (receipt: Option<O.Row>)
    requires record.Valid()
    modifies record
    ensures record.Valid() && O.Advanced(old(record.row), record.row)
    ensures receipt.Some? ==>
      && receipt.value == record.row
      && receipt.value.patch == (
           if !started then NotSentPatch(cause)
           else if batch.status == BatchPartial && batch.neutralized then FailedPatch(cause) else AmbiguousPatch(cause))
      && receipt.value.stage == (
           if !started then if cause.WasCancelled? || cause.DeadlineExceeded? then O.Cancelled else O.Failed
           else if batch.status == BatchPartial && batch.neutralized then O.Failed else O.Ambiguous)
  {
    if !started {
      receipt := FinishNotSent(record, cause, now);
    } else if batch.status == BatchPartial && batch.neutralized {
      receipt := AcceptThen(record, O.Failed, FailedPatch(cause), now);
    } else {
      var r := record.Transition(O.Ambiguous, AmbiguousPatch(cause), now);
      receipt := if r.Ok? then Some(r.value) else None;
    }
  }

  /** `finishPowerFailure`: an answer from the device proves that the request arrived. */
  method FinishPowerFailure(record: Record, started: bool, cause: Cause, now: int) returns (receipt: Option<O.Row>)
    requires record.Valid()
    modifies record
    ensures record.Valid() && O.Advanced(old(record.row), record.row)
    ensures receipt.Some? ==>
      && receipt.value == record.row
      && receipt.value.patch == (if !started then NotSentPatch(cause) else if cause.RpcRefused? then FailedPatch(cause) else AmbiguousPatch(cause))
      && (started ==> receipt.value.stage == if cause.RpcRefused? then O.Failed else O.Ambiguous)
  {
    if !started {
      receipt := FinishNotSent(record, cause, now);
    } else if cause.RpcRefused? {
      receipt := AcceptThen(record, O.Failed, FailedPatch(cause), now);
    } else {
      var r := record.Transition(O.Ambiguous, AmbiguousPatch(cause), now);
      receipt := if r.Ok? then Some(r.value) else None;
    }
  }

  /** A step before the callback that can refuse: `Get`, the lease checks, policy, confirmation. */
  datatype Passage = Through | Blocked(cause: Cause)

  /** The end of `Service.RunActions`; an operation another caller went on with is answered from the ledger. */
  method FinishBatch(record: Record, existing: bool, started: bool, refused: bool, batch: BatchReceipt, cause: Cause, now: int)
    returns (receipt: Option<O.Row>)
    requires record.Valid() && (started ==> record.row.sendStartedAt.Some?)
    modifies record
    ensures record.Valid() && O.Advanced(old(record.row), record.row)
    ensures receipt.Some? ==> receipt.value == record.row && (receipt.value.patch.retrySafe ==> O.Terminal(receipt.value.stage))
    ensures receipt.Some? && receipt.value.stage == O.Completed && !existing ==> started && !refused
  {
    if refused {
      if existing && !started {
        record.Others();
        var readable: bool := *;
        if readable && record.row.stage != O.NotSent { return Some(record.row); }
      }
      receipt := FinishActionFailure(record, started, batch, cause, now);
    } else if !started {
      receipt := FinishNotSent(record, OtherCause, now);
    } else {
      receipt := AcceptThen(record, O.Completed, ACCEPTED_PATCH, now);
    }
  }

  /** `Service.RunActions` after `Begin` answered with the record, `existing` or new. */
  method RunActions(
    session: Session, record: Record, existing: bool, actions: seq<Action>, binding: Result<Option<Binding>>, now: int,
    snapshot: Passage, entry: Passage, late: Passage, cause: Cause)
    returns (receipt: Option<O.Row>, batch: BatchReceipt, ghost sent: seq<Event>)
    requires session.Valid() && record.Valid() && Named(actions) && (binding.Ok? ==> ScreenFits(binding.value))
    modifies session.manager, session.transport, record
    ensures session.Valid() && record.Valid() && O.Advanced(old(record.row), record.row)
    ensures Honest(receipt, sent, record)
    // An operation that already went on is answered from the ledger, and nothing is done.
    ensures existing && old(record.row).stage != O.NotSent ==> receipt == Some(old(record.row)) && sent == [] && batch == NO_RECEIPT
    // A receipt of this call that says completed: every action ran and the host was released.
    ensures receipt.Some? && receipt.value.stage == O.Completed && old(record.row).stage == O.NotSent && !existing ==>
      batch.status == BatchAccepted && batch.neutralized && forall r :: r in batch.actions ==> r.status == Accepted
    ensures receipt.Some? && receipt.value.patch.retrySafe ==> O.Terminal(receipt.value.stage)
  {
    hide O.PatchAllowed, Session.CutShort, Acceptable, CompiledOf, AfterAll, After, Read;
    batch, sent := NO_RECEIPT, [];
    if existing && record.row.stage != O.NotSent { return Some(record.row), batch, sent; }
    if snapshot.Blocked? {
      receipt := FinishNotSent(record, snapshot.cause, now);
      return;
    }
    var started, failed := false, true;
    if entry.Through? {
      batch, started, failed, sent := session.RunActions(record, actions, binding, now);
    }
    var refused := failed || late.Blocked?;
    if refused && started && batch.status == BatchAccepted && batch.neutralized { refused := false; }
    receipt := FinishBatch(record, existing, started, refused, batch, cause, now);
  }

  /** `Service.ReleaseInput` after `Begin`. */
  method ReleaseInput(session: Session, record: Record, existing: bool, now: int, snapshot: Passage, entry: Passage, late: Passage, cause: Cause)
    returns (receipt: Option<O.Row>, ghost sent: seq<Event>)
    requires session.Valid() && record.Valid()
    modifies session`neutralized, session.manager, session.transport, record
    ensures session.Valid() && record.Valid() && O.Advanced(old(record.row), record.row)
    ensures Honest(receipt, sent, record)
    ensures existing && old(record.row).stage != O.NotSent ==> receipt == Some(old(record.row)) && sent == []
    ensures receipt.Some? && receipt.value.stage == O.Completed && !existing && old(record.row).stage == O.NotSent ==>
      session.transport.Quiet() && !session.manager.uncertain
    ensures receipt.Some? && receipt.value.patch.retrySafe ==> O.Terminal(receipt.value.stage)
  {
    sent := [];
    if existing && record.row.stage != O.NotSent { return Some(record.row), sent; }
    if snapshot.Blocked? {
      receipt := FinishNotSent(record, snapshot.cause, now);
      return;
    }
    var started, failed := false, true;
    if entry.Through? {
      started, failed, sent := session.ReleaseInput(record);
    }
    if failed || late.Blocked? {
      if started {
        var r := record.Transition(O.Ambiguous, AmbiguousPatch(cause), now);
        receipt := if r.Ok? then Some(r.value) else None;
      } else {
        receipt := FinishNotSent(record, cause, now);
      }
      return;
    }
    if !started {
      receipt := FinishNotSent(record, OtherCause, now);
      return;
    }
    receipt := AcceptThen(record, O.Completed, ACCEPTED_PATCH, now);
  }

  /** The device's answer to the power request. */
  datatype Answer = Done | RefusedByDevice | NoAnswer(cause: Cause)

  function StageFor(answer: Answer): O.Stage {
    if answer.Done? then O.Completed else if answer.RefusedByDevice? then O.Failed else O.Ambiguous
  }

  /** `Service.PowerAction` after `Begin`; `requested` says that the power request was made. */
  method PowerAction(record: Record, existing: bool, now: int, snapshot: Passage, probe: Passage, entry: Passage, answer: Answer)
    returns (receipt: Option<O.Row>, requested: bool)
    requires record.Valid()
    modifies record
    ensures record.Valid() && O.Advanced(old(record.row), record.row)
    ensures requested ==> record.row.sendStartedAt.Some? && !record.row.patch.retrySafe
    ensures receipt.Some? && receipt.value.patch.retrySafe ==> !requested
    ensures receipt.Some? && requested ==> receipt.value.stage == StageFor(answer)
  {
    requested := false;
    if existing && record.row.stage != O.NotSent { return Some(record.row), false; }
    if snapshot.Blocked? {
      receipt := FinishNotSent(record, snapshot.cause, now);
      return;
    }
    if probe.Blocked? {
      receipt := FinishNotSent(record, probe.cause, now);
      return;
    }
    var cause := OtherCause;
    if entry.Through? {
      var marked := record.Transition(O.SendStarted, SEND_STARTED, now);
      requested := marked.Ok?;
      if requested {
        if answer.Done? {
          receipt := AcceptThen(record, O.Completed, ACCEPTED_PATCH, now);
          return;
        }
        cause := if answer.RefusedByDevice? then RpcRefused else if answer.cause.RpcRefused? then OtherCause else answer.cause;
      }
    } else {
      cause := entry.cause;
    }
    if existing && !requested {
      record.Others();
      var readable: bool := *;
      if readable && record.row.stage != O.NotSent { return Some(record.row), requested; }
    }
    receipt := FinishPowerFailure(record, requested, cause, now);
  }

  // ------------------------------------------------------- a close that leaves keys down

  function KeypressOf(usage: Byte): Action {
    Action(Keypress, Point(0, 0), Unspecified, [], 0, 0, [K.Key(usage)], [], true, 0)
  }

  lemma KeypressCompiles(usage: Byte, generation: nat, now: int)
    requires usage != 0
    ensures
      var actions, c := [KeypressOf(usage)], Context(DEFAULTS, None, generation, now);
      && Named(actions) && Acceptable(actions, c) && Presses(CompiledOf(actions, c)[0])
      && CompiledOf(actions, c)[0].modifier == 0 && CompiledOf(actions, c)[0].keys == [usage]
  {
    var a, c := KeypressOf(usage), Context(DEFAULTS, None, generation, now);
    var names := [K.Key(usage)];
    assert names[..0] == [] && K.KeysOf(names[..0]) == [];
    assert K.KeysOf(names) == [] + [usage] == [usage];
    assert K.Distinct(names) && K.Chord(names);
    assert forall n :: n in names ==> n == K.Key(usage);
    assert K.BitsOf(names) == {};
    assert OutcomeIn(a, c).Ok? && OutcomeIn(a, c).value.1 == 40_000_000;
    assert [a][..0] == [] && TotalCost([], c) == 0;
    assert TotalWait([a]) == 0 && TotalCost([a], c) == 40_000_000;
  }

  /**
  A reachable run: input is released successfully, a keypress loses its channel after the press,
  and the session then closes without an error while the key is down.
  */
  method CloseLeavesKeysHeld(usage: Byte, now: int, release: Record, press: Record) returns (session: Session)
    requires usage != 0 && release != press
    requires release.Valid() && press.Valid() && Startable(release) && Startable(press)
    modifies release, press
    ensures fresh(session) && session.transport.closed && session.manager.uncertain
    ensures session.transport.Outcome() == Host(0, {usage}, 0, 0) && !session.transport.Quiet()
  {
    var transport := new HidTransport(1, (i: nat) => Fate(0, false, true, true), Some(5), release);
    session := new Session(transport, DEFAULTS, false, true);
    var started, failed, receipt;
    ghost var sent;
    started, failed, sent := session.ReleaseInput(release);
    assert !failed;
    KeypressCompiles(usage, 1, now);
    receipt, started, failed, sent := session.RunActions(press, [KeypressOf(usage)], Ok(None), now);
    assert session.transport.Outcome() == Holding(IDLE, 0, [usage]) && Pressed([usage]) == {usage};
    failed := session.Close(true);
    assert !failed;
  }
}
