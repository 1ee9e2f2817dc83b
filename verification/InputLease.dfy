/**
The exclusive input lease and the batch executor (`internal/input/lease.go`,
`internal/input/executor.go`). Cancellation, the ticker and the clock are the environment's
choices, made anew at every step; so is a concurrent `Fence`, where there is one.
*/
module InputLease {
  import opened Basics
  import opened HidProtocol
  import opened Actions
  import opened Plans
  import opened HidSession
  import K = Keys
  import O = Operation

  datatype LeaseError =
    | LeaseBusy | GenerationStale | LeaseReleased | InputUncertain | NotNeutralized
    | SendFailed | Interrupted | KeepaliveMissed | ObservationMissing | ObservationExpired | CaptureFailed
    | Malformed | Rejected(error: ActionError)

  datatype ActionStatus = NotStarted | Accepted | Failed | Ambiguous

  datatype BatchStatus = NoBatch | BatchAccepted | BatchPartial | BatchFailed | BatchAmbiguous

  datatype ActionReceipt = ActionReceipt(index: nat, kind: ActionType, status: ActionStatus, error: Option<LeaseError>)

  /** `NO_RECEIPT` is the empty receipt returned when no batch ran. */
  datatype BatchReceipt = BatchReceipt(
    generation: nat, status: BatchStatus, actions: seq<ActionReceipt>, observation: Option<nat>, neutralized: bool, cleanupFailed: bool)

  const NO_RECEIPT := BatchReceipt(0, NoBatch, [], None, false, false)

  /** The first `n` actions were accepted; then at most one failed, and nothing later was started. */
  ghost predicate ReceiptsShape(rs: seq<ActionReceipt>, n: nat) {
    && n <= |rs|
    && (forall i :: 0 <= i < |rs| ==> rs[i].index == i)
    && (forall i :: 0 <= i < n ==> rs[i].status == Accepted && rs[i].error.None?)
    && (n < |rs| ==> rs[n].status != Accepted)
    && (forall i :: n < i < |rs| ==> rs[i].status == NotStarted && rs[i].error.None?)
  }

  /** The batch status as the actions' outcome explains it. */
  function StatusOf(rs: seq<ActionReceipt>, n: nat, cleanupFailed: bool): BatchStatus
    requires n <= |rs|
  {
    if cleanupFailed then BatchAmbiguous
    else if n == |rs| || rs[n].status == NotStarted then BatchAccepted
    else if rs[n].status == Ambiguous then BatchAmbiguous
    else if n == 0 then BatchFailed
    else BatchPartial
  }

  /**
  When a `Fence` hits a batch before its first action: before the validity check of `RunActions`,
  or after it and before the batch is registered.
  */
  datatype FenceTime = Never | BeforeCheck | AfterCheck

  /** A keepalive tick later than this after the one before fails the hold. */
  const MAX_GAP := 100_000_000

  /** What a host holds after the press of a chord. */
  function Holding(h: Host, modifier: Byte, keys: seq<Byte>): Host {
    h.(modifier := modifier, keys := Pressed(keys))
  }

  /** An action that begins by pressing a chord, whenever it runs. */
  predicate Presses(c: Compiled) { c.kind.Keypress? && c.expires.None? }

  lemma PressHolds(h: Host, modifier: Byte, keys: seq<Byte>)
    requires |keys| <= SLOTS
    ensures After(h, KeyboardReport(modifier, keys).value) == Holding(h, modifier, keys)
  {
    KeyboardRoundTrip(modifier, keys);
  }

  /** What neutralization asks of the transport. */
  function NeutralPlan(p: Point): seq<Op>
    requires InRange(p)
  {
    [Hid(RELEASED), Hid(PointerFrame(p, 0)), Hid(RelativeMouseReport(0, 0, 0).value), Flush]
  }

  function Unstarted(cs: seq<Compiled>): (rs: seq<ActionReceipt>)
    ensures |rs| == |cs| && forall i :: 0 <= i < |cs| ==> rs[i] == ActionReceipt(i, cs[i].kind, NotStarted, None)
  {
    seq(|cs|, i requires 0 <= i < |cs| => ActionReceipt(i, cs[i].kind, NotStarted, None))
  }

  ghost predicate ReceiptsSoFar(rs: seq<ActionReceipt>, n: nat) {
    && n <= |rs|
    && (forall i :: 0 <= i < |rs| ==> rs[i].index == i && rs[i].error.None?)
    && (forall i :: 0 <= i < n ==> rs[i].status == Accepted)
    && (forall i :: n <= i < |rs| ==> rs[i].status == NotStarted)
  }

  lemma NothingStarted(cs: seq<Compiled>)
    ensures ReceiptsSoFar(Unstarted(cs), 0)
  {
  }

  /** One more action was accepted, or the last one tried was not. */
  lemma ReceiptsAdvance(rs: seq<ActionReceipt>, i: nat, status: ActionStatus, err: Option<LeaseError>)
    requires ReceiptsSoFar(rs, i) && i < |rs|
    ensures status == Accepted ==> ReceiptsSoFar(rs[i := rs[i].(status := status)], i + 1)
    ensures status != Accepted ==> ReceiptsShape(rs[i := rs[i].(status := status)][i := rs[i].(status := status, error := err)], i)
  {
  }

  lemma ReceiptsComplete(rs: seq<ActionReceipt>)
    requires ReceiptsSoFar(rs, |rs|)
    ensures ReceiptsShape(rs, |rs|)
  {
  }

  ghost function CompiledOf(actions: seq<Action>, c: Context): (cs: seq<Compiled>)
    requires Named(actions) && AllCompile(actions, c)
    ensures |cs| == |actions| && forall i :: 0 <= i < |cs| ==> cs[i] == OutcomeIn(actions[i], c).value.0
  {
    seq(|actions|, i requires 0 <= i < |actions| => (assert OutcomeIn(actions[i], c).Ok?; OutcomeIn(actions[i], c).value.0))
  }

  /** `n` actions ran to their end, and `partial` is what the next one got to; `ticks` counts keepalives. */
  ghost predicate Ran(cs: seq<Compiled>, l: Limits, n: nat, ticks: seq<nat>, partial: seq<Op>) {
    && n <= |cs| == |ticks|
    && (forall i :: 0 <= i < |cs| ==> WellFormed(cs[i]))
    && (if n == |cs| then partial == [] else partial <= Plan(cs[n], l, ticks[n]))
  }

  lemma AllWellFormed(actions: seq<Action>, c: Context)
    requires Named(actions) && AllCompile(actions, c) && ScreenFits(c.binding)
    ensures forall i :: 0 <= i < |actions| ==> WellFormed(CompiledOf(actions, c)[i])
  {
    hide WellFormed, ActionOutcome;
    forall i | 0 <= i < |actions| ensures WellFormed(CompiledOf(actions, c)[i]) {
      assert OutcomeIn(actions[i], c).Ok?;
      CompiledIsWellFormed(actions[i], c);
    }
  }

  lemma PlanAllEmpty(cs: seq<Compiled>, l: Limits, ticks: seq<nat>)
    requires |ticks| == |cs|
    ensures PlanAll(cs[..0], l, ticks[..0]) == []
  {
  }

  lemma PlanAllGrows(cs: seq<Compiled>, i: nat, l: Limits, ticks: seq<nat>)
    requires i < |cs| == |ticks| && forall j :: 0 <= j < |cs| ==> WellFormed(cs[j])
    ensures PlanAll(cs[..i + 1], l, ticks[..i + 1]) == PlanAll(cs[..i], l, ticks[..i]) + Plan(cs[i], l, ticks[i])
  {
    hide Plan, WellFormed;
    assert cs[..i + 1][..i] == cs[..i] && ticks[..i + 1][..i] == ticks[..i];
  }

  class Manager {
    const transport: HidTransport
    const limits: Limits
    const observes: bool
    /** Somebody may call `Fence` while other calls run; in the service nobody does. */
    const fenceable: bool
    var generation: nat
    /** The nonce of the lease in use, 0 when cleared; `issued` counts the nonces drawn. */
    var active: nat
    var issued: nat
    var leaseHeld: bool
    var uncertain: bool
    var lastPointer: Point

    ghost predicate Running()
      reads this, transport, transport.record
    {
      transport.Valid() && InRange(lastPointer) && active <= issued
    }

    /** Between calls: a manager that is not uncertain has a host on which nothing is pressed. */
    ghost predicate Valid()
      reads this, transport, transport.record
    {
      Running() && (!uncertain ==> transport.Quiet())
    }

    constructor (transport: HidTransport, generation: nat, limits: Limits, observes: bool, fenceable: bool)
      requires transport.Valid() && transport.Quiet()
      ensures Valid() && this.transport == transport && this.generation == generation && this.limits == limits
      ensures this.fenceable == fenceable && !leaseHeld && !uncertain
    {
      this.transport, this.generation, this.limits, this.observes, this.fenceable := transport, generation, limits, observes, fenceable;
      active, issued, leaseHeld, uncertain, lastPointer := 0, 0, false, false, Point(0, 0);
    }

    /** What no part of a batch undoes, its release included. */
    twostate predicate Moved()
      reads this, transport, transport.record
    {
      && Running() && (old(uncertain) ==> uncertain)
      && transport.record == old(transport.record) && transport.closed == old(transport.closed)
      && O.Advanced(old(transport.record.row), transport.record.row)
      && transport.Forward(old(transport.barrier))
      && old(|transport.attempted|) <= |transport.attempted|
      && (transport.LostFrom(old(|transport.attempted|)) ==> transport.Outcome() == old(transport.Outcome()))
    }

    /** A step of a batch before its release: only a `Fence` makes the manager uncertain. */
    twostate predicate Stepped()
      reads this, transport, transport.record
    {
      Moved() && (uncertain == old(uncertain) || fenceable)
    }

    /** Doing nothing is a step. */
    twostate lemma StaysPut()
      requires Running() && transport.record == old(transport.record) && transport.record.row == old(transport.record.row)
      requires uncertain == old(uncertain) && transport.barrier == old(transport.barrier)
      requires transport.closed == old(transport.closed) && transport.attempted == old(transport.attempted) && transport.Outcome() == old(transport.Outcome())
      ensures Stepped()
    {
    }

    /** `Fence`, at any moment of a running batch. */
    method Fenced()
      modifies `uncertain
      ensures old(uncertain) ==> uncertain
      ensures uncertain == old(uncertain) || fenceable
    {
      var fenced: bool := *;
      if fenced && fenceable { uncertain := true; }
    }

    method Fence(expected: nat) returns (err: Option<LeaseError>)
      requires Valid()
      modifies `uncertain
      ensures Valid()
      ensures err == if expected != generation then Some(GenerationStale) else None
      ensures uncertain == (old(uncertain) || err.None?)
    {
      if expected != generation { return Some(GenerationStale); }
      uncertain := true;
      return None;
    }

    method Acquire(expected: nat) returns (err: Option<LeaseError>, lease: Lease?)
      requires Valid()
      modifies `active, `issued, `leaseHeld
      ensures Valid() && (err.None? <==> lease != null)
      ensures err == if uncertain then Some(InputUncertain)
                     else if expected != generation then Some(GenerationStale)
                     else if old(leaseHeld) then Some(LeaseBusy) else None
      ensures lease == null ==> active == old(active) && leaseHeld == old(leaseHeld)
      ensures lease != null ==> fresh(lease) && lease.manager == this && !lease.released && lease.Active() && active > old(issued)
    {
      lease := null;
      if uncertain { return Some(InputUncertain), null; }
      if expected != generation { return Some(GenerationStale), null; }
      if leaseHeld { return Some(LeaseBusy), null; }
      issued := issued + 1;
      active := issued;
      leaseHeld := true;
      lease := new Lease(this, generation, active);
      err := None;
    }

    /** `neutralize`: all three frames are tried, then the flush; success means nothing is pressed. */
    method Neutralize(at: nat) returns (ok: bool)
      requires Running()
      modifies transport, transport.record
      ensures Stepped()
      ensures transport.attempted == old(transport.attempted) + NeutralPlan(lastPointer)
      ensures ok ==> transport.Quiet()
      ensures old(transport.Passable(at)) ==> transport.Passable(at) && (ok <==> transport.FineFor(old(|transport.attempted|), 4))
      ensures transport.LostFrom(old(|transport.attempted|)) ==> !ok
    {
      hide O.RowValid, O.PatchAllowed, AfterAll, After, Read, KeyboardReport, PointerReport, RelativeMouseReport;
      var keyboard, absolute, relative := KeyboardReport(0, []), PointerReport(lastPointer.x, lastPointer.y, 0), RelativeMouseReport(0, 0, 0);
      NeutralFramesRelease(transport.Outcome(), lastPointer.x, lastPointer.y);
      var first := transport.SendHid(at, keyboard.value);
      var second := transport.SendHid(at, absolute.value);
      var third := transport.SendHid(at, relative.value);
      var drained := transport.FlushChannel(at);
      ok := first && second && third && drained;
    }

    /**
    `Reconcile`: the way back from uncertainty. A `Fence` that comes while it neutralizes is
    forgotten if the neutralization succeeds.
    */
    method Reconcile(expected: nat, fencedMeanwhile: bool) returns (err: Option<LeaseError>)
      requires Valid() && (fencedMeanwhile ==> fenceable)
      modifies `uncertain, transport, transport.record
      ensures Valid() && transport.record == old(transport.record) && transport.Forward(old(transport.barrier))
      ensures transport.closed == old(transport.closed)
      ensures O.Advanced(old(transport.record.row), transport.record.row)
      ensures err.None? ==> transport.Quiet()
      ensures expected != generation ==> err == Some(GenerationStale) && uncertain == old(uncertain)
      ensures expected == generation && leaseHeld ==> err == Some(LeaseBusy) && uncertain == old(uncertain)
      ensures expected != generation || leaseHeld ==> transport.attempted == old(transport.attempted)
      ensures expected == generation && !leaseHeld ==>
        && err in {None, Some(NotNeutralized)} && (uncertain <==> err.Some?)
        && transport.attempted == old(transport.attempted) + NeutralPlan(lastPointer)
        && (old(transport.Passable(expected)) ==> transport.Passable(expected) && (err.None? <==> transport.FineFor(old(|transport.attempted|), 4)))
    {
      if expected != generation { return Some(GenerationStale); }
      if leaseHeld { return Some(LeaseBusy); }
      var ok := Neutralize(expected);
      if fencedMeanwhile { uncertain := true; }
      if !ok {
        uncertain := true;
        return Some(NotNeutralized);
      }
      uncertain := false;
      return None;
    }

    /** `Acquire` gives a lease. */
    ghost predicate Acquirable(expected: nat)
      reads this
    {
      !uncertain && expected == generation && !leaseHeld
    }

    /** `Manager.RunActions`: a lease of its own for one batch. */
    method RunActions(expected: nat, actions: seq<Action>, binding: Option<Binding>, now: int, fence: FenceTime)
      returns (receipt: BatchReceipt, errs: seq<LeaseError>)
      requires Valid() && Named(actions) && ScreenFits(binding) && (fence != Never ==> fenceable)
      modifies this, transport, transport.record
      ensures Valid() && Moved() && generation == old(generation)
      // Exactly when nothing runs at all.
      ensures receipt == NO_RECEIPT <==>
        !old(Acquirable(expected)) || fence == BeforeCheck || !Acceptable(actions, Context(limits, binding, expected, now))
      ensures old(uncertain) ==> errs == [InputUncertain]
      // A lease is left behind exactly by a `Fence` before the first check; no later call can use or clear it.
      ensures !old(leaseHeld) ==> (leaseHeld <==> old(Acquirable(expected)) && fence == BeforeCheck)
      ensures leaseHeld && !old(leaseHeld) ==> uncertain && errs == [InputUncertain]
      ensures receipt == NO_RECEIPT ==> errs != [] && transport.attempted == old(transport.attempted)
      ensures receipt == NO_RECEIPT ==> transport.log == old(transport.log) && transport.barrier == old(transport.barrier)
      ensures receipt != NO_RECEIPT ==> (receipt.neutralized && transport.Quiet()) || (receipt.cleanupFailed && uncertain)
      ensures receipt != NO_RECEIPT ==> |receipt.actions| == |actions| > 0 && !receipt.neutralized == receipt.cleanupFailed
      // Without a `Fence` only a failed release makes the manager uncertain.
      ensures !fenceable ==> (uncertain <==> old(uncertain) || receipt.cleanupFailed)
      ensures errs == [] ==> receipt.status == BatchAccepted && receipt.neutralized && forall r :: r in receipt.actions ==> r.status == Accepted
      // An accepted batch ran, or was fenced before its first action: exactly then there is an error too.
      ensures receipt.status == BatchAccepted ==> receipt.neutralized && (errs == [] <==> fence == Never)
      ensures receipt != NO_RECEIPT && fence == AfterCheck ==>
        && uncertain && errs != [] && errs[0] == InputUncertain && (receipt.neutralized ==> receipt.status == BatchAccepted)
        && forall r :: r in receipt.actions ==> r.status == NotStarted
      ensures CutShort(expected, actions, binding, now, fence)
    {
      hide O.RowValid, O.PatchAllowed, AfterAll, After, Read, Acceptable, CompiledOf, Holding, Presses;
      StaysPut();
      var err, lease := Acquire(expected);
      if err.Some? { return NO_RECEIPT, [err.value]; }
      ghost var n, ticks, partial;
      receipt, errs, n, ticks, partial := lease.RunActions(actions, binding, now, fence);
    }

    /** A batch that begins with a keypress and whose transport dies after the press leaves the keys down. */
    twostate predicate CutShort(expected: nat, actions: seq<Action>, binding: Option<Binding>, now: int, fence: FenceTime)
      requires Named(actions)
      reads this, transport, transport.record
    {
      var c := Context(limits, binding, expected, now);
      && old(Acquirable(expected)) && fence == Never && !fenceable
      && Acceptable(actions, c) && Presses(CompiledOf(actions, c)[0]) && old(transport.LastOne(expected))
      ==>
      var first := CompiledOf(actions, c)[0];
      uncertain && transport.Outcome() == Holding(old(transport.Outcome()), first.modifier, first.keys)
    }

    /** `AdvanceGeneration` neutralizes before it publishes a newer generation, and forgets a `Fence` as `Reconcile` does. */
    method AdvanceGeneration(next: nat, fencedMeanwhile: bool) returns (err: Option<LeaseError>)
      requires Valid() && (fencedMeanwhile ==> fenceable)
      modifies `uncertain, `generation, transport, transport.record
      ensures Valid() && transport.record == old(transport.record)
      ensures err.None? ==> !leaseHeld && next > old(generation) && generation == next && !uncertain && transport.Quiet()
      ensures err.Some? ==> generation == old(generation)
      ensures leaseHeld ==> err == Some(LeaseBusy) && uncertain == old(uncertain)
      ensures !leaseHeld && next <= old(generation) ==> err == Some(GenerationStale) && uncertain == old(uncertain)
      ensures leaseHeld || next <= old(generation) ==> transport.attempted == old(transport.attempted)
      ensures !leaseHeld && next > old(generation) ==>
        && err in {None, Some(NotNeutralized)} && (uncertain <==> err.Some?)
        && transport.attempted == old(transport.attempted) + NeutralPlan(lastPointer)
    {
      if leaseHeld { return Some(LeaseBusy); }
      if next <= generation { return Some(GenerationStale); }
      var ok := Neutralize(generation);
      if fencedMeanwhile { uncertain := true; }
      if !ok {
        uncertain := true;
        return Some(NotNeutralized);
      }
      generation := next;
      uncertain := false;
      return None;
    }
  }

  class Lease {
    const manager: Manager
    const generation: nat
    const nonce: nat
    var released: bool

    constructor (manager: Manager, generation: nat, nonce: nat)
      ensures this.manager == manager && this.generation == generation && this.nonce == nonce && !released
    {
      this.manager, this.generation, this.nonce, this.released := manager, generation, nonce, false;
    }

    /** The manager's current lease is this one. */
    ghost predicate Active()
      reads this, manager
    {
      manager.leaseHeld && manager.active == nonce && manager.generation == generation
    }

    /** A send of this lease passes its check. */
    ghost predicate Usable()
      reads this, manager
    {
      Active() && !released && !manager.uncertain
    }

    /** `ensureValid`, with whatever `Fence` did before it. */
    method EnsureValid() returns (err: Option<LeaseError>)
      requires manager.Running()
      modifies manager`uncertain
      ensures manager.Stepped()
      ensures err ==
        if released then Some(LeaseReleased)
        else if manager.uncertain then Some(InputUncertain)
        else if !Active() then Some(GenerationStale) else None
    {
      manager.Fenced();
      err := CheckValid();
    }

    method CheckValid() returns (err: Option<LeaseError>)
      ensures err ==
        if released then Some(LeaseReleased)
        else if manager.uncertain then Some(InputUncertain)
        else if !Active() then Some(GenerationStale) else None
    {
      if released { return Some(LeaseReleased); }
      if manager.uncertain { return Some(InputUncertain); }
      if !manager.leaseHeld || generation != manager.generation || nonce != manager.active { return Some(GenerationStale); }
      return None;
    }

    method SendFrame(frame: seq<Byte>) returns (err: Option<LeaseError>, ghost done: seq<Op>)
      requires manager.Running()
      modifies manager`uncertain, manager.transport, manager.transport.record
      ensures manager.Stepped() && manager.transport.attempted == old(manager.transport.attempted) + done
      ensures done <= [Hid(frame)] && (err.None? ==> done == [Hid(frame)])
      ensures err != Some(Malformed)
      ensures done != [] ==> old(Usable())
      ensures !manager.fenceable && old(Usable()) ==> done != []
      ensures err.None? ==> manager.transport.FateOf(old(|manager.transport.attempted|)).Fine()
      ensures !manager.fenceable && old(Usable() && manager.transport.LastOne(generation)) ==>
        err.None? && manager.transport.Outcome() == After(old(manager.transport.Outcome()), frame)
    {
      done := [];
      err := EnsureValid();
      if err.Some? { return; }
      done := [Hid(frame)];
      var ok := manager.transport.SendHid(generation, frame);
      if !ok { err := Some(SendFailed); }
    }

    /** `waitContext`. */
    method Pause(duration: int) returns (err: Option<LeaseError>, ghost done: seq<Op>)
      requires manager.Running()
      modifies manager.transport
      ensures manager.Stepped() && manager.transport.attempted == old(manager.transport.attempted) + done
      ensures done == [Paused(duration)] && err != Some(Malformed)
      ensures duration == 0 ==> err.None?
    {
      done := [Paused(duration)];
      manager.transport.Note(Paused(duration));
      if duration == 0 { return None, done; }
      var cancelled: bool := *;
      err := if cancelled then Some(Interrupted) else None;
    }

    method SendPointer(p: Point, buttons: Byte) returns (status: ActionStatus, err: Option<LeaseError>, ghost done: seq<Op>)
      requires manager.Running() && InRange(p) && buttons <= MAX_BUTTONS
      modifies manager`uncertain, manager`lastPointer, manager.transport, manager.transport.record
      ensures manager.Stepped() && manager.transport.attempted == old(manager.transport.attempted) + done
      ensures done <= [Hid(PointerFrame(p, buttons))] && (err.None? ==> done == [Hid(PointerFrame(p, buttons))])
      ensures err != Some(Malformed) && status == if err.None? then Accepted else Ambiguous
      ensures manager.lastPointer == if err.None? then p else old(manager.lastPointer)
      ensures done != [] ==> Active() && !released && !old(manager.uncertain)
    {
      done := [];
      var frame := PointerReport(p.x, p.y, buttons);
      if frame.None? { return Failed, Some(Malformed), done; }
      err, done := SendFrame(frame.value);
      if err.Some? { return Ambiguous, err, done; }
      manager.lastPointer := p;
      status := Accepted;
    }

    method PressKeys(modifier: Byte, keys: seq<Byte>) returns (status: ActionStatus, err: Option<LeaseError>, ghost done: seq<Op>)
      requires manager.Running() && |keys| <= SLOTS
      modifies manager`uncertain, manager.transport, manager.transport.record
      ensures manager.Stepped() && manager.transport.attempted == old(manager.transport.attempted) + done
      ensures done <= Press(modifier, keys, manager.limits) && (err.None? ==> done == Press(modifier, keys, manager.limits))
      ensures err != Some(Malformed) && status == if err.None? then Accepted else Ambiguous
      ensures !manager.fenceable && old(Usable()) ==> done != []
      ensures !manager.fenceable && old(Usable() && manager.transport.LastOne(generation)) ==>
        err.Some? && manager.transport.Outcome() == Holding(old(manager.transport.Outcome()), modifier, keys)
    {
      hide O.RowValid, O.PatchAllowed, AfterAll, After, Read, Holding, PointerReport;
      done := [];
      var pressed := KeyboardReport(modifier, keys);
      if pressed.None? { return Failed, Some(Malformed), done; }
      PressHolds(manager.transport.Outcome(), modifier, keys);
      var released := KeyboardReport(0, []);
      NeutralFramesRelease(IDLE, 0, 0);
      ghost var more: seq<Op>;
      err, done := SendFrame(pressed.value);
      if err.Some? { return Ambiguous, err, done; }
      err, more := Pause(manager.limits.keyHold);
      done := done + more;
      if err.Some? { return Ambiguous, err, done; }
      err, more := SendFrame(released.value);
      done := done + more;
      if err.Some? { return Ambiguous, err, done; }
      err, more := Pause(manager.limits.interKey);
      done := done + more;
      if err.Some? { return Ambiguous, err, done; }
      status := Accepted;
    }

    method ClickAt(p: Point, button: Byte) returns (status: ActionStatus, err: Option<LeaseError>, ghost done: seq<Op>)
      requires manager.Running() && InRange(p) && button <= MAX_BUTTONS
      modifies manager`uncertain, manager`lastPointer, manager.transport, manager.transport.record
      ensures manager.Stepped() && manager.transport.attempted == old(manager.transport.attempted) + done
      ensures done <= ClickPlan(p, button) && (err.None? ==> done == ClickPlan(p, button))
      ensures err != Some(Malformed) && status == if err.None? then Accepted else Ambiguous
    {
      hide O.RowValid, AfterAll, After, Read, PointerReport;
      ghost var more: seq<Op>;
      status, err, done := SendPointer(p, 0);
      if err.Some? { return; }
      status, err, more := SendPointer(p, button);
      done := done + more;
      if err.Some? { return; }
      status, err, more := SendPointer(p, 0);
      done := done + more;
    }

    method DragAlong(path: seq<Point>, button: Byte) returns (status: ActionStatus, err: Option<LeaseError>, ghost done: seq<Op>)
      requires manager.Running() && button <= MAX_BUTTONS && path != [] && forall i :: 0 <= i < |path| ==> InRange(path[i])
      modifies manager`uncertain, manager`lastPointer, manager.transport, manager.transport.record
      ensures manager.Stepped() && manager.transport.attempted == old(manager.transport.attempted) + done
      ensures done <= DragPlan(path, button) && (err.None? ==> done == DragPlan(path, button))
      ensures err != Some(Malformed) && status == if err.None? then Accepted else Ambiguous
    {
      hide O.RowValid, O.PatchAllowed, AfterAll, After, Read, PointerReport, HidTransport.LastOne;
      ghost var more: seq<Op>;
      status, err, done := SendPointer(path[0], 0);
      if err.Some? { return; }
      for i := 0 to |path|
        invariant manager.Stepped() && manager.transport.attempted == old(manager.transport.attempted) + done
        invariant done == [Hid(PointerFrame(path[0], 0))] + DragMoves(path, button)[..i]
      {
        status, err, more := SendPointer(path[i], button);
        done := done + more;
        if err.Some? { return; }
      }
      assert DragMoves(path, button)[..|path|] == DragMoves(path, button);
      status, err, more := SendPointer(path[|path| - 1], 0);
      done := done + more;
    }

    method TypeAll(text: seq<K.Keystroke>) returns (status: ActionStatus, err: Option<LeaseError>, ghost done: seq<Op>)
      requires manager.Running()
      modifies manager`uncertain, manager.transport, manager.transport.record
      ensures manager.Stepped() && manager.transport.attempted == old(manager.transport.attempted) + done
      ensures done <= TextPlan(text, manager.limits) && (err.None? ==> done == TextPlan(text, manager.limits))
      ensures err != Some(Malformed) && status == if err.None? then Accepted else Ambiguous
    {
      hide AfterAll, After, Read, PointerReport;
      ghost var more: seq<Op>;
      done := [];
      for i := 0 to |text|
        invariant manager.Stepped() && manager.transport.attempted == old(manager.transport.attempted) + done
        invariant done == TextPlan(text[..i], manager.limits)
      {
        status, err, more := PressKeys(text[i].modifier, [text[i].key]);
        TextPlanGrows(text, i, manager.limits);
        done := done + more;
        if err.Some? {
          TextPlanPrefix(text, i + 1, manager.limits);
          return;
        }
      }
      assert text[..|text|] == text;
      status, err := Accepted, None;
    }

    /** The ticker loop of `keyhold`, until the deadline fires. */
    method KeepAlive() returns (err: Option<LeaseError>, ghost done: seq<Op>, ghost ticks: nat, ghost gaps: seq<int>)
      requires manager.Running()
      modifies manager`uncertain, manager.transport, manager.transport.record
      ensures manager.Stepped() && manager.transport.attempted == old(manager.transport.attempted) + done
      ensures done <= KeepAlives(ticks) && (err.None? ==> done == KeepAlives(ticks))
      ensures err != Some(Malformed)
      ensures |gaps| == ticks && forall g :: g in gaps ==> g <= MAX_GAP
    {
      hide AfterAll, After, Read, KeepAlives;
      err, done, ticks, gaps := None, [], 0, [];
      KeepAlivesGrow(0);
      var fired: nat := *;
      var i: nat := 0;
      while i < fired
        invariant manager.Stepped() && manager.transport.attempted == old(manager.transport.attempted) + done
        invariant err.None? && ticks == i && done == KeepAlives(i)
        invariant |gaps| == i && forall g :: g in gaps ==> g <= MAX_GAP
      {
        var cancelled: bool, gap: int := *, *;
        if cancelled { return Some(Interrupted), done, ticks, gaps; }
        if gap > MAX_GAP { return Some(KeepaliveMissed), done, ticks, gaps; }
        ghost var more: seq<Op>;
        KeepAlivesGrow(i);
        err, more := SendFrame(KEEPALIVE);
        i, ticks, gaps, done := i + 1, i + 1, gaps + [gap], done + more;
        if err.Some? { return; }
      }
    }

    /** The beginning of `keyhold`: the chord goes down, the channel drains, the deadline is armed. */
    method HoldDown(c: Compiled) returns (err: Option<LeaseError>, ghost done: seq<Op>)
      requires manager.Running() && |c.keys| <= SLOTS
      modifies manager`uncertain, manager.transport, manager.transport.record
      ensures manager.Stepped() && manager.transport.attempted == old(manager.transport.attempted) + done
      ensures done <= HoldStart(c, 0) && (err.None? ==> done == HoldStart(c, 0))
      ensures err != Some(Malformed)
    {
      hide O.RowValid, AfterAll, After, Read, PointerReport, Pressed;
      done := [];
      var pressed := KeyboardReport(c.modifier, c.keys);
      if pressed.None? { return Some(Malformed), done; }
      err, done := SendFrame(pressed.value);
      if err.Some? { return; }
      var flushed := manager.transport.FlushChannel(generation);
      done := done + [Flush];
      if !flushed { return Some(SendFailed), done; }
      manager.transport.Note(Armed(c.duration));
      done := done + [Armed(c.duration)];
    }

    /**
    `keyhold`: the keepalives stop at the deadline, at a cancellation, or when one comes too late;
    `gaps` are the times between the ticks that led to a keepalive.
    */
    method HoldKeys(c: Compiled)
      returns (status: ActionStatus, err: Option<LeaseError>, ghost done: seq<Op>, ghost ticks: nat, ghost gaps: seq<int>)
      requires manager.Running() && |c.keys| <= SLOTS
      modifies manager`uncertain, manager.transport, manager.transport.record
      ensures manager.Stepped() && manager.transport.attempted == old(manager.transport.attempted) + done
      ensures done <= HoldStart(c, ticks) + [Hid(RELEASED)] && (err.None? ==> done == HoldStart(c, ticks) + [Hid(RELEASED)])
      ensures err != Some(Malformed) && status == if err.None? then Accepted else Ambiguous
      ensures |gaps| == ticks && forall g :: g in gaps ==> g <= MAX_GAP
    {
      hide O.RowValid, AfterAll, After, Read, PointerReport, KeyboardReport, KeepAlives, Pressed;
      done, ticks, gaps := [], 0, [];
      ghost var more: seq<Op>;
      KeepAlivesGrow(0);
      err, done := HoldDown(c);
      if err.Some? { return Ambiguous, err, done, ticks, gaps; }
      err, more, ticks, gaps := KeepAlive();
      done := done + more;
      if err.Some? { return Ambiguous, err, done, ticks, gaps; }
      var cancelled: bool := *;
      if cancelled { return Ambiguous, Some(Interrupted), done, ticks, gaps; }
      var released := KeyboardReport(0, []);
      NeutralFramesRelease(IDLE, 0, 0);
      err, more := SendFrame(released.value);
      done := done + more;
      if err.Some? { return Ambiguous, err, done, ticks, gaps; }
      status := Accepted;
    }

    /**
    `execute`, at `now`. A status of failed means that no frame of the action was asked for; a fenced
    manager, a released lease and an expired observation end it before anything is.
    */
    method Execute(c: Compiled, now: int)
      returns (status: ActionStatus, seen: Option<nat>, err: Option<LeaseError>, ghost done: seq<Op>, ghost ticks: nat)
      requires manager.Running() && WellFormed(c)
      modifies manager`uncertain, manager`lastPointer, manager.transport, manager.transport.record
      ensures manager.Stepped() && manager.transport.attempted == old(manager.transport.attempted) + done
      ensures done <= Plan(c, manager.limits, ticks) && (err.None? ==> done == Plan(c, manager.limits, ticks))
      ensures err != Some(Malformed)
      ensures status == Accepted <==> err.None?
      ensures status in {Accepted, Failed, Ambiguous}
      ensures status == Failed ==> forall op :: op in done ==> op.Paused? || op.Capture?
      ensures seen.Some? ==> c.kind.Screenshot? && err.None?
      ensures old(manager.uncertain) || released || !old(Active()) || Stale(c, now) ==> done == [] && status == Failed
      ensures Presses(c) && !manager.fenceable && old(Usable() && manager.transport.LastOne(generation)) ==>
        err.Some? && done != [] && manager.transport.Outcome() == Holding(old(manager.transport.Outcome()), c.modifier, c.keys)
    {
      hide O.RowValid, O.Advanced, AfterAll, After, Read, PointerFrame, Press, TextPlan, DragMoves, HoldStart, KeyboardReport, PointerReport;
      seen, done, ticks := None, [], 0;
      err := EnsureValid();
      if err.Some? { return Failed, seen, err, done, ticks; }
      if Stale(c, now) { return Failed, seen, Some(ObservationExpired), done, ticks; }
      match c.kind {
        case Move => status, err, done := SendPointer(c.point, 0);
        case Click => status, err, done := ClickAt(c.point, c.button);
        case DoubleClick => status, err, done := ClickTwice(c.point, c.button);
        case Drag => status, err, done := DragAlong(c.path, c.button);
        case Scroll => status, err, done := Scroll(c.deltaY, c.deltaX);
        case KeyHold =>
          ghost var gaps;
          status, err, done, ticks, gaps := HoldKeys(c);
        case Keypress => status, err, done := PressKeys(c.modifier, c.keys);
        case TypeText => status, err, done := TypeAll(c.text);
        case Wait =>
          err, done := Pause(c.duration);
          status := if err.None? then Accepted else Failed;
        case Screenshot => status, seen, err, done := TakeScreenshot();
        case UnknownAction => status, err := Failed, Some(Malformed);
      }
    }

    method ClickTwice(p: Point, button: Byte) returns (status: ActionStatus, err: Option<LeaseError>, ghost done: seq<Op>)
      requires manager.Running() && InRange(p) && button <= MAX_BUTTONS
      modifies manager`uncertain, manager`lastPointer, manager.transport, manager.transport.record
      ensures manager.Stepped() && manager.transport.attempted == old(manager.transport.attempted) + done
      ensures
        var plan := ClickPlan(p, button) + [Paused(manager.limits.doubleClickDelay)] + ClickPlan(p, button);
        done <= plan && (err.None? ==> done == plan)
      ensures err != Some(Malformed) && status == if err.None? then Accepted else Ambiguous
    {
      hide O.RowValid, AfterAll, After, Read, ClickPlan, PointerFrame;
      ghost var more: seq<Op>;
      status, err, done := ClickAt(p, button);
      if err.Some? { return; }
      err, more := Pause(manager.limits.doubleClickDelay);
      done := done + more;
      if err.Some? { return Ambiguous, err, done; }
      status, err, more := ClickAt(p, button);
      done := done + more;
    }

    method Scroll(dy: int, dx: int) returns (status: ActionStatus, err: Option<LeaseError>, ghost done: seq<Op>)
      requires manager.Running()
      modifies manager`uncertain, manager.transport, manager.transport.record
      ensures manager.Stepped() && manager.transport.attempted == old(manager.transport.attempted) + done
      ensures done <= [Wheel(dy, dx)] && (err.None? ==> done == [Wheel(dy, dx)])
      ensures err != Some(Malformed) && (status == Accepted <==> err.None?) && status in {Accepted, Failed, Ambiguous}
      ensures status == Failed ==> done == []
    {
      done := [];
      err := EnsureValid();
      if err.Some? { return Failed, err, done; }
      done := [Wheel(dy, dx)];
      var ok := manager.transport.SendWheel(generation, dy, dx);
      if !ok { return Ambiguous, Some(SendFailed), done; }
      status := Accepted;
    }

    method TakeScreenshot() returns (status: ActionStatus, seen: Option<nat>, err: Option<LeaseError>, ghost done: seq<Op>)
      requires manager.Running()
      modifies manager.transport
      ensures manager.Stepped() && manager.transport.attempted == old(manager.transport.attempted) + done
      ensures done <= [Capture] && (err.None? ==> done == [Capture])
      ensures err != Some(Malformed) && status == if err.None? then Accepted else Failed
      ensures seen.Some? <==> err.None?
    {
      seen, done := None, [];
      if !manager.observes { return Failed, None, Some(ObservationMissing), done; }
      done := [Capture];
      manager.transport.Note(Capture);
      var captured: bool, id: nat, at: nat := *, *, *;
      if !captured { return Failed, None, Some(CaptureFailed), done; }
      if id == 0 || at != generation { return Failed, None, Some(GenerationStale), done; }
      return Accepted, Some(id), None, done;
    }

    /** `Release`: at most once, and only by the active lease; a failure latches the manager uncertain. */
    method Release() returns (err: Option<LeaseError>)
      requires manager.Running()
      modifies this, manager`active, manager`leaseHeld, manager`uncertain, manager.transport, manager.transport.record
      ensures manager.Moved() && released && (old(manager.Valid()) ==> manager.Valid())
      ensures old(released) ==> err.None? && manager.transport.attempted == old(manager.transport.attempted) && manager.leaseHeld == old(manager.leaseHeld)
      ensures !old(released) && !old(Owns()) ==> err == Some(LeaseReleased) && manager.transport.attempted == old(manager.transport.attempted)
      ensures !old(released) && old(Owns()) ==>
        && !manager.leaseHeld && manager.active == 0
        && (if err.None? then manager.transport.Quiet() && manager.uncertain == old(manager.uncertain) else err == Some(NotNeutralized) && manager.uncertain)
        && manager.transport.attempted == old(manager.transport.attempted) + NeutralPlan(manager.lastPointer)
        && (manager.transport.LostFrom(old(|manager.transport.attempted|)) ==> err.Some?)
    {
      if released { return None; }
      released := true;
      if !manager.leaseHeld || nonce != manager.active { return Some(LeaseReleased); }
      manager.active := 0;
      var ok := manager.Neutralize(generation);
      manager.leaseHeld := false;
      if !ok {
        manager.uncertain := true;
        return Some(NotNeutralized);
      }
      return None;
    }

    ghost predicate Owns()
      reads manager
    {
      manager.leaseHeld && manager.active == nonce
    }

    /** `abandon`: gives the lease back without touching the device. */
    method Abandon()
      requires manager.Running()
      modifies this, manager`active, manager`leaseHeld
      ensures manager.Running() && released
      ensures !old(released) && old(Owns()) ==> !manager.leaseHeld && manager.active == 0
      ensures old(released) || !old(Owns()) ==> manager.leaseHeld == old(manager.leaseHeld) && manager.active == old(manager.active)
    {
      if released { return; }
      released := true;
      if manager.leaseHeld && nonce == manager.active {
        manager.active := 0;
        manager.leaseHeld := false;
      }
    }

    /** The loop of `RunActions`: actions run in order until the first that fails. */
    method ExecuteAll(cs: seq<Compiled>)
      returns (rs: seq<ActionReceipt>, batch: BatchStatus, seen: Option<nat>, err: Option<LeaseError>,
               ghost n: nat, ghost ticks: seq<nat>, ghost partial: seq<Op>)
      requires manager.Running() && forall i :: 0 <= i < |cs| ==> WellFormed(cs[i])
      modifies manager`uncertain, manager`lastPointer, manager.transport, manager.transport.record
      ensures manager.Stepped() && Ran(cs, manager.limits, n, ticks, partial)
      ensures manager.transport.attempted == old(manager.transport.attempted) + PlanAll(cs[..n], manager.limits, ticks[..n]) + partial
      ensures |rs| == |cs| && ReceiptsShape(rs, n) && batch == StatusOf(rs, n, false)
      ensures n < |cs| ==> rs[n].status in {Failed, Ambiguous}
      ensures (err.None? <==> n == |cs|) && err != Some(Malformed)
      ensures cs != [] && Presses(cs[0]) && !manager.fenceable && old(Usable() && manager.transport.LastOne(generation)) ==>
        manager.transport.Outcome() == Holding(old(manager.transport.Outcome()), cs[0].modifier, cs[0].keys)
        && manager.transport.LostFrom(|manager.transport.attempted|)
    {
      hide O.RowValid, O.PatchAllowed, AfterAll, After, Read, Holding, Plan, PlanAll, WellFormed, ReceiptsSoFar, ReceiptsShape;
      rs := Unstarted(cs);
      NothingStarted(cs);
      batch, seen, err, n, ticks, partial := BatchAccepted, None, None, 0, seq(|cs|, _ => 0), [];
      ghost var asked: seq<Op> := [];
      ghost var was := manager.transport.attempted;
      PlanAllEmpty(cs, manager.limits, ticks);
      manager.StaysPut();
      ghost var cut := cs != [] && Presses(cs[0]) && !manager.fenceable && Usable() && manager.transport.LastOne(generation);
      for i := 0 to |cs|
        invariant manager.Stepped() && n == i && partial == [] && err.None?
        invariant cut ==> i == 0 && Usable() && manager.transport.LastOne(generation) && manager.transport.Outcome() == old(manager.transport.Outcome())
        invariant |ticks| == |cs| == |rs| && ReceiptsSoFar(rs, i)
        invariant asked == PlanAll(cs[..i], manager.limits, ticks[..i]) && manager.transport.attempted == was + asked
      {
        ghost var done: seq<Op>, t: nat;
        var status, observed;
        var now: int := *;
        status, observed, err, done, t := Execute(cs[i], now);
        ReceiptsAdvance(rs, i, status, err);
        rs := rs[i := rs[i].(status := status)];
        ghost var longer := ticks[i := t];
        assert longer[..i] == ticks[..i];
        ticks := longer;
        if observed.Some? { seen := observed; }
        if err.Some? {
          rs := rs[i := rs[i].(error := err)];
          partial := done;
          batch := if status == Ambiguous then BatchAmbiguous else if i == 0 then BatchFailed else BatchPartial;
          return;
        }
        PlanAllGrows(cs, i, manager.limits, ticks);
        asked := asked + done;
        n := i + 1;
      }
      ReceiptsComplete(rs);
    }

    /**
    `RunActions`. A `Fence` after the validity check and before the registration of the batch: nothing
    runs, the receipt still says accepted, and the error says that it did not.
    */
    method RunActions(actions: seq<Action>, binding: Option<Binding>, now: int, fence: FenceTime)
      returns (receipt: BatchReceipt, errs: seq<LeaseError>, ghost n: nat, ghost ticks: seq<nat>, ghost partial: seq<Op>)
      requires manager.Valid() && Named(actions) && ScreenFits(binding) && (fence != Never ==> manager.fenceable)
      modifies this, manager`active, manager`leaseHeld, manager`uncertain, manager`lastPointer, manager.transport, manager.transport.record
      ensures manager.Valid() && manager.Moved()
      // No lease, no frame; a batch that does not compile sends nothing either.
      ensures receipt == NO_RECEIPT <==>
        !old(Usable()) || fence == BeforeCheck || !Acceptable(actions, Context(manager.limits, binding, generation, now))
      ensures receipt == NO_RECEIPT ==> errs != [] && manager.transport.attempted == old(manager.transport.attempted)
      ensures receipt == NO_RECEIPT ==> manager.transport.log == old(manager.transport.log) && manager.transport.barrier == old(manager.transport.barrier)
      ensures receipt == NO_RECEIPT <==> n == 0 && receipt.actions == []
      // The lease is given back unless its first check failed.
      ensures old(Active()) && !old(released) ==>
        && (manager.leaseHeld <==> old(manager.uncertain) || fence == BeforeCheck)
        && (manager.leaseHeld ==> manager.uncertain && errs == [InputUncertain])
      // The host is released, or the manager says it does not know.
      ensures receipt != NO_RECEIPT ==> !receipt.neutralized == receipt.cleanupFailed && released && !manager.leaseHeld
      ensures receipt.neutralized ==> manager.transport.Quiet()
      ensures receipt.cleanupFailed ==> manager.uncertain && NotNeutralized in errs
      ensures !manager.fenceable ==> (manager.uncertain <==> old(manager.uncertain) || receipt.cleanupFailed)
      // What the receipts say.
      ensures receipt != NO_RECEIPT ==>
        && |receipt.actions| == |actions| && ReceiptsShape(receipt.actions, n)
        && receipt.status == StatusOf(receipt.actions, n, receipt.cleanupFailed) && Malformed !in errs
      ensures errs == [] <==> receipt != NO_RECEIPT && n == |actions| && receipt.neutralized
      ensures receipt != NO_RECEIPT ==> (n < |actions| && receipt.actions[n].status == NotStarted <==> fence == AfterCheck)
      ensures fence == AfterCheck && receipt != NO_RECEIPT ==> n == 0 && manager.uncertain && errs != [] && errs[0] == InputUncertain
      // What was asked of the transport: whole plans, a part of one, and the neutral frames.
      ensures receipt != NO_RECEIPT ==>
        var c := Context(manager.limits, binding, generation, now);
        && Acceptable(actions, c) && Ran(CompiledOf(actions, c), c.limits, n, ticks, partial)
        && Scheduled(PlanAll(CompiledOf(actions, c)[..n], c.limits, ticks[..n]) + partial) <= c.limits.maxBatchDuration
        && manager.transport.attempted ==
             old(manager.transport.attempted) + PlanAll(CompiledOf(actions, c)[..n], c.limits, ticks[..n]) + partial + NeutralPlan(manager.lastPointer)
      ensures receipt != NO_RECEIPT && fence == Never && !manager.fenceable && old(manager.transport.LastOne(generation)) ==>
        var first := CompiledOf(actions, Context(manager.limits, binding, generation, now))[0];
        Presses(first) ==>
          manager.uncertain && manager.transport.Outcome() == Holding(old(manager.transport.Outcome()), first.modifier, first.keys)
    {
      hide O.RowValid, O.PatchAllowed, AfterAll, After, Read, Holding, Plan, PlanAll, WellFormed, TotalCost, TotalWait, OutcomeIn, Scheduled;
      n, ticks, partial := 0, [], [];
      manager.StaysPut();
      if fence == BeforeCheck { manager.uncertain := true; }
      var err := CheckValid();
      if err.Some? { return NO_RECEIPT, [err.value], n, ticks, partial; }
      var c := Context(manager.limits, binding, generation, now);
      var compiled, _ := CompileBatch(actions, c);
      if compiled.Err? {
        Abandon();
        return NO_RECEIPT, [Rejected(compiled.error)], n, ticks, partial;
      }
      receipt, errs, n, ticks, partial := RunCompiled(actions, c, compiled.value, fence);
    }

    /** The part of `RunActions` after compilation, with its deferred release. */
    method RunCompiled(actions: seq<Action>, c: Context, cs: seq<Compiled>, fence: FenceTime)
      returns (receipt: BatchReceipt, errs: seq<LeaseError>, ghost n: nat, ghost ticks: seq<nat>, ghost partial: seq<Op>)
      requires manager.Running() && Usable() && (fence != Never ==> manager.fenceable)
      requires Named(actions) && Acceptable(actions, c) && ScreenFits(c.binding) && c.limits == manager.limits && cs == CompiledOf(actions, c)
      modifies this, manager`active, manager`leaseHeld, manager`uncertain, manager`lastPointer, manager.transport, manager.transport.record
      ensures manager.Valid() && manager.Moved() && released && !manager.leaseHeld
      ensures !receipt.neutralized == receipt.cleanupFailed
      ensures receipt.neutralized ==> manager.transport.Quiet()
      ensures receipt.cleanupFailed ==> manager.uncertain && NotNeutralized in errs
      ensures !manager.fenceable ==> (manager.uncertain <==> receipt.cleanupFailed)
      ensures
        && |receipt.actions| == |actions| && ReceiptsShape(receipt.actions, n)
        && receipt.status == StatusOf(receipt.actions, n, receipt.cleanupFailed) && Malformed !in errs
      ensures errs == [] <==> n == |actions| && receipt.neutralized
      ensures n < |actions| && receipt.actions[n].status == NotStarted <==> fence == AfterCheck
      ensures fence == AfterCheck ==> n == 0 && manager.uncertain && errs != [] && errs[0] == InputUncertain
      ensures Ran(cs, c.limits, n, ticks, partial)
      ensures Scheduled(PlanAll(cs[..n], c.limits, ticks[..n]) + partial) <= c.limits.maxBatchDuration
      ensures manager.transport.attempted ==
        old(manager.transport.attempted) + PlanAll(cs[..n], c.limits, ticks[..n]) + partial + NeutralPlan(manager.lastPointer)
      ensures fence != AfterCheck && Presses(cs[0]) && !manager.fenceable && old(manager.transport.LastOne(generation)) ==>
        manager.uncertain && manager.transport.Outcome() == Holding(old(manager.transport.Outcome()), cs[0].modifier, cs[0].keys)
    {
      hide O.RowValid, Plan, PlanAll, WellFormed, TotalCost, TotalWait, OutcomeIn, Scheduled;
      AllWellFormed(actions, c);
      manager.StaysPut();
      var rs, batch, seen := Unstarted(cs), BatchAccepted, None;
      var err: Option<LeaseError>;
      if fence == AfterCheck {
        manager.uncertain := true;
        err, n, ticks, partial := Some(InputUncertain), 0, seq(|cs|, _ => 0), [];
        PlanAllEmpty(cs, c.limits, ticks);
      } else {
        rs, batch, seen, err, n, ticks, partial := ExecuteAll(cs);
      }
      RunWithinBudget(actions, c, cs, n, ticks, partial);
      var cleanup := Release();
      errs := (if err.Some? then [err.value] else []) + (if cleanup.Some? then [cleanup.value] else []);
      receipt := BatchReceipt(generation, if cleanup.Some? then BatchAmbiguous else batch, rs, seen, cleanup.None?, cleanup.Some?);
    }
  }

  // ------------------------------------------------- any calls, in any order

  /** A part of neutralization: it releases, or waits for what is on its way. */
  ghost predicate Neutral(op: Op) { exists p: Point :: InRange(p) && op in NeutralPlan(p) }

  /** Since `was`, nothing but neutral requests. */
  ghost predicate OnlyNeutral(was: seq<Op>, now: seq<Op>) {
    was <= now && forall i :: |was| <= i < |now| ==> Neutral(now[i])
  }

  lemma NeutralMore(was: seq<Op>, now: seq<Op>, p: Point)
    requires OnlyNeutral(was, now) && InRange(p)
    ensures OnlyNeutral(was, now + NeutralPlan(p))
  {
    hide Neutral;
    forall op | op in NeutralPlan(p) ensures Neutral(op) { IsNeutral(op, p); }
    var all := now + NeutralPlan(p);
    forall i | |was| <= i < |all| ensures Neutral(all[i]) {
      assert i >= |now| ==> all[i] == NeutralPlan(p)[i - |now|];
    }
  }

  lemma IsNeutral(op: Op, p: Point)
    requires InRange(p) && op in NeutralPlan(p)
    ensures Neutral(op)
  {
  }

  datatype Batch = Batch(actions: seq<Action>, binding: Option<Binding>, now: int, fence: FenceTime)

  ghost predicate Runnable(b: Batch, fenceable: bool) {
    Named(b.actions) && ScreenFits(b.binding) && (b.fence != Never ==> fenceable)
  }

  /**
  Any calls on a manager in any order, by holders of leases old and new. Once uncertain it stays so, whatever
  is tried, and asks for nothing but release, until a `Reconcile` or an advance of the generation
  succeeds. One call for each batch, which may or may not be it.
  */
  method Calls(manager: Manager, batches: seq<Batch>) returns (cleared: bool)
    requires manager.Valid() && forall i :: 0 <= i < |batches| ==> Runnable(batches[i], manager.fenceable)
    modifies manager, manager.transport, manager.transport.record
    ensures manager.Valid() && manager.generation >= old(manager.generation)
    ensures old(manager.uncertain) && !cleared ==>
      manager.uncertain && OnlyNeutral(old(manager.transport.attempted), manager.transport.attempted)
  {
    hide NeutralPlan, O.RowValid, O.Advanced, AfterAll, After, Read, Acceptable, CompiledOf, Neutral, Holding, Presses;
    cleared := false;
    var lease: Lease? := null;
    for i := 0 to |batches|
      invariant manager.Valid() && manager.generation >= old(manager.generation)
      invariant manager.transport.record == old(manager.transport.record)
      invariant lease != null ==> fresh(lease) && lease.manager == manager
      invariant old(manager.uncertain) && !cleared ==>
        manager.uncertain && OnlyNeutral(old(manager.transport.attempted), manager.transport.attempted)
    {
      var kind: nat, expected: nat, meanwhile: bool := *, *, *;
      ghost var asked, pointer := manager.transport.attempted, manager.lastPointer;
      if kind == 0 {
        var err, taken := manager.Acquire(expected);
        if taken != null { lease := taken; }
      } else if kind == 1 {
        var _ := manager.Fence(expected);
      } else if kind == 2 {
        var err := manager.Reconcile(expected, meanwhile && manager.fenceable);
        if err.None? { cleared := true; }
        if manager.transport.attempted != asked { NeutralMoreIf(old(manager.transport.attempted), asked, pointer); }
      } else if kind == 3 {
        var err := manager.AdvanceGeneration(expected, meanwhile && manager.fenceable);
        if err.None? { cleared := true; }
        if manager.transport.attempted != asked { NeutralMoreIf(old(manager.transport.attempted), asked, pointer); }
      } else if kind == 4 && lease != null {
        var _ := lease.Release();
        if manager.transport.attempted != asked { NeutralMoreIf(old(manager.transport.attempted), asked, manager.lastPointer); }
      } else if kind == 5 && lease != null {
        lease.Abandon();
      } else {
        var b := batches[i];
        if kind == 6 && lease != null {
          ghost var count, ticks, partial;
          var receipt, errs;
          receipt, errs, count, ticks, partial := lease.RunActions(b.actions, b.binding, b.now, b.fence);
        } else {
          var _, _ := manager.RunActions(expected, b.actions, b.binding, b.now, b.fence);
        }
      }
    }
  }

  lemma NeutralMoreIf(was: seq<Op>, now: seq<Op>, p: Point)
    requires InRange(p)
    ensures OnlyNeutral(was, now) ==> OnlyNeutral(was, now + NeutralPlan(p))
  {
    if OnlyNeutral(was, now) { NeutralMore(was, now, p); }
  }

  /** So an uncertain manager gives no lease after any calls that did not clear it. */
  method NoLeaseWhileUncertain(manager: Manager, batches: seq<Batch>, expected: nat) returns (cleared: bool, err: Option<LeaseError>)
    requires manager.Valid() && manager.uncertain && forall i :: 0 <= i < |batches| ==> Runnable(batches[i], manager.fenceable)
    modifies manager, manager.transport, manager.transport.record
    ensures !cleared ==> err == Some(InputUncertain)
  {
    cleared := Calls(manager, batches);
    var lease;
    err, lease := manager.Acquire(expected);
  }

  lemma KeepAlivesGrow(n: nat)
    ensures KeepAlives(0) == [] && KeepAlives(n + 1) == KeepAlives(n) + [Hid(KEEPALIVE)]
  {
  }

  lemma TextPlanGrows(text: seq<K.Keystroke>, i: nat, l: Limits)
    requires i < |text|
    ensures TextPlan(text[..i + 1], l) == TextPlan(text[..i], l) + Press(text[i].modifier, [text[i].key], l)
  {
    assert text[..i + 1][..i] == text[..i];
  }

  lemma {:induction false} TextPlanPrefix(text: seq<K.Keystroke>, i: nat, l: Limits)
    requires i <= |text|
    ensures TextPlan(text[..i], l) <= TextPlan(text, l)
    decreases |text| - i
  {
    if i == |text| {
      assert text[..i] == text;
    } else {
      TextPlanGrows(text, i, l);
      TextPlanPrefix(text, i + 1, l);
    }
  }
}
