/**
The transport of a control session (`internal/automation/session.go`): every frame
passes a barrier that first commits `send_started` for the operation in progress.
The device, the channel to it and the ledger's other users are the environment.
*/
module HidSession {
  import opened Basics
  import opened HidProtocol
  import O = Operation
  import opened Plans

  const SEND_STARTED := O.Patch(O.PossiblySent, O.NotRequested, "", [], O.NOT_PROVEN, false, "", [])

  /** One operation's row in the ledger, which other processes move too. */
  class Record {
    var row: O.Row
    /** Nobody else uses the row, and the storage works. */
    const calm: bool

    ghost predicate Valid()
      reads this
    {
      O.RowValid(row.request.id, row)
    }

    constructor (row: O.Row, calm: bool)
      requires O.RowValid(row.request.id, row)
      ensures Valid() && this.row == row && this.calm == calm
    {
      this.row, this.calm := row, calm;
    }

    /** Any number of legal transitions by other callers. */
    method Others()
      requires Valid()
      modifies this
      ensures Valid() && O.Advanced(old(row), row)
      ensures calm ==> row == old(row)
    {
      if calm { return; }
      var n: nat := *;
      while n > 0
        invariant Valid() && O.Advanced(old(row), row)
      {
        n := n - 1;
        var to: O.Stage := *;
        var patch: O.Patch := *;
        var now: int := *;
        if O.PatchAllowed(row.stage, to, patch) {
          O.MovesKeepRows(row.request.id, row, to, patch, now);
          O.MoveAdvances(row, to, patch, now);
          row := O.Moved(row, to, patch, now);
        }
      }
    }

    /** `Transition`: others may come first, the lock may be held and the storage may fail. */
    method Transition(to: O.Stage, patch: O.Patch, now: int) returns (r: O.Result<O.Row>)
      requires Valid()
      modifies this
      ensures Valid() && O.Advanced(old(row), row)
      ensures r.Ok? ==> r.value == row && row.stage == to && row.patch == patch
      ensures r.Ok? && to == O.SendStarted ==> old(row).stage == O.NotSent && row.sendStartedAt == Some(now)
      ensures calm ==> (r.Ok? <==> O.PatchAllowed(old(row).stage, to, patch))
    {
      Others();
      var free: bool := *;
      if (!free && !calm) || !O.PatchAllowed(row.stage, to, patch) { return O.Err(O.InvalidTransition); }
      O.MovesKeepRows(row.request.id, row, to, patch, now);
      O.MoveAdvances(row, to, patch, now);
      row := O.Moved(row, to, patch, now);
      return O.Ok(row);
    }
  }

  /** `sendBarrier`: absent, not yet crossed, crossed, or refused for good. */
  datatype Barrier = NoBarrier | Waiting | Crossed | Refused

  /** What happened at the device boundary, in order. */
  datatype Event = StartCommitted | Transmitted(op: Op)

  /** What the device session does with one request: how much it delivers first, whether it takes and whether it answers. */
  datatype Fate = Fate(delivered: nat, interrupted: bool, enqueued: bool, accepted: bool)
  {
    predicate Fine() { !interrupted && accepted }

    predicate Lost() { !accepted && (interrupted || !enqueued) }
  }

  class HidTransport {
    const generation: nat
    /** The environment: what becomes of the `i`th thing asked for, and how many it lives to see, if not all. */
    const fates: nat -> Fate
    const life: Option<nat>
    var closed: bool
    var barrier: Barrier
    var record: Record
    /** Since the barrier was armed: the commit of `send_started`, then what was handed to the device session. */
    ghost var log: seq<Event>
    /** Everything the executor asked for, in order, whether it succeeded or not. */
    var attempted: seq<Op>
    /** Frames in the channel, and what the device holds after those it got. */
    ghost var queue: seq<seq<Byte>>
    ghost var host: Host

    /** What will be held when everything in the channel has arrived. */
    ghost function Outcome(): Host
      reads this
    {
      AfterAll(host, queue)
    }

    /** Nothing is pressed and nothing on the way can press anything. */
    ghost predicate Quiet()
      reads this
    {
      queue == [] && host == IDLE
    }

    /** No frame before the commit: the log is empty until it starts with the commit. */
    ghost predicate Guarded()
      reads this, record
    {
      && (barrier == Waiting || barrier == Refused ==> log == [])
      && (barrier == Crossed ==> log != [] && log[0] == StartCommitted && record.row.sendStartedAt.Some?)
    }

    ghost predicate Valid()
      reads this, record
    {
      record.Valid() && Guarded()
    }

    /** A send of `expected` gets past the checks and the barrier. */
    ghost predicate Passable(expected: nat)
      reads this, record
    {
      && !closed && expected == generation
      && (barrier == Waiting ==> record.calm && O.PatchAllowed(record.row.stage, O.SendStarted, SEND_STARTED))
      && barrier != Refused
    }

    function FateOf(i: nat): Fate {
      if LostFrom(i) then Fate(0, false, false, false) else fates(i)
    }

    predicate LostFrom(k: nat) {
      life.Some? && k >= life.value
    }

    ghost predicate FineFor(k: nat, n: nat) {
      forall i: nat :: k <= i < k + n ==> FateOf(i).Fine()
    }

    /** The next thing asked for arrives, and nothing after it does. */
    ghost predicate LastOne(expected: nat)
      reads this, record
    {
      Passable(expected) && FateOf(|attempted|).Fine() && LostFrom(|attempted| + 1)
    }

    constructor (generation: nat, fates: nat -> Fate, life: Option<nat>, record: Record)
      requires record.Valid()
      ensures Valid() && Quiet() && this.generation == generation && this.record == record && !closed
      ensures this.fates == fates && this.life == life && barrier == NoBarrier && attempted == []
    {
      this.generation, this.fates, this.life, this.record := generation, fates, life, record;
      closed, barrier, log, attempted, queue, host := false, NoBarrier, [], [], [], IDLE;
    }

    /** The beginning of one operation: a fresh barrier around its `start`. */
    method Arm(record: Record)
      requires record.Valid()
      modifies this
      ensures Valid() && this.record == record && barrier == Waiting && log == []
      ensures closed == old(closed) && attempted == old(attempted) && queue == old(queue) && host == old(host)
    {
      this.record := record;
      barrier := Waiting;
      log := [];
    }

    method Disarm() returns (started: bool)
      requires Valid() && barrier != NoBarrier
      modifies this
      ensures Valid() && barrier == NoBarrier && record == old(record) && log == old(log)
      ensures started == (old(barrier) == Crossed)
      ensures closed == old(closed) && attempted == old(attempted) && queue == old(queue) && host == old(host)
    {
      started := barrier == Crossed;
      barrier := NoBarrier;
    }

    /** The channel delivers some of what is in it. */
    ghost method Deliver(n: nat)
      requires Valid()
      modifies this
      ensures Valid() && Outcome() == old(Outcome()) && record == old(record)
      ensures n >= |old(queue)| ==> queue == []
      ensures closed == old(closed) && barrier == old(barrier) && log == old(log) && attempted == old(attempted)
    {
      var i := 0;
      while i < n && queue != []
        invariant Valid() && Outcome() == old(Outcome()) && record == old(record)
        invariant closed == old(closed) && barrier == old(barrier) && log == old(log) && attempted == old(attempted)
        invariant i <= n && (|queue| + i == |old(queue)| || queue == [])
      {
        AfterAllFromFirst(host, queue);
        host, queue := After(host, queue[0]), queue[1..];
        i := i + 1;
      }
    }

    /** `crossBarrier`: the first call runs `start`; every later call gets the first one's answer. */
    method CrossBarrier() returns (ok: bool)
      requires Valid()
      modifies this, record
      ensures Valid() && record == old(record) && O.Advanced(old(record.row), record.row)
      ensures ok <==> barrier == Crossed || barrier == NoBarrier
      ensures old(barrier) != Waiting ==> barrier == old(barrier) && log == old(log)
      ensures old(barrier) == Waiting ==> barrier in {Crossed, Refused} && log == if barrier == Crossed then [StartCommitted] else []
      ensures old(Passable(generation)) ==> ok
      ensures closed == old(closed) && attempted == old(attempted) && queue == old(queue) && host == old(host)
    {
      if barrier == Waiting {
        var now: int := *;
        var r := record.Transition(O.SendStarted, SEND_STARTED, now);
        if r.Ok? {
          barrier := Crossed;
          log := [StartCommitted];
        } else {
          barrier := Refused;
        }
      }
      ok := barrier == Crossed || barrier == NoBarrier;
    }

    /** What a send keeps and how it moves the barrier, whatever its result. */
    ghost predicate Forward(before: Barrier)
      reads this
    {
      barrier == before || (before == Waiting && barrier in {Crossed, Refused})
    }

    /** `SendHID`. A failed send may or may not have put its frame into the channel. */
    method SendHid(expected: nat, frame: seq<Byte>) returns (ok: bool)
      requires Valid()
      modifies this, record
      ensures Valid() && record == old(record) && O.Advanced(old(record.row), record.row)
      ensures closed == old(closed)
      ensures Outward(old(barrier), old(log), Hid(frame)) && attempted == old(attempted) + [Hid(frame)]
      ensures Outcome() == old(Outcome()) || Outcome() == After(old(Outcome()), frame)
      ensures ok ==> Outcome() == After(old(Outcome()), frame)
      ensures log == old(log) ==> !ok && Outcome() == old(Outcome())
      ensures old(closed) || expected != generation ==> !ok && log == old(log) && barrier == old(barrier)
      ensures ok ==> FateOf(old(|attempted|)).Fine()
      ensures FateOf(old(|attempted|)).Lost() ==> Outcome() == old(Outcome())
      ensures old(Passable(expected)) ==> Passable(expected) && ok == FateOf(old(|attempted|)).Fine()
    {
      var f := FateOf(|attempted|);
      attempted := attempted + [Hid(frame)];
      ok := CheckGeneration(expected);
      if !ok { return; }
      ok := CrossBarrier();
      if !ok { return; }
      ok := CheckGeneration(expected);
      if f.interrupted || !ok { return false; }
      log := log + [Transmitted(Hid(frame))];
      Deliver(f.delivered);
      ok := f.accepted;
      if ok || f.enqueued {
        AfterAllGrows(host, queue, frame);
        queue := queue + [frame];
      }
    }

    /** What one send adds to the log: possibly the commit, then possibly the transmission. */
    ghost predicate Outward(before: Barrier, was: seq<Event>, op: Op)
      reads this
    {
      && Forward(before)
      && (var base := if before == Waiting && barrier == Crossed then [StartCommitted] else was;
          log == base || log == base + [Transmitted(op)])
      && (barrier == Waiting || barrier == Refused ==> log == was)
    }

    /** `SendWheel`: an RPC, not a frame; it holds nothing on the host. */
    method SendWheel(expected: nat, dy: int, dx: int) returns (ok: bool)
      requires Valid()
      modifies this, record
      ensures Valid() && record == old(record) && O.Advanced(old(record.row), record.row)
      ensures closed == old(closed)
      ensures Outward(old(barrier), old(log), Wheel(dy, dx)) && attempted == old(attempted) + [Wheel(dy, dx)]
      ensures Outcome() == old(Outcome())
      ensures log == old(log) ==> !ok
      ensures old(closed) || expected != generation ==> !ok && log == old(log) && barrier == old(barrier)
      ensures old(Passable(expected)) ==> Passable(expected) && ok == FateOf(old(|attempted|)).Fine()
    {
      var f := FateOf(|attempted|);
      attempted := attempted + [Wheel(dy, dx)];
      ok := CheckGeneration(expected);
      if !ok { return; }
      ok := CrossBarrier();
      if !ok { return; }
      ok := CheckGeneration(expected);
      if f.interrupted || !ok { return false; }
      log := log + [Transmitted(Wheel(dy, dx))];
      ok := f.accepted;
    }

    /** `Flush` does not cross the barrier; a success means the channel has drained. */
    method FlushChannel(expected: nat) returns (ok: bool)
      requires Valid()
      modifies this
      ensures Valid() && record == old(record) && barrier == old(barrier) && log == old(log)
      ensures attempted == old(attempted) + [Flush] && Outcome() == old(Outcome())
      ensures ok ==> queue == [] && host == old(Outcome())
      ensures ok == (!closed && expected == generation && FateOf(old(|attempted|)).Fine())
      ensures closed == old(closed)
    {
      var f := FateOf(|attempted|);
      attempted := attempted + [Flush];
      ok := CheckGeneration(expected);
      if !ok { return; }
      Deliver(f.delivered);
      ok := f.Fine();
      if ok { Deliver(|queue|); }
    }

    method CheckGeneration(expected: nat) returns (ok: bool)
      ensures ok == (!closed && expected == generation)
    {
      ok := !closed && expected == generation;
    }

    /** The end of `close`: the device session is gone and takes no more frames. */
    method Shut()
      requires Valid()
      modifies this`closed
      ensures Valid() && closed
    {
      closed := true;
    }

    /** The executor waited, armed a timer, or asked for a screenshot. */
    method Note(op: Op)
      requires Valid()
      modifies this
      ensures Valid() && record == old(record) && barrier == old(barrier) && log == old(log) && closed == old(closed)
      ensures attempted == old(attempted) + [op] && Outcome() == old(Outcome())
    {
      attempted := attempted + [op];
    }
  }
}
