/**
Synchronous `Push` of `internal/video/pipeline.go`: receive and decode in one call. Unlike
the live worker it does not break the chain when the decoder fails, so the guarantee of
the live mode holds exactly as long as the decoder does not fail inside a chain.
*/
module SyncPush {
  import opened Basics
  import opened Rtp
  import D = DepacketizerSpec
  import opened PipelineSpec

  /** `receive` after the depacketizer emitted a unit, not live: nothing is queued. */
  function Accept(s1: State, u: AccessUnit): State {
    var logged := s1.(log := s1.log + [u.(serial := |s1.log|)]);
    var s := if u.discontinuity then Break(logged) else logged;
    if u.decodable && u.keyframe then s.(queue := [], queueBytes := 0, synced := true) else s
  }

  /** Whether the emitted unit goes on to the decoder. */
  predicate Passes(s: State, u: AccessUnit) { u.decodable && (u.keyframe || s.synced) }

  /** `decodeUnit`: a decoder reset when the chain changed, then the call. */
  function Feed(s: State, serial: nat, resetOk: bool, o: Output): State {
    if s.decoderChain != s.chain && !resetOk then s
    else
      var ready := if s.decoderChain == s.chain then s else s.(decoderChain := s.chain, trace := s.trace + [DecoderReset]);
      var fed := ready.(trace := ready.trace + [Decode(serial, !o.Failure?)]);
      if o.Frame? && o.generation == s.generation && o.fits && !(s.latest.Some? && SignedDifference(o.rtpTime, s.latest.value.rtpTime) < 0)
      then fed.(latest := Some(Latest(o.generation, o.rtpTime, s.chain, o.receivedAt))) else fed
  }

  /** `Push`. */
  function Push(s: State, p: RawPacket, resetOk: bool, o: Output): State {
    if s.closed || s.resetting then s
    else
      var r := D.Push(s.depacketizer, p);
      var s1 := s.(depacketizer := r.state);
      match r.outcome
      case Nothing => s1
      case Failed(e) => if e == GenerationMismatch then s1 else Break(s1)
      case Emitted(u) =>
        var t := Accept(s1, u);
        if Passes(t, u) then Feed(t, |s.log|, resetOk, o) else t
  }

  /** The last thing the decoder did was to decode a unit of the current chain. */
  predicate Current(s: State) {
    s.decoderChain == s.chain && s.trace != [] && s.trace[|s.trace| - 1].Decode? && s.trace[|s.trace| - 1].ok
  }

  /** Packets are taken. */
  predicate Running(s: State) { !s.closed && !s.resetting }

  /** Everything emitted since the last good decode continues it; there is no worker. */
  ghost predicate SyncInv(s: State) {
    && Assembling(s) && Sound(s.log, s.trace) && s.decoderChain <= s.chain && s.worker.Idle? && (s.resetting ==> !s.synced)
    && (!s.closed && s.synced && Current(s) ==> Open(s.log, s.trace[|s.trace| - 1].serial))
  }

  /** The packet completes a picture that needs the one before, and that one was not decoded. */
  predicate Risky(s: State, p: RawPacket) {
    var o := D.Push(s.depacketizer, p).outcome;
    Running(s) && o.Emitted? && o.unit.decodable && !o.unit.keyframe && !o.unit.discontinuity && s.synced && !Current(s)
  }

  /** Since the chain was established every unit of it was decoded. */
  predicate Healthy(s: State) { !s.closed && s.synced ==> Current(s) }

  lemma {:induction false} FeedSound(s: State, serial: nat, resetOk: bool, o: Output)
    requires Sound(s.log, s.trace) && serial < |s.log|
    requires s.log[serial].keyframe || (Current(s) && Follows(s.log, s.trace[|s.trace| - 1].serial, serial))
    ensures Sound(s.log, Feed(s, serial, resetOk, o).trace)
  {
    hide Follows;
    SoundStep(s.log, s.trace, DecoderReset);
    if s.decoderChain == s.chain {
      SoundStep(s.log, s.trace, Decode(serial, !o.Failure?));
    } else {
      SoundStep(s.log, s.trace + [DecoderReset], Decode(serial, !o.Failure?));
    }
  }

  lemma FeedTrace(s: State, serial: nat, resetOk: bool, o: Output)
    requires s.decoderChain == s.chain || resetOk
    ensures Feed(s, serial, resetOk, o).log == s.log
    ensures Feed(s, serial, resetOk, o).trace ==
      (if s.decoderChain == s.chain then s.trace else s.trace + [DecoderReset]) + [Decode(serial, !o.Failure?)]
  {
  }

  lemma FeedUnsound(s: State, serial: nat, resetOk: bool, o: Output)
    requires serial < |s.log| && !s.log[serial].keyframe && !Current(s) && (s.decoderChain == s.chain || resetOk)
    ensures !Sound(s.log, Feed(s, serial, resetOk, o).trace)
  {
    hide Follows, Feed;
    FeedTrace(s, serial, resetOk, o);
    var trace := Feed(s, serial, resetOk, o).trace;
    assert !Grounded(s.log, trace, |trace| - 1);
  }

  /** An emitted unit, admitted without a decision about the decoder yet. */
  lemma AcceptKeeps(s: State, s1: State, r: D.Pushed)
    requires SyncInv(s) && Running(s) && Advanced(s, s1, r) && r.outcome.Emitted?
    ensures
      var u, t := r.outcome.unit, Accept(s1, r.outcome.unit);
      && Assembling(t) && Sound(t.log, t.trace) && t.decoderChain <= t.chain && t.trace == s.trace && Running(t) && t.worker.Idle?
      && |t.log| == |s.log| + 1 && t.log[|s.log|].keyframe == u.keyframe && t.log[|s.log|].picture == u.picture
      && (!u.discontinuity && s.synced && Current(s) ==>
            Linked(t.log, s.trace[|s.trace| - 1].serial, |s.log|) && (!u.picture ==> Open(t.log, s.trace[|s.trace| - 1].serial)))
      && (s.synced && u.picture ==> u.decodable)
  {
    hide Sound, D.Buffered, D.PendingIsNew, Linked, Open;
    var u := r.outcome.unit;
    var v := u.(serial := |s.log|);
    SoundExtends(s.log, v, s.trace);
    if !u.discontinuity && s.synced && Current(s) {
      OpenLinks(s.log, v, s.trace[|s.trace| - 1].serial);
    }
  }

  /**
  One synchronous push, from any state: it leaves everything decoded so far sound, unless it
  feeds a picture whose reference was not decoded, and then it does not.
  */
  lemma PushSoundIffNotRisky(s: State, p: RawPacket, resetOk: bool, o: Output)
    requires SyncInv(s)
    ensures var t := Push(s, p, resetOk, o);
      && (Sound(t.log, t.trace) <==> !(Risky(s, p) && (s.decoderChain == s.chain || resetOk)))
      && (!Risky(s, p) ==> SyncInv(t))
  {
    hide Sound, Assembling, D.Push, D.Buffered, D.PendingIsNew, D.ParameterSetsKept, D.Continues, Linked, Open, Accept;
    if Running(s) {
      PushAdvances(s, p) by { assert SyncInv(s); }
      var r := D.Push(s.depacketizer, p);
      var s1 := s.(depacketizer := r.state);
      if r.outcome.Emitted? {
        EmittedPush(s, s1, r, resetOk, o);
      } else {
        QuietPush(s, s1, r);
      }
    }
  }

  lemma QuietPush(s: State, s1: State, r: D.Pushed)
    requires SyncInv(s) && Running(s) && Advanced(s, s1, r) && !r.outcome.Emitted?
    ensures SyncInv(s1) && SyncInv(Break(s1))
  {
    hide Sound, D.Buffered, D.PendingIsNew, Open;
  }

  lemma EmittedPush(s: State, s1: State, r: D.Pushed, resetOk: bool, o: Output)
    requires SyncInv(s) && Running(s) && Advanced(s, s1, r) && r.outcome.Emitted?
    ensures
      var u, t := r.outcome.unit, Accept(s1, r.outcome.unit);
      var w := if Passes(t, u) then Feed(t, |s.log|, resetOk, o) else t;
      var risky := u.decodable && !u.keyframe && !u.discontinuity && s.synced && !Current(s);
      && (Sound(w.log, w.trace) <==> !(risky && (s.decoderChain == s.chain || resetOk)))
      && (!risky ==> SyncInv(w))
  {
    hide Sound, Open, Follows;
    var u, t := r.outcome.unit, Accept(s1, r.outcome.unit);
    AcceptKeeps(s, s1, r);
    if Passes(t, u) {
      if !u.keyframe && !Current(s) {
        if s.decoderChain == s.chain || resetOk { FeedUnsound(t, |s.log|, resetOk, o); }
      } else {
        FeedSound(t, |s.log|, resetOk, o);
        OpenAtEnd(t.log, |s.log|);
      }
    }
  }

  lemma OpenAtEnd(log: seq<AccessUnit>, i: nat)
    requires |log| == i + 1
    ensures Open(log, i)
  {
  }

  /** The packet completes a unit that goes to the decoder. */
  predicate Feeds(s: State, p: RawPacket) {
    var o := D.Push(s.depacketizer, p).outcome;
    Running(s) && o.Emitted? && o.unit.decodable && (o.unit.keyframe || (s.synced && !o.unit.discontinuity))
  }

  /** While the decoder works, the state stays healthy; one failed call inside a chain ends that. */
  lemma PushHealth(s: State, p: RawPacket, resetOk: bool, o: Output)
    requires SyncInv(s) && Healthy(s)
    ensures !Risky(s, p) && SyncInv(Push(s, p, resetOk, o))
    ensures resetOk && !o.Failure? ==> Healthy(Push(s, p, resetOk, o))
    ensures Feeds(s, p) && o.Failure? ==> !Healthy(Push(s, p, resetOk, o))
  {
    hide Sound, Assembling, Open, D.Push;
    PushSoundIffNotRisky(s, p, resetOk, o);
  }

  // ------------------------------------------------------------ whole runs

  /** `receive` alone: the first half of a push, after which a reset or a close got in first. */
  function Receive(s: State, p: RawPacket): State {
    if s.closed || s.resetting then s
    else
      var r := D.Push(s.depacketizer, p);
      var s1 := s.(depacketizer := r.state);
      match r.outcome
      case Nothing => s1
      case Failed(e) => if e == GenerationMismatch then s1 else Break(s1)
      case Emitted(u) => Accept(s1, u)
  }

  /** Everything that may happen to a synchronous pipeline. The `Cut` steps come between the halves of a push. */
  datatype SyncStep =
    | Pushing(packet: RawPacket, resetOk: bool, output: Output)
    | Resetting(generation: nat) | CutByReset(packet: RawPacket, generation: nat) | ResetDone(ok: bool)
    | Closing | CutByClose(packet: RawPacket)

  function Step(s: State, step: SyncStep): State {
    match step
    case Pushing(p, resetOk, o) => Push(s, p, resetOk, o)
    case Resetting(g) => BeginReset(s, g)
    case CutByReset(p, g) => if s.resetting || g == 0 || g == s.generation then s else BeginReset(Receive(s, p), g)
    case ResetDone(ok) => EndReset(s, ok)
    case Closing => Close(s)
    case CutByClose(p) => if s.resetting then s else Close(Receive(s, p))
  }

  function RunSync(s: State, steps: seq<SyncStep>): State
    decreases |steps|
  {
    if steps == [] then s else RunSync(Step(s, steps[0]), steps[1..])
  }

  /** A push whose unit is not decoded, and then is not to be: still sound, nothing continues it but a keyframe. */
  lemma ReceiveSound(s: State, p: RawPacket)
    requires SyncInv(s)
    ensures var t := Receive(s, p);
      && Assembling(t) && Sound(t.log, t.trace) && t.decoderChain <= t.chain && t.worker.Idle?
      && t.closed == s.closed && t.resetting == s.resetting && t.generation == s.generation && (t.resetting ==> !t.synced)
  {
    hide Sound, Assembling, D.Push, D.Buffered, D.PendingIsNew, D.ParameterSetsKept, D.Continues, Linked, Open, Accept;
    if Running(s) {
      PushAdvances(s, p) by { assert SyncInv(s); }
      var r := D.Push(s.depacketizer, p);
      var s1 := s.(depacketizer := r.state);
      if r.outcome.Emitted? {
        AcceptKeeps(s, s1, r);
        AcceptFrame(s1, r.outcome.unit);
      } else {
        QuietPush(s, s1, r);
      }
    }
  }

  lemma AcceptFrame(s1: State, u: AccessUnit)
    ensures var t := Accept(s1, u); t.generation == s1.generation && t.closed == s1.closed && t.resetting == s1.resetting
  {
  }

  lemma BeginResetSync(s: State, generation: nat)
    requires Assembling(s) && Sound(s.log, s.trace) && s.decoderChain <= s.chain && s.worker.Idle? && (s.resetting ==> !s.synced)
    requires BeginReset(s, generation) != s
    ensures SyncInv(BeginReset(s, generation)) && Healthy(BeginReset(s, generation))
  {
    hide Sound, D.Buffered, D.PendingIsNew, Open;
  }

  lemma CloseSync(s: State)
    requires Assembling(s) && Sound(s.log, s.trace) && s.decoderChain <= s.chain && s.worker.Idle? && (s.resetting ==> !s.synced)
    requires !s.resetting
    ensures SyncInv(Close(s)) && Healthy(Close(s))
  {
    hide Sound, D.Buffered, D.PendingIsNew, Open;
  }

  lemma EndResetSync(s: State, ok: bool)
    requires SyncInv(s) && s.resetting
    ensures SyncInv(EndReset(s, ok)) && Healthy(EndReset(s, ok))
  {
    hide Sound, Assembling, Open;
    EndResetAssembling(s, ok);
    SoundStep(s.log, s.trace, DecoderReset);
  }

  /** The decoder does what it is asked to. */
  predicate Works(step: SyncStep) { step.Pushing? ==> step.resetOk && !step.output.Failure? }

  lemma StepHealth(s: State, step: SyncStep)
    requires SyncInv(s) && Healthy(s)
    ensures SyncInv(Step(s, step)) && (Works(step) ==> Healthy(Step(s, step)))
  {
    hide Sound, Assembling, Open, Push, Receive, EndReset, D.Push, Risky;
    match step
    case Pushing(p, resetOk, o) => PushHealth(s, p, resetOk, o);
    case Resetting(g) => if BeginReset(s, g) != s { BeginResetSync(s, g); }
    case CutByReset(p, g) =>
      ReceiveSound(s, p);
      if BeginReset(Receive(s, p), g) != Receive(s, p) { BeginResetSync(Receive(s, p), g); } else { ReceiveClosed(s, p); }
    case ResetDone(ok) => if s.resetting { EndResetSync(s, ok); } else { NoReset(s, ok); }
    case Closing => if !s.resetting { CloseSync(s); }
    case CutByClose(p) =>
      ReceiveSound(s, p);
      if !s.resetting { CloseSync(Receive(s, p)); }
  }

  lemma ReceiveClosed(s: State, p: RawPacket)
    ensures s.closed ==> Receive(s, p) == s
    ensures Receive(s, p).closed == s.closed && Receive(s, p).resetting == s.resetting && Receive(s, p).generation == s.generation
  {
    hide D.Push;
  }

  lemma NoReset(s: State, ok: bool)
    ensures !s.resetting ==> EndReset(s, ok) == s
  {
  }

  /**
  With a decoder that never fails, no synchronous run decodes on broken references: pushes, resets
  and a close in any order, also in the middle of a push.
  */
  lemma {:induction false} SyncRunSound(s: State, steps: seq<SyncStep>)
    requires SyncInv(s) && Healthy(s)
    requires forall i :: 0 <= i < |steps| ==> Works(steps[i])
    ensures var t := RunSync(s, steps); Sound(t.log, t.trace) && Healthy(t)
    decreases |steps|
  {
    hide Step, Sound, Assembling, Healthy, Current, Open, Works;
    if steps != [] {
      StepHealth(s, steps[0]);
      assert Works(steps[0]) && forall i :: 0 <= i < |steps[1..]| ==> Works(steps[1..][i]);
      SyncRunSound(Step(s, steps[0]), steps[1..]);
    }
  }

  // ------------------------------------------------------- what it shows

  lemma FeedShowsCurrent(s: State, serial: nat, resetOk: bool, o: Output)
    requires ShowsCurrent(s) && !s.resetting
    ensures ShowsCurrent(Feed(s, serial, resetOk, o))
  {
  }

  lemma PushShowsCurrent(s: State, p: RawPacket, resetOk: bool, o: Output)
    requires ShowsCurrent(s)
    ensures ShowsCurrent(Push(s, p, resetOk, o)) && ShowsCurrent(Receive(s, p))
  {
    hide D.Push, Feed;
    if !s.closed && !s.resetting {
      var r := D.Push(s.depacketizer, p);
      if r.outcome.Emitted? {
        FeedShowsCurrent(Accept(s.(depacketizer := r.state), r.outcome.unit), |s.log|, resetOk, o);
      }
    }
  }

  lemma StepShowsCurrent(s: State, step: SyncStep)
    requires ShowsCurrent(s)
    ensures ShowsCurrent(Step(s, step))
  {
    hide D.Push, Push, Receive;
    match step
    case Pushing(p, resetOk, o) => PushShowsCurrent(s, p, resetOk, o);
    case CutByReset(p, g) => PushShowsCurrent(s, p, true, Buffering);
    case CutByClose(p) => PushShowsCurrent(s, p, true, Buffering);
    case _ =>
  }

  lemma {:induction false} RunShowsCurrent(s: State, steps: seq<SyncStep>)
    requires ShowsCurrent(s)
    ensures ShowsCurrent(RunSync(s, steps))
    decreases |steps|
  {
    hide Step, ShowsCurrent;
    if steps != [] {
      StepShowsCurrent(s, steps[0]);
      RunShowsCurrent(Step(s, steps[0]), steps[1..]);
    }
  }

  /** A break, a reset and a new generation withdraw the published frame in synchronous mode too. */
  lemma SyncShowsCurrent(generation: nat, limits: Limits, steps: seq<SyncStep>)
    ensures ShowsCurrent(RunSync(Init(generation, limits), steps))
  {
    RunShowsCurrent(Init(generation, limits), steps);
  }

  lemma InitIsHealthy(generation: nat, limits: Limits)
    ensures SyncInv(Init(generation, limits)) && Healthy(Init(generation, limits))
  {
  }
}
