/**
`Pipeline` of `internal/video/pipeline.go` with the worker of `internal/video/live.go`,
in place. Each method is one critical section, and computes the step of
`PipelineSpec` of the same name. `log` and `trace` only record the run.
*/
module Pipelines {
  import opened Basics
  import opened Rtp
  import D = DepacketizerSpec
  import Depacketization
  import S = PipelineSpec

  class Pipeline {
    const depacketizer: Depacketization.Depacketizer
    var generation: nat
    var next: nat
    var pending: seq<AccessUnit>
    var pendingBytes: int
    var chain: nat
    var synced: bool
    var decoderChain: nat
    var resetting: bool
    var closed: bool
    var cancelled: bool
    var latest: Option<S.Latest>
    var failedAt: Option<nat>
    var worker: S.Worker
    var log: seq<AccessUnit>
    ghost var trace: seq<S.Event>

    ghost function View(): S.State
      reads this, depacketizer
    {
      S.State(generation, next, depacketizer.View(), pending, pendingBytes, chain, synced, decoderChain,
              resetting, closed, cancelled, latest, failedAt, worker, log, trace)
    }

    /** `NewPipeline` after its argument checks, and `StartLive`. */
    constructor (generation: nat, limits: Limits)
      ensures View() == S.Init(generation, limits) && fresh(depacketizer)
    {
      depacketizer := new Depacketization.Depacketizer(generation, limits);
      this.generation, next, pending, pendingBytes := generation, 0, [], 0;
      chain, synced, decoderChain := 1, false, 1;
      resetting, closed, cancelled := false, false, false;
      latest, failedAt, worker, log, trace := None, None, S.Idle, [], [];
    }

    method BreakChain()
      modifies this
      ensures View() == S.Break(old(View()))
    {
      chain := chain + 1;
      synced := false;
      pending := [];
      pendingBytes := 0;
      latest := None;
    }

    /** `receive` in live mode; the caller learns why a packet led to no queued unit. */
    method PushLive(packet: RawPacket) returns (error: Option<VideoError>)
      modifies this, depacketizer
      ensures View() == S.Receive(old(View()), packet)
      ensures error.None? && |log| > |old(log)| ==> |pending| > 0 && pending[|pending| - 1].serial == |old(log)|
    {
      hide D.Push;
      if closed {
        return Some(PipelineClosed);
      }
      if resetting || cancelled {
        return Some(VideoUnavailable);
      }
      var outcome := depacketizer.Push(packet);
      match outcome
      case Failed(e) =>
        if e != GenerationMismatch {
          BreakChain();
        }
        return Some(e);
      case Nothing =>
        return None;
      case Emitted(u) =>
        error := Admit(u);
    }

    method Admit(u: AccessUnit) returns (error: Option<VideoError>)
      modifies this
      ensures View() == S.Admit(old(View()), u)
      ensures error.None? ==> |pending| > 0 && pending[|pending| - 1].serial == |old(log)|
    {
      hide S.Sort, S.Break;
      var serial := |log|;
      log := log + [u.(serial := serial)];
      if u.discontinuity {
        BreakChain();
      }
      error := Sort(u, serial);
    }

    /** The rest of `receive`, once the unit is numbered and a discontinuity has broken the chain. */
    method Sort(u: AccessUnit, serial: nat) returns (error: Option<VideoError>)
      modifies this
      ensures View() == S.Sort(old(View()), u, serial)
      ensures error.None? ==> |pending| > 0 && pending[|pending| - 1].serial == serial
    {
      if !u.decodable {
        return Some(VideoUnavailable);
      }
      if u.keyframe {
        pending := [];
        pendingBytes := 0;
        synced := true;
      } else if !synced {
        return Some(VideoUnavailable);
      }
      if |pending| >= S.QUEUE_UNITS || pendingBytes + |u.annexB| > depacketizer.limits.maxUnitBytes {
        BreakChain();
        return Some(VideoUnavailable);
      }
      pending := pending + [u.(serial := serial, chain := chain)];
      pendingBytes := pendingBytes + |u.annexB|;
      error := None;
    }

    /** The worker takes the oldest unit. */
    method Pop()
      modifies this
      ensures View() == S.Pop(old(View()))
    {
      if !worker.Idle? || closed || cancelled {
        return;
      }
      if !resetting && |pending| > 0 {
        var unit := pending[0];
        pending := pending[1..];
        pendingBytes := pendingBytes - |unit.annexB|;
        worker := S.Popped(unit);
      }
    }

    /** `decodeUnit` up to the decoder. */
    method BeginDecode()
      modifies this
      ensures View() == S.Begin(old(View()))
    {
      if !worker.Popped? {
        return;
      }
      var unit := worker.unit;
      if closed || resetting || unit.generation != generation || unit.chain != chain {
        worker := S.Reporting(unit, true);
        return;
      }
      worker := S.Ready(unit, chain);
    }

    /** The decoder is reset when it last served another chain; `ok` is its answer. */
    method ResetDecoder(ok: bool)
      modifies this
      ensures View() == S.ResetDecoder(old(View()), ok)
    {
      if worker.Ready? && decoderChain != worker.epoch {
        if ok {
          decoderChain := worker.epoch;
          trace := trace + [S.DecoderReset];
        } else {
          worker := S.Reporting(worker.unit, true);
        }
      }
    }

    /** The decoder call; `output` is its answer. */
    method CallDecoder(output: S.Output)
      modifies this
      ensures View() == S.CallDecoder(old(View()), output)
    {
      if worker.Ready? && decoderChain == worker.epoch {
        trace := trace + [S.Decode(worker.unit.serial, !output.Failure?)];
        worker := S.Decoded(worker.unit, worker.epoch, output);
      }
    }

    /** `decodeUnit` after the decoder: fences, checks, publication. */
    method FinishDecode()
      modifies this
      ensures View() == S.Publish(old(View()))
    {
      if !worker.Decoded? {
        return;
      }
      var unit, epoch, output := worker.unit, worker.epoch, worker.output;
      worker := S.Reporting(unit, true);
      if closed || resetting || unit.generation != generation || epoch != chain || output.Failure? {
        return;
      }
      if output.Buffering? {
        worker := S.Reporting(unit, false);
        return;
      }
      if output.generation != generation || !output.fits {
        return;
      }
      worker := S.Reporting(unit, false);
      if latest.Some? && SignedDifference(output.rtpTime, latest.value.rtpTime) < 0 {
        return;
      }
      latest := Some(S.Latest(output.generation, output.rtpTime, chain, output.receivedAt));
    }

    /** The end of the worker's turn: a failure of the current chain breaks it. */
    method Settle()
      modifies this
      ensures View() == S.Report(old(View()))
    {
      if !worker.Reporting? {
        return;
      }
      var unit, failed := worker.unit, worker.failed;
      worker := S.Idle;
      if !closed && !resetting && unit.generation == generation && unit.chain == chain {
        if failed {
          failedAt := Some(unit.receivedAt);
          BreakChain();
        } else {
          failedAt := None;
        }
      }
    }

    method Exit()
      modifies this
      ensures View() == S.Exit(old(View()))
    {
      if worker.Idle? && (closed || cancelled) {
        pending := [];
        pendingBytes := 0;
      }
    }

    method BeginReset(target: nat) returns (error: Option<VideoError>)
      modifies this
      ensures View() == S.BeginReset(old(View()), target)
      ensures error.None? <==> !old(closed) && !old(resetting) && target != 0 && target != old(generation)
    {
      if closed {
        return Some(PipelineClosed);
      }
      if resetting || target == 0 || target == generation {
        return Some(InvalidConfig);
      }
      resetting := true;
      next := target;
      failedAt := None;
      BreakChain();
      error := None;
    }

    /** The rest of `Reset`, once the worker is out of the decoder; `ok` is the decoder's answer. */
    method EndReset(ok: bool)
      requires resetting ==> next != 0
      modifies this, depacketizer
      ensures View() == S.EndReset(old(View()), ok)
    {
      if !resetting || worker.Ready? || worker.Decoded? {
        return;
      }
      resetting := false;
      if !ok {
        return;
      }
      trace := trace + [S.DecoderReset];
      var done := depacketizer.Reset(next);
      generation := next;
      latest := None;
    }

    method Close()
      modifies this
      ensures View() == S.Close(old(View()))
    {
      if resetting {
        return;
      }
      closed := true;
      cancelled := true;
      pending := [];
      pendingBytes := 0;
    }
  }
}
