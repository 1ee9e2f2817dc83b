/**
`AwaitObservation` of `internal/video/pipeline.go` and the keyframe requests it shares with
the worker of `internal/video/live.go`. A waiter sees the pipeline once per wake-up; times
are nanoseconds, and zero is Go's zero time.
*/
module Await {
  import opened Basics
  import opened Rtp
  import opened PipelineSpec
  import S = SyncPush

  /** One wake-up of a waiter: its clock, its context, and the pipeline as it is then. */
  datatype Moment = Moment(now: nat, cancelled: bool, pipeline: State)

  /** What a pipeline goes through, live or synchronous, from its creation. */
  datatype History =
    | Live(generation: nat, limits: Limits, steps: seq<Step>)
    | Synchronous(generation: nat, limits: Limits, sync: seq<S.SyncStep>)
  {
    function Length(): nat { if Live? then |steps| else |sync| }

    function At(n: nat): State
      requires n <= Length()
    {
      if Live? then Run(Init(generation, limits), steps[..n]) else S.RunSync(Init(generation, limits), sync[..n])
    }
  }

  /** The waiter wakes up during one history, `times` counting how far it got. */
  ghost predicate Wakes(moments: seq<Moment>, h: History, times: seq<nat>) {
    && |times| == |moments|
    && (forall i :: 0 <= i < |moments| ==> times[i] <= h.Length() && moments[i].pipeline == h.At(times[i]))
  }

  /** What a caller asks for: a zero freshness means the default, `notBefore == 0` any time. */
  datatype Wish = Wish(generation: nat, freshness: int, notBefore: nat)

  datatype Request = Request(generation: nat, freshness: nat, notBefore: nat)

  function Resolved(w: Wish, defaultFreshness: nat): Request
    requires w.freshness >= 0
  {
    Request(w.generation, if w.freshness == 0 then defaultFreshness else w.freshness, w.notBefore)
  }

  datatype AwaitFailure = InvalidWish | WasCancelled | Closed | OtherGeneration | Unavailable | DecoderFailed | RequestFailed

  datatype Answer = Observed(frame: Latest) | Gone(failure: AwaitFailure) | StillWaiting

  /** The frame that satisfies a request at a moment. */
  predicate Satisfies(f: Latest, r: Request, now: nat) {
    f.receivedAt != 0 && r.notBefore <= f.receivedAt <= now && now - f.receivedAt <= r.freshness
  }

  /** What a waiter concludes from one moment, before any request for a keyframe. */
  function Conclude(r: Request, m: Moment, live: bool): Answer {
    var p := m.pipeline;
    if m.cancelled then Gone(WasCancelled)
    else if p.closed then Gone(Closed)
    else if r.generation != p.generation then Gone(OtherGeneration)
    else if live && p.cancelled then Gone(Unavailable)
    else if p.latest.Some? && Satisfies(p.latest.value, r, m.now) then Observed(p.latest.value)
    else if p.failedAt.Some? && r.notBefore <= p.failedAt.value then Gone(DecoderFailed)
    else StillWaiting
  }

  /** Whether a waiter that found nothing asks for a keyframe at all. */
  predicate Wants(r: Request, m: Moment, live: bool) {
    var p := m.pipeline;
    !live || (!p.worker.Ready? && !p.worker.Decoded? && p.queue == [] &&
      (!p.synced || p.latest.None? || (m.now >= p.latest.value.receivedAt && m.now - p.latest.value.receivedAt > r.freshness)))
  }

  // ------------------------------------------------------- keyframe requests

  /** A request and the reset it comes after: `era` counts the resets that succeeded before it. */
  datatype Sent = Sent(era: nat, at: nat)

  /** Two requests are closer than the interval only if a reset succeeded between them. */
  ghost predicate Spaced(sent: seq<Sent>, interval: nat) {
    forall i, j :: 0 <= i < j < |sent| ==> sent[i].era < sent[j].era || (sent[i].era == sent[j].era && sent[i].at + interval <= sent[j].at)
  }

  /** `lastPLI`, shared by the worker and every waiter under one mutex. */
  class KeyframeRequests {
    const interval: nat
    var last: Option<nat>
    ghost var era: nat
    ghost var sent: seq<Sent>

    ghost predicate Valid()
      reads this
    {
      && Spaced(sent, interval)
      && (forall i :: 0 <= i < |sent| ==> sent[i].era <= era)
      && (last.None? <==> sent == [] || sent[|sent| - 1].era < era)
      && (last.Some? ==> sent != [] && sent[|sent| - 1] == Sent(era, last.value))
    }

    constructor (interval: nat)
      ensures Valid() && this.interval == interval && sent == []
    {
      this.interval, last, era, sent := interval, None, 0, [];
    }

    /** A request is made when wanted and due; nobody else's request is repeated. */
    method Ask(wanted: bool, now: nat) returns (request: bool)
      requires Valid()
      modifies this
      ensures Valid() && era == old(era)
      ensures request <==> wanted && (old(last).None? || (now >= old(last).value && now - old(last).value >= interval))
      ensures sent == if request then old(sent) + [Sent(era, now)] else old(sent)
    {
      request := wanted && (last.None? || (now >= last.value && now - last.value >= interval));
      if request {
        last := Some(now);
        sent := sent + [Sent(era, now)];
      }
    }

    /** A `Reset` of the pipeline that succeeds forgets the last request, so the next one is due at once. */
    method Reset()
      requires Valid()
      modifies this
      ensures Valid() && era == old(era) + 1 && sent == old(sent) && last.None?
    {
      last, era := None, era + 1;
    }
  }

  /** The first moment that settles the request, if one does. */
  function FirstSettled(r: Request, moments: seq<Moment>, live: bool): (n: nat)
    ensures n <= |moments|
    ensures forall i :: 0 <= i < n ==> Conclude(r, moments[i], live) == StillWaiting
    ensures n < |moments| ==> Conclude(r, moments[n], live) != StillWaiting
    decreases |moments|
  {
    if moments == [] then 0
    else if Conclude(r, moments[0], live) != StillWaiting then 0
    else
      var n := FirstSettled(r, moments[1..], live);
      assert forall i :: 0 < i <= n && i < |moments| ==> moments[i] == moments[1..][i - 1];
      n + 1
  }

  /** Whatever a pipeline went through, what it shows is of its generation and chain. */
  lemma HistoryShowsCurrent(h: History, n: nat)
    requires n <= h.Length()
    ensures ShowsCurrent(h.At(n))
  {
    if h.Live? {
      ObservationsAreCurrent(h.generation, h.limits, h.steps[..n]);
    } else {
      S.SyncShowsCurrent(h.generation, h.limits, h.sync[..n]);
    }
  }

  /** `f` was published when the waiter looked, by a pipeline that was open and of the generation asked for. */
  ghost predicate SeenAt(m: Moment, f: Latest, w: Wish, live: bool) {
    && m.pipeline.latest == Some(f) && !m.pipeline.closed && !m.pipeline.resetting && !(live && m.pipeline.cancelled)
    && f.generation == m.pipeline.generation == w.generation && f.epoch == m.pipeline.chain
  }

  /**
  `AwaitObservation` over the moments of its wake-ups during any history of the pipeline: what it
  answers with is the frame then published, of the generation asked for and of the chain then current,
  and was received in time.
  */
  method AwaitObservation(w: Wish, defaultFreshness: nat, moments: seq<Moment>, live: bool, requests: KeyframeRequests,
                          hasRequester: bool, refuses: bool, ghost h: History, ghost times: seq<nat>)
    returns (a: Answer)
    requires requests.Valid() && live == h.Live? && Wakes(moments, h, times)
    modifies requests
    ensures requests.Valid()
    ensures w.freshness < 0 <==> a == Gone(InvalidWish)
    ensures w.freshness < 0 || !hasRequester ==> requests.sent == old(requests.sent)
    ensures a.Observed? ==> w.freshness >= 0 && exists i ::
      0 <= i < |moments| && SeenAt(moments[i], a.frame, w, live) && Satisfies(a.frame, Resolved(w, defaultFreshness), moments[i].now)
    ensures w.freshness >= 0 && a != Gone(RequestFailed) ==>
      var r := Resolved(w, defaultFreshness);
      var n := FirstSettled(r, moments, live);
      a == if n < |moments| then Conclude(r, moments[n], live) else StillWaiting
    ensures !refuses ==> a != Gone(RequestFailed)
  {
    hide Run, S.RunSync, Spaced, Satisfies, Wants;
    if w.freshness < 0 { return Gone(InvalidWish); }
    var r := Resolved(w, defaultFreshness);
    var n := FirstSettled(r, moments, live);
    for i := 0 to |moments|
      invariant requests.Valid() && i <= n
      invariant !hasRequester ==> requests.sent == old(requests.sent)
    {
      var m := moments[i];
      a := Conclude(r, m, live);
      if a != StillWaiting {
        HistoryShowsCurrent(h, times[i]);
        assert a.Observed? ==> SeenAt(moments[i], a.frame, w, live);
        return;
      }
      var request := requests.Ask(hasRequester && Wants(r, m, live), m.now);
      if request && refuses { return Gone(RequestFailed); }
    }
    a := StillWaiting;
  }

  /** The worker's turn without a unit: it asks while the chain is broken. */
  method RecoverIdle(requests: KeyframeRequests, synced: bool, resetting: bool, hasRequester: bool, now: nat) returns (request: bool)
    requires requests.Valid()
    modifies requests
    ensures requests.Valid() && (request ==> !synced && !resetting && hasRequester)
    ensures requests.sent == if request then old(requests.sent) + [Sent(requests.era, now)] else old(requests.sent)
  {
    request := requests.Ask(!synced && hasRequester && !resetting, now);
  }
}
