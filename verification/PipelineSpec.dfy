/**
The live pipeline of `internal/video/pipeline.go` and `internal/video/live.go` as a
state machine. Each step is one critical section of the source, or one call into
the decoder, which is an oracle that may fail. The theorem: in every run, no
picture is decoded on broken references.
*/
module PipelineSpec {
  import opened Basics
  import opened Rtp
  import D = DepacketizerSpec

  /** What one call of the decoder yields; `fits` covers image, size and identifier checks. */
  datatype Output = Failure | Buffering | Frame(generation: nat, rtpTime: Time32, receivedAt: nat, fits: bool)

  /** Where the only worker is. From `Ready` to `Decoded` it holds `pushMu`. */
  datatype Worker =
    | Idle
    | Popped(unit: AccessUnit)
    | Ready(unit: AccessUnit, epoch: nat)
    | Decoded(unit: AccessUnit, epoch: nat, output: Output)
    | Reporting(unit: AccessUnit, failed: bool)

  datatype Latest = Latest(generation: nat, rtpTime: Time32, epoch: nat, receivedAt: nat)

  /** What the decoder has seen. */
  datatype Event = DecoderReset | Decode(serial: nat, ok: bool)

  /** `log` and `trace` record the run; the other fields are the pipeline's. `failedAt` is `liveErrorAt`, if there is a `liveError`. */
  datatype State = State(
    generation: nat, next: nat, depacketizer: D.State, queue: seq<AccessUnit>, queueBytes: int,
    chain: nat, synced: bool, decoderChain: nat, resetting: bool, closed: bool, cancelled: bool,
    latest: Option<Latest>, failedAt: Option<nat>, worker: Worker, log: seq<AccessUnit>, trace: seq<Event>)

  function Init(generation: nat, limits: Limits): State {
    State(generation, 0, D.State(generation, limits, None, [], [], 0, 0, false, false), [], 0,
          1, false, 1, false, false, false, None, None, Idle, [], [])
  }

  // ------------------------------------------------------------------ steps

  const QUEUE_UNITS := 32

  function Break(s: State): State {
    s.(chain := s.chain + 1, synced := false, queue := [], queueBytes := 0, latest := None)
  }

  /** `receive` after the depacketizer emitted a unit. */
  function Admit(s0: State, u: AccessUnit): State {
    var logged := s0.(log := s0.log + [u.(serial := |s0.log|)]);
    Sort(if u.discontinuity then Break(logged) else logged, u, |s0.log|)
  }

  /** A unit that cannot be decoded is dropped, and one that does not fit breaks the chain. */
  function Sort(s: State, u: AccessUnit, serial: nat): State {
    if !u.decodable || (!u.keyframe && !s.synced) then s
    else
      var t := if u.keyframe then s.(queue := [], queueBytes := 0, synced := true) else s;
      if |t.queue| >= QUEUE_UNITS || t.queueBytes + |u.annexB| > s.depacketizer.limits.maxUnitBytes then Break(t)
      else t.(queue := t.queue + [u.(serial := serial, chain := t.chain)], queueBytes := t.queueBytes + |u.annexB|)
  }

  function Receive(s: State, p: RawPacket): State {
    if s.closed || s.resetting || s.cancelled then s
    else
      var r := D.Push(s.depacketizer, p);
      var s1 := s.(depacketizer := r.state);
      match r.outcome
      case Nothing => s1
      case Failed(e) => if e == GenerationMismatch then s1 else Break(s1)
      case Emitted(u) => Admit(s1, u)
  }

  /** The worker takes the oldest unit. */
  function Pop(s: State): State {
    if !s.worker.Idle? || s.closed || s.cancelled || s.resetting || s.queue == [] then s
    else s.(worker := Popped(s.queue[0]), queue := s.queue[1..],
            queueBytes := s.queueBytes - |s.queue[0].annexB|)
  }

  /** The checks of `decodeUnit` before the decoder is touched. */
  function Begin(s: State): State {
    if !s.worker.Popped? then s
    else
      var u := s.worker.unit;
      if s.closed || s.resetting || u.generation != s.generation || u.chain != s.chain
      then s.(worker := Reporting(u, true)) else s.(worker := Ready(u, s.chain))
  }

  function ResetDecoder(s: State, ok: bool): State {
    if !s.worker.Ready? || s.decoderChain == s.worker.epoch then s
    else if ok then s.(decoderChain := s.worker.epoch, trace := s.trace + [DecoderReset])
    else s.(worker := Reporting(s.worker.unit, true))
  }

  function CallDecoder(s: State, o: Output): State {
    if !s.worker.Ready? || s.decoderChain != s.worker.epoch then s
    else s.(worker := Decoded(s.worker.unit, s.worker.epoch, o), trace := s.trace + [Decode(s.worker.unit.serial, !o.Failure?)])
  }

  /** The checks after decoding, and publication. */
  function Publish(s: State): State {
    if !s.worker.Decoded? then s
    else
      var u, o := s.worker.unit, s.worker.output;
      if || s.closed || s.resetting || u.generation != s.generation || s.worker.epoch != s.chain || o.Failure?
         || (o.Frame? && (o.generation != s.generation || !o.fits))
      then s.(worker := Reporting(u, true))
      else if o.Buffering? || (s.latest.Some? && SignedDifference(o.rtpTime, s.latest.value.rtpTime) < 0)
      then s.(worker := Reporting(u, false))
      else s.(worker := Reporting(u, false), latest := Some(Latest(o.generation, o.rtpTime, s.chain, o.receivedAt)))
  }

  /** The unit reported on is still of the current generation and chain. */
  predicate Concerns(s: State, u: AccessUnit) {
    !s.closed && !s.resetting && u.generation == s.generation && u.chain == s.chain
  }

  function Idled(s: State): State
    requires s.worker.Reporting?
  {
    var u := s.worker.unit;
    s.(worker := Idle, failedAt := if !Concerns(s, u) then s.failedAt else if s.worker.failed then Some(u.receivedAt) else None)
  }

  /** The worker's own bookkeeping after a unit. */
  function Report(s: State): State {
    if !s.worker.Reporting? then s
    else if Concerns(s, s.worker.unit) && s.worker.failed then Break(Idled(s))
    else Idled(s)
  }

  /** The worker leaves: what is queued is dropped. */
  function Exit(s: State): State {
    if s.worker.Idle? && (s.closed || s.cancelled) then s.(queue := [], queueBytes := 0) else s
  }

  /** First critical section of `Reset`. Resets and `Close` exclude one another. */
  function BeginReset(s: State, generation: nat): State {
    if s.closed || s.resetting || generation == 0 || generation == s.generation then s
    else Break(s).(resetting := true, next := generation, failedAt := None)
  }

  /** Second part of `Reset`, under `pushMu`: not while the worker is inside the decoder. */
  function EndReset(s: State, ok: bool): State {
    if !s.resetting || s.worker.Ready? || s.worker.Decoded? then s
    else if !ok then s.(resetting := false)
    else s.(resetting := false, generation := s.next, latest := None, trace := s.trace + [DecoderReset],
            depacketizer := s.depacketizer.(generation := s.next, pending := None, sps := [], pps := [], haveLast := false, discontinuity := false))
  }

  function Close(s: State): State {
    if s.resetting then s else s.(closed := true, cancelled := true, queue := [], queueBytes := 0)
  }

  datatype Step =
    | Packet(packet: RawPacket) | Take | Enter | DecoderResets(ok: bool) | DecoderRuns(output: Output)
    | Finish | Settle | Leave | StartReset(generation: nat) | FinishReset(ok: bool) | Shut | Cancel

  function Apply(s: State, step: Step): State {
    match step
    case Packet(p) => Receive(s, p)
    case Take => Pop(s)
    case Enter => Begin(s)
    case DecoderResets(ok) => ResetDecoder(s, ok)
    case DecoderRuns(o) => CallDecoder(s, o)
    case Finish => Publish(s)
    case Settle => Report(s)
    case Leave => Exit(s)
    case StartReset(g) => BeginReset(s, g)
    case FinishReset(ok) => EndReset(s, ok)
    case Shut => Close(s)
    case Cancel => s.(cancelled := true)
  }

  function Run(s: State, steps: seq<Step>): State
    decreases |steps|
  {
    if steps == [] then s else Run(Apply(s, steps[0]), steps[1..])
  }

  // ------------------------------------------------------------- references

  /** No RTP sequence number was missed from unit `i` to unit `j`, and no picture lies between. */
  ghost predicate Follows(log: seq<AccessUnit>, i: nat, j: nat) {
    && i < j < |log|
    && (forall k :: i < k <= j ==> log[k].firstSequence == NextSequence(log[k - 1].lastSequence))
    && (forall k :: i < k < j ==> !log[k].picture)
  }

  /** `j` can be decoded right after `i`. */
  ghost predicate Linked(log: seq<AccessUnit>, i: nat, j: nat) {
    j < |log| && (log[j].keyframe || Follows(log, i, j))
  }

  /** Event `n` gives the decoder a keyframe, or directly continues the unit decoded just before. */
  ghost predicate Grounded(log: seq<AccessUnit>, trace: seq<Event>, n: nat)
    requires n < |trace|
  {
    trace[n].Decode? ==>
      && trace[n].serial < |log|
      && (log[trace[n].serial].keyframe
          || (n > 0 && trace[n - 1].Decode? && trace[n - 1].ok && Follows(log, trace[n - 1].serial, trace[n].serial)))
  }

  /**
  Each unit given to the decoder is a keyframe, or directly continues the unit
  decoded before it without a reset and without an error in between.
  */
  ghost predicate Sound(log: seq<AccessUnit>, trace: seq<Event>) {
    forall n :: 0 <= n < |trace| ==> Grounded(log, trace, n)
  }

  function TotalBytes(units: seq<AccessUnit>): nat {
    if units == [] then 0 else |units[0].annexB| + TotalBytes(units[1..])
  }

  // -------------------------------------------------------------- invariant

  /** The depacketizer, its parameter sets and the log agree. */
  ghost predicate Assembling(s: State) {
    && D.Buffered(s.depacketizer) && D.PendingIsNew(s.depacketizer)
    && s.depacketizer.generation == s.generation
    && (s.depacketizer.haveLast ==> s.log != [] && s.log[|s.log| - 1].lastSequence == s.depacketizer.lastSequence)
    && (s.synced ==> s.depacketizer.sps != [] && s.depacketizer.pps != [] && s.depacketizer.haveLast)
  }

  /** The queue is accounted for and bounded; every unit in it is of this chain. */
  ghost predicate Accounted(s: State) {
    && s.queueBytes == TotalBytes(s.queue) <= s.depacketizer.limits.maxUnitBytes
    && |s.queue| <= QUEUE_UNITS
    && (s.resetting ==> s.queue == [] && !s.synced && s.latest.None? && s.next != 0 && !s.closed)
    && (s.latest.Some? ==> s.latest.value.epoch == s.chain && s.latest.value.generation == s.generation)
  }

  ghost predicate OfChain(s: State, u: AccessUnit) {
    && u.serial < |s.log| && u.chain <= s.chain
    && (u.chain == s.chain ==> u.generation == s.generation)
  }

  ghost function LastDecode(s: State): seq<nat> {
    if s.decoderChain == s.chain && s.trace != [] && s.trace[|s.trace| - 1].Decode? then [s.trace[|s.trace| - 1].serial] else []
  }

  ghost function InFlight(s: State): seq<nat> {
    if && (s.worker.Popped? || s.worker.Ready? || (s.worker.Reporting? && s.worker.failed && LastDecode(s) == []))
       && s.worker.unit.chain == s.chain
    then [s.worker.unit.serial] else []
  }

  ghost function Serials(units: seq<AccessUnit>): (r: seq<nat>)
    ensures |r| == |units| && forall i :: 0 <= i < |r| ==> r[i] == units[i].serial
  {
    seq(|units|, i requires 0 <= i < |units| => units[i].serial)
  }

  /** Last decoded, in flight, queued: the units of the current chain in decoding order. */
  ghost function Line(s: State): seq<nat> { LastDecode(s) + InFlight(s) + Serials(s.queue) }

  ghost predicate LineLinked(log: seq<AccessUnit>, line: seq<nat>) {
    && (forall n :: 0 <= n < |line| ==> line[n] < |log|)
    && (forall n :: 0 < n < |line| ==> Linked(log, line[n - 1], line[n]))
  }

  /** Everything emitted after unit `i` continues it without a picture. */
  ghost predicate Open(log: seq<AccessUnit>, i: nat) {
    && i < |log|
    && (forall k :: i < k < |log| ==> log[k].firstSequence == NextSequence(log[k - 1].lastSequence) && !log[k].picture)
  }

  ghost predicate Chained(s: State) {
    && s.decoderChain <= s.chain
    && (forall u :: u in s.queue ==> OfChain(s, u) && u.chain == s.chain)
    && LineLinked(s.log, Line(s))
    && (LastDecode(s) == [] && Line(s) != [] ==> s.log[Line(s)[0]].keyframe)
  }

  ghost predicate Ordered(s: State) {
    && Chained(s)
    && (s.synced && !s.cancelled ==> Line(s) != [] && Open(s.log, Line(s)[|Line(s)| - 1]))
    && (!s.synced ==> Line(s) == [])
  }

  /** The unit about to be decoded may be decoded now, whatever happens to the chain. */
  ghost predicate Justified(s: State, u: AccessUnit, epoch: nat) {
    && u.serial < |s.log| && u.chain == epoch
    && (s.log[u.serial].keyframe
        || (&& s.decoderChain == epoch && s.trace != []
            && s.trace[|s.trace| - 1].Decode? && s.trace[|s.trace| - 1].ok
            && Follows(s.log, s.trace[|s.trace| - 1].serial, u.serial)))
  }

  ghost predicate Working(s: State) {
    && (!s.worker.Idle? ==> OfChain(s, s.worker.unit))
    && (s.resetting && !s.worker.Idle? ==> s.worker.unit.chain < s.chain)
    && (s.worker.Ready? ==> Justified(s, s.worker.unit, s.worker.epoch) && s.decoderChain <= s.worker.epoch)
    && (s.worker.Decoded? ==> s.worker.epoch == s.worker.unit.chain && (s.worker.epoch == s.chain ==> LastDecode(s) != []))
    // A failed decode of the current chain is still being reported, unless nothing runs any more.
    && (LastDecode(s) != [] && !s.trace[|s.trace| - 1].ok && !s.closed ==>
          && (s.worker.Decoded? || s.worker.Reporting?)
          && s.worker.unit.chain == s.chain
          && (s.worker.Decoded? ==> s.worker.output.Failure?)
          && (s.worker.Reporting? ==> s.worker.failed))
  }

  ghost predicate Inv(s: State) {
    Assembling(s) && Accounted(s) && (!s.closed ==> Ordered(s)) && Working(s) && Sound(s.log, s.trace)
  }

  // ------------------------------------------------------- steps keep it all

  lemma InitKeeps(generation: nat, limits: Limits)
    ensures Inv(Init(generation, limits))
  {
  }

  /** After a break nothing of the old chain can reach the decoder through the new one. */
  lemma BreakKeeps(s: State)
    requires Assembling(s) && D.Buffered(s.depacketizer) && s.decoderChain <= s.chain && Working(s) && Sound(s.log, s.trace)
    requires !s.resetting && !s.closed
    ensures Inv(Break(s)) && Line(Break(s)) == []
  {
  }

  lemma {:induction false} TotalBytesAppend(units: seq<AccessUnit>, u: AccessUnit)
    ensures TotalBytes(units + [u]) == TotalBytes(units) + |u.annexB|
    decreases |units|
  {
    if units == [] {
      assert [] + [u] == [u];
    } else {
      assert (units + [u])[1..] == units[1..] + [u];
      TotalBytesAppend(units[1..], u);
    }
  }

  lemma FollowsExtends(log: seq<AccessUnit>, u: AccessUnit, i: nat, j: nat)
    requires Follows(log, i, j)
    ensures Follows(log + [u], i, j)
  {
  }

  lemma SoundExtends(log: seq<AccessUnit>, u: AccessUnit, trace: seq<Event>)
    requires Sound(log, trace)
    ensures Sound(log + [u], trace)
  {
    hide Follows;
    forall n | 0 <= n < |trace|
      ensures Grounded(log + [u], trace, n)
    {
      assert Grounded(log, trace, n);
      if trace[n].Decode? && !log[trace[n].serial].keyframe {
        FollowsExtends(log, u, trace[n - 1].serial, trace[n].serial);
      }
    }
  }

  lemma LineExtends(log: seq<AccessUnit>, u: AccessUnit, line: seq<nat>)
    requires LineLinked(log, line)
    ensures LineLinked(log + [u], line)
  {
    hide Follows;
    forall n | 0 < n < |line|
      ensures Linked(log + [u], line[n - 1], line[n])
    {
      if !log[line[n]].keyframe {
        FollowsExtends(log, u, line[n - 1], line[n]);
      }
    }
  }

  lemma ChainedExtends(s: State, u: AccessUnit)
    requires Chained(s)
    ensures Chained(s.(log := s.log + [u])) && Line(s.(log := s.log + [u])) == Line(s)
  {
    hide LineLinked;
    SerialsKnown(s);
    LineExtends(s.log, u, Line(s));
  }

  lemma WorkingExtends(s: State, u: AccessUnit)
    requires Working(s)
    ensures Working(s.(log := s.log + [u]))
  {
    hide Follows;
    if s.worker.Ready? && !s.log[s.worker.unit.serial].keyframe {
      FollowsExtends(s.log, u, s.trace[|s.trace| - 1].serial, s.worker.unit.serial);
    }
  }

  lemma SerialsKnown(s: State)
    requires Chained(s)
    ensures forall n :: 0 <= n < |Line(s)| ==> Line(s)[n] < |s.log|
  {
  }

  /** The depacketizer of a later call in place of the one before. */
  ghost predicate Advanced(s: State, t: State, r: D.Pushed) {
    && t == s.(depacketizer := r.state)
    && D.Buffered(r.state) && D.PendingIsNew(r.state)
    && r.state.limits == s.depacketizer.limits && r.state.generation == s.depacketizer.generation
    && D.ParameterSetsKept(s.depacketizer, r) && D.Continues(s.depacketizer, r)
  }

  lemma PushAdvances(s: State, p: RawPacket)
    requires Assembling(s)
    ensures Advanced(s, s.(depacketizer := D.Push(s.depacketizer, p).state), D.Push(s.depacketizer, p))
  {
    hide D.Push, D.Buffered, D.PendingIsNew, D.ParameterSetsKept, D.Continues;
    D.PushKeepsBuffered(s.depacketizer, p);
    D.PushParameterSets(s.depacketizer, p);
    D.PushContinues(s.depacketizer, p);
  }

  /** Putting a unit at the end of the line, a keyframe in place of the queue. */
  ghost function Enqueue(t: State, u: AccessUnit, n: nat): State {
    var c := if u.keyframe then t.(queue := [], queueBytes := 0, synced := true) else t;
    if |c.queue| >= QUEUE_UNITS || c.queueBytes + |u.annexB| > t.depacketizer.limits.maxUnitBytes then Break(c)
    else c.(queue := c.queue + [u.(serial := n, chain := c.chain)], queueBytes := c.queueBytes + |u.annexB|)
  }

  ghost predicate LogEnds(t: State, u: AccessUnit) {
    t.log != [] && t.log[|t.log| - 1] == u.(serial := |t.log| - 1)
  }

  /** `Working` speaks of the worker, the decoder and the log only. */
  lemma WorkingIgnoresQueue(t: State, e: State)
    requires Working(t) && e == t.(queue := e.queue, queueBytes := e.queueBytes, synced := e.synced, depacketizer := e.depacketizer,
                                   latest := e.latest, cancelled := e.cancelled)
    ensures Working(e)
  {
  }

  ghost predicate MayEnqueue(t: State, u: AccessUnit) {
    && Assembling(t) && Accounted(t) && Chained(t) && Working(t) && Sound(t.log, t.trace) && !t.resetting && !t.closed
    && LogEnds(t, u) && u.generation == t.generation
  }

  lemma EnqueueKeyframe(t: State, u: AccessUnit)
    requires MayEnqueue(t, u) && u.keyframe
    requires t.depacketizer.haveLast && t.depacketizer.sps != [] && t.depacketizer.pps != []
    ensures Inv(Enqueue(t, u, |t.log| - 1))
  {
    hide Sound, Follows, Working, LineLinked, D.Buffered, D.PendingIsNew;
    var n := |t.log| - 1;
    var c := t.(queue := [], queueBytes := 0, synced := true);
    WorkingIgnoresQueue(t, c);
    if |u.annexB| > t.depacketizer.limits.maxUnitBytes {
      BreakKeeps(c);
    } else {
      var v := u.(serial := n, chain := c.chain);
      var e := c.(queue := [v], queueBytes := |u.annexB|);
      assert c.queue + [v] == [v];
      assert Enqueue(t, u, n) == e;
      WorkingIgnoresQueue(t, e);
      KeyframeOrdered(t, e, u);
    }
  }

  lemma KeyframeOrdered(t: State, e: State, u: AccessUnit)
    requires Chained(t) && LogEnds(t, u) && u.keyframe && u.generation == t.generation
    requires e == t.(queue := [u.(serial := |t.log| - 1, chain := t.chain)], queueBytes := |u.annexB|, synced := true)
    ensures Ordered(e) && TotalBytes(e.queue) == |u.annexB|
  {
    hide Follows, LineLinked, LastDecode, InFlight;
    var n := |t.log| - 1;
    TotalBytesAppend([], e.queue[0]);
    assert [] + e.queue == e.queue;
    var front := LastDecode(t) + InFlight(t);
    assert LastDecode(e) == LastDecode(t) && InFlight(e) == InFlight(t) by { SameFront(t, e); }
    assert Line(t) == front + Serials(t.queue);
    assert Serials(e.queue) == [n];
    assert Line(e) == front + [n];
    KeyframeLinks(t.log, front, Serials(t.queue), n);
  }

  lemma SameFront(t: State, e: State)
    requires e == t.(queue := e.queue, queueBytes := e.queueBytes, synced := e.synced)
    ensures LastDecode(e) == LastDecode(t) && InFlight(e) == InFlight(t)
  {
  }

  lemma KeyframeLinks(log: seq<AccessUnit>, front: seq<nat>, back: seq<nat>, n: nat)
    requires LineLinked(log, front + back) && n < |log| && log[n].keyframe
    ensures LineLinked(log, front + [n]) && (forall k :: 0 <= k < |front| ==> (front + back)[k] == (front + [n])[k])
  {
    hide Follows;
    var a, b := front + back, front + [n];
    forall k | 0 < k < |b|
      ensures Linked(log, b[k - 1], b[k])
    {
      if k < |front| {
        assert a[k] == b[k] && a[k - 1] == b[k - 1];
      }
    }
    forall k | 0 <= k < |b|
      ensures b[k] < |log|
    {
      if k < |front| {
        assert a[k] == b[k];
      }
    }
  }

  lemma EnqueueNext(t: State, u: AccessUnit)
    requires MayEnqueue(t, u) && t.synced && !u.keyframe
    requires Line(t) != [] && Linked(t.log, Line(t)[|Line(t)| - 1], |t.log| - 1)
    ensures Inv(Enqueue(t, u, |t.log| - 1))
  {
    hide Sound, Follows, Working, LineLinked, Linked, D.Buffered, D.PendingIsNew, Line;
    var n := |t.log| - 1;
    if |t.queue| >= QUEUE_UNITS || t.queueBytes + |u.annexB| > t.depacketizer.limits.maxUnitBytes {
      BreakKeeps(t);
    } else {
      var v := u.(serial := n, chain := t.chain);
      var e := t.(queue := t.queue + [v], queueBytes := t.queueBytes + |u.annexB|);
      TotalBytesAppend(t.queue, v);
      WorkingIgnoresQueue(t, e);
      NextOrdered(t, e, u);
    }
  }

  lemma NextOrdered(t: State, e: State, u: AccessUnit)
    requires Chained(t) && LogEnds(t, u) && u.generation == t.generation && t.synced
    requires e == t.(queue := t.queue + [u.(serial := |t.log| - 1, chain := t.chain)], queueBytes := e.queueBytes)
    requires Line(t) != [] && Linked(t.log, Line(t)[|Line(t)| - 1], |t.log| - 1)
    ensures Ordered(e)
  {
    hide Follows, LineLinked, LastDecode, InFlight, Linked;
    var n := |t.log| - 1;
    SameFront(t, e);
    assert Serials(e.queue) == Serials(t.queue) + [n];
    assert Line(e) == Line(t) + [n];
    LineGrows(t.log, Line(t), n);
  }

  lemma LineGrows(log: seq<AccessUnit>, line: seq<nat>, n: nat)
    requires LineLinked(log, line) && line != [] && n < |log| && Linked(log, line[|line| - 1], n)
    ensures LineLinked(log, line + [n])
  {
    hide Linked;
  }

  lemma OpenLinks(log: seq<AccessUnit>, u: AccessUnit, i: nat)
    requires Open(log, i) && u.firstSequence == NextSequence(log[|log| - 1].lastSequence)
    ensures Linked(log + [u], i, |log|)
    ensures !u.picture ==> Open(log + [u], i)
  {
  }

  lemma AdmitKeeps(s: State, s1: State, r: D.Pushed)
    requires Inv(s) && !s.resetting && !s.closed && !s.cancelled && Advanced(s, s1, r) && r.outcome.Emitted?
    ensures Inv(Admit(s1, r.outcome.unit))
  {
    hide Sound, Chained, Working, Accounted, D.Buffered, D.PendingIsNew, Follows, Linked, Open, Line, LineLinked;
    var u := r.outcome.unit;
    var v := u.(serial := |s.log|);
    var logged := s1.(log := s.log + [v]);
    assert Accounted(logged) && Chained(s1) && Working(s1) by { SameButDepacketizer(s, s1, v); }
    ChainedExtends(s1, v);
    WorkingExtends(s1, v);
    SoundExtends(s.log, v, s.trace);
    assert Assembling(logged);
    if u.discontinuity {
      DecoderBehind(logged);
      BreakKeeps(logged);
      var b := Break(logged);
      if u.decodable && u.keyframe {
        EnqueueKeyframe(b, u);
      }
    } else if u.decodable && u.keyframe {
      EnqueueKeyframe(logged, u);
    } else if s.synced {
      SameLine(s, s1);
      OpenLinks(s.log, v, Line(s)[|Line(s)| - 1]);
      if u.decodable {
        EnqueueNext(logged, u);
      }
    } else {
      SameLine(s, s1);
    }
  }

  lemma DecoderBehind(s: State)
    requires Chained(s)
    ensures s.decoderChain <= s.chain
  {
  }

  lemma SameLine(s: State, t: State)
    requires t == s.(depacketizer := t.depacketizer)
    ensures Line(t) == Line(s)
  {
  }

  lemma SameButDepacketizer(s: State, t: State, u: AccessUnit)
    requires t == s.(depacketizer := t.depacketizer) && t.depacketizer.limits == s.depacketizer.limits
    requires Accounted(s) && Chained(s) && Working(s)
    ensures Accounted(t.(log := t.log + [u])) && Accounted(t) && Chained(t) && Working(t)
  {
    assert Line(t) == Line(s);
  }

  lemma ReceiveKeeps(s: State, p: RawPacket)
    requires Inv(s)
    ensures Inv(Receive(s, p))
  {
    hide Sound, Chained, Working, Accounted, D.Push, D.Buffered, D.PendingIsNew, D.ParameterSetsKept, Open, Line, Admit;
    if !s.closed && !s.resetting && !s.cancelled {
      PushAdvances(s, p);
      var r := D.Push(s.depacketizer, p);
      var s1 := s.(depacketizer := r.state);
      if r.outcome.Emitted? {
        AdmitKeeps(s, s1, r);
      } else {
        SameButDepacketizer(s, s1, Placeholder());
        SameLine(s, s1);
        StillAssembling(s, s1, r);
        DecoderBehind(s1);
        BreakKeeps(s1);
      }
    }
  }

  ghost function Placeholder(): AccessUnit {
    AccessUnit(0, 0, 0, 0, 0, [], false, false, false, false, false, false, 0, false, 0)
  }

  lemma StillAssembling(s: State, t: State, r: D.Pushed)
    requires Assembling(s) && Advanced(s, t, r) && !r.outcome.Emitted?
    ensures Assembling(t)
  {
  }

  // ---------------------------------------------------------------- worker

  /** The line is what `Ordered` is about: the same line keeps it. */
  lemma OrderedSame(s: State, t: State)
    requires Ordered(s) && Line(t) == Line(s) && LastDecode(t) == LastDecode(s)
    requires t == s.(worker := t.worker, trace := t.trace, latest := t.latest, decoderChain := t.decoderChain,
                     queue := t.queue, queueBytes := t.queueBytes, cancelled := t.cancelled, failedAt := t.failedAt)
    requires t.decoderChain <= t.chain && (s.cancelled ==> t.cancelled) && forall u :: u in t.queue ==> u in s.queue
    ensures Ordered(t)
  {
    hide LineLinked, Open, Line, LastDecode;
  }

  lemma PopKeeps(s: State)
    requires Inv(s)
    ensures Inv(Pop(s))
  {
    hide Sound, Ordered, Working, Assembling, Line, LastDecode;
    if Pop(s) != s {
      assert s.queue == [s.queue[0]] + s.queue[1..];
      QueueHead(s);
      PopLine(s);
      PopWorking(s);
      OrderedSame(s, Pop(s));
      AssemblingSame(s, Pop(s));
    }
  }

  lemma QueueHead(s: State)
    requires Ordered(s) && s.queue != []
    ensures OfChain(s, s.queue[0]) && s.queue[0].chain == s.chain && s.decoderChain <= s.chain
  {
    assert s.queue[0] in s.queue;
  }

  lemma AssemblingSame(s: State, t: State)
    requires Assembling(s) && t == s.(worker := t.worker, trace := t.trace, latest := t.latest, decoderChain := t.decoderChain,
                                      queue := t.queue, queueBytes := t.queueBytes, cancelled := t.cancelled, closed := t.closed, failedAt := t.failedAt)
    ensures Assembling(t)
  {
  }

  lemma PopLine(s: State)
    requires s.worker.Idle? && s.queue != [] && s.queue[0].chain == s.chain && !s.closed && !s.cancelled && !s.resetting
    ensures Line(Pop(s)) == Line(s) && LastDecode(Pop(s)) == LastDecode(s)
  {
    hide Serials, LastDecode;
    var t := Pop(s);
    assert Serials(s.queue) == [s.queue[0].serial] + Serials(s.queue[1..]);
    assert LastDecode(t) == LastDecode(s) by { SameDecodes(s, t); }
    assert InFlight(s) == [] && InFlight(t) == [s.queue[0].serial];
  }

  lemma SameDecodes(s: State, t: State)
    requires t.decoderChain == s.decoderChain && t.chain == s.chain && t.trace == s.trace
    ensures LastDecode(t) == LastDecode(s)
  {
  }

  lemma PopWorking(s: State)
    requires Working(s) && s.worker.Idle? && s.queue != [] && OfChain(s, s.queue[0]) && !s.closed && !s.resetting
    ensures Working(Pop(s))
  {
    hide Justified;
  }

  lemma BeginKeeps(s: State)
    requires Inv(s)
    ensures Inv(Begin(s))
  {
    hide Sound, Ordered, Working, Assembling, Line, LastDecode;
    if s.worker.Popped? {
      var t := Begin(s);
      AssemblingSame(s, t);
      if t.worker.Ready? {
        NextJustified(s);
        OrderedBehind(s);
      } else if !s.closed {
        OutOfLine(s);
      }
      BeginWorking(s);
      if !s.closed {
        BeginLine(s);
        OrderedSame(s, t);
      }
    }
  }

  lemma BeginLine(s: State)
    requires s.worker.Popped? && (Begin(s).worker.Ready? || InFlight(s) == []) && Ordered(s)
    ensures Line(Begin(s)) == Line(s) && LastDecode(Begin(s)) == LastDecode(s) && s.decoderChain <= s.chain
  {
  }

  lemma BeginWorking(s: State)
    requires Working(s) && s.worker.Popped?
    requires Begin(s).worker.Ready? ==> Justified(s, s.worker.unit, s.chain) && s.decoderChain <= s.chain
    ensures Working(Begin(s))
  {
    hide Follows;
  }

  /** The unit at the head of the line may be decoded on what the decoder holds. */
  lemma NextJustified(s: State)
    requires Ordered(s) && Working(s) && s.worker.Popped? && s.worker.unit.chain == s.chain && !s.closed
    ensures Justified(s, s.worker.unit, s.chain)
  {
    hide Follows, Open;
    var n := |LastDecode(s)|;
    assert Line(s)[n] == s.worker.unit.serial;
    if n > 0 {
      assert Linked(s.log, Line(s)[n - 1], Line(s)[n]);
    }
  }

  /** A unit that is refused before decoding belongs to a chain that is over. */
  lemma OutOfLine(s: State)
    requires Working(s) && s.worker.Popped?
    requires s.resetting || s.worker.unit.generation != s.generation || s.worker.unit.chain != s.chain
    ensures InFlight(s) == []
  {
    hide Justified;
  }

  lemma ResetDecoderKeeps(s: State, ok: bool)
    requires Inv(s)
    ensures Inv(ResetDecoder(s, ok))
  {
    hide Sound, Ordered, Working, Assembling, Line, LastDecode;
    var t := ResetDecoder(s, ok);
    if t != s {
      SoundStep(s.log, s.trace, DecoderReset);
      AssemblingSame(s, t);
      ResetDecoderWorking(s, ok);
      if !s.closed {
        ResetDecoderLine(s, ok);
        OrderedSame(s, t);
      }
    }
  }

  lemma ResetDecoderWorking(s: State, ok: bool)
    requires Working(s)
    ensures Working(ResetDecoder(s, ok))
  {
    hide Follows;
  }

  lemma ResetDecoderLine(s: State, ok: bool)
    requires Ordered(s) && Working(s) && s.worker.Ready? && s.decoderChain != s.worker.epoch
    ensures var t := ResetDecoder(s, ok); LastDecode(t) == LastDecode(s) && Line(t) == Line(s) && t.decoderChain <= t.chain
  {
    hide Open, LineLinked, Serials, Follows;
    var t := ResetDecoder(s, ok);
    assert InFlight(t) == InFlight(s);
  }

  /** An event may be added when it is a reset, or a decode that is justified. */
  lemma SoundStep(log: seq<AccessUnit>, trace: seq<Event>, e: Event)
    requires Sound(log, trace)
    requires e.Decode? ==> e.serial < |log| &&
                           (log[e.serial].keyframe
                            || (trace != [] && trace[|trace| - 1].Decode? && trace[|trace| - 1].ok
                                && Follows(log, trace[|trace| - 1].serial, e.serial)))
    ensures Sound(log, trace + [e])
  {
    hide Follows;
    var all := trace + [e];
    forall n | 0 <= n < |all|
      ensures Grounded(log, all, n)
    {
      if n < |trace| {
        assert Grounded(log, trace, n);
      }
    }
  }

  lemma CallDecoderKeeps(s: State, o: Output)
    requires Inv(s)
    ensures Inv(CallDecoder(s, o))
  {
    hide Sound, Ordered, Working, Assembling, Line, LastDecode;
    var t := CallDecoder(s, o);
    if t != s {
      CallDecoderWorking(s, o);
      SoundStep(s.log, s.trace, Decode(s.worker.unit.serial, !o.Failure?));
      AssemblingSame(s, t);
      if !s.closed {
        CallDecoderOrdered(s, o);
      }
    }
  }

  lemma CallDecoderWorking(s: State, o: Output)
    requires Working(s) && CallDecoder(s, o) != s
    ensures Working(CallDecoder(s, o)) && Justified(s, s.worker.unit, s.worker.epoch)
  {
    hide Follows;
  }

  /** What was in flight is decoded; of the current chain it takes the place of what was decoded before. */
  lemma CallDecoderLine(s: State, o: Output)
    requires Ordered(s) && Working(s) && CallDecoder(s, o) != s
    ensures
      var t := CallDecoder(s, o);
      if s.worker.epoch == s.chain
      then Line(t) == Line(s)[|LastDecode(s)|..] && LastDecode(t) != [] && |LastDecode(s)| < |Line(s)|
      else Line(t) == Line(s) && LastDecode(t) == LastDecode(s) == []
  {
    hide Follows, Open, LineLinked, Serials, Linked;
  }

  lemma CallDecoderOrdered(s: State, o: Output)
    requires Ordered(s) && Working(s) && CallDecoder(s, o) != s
    ensures Ordered(CallDecoder(s, o))
  {
    hide Follows, Open, LineLinked, Linked, Line, LastDecode, Justified;
    CallDecoderLine(s, o);
    LineTail(s.log, Line(s), |LastDecode(s)|);
  }

  lemma LineTail(log: seq<AccessUnit>, line: seq<nat>, n: nat)
    requires LineLinked(log, line) && n <= |line|
    ensures LineLinked(log, line[n..])
  {
    hide Linked;
    forall k | 0 < k < |line[n..]|
      ensures Linked(log, line[n..][k - 1], line[n..][k])
    {
      assert line[n..][k] == line[n + k] && line[n..][k - 1] == line[n + k - 1];
    }
  }

  lemma LineHead(log: seq<AccessUnit>, line: seq<nat>, n: nat)
    requires LineLinked(log, line) && n <= |line|
    ensures LineLinked(log, line[..n])
  {
    hide Linked;
  }

  lemma PublishKeeps(s: State)
    requires Inv(s)
    ensures Inv(Publish(s))
  {
    hide Sound, Ordered, Working, Assembling, Line, LastDecode;
    if s.worker.Decoded? {
      var t := Publish(s);
      AssemblingSame(s, t);
      PublishWorking(s);
      PublishAccounted(s);
      if !s.closed {
        PublishLine(s);
        OrderedSame(s, t);
      }
    }
  }

  lemma PublishLine(s: State)
    requires Ordered(s) && Working(s) && s.worker.Decoded?
    ensures var t := Publish(s); Line(t) == Line(s) && LastDecode(t) == LastDecode(s) && t.decoderChain <= t.chain
  {
    hide LineLinked, Open, Serials, LastDecode, Justified, OfChain;
    var t := Publish(s);
    SameDecodes(s, t);
    assert InFlight(t) == InFlight(s) == [];
  }

  lemma PublishAccounted(s: State)
    requires Accounted(s)
    ensures Accounted(Publish(s))
  {
  }

  lemma PublishWorking(s: State)
    requires Working(s) && s.worker.Decoded?
    ensures Working(Publish(s))
  {
    hide Justified;
  }

  lemma ReportKeeps(s: State)
    requires Inv(s)
    ensures Inv(Report(s))
  {
    hide Sound, Ordered, Working, Assembling, Line, LastDecode;
    if s.worker.Reporting? {
      var t := Idled(s);
      AssemblingSame(s, t);
      ReportWorking(s);
      if Report(s) != t {
        OrderedBehind(s);
        BreakKeepsIdle(t);
      } else if !s.closed {
        ReportLine(s);
        OrderedSame(s, t);
      }
    }
  }

  lemma OrderedBehind(s: State)
    requires Ordered(s)
    ensures s.decoderChain <= s.chain
  {
  }

  lemma ReportLine(s: State)
    requires Ordered(s) && Working(s) && s.worker.Reporting? && Report(s) == Idled(s) && !s.closed
    ensures var t := Idled(s); Line(t) == Line(s) && LastDecode(t) == LastDecode(s) && t.decoderChain <= t.chain
  {
    hide LineLinked, Open;
  }

  lemma ReportWorking(s: State)
    requires Working(s) && s.worker.Reporting?
    ensures Report(s) == Idled(s) ==> Working(Idled(s))
  {
    hide Justified;
  }

  lemma BreakKeepsIdle(t: State)
    requires Assembling(t) && t.worker.Idle? && t.decoderChain <= t.chain && Sound(t.log, t.trace) && !t.resetting && !t.closed
    ensures Inv(Break(t))
  {
    hide Sound, D.Buffered, D.PendingIsNew;
  }

  lemma ExitKeeps(s: State)
    requires Inv(s)
    ensures Inv(Exit(s))
  {
    hide Sound, Ordered, Working, Assembling;
    var t := Exit(s);
    if t != s {
      WorkingIgnoresQueue(s, t);
      AssemblingSame(s, t);
      if !s.closed {
        ExitOrdered(s);
      }
    }
  }

  lemma ExitOrdered(s: State)
    requires Ordered(s) && s.cancelled
    ensures Ordered(Exit(s))
  {
    hide Open, LineLinked, LastDecode, InFlight;
    var t := Exit(s);
    if t != s {
      SameFront(s, t);
      var front := LastDecode(s) + InFlight(s);
      assert Serials(t.queue) == [];
      assert Line(t) == front == Line(s)[..|front|];
      LineHead(s.log, Line(s), |front|);
    }
  }

  lemma CloseKeeps(s: State)
    requires Inv(s)
    ensures Inv(Close(s)) && Inv(s.(cancelled := true))
  {
    hide Sound, Ordered, Working, Assembling, Line, LastDecode;
    var t := s.(cancelled := true);
    WorkingIgnoresQueue(s, t);
    AssemblingSame(s, t);
    AssemblingSame(s, Close(s));
    CloseWorking(s);
    CancelLine(s);
    if !s.closed {
      OrderedBehind(s);
      OrderedSame(s, t);
    }
    assert TotalBytes([]) == 0;
  }

  lemma CancelLine(s: State)
    ensures Line(s.(cancelled := true)) == Line(s) && LastDecode(s.(cancelled := true)) == LastDecode(s)
  {
  }

  lemma CloseWorking(s: State)
    requires Working(s)
    ensures Working(Close(s))
  {
    hide Follows;
  }

  lemma BeginResetKeeps(s: State, generation: nat)
    requires Inv(s)
    ensures Inv(BeginReset(s, generation))
  {
    hide Sound, Follows, Open, D.Buffered, D.PendingIsNew, Serials, LineLinked;
    if BeginReset(s, generation) != s {
      BreakKeeps(s);
      var t := BeginReset(s, generation);
      assert Line(t) == Line(Break(s));
    }
  }

  lemma EndResetKeeps(s: State, ok: bool)
    requires Inv(s)
    ensures Inv(EndReset(s, ok))
  {
    hide Sound, Ordered, Working, Assembling, Line, LastDecode;
    var t := EndReset(s, ok);
    if t != s {
      SoundStep(s.log, s.trace, DecoderReset);
      EndResetAssembling(s, ok);
      EndResetWorking(s, ok);
      EndResetOrdered(s, ok);
    }
  }

  lemma EndResetAssembling(s: State, ok: bool)
    requires Assembling(s) && !s.synced
    ensures Assembling(EndReset(s, ok))
  {
  }

  lemma EndResetWorking(s: State, ok: bool)
    requires Working(s) && EndReset(s, ok) != s
    ensures Working(EndReset(s, ok))
  {
    hide Justified;
  }

  lemma EndResetOrdered(s: State, ok: bool)
    requires Ordered(s) && s.queue == [] && !s.synced && EndReset(s, ok) != s
    ensures Ordered(EndReset(s, ok))
  {
    hide Open, Serials, LineLinked, Linked, LastDecode, InFlight;
    assert Line(EndReset(s, ok)) == [] by { QuietLine(s, EndReset(s, ok)); }
    NothingLinked(s.log);
  }

  lemma NothingLinked(log: seq<AccessUnit>)
    ensures LineLinked(log, [])
  {
  }

  lemma QuietLine(s: State, t: State)
    requires t == EndReset(s, true) || t == EndReset(s, false)
    requires Line(s) == []
    ensures Line(t) == []
  {
  }

  lemma StepKeeps(s: State, step: Step)
    requires Inv(s)
    ensures Inv(Apply(s, step))
  {
    hide Inv, Receive, Pop, Begin, ResetDecoder, CallDecoder, Publish, Report, Exit, BeginReset, EndReset, Close;
    match step
    case Packet(p) => ReceiveKeeps(s, p);
    case Take => PopKeeps(s);
    case Enter => BeginKeeps(s);
    case DecoderResets(ok) => ResetDecoderKeeps(s, ok);
    case DecoderRuns(o) => CallDecoderKeeps(s, o);
    case Finish => PublishKeeps(s);
    case Settle => ReportKeeps(s);
    case Leave => ExitKeeps(s);
    case StartReset(g) => BeginResetKeeps(s, g);
    case FinishReset(ok) => EndResetKeeps(s, ok);
    case Shut => CloseKeeps(s);
    case Cancel => CloseKeeps(s);
  }

  lemma {:induction false} RunKeeps(s: State, steps: seq<Step>)
    requires Inv(s)
    ensures Inv(Run(s, steps))
    decreases |steps|
  {
    hide Inv, Apply;
    if steps != [] {
      StepKeeps(s, steps[0]);
      RunKeeps(Apply(s, steps[0]), steps[1..]);
    }
  }

  /**
  Chain integrity. From the start, through any packets, losses, overflow, decoder
  failures, resets and closing, every unit the decoder was given is a keyframe or
  directly continues, without a missed sequence number, the one decoded before it.
  */
  lemma NoBrokenReferences(generation: nat, limits: Limits, steps: seq<Step>)
    ensures var s := Run(Init(generation, limits), steps); Sound(s.log, s.trace)
  {
    hide Sound, Apply;
    InitKeeps(generation, limits);
    RunKeeps(Init(generation, limits), steps);
  }

  /** In every run the live queue and the packet buffer are accounted for and bounded. */
  lemma BuffersBounded(generation: nat, limits: Limits, steps: seq<Step>)
    ensures var s := Run(Init(generation, limits), steps);
            && s.queueBytes == TotalBytes(s.queue) <= s.depacketizer.limits.maxUnitBytes
            && |s.queue| <= 32 && D.Buffered(s.depacketizer)
  {
    hide Sound, Apply, Working, Ordered, D.Buffered;
    InitKeeps(generation, limits);
    RunKeeps(Init(generation, limits), steps);
  }

  /** What is published is of the current generation and chain. */
  predicate ShowsCurrent(s: State) {
    s.latest.Some? ==> s.latest.value.generation == s.generation && s.latest.value.epoch == s.chain && !s.resetting
  }

  /** A published frame is always of the current generation and chain: a break withdraws it. */
  lemma ObservationsAreCurrent(generation: nat, limits: Limits, steps: seq<Step>)
    ensures ShowsCurrent(Run(Init(generation, limits), steps))
  {
    hide Sound, Apply, Working, Ordered;
    InitKeeps(generation, limits);
    RunKeeps(Init(generation, limits), steps);
  }
}
