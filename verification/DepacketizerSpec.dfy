/**
What each call of the RFC 6184 depacketizer (`internal/video/depacketizer.go`)
computes, as functions on its state. `Depacketization.Depacketizer` performs the
same calls in place and is proved against these functions.
*/
module DepacketizerSpec {
  import opened Basics
  import opened Rtp

  // ---------------------------------------------------------------- ordering

  /** Go's `uint16(marker - s)`. */
  function Distance(marker: Seq16, s: Seq16): Seq16 { (marker - s) % 0x1_0000 }

  /** The sequence number `k` places before the marker. */
  function Before(marker: Seq16, k: nat): Seq16 { (marker - k) % 0x1_0000 }

  lemma DistanceBefore(marker: Seq16, k: nat)
    requires k < 0x1_0000
    ensures Distance(marker, Before(marker, k)) == k
  {
  }

  lemma BeforeDistance(marker: Seq16, s: Seq16)
    ensures Before(marker, Distance(marker, s)) == s
  {
  }

  /** How many consecutive packets, ending at the marker, are present (at most `max`). */
  function RunLength(packets: map<Seq16, Packet>, marker: Seq16, max: nat, k: nat := 0): (n: nat)
    requires k <= max && k <= 0x1_0000
    ensures k <= n <= max && n <= 0x1_0000
    ensures forall i :: k <= i < n ==> Before(marker, i) in packets
    ensures n < max && n < 0x1_0000 ==> Before(marker, n) !in packets
    decreases 0x1_0000 - k
  {
    if k < max && k < 0x1_0000 && Before(marker, k) in packets then RunLength(packets, marker, max, k + 1) else k
  }

  function RunPackets(packets: map<Seq16, Packet>, marker: Seq16, n: nat): (r: seq<Packet>)
    requires forall i :: 0 <= i < n ==> Before(marker, i) in packets
  {
    seq(n, i requires 0 <= i < n => packets[Before(marker, n - 1 - i)])
  }

  predicate Continuation(p: Packet) {
    |p.payload| >= 2 && TypeOf(p.payload[0]) == 28 && p.payload[1] < 0x80
  }

  /**
  The packets of a unit in sending order, or `None` while some are missing: the
  packets within `max` places of the marker must be exactly a run ending there,
  and the run must not begin in the middle of a fragmented unit.
  */
  function Ordered(packets: map<Seq16, Packet>, marker: Seq16, max: nat): (r: Option<seq<Packet>>)
    ensures r.Some? ==> r.value != []
  {
    var n := RunLength(packets, marker, max);
    if n == 0 || (exists s :: s in packets && n <= Distance(marker, s) < max) then None
    else
      var run := RunPackets(packets, marker, n);
      if Continuation(run[0]) then None else Some(run)
  }

  // ---------------------------------------------------------------- assembly

  /** The locals of `assemble` together with the cached parameter sets. */
  datatype Assembly = Assembly(
    annexB: seq<Byte>, sps: seq<Byte>, pps: seq<Byte>, hasSPS: bool, hasPPS: bool,
    keyframe: bool, picture: bool, fragmented: bool, fragmentType: nat)

  /** On an error the cached parameter sets keep what was already stored. */
  datatype Progress = Continue(a: Assembly) | Abort(a: Assembly, error: VideoError)

  function Fresh(sps: seq<Byte>, pps: seq<Byte>): Assembly {
    Assembly([], sps, pps, false, false, false, false, false, 0)
  }

  function AppendNal(a: Assembly, nal: seq<Byte>, max: nat): (r: Progress)
    ensures r.Continue? ==> |r.a.annexB| <= max
  {
    if nal == [] || |a.annexB| + 4 + |nal| > max then Abort(a, AccessUnitTooLarge)
    else
      var t := TypeOf(nal[0]);
      Continue(a.(
               annexB := a.annexB + START_CODE + nal,
               sps := if t == 7 then nal else a.sps,
               hasSPS := a.hasSPS || t == 7,
               pps := if t == 8 then nal else a.pps,
               hasPPS := a.hasPPS || t == 8,
               keyframe := a.keyframe || t == 5,
               picture := a.picture || t == 5 || t == 1))
  }

  function Size16(payload: seq<Byte>, offset: nat): nat
    requires offset + 2 <= |payload|
  {
    payload[offset] as int * 0x100 + payload[offset + 1]
  }

  /** The units of a STAP-A payload from `offset` on. */
  function AppendAggregate(a: Assembly, payload: seq<Byte>, offset: nat, max: nat): (r: Progress)
    requires |a.annexB| <= max
    ensures r.Continue? ==> |r.a.annexB| <= max
    decreases |payload| - offset
  {
    if offset >= |payload| then Continue(a)
    else if |payload| - offset < 2 then Abort(a, InvalidPacket)
    else
      var size := Size16(payload, offset);
      if size == 0 || size > |payload| - offset - 2 then Abort(a, InvalidPacket)
      else
        var r := AppendNal(a, payload[offset + 2..offset + 2 + size], max);
        if r.Abort? then r else AppendAggregate(r.a, payload, offset + 2 + size, max)
  }

  function AppendFragment(a: Assembly, payload: Payload, max: nat): (r: Progress)
    ensures r.Continue? ==> |r.a.annexB| <= max
  {
    if |payload| < 3 || (payload[1] / 0x20) % 2 == 1 then Abort(a, InvalidPacket)
    else
      var start, end := payload[1] >= 0x80, (payload[1] / 0x40) % 2 == 1;
      var t := TypeOf(payload[1]);
      if start && (a.fragmented || end) then Abort(a, InvalidPacket)
      else if !start && (!a.fragmented || a.fragmentType != t) then Abort(a, PacketLoss)
      else
        var b := if !start then a else
                   a.(annexB := a.annexB + START_CODE + [payload[0] / 0x20 * 0x20 + t], fragmented := true, fragmentType := t);
        if |b.annexB| + |payload| - 2 > max then Abort(b, AccessUnitTooLarge)
        else
          var c := b.(annexB := b.annexB + payload[2..]);
          if !end then Continue(c)
          else Continue(c.(fragmented := false, picture := c.picture || t == 1 || t == 5, keyframe := c.keyframe || t == 5))
  }

  function AppendPayload(a: Assembly, payload: Payload, max: nat): (r: Progress)
    requires |a.annexB| <= max
    ensures r.Continue? ==> |r.a.annexB| <= max
  {
    var t := TypeOf(payload[0]);
    if 0 < t < 24 then
      if a.fragmented then Abort(a, InvalidPacket) else AppendNal(a, payload, max)
    else if t == 24 then
      if a.fragmented then Abort(a, InvalidPacket) else AppendAggregate(a, payload, 1, max)
    else if t == 28 then AppendFragment(a, payload, max)
    else Abort(a, UnsupportedPacket)
  }

  function AppendAll(a: Assembly, payloads: seq<Payload>, max: nat): (r: Progress)
    requires |a.annexB| <= max
    ensures r.Continue? ==> |r.a.annexB| <= max
    decreases |payloads|
  {
    if payloads == [] then Continue(a)
    else
      var r := AppendPayload(a, payloads[0], max);
      if r.Abort? then r else AppendAll(r.a, payloads[1..], max)
  }

  function PayloadsOf(packets: seq<Packet>): (r: seq<Payload>) {
    seq(|packets|, i requires 0 <= i < |packets| => packets[i].payload)
  }

  function Earliest(packets: seq<Packet>): (t: nat)
    requires packets != []
    ensures forall p :: p in packets ==> t <= p.receivedAt
    ensures exists p :: p in packets && t == p.receivedAt
  {
    var last := packets[|packets| - 1].receivedAt;
    if |packets| == 1 then last
    else
      var t := Earliest(packets[..|packets| - 1]);
      assert packets == packets[..|packets| - 1] + [packets[|packets| - 1]];
      if last < t then last else t
  }

  datatype Assembled = Assembled(sps: seq<Byte>, pps: seq<Byte>, result: Outcome)

  /** What `Push` hands back: nothing yet, one unit, or an error. */
  datatype Outcome = Nothing | Emitted(unit: AccessUnit) | Failed(error: VideoError)

  /** The tail of `assemble`: parameter-set reuse and the decodability verdict. */
  function Finish(a: Assembly, unit: PendingUnit, packets: seq<Packet>, max: nat): (r: Outcome)
    requires packets != [] && |a.annexB| <= max
    ensures r.Emitted? ==> |r.unit.annexB| <= max
    ensures !r.Nothing?
  {
    var base := AccessUnit(unit.generation, unit.timestamp, packets[0].sequence, packets[|packets| - 1].sequence,
                           Earliest(packets), a.annexB, a.hasSPS, a.hasPPS, a.keyframe, false, false, false, 0, a.picture, 0);
    if a.keyframe && (!a.hasSPS || !a.hasPPS) then
      if a.sps == [] || a.pps == [] then Emitted(base)
      else if |a.sps| + |a.pps| + 8 + |a.annexB| > max then Failed(AccessUnitTooLarge)
      else Emitted(base.(annexB := START_CODE + a.sps + START_CODE + a.pps + a.annexB,
                         hasSPS := true, hasPPS := true, decodable := a.picture, reused := true))
    else
      Emitted(base.(decodable := a.picture && (a.keyframe || (a.sps != [] && a.pps != []))))
  }

  function Assemble(sps: seq<Byte>, pps: seq<Byte>, unit: PendingUnit, packets: seq<Packet>, max: nat): (r: Assembled)
    requires packets != []
    ensures r.result.Emitted? ==> |r.result.unit.annexB| <= max
    ensures !r.result.Nothing?
  {
    var p := AppendAll(Fresh(sps, pps), PayloadsOf(packets), max);
    if p.Abort? then Assembled(p.a.sps, p.a.pps, Failed(p.error))
    else if p.a.fragmented then Assembled(p.a.sps, p.a.pps, Failed(PacketLoss))
    else Assembled(p.a.sps, p.a.pps, Finish(p.a, unit, packets, max))
  }

  // ------------------------------------------------------------------- push

  datatype PendingUnit = PendingUnit(
    generation: nat, timestamp: Time32, packets: map<Seq16, Packet>, marker: Option<Seq16>, bytes: nat)

  datatype State = State(
    generation: nat, limits: Limits, pending: Option<PendingUnit>, sps: seq<Byte>, pps: seq<Byte>,
    lastSequence: Seq16, lastTimestamp: Time32, haveLast: bool, discontinuity: bool)

  datatype Pushed = Pushed(state: State, outcome: Outcome)

  function Complete(s: State, unit: PendingUnit, marker: Seq16): Pushed {
    match Ordered(unit.packets, marker, s.limits.maxPackets)
    case None => Pushed(s, Nothing)
    case Some(packets) =>
      var r := Assemble(s.sps, s.pps, unit, packets, s.limits.maxUnitBytes);
      var s1 := s.(pending := None, sps := r.sps, pps := r.pps);
      match r.result
      case Failed(e) => Pushed(s1.(discontinuity := true), Failed(e))
      case Emitted(u) =>
        var gap := s.discontinuity || (s.haveLast && u.firstSequence != NextSequence(s.lastSequence));
        Pushed(s1.(lastSequence := u.lastSequence, lastTimestamp := u.rtpTime, haveLast := true, discontinuity := false),
               Emitted(u.(discontinuity := gap)))
  }

  function Store(s: State, unit: PendingUnit, p: Packet, priorLoss: bool): Pushed {
    if p.sequence in unit.packets then Pushed(s, Nothing)
    else if unit.bytes + |p.payload| > s.limits.maxUnitBytes || |unit.packets| >= s.limits.maxPackets then
      Pushed(s.(pending := None, discontinuity := true), Failed(AccessUnitTooLarge))
    else
      var u := PendingUnit(unit.generation, unit.timestamp, unit.packets[p.sequence := p],
                           if p.marker then Some(p.sequence) else unit.marker, unit.bytes + |p.payload|);
      var s1 := s.(pending := Some(u));
      match u.marker
      case None => Pushed(s1, if priorLoss then Failed(PacketLoss) else Nothing)
      case Some(marker) => Complete(s1, u, marker)
  }

  /** The error of a packet `Push` refuses without looking at what is buffered. */
  function Refusal(s: State, p: RawPacket): Option<VideoError> {
    if p.generation != s.generation then Some(GenerationMismatch)
    else if p.receivedAt == 0 || p.payload == [] then Some(InvalidPacket)
    else if |p.payload| > s.limits.maxPacketBytes then Some(PacketTooLarge)
    else None
  }

  /** Late packets: not after the last completed timestamp, or before the buffered one. */
  predicate Late(s: State, timestamp: Time32) {
    || (s.haveLast && SignedDifference(timestamp, s.lastTimestamp) <= 0)
    || (s.pending.Some? && SignedDifference(timestamp, s.pending.value.timestamp) < 0)
  }

  function Push(s: State, p: RawPacket): Pushed {
    match Refusal(s, p)
    case Some(e) => Pushed(s, Failed(e))
    case None =>
      if Late(s, p.timestamp) then Pushed(s, Nothing)
      else if s.pending.Some? && s.pending.value.timestamp == p.timestamp then Store(s, s.pending.value, p, false)
      else
        var unit := PendingUnit(p.generation, p.timestamp, map[], None, 0);
        var s1 := s.(pending := Some(unit), discontinuity := s.discontinuity || s.pending.Some?);
        Store(s1, unit, p, s.pending.Some?)
  }

  // -------------------------------------------------------- what Push keeps

  ghost function PayloadBytes(m: map<Seq16, Packet>): nat
  {
    if m == map[] then 0
    else
      var k :| k in m;
      |m[k].payload| + PayloadBytes(m - {k})
  }

  lemma {:induction false} PayloadBytesInsert(m: map<Seq16, Packet>, k: Seq16, p: Packet)
    requires k !in m
    ensures PayloadBytes(m[k := p]) == |p.payload| + PayloadBytes(m)
    decreases |m|
  {
    var big := m[k := p];
    assert k in big;
    var c :| c in big && PayloadBytes(big) == |big[c].payload| + PayloadBytes(big - {c});
    if c == k {
      assert big - {c} == m;
    } else {
      var d := big - {c};
      assert d == (m - {c})[k := p];
      PayloadBytesInsert(m - {c}, k, p);
      assert m == (m - {c})[c := m[c]];
      PayloadBytesInsert(m - {c}, c, m[c]);
    }
  }

  /** Buffered bytes are exactly what is buffered, and bounded in bytes and in number. */
  ghost predicate Buffered(s: State) {
    s.pending.Some? ==>
      var u := s.pending.value;
      && u.bytes == PayloadBytes(u.packets) <= s.limits.maxUnitBytes
      && |u.packets| <= s.limits.maxPackets
      && (u.marker.Some? ==> u.marker.value in u.packets)
      && (forall k :: k in u.packets ==> u.packets[k].sequence == k)
  }

  lemma CompleteKeepsBuffered(s: State, unit: PendingUnit, marker: Seq16)
    requires s.pending == Some(unit) && Buffered(s)
    ensures var r := Complete(s, unit, marker);
            && Buffered(r.state) && r.state.limits == s.limits && r.state.generation == s.generation
            && (r.outcome.Emitted? ==> |r.outcome.unit.annexB| <= s.limits.maxUnitBytes)
  {
    hide Ordered, AppendAll, Finish, PayloadBytes;
  }

  lemma StoreKeepsBuffered(s: State, unit: PendingUnit, p: Packet, priorLoss: bool)
    requires s.pending == Some(unit) && Buffered(s)
    ensures var r := Store(s, unit, p, priorLoss);
            && Buffered(r.state) && r.state.limits == s.limits && r.state.generation == s.generation
            && (r.outcome.Emitted? ==> |r.outcome.unit.annexB| <= s.limits.maxUnitBytes)
  {
    hide Complete, Ordered, Assemble, PayloadBytes;
    if p.sequence !in unit.packets && unit.bytes + |p.payload| <= s.limits.maxUnitBytes && |unit.packets| < s.limits.maxPackets {
      PayloadBytesInsert(unit.packets, p.sequence, p);
      assert unit.packets[p.sequence := p].Keys == unit.packets.Keys + {p.sequence};
      var u := PendingUnit(unit.generation, unit.timestamp, unit.packets[p.sequence := p],
                           if p.marker then Some(p.sequence) else unit.marker, unit.bytes + |p.payload|);
      var s1 := s.(pending := Some(u));
      assert Buffered(s1);
      if u.marker.Some? {
        CompleteKeepsBuffered(s1, u, u.marker.value);
      }
    }
  }

  /** Every push keeps the buffer accounted for and bounded, and bounds the unit it emits. */
  lemma PushKeepsBuffered(s: State, p: RawPacket)
    requires Buffered(s)
    ensures var r := Push(s, p);
            && Buffered(r.state) && r.state.limits == s.limits && r.state.generation == s.generation
            && (r.outcome.Emitted? ==> |r.outcome.unit.annexB| <= s.limits.maxUnitBytes)
  {
    if Refusal(s, p).None? && !Late(s, p.timestamp) {
      if s.pending.Some? && s.pending.value.timestamp == p.timestamp {
        StoreKeepsBuffered(s, s.pending.value, p, false);
      } else {
        var unit := PendingUnit(p.generation, p.timestamp, map[], None, 0);
        StoreKeepsBuffered(s.(pending := Some(unit), discontinuity := s.discontinuity || s.pending.Some?), unit, p, s.pending.Some?);
      }
    }
  }

  /** Cached parameter sets and picture flags move one way while payloads are appended. */
  ghost predicate Grows(a: Assembly, b: Assembly) {
    && (a.sps != [] ==> b.sps != []) && (a.pps != [] ==> b.pps != [])
    && (a.hasSPS ==> b.hasSPS) && (a.hasPPS ==> b.hasPPS)
    && ((a.hasSPS ==> a.sps != []) ==> (b.hasSPS ==> b.sps != []))
    && ((a.hasPPS ==> a.pps != []) ==> (b.hasPPS ==> b.pps != []))
    && ((a.keyframe ==> a.picture) ==> (b.keyframe ==> b.picture))
  }

  lemma {:induction false} AggregateGrows(a: Assembly, payload: seq<Byte>, offset: nat, max: nat)
    requires |a.annexB| <= max
    ensures Grows(a, AppendAggregate(a, payload, offset, max).a)
    decreases |payload| - offset
  {
    if offset < |payload| && |payload| - offset >= 2 {
      var size := Size16(payload, offset);
      if 0 < size <= |payload| - offset - 2 {
        var r := AppendNal(a, payload[offset + 2..offset + 2 + size], max);
        if r.Continue? {
          AggregateGrows(r.a, payload, offset + 2 + size, max);
        }
      }
    }
  }

  lemma PayloadGrows(a: Assembly, payload: Payload, max: nat)
    requires |a.annexB| <= max
    ensures Grows(a, AppendPayload(a, payload, max).a)
  {
    hide AppendAggregate;
    AggregateGrows(a, payload, 1, max);
  }

  lemma GrowsTransitive(a: Assembly, b: Assembly, c: Assembly)
    requires Grows(a, b) && Grows(b, c)
    ensures Grows(a, c)
  {
  }

  lemma {:induction false} AllGrow(a: Assembly, payloads: seq<Payload>, max: nat)
    requires |a.annexB| <= max
    ensures Grows(a, AppendAll(a, payloads, max).a)
    decreases |payloads|
  {
    if payloads != [] {
      PayloadGrows(a, payloads[0], max);
      var r := AppendPayload(a, payloads[0], max);
      if r.Continue? {
        AllGrow(r.a, payloads[1..], max);
        GrowsTransitive(a, r.a, AppendAll(r.a, payloads[1..], max).a);
      }
    }
  }

  /**
  What a push that ends the unit does to parameter sets. They survive; a decodable
  keyframe leaves both cached; and once both are cached a unit is decodable exactly
  when it carries a picture.
  */
  ghost predicate ParameterSetsKept(s: State, r: Pushed) {
    && (s.sps != [] ==> r.state.sps != [])
    && (s.pps != [] ==> r.state.pps != [])
    && (r.outcome.Emitted? ==>
          var u := r.outcome.unit;
          && (u.keyframe && u.decodable ==> r.state.sps != [] && r.state.pps != [])
          && (u.keyframe ==> u.picture)
          && (u.decodable ==> u.picture)
          && (s.sps != [] && s.pps != [] ==> u.decodable == u.picture))
  }

  lemma CompleteParameterSets(s: State, unit: PendingUnit, marker: Seq16)
    ensures ParameterSetsKept(s, Complete(s, unit, marker))
  {
    var o := Ordered(unit.packets, marker, s.limits.maxPackets);
    if o.Some? {
      AllGrow(Fresh(s.sps, s.pps), PayloadsOf(o.value), s.limits.maxUnitBytes);
    }
  }

  /** Every push keeps `ParameterSetsKept`. */
  lemma PushParameterSets(s: State, p: RawPacket)
    ensures ParameterSetsKept(s, Push(s, p))
  {
    hide Complete;
    if Refusal(s, p).None? && !Late(s, p.timestamp) {
      var same := s.pending.Some? && s.pending.value.timestamp == p.timestamp;
      var unit := if same then s.pending.value else PendingUnit(p.generation, p.timestamp, map[], None, 0);
      var s0 := if same then s else s.(pending := Some(unit), discontinuity := s.discontinuity || s.pending.Some?);
      var u := PendingUnit(unit.generation, unit.timestamp, unit.packets[p.sequence := p],
                           if p.marker then Some(p.sequence) else unit.marker, unit.bytes + |p.payload|);
      if u.marker.Some? {
        CompleteParameterSets(s0.(pending := Some(u)), u, u.marker.value);
      }
    }
  }

  /** The last completed unit, as the depacketizer remembers it. */
  ghost predicate SameLast(s: State, t: State) {
    t.haveLast == s.haveLast && t.lastSequence == s.lastSequence && t.lastTimestamp == s.lastTimestamp
  }

  /** The buffered unit belongs to the current generation and is newer than the last one. */
  ghost predicate PendingIsNew(s: State) {
    s.pending.Some? ==>
      && s.pending.value.generation == s.generation
      && !(s.haveLast && SignedDifference(s.pending.value.timestamp, s.lastTimestamp) <= 0)
  }

  /** What an emitted unit says about the packets before it; otherwise nothing is remembered anew. */
  ghost predicate Continues(s: State, r: Pushed) {
    if r.outcome.Emitted? then
      var u := r.outcome.unit;
      && r.state.haveLast && r.state.lastSequence == u.lastSequence && r.state.lastTimestamp == u.rtpTime
      && r.state.pending.None?
      && (s.haveLast && !u.discontinuity ==> u.firstSequence == NextSequence(s.lastSequence))
      && (s.haveLast ==> SignedDifference(u.rtpTime, s.lastTimestamp) > 0)
      && u.generation == s.generation && u.chain == 0 && u.serial == 0
    else SameLast(s, r.state)
  }

  lemma CompleteContinues(s: State, unit: PendingUnit, marker: Seq16)
    requires s.pending == Some(unit) && PendingIsNew(s)
    ensures Continues(s, Complete(s, unit, marker))
    ensures PendingIsNew(Complete(s, unit, marker).state)
  {
    hide Ordered, AppendAll, Earliest, SignedDifference;
  }

  /** Emitted units carry the current generation, strictly newer time, and tell gaps from continuity. */
  lemma PushContinues(s: State, p: RawPacket)
    requires PendingIsNew(s)
    ensures Continues(s, Push(s, p))
    ensures PendingIsNew(Push(s, p).state)
  {
    hide Complete;
    if Refusal(s, p).None? && !Late(s, p.timestamp) {
      var same := s.pending.Some? && s.pending.value.timestamp == p.timestamp;
      var unit := if same then s.pending.value else PendingUnit(p.generation, p.timestamp, map[], None, 0);
      var s0 := if same then s else s.(pending := Some(unit), discontinuity := s.discontinuity || s.pending.Some?);
      var u := PendingUnit(unit.generation, unit.timestamp, unit.packets[p.sequence := p],
                           if p.marker then Some(p.sequence) else unit.marker, unit.bytes + |p.payload|);
      if u.marker.Some? {
        CompleteContinues(s0.(pending := Some(u)), u, u.marker.value);
      }
    }
  }
}
