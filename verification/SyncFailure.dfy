/**
A run of synchronous `Push` that decodes on a broken reference: a keyframe, a dependent
picture on which the decoder fails, and the next dependent picture.
*/
module SyncFailure {
  import opened Basics
  import opened Rtp
  import D = DepacketizerSpec
  import opened Packetizer
  import opened PipelineSpec
  import opened SyncPush

  /** The unit a packet completes needs the picture before it. */
  predicate Depends(u: AccessUnit) { u.decodable && !u.keyframe && !u.discontinuity }

  /**
  From any healthy state: a decoder failure on a unit of the chain, then a dependent unit. The
  second call decodes it all the same, and its reference was never decoded.
  */
  lemma FailureThenDependent(s: State, p: RawPacket, q: RawPacket, o: Output)
    requires SyncInv(s) && Healthy(s) && Feeds(s, p)
    requires var r := D.Push(Push(s, p, true, Failure).depacketizer, q).outcome; r.Emitted? && Depends(r.unit)
    ensures var t := Push(Push(s, p, true, Failure), q, true, o); !Sound(t.log, t.trace)
  {
    hide Sound, Assembling, Open, D.Push;
    var t := Push(s, p, true, Failure);
    PushHealth(s, p, true, Failure);
    PushSoundIffNotRisky(t, q, true, o);
  }

  // ------------------------------------------------------ one packet, one unit

  /** A packet that is a whole access unit by itself, arriving with nothing buffered. */
  predicate Whole(d: D.State, p: RawPacket) {
    && d.pending.None? && D.Refusal(d, p).None? && !D.Late(d, p.timestamp) && p.marker
    && |p.payload| <= d.limits.maxUnitBytes && d.limits.maxPackets >= 1 && TypeOf(p.payload[0]) != 28
  }

  lemma WholeIsOrdered(p: RawPacket, max: nat)
    requires p.marker && max >= 1 && p.payload != [] && TypeOf(p.payload[0]) != 28
    ensures D.Ordered(map[p.sequence := p], p.sequence, max) == Some([p])
  {
    var m: map<Seq16, Rtp.Packet> := map[p.sequence := p];
    assert D.Before(p.sequence, 0) == p.sequence;
    if max > 1 { assert D.Before(p.sequence, 1) != p.sequence; }
    assert D.RunLength(m, p.sequence, max) == 1;
    assert D.RunPackets(m, p.sequence, 1) == [p];
  }

  /** Such a packet is assembled at once, from itself alone. */
  lemma WholePush(d: D.State, p: RawPacket, c: Carrier)
    requires Whole(d, p) && WellFormed(c) && Payloads(c) == [p.payload]
    requires |ReusedPrefix([c], d.sps, d.pps)| + |AnnexB(AllUnits([c]))| <= d.limits.maxUnitBytes
    ensures
      var r := D.Push(d, p);
      && r.outcome.Emitted? && r.state.pending.None? && r.state.limits == d.limits && r.state.generation == d.generation
      && r.state.haveLast && r.state.lastSequence == p.sequence && r.state.lastTimestamp == p.timestamp && !r.state.discontinuity
      && r.state.sps == LastOf(WholeUnits([c]), 7, d.sps) && r.state.pps == LastOf(WholeUnits([c]), 8, d.pps)
      && r.outcome.unit.keyframe == HasType(AllUnits([c]), 5)
      && r.outcome.unit.discontinuity == (d.discontinuity || (d.haveLast && p.sequence != NextSequence(d.lastSequence)))
      && r.outcome.unit.decodable == (
           (HasType(AllUnits([c]), 5) || HasType(AllUnits([c]), 1)) && r.state.sps != [] && r.state.pps != [])
  {
    hide HasType, LastOf, ReusedPrefix, AnnexB, D.Assemble, D.Ordered;
    var unit := D.PendingUnit(p.generation, p.timestamp, map[p.sequence := p], Some(p.sequence), |p.payload|);
    assert map[][p.sequence := p] == map[p.sequence := p];
    WholeIsOrdered(p, d.limits.maxPackets);
    assert AllPayloads([c]) == [p.payload] && D.PayloadsOf([p]) == [p.payload];
    AssembleInverts([c], d.sps, d.pps, unit, [p], d.limits.maxUnitBytes);
    AssembledFrame(d, unit, p);
  }

  lemma AssembledFrame(d: D.State, unit: D.PendingUnit, p: Rtp.Packet)
    ensures var r := D.Assemble(d.sps, d.pps, unit, [p], d.limits.maxUnitBytes).result;
      r.Emitted? ==> r.unit.firstSequence == r.unit.lastSequence == p.sequence && r.unit.rtpTime == unit.timestamp
  {
    hide D.AppendAll;
  }

  // ------------------------------------------------------------------ the run

  const SPS_NAL: seq<Byte> := [0x67, 1]
  const PPS_NAL: seq<Byte> := [0x68, 1]
  const IDR_NAL: seq<Byte> := [0x65, 1]

  function SmallLimits(): Limits { LimitValues(1500, 100_000, 64) }

  /** Parameter sets and an IDR picture in one aggregation packet, then two dependent pictures. */
  function KeyCarrier(): Carrier { Aggregate(0x78, [SPS_NAL, PPS_NAL, IDR_NAL]) }

  function KeyPacket(): RawPacket {
    RawPacket(1, 1, 100, true, 5, [0x78, 0, 2, 0x67, 1, 0, 2, 0x68, 1, 0, 2, 0x65, 1])
  }

  function DependentPacket(n: Seq16): RawPacket
    requires n < 100
  {
    RawPacket(1, n, 100 * n, true, 5, [0x41, n])
  }

  function KeyNals(): seq<seq<Byte>> { [SPS_NAL, PPS_NAL, IDR_NAL] }

  lemma KeyCarried()
    ensures WellFormed(KeyCarrier()) && Payloads(KeyCarrier()) == [KeyPacket().payload]
    ensures AllUnits([KeyCarrier()]) == WholeUnits([KeyCarrier()]) == KeyNals()
  {
    var last: seq<seq<Byte>>, two: seq<seq<Byte>> := [IDR_NAL], [PPS_NAL, IDR_NAL];
    assert KeyNals()[1..] == two && two[1..] == last && last[1..] == [];
    assert Sized(last) == [0, 2] + IDR_NAL + Sized([]);
    assert Sized(two) == [0, 2] + PPS_NAL + Sized(last);
    assert Sized(KeyNals()) == [0, 2] + SPS_NAL + Sized(two);
    assert Payloads(KeyCarrier())[0] == KeyPacket().payload;
    assert [KeyCarrier()][1..] == [] && KeyNals() + [] == KeyNals();
  }

  lemma KeyKinds()
    ensures HasType(KeyNals(), 5) && HasType(KeyNals(), 7) && HasType(KeyNals(), 8)
    ensures LastOf(KeyNals(), 7, []) == SPS_NAL && LastOf(KeyNals(), 8, []) == PPS_NAL
  {
    var last: seq<seq<Byte>>, two: seq<seq<Byte>> := [IDR_NAL], [PPS_NAL, IDR_NAL];
    assert KeyNals()[0] == SPS_NAL && KeyNals()[1] == PPS_NAL && KeyNals()[2] == IDR_NAL;
    assert KeyNals()[1..] == two && two[1..] == last && last[1..] == [];
    assert TypeOf(0x67) == 7 && TypeOf(0x68) == 8 && TypeOf(0x65) == 5;
    assert LastOf(last, 7, SPS_NAL) == SPS_NAL && LastOf(two, 7, SPS_NAL) == SPS_NAL;
    assert LastOf(last, 8, PPS_NAL) == PPS_NAL && LastOf(two, 8, []) == PPS_NAL;
    assert LastOf(KeyNals(), 8, []) == LastOf(two, 8, []) && LastOf(KeyNals(), 7, []) == LastOf(two, 7, SPS_NAL);
  }

  lemma KeyBytes()
    ensures |AnnexB(KeyNals())| == 18
  {
    var last: seq<seq<Byte>>, two: seq<seq<Byte>> := [IDR_NAL], [PPS_NAL, IDR_NAL];
    assert KeyNals()[1..] == two && two[1..] == last && last[1..] == [];
    assert |AnnexB(last)| == 6 && |AnnexB(two)| == 12;
  }

  lemma DependentUnits(n: Seq16)
    requires n < 100
    ensures
      var c: Carrier := Single([0x41, n]);
      && WellFormed(c) && Payloads(c) == [[0x41, n]] && AllUnits([c]) == WholeUnits([c]) == [[0x41, n]]
      && !HasType([[0x41, n]], 5) && HasType([[0x41, n]], 1) && |AnnexB([[0x41, n]])| == 6
      && LastOf([[0x41, n]], 7, SPS_NAL) == SPS_NAL && LastOf([[0x41, n]], 8, PPS_NAL) == PPS_NAL
  {
    var units: seq<seq<Byte>> := [[0x41, n]];
    assert units[0] == [0x41, n] && units[1..] == [];
    assert [Single([0x41, n])][1..] == [];
  }

  /** What the first `n` packets leave in the depacketizer. */
  predicate After(d: D.State, n: Seq16) {
    && d.pending.None? && d.generation == 1 && d.limits == SmallLimits() && d.haveLast && !d.discontinuity
    && d.lastSequence == n && d.lastTimestamp == 100 * n && d.sps == SPS_NAL && d.pps == PPS_NAL
  }

  lemma KeyPush()
    ensures
      var r := D.Push(Init(1, SmallLimits()).depacketizer, KeyPacket());
      && After(r.state, 1) && r.outcome.Emitted? && r.outcome.unit.keyframe && r.outcome.unit.decodable && !r.outcome.unit.discontinuity
  {
    hide D.Push, AnnexB, AllUnits, WholeUnits, HasType, LastOf, Sized;
    KeyCarried();
    KeyKinds();
    KeyBytes();
    WholePush(Init(1, SmallLimits()).depacketizer, KeyPacket(), KeyCarrier());
  }

  lemma DependentPush(d: D.State, n: Seq16)
    requires 1 <= n < 99 && After(d, n)
    ensures var r := D.Push(d, DependentPacket(n + 1)); After(r.state, n + 1) && r.outcome.Emitted? && Depends(r.outcome.unit)
  {
    hide D.Push, AnnexB, AllUnits, WholeUnits, HasType, LastOf;
    DependentUnits(n + 1);
    WholePush(d, DependentPacket(n + 1), Single([0x41, n + 1]));
  }

  /** The first picture decodes, the second fails, and the third is decoded on it. */
  lemma FailedReferenceIsUsed(o: Output)
    ensures
      var first := Push(Init(1, SmallLimits()), KeyPacket(), true, Buffering);
      var second := Push(first, DependentPacket(2), true, Failure);
      var third := Push(second, DependentPacket(3), true, o);
      Sound(second.log, second.trace) && !Sound(third.log, third.trace)
  {
    hide D.Push, Sound, Assembling, Open, KeyPacket, DependentPacket;
    var s := Init(1, SmallLimits());
    InitIsHealthy(1, SmallLimits());
    KeyPush();
    PushHealth(s, KeyPacket(), true, Buffering);
    var first := Push(s, KeyPacket(), true, Buffering);
    assert first.synced;
    DependentPush(first.depacketizer, 1);
    PushHealth(first, DependentPacket(2), true, Failure);
    var second := Push(first, DependentPacket(2), true, Failure);
    assert second.depacketizer == D.Push(first.depacketizer, DependentPacket(2)).state;
    DependentPush(second.depacketizer, 2);
    FailureThenDependent(first, DependentPacket(2), DependentPacket(3), o);
  }
}
