/**
Pictures that `assemble` calls decodable and `validate` refuses, written out: a keyframe with
one of its parameter sets in band, and a dependent picture with one. And a first keyframe that
both take, with nothing cached.
*/
module AcceptanceRuns {
  import opened Basics
  import opened Rtp
  import opened Rbsp
  import opened Sps
  import opened SpsWriter
  import opened DepacketizerSpec
  import opened Packetizer
  import opened AnnexBScan
  import opened Acceptance

  // ----------------------------------------------------------- slice headers

  /** A code is followed by what was put after it. */
  lemma UeLength(v: nat, rest: seq<Bit>)
    ensures var n := 2 * Log2(v + 1) + 1; |PutUe(v, rest)| == n + |rest| && PutUe(v, rest)[n..] == rest
  {
    var k := Log2(v + 1);
    ZerosLength(k, [1] + PutU(k, v + 1 - Pow2(k), rest));
    assert PutUe(v, rest) == PutZeros(k, [1] + PutU(k, v + 1 - Pow2(k), rest));
    assert PutUe(v, rest)[k..] == [1] + PutU(k, v + 1 - Pow2(k), rest);
  }

  lemma {:induction false} ZerosLength(n: nat, rest: seq<Bit>)
    ensures |PutZeros(n, rest)| == n + |rest| && PutZeros(n, rest)[n..] == rest
  {
    if n > 0 { ZerosLength(n - 1, rest); }
  }

  /** The bits of a slice up to what its check reads, and the trailing bits. */
  function SliceBits(first: nat, kind: nat, pps: nat, tail: seq<Bit>): seq<Bit> {
    PutUe(first, PutUe(kind, PutUe(pps, tail)))
  }

  /** The check reads back the head of any slice that is short enough to be read whole. */
  lemma SliceHeadRoundTrip(header: Byte, first: nat, kind: nat, pps: nat, tail: seq<Bit>)
    requires first <= 0x7FFF_FFFE && kind <= 0x7FFF_FFFE && pps <= 0x7FFF_FFFE
    requires |SliceBits(first, kind, pps, tail)| % 8 == 0 && |Nal(header, SliceBits(first, kind, pps, tail))| <= 128
    ensures HeadOf(Nal(header, SliceBits(first, kind, pps, tail))) == SliceHead(first, kind, pps, false)
  {
    hide ReadUe, PutUe, Strip, Protect, Pack;
    var bits := SliceBits(first, kind, pps, tail);
    var nal := Nal(header, bits);
    assert nal[1..Min(|nal|, 128)] == Protect(Pack(bits), 0);
    ReaderSeesPacked(bits);
    UeRoundTrip(first, PutUe(kind, PutUe(pps, tail)));
    UeRoundTrip(kind, PutUe(pps, tail));
    UeRoundTrip(pps, tail);
  }

  lemma {:induction false} ProtectGrows(src: seq<Byte>, zeros: nat)
    ensures |src| <= |Protect(src, zeros)| <= 2 * |src|
    decreases |src|
  {
    if src != [] {
      ProtectGrows(src[1..], if zeros == 2 && src[0] <= 3 then (if src[0] == 0 then 1 else 0) else if src[0] == 0 then zeros + 1 else 0);
    }
  }

  // --------------------------------------------------------------- the units

  /** `s` is `n` bits and then `tail`. */
  predicate Before(s: seq<Bit>, n: nat, tail: seq<Bit>) { |s| == n + |tail| && s[n..] == tail }

  lemma BeforeBefore(s: seq<Bit>, n: nat, t: seq<Bit>, m: nat, u: seq<Bit>)
    requires Before(s, n, t) && Before(t, m, u)
    ensures Before(s, n + m, u)
  {
    assert s[n..][m..] == s[n + m..];
  }

  /** A baseline stream of 16 by 16 pixels. */
  const SMALL := ParameterSet(66, 0, 10, 0, None, 0, ByFrame, 0, 0, 1, 1, 0, None, None)

  const BOUNDS := AnnexBScan.Bounds(100_000, 64, Geometry(4096, 2160, 4096 * 2160))

  lemma Logarithms()
    ensures Log2(1) == 0 && Log2(3) == 1 && Log2(6) == 2 && Log2(8) == 3
  {
  }

  lemma SizeBits(tail: seq<Bit>)
    ensures Before(PutSizePart(SMALL, tail), 8, tail)
  {
    hide PutUe, Log2;
    Logarithms();
    var rest := [0] + ([0] + tail);
    var inner := [1] + ([0] + rest);
    var height := PutUe(0, inner);
    var width := PutUe(0, height);
    UeLength(0, inner);
    UeLength(0, height);
    UeLength(0, [0] + width);
    assert Before(rest, 2, tail) && Before(inner, 4, tail);
    BeforeBefore(height, 1, inner, 4, tail);
    BeforeBefore(width, 1, height, 5, tail);
    BeforeBefore([0] + width, 1, width, 6, tail);
    BeforeBefore(PutUe(0, [0] + width), 1, [0] + width, 7, tail);
  }

  lemma SmallBits(tail: seq<Bit>)
    ensures Before(Put(SMALL, tail), 37, tail)
  {
    hide PutUe, Log2, PutSizePart, ToBits;
    Logarithms();
    SizeBits(tail);
    var size := PutSizePart(SMALL, tail);
    var kind := PutUe(2, size);
    var order := PutUe(0, kind);
    var id := PutUe(0, order);
    UeLength(2, size);
    UeLength(0, kind);
    UeLength(0, order);
    BeforeBefore(kind, 3, size, 8, tail);
    BeforeBefore(order, 1, kind, 11, tail);
    BeforeBefore(id, 1, order, 12, tail);
    var level := PutU(8, 10, id);
    var constraints := PutU(8, 0, level);
    assert Before(level, 8, id) && Before(constraints, 8, level) && Before(PutU(8, 66, constraints), 8, constraints);
    BeforeBefore(level, 8, id, 13, tail);
    BeforeBefore(constraints, 8, level, 21, tail);
    BeforeBefore(PutU(8, 66, constraints), 8, constraints, 29, tail);
    assert PutOrderPart(0, ByFrame, size) == order && PutProfilePart(SMALL, order) == order;
  }

  function SpsBits(): seq<Bit> { Put(SMALL, Trailing(37)) }

  /** An intra slice of type 7, and a slice of type 5 of a picture that is not IDR. */
  function IdrBits(): seq<Bit> { SliceBits(0, 7, 0, Trailing(9)) }

  function DependentBits(): seq<Bit> { SliceBits(0, 5, 0, Trailing(7)) }

  lemma BitLengths()
    ensures |SpsBits()| == 40 && Trailed(SpsBits())
    ensures |IdrBits()| == 16 && Trailed(IdrBits())
    ensures |DependentBits()| == 8 && Trailed(DependentBits())
  {
    hide PutUe, Log2, Put;
    Logarithms();
    SmallBits(Trailing(37));
    HeadBits(7, 7, Trailing(9));
    HeadBits(5, 5, Trailing(7));
    assert SpsBits()[37..] == Trailing(37) && IdrBits()[9..] == Trailing(9) && DependentBits()[7..] == Trailing(7);
  }

  lemma HeadBits(kind: nat, n: nat, tail: seq<Bit>)
    requires n == 2 * Log2(kind + 1) + 1
    ensures Before(SliceBits(0, kind, 0, tail), n + 2, tail)
  {
    hide PutUe, Log2;
    Logarithms();
    UeLength(0, tail);
    UeLength(kind, PutUe(0, tail));
    UeLength(0, PutUe(kind, PutUe(0, tail)));
    BeforeBefore(PutUe(kind, PutUe(0, tail)), n, PutUe(0, tail), 1, tail);
    BeforeBefore(SliceBits(0, kind, 0, tail), 1, PutUe(kind, PutUe(0, tail)), n + 1, tail);
  }

  function SpsNal(): seq<Byte> { BitLengths(); Nal(0x67, SpsBits()) }

  const PPS_NAL: seq<Byte> := [0x68, 0xCE]

  function IdrNal(): seq<Byte> { BitLengths(); Nal(0x65, IdrBits()) }

  function DependentNal(): seq<Byte> { BitLengths(); Nal(0x41, DependentBits()) }

  /** A unit as the stream carries it, short enough. */
  ghost predicate Carriable(nal: seq<Byte>) { Proper(nal) && Legible(nal) && |nal| <= 11 }

  lemma WrittenIsCarriable(header: Byte, bits: seq<Bit>)
    requires 0 < header < 0x80 && TypeOf(header) in {1, 5, 7} && Trailed(bits) && |bits| <= 40
    ensures Carriable(Nal(header, bits))
  {
    hide Pack, Protect;
    WrittenIsProper(header, bits);
    ProtectGrows(Pack(bits), 0);
  }

  lemma SmallAnswer()
    ensures Supported(SMALL) && Answer(SMALL, BOUNDS.size, true) == Accepted(16, 16, 0, Color(false, 0))
  {
  }

  lemma WrittenSpsIsGood(p: ParameterSet, tail: seq<Bit>)
    requires Supported(p) && Trailed(Put(p, tail)) && |Put(p, tail)| <= 40 && Answer(p, BOUNDS.size, true).Accepted?
    ensures var nal := Nal(0x67, Put(p, tail)); Carriable(nal) && SpsOk(nal, BOUNDS)
  {
    hide Put, ParseNal, Pack, Protect, Trailed, Proper, Answer;
    WrittenIsCarriable(0x67, Put(p, tail));
    SpsRoundTrip(p, 0x67, tail, BOUNDS.size, true);
  }

  lemma SpsIsGood()
    ensures Carriable(SpsNal()) && SpsOk(SpsNal(), BOUNDS) && SpsNal()[0] == 0x67
  {
    hide Nal, Put, ParseNal, Trailing, Trailed, Proper, Supported, Answer, Carriable, SpsOk;
    BitLengths();
    SmallAnswer();
    WrittenSpsIsGood(SMALL, Trailing(37));
  }

  lemma PpsIsGood()
    ensures Carriable(PPS_NAL) && PpsOk(PPS_NAL)
  {
  }

  lemma SliceIsGood(header: Byte, kind: nat, tail: seq<Bit>, idr: bool)
    requires Trailed(SliceBits(0, kind, 0, tail)) && |SliceBits(0, kind, 0, tail)| <= 16
    requires TypeOf(header) == (if idr then 5 else 1) && 0 < header < 0x80 && kind <= 9 && (idr ==> kind in {2, 7})
    ensures var nal := Nal(header, SliceBits(0, kind, 0, tail)); Carriable(nal) && SliceOk(nal, true, idr) && nal[0] == header
  {
    hide SliceBits, HeadOf, Pack, Protect, Proper;
    var bits := SliceBits(0, kind, 0, tail);
    WrittenIsCarriable(header, bits);
    SliceHeadRoundTrip(header, 0, kind, 0, tail);
  }

  lemma SlicesAreGood()
    ensures Carriable(IdrNal()) && SliceOk(IdrNal(), true, true) && IdrNal()[0] == 0x65
    ensures Carriable(DependentNal()) && SliceOk(DependentNal(), true, false) && DependentNal()[0] == 0x41
  {
    hide Nal, SliceBits, HeadOf, Trailing, Trailed, Proper, SliceOk, Legible, Carriable, PutUe, Log2, Put, Pack, Protect, Strip, SpsBits;
    BitLengths();
    SliceIsGood(0x65, 7, Trailing(9), true);
    SliceIsGood(0x41, 5, Trailing(7), false);
  }

  // ------------------------------------------------------------- the pictures

  function Singles(nals: seq<seq<Byte>>): seq<Carrier> {
    if nals == [] then [] else [Single(nals[0])] + Singles(nals[1..])
  }

  lemma OneMoreSingle(nal: seq<Byte>, rest: seq<Carrier>)
    ensures AllUnits([Single(nal)] + rest) == [nal] + AllUnits(rest)
    ensures WholeUnits([Single(nal)] + rest) == [nal] + WholeUnits(rest)
  {
    assert ([Single(nal)] + rest)[1..] == rest;
  }

  lemma OneMorePayload(nal: seq<Byte>, rest: seq<Carrier>)
    requires WellFormed(Single(nal)) && forall c :: c in rest ==> WellFormed(c)
    ensures AllPayloads([Single(nal)] + rest) == [nal] + AllPayloads(rest)
  {
    assert ([Single(nal)] + rest)[1..] == rest;
  }

  lemma {:induction false} SinglesCarry(nals: seq<seq<Byte>>)
    requires forall n :: n in nals ==> n != [] && 1 <= TypeOf(n[0]) <= 23
    ensures (forall c :: c in Singles(nals) ==> WellFormed(c)) && AllPayloads(Singles(nals)) == nals
    ensures AllUnits(Singles(nals)) == WholeUnits(Singles(nals)) == nals
  {
    hide AllUnits, WholeUnits, AllPayloads, TypeOf;
    if nals == [] {
      NothingCarried();
    } else {
      assert nals[0] in nals && forall n :: n in nals[1..] ==> n in nals;
      SinglesCarry(nals[1..]);
      OneMoreSingle(nals[0], Singles(nals[1..]));
      OneMorePayload(nals[0], Singles(nals[1..]));
      assert nals == [nals[0]] + nals[1..];
    }
  }

  lemma NothingCarried()
    ensures AllPayloads([]) == [] && AllUnits([]) == WholeUnits([]) == []
  {
  }

  lemma {:induction false} SmallStream(nals: seq<seq<Byte>>)
    requires forall n :: n in nals ==> |n| <= 11
    ensures |AnnexB(nals)| <= 15 * |nals|
  {
    if nals != [] {
      assert nals[0] in nals && forall n :: n in nals[1..] ==> n in nals;
      SmallStream(nals[1..]);
    }
  }

  /** Single packets of these units, after what was cached, and how they are assembled. */
  ghost predicate Small(nals: seq<seq<Byte>>) {
    1 <= |nals| <= 3 && forall n :: n in nals ==> Carriable(n)
  }

  lemma SmallIsEncoded(nals: seq<seq<Byte>>)
    requires Small(nals)
    ensures Encoded(Singles(nals)) && AllLegible(nals, 2, BOUNDS) && AllPayloads(Singles(nals)) == nals
    ensures AllUnits(Singles(nals)) == WholeUnits(Singles(nals)) == nals
  {
    hide Proper;
    SinglesCarry(nals);
  }

  lemma SmallFits(nals: seq<seq<Byte>>, sps: seq<Byte>, pps: seq<Byte>)
    requires Small(nals) && |LastOf(nals, 7, sps)| <= 11 && |LastOf(nals, 8, pps)| <= 11
    ensures |ReusedPrefix(Singles(nals), sps, pps)| + |AnnexB(AllUnits(Singles(nals)))| <= 100
  {
    hide Proper, Legible, LastOf, HasType, AnnexB;
    SmallIsEncoded(nals);
    SmallStream(nals);
    SmallStream([LastOf(nals, 7, sps), LastOf(nals, 8, pps)]);
  }

  /** What one more unit in front adds. */
  lemma OneMore(x: seq<Byte>, rest: seq<seq<Byte>>, ts: set<int>)
    requires x != []
    ensures Core([x] + rest) == (if Skipped(x) then [] else [x]) + Core(rest)
    ensures OfTypes([x] + rest, ts) == (if TypeOf(x[0]) in ts then [x] else []) + OfTypes(rest, ts)
  {
    hide TypeOf, Skipped;
    assert ([x] + rest)[1..] == rest && ([x] + rest)[0] == x;
  }

  lemma OneMoreLast(x: seq<Byte>, rest: seq<seq<Byte>>, t: nat, c: seq<Byte>)
    requires x != []
    ensures LastOf([x] + rest, t, c) == LastOf(rest, t, if TypeOf(x[0]) == t then x else c)
    ensures HasType([x] + rest, t) <==> TypeOf(x[0]) == t || HasType(rest, t)
  {
    hide TypeOf;
    var all := [x] + rest;
    assert all[1..] == rest && all[0] == x;
    if TypeOf(x[0]) == t { assert x in all; }
    if HasType(rest, t) {
      var n :| n in rest && n != [] && TypeOf(n[0]) == t;
      assert n in all;
    }
  }

  lemma NoUnits(t: nat, c: seq<Byte>, ts: set<int>)
    ensures Core([]) == [] && OfTypes([], ts) == [] && LastOf([], t, c) == c && !HasType([], t)
  {
  }

  /** The parameter sets and slices of two units. */
  lemma TwoUnits(x: seq<Byte>, y: seq<Byte>, ts: set<int>)
    requires x != [] && y != []
    ensures Core([x, y]) == (if Skipped(x) then [] else [x]) + (if Skipped(y) then [] else [y])
    ensures OfTypes([x, y], ts) == (if TypeOf(x[0]) in ts then [x] else []) + (if TypeOf(y[0]) in ts then [y] else [])
  {
    hide Core, OfTypes, TypeOf, Skipped;
    NoUnits(0, [], ts);
    OneMore(y, [], ts);
    OneMore(x, [y], ts);
    assert [y] + [] == [y] && [x] + [y] == [x, y];
  }

  lemma LastOfTwo(x: seq<Byte>, y: seq<Byte>, t: nat, c: seq<Byte>)
    requires x != [] && y != []
    ensures LastOf([x, y], t, c) == if TypeOf(y[0]) == t then y else if TypeOf(x[0]) == t then x else c
    ensures HasType([x, y], t) <==> TypeOf(x[0]) == t || TypeOf(y[0]) == t
  {
    hide LastOf, HasType, TypeOf;
    var d := if TypeOf(x[0]) == t then x else c;
    NoUnits(t, if TypeOf(y[0]) == t then y else d, {});
    OneMoreLast(y, [], t, d);
    OneMoreLast(x, [y], t, c);
    assert [y] + [] == [y] && [x] + [y] == [x, y];
  }

  /** A good pair of parameter sets, and a slice that is a picture by itself. */
  ghost predicate Parts(sps: seq<Byte>, pps: seq<Byte>, slice: seq<Byte>, idr: bool) {
    && Carriable(sps) && SpsOk(sps, BOUNDS) && Carriable(pps) && PpsOk(pps)
    && Carriable(slice) && SliceOk(slice, true, idr)
  }

  lemma OneSlice(slice: seq<Byte>, idr: bool)
    requires SliceOk(slice, true, idr)
    ensures Slices([slice], idr) && slice != [] && TypeOf(slice[0]) == if idr then 5 else 1
  {
    hide HeadOf;
  }

  lemma BesideSlice(sps: seq<Byte>, pps: seq<Byte>, band: seq<Byte>, slice: seq<Byte>, idr: bool)
    requires Parts(sps, pps, slice, idr) && band in {sps, pps}
    ensures var p := Sent(Singles([band, slice]), sps, pps);
      && OtherwiseAcceptable(p, BOUNDS) && !SetsAgree(p, Stream(16, 16, Color(false, 0)), BOUNDS)
      && |ReusedPrefix(p.carriers, sps, pps)| + |AnnexB(p.Units())| <= 100 && AllPayloads(p.carriers) == [band, slice]
  {
    hide HeadOf, ParseNal, Proper, Singles, SliceOk, Slices, Core, OfTypes, LastOf, HasType, AnnexB, ReusedPrefix;
    var p := Sent(Singles([band, slice]), sps, pps);
    OneSlice(slice, idr);
    SmallIsEncoded([band, slice]);
    TwoUnits(band, slice, {7, 8});
    TwoUnits(band, slice, {1, 5});
    LastOfTwo(band, slice, 7, sps);
    LastOfTwo(band, slice, 8, pps);
    LastOfTwo(band, slice, 5, []);
    SmallFits([band, slice], sps, pps);
    assert p.Sps() == sps && p.Pps() == pps;
    assert SlicesIn(p.Units()) == [slice] && SetsIn(p.Units()) == [band] && Core(p.Units()) == [band, slice];
  }

  const KNOWN := Stream(16, 16, Color(false, 0))

  function PacketOf(n: Seq16, marker: bool, nal: seq<Byte>): Rtp.Packet
    requires nal != []
  {
    RawPacket(1, n, 90, marker, 5, nal)
  }

  /** One parameter set in band before the slice, both cached: decodable, and refused. */
  lemma SetBesideSliceIsRefused(sps: seq<Byte>, pps: seq<Byte>, band: seq<Byte>, slice: seq<Byte>, idr: bool, unit: PendingUnit)
    requires Parts(sps, pps, slice, idr) && band in {sps, pps}
    ensures band != [] && slice != []
    ensures var u := Assemble(sps, pps, unit, [PacketOf(1, false, band), PacketOf(2, true, slice)], 100).result;
      u.Emitted? && u.unit.decodable && Validate(u.unit.annexB, u.unit.keyframe, KNOWN, BOUNDS).Bad?
  {
    hide HeadOf, ParseNal, Proper, Singles, Slices, Core, OfTypes, LastOf, HasType, AnnexB, ReusedPrefix, Assemble, Validate, OtherwiseAcceptable, SetsAgree;
    var p := Sent(Singles([band, slice]), sps, pps);
    var packets: seq<Rtp.Packet> := [PacketOf(1, false, band), PacketOf(2, true, slice)];
    BesideSlice(sps, pps, band, slice, idr);
    assert PayloadsOf(packets) == [band, slice];
    DecodableAcceptedIff(p, unit, packets, 100, KNOWN, BOUNDS);
  }

  /** A keyframe with its sequence parameter set alone in band, and a dependent picture with the other, byte by byte. */
  lemma DecodableYetRefused(unit: PendingUnit)
    ensures SpsNal() != [] && IdrNal() != [] && DependentNal() != []
    ensures
      var key := Assemble(SpsNal(), PPS_NAL, unit, [PacketOf(1, false, SpsNal()), PacketOf(2, true, IdrNal())], 100).result;
      key.Emitted? && key.unit.decodable && Validate(key.unit.annexB, key.unit.keyframe, KNOWN, BOUNDS).Bad?
    ensures
      var dependent := Assemble(SpsNal(), PPS_NAL, unit, [PacketOf(1, false, PPS_NAL), PacketOf(2, true, DependentNal())], 100).result;
      dependent.Emitted? && dependent.unit.decodable && Validate(dependent.unit.annexB, dependent.unit.keyframe, KNOWN, BOUNDS).Bad?
  {
    hide SpsNal, IdrNal, DependentNal, Assemble, Validate, SliceOk, SpsOk, Proper, Carriable;
    SpsIsGood();
    PpsIsGood();
    SlicesAreGood();
    SetBesideSliceIsRefused(SpsNal(), PPS_NAL, SpsNal(), IdrNal(), true, unit);
    SetBesideSliceIsRefused(SpsNal(), PPS_NAL, PPS_NAL, DependentNal(), false, unit);
  }

  lemma ThreeUnits(x: seq<Byte>, y: seq<Byte>, z: seq<Byte>)
    requires IsType(x, 7) && IsType(y, 8) && IsType(z, 5)
    ensures Core([x, y, z]) == [x, y, z] && SetsIn([x, y, z]) == [x, y] && SlicesIn([x, y, z]) == [z]
  {
    hide Core, OfTypes, TypeOf;
    TwoUnits(y, z, {7, 8});
    TwoUnits(y, z, {1, 5});
    OneMore(x, [y, z], {7, 8});
    OneMore(x, [y, z], {1, 5});
    assert [x] + [y, z] == [x, y, z];
  }

  lemma LastOfThree(x: seq<Byte>, y: seq<Byte>, z: seq<Byte>, t: nat)
    requires IsType(x, 7) && IsType(y, 8) && IsType(z, 5)
    ensures LastOf([x, y, z], t, []) == if t == 5 then z else if t == 8 then y else if t == 7 then x else []
    ensures HasType([x, y, z], t) <==> t in {5, 7, 8}
  {
    hide LastOf, HasType, TypeOf;
    LastOfTwo(y, z, t, if t == 7 then x else []);
    OneMoreLast(x, [y, z], t, []);
    assert [x] + [y, z] == [x, y, z];
  }

  /** The first keyframe of a stream, with nothing cached and both parameter sets in band: decodable and accepted. */
  lemma FirstKeyframeIsAccepted(sps: seq<Byte>, pps: seq<Byte>, slice: seq<Byte>, unit: PendingUnit, known: Stream)
    requires Parts(sps, pps, slice, true)
    ensures sps != [] && pps != [] && slice != []
    ensures var u := Assemble([], [], unit, [PacketOf(1, false, sps), PacketOf(2, false, pps), PacketOf(3, true, slice)], 100).result;
      u.Emitted? && u.unit.decodable && Validate(u.unit.annexB, u.unit.keyframe, known, BOUNDS).Good?
  {
    hide HeadOf, ParseNal, Proper, Singles, SliceOk, Slices, Core, OfTypes, LastOf, HasType, AnnexB, ReusedPrefix, Assemble, Validate;
    var nals := [sps, pps, slice];
    var p := Sent(Singles(nals), [], []);
    var packets: seq<Rtp.Packet> := [PacketOf(1, false, sps), PacketOf(2, false, pps), PacketOf(3, true, slice)];
    OneSlice(slice, true);
    SmallIsEncoded(nals);
    ThreeUnits(sps, pps, slice);
    LastOfThree(sps, pps, slice, 5);
    LastOfThree(sps, pps, slice, 7);
    LastOfThree(sps, pps, slice, 8);
    SmallFits(nals, [], []);
    assert SlicesIn(p.Units()) == [slice] && Core(p.Units()) == SetsIn(p.Units()) + [slice];
    assert PayloadsOf(packets) == nals;
    DecodableAcceptedIff(p, unit, packets, 100, known, BOUNDS);
  }
}
