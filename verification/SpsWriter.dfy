/**
A writer for the sequence parameter sets the host supports (ITU-T H.264, sections
7.3.2.1.1, 7.3.2.1.1.1 and E.1.1), and the theorem that the parser inverts it.
Writers take the bits that follow, so that each parser step meets one writer.
*/
module SpsWriter {
  import opened Basics
  import opened Rtp
  import opened Rbsp
  import opened Sps

  datatype Order =
    | ByLsb(bits: nat)
    | ByCycle(flag: Bit, first: int, second: int, offsets: seq<int>)
    | ByFrame

  datatype Aspect = NoAspect | Idc(idc: nat) | Explicit(width: nat, height: nat)

  datatype Signal = Signal(format: nat, full: Bit, matrix: Option<(nat, nat, nat)>)

  datatype Vui = Vui(aspect: Aspect, overscan: Option<Bit>, signal: Option<Signal>)

  /** `lists` are the eight scaling lists of the high profile, each its deltas. */
  datatype ParameterSet = ParameterSet(
    profile: nat, constraints: nat, level: nat, id: nat, lists: Option<seq<Option<seq<int>>>>,
    frameBits: nat, order: Order, references: nat, gaps: Bit, widthMbs: nat, heightMbs: nat, direct: Bit,
    crop: Option<(nat, nat)>, vui: Option<Vui>)

  predicate Signed(v: int) { -0x3FFF_FFFF <= v <= 0x3FFF_FFFF }

  /** The deltas of one list are exactly those its running scale asks for. */
  predicate Deltas(last: int, next: int, n: nat, deltas: seq<int>)
    decreases n
  {
    if n == 0 then deltas == []
    else if next == 0 then Deltas(last, next, n - 1, deltas)
    else
      && deltas != [] && Signed(deltas[0])
      && var next' := Remainder256(last + deltas[0] + 256);
         Deltas(if next' != 0 then next' else last, next', n - 1, deltas[1..])
  }

  predicate OrderSupported(o: Order) {
    match o
    case ByLsb(bits) => bits <= 12
    case ByCycle(_, a, b, offsets) => Signed(a) && Signed(b) && |offsets| <= 255 && forall v :: v in offsets ==> Signed(v)
    case ByFrame => true
  }

  predicate VuiSupported(v: Vui) {
    && (v.aspect.Idc? ==> v.aspect.idc < 255)
    && (v.aspect.Explicit? ==> v.aspect.width < 0x1_0000 && v.aspect.height < 0x1_0000)
    && (v.signal.Some? ==>
          && v.signal.value.format < 8
          && (v.signal.value.matrix.Some? ==>
                var m := v.signal.value.matrix.value; m.0 < 256 && m.1 < 256 && m.2 in MATRICES))
  }

  predicate Supported(s: ParameterSet) {
    && s.profile in {66, 77, 88, 100} && s.constraints < 256 && s.level < 256 && s.id <= 31
    && (s.lists.Some? ==> |s.lists.value| == 8 && forall i :: 0 <= i < 8 ==> s.lists.value[i].Some? ==> Deltas(8, 8, ListLength(i), s.lists.value[i].value))
    && s.frameBits <= 12 && OrderSupported(s.order) && s.references <= 16
    && 1 <= s.widthMbs <= 0x7FFF_FFFF && 1 <= s.heightMbs <= 0x7FFF_FFFF
    && (s.crop.Some? ==> s.crop.value.0 < 8 && s.crop.value.1 < 8)
    && (s.vui.Some? ==> VuiSupported(s.vui.value))
  }

  function Width(s: ParameterSet): int { s.widthMbs * 16 - (if s.crop.Some? then 2 * s.crop.value.0 else 0) }

  function Height(s: ParameterSet): int { s.heightMbs * 16 - (if s.crop.Some? then 2 * s.crop.value.1 else 0) }

  function ColorOf(v: Option<Vui>): Color {
    if v.Some? && v.value.signal.Some? then
      var g := v.value.signal.value;
      Color(g.full != 0, if g.matrix.Some? then g.matrix.value.2 else 0)
    else Color(false, 0)
  }

  // ------------------------------------------------------------- the writer

  function PutAllSe(vs: seq<int>, rest: seq<Bit>): seq<Bit> {
    if vs == [] then rest else PutSe(vs[0], PutAllSe(vs[1..], rest))
  }

  function PutLists(lists: seq<Option<seq<int>>>, rest: seq<Bit>): seq<Bit> {
    if lists == [] then rest
    else if lists[0].None? then [0] + PutLists(lists[1..], rest)
    else [1] + PutAllSe(lists[0].value, PutLists(lists[1..], rest))
  }

  function PutProfilePart(s: ParameterSet, rest: seq<Bit>): seq<Bit> {
    if s.profile != 100 then rest
    else PutUe(1, PutUe(0, PutUe(0, [0] + if s.lists.None? then [0] + rest else [1] + PutLists(s.lists.value, rest))))
  }

  function PutOrderPart(frameBits: nat, o: Order, rest: seq<Bit>): seq<Bit> {
    PutUe(frameBits,
          match o
          case ByLsb(bits) => PutUe(0, PutUe(bits, rest))
          case ByCycle(flag, a, b, offsets) => PutUe(1, [flag] + PutSe(a, PutSe(b, PutUe(|offsets|, PutAllSe(offsets, rest)))))
          case ByFrame => PutUe(2, rest))
  }

  function PutCrop(c: Option<(nat, nat)>, rest: seq<Bit>): seq<Bit> {
    if c.None? then [0] + rest else [1] + PutUe(0, PutUe(c.value.0, PutUe(0, PutUe(c.value.1, rest))))
  }

  function PutAspect(a: Aspect, rest: seq<Bit>): seq<Bit> {
    match a
    case NoAspect => [0] + rest
    case Idc(i) => [1] + PutU(8, i, rest)
    case Explicit(w, h) => [1] + PutU(8, 255, PutU(16, w, PutU(16, h, rest)))
  }

  function PutOverscan(o: Option<Bit>, rest: seq<Bit>): seq<Bit> {
    if o.None? then [0] + rest else [1] + ([o.value] + rest)
  }

  function PutSignal(g: Option<Signal>, rest: seq<Bit>): seq<Bit> {
    if g.None? then [0] + rest
    else
      [1] + PutU(3, g.value.format, [g.value.full] +
                 if g.value.matrix.None? then [0] + rest
                 else var m := g.value.matrix.value; [1] + PutU(8, m.0, PutU(8, m.1, PutU(8, m.2, rest))))
  }

  function PutVui(v: Option<Vui>, rest: seq<Bit>): seq<Bit> {
    if v.None? then [0] + rest
    else [1] + PutAspect(v.value.aspect, PutOverscan(v.value.overscan, PutSignal(v.value.signal, rest)))
  }

  function PutSizePart(s: ParameterSet, rest: seq<Bit>): seq<Bit>
    requires s.widthMbs >= 1 && s.heightMbs >= 1
  {
    PutUe(s.references, [s.gaps] + PutUe(s.widthMbs - 1, PutUe(s.heightMbs - 1,
      [1] + ([s.direct] + PutCrop(s.crop, PutVui(s.vui, rest))))))
  }

  /** The whole parameter set, followed by whatever follows. */
  function Put(s: ParameterSet, rest: seq<Bit>): seq<Bit>
    requires s.widthMbs >= 1 && s.heightMbs >= 1
  {
    PutU(8, s.profile, PutU(8, s.constraints, PutU(8, s.level, PutUe(s.id,
      PutProfilePart(s, PutOrderPart(s.frameBits, s.order, PutSizePart(s, rest)))))))
  }

  // ------------------------------------------------------------ round trips

  lemma {:induction false} ScalingListRoundTrip(last: int, next: int, n: nat, deltas: seq<int>, rest: seq<Bit>)
    requires Deltas(last, next, n, deltas)
    ensures ScalingList(Cursor(PutAllSe(deltas, rest), false), last, next, n) == Cursor(rest, false)
    decreases n
  {
    hide ReadSe, PutSe;
    if n > 0 {
      if next == 0 {
        ScalingListRoundTrip(last, next, n - 1, deltas, rest);
      } else {
        SeRoundTrip(deltas[0], PutAllSe(deltas[1..], rest));
        var next' := Remainder256(last + deltas[0] + 256);
        ScalingListRoundTrip(if next' != 0 then next' else last, next', n - 1, deltas[1..], rest);
      }
    }
  }

  lemma {:induction false} ScalingListsRoundTrip(lists: seq<Option<seq<int>>>, i: nat, rest: seq<Bit>)
    requires |lists| + i == 8
    requires forall k :: 0 <= k < |lists| ==> lists[k].Some? ==> Deltas(8, 8, ListLength(i + k), lists[k].value)
    ensures ScalingLists(Cursor(PutLists(lists, rest), false), i) == Cursor(rest, false)
    decreases |lists|
  {
    hide ReadU, ScalingList, PutAllSe;
    if lists != [] {
      var tail := PutLists(lists[1..], rest);
      ScalingListsRoundTrip(lists[1..], i + 1, rest);
      if lists[0].None? {
        ReadOneBit(0, tail);
      } else {
        ReadOneBit(1, PutAllSe(lists[0].value, tail));
        ScalingListRoundTrip(8, 8, ListLength(i), lists[0].value, tail);
      }
    }
  }

  lemma ProfilePartRoundTrip(s: ParameterSet, rest: seq<Bit>)
    requires Supported(s)
    ensures ProfilePart(Cursor(PutProfilePart(s, rest), false), s.profile) == Some(Cursor(rest, false))
  {
    hide ReadU, ReadUe, PutUe, ScalingLists, PutLists, Deltas;
    if s.profile == 100 {
      var lists := if s.lists.None? then [0] + rest else [1] + PutLists(s.lists.value, rest);
      UeRoundTrip(1, PutUe(0, PutUe(0, [0] + lists)));
      UeRoundTrip(0, PutUe(0, [0] + lists));
      UeRoundTrip(0, [0] + lists);
      ReadOneBit(0, lists);
      if s.lists.None? {
        ReadOneBit(0, rest);
      } else {
        ReadOneBit(1, PutLists(s.lists.value, rest));
        ScalingListsRoundTrip(s.lists.value, 0, rest);
      }
    }
  }

  lemma {:induction false} OffsetsRoundTrip(vs: seq<int>, rest: seq<Bit>)
    requires forall v :: v in vs ==> Signed(v)
    ensures Offsets(Cursor(PutAllSe(vs, rest), false), |vs|) == Cursor(rest, false)
    decreases |vs|
  {
    hide ReadSe, PutSe;
    if vs != [] {
      assert vs[0] in vs && Signed(vs[0]);
      SeRoundTrip(vs[0], PutAllSe(vs[1..], rest));
      OffsetsRoundTrip(vs[1..], rest);
    }
  }

  lemma OrderPartRoundTrip(frameBits: nat, o: Order, rest: seq<Bit>)
    requires frameBits <= 12 && OrderSupported(o)
    ensures OrderPart(Cursor(PutOrderPart(frameBits, o, rest), false)) == Some(Cursor(rest, false))
  {
    hide ReadU, ReadUe, ReadSe, PutUe, PutSe, PutAllSe, Offsets;
    match o
    case ByLsb(bits) =>
      UeRoundTrip(frameBits, PutUe(0, PutUe(bits, rest)));
      UeRoundTrip(0, PutUe(bits, rest));
      UeRoundTrip(bits, rest);
    case ByCycle(flag, a, b, offsets) =>
      var r1 := PutAllSe(offsets, rest);
      var r2 := PutUe(|offsets|, r1);
      UeRoundTrip(frameBits, PutUe(1, [flag] + PutSe(a, PutSe(b, r2))));
      UeRoundTrip(1, [flag] + PutSe(a, PutSe(b, r2)));
      ReadOneBit(flag, PutSe(a, PutSe(b, r2)));
      SeRoundTrip(a, PutSe(b, r2));
      SeRoundTrip(b, r2);
      UeRoundTrip(|offsets|, r1);
      OffsetsRoundTrip(offsets, rest);
    case ByFrame =>
      UeRoundTrip(frameBits, PutUe(2, rest));
      UeRoundTrip(2, rest);
  }

  lemma CropRoundTrip(c: Option<(nat, nat)>, rest: seq<Bit>)
    requires c.Some? ==> c.value.0 < 8 && c.value.1 < 8
    ensures CropPart(Cursor(PutCrop(c, rest), false))
         == Crop(0, if c.Some? then 2 * c.value.0 else 0, 0, if c.Some? then 2 * c.value.1 else 0, Cursor(rest, false))
  {
    hide ReadU, ReadUe, PutUe;
    if c.None? {
      ReadOneBit(0, rest);
    } else {
      var r1 := PutUe(c.value.1, rest);
      var r2 := PutUe(0, r1);
      var r3 := PutUe(c.value.0, r2);
      ReadOneBit(1, PutUe(0, r3));
      UeRoundTrip(0, r3);
      UeRoundTrip(c.value.0, r2);
      UeRoundTrip(0, r1);
      UeRoundTrip(c.value.1, rest);
    }
  }

  lemma AspectRoundTrip(a: Aspect, rest: seq<Bit>)
    requires a.Idc? ==> a.idc < 255
    requires a.Explicit? ==> a.width < 0x1_0000 && a.height < 0x1_0000
    ensures AspectPart(Cursor(PutAspect(a, rest), false)) == Cursor(rest, false)
  {
    hide ReadU, PutU;
    Powers();
    match a
    case NoAspect =>
      ReadOneBit(0, rest);
    case Idc(i) =>
      ReadOneBit(1, PutU(8, i, rest));
      ReadPutU(8, i, rest);
    case Explicit(w, h) =>
      ReadOneBit(1, PutU(8, 255, PutU(16, w, PutU(16, h, rest))));
      ReadPutU(8, 255, PutU(16, w, PutU(16, h, rest)));
      ReadPutU(16, w, PutU(16, h, rest));
      ReadPutU(16, h, rest);
  }

  lemma OverscanRoundTrip(o: Option<Bit>, rest: seq<Bit>)
    ensures OverscanPart(Cursor(PutOverscan(o, rest), false)) == Cursor(rest, false)
  {
    hide ReadU;
    if o.None? {
      ReadOneBit(0, rest);
    } else {
      ReadOneBit(1, [o.value] + rest);
      ReadOneBit(o.value, rest);
    }
  }

  lemma SignalRoundTrip(g: Option<Signal>, rest: seq<Bit>)
    requires g.Some? ==> g.value.format < 8
    requires g.Some? && g.value.matrix.Some? ==> var m := g.value.matrix.value; m.0 < 256 && m.1 < 256 && m.2 < 256
    ensures SignalPart(Cursor(PutSignal(g, rest), false))
         == (if g.None? then Color(false, 0)
             else Color(g.value.full != 0, if g.value.matrix.Some? then g.value.matrix.value.2 else 0), Cursor(rest, false))
  {
    hide ReadU, PutU;
    Powers();
    if g.None? {
      ReadOneBit(0, rest);
    } else {
      var desc := if g.value.matrix.None? then [0] + rest
                  else var m := g.value.matrix.value; [1] + PutU(8, m.0, PutU(8, m.1, PutU(8, m.2, rest)));
      ReadOneBit(1, PutU(3, g.value.format, [g.value.full] + desc));
      assert Pow2(3) == 8;
      ReadPutU(3, g.value.format, [g.value.full] + desc);
      ReadOneBit(g.value.full, desc);
      if g.value.matrix.None? {
        ReadOneBit(0, rest);
      } else {
        var m := g.value.matrix.value;
        ReadOneBit(1, PutU(8, m.0, PutU(8, m.1, PutU(8, m.2, rest))));
        ReadPutU(8, m.0, PutU(8, m.1, PutU(8, m.2, rest)));
        ReadPutU(8, m.1, PutU(8, m.2, rest));
        ReadPutU(8, m.2, rest);
      }
    }
  }

  lemma VuiRoundTrip(v: Option<Vui>, rest: seq<Bit>)
    requires v.Some? ==> VuiSupported(v.value)
    ensures ColorPart(Cursor(PutVui(v, rest), false)) == (ColorOf(v), Cursor(rest, false))
    ensures ColorOf(v).matrix in MATRICES
  {
    hide ReadU, AspectPart, OverscanPart, SignalPart, PutAspect, PutOverscan, PutSignal;
    if v.None? {
      ReadOneBit(0, rest);
    } else {
      var r1 := PutSignal(v.value.signal, rest);
      var r2 := PutOverscan(v.value.overscan, r1);
      ReadOneBit(1, PutAspect(v.value.aspect, r2));
      AspectRoundTrip(v.value.aspect, r2);
      OverscanRoundTrip(v.value.overscan, r1);
      SignalRoundTrip(v.value.signal, rest);
    }
  }

  /** What the host must answer for a supported parameter set. */
  ghost function Answer(s: ParameterSet, l: Geometry, color: bool): Parsed
    requires Supported(s)
  {
    if Inside(Width(s), Height(s), s.widthMbs * 16, s.heightMbs * 16, l)
    then Accepted(Width(s), Height(s), s.id, if color then ColorOf(s.vui) else Color(false, 0)) else Exceeded
  }

  lemma SizePartRoundTrip(s: ParameterSet, l: Geometry, color: bool, rest: seq<Bit>)
    requires Supported(s)
    ensures SizePart(Cursor(PutSizePart(s, rest), false), s.id, l, color) == Answer(s, l, color)
  {
    hide ReadU, ReadUe, PutUe, PutCrop, PutVui, CropPart, ColorPart, Bounds, Deltas, OrderSupported, VuiSupported, Inside, Mul64;
    var r1 := PutVui(s.vui, rest);
    var r2 := PutCrop(s.crop, r1);
    var r3 := [1] + ([s.direct] + r2);
    var r4 := PutUe(s.heightMbs - 1, r3);
    UeRoundTrip(s.references, [s.gaps] + PutUe(s.widthMbs - 1, r4));
    ReadOneBit(s.gaps, PutUe(s.widthMbs - 1, r4));
    UeRoundTrip(s.widthMbs - 1, r4);
    UeRoundTrip(s.heightMbs - 1, r3);
    ReadOneBit(1, [s.direct] + r2);
    ReadOneBit(s.direct, r2);
    CropRoundTrip(s.crop, r1);
    VuiRoundTrip(s.vui, rest);
    var k := CropPart(Cursor(r2, false));
    ProductsAreExact(false, s.widthMbs - 1, s.heightMbs - 1, k, l);
  }

  /** Reading a written parameter set gives back its cropped size, its id and its colour. */
  lemma ParseInvertsPut(s: ParameterSet, l: Geometry, color: bool, rest: seq<Bit>)
    requires Supported(s)
    ensures Parse(Cursor(Put(s, rest), false), l, color) == Answer(s, l, color)
  {
    hide ReadU, ReadUe, PutU, PutUe, ProfilePart, OrderPart, SizePart, PutProfilePart, PutOrderPart, PutSizePart, Answer, Deltas;
    Powers();
    var r1 := PutSizePart(s, rest);
    var r2 := PutOrderPart(s.frameBits, s.order, r1);
    var r3 := PutProfilePart(s, r2);
    var r4 := PutUe(s.id, r3);
    ReadPutU(8, s.profile, PutU(8, s.constraints, PutU(8, s.level, r4)));
    ReadPutU(8, s.constraints, PutU(8, s.level, r4));
    ReadPutU(8, s.level, r4);
    UeRoundTrip(s.id, r3);
    ProfilePartRoundTrip(s, r2);
    OrderPartRoundTrip(s.frameBits, s.order, r1);
    SizePartRoundTrip(s, l, color, rest);
  }

  /** A NAL unit: its header byte, then the protected bytes of its bits. */
  function Nal(header: Byte, bits: seq<Bit>): (r: seq<Byte>)
    requires |bits| % 8 == 0
    ensures r != [] && r[0] == header
  {
    [header] + Protect(Pack(bits), 0)
  }

  /**
  The whole way: bits, bytes and emulation prevention out; the host's reader and
  parser back. `tail` is whatever follows: the rest of the VUI and trailing bits.
  */
  lemma SpsRoundTrip(s: ParameterSet, header: Byte, tail: seq<Bit>, l: Geometry, color: bool)
    requires Supported(s) && |Put(s, tail)| % 8 == 0
    ensures ParseNal(Nal(header, Put(s, tail)), l, color) == Answer(s, l, color)
  {
    hide Parse, Answer, Strip, Protect, Put, Deltas, OrderSupported, VuiSupported;
    var bits := Put(s, tail);
    ReaderSeesPacked(bits);
    assert Nal(header, bits)[1..] == Protect(Pack(bits), 0);
    ParseInvertsPut(s, l, color, tail);
  }
}
