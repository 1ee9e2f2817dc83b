/**
The host's SPS check, `parseSPSBoundsColor` of `internal/video/sps_validate.go`:
the parser as functions on a bit cursor, the same parser in place on `RbspBits`,
and a writer of ITU-T H.264 section 7.3.2.1.1 that it inverts.
*/
module Sps {
  import opened Basics
  import opened Rtp
  import opened Rbsp

  const DEFAULT_MAX_WIDTH := 4096
  const DEFAULT_MAX_HEIGHT := 2160
  const DEFAULT_MAX_PIXELS := 4096 * 2160

  datatype Geometry = Geometry(maxWidth: nat, maxHeight: nat, maxPixels: nat)

  datatype Color = Color(full: bool, matrix: nat)

  datatype Parsed = Malformed | Exceeded | Accepted(width: nat, height: nat, id: nat, color: Color)

  function Min(a: nat, b: nat): nat { if a <= b then a else b }

  // ------------------------------------------------------------- the parser

  /** One scaling list: a delta is read only while the running scale is not zero. */
  function ScalingList(c: Cursor, last: int, next: int, n: nat): Cursor
    decreases n
  {
    if n == 0 then c
    else if next == 0 then ScalingList(c, last, next, n - 1)
    else
      var g := ReadSe(c);
      var next' := Remainder256(last + g.value + 256);
      ScalingList(g.cursor, if next' != 0 then next' else last, next', n - 1)
  }

  /** Go's `%` truncates toward zero. */
  function Remainder256(x: int): int { if x >= 0 then x % 256 else -(-x % 256) }

  function ListLength(i: nat): nat { if i >= 6 then 64 else 16 }

  function ScalingLists(c: Cursor, i: nat): Cursor
    requires i <= 8
    decreases 8 - i
  {
    if i == 8 then c
    else
      var g := ReadU(c, 1);
      ScalingLists(if g.value == 0 then g.cursor else ScalingList(g.cursor, 8, 8, ListLength(i)), i + 1)
  }

  /** The part that only the high profile has; `None` for what is not supported. */
  function ProfilePart(c: Cursor, profile: nat): Option<Cursor> {
    if profile in {66, 77, 88} then Some(c)
    else if profile != 100 then None
    else
      var chroma := ReadUe(c);
      if chroma.value != 1 then None else
      var luma := ReadUe(chroma.cursor);
      if luma.value != 0 then None else
      var depth := ReadUe(luma.cursor);
      if depth.value != 0 then None else
      var bypass := ReadU(depth.cursor, 1);
      if bypass.value != 0 then None else
      var matrix := ReadU(bypass.cursor, 1);
      Some(if matrix.value != 0 then ScalingLists(matrix.cursor, 0) else matrix.cursor)
  }

  function Offsets(c: Cursor, n: nat): Cursor
    decreases n
  {
    if n == 0 then c else Offsets(ReadSe(c).cursor, n - 1)
  }

  /** Frame numbering and picture order count. */
  function OrderPart(c: Cursor): Option<Cursor> {
    var frames := ReadUe(c);
    if frames.value > 12 then None else
    var kind := ReadUe(frames.cursor);
    match kind.value
    case 0 =>
      var bits := ReadUe(kind.cursor);
      if bits.value > 12 then None else Some(bits.cursor)
    case 1 =>
      var zero := ReadU(kind.cursor, 1);
      var cycle := ReadUe(ReadSe(ReadSe(zero.cursor).cursor).cursor);
      if cycle.value > 255 then None else Some(Offsets(cycle.cursor, cycle.value))
    case 2 => Some(kind.cursor)
    case _ => None
  }

  datatype Crop = Crop(left: nat, right: nat, top: nat, bottom: nat, cursor: Cursor)

  function CropPart(c: Cursor): (r: Crop)
    ensures r.left <= 0xFFFF_FFFC && r.right <= 0xFFFF_FFFC && r.top <= 0xFFFF_FFFC && r.bottom <= 0xFFFF_FFFC
  {
    var flag := ReadU(c, 1);
    if flag.value == 0 then Crop(0, 0, 0, 0, flag.cursor)
    else
      var l := ReadUe(flag.cursor);
      var r := ReadUe(l.cursor);
      var t := ReadUe(r.cursor);
      var b := ReadUe(t.cursor);
      Crop(l.value * 2, r.value * 2, t.value * 2, b.value * 2, b.cursor)
  }

  /** Go's unsigned 64-bit product. */
  function Mul64(a: nat, b: nat): nat { a * b % 0x1_0000_0000_0000_0000 }

  datatype Verdict = Fine(width: nat, height: nat) | Wrong | TooLarge

  /** The bounds tests, with the products of the source wrapping at 64 bits. */
  function Bounds(err: bool, cw: nat, ch: nat, k: Crop, l: Geometry): Verdict {
    if err || k.left + k.right >= cw || k.top + k.bottom >= ch then Wrong
    else if k.left != 0 || k.top != 0 || k.right >= 16 || k.bottom >= 16 then Wrong
    else
      var w, h := cw - k.right, ch - k.bottom;
      if || w > Min(l.maxWidth, DEFAULT_MAX_WIDTH)
         || h > Min(l.maxHeight, DEFAULT_MAX_HEIGHT)
         || Mul64(w, h) > Min(l.maxPixels, DEFAULT_MAX_PIXELS)
         || Mul64(cw, ch) > DEFAULT_MAX_WIDTH * ((DEFAULT_MAX_HEIGHT + 15) / 16 * 16)
      then TooLarge else Fine(w, h)
  }

  function ColorPart(c: Cursor): (r: (Color, Cursor)) {
    var vui := ReadU(c, 1);
    if vui.value == 0 then (Color(false, 0), vui.cursor)
    else SignalPart(OverscanPart(AspectPart(vui.cursor)))
  }

  function AspectPart(c: Cursor): Cursor {
    var flag := ReadU(c, 1);
    if flag.value == 0 then flag.cursor
    else
      var idc := ReadU(flag.cursor, 8);
      if idc.value == 255 then ReadU(ReadU(idc.cursor, 16).cursor, 16).cursor else idc.cursor
  }

  function OverscanPart(c: Cursor): Cursor {
    var flag := ReadU(c, 1);
    if flag.value == 0 then flag.cursor else ReadU(flag.cursor, 1).cursor
  }

  function SignalPart(c: Cursor): (r: (Color, Cursor)) {
    var flag := ReadU(c, 1);
    if flag.value == 0 then (Color(false, 0), flag.cursor)
    else
      var full := ReadU(ReadU(flag.cursor, 3).cursor, 1);
      var desc := ReadU(full.cursor, 1);
      if desc.value == 0 then (Color(full.value != 0, 0), desc.cursor)
      else
        var matrix := ReadU(ReadU(ReadU(desc.cursor, 8).cursor, 8).cursor, 8);
        (Color(full.value != 0, matrix.value), matrix.cursor)
  }

  const MATRICES := {0, 1, 2, 5, 6, 9}

  /** From the reference count on: size, cropping, bounds and, when asked for, colour. */
  function SizePart(c: Cursor, id: nat, l: Geometry, color: bool): Parsed {
    var refs := ReadUe(c);
    if refs.value > 16 then Malformed else
    var gaps := ReadU(refs.cursor, 1);
    var width := ReadUe(gaps.cursor);
    var height := ReadUe(width.cursor);
    var progressive := ReadU(height.cursor, 1);
    if progressive.value != 1 then Malformed else
    var direct := ReadU(progressive.cursor, 1);
    var crop := CropPart(direct.cursor);
    match Bounds(crop.cursor.err, Mul64(width.value + 1, 16), Mul64(height.value + 1, 16), crop, l)
    case Wrong => Malformed
    case TooLarge => Exceeded
    case Fine(w, h) =>
      if !color then Accepted(w, h, id, Color(false, 0))
      else
        var (col, end) := ColorPart(crop.cursor);
        if end.err || col.matrix !in MATRICES then Malformed else Accepted(w, h, id, col)
  }

  function Parse(c: Cursor, l: Geometry, color: bool): Parsed {
    var profile := ReadU(c, 8);
    var level := ReadU(ReadU(profile.cursor, 8).cursor, 8);
    var id := ReadUe(level.cursor);
    if id.value > 31 then Malformed else
    match ProfilePart(id.cursor, profile.value)
    case None => Malformed
    case Some(c1) =>
      match OrderPart(c1)
      case None => Malformed
      case Some(c2) => SizePart(c2, id.value, l, color)
  }

  /** The whole check on a NAL unit: its header byte is skipped. */
  function ParseNal(nal: seq<Byte>, l: Geometry, color: bool): Parsed
    requires nal != []
  {
    Parse(Cursor(BitsOf(Strip(nal[1..], 0)), false), l, color)
  }

  /** What `Bounds` decides over the integers. */
  predicate Small(err: bool, cw: nat, ch: nat, k: Crop) {
    !err && k.left == 0 && k.top == 0 && k.right < 16 && k.bottom < 16 && k.right < cw && k.bottom < ch
  }

  predicate Inside(w: nat, h: nat, cw: nat, ch: nat, l: Geometry) {
    && w <= Min(l.maxWidth, DEFAULT_MAX_WIDTH) && h <= Min(l.maxHeight, DEFAULT_MAX_HEIGHT)
    && w * h <= Min(l.maxPixels, DEFAULT_MAX_PIXELS) && cw * ch <= 4096 * 2160
  }

  /** Every 64-bit product that can decide the outcome is exact: larger factors were refused first. */
  lemma ProductsAreExact(err: bool, w1: nat, h1: nat, k: Crop, l: Geometry)
    requires w1 <= 0x7FFF_FFFE && h1 <= 0x7FFF_FFFE
    ensures Mul64(w1 + 1, 16) == (w1 + 1) * 16 && Mul64(h1 + 1, 16) == (h1 + 1) * 16
    ensures var cw, ch := (w1 + 1) * 16, (h1 + 1) * 16;
            Bounds(err, cw, ch, k, l) ==
            if !Small(err, cw, ch, k) then Wrong
            else if Inside(cw - k.right, ch - k.bottom, cw, ch, l) then Fine(cw - k.right, ch - k.bottom) else TooLarge
  {
    var cw, ch := (w1 + 1) * 16, (h1 + 1) * 16;
    if Small(err, cw, ch, k) && cw - k.right <= 4096 && ch - k.bottom <= 2160 {
      BoundsExact(cw, ch, k.right, k.bottom);
    }
  }

  lemma BoundsExact(cw: nat, ch: nat, right: nat, bottom: nat)
    requires right < 16 && bottom < 16 && right < cw && bottom < ch && cw - right <= 4096 && ch - bottom <= 2160
    ensures Mul64(cw, ch) == cw * ch && Mul64(cw - right, ch - bottom) == (cw - right) * (ch - bottom)
  {
    Product(cw, ch, 4112, 2176);
    Product(cw - right, ch - bottom, 4096, 2160);
  }

  lemma Product(a: nat, b: nat, x: nat, y: nat)
    requires a <= x && b <= y && x * y < 0x1_0000_0000
    ensures a * b <= x * y && Mul64(a, b) == a * b
  {
    assert a * b <= x * b <= x * y;
  }

  // ------------------------------------------------------------- in place

  method ReadScalingList(b: RbspBits, n: nat)
    requires b.Valid()
    modifies b
    ensures b.Valid() && b.data == old(b.data) && b.View() == ScalingList(old(b.View()), 8, 8, n)
  {
    hide ReadSe, BitsOf;
    var last, next := 8, 8;
    for j := 0 to n
      invariant b.Valid() && b.data == old(b.data)
      invariant ScalingList(old(b.View()), 8, 8, n) == ScalingList(b.View(), last, next, n - j)
    {
      if next != 0 {
        var delta := b.Se();
        next := Remainder256(last + delta + 256);
      }
      if next != 0 {
        last := next;
      }
    }
  }

  method ReadScalingLists(b: RbspBits)
    requires b.Valid()
    modifies b
    ensures b.Valid() && b.data == old(b.data) && b.View() == ScalingLists(old(b.View()), 0)
  {
    hide ReadU, ScalingList, BitsOf;
    for i := 0 to 8
      invariant b.Valid() && b.data == old(b.data)
      invariant ScalingLists(old(b.View()), 0) == ScalingLists(b.View(), i)
    {
      var flag := b.Read(1);
      if flag == 0 {
        continue;
      }
      ReadScalingList(b, ListLength(i));
    }
  }

  method ReadProfilePart(b: RbspBits, profile: nat) returns (ok: bool)
    requires b.Valid()
    modifies b
    ensures b.Valid() && b.data == old(b.data)
    ensures ProfilePart(old(b.View()), profile) == if ok then Some(b.View()) else None
  {
    hide ReadU, ReadUe, ScalingLists;
    if profile in {66, 77, 88} {
      return true;
    }
    if profile != 100 {
      return false;
    }
    var v := b.Ue();
    if v != 1 { return false; }
    v := b.Ue();
    if v != 0 { return false; }
    v := b.Ue();
    if v != 0 { return false; }
    v := b.Read(1);
    if v != 0 { return false; }
    v := b.Read(1);
    if v != 0 {
      ReadScalingLists(b);
    }
    return true;
  }

  method ReadOrderPart(b: RbspBits) returns (ok: bool)
    requires b.Valid()
    modifies b
    ensures b.Valid() && b.data == old(b.data)
    ensures OrderPart(old(b.View())) == if ok then Some(b.View()) else None
  {
    hide ReadU, ReadUe, ReadSe;
    var v := b.Ue();
    if v > 12 { return false; }
    v := b.Ue();
    if v == 0 {
      v := b.Ue();
      return v <= 12;
    } else if v == 1 {
      var flag := b.Read(1);
      var first := b.Se();
      var second := b.Se();
      var n := b.Ue();
      if n > 255 { return false; }
      ghost var start := b.View();
      for i := 0 to n
        invariant b.Valid() && b.data == old(b.data)
        invariant Offsets(start, n) == Offsets(b.View(), n - i)
      {
        var offset := b.Se();
      }
      return true;
    }
    return v == 2;
  }

  method ReadCropPart(b: RbspBits) returns (k: Crop)
    requires b.Valid()
    modifies b
    ensures b.Valid() && b.data == old(b.data) && k == CropPart(old(b.View())) && k.cursor == b.View()
  {
    hide ReadU, ReadUe;
    var flag := b.Read(1);
    var left, right, top, bottom := 0, 0, 0, 0;
    if flag != 0 {
      left := b.Ue();
      right := b.Ue();
      top := b.Ue();
      bottom := b.Ue();
    }
    k := Crop(left * 2, right * 2, top * 2, bottom * 2, Cursor(BitsOf(b.data)[b.pos..], b.err));
  }

  method ReadColorPart(b: RbspBits) returns (color: Color)
    requires b.Valid()
    modifies b
    ensures b.Valid() && b.data == old(b.data) && (color, b.View()) == ColorPart(old(b.View()))
  {
    hide ReadU;
    color := Color(false, 0);
    var flag := b.Read(1);
    if flag == 0 {
      return;
    }
    ghost var c1 := b.View();
    flag := b.Read(1);
    if flag != 0 {
      flag := b.Read(8);
      if flag == 255 {
        flag := b.Read(16);
        flag := b.Read(16);
      }
    }
    assert b.View() == AspectPart(c1);
    ghost var c2 := b.View();
    flag := b.Read(1);
    if flag != 0 {
      flag := b.Read(1);
    }
    assert b.View() == OverscanPart(c2);
    ghost var c3 := b.View();
    flag := b.Read(1);
    if flag != 0 {
      flag := b.Read(3);
      flag := b.Read(1);
      color := Color(flag != 0, 0);
      flag := b.Read(1);
      if flag != 0 {
        flag := b.Read(8);
        flag := b.Read(8);
        flag := b.Read(8);
        color := color.(matrix := flag);
      }
    }
    assert (color, b.View()) == SignalPart(c3);
  }

  method ReadSizePart(b: RbspBits, id: nat, l: Geometry, color: bool) returns (r: Parsed)
    requires b.Valid()
    modifies b
    ensures b.Valid() && b.data == old(b.data) && r == SizePart(old(b.View()), id, l, color)
  {
    hide ReadU, ReadUe, CropPart, ColorPart, Bounds;
    var v := b.Ue();
    if v > 16 { return Malformed; }
    v := b.Read(1);
    var width := b.Ue();
    var height := b.Ue();
    v := b.Read(1);
    if v != 1 { return Malformed; }
    v := b.Read(1);
    var k := ReadCropPart(b);
    var verdict := Bounds(b.err, Mul64(width + 1, 16), Mul64(height + 1, 16), k, l);
    if verdict.Wrong? { return Malformed; }
    if verdict.TooLarge? { return Exceeded; }
    if !color { return Accepted(verdict.width, verdict.height, id, Color(false, 0)); }
    var col := ReadColorPart(b);
    if b.err || col.matrix !in MATRICES { return Malformed; }
    return Accepted(verdict.width, verdict.height, id, col);
  }

  /** `parseSPSBoundsColor`. */
  method ParseSpsBounds(nal: seq<Byte>, l: Geometry, color: bool) returns (r: Parsed)
    requires nal != []
    ensures r == ParseNal(nal, l, color)
  {
    hide ReadU, ReadUe, ProfilePart, OrderPart, SizePart, Strip, BitsOf;
    var b := new RbspBits(nal[1..]);
    var profile := b.Read(8);
    var v := b.Read(8);
    v := b.Read(8);
    var id := b.Ue();
    if id > 31 { return Malformed; }
    var ok := ReadProfilePart(b, profile);
    if !ok { return Malformed; }
    ok := ReadOrderPart(b);
    if !ok { return Malformed; }
    r := ReadSizePart(b, id, l, color);
  }
}
