/**
The access-unit check of `internal/video/stream_validate.go`: the Annex B scan,
the rules on NAL units, and what they mean for units `assemble` produces.
*/
module AnnexBScan {
  import opened Basics
  import opened Rtp
  import opened Rbsp
  import opened Sps
  import opened SpsWriter
  import opened Packetizer

  // ------------------------------------------------------------------- scan

  predicate StartsAt(data: seq<Byte>, i: nat) {
    i + 3 <= |data| && data[i] == 0 && data[i + 1] == 0 && data[i + 2] == 1
  }

  /** `bytes.Index(data, {0, 0, 1})` from `i` on; the length of `data` when absent. */
  function IndexFrom(data: seq<Byte>, i: nat): (r: nat)
    requires i <= |data|
    ensures i <= r <= |data|
    ensures r < |data| ==> StartsAt(data, r)
    ensures forall k :: i <= k < r ==> !StartsAt(data, k)
    decreases |data| - i
  {
    if i == |data| || StartsAt(data, i) then i else IndexFrom(data, i + 1)
  }

  predicate AllZero(data: seq<Byte>) { forall k :: 0 <= k < |data| ==> data[k] == 0 }

  function TrimZeros(data: seq<Byte>): (r: seq<Byte>)
    ensures |r| <= |data| && r == data[..|r|] && AllZero(data[|r|..])
    ensures r == [] || r[|r| - 1] != 0
  {
    if data != [] && data[|data| - 1] == 0 then TrimZeros(data[..|data| - 1]) else data
  }

  datatype Cut = Cut(nal: seq<Byte>, rest: seq<Byte>)

  /** One turn of the scan: the next unit and what follows it. */
  function NextUnit(data: seq<Byte>): (r: Option<Cut>)
    ensures r.Some? ==> |r.value.rest| < |data|
  {
    var i := IndexFrom(data, 0);
    if i == |data| || !AllZero(data[..i]) then None
    else
      var d := data[i + 3..];
      var end := IndexFrom(d, 0);
      Some(Cut(TrimZeros(d[..end]), d[end..]))
  }

  function Split(data: seq<Byte>): (r: Option<seq<seq<Byte>>>)
    decreases |data|
  {
    if data == [] then Some([])
    else
      match NextUnit(data)
      case None => None
      case Some(c) =>
        match Split(c.rest)
        case None => None
        case Some(more) => Some([c.nal] + more)
  }

  /** A unit as section 7.4.1 allows it: no start code inside, no trailing zero. */
  ghost predicate Proper(nal: seq<Byte>) {
    |nal| >= 2 && nal[|nal| - 1] != 0 && forall i :: 0 <= i ==> !StartsAt(nal, i)
  }

  /** The first start code after a proper unit is the next unit's own. */
  lemma UnitEnds(nal: seq<Byte>, rest: seq<Byte>)
    requires Proper(nal) && (rest == [] || (|rest| >= 4 && rest[..4] == START_CODE))
    ensures var d := nal + rest; var end := IndexFrom(d, 0);
            && end == (if rest == [] then |nal| else |nal| + 1)
            && TrimZeros(d[..end]) == nal
            && d[end..] == (if rest == [] then [] else rest[1..])
  {
    var d := nal + rest;
    var end := IndexFrom(d, 0);
    if rest != [] {
      assert rest[0] == 0 && rest[1] == 0 && rest[2] == 0 && rest[3] == 1;
      assert StartsAt(d, |nal| + 1);
      assert d[|nal| - 1] == nal[|nal| - 1] != 0;
      assert !StartsAt(d, |nal|) && !StartsAt(d, |nal| - 1) && !StartsAt(d, |nal| - 2);
    }
    forall k | 0 <= k && k + 3 <= |nal|
      ensures !StartsAt(d, k)
    {
      assert !StartsAt(nal, k);
    }
    TrimExact(d[..end], |nal|);
  }

  lemma {:induction false} TrimExact(d: seq<Byte>, n: nat)
    requires 0 < n <= |d| && d[n - 1] != 0 && AllZero(d[n..])
    ensures TrimZeros(d) == d[..n]
    decreases |d|
  {
    if |d| > n {
      assert d[n..][|d| - 1 - n] == d[|d| - 1];
      var short := d[..|d| - 1];
      forall k | 0 <= k < |short| - n
        ensures short[n..][k] == 0
      {
        assert short[n..][k] == d[n..][k];
      }
      TrimExact(short, n);
      assert short[..n] == d[..n];
    }
  }

  /** What is left after a unit: nothing, or a three-byte start code and the rest. */
  ghost function Tail(nals: seq<seq<Byte>>): seq<Byte> { if nals == [] then [] else AnnexB(nals)[1..] }

  /** One turn over a proper unit, after a start code of three or four bytes. */
  lemma TurnFindsUnit(zero: seq<Byte>, nal: seq<Byte>, more: seq<seq<Byte>>)
    requires Proper(nal) && (zero == [] || zero == [0])
    ensures NextUnit(zero + Coded(nal, more)) == Some(Cut(nal, Tail(more)))
  {
    hide AnnexB, TrimZeros, Proper, IndexFrom, Tail, StartsAt;
    var rest := AnnexB(more);
    var data := zero + Coded(nal, more);
    var i := |zero|;
    CodedStarts(zero, nal, rest);
    var d := data[i + 3..];
    assert NextUnit(data) == Some(Cut(TrimZeros(d[..IndexFrom(d, 0)]), d[IndexFrom(d, 0)..]));
    UnitCut(nal, more);
  }

  lemma UnitCut(nal: seq<Byte>, more: seq<seq<Byte>>)
    requires Proper(nal)
    ensures var d := nal + AnnexB(more); var end := IndexFrom(d, 0); TrimZeros(d[..end]) == nal && d[end..] == Tail(more)
  {
    hide AnnexB, TrimZeros, Proper, IndexFrom, Tail, StartsAt, Coded;
    StartOf(more);
    UnitEnds(nal, AnnexB(more));
    UnitEndsEmpty(more);
  }

  lemma UnitEndsEmpty(more: seq<seq<Byte>>)
    ensures AnnexB(more) == [] <==> more == []
  {
  }

  lemma CodedStarts(zero: seq<Byte>, nal: seq<Byte>, rest: seq<Byte>)
    requires zero == [] || zero == [0]
    ensures var data := zero + ([0, 0, 1] + nal + rest);
            IndexFrom(data, 0) == |zero| && data[|zero| + 3..] == nal + rest && data[..|zero|] == zero
  {
    var data := zero + ([0, 0, 1] + nal + rest);
    assert StartsAt(data, |zero|);
    assert |zero| == 1 ==> !StartsAt(data, 0);
  }

  /** A unit after a three-byte start code, and what follows it. */
  ghost function Coded(nal: seq<Byte>, more: seq<seq<Byte>>): seq<Byte> { [0, 0, 1] + nal + AnnexB(more) }

  lemma StartOf(nals: seq<seq<Byte>>)
    ensures nals == [] ==> AnnexB(nals) == [] && Tail(nals) == []
    ensures nals != [] ==>
      && |AnnexB(nals)| >= 4 && AnnexB(nals)[..4] == START_CODE && Tail(nals) == AnnexB(nals)[1..]
      && AnnexB(nals) == [0] + Coded(nals[0], nals[1..]) && Tail(nals) == Coded(nals[0], nals[1..])
  {
    if nals != [] {
      var rest := AnnexB(nals[1..]);
      assert START_CODE == [0] + [0, 0, 1];
      assert START_CODE + nals[0] + rest == [0] + ([0, 0, 1] + nals[0] + rest);
    }
  }

  lemma {:induction false} SplitTail(nals: seq<seq<Byte>>)
    requires forall n :: n in nals ==> Proper(n)
    ensures Split(Tail(nals)) == Some(nals)
    decreases |nals|
  {
    hide NextUnit, AnnexB, Proper, Tail, Coded;
    StartOf(nals);
    if nals != [] {
      assert nals[0] in nals;
      TurnFindsUnit([], nals[0], nals[1..]);
      assert [] + Coded(nals[0], nals[1..]) == Tail(nals);
      SplitTail(nals[1..]);
      assert nals == [nals[0]] + nals[1..];
      CodedLength(nals[0], nals[1..]);
    }
  }

  lemma CodedLength(nal: seq<Byte>, more: seq<seq<Byte>>)
    ensures |Coded(nal, more)| >= 3
  {
  }

  /** The scan inverts the assembly: the units appended are the units found. */
  lemma SplitInvertsAnnexB(nals: seq<seq<Byte>>)
    requires forall n :: n in nals ==> Proper(n)
    ensures Split(AnnexB(nals)) == Some(nals)
  {
    hide NextUnit, AnnexB, Proper, Tail, Coded;
    StartOf(nals);
    if nals != [] {
      assert nals[0] in nals;
      TurnFindsUnit([0], nals[0], nals[1..]);
      SplitTail(nals[1..]);
      assert nals == [nals[0]] + nals[1..];
    }
  }

  // ------------------------------------------------------------------ rules

  /** What the decoder remembers of the stream: zero width when nothing. */
  datatype Stream = Stream(width: nat, height: nat, color: Color)

  datatype Bounds = Bounds(maxBytes: nat, maxUnits: nat, size: Geometry)

  datatype Scan = Scan(stream: Stream, sps: bool, pps: bool, vcl: bool, idr: bool, count: nat)

  datatype Checked = Good(scan: Scan) | Bad(error: VideoError)

  datatype SliceHead = SliceHead(first: nat, kind: nat, pps: nat, err: bool)

  /** The three codes read from the first 128 bytes of a slice. */
  function HeadOf(nal: seq<Byte>): SliceHead
    requires nal != []
  {
    var first := ReadUe(Cursor(BitsOf(Strip(nal[1..Min(|nal|, 128)], 0)), false));
    var kind := ReadUe(first.cursor);
    var pps := ReadUe(kind.cursor);
    SliceHead(first.value, kind.value, pps.value, pps.cursor.err)
  }

  predicate SliceFits(h: SliceHead, s: Scan, isIdr: bool, known: Stream) {
    && !(s.vcl && isIdr != s.idr)
    && !(isIdr && (!s.sps || !s.pps))
    && !(h.err || h.kind > 9 || h.pps > 255 || (!s.vcl && h.first != 0) || (s.vcl && h.first == 0))
    && !(isIdr && h.kind % 5 != 2)
    && !(!isIdr && (known.width == 0 || s.sps || s.pps))
  }

  function CheckUnit(s0: Scan, nal: seq<Byte>, known: Stream, b: Bounds): Checked {
    var s := s0.(count := s0.count + 1);
    if |nal| < 2 || nal[0] >= 0x80 || s.count > b.maxUnits then Bad(DecodeFailed)
    else
      match TypeOf(nal[0])
      case 7 =>
        if s.sps || s.pps || s.vcl || |nal| > 4096 then Bad(DecodeFailed)
        else (
            match ParseNal(nal, b.size, true)
            case Malformed => Bad(DecodeFailed)
            case Exceeded => Bad(DimensionsExceeded)
            case Accepted(w, h, _, c) => Good(s.(stream := Stream(w, h, c), sps := true)))
      case 8 =>
        if !s.sps || s.pps || s.vcl || |nal| > 4096 then Bad(DecodeFailed) else Good(s.(pps := true))
      case 1 => if SliceFits(HeadOf(nal), s, false, known) then Good(s.(vcl := true, idr := false)) else Bad(DecodeFailed)
      case 5 => if SliceFits(HeadOf(nal), s, true, known) then Good(s.(vcl := true, idr := true)) else Bad(DecodeFailed)
      case 6 => Good(s)
      case 9 => Good(s)
      case 12 => Good(s)
      case _ => Bad(DecodeFailed)
  }

  /** The loop of `validate`. */
  function ScanFrom(data: seq<Byte>, s: Scan, known: Stream, b: Bounds): Checked
    decreases |data|
  {
    if data == [] then Good(s)
    else
      match NextUnit(data)
      case None => Bad(DecodeFailed)
      case Some(c) =>
        var r := CheckUnit(s, c.nal, known, b);
        if r.Bad? then r else ScanFrom(c.rest, r.scan, known, b)
  }

  function Start(known: Stream): Scan { Scan(known, false, false, false, false, 0) }

  /** The verdict: the stream geometry after an accepted unit, or the error. */
  function Validate(data: seq<Byte>, keyframe: bool, known: Stream, b: Bounds): (r: Checked) {
    if |data| > b.maxBytes then Bad(AccessUnitTooLarge)
    else
      var r := ScanFrom(data, Start(known), known, b);
      if r.Bad? then r
      else
        var t := r.scan;
        if !t.vcl || t.idr != keyframe || t.stream.width == 0 || t.stream.height == 0 then Bad(DecodeFailed)
        else if t.stream.width > b.size.maxWidth || t.stream.height > b.size.maxHeight
                || t.stream.width * t.stream.height > b.size.maxPixels then Bad(DimensionsExceeded)
        else r
  }

  /** `validate` in place: the decoder's fields and whether its module was dropped. */
  class StreamCheck {
    var width: nat
    var height: nat
    var color: Color

    ghost function View(): Stream
      reads this
    {
      Stream(width, height, color)
    }

    constructor ()
      ensures View() == Stream(0, 0, Color(false, 0))
    {
      width, height, color := 0, 0, Color(false, 0);
    }

    /** `validate`; `ending` says that the stream ended while a decoder is running. */
    method Check(unit: seq<Byte>, keyframe: bool, ending: bool, b: Bounds) returns (error: Option<VideoError>, dropped: bool)
      modifies this
      ensures unit == [] && ending ==> error == None && View() == old(View()) && !dropped
      ensures !(unit == [] && ending) ==>
        match Validate(unit, keyframe, old(View()), b)
        case Bad(e) => error == Some(e) && View() == old(View()) && !dropped
        case Good(s) =>
          && error == None && View() == s.stream
          && dropped == (old(width) != 0 && s.stream != old(View()))
    {
      hide CheckUnit, NextUnit;
      dropped := false;
      if |unit| == 0 && ending {
        return None, false;
      }
      if |unit| > b.maxBytes {
        return Some(AccessUnitTooLarge), false;
      }
      var data := unit;
      var s := Scan(Stream(width, height, color), false, false, false, false, 0);
      var known := Stream(width, height, color);
      while data != []
        invariant ScanFrom(unit, Start(known), known, b) == ScanFrom(data, s, known, b)
        decreases |data|
      {
        var cut := NextUnit(data);
        if cut.None? {
          return Some(DecodeFailed), false;
        }
        var r := CheckUnit(s, cut.value.nal, known, b);
        if r.Bad? {
          return Some(r.error), false;
        }
        s, data := r.scan, cut.value.rest;
      }
      var w, h := s.stream.width, s.stream.height;
      if !s.vcl || s.idr != keyframe || w == 0 || h == 0 {
        return Some(DecodeFailed), false;
      }
      if w > b.size.maxWidth || h > b.size.maxHeight || w * h > b.size.maxPixels {
        return Some(DimensionsExceeded), false;
      }
      if width != 0 && (w != width || h != height || s.stream.color != color) {
        dropped := true;
      }
      width, height, color := w, h, s.stream.color;
      error := None;
    }
  }

  // --------------------------------------------------------- what it accepts

  function Fold(nals: seq<seq<Byte>>, s: Scan, known: Stream, b: Bounds): Checked
    decreases |nals|
  {
    if nals == [] then Good(s)
    else
      var r := CheckUnit(s, nals[0], known, b);
      if r.Bad? then r else Fold(nals[1..], r.scan, known, b)
  }

  /** The interleaved scan is the rules folded over the units, and refuses what does not split. */
  lemma {:induction false} ScanIsFold(data: seq<Byte>, s: Scan, known: Stream, b: Bounds)
    ensures Split(data).Some? ==> ScanFrom(data, s, known, b) == Fold(Split(data).value, s, known, b)
    ensures Split(data).None? ==> ScanFrom(data, s, known, b).Bad?
    decreases |data|
  {
    hide CheckUnit, NextUnit;
    if data != [] {
      var cut := NextUnit(data);
      if cut.Some? {
        var r := CheckUnit(s, cut.value.nal, known, b);
        if r.Good? {
          ScanIsFold(cut.value.rest, r.scan, known, b);
        }
        if Split(cut.value.rest).Some? {
          assert Split(data) == Some([cut.value.nal] + Split(cut.value.rest).value);
        }
      }
    }
  }

  /** Flags only rise; a second parameter set of a kind is refused. */
  lemma {:induction false} ParameterSetsAtMostOnce(nals: seq<seq<Byte>>, s: Scan, known: Stream, b: Bounds, i: nat)
    requires i < |nals| && nals[i] != []
    requires (TypeOf(nals[i][0]) == 7 && s.sps) || (TypeOf(nals[i][0]) == 8 && s.pps)
    ensures Fold(nals, s, known, b).Bad?
    decreases |nals|
  {
    hide ParseNal, HeadOf, SliceFits;
    var r := CheckUnit(s, nals[0], known, b);
    if r.Good? && i > 0 {
      ParameterSetsAtMostOnce(nals[1..], r.scan, known, b, i - 1);
    }
  }

  /**
  A keyframe whose unit reuses cached parameter sets although it carries one of
  them in band is called decodable by `assemble` and refused here, every time.
  */
  lemma ReusedBesideInBandIsRefused(
    sps: seq<Byte>, pps: seq<Byte>, nals: seq<seq<Byte>>, keyframe: bool, known: Stream, b: Bounds)
    requires Proper(sps) && Proper(pps) && TypeOf(sps[0]) == 7 && TypeOf(pps[0]) == 8
    requires (forall n :: n in nals ==> Proper(n)) && (HasType(nals, 7) || HasType(nals, 8))
    ensures Validate(AnnexB([sps, pps]) + AnnexB(nals), keyframe, known, b).Bad?
  {
    hide CheckUnit, Split, AnnexB, ScanFrom;
    var all := [sps, pps] + nals;
    AnnexBConcat([sps, pps], nals);
    SplitInvertsAnnexB(all);
    ScanIsFold(AnnexB(all), Start(known), known, b);
    assert all[0] == sps && all[1..] == [pps] + nals && all[1..][0] == pps && all[1..][1..] == nals;
    var r1 := CheckUnit(Start(known), sps, known, b);
    if r1.Good? {
      SetSeen(Start(known), sps, known, b);
      var r2 := CheckUnit(r1.scan, pps, known, b);
      if r2.Good? {
        SetSeen(r1.scan, pps, known, b);
        var t := if HasType(nals, 7) then 7 else 8;
        var n :| n in nals && n != [] && TypeOf(n[0]) == t;
        var i :| 0 <= i < |nals| && nals[i] == n;
        ParameterSetsAtMostOnce(nals, r2.scan, known, b, i);
      }
    }
  }

  lemma SetSeen(s: Scan, nal: seq<Byte>, known: Stream, b: Bounds)
    requires CheckUnit(s, nal, known, b).Good? && nal != []
    ensures var t := CheckUnit(s, nal, known, b).scan;
            && (s.sps || TypeOf(nal[0]) == 7 ==> t.sps) && (s.pps || TypeOf(nal[0]) == 8 ==> t.pps)
  {
    hide ParseNal, HeadOf, SliceFits;
  }

  /** A readable slice of an IDR picture, then intra, or of another; the first one is at macroblock zero. */
  predicate SliceOk(nal: seq<Byte>, first: bool, idr: bool) {
    && nal != [] && TypeOf(nal[0]) == (if idr then 5 else 1)
    && var h := HeadOf(nal);
       !h.err && h.kind <= 9 && h.pps <= 255 && (h.first == 0 <==> first) && (idr ==> h.kind in {2, 7})
  }

  /** The slices of one picture. */
  ghost predicate Slices(slices: seq<seq<Byte>>, idr: bool) {
    slices != [] && forall i :: 0 <= i < |slices| ==> SliceOk(slices[i], i == 0, idr)
  }

  /** Slices of one IDR picture, as units of the stream. */
  ghost predicate IdrSlices(slices: seq<seq<Byte>>) {
    Slices(slices, true) && forall i :: 0 <= i < |slices| ==> Proper(slices[i]) && slices[i][0] < 0x80
  }

  lemma {:induction false} SlicesAccepted(slices: seq<seq<Byte>>, i: nat, s: Scan, known: Stream, b: Bounds)
    requires IdrSlices(slices) && i <= |slices| && s.sps && s.pps && (s.vcl <==> i > 0) && (s.vcl ==> s.idr)
    requires s.count + |slices| - i <= b.maxUnits
    ensures Fold(slices[i..], s, known, b)
         == Good(s.(vcl := true, idr := true, count := s.count + |slices| - i)) || (i == |slices| && Fold(slices[i..], s, known, b) == Good(s))
    decreases |slices| - i
  {
    hide HeadOf, ParseNal;
    if i < |slices| {
      assert slices[i..][0] == slices[i] && slices[i..][1..] == slices[i + 1..];
      var r := CheckUnit(s, slices[i], known, b);
      assert r == Good(s.(vcl := true, idr := true, count := s.count + 1));
      SlicesAccepted(slices, i + 1, r.scan, known, b);
    }
  }

  /** What the writer makes of trailed bits is a unit as section 7.4.1 allows it. */
  lemma WrittenIsProper(header: Byte, bits: seq<Bit>)
    requires header > 0 && Trailed(bits)
    ensures Proper(Nal(header, bits))
  {
    hide Trailing, Pack, Protect, Strip, Clean;
    var body := Protect(Pack(bits), 0);
    TrailedEndsNonZero(bits);
    ProtectIsClean(Pack(bits), 0);
    forall i | 0 <= i
      ensures !StartsAt(Nal(header, bits), i)
    {
      if 0 < i && i + 3 <= |body| + 1 { CleanHasNoStartCode(body, 0, i - 1); }
    }
  }

  /**
  End to end: an IDR picture with its own parameter sets, written by the standard,
  is accepted whatever the decoder knew before, and the stream gets the size the
  parameter set spells.
  */
  lemma IdrPictureIsAccepted(
    set_: ParameterSet, header: Byte, tail: seq<Bit>, pps: seq<Byte>, slices: seq<seq<Byte>>, known: Stream, b: Bounds)
    requires Supported(set_) && Trailed(Put(set_, tail)) && Answer(set_, b.size, true).Accepted?
    requires header < 0x80 && TypeOf(header) == 7
    requires var sps := Nal(header, Put(set_, tail));
             |sps| <= 4096 && Proper(pps) && |pps| <= 4096 && pps[0] < 0x80 && TypeOf(pps[0]) == 8
             && IdrSlices(slices) && |slices| + 2 <= b.maxUnits && |AnnexB([sps, pps] + slices)| <= b.maxBytes
    ensures var r := Validate(AnnexB([Nal(header, Put(set_, tail)), pps] + slices), true, known, b);
            r.Good? && r.scan.stream == Stream(Width(set_), Height(set_), ColorOf(set_.vui))
  {
    hide Put, ParseNal, Protect, Pack, Deltas, OrderSupported, VuiSupported, Inside, AnnexB, Proper, Trailed, IdrSlices, Validate;
    var sps := Nal(header, Put(set_, tail));
    WrittenIsProper(header, Put(set_, tail));
    SpsRoundTrip(set_, header, tail, b.size, true);
    AnswerFits(set_, b.size);
    var stream := Stream(Width(set_), Height(set_), ColorOf(set_.vui));
    SetsThenSlices(sps, pps, slices, stream, set_.id, known, b);
  }

  /** Parameter sets that can be parsed, then the slices of an IDR picture: accepted. */
  lemma SetsThenSlices(sps: seq<Byte>, pps: seq<Byte>, slices: seq<seq<Byte>>, stream: Stream, id: nat, known: Stream, b: Bounds)
    requires Proper(sps) && |sps| <= 4096 && sps[0] < 0x80 && TypeOf(sps[0]) == 7
    requires Proper(pps) && |pps| <= 4096 && pps[0] < 0x80 && TypeOf(pps[0]) == 8
    requires ParseNal(sps, b.size, true) == Accepted(stream.width, stream.height, id, stream.color)
    requires 0 < stream.width <= b.size.maxWidth && 0 < stream.height <= b.size.maxHeight
    requires stream.width * stream.height <= b.size.maxPixels
    requires IdrSlices(slices) && |slices| + 2 <= b.maxUnits && |AnnexB([sps, pps] + slices)| <= b.maxBytes
    ensures var r := Validate(AnnexB([sps, pps] + slices), true, known, b); r.Good? && r.scan.stream == stream
  {
    hide ParseNal, CheckUnit, Fold, AnnexB, Proper, Split, ScanFrom;
    AllProper(sps, pps, slices);
    SplitInvertsAnnexB([sps, pps] + slices);
    ScanIsFold(AnnexB([sps, pps] + slices), Start(known), known, b);
    FoldOpening(sps, pps, slices, stream, id, known, b);
  }

  lemma AnswerFits(s: ParameterSet, l: Geometry)
    requires Supported(s) && Answer(s, l, true).Accepted?
    ensures Answer(s, l, true) == Accepted(Width(s), Height(s), s.id, ColorOf(s.vui))
    ensures 0 < Width(s) <= l.maxWidth && 0 < Height(s) <= l.maxHeight && Width(s) * Height(s) <= l.maxPixels
  {
    hide Deltas, OrderSupported, VuiSupported;
  }

  lemma AllProper(sps: seq<Byte>, pps: seq<Byte>, slices: seq<seq<Byte>>)
    requires Proper(sps) && Proper(pps) && IdrSlices(slices)
    ensures forall n :: n in [sps, pps] + slices ==> Proper(n)
  {
  }

  lemma FoldOpening(sps: seq<Byte>, pps: seq<Byte>, slices: seq<seq<Byte>>, stream: Stream, id: nat, known: Stream, b: Bounds)
    requires Proper(sps) && |sps| <= 4096 && sps[0] < 0x80 && TypeOf(sps[0]) == 7
    requires Proper(pps) && |pps| <= 4096 && pps[0] < 0x80 && TypeOf(pps[0]) == 8
    requires ParseNal(sps, b.size, true) == Accepted(stream.width, stream.height, id, stream.color)
    requires IdrSlices(slices) && |slices| + 2 <= b.maxUnits
    ensures Fold([sps, pps] + slices, Start(known), known, b) == Good(Scan(stream, true, true, true, true, |slices| + 2))
  {
    hide ParseNal, HeadOf;
    var all := [sps, pps] + slices;
    assert all[0] == sps && all[1..] == [pps] + slices && all[1..][0] == pps && all[1..][1..] == slices;
    var s1 := Scan(stream, true, false, false, false, 1);
    assert CheckUnit(Start(known), sps, known, b) == Good(s1);
    var s2 := s1.(pps := true, count := 2);
    assert CheckUnit(s1, pps, known, b) == Good(s2);
    assert slices[0..] == slices;
    SlicesAccepted(slices, 0, s2, known, b);
  }
}
