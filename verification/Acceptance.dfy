/**
What `assemble` calls decodable against what `validate` accepts: the shape of every accepted
access unit, and from it the exact condition under which an emitted unit is accepted.
*/
module Acceptance {
  import opened Basics
  import opened Rtp
  import opened Rbsp
  import opened Sps
  import opened SpsWriter
  import opened DepacketizerSpec
  import opened Packetizer
  import opened AnnexBScan

  // --------------------------------------------------------- what parsing gives

  /** An accepted set is within the size limits the stream is checked against. */
  lemma BoundsFit(err: bool, cw: nat, ch: nat, k: Crop, l: Geometry)
    ensures var v := Sps.Bounds(err, cw, ch, k, l);
      v.Fine? ==> 0 < v.width <= l.maxWidth && 0 < v.height <= l.maxHeight && v.width * v.height <= l.maxPixels
  {
    hide Mul64;
    var v := Sps.Bounds(err, cw, ch, k, l);
    if v.Fine? { Product(v.width, v.height, 4096, 2160); }
  }

  lemma SizeFits(c: Cursor, id: nat, l: Geometry)
    ensures var r := SizePart(c, id, l, true);
      r.Accepted? ==> 0 < r.width <= l.maxWidth && 0 < r.height <= l.maxHeight && r.width * r.height <= l.maxPixels
  {
    hide ReadUe, ReadU, CropPart, ColorPart, Sps.Bounds, Mul64;
    var width := ReadUe(ReadU(ReadUe(c).cursor, 1).cursor);
    var height := ReadUe(width.cursor);
    var crop := CropPart(ReadU(ReadU(height.cursor, 1).cursor, 1).cursor);
    BoundsFit(crop.cursor.err, Mul64(width.value + 1, 16), Mul64(height.value + 1, 16), crop, l);
  }

  lemma ParsedFits(nal: seq<Byte>, l: Geometry)
    requires nal != []
    ensures var r := ParseNal(nal, l, true);
      r.Accepted? ==> 0 < r.width <= l.maxWidth && 0 < r.height <= l.maxHeight && r.width * r.height <= l.maxPixels
  {
    hide ReadUe, ReadU, ProfilePart, OrderPart, SizePart, BitsOf, Strip;
    var c := Cursor(BitsOf(Strip(nal[1..], 0)), false);
    var id := ReadUe(ReadU(ReadU(ReadU(c, 8).cursor, 8).cursor, 8).cursor);
    var profile := ReadU(c, 8).value;
    if ProfilePart(id.cursor, profile).Some? && OrderPart(ProfilePart(id.cursor, profile).value).Some? {
      SizeFits(OrderPart(ProfilePart(id.cursor, profile).value).value, id.value, l);
    }
  }

  // ------------------------------------------------------- what is accepted

  /** Units that `validate` passes over: supplemental information, delimiters, filler data. */
  predicate Skipped(nal: seq<Byte>) { nal != [] && TypeOf(nal[0]) in {6, 9, 12} }

  /** A unit with a legal header, of a kind that is known. */
  predicate Legible(nal: seq<Byte>) {
    |nal| >= 2 && nal[0] < 0x80 && TypeOf(nal[0]) in {1, 5, 6, 7, 8, 9, 12}
  }

  ghost predicate AllLegible(nals: seq<seq<Byte>>, count: nat, b: Bounds) {
    (nals == [] || count + |nals| <= b.maxUnits) && forall n :: n in nals ==> Legible(n)
  }

  /** Everything that is not passed over. */
  function Core(nals: seq<seq<Byte>>): seq<seq<Byte>> {
    if nals == [] then [] else if Skipped(nals[0]) then Core(nals[1..]) else [nals[0]] + Core(nals[1..])
  }

  predicate SpsOk(nal: seq<Byte>, b: Bounds) {
    nal != [] && TypeOf(nal[0]) == 7 && |nal| <= 4096 && ParseNal(nal, b.size, true).Accepted?
  }

  predicate PpsOk(nal: seq<Byte>) { nal != [] && TypeOf(nal[0]) == 8 && |nal| <= 4096 }

  /** The slices after the first of a picture. */
  ghost predicate MoreSlices(ns: seq<seq<Byte>>, idr: bool) {
    forall i :: 0 <= i < |ns| ==> SliceOk(ns[i], false, idr)
  }

  /** A size the decoder remembers and still allows. */
  predicate Fitting(known: Stream, b: Bounds) {
    0 < known.width <= b.size.maxWidth && 0 < known.height <= b.size.maxHeight && known.width * known.height <= b.size.maxPixels
  }

  /**
  The shape of an accepted access unit. Apart from what is passed over, a keyframe is a sequence
  parameter set, a picture parameter set and IDR slices; another picture is slices alone, of a known size.
  */
  ghost predicate Accepts(nals: seq<seq<Byte>>, keyframe: bool, known: Stream, b: Bounds) {
    && AllLegible(nals, 0, b)
    && var core := Core(nals);
       if keyframe then |core| >= 3 && SpsOk(core[0], b) && PpsOk(core[1]) && Slices(core[2..], true)
       else Slices(core, false) && Fitting(known, b)
  }

  lemma StepSkipped(s: Scan, nal: seq<Byte>, known: Stream, b: Bounds)
    ensures !Legible(nal) || s.count + 1 > b.maxUnits ==> CheckUnit(s, nal, known, b).Bad?
    ensures Legible(nal) && s.count + 1 <= b.maxUnits && Skipped(nal) ==> CheckUnit(s, nal, known, b) == Good(s.(count := s.count + 1))
  {
    hide ParseNal, HeadOf, SliceFits;
  }

  lemma LegibleAhead(nals: seq<seq<Byte>>, count: nat, b: Bounds)
    requires nals != []
    ensures AllLegible(nals, count, b) <==> count + 1 <= b.maxUnits && Legible(nals[0]) && AllLegible(nals[1..], count + 1, b)
  {
    hide Legible;
    assert nals == [nals[0]] + nals[1..];
    assert forall n :: n in nals <==> n == nals[0] || n in nals[1..];
  }

  /** The slices of a picture are a first one and more. */
  lemma SlicesAhead(nal: seq<Byte>, more: seq<seq<Byte>>, idr: bool)
    ensures Slices([nal] + more, idr) <==> SliceOk(nal, true, idr) && MoreSlices(more, idr)
    ensures MoreSlices([nal] + more, idr) <==> SliceOk(nal, false, idr) && MoreSlices(more, idr)
  {
    hide SliceOk;
    var all := [nal] + more;
    assert all[0] == nal && forall i :: 0 <= i < |more| ==> all[i + 1] == more[i];
  }

  /** After a slice: more slices of its kind, where its kind is allowed at all. */
  ghost predicate InPicture(s: Scan, known: Stream) {
    s.vcl && if s.idr then s.sps && s.pps else known.width != 0 && !s.sps && !s.pps
  }

  lemma StepInPicture(s: Scan, nal: seq<Byte>, known: Stream, b: Bounds)
    requires InPicture(s, known) && Legible(nal) && !Skipped(nal) && s.count + 1 <= b.maxUnits
    ensures CheckUnit(s, nal, known, b).Good? <==> SliceOk(nal, false, s.idr)
    ensures CheckUnit(s, nal, known, b).Good? ==> CheckUnit(s, nal, known, b).scan == s.(count := s.count + 1)
  {
    hide ParseNal, HeadOf;
  }

  lemma {:induction false} FoldInPicture(nals: seq<seq<Byte>>, s: Scan, known: Stream, b: Bounds)
    requires InPicture(s, known)
    ensures Fold(nals, s, known, b).Good? <==> AllLegible(nals, s.count, b) && MoreSlices(Core(nals), s.idr)
    ensures Fold(nals, s, known, b).Good? ==> Fold(nals, s, known, b).scan == s.(count := s.count + |nals|)
    decreases |nals|
  {
    hide CheckUnit, SliceOk, Legible, Skipped, AllLegible, MoreSlices;
    if nals == [] {
      NothingMore(s.count, s.idr, b);
    } else {
      StepSkipped(s, nals[0], known, b);
      LegibleAhead(nals, s.count, b);
      SlicesAhead(nals[0], Core(nals[1..]), s.idr);
      if Legible(nals[0]) && s.count + 1 <= b.maxUnits {
        if !Skipped(nals[0]) { StepInPicture(s, nals[0], known, b); }
        FoldInPicture(nals[1..], s.(count := s.count + 1), known, b);
      }
    }
  }

  lemma NothingMore(count: nat, idr: bool, b: Bounds)
    ensures AllLegible([], count, b) && MoreSlices([], idr) && Core([]) == []
  {
  }

  /** After both parameter sets: IDR slices or nothing. */
  ghost predicate SlicesOrNothing(core: seq<seq<Byte>>) { core == [] || Slices(core, true) }

  lemma StepAfterSets(s: Scan, nal: seq<Byte>, known: Stream, b: Bounds)
    requires s.sps && s.pps && !s.vcl && Legible(nal) && !Skipped(nal) && s.count + 1 <= b.maxUnits
    ensures CheckUnit(s, nal, known, b).Good? <==> SliceOk(nal, true, true)
    ensures CheckUnit(s, nal, known, b).Good? ==> CheckUnit(s, nal, known, b).scan == s.(count := s.count + 1, vcl := true, idr := true)
  {
    hide ParseNal, HeadOf;
  }

  lemma {:induction false} FoldAfterSets(nals: seq<seq<Byte>>, s: Scan, known: Stream, b: Bounds)
    requires s.sps && s.pps && !s.vcl && !s.idr
    ensures Fold(nals, s, known, b).Good? <==> AllLegible(nals, s.count, b) && SlicesOrNothing(Core(nals))
    ensures Fold(nals, s, known, b).Good? ==>
      Fold(nals, s, known, b).scan == s.(count := s.count + |nals|, vcl := Core(nals) != [], idr := Core(nals) != [])
    decreases |nals|
  {
    hide CheckUnit, SliceOk, Legible, Skipped, AllLegible, MoreSlices, Slices;
    if nals == [] {
      NothingMore(s.count, true, b);
    } else {
      StepSkipped(s, nals[0], known, b);
      LegibleAhead(nals, s.count, b);
      SlicesAhead(nals[0], Core(nals[1..]), true);
      if Legible(nals[0]) && s.count + 1 <= b.maxUnits {
        if Skipped(nals[0]) {
          FoldAfterSets(nals[1..], s.(count := s.count + 1), known, b);
        } else {
          StepAfterSets(s, nals[0], known, b);
          FoldInPicture(nals[1..], s.(count := s.count + 1, vcl := true, idr := true), known, b);
        }
      }
    }
  }

  /** After the sequence parameter set. */
  ghost predicate PpsOrNothing(core: seq<seq<Byte>>) { core == [] || (PpsOk(core[0]) && SlicesOrNothing(core[1..])) }

  lemma StepAfterSps(s: Scan, nal: seq<Byte>, known: Stream, b: Bounds)
    requires s.sps && !s.pps && !s.vcl && Legible(nal) && !Skipped(nal) && s.count + 1 <= b.maxUnits
    ensures CheckUnit(s, nal, known, b).Good? <==> PpsOk(nal)
    ensures CheckUnit(s, nal, known, b).Good? ==> CheckUnit(s, nal, known, b).scan == s.(count := s.count + 1, pps := true)
  {
    hide ParseNal, HeadOf;
  }

  lemma {:induction false} FoldAfterSps(nals: seq<seq<Byte>>, s: Scan, known: Stream, b: Bounds)
    requires s.sps && !s.pps && !s.vcl && !s.idr
    ensures Fold(nals, s, known, b).Good? <==> AllLegible(nals, s.count, b) && PpsOrNothing(Core(nals))
    ensures Fold(nals, s, known, b).Good? ==>
      Fold(nals, s, known, b).scan ==
        s.(count := s.count + |nals|, pps := Core(nals) != [], vcl := |Core(nals)| > 1, idr := |Core(nals)| > 1)
    decreases |nals|
  {
    hide CheckUnit, Legible, Skipped, AllLegible, SlicesOrNothing, PpsOk;
    if nals == [] {
      NothingMore(s.count, true, b);
    } else {
      StepSkipped(s, nals[0], known, b);
      LegibleAhead(nals, s.count, b);
      assert ([nals[0]] + Core(nals[1..]))[1..] == Core(nals[1..]);
      if Legible(nals[0]) && s.count + 1 <= b.maxUnits {
        if Skipped(nals[0]) {
          FoldAfterSps(nals[1..], s.(count := s.count + 1), known, b);
        } else {
          StepAfterSps(s, nals[0], known, b);
          FoldAfterSets(nals[1..], s.(count := s.count + 1, pps := true), known, b);
        }
      }
    }
  }

  /** From the start: parameter sets in order, or slices that need none in band. */
  ghost predicate Opens(core: seq<seq<Byte>>, known: Stream, b: Bounds) {
    core == [] || (SpsOk(core[0], b) && PpsOrNothing(core[1..])) || (known.width != 0 && Slices(core, false))
  }

  lemma StepFirst(s: Scan, nal: seq<Byte>, known: Stream, b: Bounds)
    requires !s.sps && !s.pps && !s.vcl && Legible(nal) && !Skipped(nal) && s.count + 1 <= b.maxUnits
    ensures CheckUnit(s, nal, known, b).Good? <==> SpsOk(nal, b) || (known.width != 0 && SliceOk(nal, true, false))
    ensures SpsOk(nal, b) ==>
      var p := ParseNal(nal, b.size, true);
      CheckUnit(s, nal, known, b).scan == s.(count := s.count + 1, sps := true, stream := Stream(p.width, p.height, p.color))
    ensures known.width != 0 && SliceOk(nal, true, false) ==>
      !SpsOk(nal, b) && CheckUnit(s, nal, known, b).scan == s.(count := s.count + 1, vcl := true, idr := false)
  {
    hide ParseNal, HeadOf;
  }

  lemma {:induction false} FoldFirst(nals: seq<seq<Byte>>, s: Scan, known: Stream, b: Bounds)
    requires !s.sps && !s.pps && !s.vcl && !s.idr
    ensures Fold(nals, s, known, b).Good? <==> AllLegible(nals, s.count, b) && Opens(Core(nals), known, b)
    ensures Fold(nals, s, known, b).Good? ==>
      var core, t := Core(nals), Fold(nals, s, known, b).scan;
      if core == [] then !t.vcl
      else if SpsOk(core[0], b) then
        var p := ParseNal(core[0], b.size, true);
        t.vcl == t.idr == (|core| > 2) && t.stream == Stream(p.width, p.height, p.color)
      else t.vcl && !t.idr && t.stream == s.stream
    decreases |nals|
  {
    hide CheckUnit, Legible, Skipped, AllLegible, PpsOrNothing, SpsOk, Slices, MoreSlices, SliceOk, ParseNal;
    if nals == [] {
      NothingMore(s.count, true, b);
    } else {
      StepSkipped(s, nals[0], known, b);
      LegibleAhead(nals, s.count, b);
      SlicesAhead(nals[0], Core(nals[1..]), false);
      assert ([nals[0]] + Core(nals[1..]))[1..] == Core(nals[1..]);
      if Legible(nals[0]) && s.count + 1 <= b.maxUnits {
        if Skipped(nals[0]) {
          FoldFirst(nals[1..], s.(count := s.count + 1), known, b);
        } else {
          StepFirst(s, nals[0], known, b);
          var r := CheckUnit(s, nals[0], known, b);
          if SpsOk(nals[0], b) {
            FoldAfterSps(nals[1..], r.scan, known, b);
          } else if r.Good? {
            FoldInPicture(nals[1..], r.scan, known, b);
          }
        }
      }
    }
  }

  /** How the parts of an accepted shape exclude one another. */
  lemma CoreTypes(core: seq<seq<Byte>>, b: Bounds)
    ensures core == [] || SpsOk(core[0], b) ==> !Slices(core, false)
    ensures |core| >= 3 ==> (PpsOrNothing(core[1..]) <==> PpsOk(core[1]) && Slices(core[2..], true))
  {
    hide HeadOf, ParseNal;
    if |core| >= 3 { assert core[1..][1..] == core[2..]; }
  }

  /** What the end of `validate` asks of the scan. */
  predicate Closes(t: Scan, keyframe: bool, b: Bounds) { t.vcl && t.idr == keyframe && Fitting(t.stream, b) }

  lemma FoldVerdict(nals: seq<seq<Byte>>, keyframe: bool, known: Stream, b: Bounds)
    ensures var r := Fold(nals, Start(known), known, b);
      r.Good? && Closes(r.scan, keyframe, b) <==> Accepts(nals, keyframe, known, b)
  {
    hide Fold, AllLegible, Slices, ParseNal, PpsOrNothing, PpsOk;
    FoldFirst(nals, Start(known), known, b);
    var core := Core(nals);
    CoreTypes(core, b);
    if core != [] && core[0] != [] { ParsedFits(core[0], b.size); }
  }

  /** The verdict of `validate` on any bytes at all: they split, and the units have the accepted shape. */
  lemma ValidateIff(data: seq<Byte>, keyframe: bool, known: Stream, b: Bounds)
    ensures Validate(data, keyframe, known, b).Good? <==>
      |data| <= b.maxBytes && Split(data).Some? && Accepts(Split(data).value, keyframe, known, b)
  {
    hide CheckUnit, Fold, Accepts, ScanFrom, Split;
    ScanIsFold(data, Start(known), known, b);
    if Split(data).Some? { FoldVerdict(Split(data).value, keyframe, known, b); }
  }

  // ------------------------------------------------------- what is emitted

  /** A parameter set as the depacketizer caches it: none, or a unit of its type. */
  ghost predicate Cached(nal: seq<Byte>, t: nat) { nal == [] || (Proper(nal) && TypeOf(nal[0]) == t) }

  /** What a sender makes: carriers as RFC 6184 has them, of units as section 7.4.1 has them. */
  ghost predicate Encoded(cs: seq<Carrier>) {
    (forall c :: c in cs ==> WellFormed(c)) && forall n :: n in AllUnits(cs) ==> Proper(n)
  }

  /** The parameter sets `assemble` puts in front, as units. */
  function Front(cs: seq<Carrier>, sps: seq<Byte>, pps: seq<Byte>): (r: seq<seq<Byte>>)
    ensures AnnexB(r) == ReusedPrefix(cs, sps, pps)
  {
    var s, p := LastOf(WholeUnits(cs), 7, sps), LastOf(WholeUnits(cs), 8, pps);
    if HasType(AllUnits(cs), 5) && !(HasType(WholeUnits(cs), 7) && HasType(WholeUnits(cs), 8)) && s != [] && p != [] then [s, p] else []
  }

  lemma {:induction false} WholeAreUnits(cs: seq<Carrier>)
    ensures forall n :: n in WholeUnits(cs) ==> n in AllUnits(cs)
  {
    if cs != [] { WholeAreUnits(cs[1..]); }
  }

  lemma {:induction false} LastOfType(nals: seq<seq<Byte>>, t: nat, cached: seq<Byte>)
    ensures var l := LastOf(nals, t, cached); l == cached || (l in nals && l != [] && TypeOf(l[0]) == t)
    ensures var l := LastOf(nals, t, cached); HasType(nals, t) ==> l in nals && l != [] && TypeOf(l[0]) == t
  {
    if nals != [] {
      LastOfType(nals[1..], t, if nals[0] != [] && TypeOf(nals[0][0]) == t then nals[0] else cached);
      if HasType(nals, t) && !HasType(nals[1..], t) {
        var n :| n in nals && n != [] && TypeOf(n[0]) == t;
        assert n == nals[0];
      }
    }
  }

  /** Assembling keeps the cache as it should be. */
  lemma StaysCached(cs: seq<Carrier>, t: nat, cached: seq<Byte>)
    requires Encoded(cs) && Cached(cached, t)
    ensures Cached(LastOf(WholeUnits(cs), t, cached), t)
  {
    hide Proper;
    WholeAreUnits(cs);
    LastOfType(WholeUnits(cs), t, cached);
  }

  /** Whatever arrives and whatever is cached: `validate` accepts an emitted unit exactly if it has the accepted shape. */
  lemma EmittedAcceptedIff(
    cs: seq<Carrier>, sps: seq<Byte>, pps: seq<Byte>, unit: PendingUnit, packets: seq<Packet>, max: nat, known: Stream, b: Bounds)
    requires Encoded(cs) && Cached(sps, 7) && Cached(pps, 8) && packets != [] && PayloadsOf(packets) == AllPayloads(cs)
    requires |ReusedPrefix(cs, sps, pps)| + |AnnexB(AllUnits(cs))| <= max
    ensures
      var a := Assemble(sps, pps, unit, packets, max);
      && a.sps == LastOf(WholeUnits(cs), 7, sps) && a.pps == LastOf(WholeUnits(cs), 8, pps) && Cached(a.sps, 7) && Cached(a.pps, 8)
      && a.result.Emitted? && a.result.unit.keyframe == HasType(AllUnits(cs), 5)
      && a.result.unit.decodable == ((HasType(AllUnits(cs), 5) || HasType(AllUnits(cs), 1)) && a.sps != [] && a.pps != [])
      && (Validate(a.result.unit.annexB, a.result.unit.keyframe, known, b).Good? <==>
            && |ReusedPrefix(cs, sps, pps)| + |AnnexB(AllUnits(cs))| <= b.maxBytes
            && Accepts(Front(cs, sps, pps) + AllUnits(cs), HasType(AllUnits(cs), 5), known, b))
  {
    hide Assemble, AllPayloads, AnnexB, Validate, Accepts, Proper, LastOf, WholeUnits, AllUnits, HasType, WellFormed, ReusedPrefix;
    AssembleInverts(cs, sps, pps, unit, packets, max);
    StaysCached(cs, 7, sps);
    StaysCached(cs, 8, pps);
    var front, units := Front(cs, sps, pps), AllUnits(cs);
    AnnexBConcat(front, units);
    assert forall n :: n in front + units ==> Proper(n);
    SplitInvertsAnnexB(front + units);
    ValidateIff(AnnexB(front + units), HasType(units, 5), known, b);
  }

  // ---------------------------------------------- decodable and acceptable

  lemma {:induction false} CoreMembers(nals: seq<seq<Byte>>)
    ensures forall n :: n in Core(nals) <==> n in nals && !Skipped(n)
  {
    if nals != [] {
      CoreMembers(nals[1..]);
      assert nals == [nals[0]] + nals[1..];
    }
  }

  /** The condition a keyframe must meet: its sets in band and whole, in order; or none in band and good ones known. */
  ghost predicate KeyframeFits(cs: seq<Carrier>, sps: seq<Byte>, pps: seq<Byte>, b: Bounds) {
    var core := Core(AllUnits(cs));
    if HasType(WholeUnits(cs), 7) && HasType(WholeUnits(cs), 8)
    then |core| >= 3 && SpsOk(core[0], b) && PpsOk(core[1]) && Slices(core[2..], true)
    else
      && SpsOk(LastOf(WholeUnits(cs), 7, sps), b) && PpsOk(LastOf(WholeUnits(cs), 8, pps))
      && LastOf(WholeUnits(cs), 7, sps)[0] < 0x80 && LastOf(WholeUnits(cs), 8, pps)[0] < 0x80
      && Slices(core, true)
  }

  /** Any other picture: slices alone, of the size the decoder remembers; in particular no parameter set in band. */
  ghost predicate DependentFits(cs: seq<Carrier>, known: Stream, b: Bounds) {
    Slices(Core(AllUnits(cs)), false) && Fitting(known, b)
  }

  lemma SetHeaders(sps: seq<Byte>, pps: seq<Byte>)
    requires Proper(sps) && Proper(pps) && TypeOf(sps[0]) == 7 && TypeOf(pps[0]) == 8
    ensures sps != [] && pps != [] && (Legible(sps) <==> sps[0] < 0x80) && (Legible(pps) <==> pps[0] < 0x80)
  {
  }

  /** Two parameter sets in front of units. */
  lemma BehindSets(sps: seq<Byte>, pps: seq<Byte>, units: seq<seq<Byte>>, known: Stream, b: Bounds)
    requires units != [] && Proper(sps) && Proper(pps) && TypeOf(sps[0]) == 7 && TypeOf(pps[0]) == 8
    ensures Accepts([sps, pps] + units, true, known, b) <==>
      && sps[0] < 0x80 && pps[0] < 0x80 && AllLegible(units, 2, b)
      && SpsOk(sps, b) && PpsOk(pps) && Slices(Core(units), true)
  {
    hide ParseNal, SliceOk, Proper, Legible;
    var all := [sps, pps] + units;
    assert all[1..] == [pps] + units && all[1..][1..] == units;
    assert sps != [] && pps != [] && (Legible(sps) <==> sps[0] < 0x80) && (Legible(pps) <==> pps[0] < 0x80) by { SetHeaders(sps, pps); }
    LegibleAhead(all, 0, b);
    LegibleAhead(all[1..], 1, b);
    assert Core(all) == [sps] + Core(all[1..]) && Core(all[1..]) == [pps] + Core(units);
    assert Core(all)[2..] == Core(units);
  }

  /**
  Every unit that `assemble` calls decodable, and exactly when `validate` accepts it. What it asks besides
  size, number and kinds of units: of a keyframe that both parameter sets or none are in band, of any
  other picture that none is and that the decoder knows the stream.
  */
  lemma DecodableUnitAcceptedIff(
    cs: seq<Carrier>, sps: seq<Byte>, pps: seq<Byte>, unit: PendingUnit, packets: seq<Packet>, max: nat, known: Stream, b: Bounds)
    requires Encoded(cs) && Cached(sps, 7) && Cached(pps, 8) && packets != [] && PayloadsOf(packets) == AllPayloads(cs)
    requires |ReusedPrefix(cs, sps, pps)| + |AnnexB(AllUnits(cs))| <= max
    ensures
      var u := Assemble(sps, pps, unit, packets, max).result;
      u.Emitted? && (u.unit.decodable ==>
        (Validate(u.unit.annexB, u.unit.keyframe, known, b).Good? <==>
           && |ReusedPrefix(cs, sps, pps)| + |AnnexB(AllUnits(cs))| <= b.maxBytes
           && AllLegible(AllUnits(cs), |Front(cs, sps, pps)|, b)
           && if HasType(AllUnits(cs), 5) then KeyframeFits(cs, sps, pps, b) else DependentFits(cs, known, b)))
  {
    hide Assemble, AllPayloads, AnnexB, Validate, AllLegible, Slices, SpsOk, PpsOk, Core, Proper, LastOf, WholeUnits, AllUnits, HasType, WellFormed, ReusedPrefix;
    EmittedAcceptedIff(cs, sps, pps, unit, packets, max, known, b);
    var front, units := Front(cs, sps, pps), AllUnits(cs);
    var s, p := LastOf(WholeUnits(cs), 7, sps), LastOf(WholeUnits(cs), 8, pps);
    StaysCached(cs, 7, sps);
    StaysCached(cs, 8, pps);
    if front == [] {
      assert front + units == units;
    } else {
      assert units != [] by { NonEmpty(units, 5); }
      BehindSets(s, p, units, known, b);
    }
  }

  lemma NonEmpty(nals: seq<seq<Byte>>, t: nat)
    ensures HasType(nals, t) ==> nals != []
  {
  }

  // -------------------------------------------- what decides, all else fitting

  /** The carriers of a picture, and the parameter sets the depacketizer has cached. */
  datatype Sent = Sent(carriers: seq<Carrier>, sps: seq<Byte>, pps: seq<Byte>)
  {
    function Units(): seq<seq<Byte>> { AllUnits(carriers) }

    /** The parameter sets known after assembling: those carried whole, else those cached. */
    function Sps(): seq<Byte> { LastOf(WholeUnits(carriers), 7, sps) }

    function Pps(): seq<Byte> { LastOf(WholeUnits(carriers), 8, pps) }
  }

  function OfTypes(nals: seq<seq<Byte>>, ts: set<int>): (r: seq<seq<Byte>>)
    ensures forall n :: n in r ==> n != [] && TypeOf(n[0]) in ts
  {
    if nals == [] then []
    else if nals[0] != [] && TypeOf(nals[0][0]) in ts then [nals[0]] + OfTypes(nals[1..], ts) else OfTypes(nals[1..], ts)
  }

  predicate IsType(nal: seq<Byte>, t: nat) { nal != [] && TypeOf(nal[0]) == t }

  function SetsIn(nals: seq<seq<Byte>>): seq<seq<Byte>> { OfTypes(nals, {7, 8}) }

  function SlicesIn(nals: seq<seq<Byte>>): seq<seq<Byte>> { OfTypes(nals, {1, 5}) }

  /** Parameter sets before slices, each kind once at most and in order. */
  predicate SetsFirst(nals: seq<seq<Byte>>) {
    var sets := SetsIn(nals);
    && Core(nals) == sets + SlicesIn(nals)
    && (|sets| <= 1 || (|sets| == 2 && IsType(sets[0], 7) && IsType(sets[1], 8)))
  }

  /** Everything about a picture but which parameter sets are in band: those known are good, and the slices are. */
  ghost predicate OtherwiseAcceptable(p: Sent, b: Bounds) {
    && Encoded(p.carriers) && Cached(p.sps, 7) && Cached(p.pps, 8) && AllLegible(p.Units(), 2, b)
    && SpsOk(p.Sps(), b) && PpsOk(p.Pps()) && p.Sps()[0] < 0x80 && p.Pps()[0] < 0x80
    && Slices(SlicesIn(p.Units()), HasType(p.Units(), 5))
    && (HasType(p.Units(), 5) ==> SetsFirst(p.Units()))
  }

  /** A keyframe with both sets in band and unfragmented, or with none; another picture with none, of a known stream. */
  predicate SetsAgree(p: Sent, known: Stream, b: Bounds) {
    var any := HasType(p.Units(), 7) || HasType(p.Units(), 8);
    if HasType(p.Units(), 5) then any ==> HasType(WholeUnits(p.carriers), 7) && HasType(WholeUnits(p.carriers), 8)
    else !any && Fitting(known, b)
  }

  lemma {:induction false} OfTypesMembers(nals: seq<seq<Byte>>, ts: set<int>)
    ensures forall n :: n in OfTypes(nals, ts) <==> n in nals && n != [] && TypeOf(n[0]) in ts
  {
    if nals != [] {
      OfTypesMembers(nals[1..], ts);
      assert nals == [nals[0]] + nals[1..];
    }
  }

  /** Without parameter sets only slices are left. */
  lemma {:induction false} CoreIsSlices(nals: seq<seq<Byte>>)
    requires (forall n :: n in nals ==> Legible(n)) && !HasType(nals, 7) && !HasType(nals, 8)
    ensures Core(nals) == SlicesIn(nals)
  {
    if nals != [] {
      assert nals[0] in nals;
      assert forall n :: n in nals[1..] ==> n in nals;
      CoreIsSlices(nals[1..]);
    }
  }

  /** A parameter set in band is in the way of slices alone. */
  lemma SetAmongSlices(nals: seq<seq<Byte>>, idr: bool)
    requires HasType(nals, 7) || HasType(nals, 8)
    ensures !Slices(Core(nals), idr)
  {
    hide HeadOf;
    CoreMembers(nals);
    var n :| n in nals && n != [] && TypeOf(n[0]) in {7, 8};
    assert n in Core(nals);
    var i :| 0 <= i < |Core(nals)| && Core(nals)[i] == n;
  }

  lemma TwoSets(sets: seq<seq<Byte>>, sps: seq<Byte>, pps: seq<Byte>)
    requires sps in sets && pps in sets && IsType(sps, 7) && IsType(pps, 8)
    requires |sets| <= 1 || (|sets| == 2 && IsType(sets[0], 7) && IsType(sets[1], 8))
    ensures sets == [sps, pps]
  {
  }

  /** Both sets whole and in order: they are the sets known, in front of the slices. */
  lemma BothInBand(p: Sent, b: Bounds)
    requires OtherwiseAcceptable(p, b) && HasType(p.Units(), 5)
    requires HasType(WholeUnits(p.carriers), 7) && HasType(WholeUnits(p.carriers), 8)
    ensures KeyframeFits(p.carriers, p.sps, p.pps, b)
  {
    hide SliceOk, ParseNal, Encoded, Cached, Core, OfTypes, Proper, Slices, LastOf, WholeUnits, AllUnits;
    var units, sets, slices := p.Units(), SetsIn(p.Units()), SlicesIn(p.Units());
    WholeAreUnits(p.carriers);
    LastOfType(WholeUnits(p.carriers), 7, p.sps);
    LastOfType(WholeUnits(p.carriers), 8, p.pps);
    OfTypesMembers(units, {7, 8});
    assert p.Sps() in sets && p.Pps() in sets;
    TwoSets(sets, p.Sps(), p.Pps());
    assert (sets + slices)[2..] == slices;
    SomeSlices(slices, true);
  }

  lemma SomeSlices(slices: seq<seq<Byte>>, idr: bool)
    requires Slices(slices, idr)
    ensures slices != []
  {
  }

  /**
  The unit `assemble` emits for a picture that is acceptable otherwise is decodable, and `validate`
  accepts it if and only if its parameter sets agree.
  */
  lemma DecodableAcceptedIff(p: Sent, unit: PendingUnit, packets: seq<Packet>, max: nat, known: Stream, b: Bounds)
    requires OtherwiseAcceptable(p, b) && packets != [] && PayloadsOf(packets) == AllPayloads(p.carriers)
    requires |ReusedPrefix(p.carriers, p.sps, p.pps)| + |AnnexB(p.Units())| <= max <= b.maxBytes
    ensures var r := Assemble(p.sps, p.pps, unit, packets, max).result;
      && r.Emitted? && r.unit.decodable && r.unit.keyframe == HasType(p.Units(), 5)
      && (Validate(r.unit.annexB, r.unit.keyframe, known, b).Good? <==> SetsAgree(p, known, b))
  {
    hide Assemble, AllPayloads, AnnexB, Validate, Accepts, Proper, LastOf, WholeUnits, AllUnits, HasType, WellFormed, ReusedPrefix, Slices, ParseNal, Core, OfTypes, SetsFirst;
    var units := p.Units();
    EmittedAcceptedIff(p.carriers, p.sps, p.pps, unit, packets, max, known, b);
    DecodableUnitAcceptedIff(p.carriers, p.sps, p.pps, unit, packets, max, known, b);
    PictureTypes(units);
    FewerUnits(units, b);
    if HasType(units, 7) || HasType(units, 8) {
      SetAmongSlices(units, HasType(units, 5));
      if HasType(units, 5) && HasType(WholeUnits(p.carriers), 7) && HasType(WholeUnits(p.carriers), 8) { BothInBand(p, b); }
    } else {
      CoreIsSlices(units);
      WholeTypes(p.carriers, 7);
      WholeTypes(p.carriers, 8);
    }
  }

  lemma PictureTypes(units: seq<seq<Byte>>)
    requires Slices(SlicesIn(units), HasType(units, 5))
    ensures HasType(units, 5) || HasType(units, 1)
  {
    hide HeadOf;
    OfTypesMembers(units, {1, 5});
    assert SlicesIn(units)[0] in SlicesIn(units);
  }

  lemma FewerUnits(units: seq<seq<Byte>>, b: Bounds)
    requires AllLegible(units, 2, b)
    ensures AllLegible(units, 0, b)
  {
  }

  lemma WholeTypes(cs: seq<Carrier>, t: nat)
    ensures HasType(WholeUnits(cs), t) ==> HasType(AllUnits(cs), t)
  {
    WholeAreUnits(cs);
  }

  /** For pictures whose parameter sets are not fragmented, in terms of what is in band alone. */
  lemma UnfragmentedAcceptedIff(p: Sent, unit: PendingUnit, packets: seq<Packet>, max: nat, known: Stream, b: Bounds)
    requires OtherwiseAcceptable(p, b) && packets != [] && PayloadsOf(packets) == AllPayloads(p.carriers)
    requires |ReusedPrefix(p.carriers, p.sps, p.pps)| + |AnnexB(p.Units())| <= max <= b.maxBytes
    requires HasType(p.Units(), 7) ==> HasType(WholeUnits(p.carriers), 7)
    requires HasType(p.Units(), 8) ==> HasType(WholeUnits(p.carriers), 8)
    ensures var r := Assemble(p.sps, p.pps, unit, packets, max).result;
      && r.Emitted? && r.unit.decodable
      && (Validate(r.unit.annexB, r.unit.keyframe, known, b).Good? <==>
            if HasType(p.Units(), 5) then HasType(p.Units(), 7) <==> HasType(p.Units(), 8)
            else !HasType(p.Units(), 7) && !HasType(p.Units(), 8) && Fitting(known, b))
  {
    hide Assemble, AllPayloads, AnnexB, Validate, Proper, LastOf, WholeUnits, AllUnits, HasType, WellFormed, ReusedPrefix, OtherwiseAcceptable;
    DecodableAcceptedIff(p, unit, packets, max, known, b);
    WholeTypes(p.carriers, 7);
    WholeTypes(p.carriers, 8);
  }
}
