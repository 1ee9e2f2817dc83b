/**
The sender's side, written from RFC 6184: single NAL unit packets (section 5.6),
STAP-A (section 5.7.1) and FU-A (section 5.8). The theorem says the depacketizer
undoes every mix of them.
*/
module Packetizer {
  import opened Basics
  import opened Rtp
  import opened DepacketizerSpec

  /** One way to carry NAL units: alone, several in one packet, or one split in chunks. */
  datatype Carrier =
    | Single(nal: seq<Byte>)
    | Aggregate(header: Byte, nals: seq<seq<Byte>>)
    | Fragments(header: Byte, chunks: seq<seq<Byte>>)

  predicate WellFormed(c: Carrier) {
    match c
    case Single(nal) => nal != [] && 1 <= TypeOf(nal[0]) <= 23
    case Aggregate(h, nals) => TypeOf(h) == 24 && forall n :: n in nals ==> 1 <= |n| < 0x1_0000
    case Fragments(_, chunks) => |chunks| >= 2 && forall c :: c in chunks ==> c != []
  }

  function Flatten(parts: seq<seq<Byte>>): seq<Byte> {
    if parts == [] then [] else parts[0] + Flatten(parts[1..])
  }

  function Units(c: Carrier): (r: seq<seq<Byte>>) {
    match c
    case Single(nal) => [nal]
    case Aggregate(_, nals) => nals
    case Fragments(h, chunks) => [[h] + Flatten(chunks)]
  }

  function Sized(nals: seq<seq<Byte>>): (r: seq<Byte>)
    requires forall n :: n in nals ==> |n| < 0x1_0000
  {
    if nals == [] then [] else [|nals[0]| / 0x100, |nals[0]| % 0x100] + nals[0] + Sized(nals[1..])
  }

  /** Fragment `i` of `n`: FU indicator, FU header with its start and end bits, chunk. */
  function FragmentPayload(h: Byte, i: nat, n: nat, chunk: seq<Byte>): Payload
    requires i < n && n >= 2
  {
    [h / 0x20 * 0x20 + 28, (if i == 0 then 0x80 else if i == n - 1 then 0x40 else 0) + TypeOf(h)] + chunk
  }

  function Payloads(c: Carrier): (r: seq<Payload>)
    requires WellFormed(c)
  {
    match c
    case Single(nal) => [nal]
    case Aggregate(h, nals) => [[h] + Sized(nals)]
    case Fragments(h, chunks) => FragmentsFrom(h, chunks, 0)
  }

  function FragmentsFrom(h: Byte, chunks: seq<seq<Byte>>, i: nat): (r: seq<Payload>)
    requires i <= |chunks| && |chunks| >= 2
    ensures |r| == |chunks| - i
    ensures forall k :: 0 <= k < |r| ==> r[k] == FragmentPayload(h, i + k, |chunks|, chunks[i + k])
    decreases |chunks| - i
  {
    if i == |chunks| then [] else [FragmentPayload(h, i, |chunks|, chunks[i])] + FragmentsFrom(h, chunks, i + 1)
  }

  function AllUnits(cs: seq<Carrier>): seq<seq<Byte>> {
    if cs == [] then [] else Units(cs[0]) + AllUnits(cs[1..])
  }

  /** The units not split over packets: only these feed the parameter-set cache. */
  function WholeUnits(cs: seq<Carrier>): seq<seq<Byte>> {
    if cs == [] then [] else (if cs[0].Fragments? then [] else Units(cs[0])) + WholeUnits(cs[1..])
  }

  function AllPayloads(cs: seq<Carrier>): seq<Payload>
    requires forall c :: c in cs ==> WellFormed(c)
  {
    if cs == [] then [] else Payloads(cs[0]) + AllPayloads(cs[1..])
  }

  /** The byte stream of Annex B with four-byte start codes. */
  function AnnexB(nals: seq<seq<Byte>>): seq<Byte> {
    if nals == [] then [] else START_CODE + nals[0] + AnnexB(nals[1..])
  }

  predicate HasType(nals: seq<seq<Byte>>, t: nat) {
    exists n :: n in nals && n != [] && TypeOf(n[0]) == t
  }

  /** The last unit of a type, or what was cached before. */
  function LastOf(nals: seq<seq<Byte>>, t: nat, cached: seq<Byte>): (r: seq<Byte>)
    ensures !HasType(nals, t) ==> r == cached
  {
    if nals == [] then cached
    else LastOf(nals[1..], t, if nals[0] != [] && TypeOf(nals[0][0]) == t then nals[0] else cached)
  }

  // ------------------------------------------------------------ the theorem

  /** What carrying `nals` (and, of them, `whole` unsplit) must do to the assembly. */
  ghost predicate Carried(a: Assembly, b: Assembly, nals: seq<seq<Byte>>, whole: seq<seq<Byte>>) {
    && b.annexB == a.annexB + AnnexB(nals)
    && !b.fragmented
    && b.keyframe == (a.keyframe || HasType(nals, 5))
    && b.picture == (a.picture || HasType(nals, 5) || HasType(nals, 1))
    && b.hasSPS == (a.hasSPS || HasType(whole, 7))
    && b.hasPPS == (a.hasPPS || HasType(whole, 8))
    && b.sps == LastOf(whole, 7, a.sps)
    && b.pps == LastOf(whole, 8, a.pps)
  }

  lemma {:induction false} AnnexBConcat(x: seq<seq<Byte>>, y: seq<seq<Byte>>)
    ensures AnnexB(x + y) == AnnexB(x) + AnnexB(y)
  {
    if x == [] {
      assert x + y == y;
    } else {
      AnnexBConcat(x[1..], y);
      assert (x + y)[1..] == x[1..] + y;
    }
  }

  lemma {:induction false} LastOfConcat(x: seq<seq<Byte>>, y: seq<seq<Byte>>, t: nat, cached: seq<Byte>)
    ensures LastOf(x + y, t, cached) == LastOf(y, t, LastOf(x, t, cached))
  {
    if x == [] {
      assert x + y == y;
    } else {
      LastOfConcat(x[1..], y, t, if x[0] != [] && TypeOf(x[0][0]) == t then x[0] else cached);
      assert (x + y)[1..] == x[1..] + y;
    }
  }

  lemma HasTypeConcat(x: seq<seq<Byte>>, y: seq<seq<Byte>>, t: nat)
    ensures HasType(x + y, t) == (HasType(x, t) || HasType(y, t))
  {
    if HasType(x, t) {
      var n :| n in x && n != [] && TypeOf(n[0]) == t;
      assert n in x + y;
    }
    if HasType(y, t) {
      var n :| n in y && n != [] && TypeOf(n[0]) == t;
      assert n in x + y;
    }
  }

  lemma CarriedConcat(a: Assembly, b: Assembly, c: Assembly, x: seq<seq<Byte>>, wx: seq<seq<Byte>>, y: seq<seq<Byte>>, wy: seq<seq<Byte>>)
    requires Carried(a, b, x, wx) && Carried(b, c, y, wy)
    ensures Carried(a, c, x + y, wx + wy)
  {
    AnnexBConcat(x, y);
    assert a.annexB + AnnexB(x) + AnnexB(y) == a.annexB + (AnnexB(x) + AnnexB(y));
    LastOfConcat(wx, wy, 7, a.sps);
    LastOfConcat(wx, wy, 8, a.pps);
    HasTypeConcat(x, y, 5);
    HasTypeConcat(x, y, 1);
    HasTypeConcat(wx, wy, 7);
    HasTypeConcat(wx, wy, 8);
  }

  lemma {:induction false} AppendAllConcat(a: Assembly, p: seq<Payload>, q: seq<Payload>, max: nat)
    requires |a.annexB| <= max
    ensures AppendAll(a, p + q, max)
         == var r := AppendAll(a, p, max); if r.Abort? then r else AppendAll(r.a, q, max)
    decreases |p|
  {
    if p == [] {
      assert p + q == q;
    } else {
      assert (p + q)[1..] == p[1..] + q;
      var r := AppendPayload(a, p[0], max);
      if r.Continue? {
        AppendAllConcat(r.a, p[1..], q, max);
      }
    }
  }

  lemma SingleCarried(a: Assembly, nal: seq<Byte>, max: nat)
    requires nal != [] && !a.fragmented && |a.annexB| + 4 + |nal| <= max
    ensures var r := AppendNal(a, nal, max); r.Continue? && Carried(a, r.a, [nal], [nal])
  {
    assert AnnexB([nal]) == START_CODE + nal;
    assert a.annexB + START_CODE + nal == a.annexB + (START_CODE + nal);
    forall t: nat
      ensures HasType([nal], t) == (TypeOf(nal[0]) == t)
    {
      assert nal in [nal];
    }
    assert forall t: nat, cached :: LastOf([nal], t, cached) == if TypeOf(nal[0]) == t then nal else cached;
  }

  lemma CarriedLength(a: Assembly, b: Assembly, nals: seq<seq<Byte>>, whole: seq<seq<Byte>>)
    requires Carried(a, b, nals, whole)
    ensures |b.annexB| == |a.annexB| + |AnnexB(nals)| && !b.fragmented
  {
  }

  lemma NothingCarried(a: Assembly)
    requires !a.fragmented
    ensures Carried(a, a, [], [])
  {
    assert a.annexB + [] == a.annexB;
    NoneOf(a.sps, a.pps);
  }

  lemma AggregateEnd(a: Assembly, payload: seq<Byte>, max: nat)
    requires !a.fragmented && |a.annexB| <= max
    ensures var r := AppendAggregate(a, payload, |payload|, max); r.Continue? && Carried(a, r.a, [], [])
  {
    NothingCarried(a);
  }

  /** One length-prefixed unit of a STAP-A payload is read back whole. */
  lemma AggregateStep(a: Assembly, head: seq<Byte>, n: seq<Byte>, tail: seq<Byte>, max: nat)
    requires 1 <= |n| < 0x1_0000 && |a.annexB| <= max && AppendNal(a, n, max).Continue?
    ensures var payload := head + [|n| / 0x100, |n| % 0x100] + n + tail;
            && AppendAggregate(a, payload, |head|, max)
               == AppendAggregate(AppendNal(a, n, max).a, payload, |head| + 2 + |n|, max)
  {
    hide AppendNal;
    var payload := head + [|n| / 0x100, |n| % 0x100] + n + tail;
    assert payload[|head|] == |n| / 0x100 && payload[|head| + 1] == |n| % 0x100;
    assert Size16(payload, |head|) == |n|;
    assert payload[|head| + 2..|head| + 2 + |n|] == n;
  }

  lemma {:induction false} SizedCarried(a: Assembly, head: seq<Byte>, nals: seq<seq<Byte>>, max: nat)
    requires !a.fragmented && forall n :: n in nals ==> 1 <= |n| < 0x1_0000
    requires |a.annexB| + |AnnexB(nals)| <= max
    ensures var r := AppendAggregate(a, head + Sized(nals), |head|, max);
            r.Continue? && Carried(a, r.a, nals, nals)
    decreases |nals|
  {
    hide HasType, LastOf, AppendNal, Carried, AppendAggregate;
    var payload := head + Sized(nals);
    if nals == [] {
      assert payload == head;
      AggregateEnd(a, head, max);
    } else {
      assert |AnnexB(nals)| == 4 + |nals[0]| + |AnnexB(nals[1..])|;
      var n := nals[0];
      var next := head + [|n| / 0x100, |n| % 0x100] + n;
      assert payload == next + Sized(nals[1..]);
      SingleCarried(a, n, max);
      var r := AppendNal(a, n, max);
      CarriedLength(a, r.a, [n], [n]);
      assert AnnexB([n]) == START_CODE + n;
      AggregateStep(a, head, n, Sized(nals[1..]), max);
      SizedCarried(r.a, next, nals[1..], max);
      var rest := AppendAggregate(r.a, payload, |next|, max);
      assert rest.Continue? && Carried(r.a, rest.a, nals[1..], nals[1..]);
      assert AppendAggregate(a, payload, |head|, max) == rest;
      CarriedConcat(a, r.a, rest.a, [n], [n], nals[1..], nals[1..]);
      assert nals == [n] + nals[1..];
      assert Carried(a, rest.a, nals, nals);
    }
  }

  /** The middle of a fragmented unit: the remaining chunks are appended and the unit closed. */
  lemma {:induction false} TailCarried(a: Assembly, h: Byte, chunks: seq<seq<Byte>>, i: nat, max: nat)
    requires |chunks| >= 2 && 0 < i < |chunks| && forall c :: c in chunks ==> c != []
    requires a.fragmented && a.fragmentType == TypeOf(h)
    requires |a.annexB| + |Flatten(chunks[i..])| <= max
    ensures AppendAll(a, FragmentsFrom(h, chunks, i), max)
         == Continue(a.(annexB := a.annexB + Flatten(chunks[i..]), fragmented := false,
                        keyframe := a.keyframe || TypeOf(h) == 5, picture := a.picture || TypeOf(h) == 1 || TypeOf(h) == 5))
    decreases |chunks| - i
  {
    var p := FragmentPayload(h, i, |chunks|, chunks[i]);
    var rest := FragmentsFrom(h, chunks, i + 1);
    assert FragmentsFrom(h, chunks, i) == [p] + rest;
    assert ([p] + rest)[1..] == rest;
    assert p[2..] == chunks[i];
    assert Flatten(chunks[i..]) == chunks[i] + Flatten(chunks[i + 1..]) by { assert chunks[i..][1..] == chunks[i + 1..]; }
    assert a.annexB + chunks[i] + Flatten(chunks[i + 1..]) == a.annexB + Flatten(chunks[i..]);
    assert chunks[i] in chunks;
    var r := AppendPayload(a, p, max);
    if i < |chunks| - 1 {
      assert r == Continue(a.(annexB := a.annexB + chunks[i]));
      TailCarried(r.a, h, chunks, i + 1, max);
    } else {
      assert rest == [] && chunks[i + 1..] == [];
      assert a.annexB + chunks[i] == a.annexB + Flatten(chunks[i..]);
    }
  }

  /** The first fragment opens the unit under its rebuilt header. */
  lemma HeadCarried(a: Assembly, h: Byte, chunk: seq<Byte>, n: nat, max: nat)
    requires n >= 2 && chunk != [] && !a.fragmented && |a.annexB| + 5 + |chunk| <= max
    ensures AppendPayload(a, FragmentPayload(h, 0, n, chunk), max)
         == Continue(a.(annexB := a.annexB + START_CODE + [h] + chunk, fragmented := true, fragmentType := TypeOf(h)))
  {
    var p := FragmentPayload(h, 0, n, chunk);
    assert p[2..] == chunk;
  }

  lemma FragmentsCarried(a: Assembly, h: Byte, chunks: seq<seq<Byte>>, max: nat)
    requires WellFormed(Fragments(h, chunks)) && !a.fragmented
    requires |a.annexB| + 5 + |Flatten(chunks)| <= max
    ensures var r := AppendAll(a, FragmentsFrom(h, chunks, 0), max);
            r.Continue? && Carried(a, r.a, [[h] + Flatten(chunks)], [])
  {
    hide HasType, LastOf, AppendPayload;
    var p := FragmentPayload(h, 0, |chunks|, chunks[0]);
    var rest := FragmentsFrom(h, chunks, 1);
    assert FragmentsFrom(h, chunks, 0) == [p] + rest && ([p] + rest)[1..] == rest;
    assert chunks[0] in chunks;
    HeadCarried(a, h, chunks[0], |chunks|, max);
    var b := AppendPayload(a, p, max).a;
    TailCarried(b, h, chunks, 1, max);
    var nal := [h] + Flatten(chunks);
    assert AnnexB([nal]) == START_CODE + nal;
    assert b.annexB + Flatten(chunks[1..]) == a.annexB + (START_CODE + nal);
    HasSingle(nal);
    NoneOf(a.sps, a.pps);
  }

  lemma HasSingle(nal: seq<Byte>)
    requires nal != []
    ensures forall t: nat :: HasType([nal], t) == (TypeOf(nal[0]) == t)
  {
    assert nal in [nal];
  }

  lemma NoneOf(sps: seq<Byte>, pps: seq<Byte>)
    ensures forall t: nat :: !HasType([], t)
    ensures LastOf([], 7, sps) == sps && LastOf([], 8, pps) == pps
  {
  }

  lemma CarrierCarried(a: Assembly, c: Carrier, max: nat)
    requires WellFormed(c) && !a.fragmented
    requires |a.annexB| + |AnnexB(Units(c))| <= max
    ensures var r := AppendAll(a, Payloads(c), max);
            r.Continue? && Carried(a, r.a, Units(c), if c.Fragments? then [] else Units(c))
  {
    hide Carried;
    match c
    case Single(nal) =>
      assert AnnexB([nal]) == START_CODE + nal;
      SingleCarried(a, nal, max);
    case Aggregate(h, nals) =>
      SizedCarried(a, [h], nals, max);
    case Fragments(h, chunks) =>
      assert AnnexB([[h] + Flatten(chunks)]) == START_CODE + ([h] + Flatten(chunks));
      FragmentsCarried(a, h, chunks, max);
  }

  /**
  Packetization is transparent: whatever mix of packets carries the units, the
  assembly gains exactly the start-code-prefixed units, and the keyframe and
  picture flags depend on the units alone.
  */
  lemma {:induction false} Transparent(a: Assembly, cs: seq<Carrier>, max: nat)
    requires (forall c :: c in cs ==> WellFormed(c)) && !a.fragmented
    requires |a.annexB| + |AnnexB(AllUnits(cs))| <= max
    ensures var r := AppendAll(a, AllPayloads(cs), max);
            r.Continue? && Carried(a, r.a, AllUnits(cs), WholeUnits(cs))
    decreases |cs|
  {
    hide Carried;
    if cs == [] {
      NothingCarried(a);
    } else {
      var u, w := Units(cs[0]), if cs[0].Fragments? then [] else Units(cs[0]);
      AnnexBConcat(u, AllUnits(cs[1..]));
      CarrierCarried(a, cs[0], max);
      var r := AppendAll(a, Payloads(cs[0]), max);
      CarriedLength(a, r.a, u, w);
      Transparent(r.a, cs[1..], max);
      AppendAllConcat(a, Payloads(cs[0]), AllPayloads(cs[1..]), max);
      CarriedConcat(a, r.a, AppendAll(r.a, AllPayloads(cs[1..]), max).a, u, w, AllUnits(cs[1..]), WholeUnits(cs[1..]));
    }
  }

  /** The prefix `assemble` puts before a keyframe that lacks an in-band parameter set. */
  function ReusedPrefix(cs: seq<Carrier>, sps: seq<Byte>, pps: seq<Byte>): (r: seq<Byte>)
    ensures !HasType(AllUnits(cs), 5) ==> r == []
    ensures HasType(WholeUnits(cs), 7) && HasType(WholeUnits(cs), 8) ==> r == []
  {
    var s, p := LastOf(WholeUnits(cs), 7, sps), LastOf(WholeUnits(cs), 8, pps);
    if HasType(AllUnits(cs), 5) && !(HasType(WholeUnits(cs), 7) && HasType(WholeUnits(cs), 8)) && s != [] && p != []
    then AnnexB([s, p]) else []
  }

  /**
  The unit `assemble` emits for packets carrying `cs`: exactly the units, after
  nothing but the cached parameter sets, with flags read off the units.
  */
  lemma AssembleInverts(cs: seq<Carrier>, sps: seq<Byte>, pps: seq<Byte>, unit: PendingUnit, packets: seq<Packet>, max: nat)
    requires packets != [] && (forall c :: c in cs ==> WellFormed(c)) && PayloadsOf(packets) == AllPayloads(cs)
    requires |ReusedPrefix(cs, sps, pps)| + |AnnexB(AllUnits(cs))| <= max
    ensures var r := Assemble(sps, pps, unit, packets, max);
            && r.sps == LastOf(WholeUnits(cs), 7, sps)
            && r.pps == LastOf(WholeUnits(cs), 8, pps)
            && r.result.Emitted?
            && r.result.unit.annexB == ReusedPrefix(cs, sps, pps) + AnnexB(AllUnits(cs))
            && r.result.unit.keyframe == HasType(AllUnits(cs), 5)
            && r.result.unit.picture == (HasType(AllUnits(cs), 5) || HasType(AllUnits(cs), 1))
            && r.result.unit.decodable == (r.result.unit.picture && r.sps != [] && r.pps != [])
            && r.result.unit.reused == (ReusedPrefix(cs, sps, pps) != [])
  {
    hide HasType, LastOf;
    Transparent(Fresh(sps, pps), cs, max);
    NoneOf(sps, pps);
    var a := AppendAll(Fresh(sps, pps), AllPayloads(cs), max).a;
    assert [] + AnnexB(AllUnits(cs)) == AnnexB(AllUnits(cs));
    AnnexBPair(a.sps, a.pps);
    assert START_CODE + a.sps + START_CODE + a.pps + a.annexB == AnnexB([a.sps, a.pps]) + a.annexB;
    LastOfPresent(WholeUnits(cs), 7, sps);
    LastOfPresent(WholeUnits(cs), 8, pps);
  }

  lemma AnnexBPair(x: seq<Byte>, y: seq<Byte>)
    ensures AnnexB([x, y]) == START_CODE + x + START_CODE + y
  {
    assert [x, y][1..] == [y];
    assert AnnexB([y]) == START_CODE + y;
  }

  lemma {:induction false} LastOfPresent(nals: seq<seq<Byte>>, t: nat, cached: seq<Byte>)
    ensures HasType(nals, t) || cached != [] ==> LastOf(nals, t, cached) != []
    ensures LastOf(nals, t, cached) == cached || LastOf(nals, t, cached) in nals
    decreases |nals|
  {
    if nals != [] {
      LastOfPresent(nals[1..], t, if nals[0] != [] && TypeOf(nals[0][0]) == t then nals[0] else cached);
      if HasType(nals, t) && !(nals[0] != [] && TypeOf(nals[0][0]) == t) {
        var n :| n in nals && n != [] && TypeOf(n[0]) == t;
        assert n in nals[1..];
      }
    }
  }
}
