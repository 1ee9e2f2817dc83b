/**
A picture carried as RFC 6184 allows, by any mix of packets, through every arrival order:
which units come out, and when they are not all of them. A run held at the marker can only
start where a carrier starts, so what is emitted is the picture or, when the head arrives
after a later carrier's run was complete, a suffix of its carriers.
*/
module CarriedPicture {
  import opened Basics
  import opened Rtp
  import opened DepacketizerSpec
  import opened Packetizer
  import P = PictureRun

  predicate Carries(cs: seq<Carrier>, p: P.Picture) {
    && cs != [] && (forall c :: c in cs ==> WellFormed(c))
    && p.payloads == AllPayloads(cs)
  }

  /** How many packets come before carrier `c`. */
  function StartOf(cs: seq<Carrier>, c: nat): nat
    requires c <= |cs| && forall x :: x in cs ==> WellFormed(x)
  {
    |AllPayloads(cs[..c])|
  }

  /** What could be emitted fits in an access unit, with the parameter sets that would be reused. */
  ghost predicate Fits(cs: seq<Carrier>, s: State) {
    forall c :: 0 <= c < |cs| ==> |ReusedPrefix(cs[c..], s.sps, s.pps)| + |AnnexB(AllUnits(cs[c..]))| <= s.limits.maxUnitBytes
  }

  // --------------------------------------------------- where carriers start

  lemma CarrierHead(c: Carrier)
    requires WellFormed(c)
    ensures Payloads(c) != [] && P.StartsUnit(Payloads(c)[0])
    ensures forall i :: 0 < i < |Payloads(c)| ==> !P.StartsUnit(Payloads(c)[i])
  {
  }

  lemma {:induction false} PayloadsSplit(cs: seq<Carrier>, c: nat)
    requires c <= |cs| && forall x :: x in cs ==> WellFormed(x)
    ensures AllPayloads(cs) == AllPayloads(cs[..c]) + AllPayloads(cs[c..])
    decreases c
  {
    hide Payloads, WellFormed;
    if c > 0 {
      var rest := cs[1..];
      PayloadsSplit(rest, c - 1);
      assert cs[..c] == [cs[0]] + rest[..c - 1] && rest[c - 1..] == cs[c..];
      PayloadsAhead(cs[0], rest[..c - 1]);
      PayloadsAhead(cs[0], rest);
      assert cs == [cs[0]] + rest;
    } else {
      assert cs[..0] == [] && cs[0..] == cs;
    }
  }

  lemma PayloadsAhead(head: Carrier, rest: seq<Carrier>)
    requires WellFormed(head) && forall x :: x in rest ==> WellFormed(x)
    ensures AllPayloads([head] + rest) == Payloads(head) + AllPayloads(rest)
  {
    hide Payloads, WellFormed;
    assert ([head] + rest)[1..] == rest;
  }

  lemma StartsAreStarts(cs: seq<Carrier>, c: nat)
    requires c < |cs| && forall x :: x in cs ==> WellFormed(x)
    ensures StartOf(cs, c) < |AllPayloads(cs)| && P.StartsUnit(AllPayloads(cs)[StartOf(cs, c)])
    ensures AllPayloads(cs)[StartOf(cs, c)..] == AllPayloads(cs[c..])
  {
    PayloadsSplit(cs, c);
    assert cs[c] in cs;
    CarrierHead(cs[c]);
    assert AllPayloads(cs[c..]) == Payloads(cs[c]) + AllPayloads(cs[c..][1..]);
  }

  /** A packet that starts a unit is the first of a carrier. */
  lemma {:induction false} StartIsCarrier(cs: seq<Carrier>, j: nat) returns (c: nat)
    requires (forall x :: x in cs ==> WellFormed(x)) && j < |AllPayloads(cs)| && P.StartsUnit(AllPayloads(cs)[j])
    ensures c < |cs| && StartOf(cs, c) == j
    decreases |cs|
  {
    hide P.StartsUnit;
    assert cs[0] in cs;
    CarrierHead(cs[0]);
    var n := |Payloads(cs[0])|;
    if j < n {
      c := 0;
      assert cs[..0] == [];
    } else {
      c := StartIsCarrier(cs[1..], j - n);
      assert cs[..c + 1][0] == cs[0] && cs[..c + 1][1..] == cs[1..][..c];
      c := c + 1;
    }
  }

  lemma {:induction false} StartsRise(cs: seq<Carrier>, c: nat)
    requires c <= |cs| && forall x :: x in cs ==> WellFormed(x)
    ensures StartOf(cs, c) == 0 <==> c == 0
  {
    if c > 0 {
      assert cs[..c][0] == cs[0] && cs[0] in cs;
      CarrierHead(cs[0]);
    } else {
      assert cs[..0] == [];
    }
  }

  // ------------------------------------------------------------- assembling

  /** The unit says exactly what the carriers `cs` carry. */
  ghost predicate Says(u: AccessUnit, cs: seq<Carrier>, s: State)
    requires forall c :: c in cs ==> WellFormed(c)
  {
    && u.annexB == ReusedPrefix(cs, s.sps, s.pps) + AnnexB(AllUnits(cs))
    && u.keyframe == HasType(AllUnits(cs), 5)
    && u.picture == (HasType(AllUnits(cs), 5) || HasType(AllUnits(cs), 1))
    && u.reused == (ReusedPrefix(cs, s.sps, s.pps) != [])
  }

  lemma RunAssembles(s: State, p: P.Picture, cs: seq<Carrier>, m: map<Seq16, Packet>, c: nat)
    requires P.Proper(p) && Carries(cs, p) && Fits(cs, s) && P.PartOf(m, p) && c < |cs| && P.Exactly(p, m, StartOf(cs, c))
    ensures var o := P.UnitOf(s, p, m, StartOf(cs, c)); o.Emitted? && Says(o.unit, cs[c..], s)
  {
    hide Assemble, ReusedPrefix, AnnexB, AllUnits, WholeUnits, HasType, P.SequenceOf, P.IndexOf, P.Holding, AllPayloads, WellFormed, StartOf;
    var j := StartOf(cs, c);
    var suffix := P.SuffixOf(p, m, j);
    StartsAreStarts(cs, c);
    SuffixPayloads(p, m, j);
    assert forall x :: x in cs[c..] ==> x in cs;
    AssembleInverts(cs[c..], s.sps, s.pps, P.Holding(p, m), suffix, s.limits.maxUnitBytes);
  }

  lemma SuffixPayloads(p: P.Picture, m: map<Seq16, Packet>, j: nat)
    requires P.Proper(p) && P.PartOf(m, p) && P.Exactly(p, m, j)
    ensures PayloadsOf(P.SuffixOf(p, m, j)) == p.payloads[j..]
  {
    hide P.SequenceOf, P.IndexOf;
    P.Indexing(p);
    var suffix := P.SuffixOf(p, m, j);
    forall i | 0 <= i < |suffix|
      ensures suffix[i].payload == p.payloads[j + i]
    {
      assert suffix[i] == m[P.SequenceOf(p, j + i)];
    }
  }

  lemma FittingAssembles(s: State, p: P.Picture, cs: seq<Carrier>)
    requires P.Proper(p) && Carries(cs, p) && Fits(cs, s)
    ensures P.Assembles(s, p)
  {
    hide P.UnitOf, P.SequenceOf, P.IndexOf, P.PartOf, P.StartsUnit, Fits, AllPayloads, WellFormed, Says, P.Exactly;
    forall m, j | P.PartOf(m, p) && P.RunAt(p, m, j)
      ensures P.UnitOf(s, p, m, j).Emitted?
    {
      var _ := RunIsCarriers(s, p, cs, m, j);
    }
  }

  lemma RunIsCarriers(s: State, p: P.Picture, cs: seq<Carrier>, m: map<Seq16, Packet>, j: nat) returns (c: nat)
    requires P.Proper(p) && Carries(cs, p) && Fits(cs, s) && P.PartOf(m, p) && P.RunAt(p, m, j)
    ensures c < |cs| && StartOf(cs, c) == j && P.UnitOf(s, p, m, j).Emitted? && Says(P.UnitOf(s, p, m, j).unit, cs[c..], s)
  {
    hide P.UnitOf, P.SequenceOf, P.IndexOf, P.PartOf, P.StartsUnit, Fits, AllPayloads, WellFormed, Says;
    c := StartIsCarrier(cs, j);
    RunAssembles(s, p, cs, m, c);
  }

  // ----------------------------------------------------------- the theorem

  /** The emitted unit: the carriers from `c` on, its numbers, its time, and the earliest of the first copies. */
  ghost predicate IsSuffix(u: AccessUnit, s: State, p: P.Picture, cs: seq<Carrier>, m: map<Seq16, Packet>, c: nat)
    requires P.Proper(p) && Carries(cs, p)
  {
    && c < |cs| && P.Exactly(p, m, StartOf(cs, c)) && Says(u, cs[c..], s)
    && u.firstSequence == P.SequenceOf(p, StartOf(cs, c)) && u.lastSequence == P.LastOf(p)
    && u.rtpTime == p.timestamp && u.generation == p.generation
    && (forall k :: k in m ==> u.receivedAt <= m[k].receivedAt)
    && (exists k :: k in m && u.receivedAt == m[k].receivedAt)
    && u.discontinuity == (s.discontinuity || s.pending.Some? || (s.haveLast && u.firstSequence != NextSequence(s.lastSequence)))
  }

  ghost predicate IsSomeSuffix(u: AccessUnit, s: State, p: P.Picture, cs: seq<Carrier>, m: map<Seq16, Packet>)
    requires P.Proper(p) && Carries(cs, p)
  {
    exists c :: IsSuffix(u, s, p, cs, m, c)
  }

  lemma UnitIsSuffix(s: State, p: P.Picture, cs: seq<Carrier>, m: map<Seq16, Packet>, j: nat)
    requires P.Proper(p) && Carries(cs, p) && Fits(cs, s) && P.PartOf(m, p) && P.RunAt(p, m, j)
    ensures P.UnitOf(s, p, m, j).Emitted? && exists c :: StartOfIs(cs, c, j) && IsSuffix(P.UnitOf(s, p, m, j).unit, s, p, cs, m, c)
  {
    hide P.SequenceOf, P.IndexOf, P.PartOf, P.StartsUnit, Fits, AllPayloads, WellFormed, Says, Assemble, P.Holding, P.SuffixOf;
    var c := RunIsCarriers(s, p, cs, m, j);
    P.UnitEnds(s, p, m, j);
    assert StartOfIs(cs, c, j);
  }

  predicate StartOfIs(cs: seq<Carrier>, c: nat, j: nat)
    requires forall x :: x in cs ==> WellFormed(x)
  {
    c < |cs| && StartOf(cs, c) == j
  }

  /**
  For every mix of carriers and every arrival order, with duplicates and noise: one unit at
  most, emitted when for the first time exactly the packets from some carrier on are held,
  and it consists of exactly those carriers.
  */
  lemma EmittedAsSuffix(s: State, p: P.Picture, cs: seq<Carrier>, arrivals: seq<RawPacket>)
    requires P.Proper(p) && Carries(cs, p) && Fits(cs, s) && P.WithinLimits(p, s) && P.Awaits(s, p) && P.Mixture(s, p, arrivals)
    requires arrivals != [] && P.IsPart(p, arrivals[0])
    ensures var o := P.PushAll(s, arrivals);
      forall i :: 0 <= i < |arrivals| ==>
        && (o[i].Emitted? <==> P.StopsFirst(p, map[], arrivals, i))
        && (o[i].Emitted? ==> IsSomeSuffix(o[i].unit, s, p, cs, P.Held(p, map[], arrivals[..i + 1])))
  {
    hide P.PushAll, P.IsPart, P.Mixture, P.Awaits, P.WithinLimits, P.StopsFirst, P.UnitOf, P.Assembles, P.Held, Carries, Fits, P.StartsUnit, P.SequenceOf, P.PartOf, IsSuffix, P.Proper;
    FittingAssembles(s, p, cs);
    P.EmittedAtFirstStop(s, p, arrivals);
    var o := P.PushAll(s, arrivals);
    forall i | 0 <= i < |arrivals| && o[i].Emitted?
      ensures IsSomeSuffix(o[i].unit, s, p, cs, P.Held(p, map[], arrivals[..i + 1]))
    {
      var m := P.Held(p, map[], arrivals[..i + 1]);
      assert P.EmitsRun(s, p, m, o[i]);
      var j :| P.RunAt(p, m, j) && o[i] == P.UnitOf(s, p, m, j);
      P.HeldArrived(p, arrivals[..i + 1]);
      UnitIsSuffix(s, p, cs, m, j);
    }
  }

  /** Before arrival `i`, the packets held never were exactly those from a later carrier on. */
  ghost predicate NoEarlierSuffix(p: P.Picture, cs: seq<Carrier>, arrivals: seq<RawPacket>, i: nat)
    requires i <= |arrivals| && Carries(cs, p)
  {
    forall k, c :: 0 <= k <= i && 0 < c < |cs| ==> !P.Exactly(p, P.Held(p, map[], arrivals[..k]), StartOf(cs, c))
  }

  /** The whole picture is held after arrival `i` and was not before. */
  ghost predicate Completes(p: P.Picture, arrivals: seq<RawPacket>, i: nat)
    requires i < |arrivals|
  {
    P.Exactly(p, P.Held(p, map[], arrivals[..i + 1]), 0) && forall k :: 0 <= k <= i ==> !P.Exactly(p, P.Held(p, map[], arrivals[..k]), 0)
  }

  /** The picture is emitted whole exactly by the arrival that completes it, if no suffix of carriers was complete before. */
  lemma EmittedWholeIff(s: State, p: P.Picture, cs: seq<Carrier>, arrivals: seq<RawPacket>, i: nat)
    requires P.Proper(p) && Carries(cs, p) && Fits(cs, s) && P.WithinLimits(p, s) && P.Awaits(s, p) && P.Mixture(s, p, arrivals)
    requires arrivals != [] && P.IsPart(p, arrivals[0]) && i < |arrivals|
    ensures var o, m := P.PushAll(s, arrivals)[i], P.Held(p, map[], arrivals[..i + 1]);
      o.Emitted? && IsSuffix(o.unit, s, p, cs, m, 0) <==> Completes(p, arrivals, i) && NoEarlierSuffix(p, cs, arrivals, i)
  {
    hide P.PushAll, P.IsPart, P.Mixture, P.Awaits, P.WithinLimits, P.Held, Fits, P.Exactly, P.StartsUnit, AllPayloads, WellFormed, Says, P.SequenceOf, P.LastOf;
    EmittedAsSuffix(s, p, cs, arrivals);
    var o, m := P.PushAll(s, arrivals)[i], P.Held(p, map[], arrivals[..i + 1]);
    forall k: nat | k <= |arrivals|
      ensures P.Stops(p, P.Held(p, map[], arrivals[..k])) <==>
        P.Exactly(p, P.Held(p, map[], arrivals[..k]), 0) || HoldsSuffix(p, cs, P.Held(p, map[], arrivals[..k]))
    {
      StopsWholeOrSuffix(p, cs, P.Held(p, map[], arrivals[..k]));
    }
    StartsRise(cs, 0);
    if o.Emitted? && IsSuffix(o.unit, s, p, cs, m, 0) {
      assert P.StopsFirst(p, map[], arrivals, i);
      forall k: nat | k <= i ensures !P.Stops(p, P.Held(p, map[], arrivals[..k])) {
      }
    }
    if Completes(p, arrivals, i) && NoEarlierSuffix(p, cs, arrivals, i) {
      assert P.Exactly(p, m, StartOf(cs, 0));
      forall k: nat | k <= i ensures !P.Stops(p, P.Held(p, map[], arrivals[..k])) {
        assert !HoldsSuffix(p, cs, P.Held(p, map[], arrivals[..k]));
      }
      assert P.StopsFirst(p, map[], arrivals, i);
      var c :| IsSuffix(o.unit, s, p, cs, m, c);
      P.ExactlyOne(p, m, 0, StartOf(cs, c));
      StartsRise(cs, c);
    }
  }

  /** Exactly the packets from a later carrier on are held. */
  ghost predicate HoldsSuffix(p: P.Picture, cs: seq<Carrier>, m: map<Seq16, Packet>)
    requires Carries(cs, p)
  {
    exists c :: 0 < c < |cs| && P.Exactly(p, m, StartOf(cs, c))
  }

  lemma StopsWholeOrSuffix(p: P.Picture, cs: seq<Carrier>, m: map<Seq16, Packet>)
    requires P.Proper(p) && Carries(cs, p)
    ensures P.Stops(p, m) <==> P.Exactly(p, m, 0) || HoldsSuffix(p, cs, m)
  {
    hide P.Exactly, P.StartsUnit, P.Stops, AllPayloads, WellFormed;
    StopsAtCarriers(p, cs, m);
    StartsRise(cs, 0);
    assert P.Exactly(p, m, 0) ==> P.Exactly(p, m, StartOf(cs, 0));
  }

  lemma StopsAtCarriers(p: P.Picture, cs: seq<Carrier>, m: map<Seq16, Packet>)
    requires P.Proper(p) && Carries(cs, p)
    ensures P.Stops(p, m) <==> exists c :: 0 <= c < |cs| && P.Exactly(p, m, StartOf(cs, c))
  {
    hide P.Exactly, P.StartsUnit, AllPayloads, WellFormed;
    if P.Stops(p, m) {
      var j :| P.RunAt(p, m, j);
      ExactlyInside(p, m, j);
      var c := StartIsCarrier(cs, j);
      assert P.Exactly(p, m, StartOf(cs, c));
    }
    if c :| 0 <= c < |cs| && P.Exactly(p, m, StartOf(cs, c)) {
      StartsAreStarts(cs, c);
      assert P.RunAt(p, m, StartOf(cs, c));
    }
  }

  lemma ExactlyInside(p: P.Picture, m: map<Seq16, Packet>, j: nat)
    requires P.Exactly(p, m, j)
    ensures j < |p.payloads|
  {
  }

  // -------------------------------------------------------- one carrier only

  /** Every packet of the picture is among the arrivals. */
  ghost predicate AllArrived(p: P.Picture, arrivals: seq<RawPacket>) {
    forall i :: 0 <= i < |p.payloads| ==> P.Arrived(p, arrivals, P.SequenceOf(p, i))
  }

  lemma FullIsAllArrived(p: P.Picture, arrivals: seq<RawPacket>)
    requires P.Proper(p)
    ensures P.Exactly(p, P.Held(p, map[], arrivals), 0) <==> AllArrived(p, arrivals)
  {
    hide P.SequenceOf, P.Arrived, P.IsPart;
    P.HeldArrived(p, arrivals);
  }

  lemma {:induction false} ArrivedStays(p: P.Picture, arrivals: seq<RawPacket>, k: nat, i: nat)
    requires k <= i <= |arrivals| && AllArrived(p, arrivals[..k])
    ensures AllArrived(p, arrivals[..i])
    decreases i
  {
    hide P.SequenceOf, P.Arrived, P.IsPart;
    if k < i {
      ArrivedStays(p, arrivals, k, i - 1);
      assert arrivals[..i] == arrivals[..i - 1] + [arrivals[i - 1]];
      forall n | 0 <= n < |p.payloads| ensures P.Arrived(p, arrivals[..i], P.SequenceOf(p, n)) {
        P.ArrivedGrows(p, arrivals[..i - 1], arrivals[i - 1], P.SequenceOf(p, n));
      }
    }
  }

  /**
  A picture sent as one run of fragments: for every order of its packets, with duplicates that
  carry their own receive times and with noise, it is emitted exactly once, whole, by the
  arrival that completes the set; its receive time is the earliest of the first copies.
  */
  lemma EmittedExactlyOnce(s: State, p: P.Picture, c: Carrier, arrivals: seq<RawPacket>)
    requires P.Proper(p) && Carries([c], p) && Fits([c], s) && P.WithinLimits(p, s) && P.Awaits(s, p) && P.Mixture(s, p, arrivals)
    requires arrivals != [] && P.IsPart(p, arrivals[0])
    ensures var o := P.PushAll(s, arrivals);
      forall i :: 0 <= i < |arrivals| ==>
        && (o[i].Emitted? <==> AllArrived(p, arrivals[..i + 1]) && !AllArrived(p, arrivals[..i]))
        && (o[i].Emitted? ==> IsSuffix(o[i].unit, s, p, [c], P.Held(p, map[], arrivals[..i + 1]), 0))
  {
    hide P.PushAll, P.IsPart, P.Mixture, P.Awaits, P.WithinLimits, P.Held, Fits, P.Exactly, P.StartsUnit, AllArrived, Says, P.StopsFirst;
    EmittedAsSuffix(s, p, [c], arrivals);
    forall i | 0 <= i < |arrivals|
      ensures P.PushAll(s, arrivals)[i].Emitted? <==> AllArrived(p, arrivals[..i + 1]) && !AllArrived(p, arrivals[..i])
      ensures P.PushAll(s, arrivals)[i].Emitted? ==> IsSuffix(P.PushAll(s, arrivals)[i].unit, s, p, [c], P.Held(p, map[], arrivals[..i + 1]), 0)
    {
      OneCarrierStop(p, c, arrivals, i);
      if P.PushAll(s, arrivals)[i].Emitted? {
        var k :| IsSuffix(P.PushAll(s, arrivals)[i].unit, s, p, [c], P.Held(p, map[], arrivals[..i + 1]), k);
        assert k == 0;
      }
    }
  }

  lemma OneCarrierStop(p: P.Picture, c: Carrier, arrivals: seq<RawPacket>, i: nat)
    requires P.Proper(p) && Carries([c], p) && i < |arrivals|
    ensures P.StopsFirst(p, map[], arrivals, i) <==> AllArrived(p, arrivals[..i + 1]) && !AllArrived(p, arrivals[..i])
  {
    hide P.Held, P.Exactly, P.StartsUnit, AllArrived, Carries;
    forall k: nat | k <= |arrivals|
      ensures P.Stops(p, P.Held(p, map[], arrivals[..k])) <==> AllArrived(p, arrivals[..k])
    {
      OneCarrierFull(p, c, arrivals[..k]);
    }
    forall k: nat | k <= i && AllArrived(p, arrivals[..k]) ensures AllArrived(p, arrivals[..i]) {
      ArrivedStays(p, arrivals, k, i);
    }
  }

  lemma OneCarrierFull(p: P.Picture, c: Carrier, arrivals: seq<RawPacket>)
    requires P.Proper(p) && Carries([c], p)
    ensures P.Stops(p, P.Held(p, map[], arrivals)) <==> AllArrived(p, arrivals)
  {
    hide P.Held, P.Exactly, P.StartsUnit, AllArrived, AllPayloads;
    StopsAtCarriers(p, [c], P.Held(p, map[], arrivals));
    FullIsAllArrived(p, arrivals);
    StartsRise([c], 0);
  }

  // -------------------------------------------------------------- late heads

  /** A suffix of a picture that continues the last unit shows its loss exactly if there was a last unit, or loss before. */
  lemma SuffixShowsLossIff(u: AccessUnit, s: State, p: P.Picture, cs: seq<Carrier>, m: map<Seq16, Packet>, c: nat)
    requires P.Proper(p) && Carries(cs, p) && IsSuffix(u, s, p, cs, m, c) && c > 0
    requires s.haveLast ==> p.first == NextSequence(s.lastSequence)
    ensures u.discontinuity <==> s.haveLast || s.discontinuity || s.pending.Some?
  {
    hide Says, P.Exactly, P.LastOf;
    StartsRise(cs, c);
    ExactlyInside(p, m, StartOf(cs, c));
    P.IndexSequence(p, StartOf(cs, c));
    P.IndexSequence(p, 0);
  }

  /** Two single packets, the second first: only the second is emitted, and the head is dropped as late. */
  lemma LateHeadIsLost(s: State, p: P.Picture, a: seq<Byte>, b: seq<Byte>, early: nat, late: nat)
    requires P.Proper(p) && Carries([Single(a), Single(b)], p) && Fits([Single(a), Single(b)], s) && P.WithinLimits(p, s) && P.Awaits(s, p)
    requires early > 0 && late > 0
    ensures |p.payloads| == 2
    ensures var o := P.PushAll(s, [P.PacketOf(p, 1, early), P.PacketOf(p, 0, late)]);
      && o[0].Emitted? && o[0].unit.annexB == ReusedPrefix([Single(b)], s.sps, s.pps) + AnnexB([b]) && !o[1].Emitted?
      && ((s.haveLast ==> p.first == NextSequence(s.lastSequence)) ==>
            (o[0].unit.discontinuity <==> s.haveLast || s.discontinuity || s.pending.Some?))
  {
    hide Fits, P.WithinLimits, P.Awaits, P.PushAll, P.StopsFirst, ReusedPrefix, P.SequenceOf, P.IndexOf, P.StartsUnit;
    var cs := [Single(a), Single(b)];
    TwoSingles(a, b);
    P.Indexing(p);
    var arrivals: seq<RawPacket> := [P.PacketOf(p, 1, early), P.PacketOf(p, 0, late)];
    var m := P.Held(p, map[], arrivals[..1]);
    assert P.IndexOf(p, P.SequenceOf(p, 0)) == 0 && P.IndexOf(p, P.SequenceOf(p, 1)) == 1;
    P.HeldShift(p, map[], arrivals, 0);
    assert arrivals[..0] == [] && arrivals[1..][..0] == [];
    assert P.IsPart(p, arrivals[0]) && P.IsPart(p, arrivals[1]);
    assert m == map[P.SequenceOf(p, 1) := P.PacketOf(p, 1, early)];
    EmittedAsSuffix(s, p, cs, arrivals);
    StopsAtCarriers(p, cs, m);
    P.NothingHeld(p);
    assert P.IndexOf(p, P.SequenceOf(p, 0)) == 0 && P.IndexOf(p, P.SequenceOf(p, 1)) == 1;
    assert P.Exactly(p, m, StartOf(cs, 1));
    StopsHere(p, arrivals);
    var o := P.PushAll(s, arrivals);
    var c :| IsSuffix(o[0].unit, s, p, cs, m, c);
    P.ExactlyOne(p, m, 1, StartOf(cs, c));
    assert c == 1;
    assert cs[1..] == [Single(b)] && AllUnits([Single(b)]) == [b];
    if s.haveLast ==> p.first == NextSequence(s.lastSequence) { SuffixShowsLossIff(o[0].unit, s, p, cs, m, 1); }
  }

  lemma TwoSingles(a: seq<Byte>, b: seq<Byte>)
    requires WellFormed(Single(a)) && WellFormed(Single(b))
    ensures var cs := [Single(a), Single(b)];
      && (forall c :: c in cs ==> WellFormed(c)) && AllPayloads(cs) == [a, b]
      && StartOf(cs, 0) == 0 && StartOf(cs, 1) == 1
  {
    PayloadsAhead(Single(b), []);
    PayloadsAhead(Single(a), [Single(b)]);
    PayloadsAhead(Single(a), []);
    var cs := [Single(a), Single(b)];
    assert cs == [Single(a)] + [Single(b)] && [Single(b)] == [Single(b)] + [] && cs[..1] == [Single(a)] + [] && cs[..0] == [];
  }

  lemma StopsHere(p: P.Picture, arrivals: seq<RawPacket>)
    requires |arrivals| == 2 && P.Stops(p, P.Held(p, map[], arrivals[..1])) && !P.Stops(p, P.Held(p, map[], arrivals[..0]))
    ensures P.StopsFirst(p, map[], arrivals, 0) && !P.StopsFirst(p, map[], arrivals, 1)
  {
    hide P.Stops, P.Held;
  }

  lemma SinglesStream(a: seq<Byte>, b: seq<Byte>)
    ensures AllUnits([Single(b)]) == [b] && AllUnits([Single(a), Single(b)]) == [a, b]
    ensures AnnexB([b]) == START_CODE + b && AnnexB([a, b]) == START_CODE + a + (START_CODE + b)
  {
    assert [Single(b)][1..] == [] && [Single(a), Single(b)][1..] == [Single(b)];
    assert [b][1..] == [] && [a, b][1..] == [b];
  }

  /** On a fresh stream such a loss is invisible: the suffix comes out without a discontinuity. */
  lemma LateHeadOnFreshStream()
    ensures
      var s := State(1, LimitValues(1500, 100_000, 64), None, [], [], 0, 0, false, false);
      var p := P.Picture(1, 90, 7, [[0x41, 1], [0x41, 2]]);
      var o := P.PushAll(s, [P.PacketOf(p, 1, 5), P.PacketOf(p, 0, 6)]);
      o[0].Emitted? && o[0].unit.annexB == START_CODE + [0x41, 2] && !o[0].unit.discontinuity && !o[1].Emitted?
  {
    hide P.PushAll, AllPayloads, AnnexB, AllUnits;
    var s := State(1, LimitValues(1500, 100_000, 64), None, [], [], 0, 0, false, false);
    var a: seq<Byte>, b: seq<Byte> := [0x41, 1], [0x41, 2];
    var p := P.Picture(1, 90, 7, [a, b]);
    var cs := [Single(a), Single(b)];
    TwoSingles(a, b);
    SinglesStream(a, b);
    assert P.Sum([a, b][..1]) == 2 by { assert [a, b][..1] == [a] && [a][..0] == []; }
    assert cs[1..] == [Single(b)] && cs[0..] == cs;
    NoPrefix(a, b);
    assert Fits(cs, s);
    LateHeadIsLost(s, p, a, b, 5, 6);
  }

  lemma NoPrefix(a: seq<Byte>, b: seq<Byte>)
    requires a != [] && b != [] && TypeOf(a[0]) == 1 && TypeOf(b[0]) == 1
    ensures ReusedPrefix([Single(b)], [], []) == [] && ReusedPrefix([Single(a), Single(b)], [], []) == []
  {
    SinglesStream(a, b);
  }
}
