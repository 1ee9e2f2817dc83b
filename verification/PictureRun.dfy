/**
One picture, sent as any payloads under one timestamp, through every arrival order: with
duplicates that carry their own receive times, with late and refused packets in between,
and with sequence numbers wrapping. The depacketizer emits at most once, at the first
moment when exactly a run of packets up to the marker is held whose first packet starts
a unit: the whole picture, or, when its head is late, a suffix of it.
*/
module PictureRun {
  import opened Basics
  import opened Rtp
  import opened DepacketizerSpec

  datatype Picture = Picture(generation: nat, timestamp: Time32, first: Seq16, payloads: seq<Payload>)

  predicate Proper(p: Picture) { 1 <= |p.payloads| <= 0x1_0000 }

  function SequenceOf(p: Picture, i: nat): Seq16 { (p.first + i) % 0x1_0000 }

  function IndexOf(p: Picture, k: Seq16): nat { (k - p.first) % 0x1_0000 }

  function LastOf(p: Picture): Seq16
    requires Proper(p)
  {
    SequenceOf(p, |p.payloads| - 1)
  }

  lemma Indexing(p: Picture)
    ensures forall i: nat :: i < 0x1_0000 ==> IndexOf(p, SequenceOf(p, i)) == i
    ensures forall k: Seq16 :: SequenceOf(p, IndexOf(p, k)) == k && IndexOf(p, k) < 0x1_0000
  {
    forall i: nat | i < 0x1_0000
      ensures IndexOf(p, SequenceOf(p, i)) == i
    {
      IndexSequence(p, i);
    }
    forall k: Seq16
      ensures SequenceOf(p, IndexOf(p, k)) == k
    {
      SequenceIndex(p, k);
    }
  }

  lemma IndexSequence(p: Picture, i: nat)
    requires i < 0x1_0000
    ensures IndexOf(p, SequenceOf(p, i)) == i
  {
    if p.first + i >= 0x1_0000 {
      assert SequenceOf(p, i) == p.first + i - 0x1_0000;
    }
  }

  lemma SequenceIndex(p: Picture, k: Seq16)
    ensures SequenceOf(p, IndexOf(p, k)) == k
  {
    if k < p.first {
      assert IndexOf(p, k) == k - p.first + 0x1_0000;
    }
  }

  /** Places before the last packet of a run of `n`, in both directions. */
  lemma BeforeLast(p: Picture, n: nat, i: nat)
    requires 1 <= n <= 0x1_0000 && i < n
    ensures Before(SequenceOf(p, n - 1), i) == SequenceOf(p, n - 1 - i)
  {
    var x := p.first + n - 1;
    assert x % 0x1_0000 == if x >= 0x1_0000 then x - 0x1_0000 else x;
  }

  lemma DistanceToLast(p: Picture, n: nat, k: Seq16)
    requires 1 <= n <= 0x1_0000 && IndexOf(p, k) < n
    ensures Distance(SequenceOf(p, n - 1), k) == n - 1 - IndexOf(p, k)
  {
    var i := IndexOf(p, k);
    SequenceIndex(p, k);
    BeforeLast(p, n, n - 1 - i);
    DistanceBefore(SequenceOf(p, n - 1), n - 1 - i);
  }

  lemma BeforeFirst(p: Picture, n: nat)
    requires 1 <= n < 0x1_0000
    ensures IndexOf(p, Before(SequenceOf(p, n - 1), n)) == 0xFFFF
  {
    var x := p.first + n - 1;
    assert x % 0x1_0000 == if x >= 0x1_0000 then x - 0x1_0000 else x;
    assert Before(SequenceOf(p, n - 1), n) == if p.first == 0 then 0xFFFF else p.first - 1;
  }

  /** Packet `i` of the picture as it arrives at `time`; every copy has its own time. */
  function PacketOf(p: Picture, i: nat, time: nat): Packet
    requires i < |p.payloads|
  {
    RawPacket(p.generation, SequenceOf(p, i), p.timestamp, i == |p.payloads| - 1, time, p.payloads[i])
  }

  /** A copy of one of the picture's packets, whenever it arrived. */
  predicate IsPart(p: Picture, a: RawPacket) {
    var i := IndexOf(p, a.sequence);
    i < |p.payloads| && a.receivedAt > 0 && a == PacketOf(p, i, a.receivedAt)
  }

  /** A packet that is not of the picture: refused outright, or older than it. */
  ghost predicate Noise(s: State, p: Picture, a: RawPacket) {
    Refusal(s, a).Some? || SignedDifference(a.timestamp, p.timestamp) < 0
  }

  function Sum(payloads: seq<Payload>): nat {
    if payloads == [] then 0 else Sum(payloads[..|payloads| - 1]) + |payloads[|payloads| - 1]|
  }

  /** The picture's packets respect the limits on packets and on what is buffered. */
  predicate WithinLimits(p: Picture, s: State) {
    && |p.payloads| <= s.limits.maxPackets && Sum(p.payloads) <= s.limits.maxUnitBytes
    && forall l :: l in p.payloads ==> |l| <= s.limits.maxPacketBytes
  }

  /** A state that accepts the picture as new; anything may be buffered for other timestamps. */
  ghost predicate Awaits(s: State, p: Picture) {
    && s.generation == p.generation && !Late(s, p.timestamp)
    && (s.pending.Some? ==> s.pending.value.timestamp != p.timestamp)
  }

  // ------------------------------------------------- what is buffered midway

  /** Only packets of the picture, each where it belongs. */
  ghost predicate PartOf(m: map<Seq16, Packet>, p: Picture) {
    forall k :: k in m ==> m[k].sequence == k && IsPart(p, m[k])
  }

  /** The first copy of each packet is kept. */
  function Add(p: Picture, m: map<Seq16, Packet>, a: RawPacket): map<Seq16, Packet> {
    if IsPart(p, a) && a.sequence !in m then m[a.sequence := a] else m
  }

  /** What is held of the picture after some arrivals. */
  function Held(p: Picture, m: map<Seq16, Packet>, arrivals: seq<RawPacket>): map<Seq16, Packet>
    decreases |arrivals|
  {
    if arrivals == [] then m else Held(p, Add(p, m, arrivals[0]), arrivals[1..])
  }

  ghost function Base(s: State): State {
    s.(pending := None, discontinuity := s.discontinuity || s.pending.Some?)
  }

  ghost function Holding(p: Picture, m: map<Seq16, Packet>): PendingUnit
    requires Proper(p)
  {
    PendingUnit(p.generation, p.timestamp, m, if LastOf(p) in m then Some(LastOf(p)) else None, PayloadBytes(m))
  }

  lemma SumStep(payloads: seq<Payload>, n: nat)
    requires n < |payloads|
    ensures Sum(payloads[..n + 1]) == Sum(payloads[..n]) + |payloads[n]|
  {
    assert payloads[..n + 1][..n] == payloads[..n];
  }

  lemma PartLength(p: Picture, m: map<Seq16, Packet>, n: nat)
    requires PartOf(m, p) && n < |p.payloads| <= 0x1_0000 && SequenceOf(p, n) in m
    ensures m[SequenceOf(p, n)].payload == p.payloads[n]
  {
    hide SequenceOf, IndexOf;
    Indexing(p);
  }

  /** Nothing but the first `n` packets is held. */
  ghost predicate Below(p: Picture, m: map<Seq16, Packet>, n: nat) { forall k :: k in m ==> IndexOf(p, k) < n }

  lemma BelowStep(p: Picture, m: map<Seq16, Packet>, n: nat)
    requires n < 0x1_0000 && Below(p, m, n + 1)
    ensures Below(p, m - {SequenceOf(p, n)}, n)
    ensures SequenceOf(p, n) !in m ==> Below(p, m, n)
  {
    hide SequenceOf, IndexOf;
    Indexing(p);
  }

  /** What is held is bounded by what was sent. */
  lemma {:induction false} PartBound(p: Picture, m: map<Seq16, Packet>, n: nat)
    requires PartOf(m, p) && n <= |p.payloads| <= 0x1_0000 && Below(p, m, n)
    ensures PayloadBytes(m) <= Sum(p.payloads[..n]) && |m| <= n
    decreases n
  {
    hide SequenceOf, IndexOf, Sum, IsPart, PayloadBytes;
    if n == 0 {
      NothingBelow(p, m);
    } else {
      var k := SequenceOf(p, n - 1);
      SumStep(p.payloads, n - 1);
      BelowStep(p, m, n - 1);
      if k in m {
        var rest := m - {k};
        PartBound(p, rest, n - 1);
        PartLength(p, m, n - 1);
        assert m == rest[k := m[k]] && m.Keys == rest.Keys + {k};
        PayloadBytesInsert(rest, k, m[k]);
      } else {
        PartBound(p, m, n - 1);
      }
    }
  }

  lemma NothingBelow(p: Picture, m: map<Seq16, Packet>)
    requires Below(p, m, 0)
    ensures m == map[] && PayloadBytes(m) == 0 && Sum(p.payloads[..0]) == 0
  {
  }

  /** One more packet of the picture always fits. */
  lemma RoomForAnother(p: Picture, s: State, m: map<Seq16, Packet>, a: RawPacket)
    requires Proper(p) && WithinLimits(p, s) && PartOf(m, p) && IsPart(p, a) && a.sequence !in m
    ensures var m' := m[a.sequence := a];
            && PartOf(m', p)
            && PayloadBytes(m') == PayloadBytes(m) + |a.payload| <= s.limits.maxUnitBytes
            && |m| < s.limits.maxPackets
            && |a.payload| <= s.limits.maxPacketBytes
  {
    hide SequenceOf, PayloadBytes, Sum;
    var m' := m[a.sequence := a];
    PayloadBytesInsert(m, a.sequence, a);
    assert m'.Keys == m.Keys + {a.sequence};
    assert forall k :: k in m' ==> IsPart(p, m'[k]) && m'[k].sequence == k;
    PartBound(p, m', |p.payloads|);
    assert p.payloads[..|p.payloads|] == p.payloads;
    assert a.payload in p.payloads;
  }

  // -------------------------------------------------------------- ordering

  /** The payload begins a unit: it is not the middle or the end of a fragmented one. */
  predicate StartsUnit(l: Payload) { !(|l| >= 2 && TypeOf(l[0]) == 28 && l[1] < 0x80) }

  /** Exactly the packets from `j` on are held. */
  ghost predicate Exactly(p: Picture, m: map<Seq16, Packet>, j: nat) {
    j < |p.payloads| && forall i :: 0 <= i < |p.payloads| ==> (SequenceOf(p, i) in m <==> j <= i)
  }

  /** A run up to the marker, and nothing else, is held, and it starts a unit. */
  ghost predicate RunAt(p: Picture, m: map<Seq16, Packet>, j: nat) {
    Exactly(p, m, j) && StartsUnit(p.payloads[j])
  }

  ghost predicate Stops(p: Picture, m: map<Seq16, Packet>) { exists j :: RunAt(p, m, j) }

  /** The held packets from `j` on, in sending order. */
  ghost function SuffixOf(p: Picture, m: map<Seq16, Packet>, j: nat): (r: seq<Packet>)
    requires Exactly(p, m, j)
    ensures r != [] && |r| == |p.payloads| - j
  {
    seq(|p.payloads| - j, i requires 0 <= i < |p.payloads| - j => m[SequenceOf(p, j + i)])
  }

  lemma HeldRun(p: Picture, m: map<Seq16, Packet>, max: nat, j: nat)
    requires Proper(p) && |p.payloads| <= max && PartOf(m, p) && Exactly(p, m, j)
    ensures RunLength(m, LastOf(p), max) == |p.payloads| - j
    ensures RunPackets(m, LastOf(p), |p.payloads| - j) == SuffixOf(p, m, j)
  {
    hide SequenceOf, IndexOf, Before, PacketOf;
    Indexing(p);
    var n := |p.payloads|;
    forall i | 0 <= i < n - j
      ensures Before(LastOf(p), i) == SequenceOf(p, n - 1 - i) && Before(LastOf(p), i) in m
    {
      BeforeLast(p, n, i);
    }
    if j > 0 {
      BeforeLast(p, n, n - j);
      assert SequenceOf(p, j - 1) !in m;
    } else if n < 0x1_0000 {
      BeforeFirst(p, n);
    }
  }

  /** A held run is found exactly if it starts a unit. */
  lemma RunIsOrdered(p: Picture, m: map<Seq16, Packet>, max: nat, j: nat)
    requires Proper(p) && |p.payloads| <= max && PartOf(m, p) && Exactly(p, m, j)
    ensures Ordered(m, LastOf(p), max) == if StartsUnit(p.payloads[j]) then Some(SuffixOf(p, m, j)) else None
  {
    hide SequenceOf, IndexOf, Distance, RunLength, RunPackets;
    Indexing(p);
    HeldRun(p, m, max, j);
    var n := |p.payloads|;
    forall s | s in m
      ensures Distance(LastOf(p), s) < n - j
    {
      DistanceToLast(p, n, s);
      assert SequenceOf(p, IndexOf(p, s)) in m;
    }
    var head := SuffixOf(p, m, j)[0];
    assert IndexOf(p, head.sequence) == j;
    assert head.payload == p.payloads[j];
  }

  /** Anything else that is held is not completed. */
  lemma GapIsUnordered(p: Picture, m: map<Seq16, Packet>, max: nat)
    requires Proper(p) && |p.payloads| <= max && PartOf(m, p) && LastOf(p) in m
    requires forall j :: !Exactly(p, m, j)
    ensures Ordered(m, LastOf(p), max) == None
  {
    hide SequenceOf, IndexOf, Distance, RunPackets;
    Indexing(p);
    var n := |p.payloads|;
    var r := RunLength(m, LastOf(p), max);
    RunBounded(p, m, max);
    if r > 0 {
      var j := n - r;
      forall i | j <= i < n
        ensures SequenceOf(p, i) in m
      {
        BeforeLast(p, n, n - 1 - i);
        assert Before(LastOf(p), n - 1 - i) in m;
      }
      assert !Exactly(p, m, j);
      var i :| 0 <= i < j && SequenceOf(p, i) in m;
      DistanceToLast(p, n, SequenceOf(p, i));
      assert r <= Distance(LastOf(p), SequenceOf(p, i)) < max;
    }
  }

  lemma RunBounded(p: Picture, m: map<Seq16, Packet>, max: nat)
    requires Proper(p) && |p.payloads| <= max && PartOf(m, p)
    ensures RunLength(m, LastOf(p), max) <= |p.payloads|
  {
    hide SequenceOf, IndexOf, PacketOf;
    var n := |p.payloads|;
    if n < 0x1_0000 {
      BeforeFirst(p, n);
      assert Before(LastOf(p), n) !in m;
    }
  }

  // -------------------------------------------------------------- assembly

  /** The unit emitted for the packets from `j` on; its receive time is the earliest of the copies held. */
  ghost function UnitOf(s0: State, p: Picture, m: map<Seq16, Packet>, j: nat): Outcome
    requires Proper(p) && Exactly(p, m, j)
  {
    var r := Assemble(s0.sps, s0.pps, Holding(p, m), SuffixOf(p, m, j), s0.limits.maxUnitBytes).result;
    if !r.Emitted? then r
    else
      Emitted(r.unit.(discontinuity :=
        s0.discontinuity || s0.pending.Some? || (s0.haveLast && r.unit.firstSequence != NextSequence(s0.lastSequence))))
  }

  /** Every run that could be emitted assembles, from whatever copies. */
  ghost predicate Assembles(s0: State, p: Picture)
    requires Proper(p)
  {
    forall m, j :: PartOf(m, p) && RunAt(p, m, j) ==> UnitOf(s0, p, m, j).Emitted?
  }

  /** The bookkeeping fields of an emitted unit. */
  predicate Ends(u: AccessUnit, unit: PendingUnit, packets: seq<Packet>)
    requires packets != []
  {
    && u.firstSequence == packets[0].sequence && u.lastSequence == packets[|packets| - 1].sequence
    && u.rtpTime == unit.timestamp && u.generation == unit.generation && u.receivedAt == Earliest(packets)
  }

  lemma FinishEnds(a: Assembly, unit: PendingUnit, packets: seq<Packet>, max: nat)
    requires packets != [] && |a.annexB| <= max
    ensures Finish(a, unit, packets, max).Emitted? ==> Ends(Finish(a, unit, packets, max).unit, unit, packets)
  {
    hide Earliest;
  }

  lemma AssembleEnds(sps: seq<Byte>, pps: seq<Byte>, unit: PendingUnit, packets: seq<Packet>, max: nat)
    requires packets != []
    ensures var r := Assemble(sps, pps, unit, packets, max).result; r.Emitted? ==> Ends(r.unit, unit, packets)
  {
    hide AppendAll, Ends, Finish;
    var r := AppendAll(Fresh(sps, pps), PayloadsOf(packets), max);
    if r.Continue? { FinishEnds(r.a, unit, packets, max); }
  }

  lemma HeadAndTail(p: Picture, m: map<Seq16, Packet>, j: nat)
    requires Proper(p) && PartOf(m, p) && Exactly(p, m, j)
    ensures var s := SuffixOf(p, m, j); s[0].sequence == SequenceOf(p, j) && s[|s| - 1].sequence == LastOf(p)
    ensures forall k :: k in m ==> j <= IndexOf(p, k) < |p.payloads|
  {
    hide SequenceOf, IndexOf;
    Indexing(p);
    forall k | k in m ensures j <= IndexOf(p, k) < |p.payloads| { assert SequenceOf(p, IndexOf(p, k)) == k; }
  }

  /** Numbers, time and receive time of that unit. */
  lemma UnitEnds(s0: State, p: Picture, m: map<Seq16, Packet>, j: nat)
    requires Proper(p) && PartOf(m, p) && Exactly(p, m, j) && UnitOf(s0, p, m, j).Emitted?
    ensures var u := UnitOf(s0, p, m, j).unit;
            && u.firstSequence == SequenceOf(p, j) && u.lastSequence == LastOf(p)
            && u.rtpTime == p.timestamp && u.generation == p.generation
            && (forall k :: k in m ==> u.receivedAt <= m[k].receivedAt)
            && (exists k :: k in m && u.receivedAt == m[k].receivedAt)
  {
    hide Assemble, SequenceOf, IndexOf, Earliest, PayloadBytes, IsPart;
    Indexing(p);
    HeadAndTail(p, m, j);
    var suffix := SuffixOf(p, m, j);
    AssembleEnds(s0.sps, s0.pps, Holding(p, m), suffix, s0.limits.maxUnitBytes);
    forall k | k in m
      ensures Earliest(suffix) <= m[k].receivedAt
    {
      var i := IndexOf(p, k);
      assert SequenceOf(p, i) == k && j <= i;
      assert suffix[i - j] == m[k] && suffix[i - j] in suffix;
    }
    var q :| q in suffix && q.receivedAt == Earliest(suffix);
    var i :| 0 <= i < |suffix| && suffix[i] == q;
    assert m[SequenceOf(p, j + i)].receivedAt == q.receivedAt;
  }

  // ----------------------------------------------------------------- steps

  ghost predicate Done(s0: State, s: State, p: Picture) {
    s.haveLast && s.lastTimestamp == p.timestamp && s.pending.None? && s.generation == s0.generation && s.limits == s0.limits
  }

  ghost predicate Collecting(s0: State, s: State, p: Picture, m: map<Seq16, Packet>)
    requires Proper(p)
  {
    s == Base(s0).(pending := Some(Holding(p, m))) && PartOf(m, p) && !Stops(p, m)
  }

  /** What the push that leads to holding `m` answers, and where it leaves the depacketizer. */
  ghost predicate Answers(s0: State, p: Picture, m: map<Seq16, Packet>, r: Pushed)
    requires Proper(p)
  {
    if Stops(p, m) then Done(s0, r.state, p) && exists j :: RunAt(p, m, j) && r.outcome == UnitOf(s0, p, m, j)
    else !r.outcome.Emitted? && Collecting(s0, r.state, p, m)
  }

  lemma ExactlyOne(p: Picture, m: map<Seq16, Packet>, j: nat, i: nat)
    requires Exactly(p, m, j) && Exactly(p, m, i)
    ensures i == j
  {
    assert SequenceOf(p, i) in m && SequenceOf(p, j) in m;
  }

  lemma CompleteRun(s0: State, p: Picture, m: map<Seq16, Packet>, j: nat)
    requires Proper(p) && WithinLimits(p, s0) && Assembles(s0, p) && PartOf(m, p) && RunAt(p, m, j)
    ensures var r := Complete(Base(s0).(pending := Some(Holding(p, m))), Holding(p, m), LastOf(p));
            r.outcome == UnitOf(s0, p, m, j) && Done(s0, r.state, p)
  {
    hide Ordered, Assemble, SequenceOf, IndexOf, PayloadBytes, Sum;
    RunIsOrdered(p, m, s0.limits.maxPackets, j);
    assert UnitOf(s0, p, m, j).Emitted?;
    AssembleEnds(s0.sps, s0.pps, Holding(p, m), SuffixOf(p, m, j), s0.limits.maxUnitBytes);
  }

  lemma CompleteOther(s0: State, p: Picture, m: map<Seq16, Packet>)
    requires Proper(p) && WithinLimits(p, s0) && PartOf(m, p) && LastOf(p) in m && !Stops(p, m)
    ensures var s := Base(s0).(pending := Some(Holding(p, m)));
            Complete(s, Holding(p, m), LastOf(p)) == Pushed(s, Nothing)
  {
    hide Ordered, Assemble, SequenceOf, IndexOf, PayloadBytes, Sum, Exactly, StartsUnit;
    if j :| Exactly(p, m, j) {
      assert !RunAt(p, m, j);
      RunIsOrdered(p, m, s0.limits.maxPackets, j);
    } else {
      GapIsUnordered(p, m, s0.limits.maxPackets);
    }
  }

  lemma CompleteAnswers(s0: State, p: Picture, m: map<Seq16, Packet>)
    requires Proper(p) && WithinLimits(p, s0) && Assembles(s0, p) && PartOf(m, p) && LastOf(p) in m
    ensures Answers(s0, p, m, Complete(Base(s0).(pending := Some(Holding(p, m))), Holding(p, m), LastOf(p)))
  {
    hide Complete, WithinLimits, Assembles, PartOf, UnitOf, Done, RunAt, Base, Holding;
    if Stops(p, m) {
      var j :| RunAt(p, m, j);
      CompleteRun(s0, p, m, j);
    } else {
      CompleteOther(s0, p, m);
    }
  }

  /** Without the marker nothing can be a run. */
  lemma NoMarkerNoStop(p: Picture, m: map<Seq16, Packet>)
    requires Proper(p) && LastOf(p) !in m
    ensures !Stops(p, m)
  {
  }

  /** What the buffered unit becomes when one more packet is put in. */
  lemma HoldingStep(p: Picture, m: map<Seq16, Packet>, a: RawPacket)
    requires Proper(p) && IsPart(p, a) && a.sequence !in m
    ensures var m' := m[a.sequence := a]; var u := Holding(p, m);
            Holding(p, m') == PendingUnit(u.generation, u.timestamp, u.packets[a.sequence := a],
                                          if a.marker then Some(a.sequence) else u.marker, u.bytes + |a.payload|)
  {
    hide SequenceOf, IndexOf, PayloadBytes;
    Indexing(p);
    PayloadBytesInsert(m, a.sequence, a);
  }

  /** Storing a packet of the picture that was not there yet. */
  lemma StoreNew(s0: State, p: Picture, m: map<Seq16, Packet>, a: RawPacket, prior: bool)
    requires Proper(p) && WithinLimits(p, s0) && Assembles(s0, p) && PartOf(m, p) && IsPart(p, a) && a.sequence !in m
    ensures Answers(s0, p, m[a.sequence := a], Store(Base(s0).(pending := Some(Holding(p, m))), Holding(p, m), a, prior))
  {
    hide Complete, SequenceOf, IsPart, PayloadBytes, UnitOf, Done, WithinLimits, Assembles, PartOf, Stops, RunAt, Sum;
    PartFacts(p, a);
    var m' := m[a.sequence := a];
    RoomForAnother(p, s0, m, a);
    HoldingStep(p, m, a);
    if LastOf(p) in m' {
      CompleteAnswers(s0, p, m');
    } else {
      NoMarkerNoStop(p, m');
    }
  }

  lemma PartFacts(p: Picture, a: RawPacket)
    requires Proper(p) && IsPart(p, a)
    ensures a.generation == p.generation && a.timestamp == p.timestamp && a.receivedAt > 0 && a.payload != []
    ensures a.payload in p.payloads && SignedDifference(a.timestamp, p.timestamp) == 0
  {
  }

  lemma StepNoise(s0: State, s: State, p: Picture, m: map<Seq16, Packet>, a: RawPacket)
    requires Proper(p) && Noise(s0, p, a)
    requires Collecting(s0, s, p, m) || Done(s0, s, p)
    ensures Push(s, a).state == s && !Push(s, a).outcome.Emitted?
  {
    hide Store;
  }

  lemma StepDone(s0: State, s: State, p: Picture, a: RawPacket)
    requires Proper(p) && IsPart(p, a) && Done(s0, s, p)
    ensures Push(s, a).state == s && !Push(s, a).outcome.Emitted?
  {
    hide Store, IsPart, SignedDifference;
    PartFacts(p, a);
  }

  lemma StepPart(s0: State, s: State, p: Picture, m: map<Seq16, Packet>, a: RawPacket)
    requires Proper(p) && WithinLimits(p, s0) && Assembles(s0, p) && Awaits(s0, p) && IsPart(p, a) && Collecting(s0, s, p, m)
    ensures Answers(s0, p, Add(p, m, a), Push(s, a))
  {
    hide Store, SequenceOf, IsPart, UnitOf, SignedDifference, Assembles, Stops, Sum;
    PartFacts(p, a);
    if a.sequence in m {
      StoreAgain(s, Holding(p, m), a);
    } else {
      StoreNew(s0, p, m, a, false);
    }
  }

  lemma StoreAgain(s: State, unit: PendingUnit, q: Packet)
    requires q.sequence in unit.packets
    ensures Store(s, unit, q, false) == Pushed(s, Nothing)
  {
  }

  lemma StepFirst(s0: State, p: Picture, a: RawPacket)
    requires Proper(p) && WithinLimits(p, s0) && Assembles(s0, p) && Awaits(s0, p) && IsPart(p, a)
    ensures Answers(s0, p, Add(p, map[], a), Push(s0, a))
  {
    hide Store, SequenceOf, IsPart, UnitOf, SignedDifference, Assembles, Stops, Sum;
    PartFacts(p, a);
    assert Holding(p, map[]) == PendingUnit(a.generation, a.timestamp, map[], None, 0) by { assert PayloadBytes(map[]) == 0; }
    StoreNew(s0, p, map[], a, s0.pending.Some?);
  }

  // ------------------------------------------------------------------ runs

  function PushAll(s: State, arrivals: seq<RawPacket>): (r: seq<Outcome>)
    ensures |r| == |arrivals|
    decreases |arrivals|
  {
    if arrivals == [] then [] else
      var r := Push(s, arrivals[0]);
      [r.outcome] + PushAll(r.state, arrivals[1..])
  }

  /** Copies of the picture's packets, each with its own receive time, mixed with noise. */
  ghost predicate Mixture(s0: State, p: Picture, arrivals: seq<RawPacket>) {
    forall a :: a in arrivals ==> IsPart(p, a) || Noise(s0, p, a)
  }

  /** Arrival `i` is the first after which exactly a run up to the marker is held that starts a unit. */
  ghost predicate StopsFirst(p: Picture, m: map<Seq16, Packet>, arrivals: seq<RawPacket>, i: nat)
    requires i < |arrivals|
  {
    && Stops(p, Held(p, m, arrivals[..i + 1]))
    && forall k :: 0 <= k <= i ==> !Stops(p, Held(p, m, arrivals[..k]))
  }

  /** The answers to all arrivals: one emission, at the first stop, of the run held there. */
  ghost predicate Emits(s0: State, p: Picture, m: map<Seq16, Packet>, arrivals: seq<RawPacket>, o: seq<Outcome>)
    requires Proper(p) && |o| == |arrivals|
  {
    forall i :: 0 <= i < |arrivals| ==>
      && (o[i].Emitted? <==> StopsFirst(p, m, arrivals, i))
      && (o[i].Emitted? ==> EmitsRun(s0, p, Held(p, m, arrivals[..i + 1]), o[i]))
  }

  ghost predicate EmitsRun(s0: State, p: Picture, m: map<Seq16, Packet>, o: Outcome)
    requires Proper(p)
  {
    exists j :: RunAt(p, m, j) && o == UnitOf(s0, p, m, j)
  }

  lemma {:induction false} DoneRun(s0: State, s: State, p: Picture, arrivals: seq<RawPacket>)
    requires Proper(p) && Done(s0, s, p) && Mixture(s0, p, arrivals)
    ensures forall i :: 0 <= i < |arrivals| ==> !PushAll(s, arrivals)[i].Emitted?
    decreases |arrivals|
  {
    hide Push, Noise, IsPart;
    if arrivals != [] {
      if IsPart(p, arrivals[0]) {
        StepDone(s0, s, p, arrivals[0]);
      } else {
        StepNoise(s0, s, p, map[], arrivals[0]);
      }
      DoneRun(s0, s, p, arrivals[1..]);
    }
  }

  /** Receiving the head of the arrivals moves it from the arrivals to what is held. */
  lemma HeldShift(p: Picture, m: map<Seq16, Packet>, arrivals: seq<RawPacket>, k: nat)
    requires arrivals != [] && k < |arrivals|
    ensures Held(p, m, arrivals[..k + 1]) == Held(p, Add(p, m, arrivals[0]), arrivals[1..][..k])
    ensures Held(p, m, arrivals[..0]) == m
  {
    assert arrivals[..k + 1][1..] == arrivals[1..][..k];
  }

  /** From the first answer and the answers to the rest to all answers. */
  lemma EmitsFromRest(s0: State, p: Picture, m: map<Seq16, Packet>, arrivals: seq<RawPacket>, o: seq<Outcome>)
    requires Proper(p) && arrivals != [] && |o| == |arrivals| && !Stops(p, m)
    requires
      var m' := Add(p, m, arrivals[0]);
      if Stops(p, m') then EmitsRun(s0, p, m', o[0]) && o[0].Emitted? && forall i :: 1 <= i < |o| ==> !o[i].Emitted?
      else !o[0].Emitted? && Emits(s0, p, m', arrivals[1..], o[1..])
    ensures Emits(s0, p, m, arrivals, o)
  {
    hide Stops, EmitsRun, Add;
    var m' := Add(p, m, arrivals[0]);
    forall k: nat | k < |arrivals|
      ensures Held(p, m, arrivals[..k + 1]) == Held(p, m', arrivals[1..][..k]) && Held(p, m, arrivals[..0]) == m
    {
      HeldShift(p, m, arrivals, k);
    }
    assert Held(p, m, arrivals[..1]) == m';
    forall i | 0 <= i < |arrivals|
      ensures o[i].Emitted? <==> StopsFirst(p, m, arrivals, i)
      ensures o[i].Emitted? ==> EmitsRun(s0, p, Held(p, m, arrivals[..i + 1]), o[i])
    {
      if i > 0 && !Stops(p, m') {
        StopsFirstShift(p, m, arrivals, i);
        assert o[1..][i - 1] == o[i];
      }
    }
  }

  lemma StopsFirstShift(p: Picture, m: map<Seq16, Packet>, arrivals: seq<RawPacket>, i: nat)
    requires 0 < i < |arrivals| && !Stops(p, m)
    ensures StopsFirst(p, m, arrivals, i) <==> StopsFirst(p, Add(p, m, arrivals[0]), arrivals[1..], i - 1)
  {
    hide Stops, Add;
    forall k: nat | k < |arrivals|
      ensures Held(p, m, arrivals[..k + 1]) == Held(p, Add(p, m, arrivals[0]), arrivals[1..][..k]) && Held(p, m, arrivals[..0]) == m
    {
      HeldShift(p, m, arrivals, k);
    }
    if StopsFirst(p, Add(p, m, arrivals[0]), arrivals[1..], i - 1) {
      forall k | 0 <= k <= i
        ensures !Stops(p, Held(p, m, arrivals[..k]))
      {
        if k > 0 { assert !Stops(p, Held(p, Add(p, m, arrivals[0]), arrivals[1..][..k - 1])); }
      }
    }
    if StopsFirst(p, m, arrivals, i) {
      forall k | 0 <= k <= i - 1
        ensures !Stops(p, Held(p, Add(p, m, arrivals[0]), arrivals[1..][..k]))
      {
        assert !Stops(p, Held(p, m, arrivals[..k + 1]));
      }
    }
  }

  lemma {:induction false} CollectingRun(s0: State, s: State, p: Picture, m: map<Seq16, Packet>, arrivals: seq<RawPacket>)
    requires Proper(p) && WithinLimits(p, s0) && Assembles(s0, p) && Awaits(s0, p) && Collecting(s0, s, p, m) && Mixture(s0, p, arrivals)
    ensures Emits(s0, p, m, arrivals, PushAll(s, arrivals))
    decreases |arrivals|
  {
    hide Push, Noise, IsPart, UnitOf, Awaits, WithinLimits, Assembles, Holding, Base, Stops, RunAt, PartOf;
    if arrivals != [] {
      var a := arrivals[0];
      if IsPart(p, a) {
        StepPart(s0, s, p, m, a);
      } else {
        StepNoise(s0, s, p, m, a);
      }
      AfterFirst(s0, s, p, m, arrivals);
    }
  }

  lemma AfterFirst(s0: State, s: State, p: Picture, m: map<Seq16, Packet>, arrivals: seq<RawPacket>)
    requires Proper(p) && WithinLimits(p, s0) && Assembles(s0, p) && Awaits(s0, p) && arrivals != [] && Mixture(s0, p, arrivals)
    requires !Stops(p, m) && PartOf(m, p) && Answers(s0, p, Add(p, m, arrivals[0]), Push(s, arrivals[0]))
    ensures Emits(s0, p, m, arrivals, PushAll(s, arrivals))
    decreases |arrivals|, 0
  {
    hide Push, Noise, IsPart, UnitOf, Awaits, WithinLimits, Holding, Base, Done, Collecting, Add, Exactly, StartsUnit;
    var r, m' := Push(s, arrivals[0]), Add(p, m, arrivals[0]);
    var o := PushAll(s, arrivals);
    assert o == [r.outcome] + PushAll(r.state, arrivals[1..]);
    if Stops(p, m') {
      AddKeeps(p, m, arrivals[0]);
      var j :| RunAt(p, m', j) && r.outcome == UnitOf(s0, p, m', j);
      DoneRun(s0, r.state, p, arrivals[1..]);
    } else {
      CollectingRun(s0, r.state, p, m', arrivals[1..]);
      assert o[1..] == PushAll(r.state, arrivals[1..]);
    }
    EmitsFromRest(s0, p, m, arrivals, o);
  }

  lemma AddKeeps(p: Picture, m: map<Seq16, Packet>, a: RawPacket)
    requires PartOf(m, p)
    ensures PartOf(Add(p, m, a), p)
  {
  }

  /**
  Any picture, any arrivals: copies in any order with their own receive times, and noise, from
  the first packet of the picture on. One unit at most is emitted, by the push after which, for
  the first time, exactly a run up to the marker is held that starts a unit; and it is that run.
  */
  lemma EmittedAtFirstStop(s0: State, p: Picture, arrivals: seq<RawPacket>)
    requires Proper(p) && WithinLimits(p, s0) && Assembles(s0, p) && Awaits(s0, p) && Mixture(s0, p, arrivals)
    requires arrivals != [] && IsPart(p, arrivals[0])
    ensures Emits(s0, p, map[], arrivals, PushAll(s0, arrivals))
  {
    hide Push, Noise, IsPart, UnitOf, Awaits, WithinLimits, Assembles, Holding, Base, Answers, Add;
    StepFirst(s0, p, arrivals[0]);
    NothingHeld(p);
    AfterFirst(s0, s0, p, map[], arrivals);
  }

  lemma NothingHeld(p: Picture)
    requires Proper(p)
    ensures !Stops(p, map[]) && PartOf(map[], p)
  {
    NoMarkerNoStop(p, map[]);
  }

  // ------------------------------------------------------- what Held means

  /** Arrival `i` is the first copy of its packet. */
  ghost predicate FirstCopy(p: Picture, arrivals: seq<RawPacket>, i: nat)
    requires i < |arrivals|
  {
    IsPart(p, arrivals[i]) && forall k :: 0 <= k < i && IsPart(p, arrivals[k]) ==> arrivals[k].sequence != arrivals[i].sequence
  }

  lemma {:induction false} HeldGrows(p: Picture, m: map<Seq16, Packet>, arrivals: seq<RawPacket>, a: RawPacket)
    ensures Held(p, m, arrivals + [a]) == Add(p, Held(p, m, arrivals), a)
    decreases |arrivals|
  {
    hide Add;
    if arrivals == [] {
      assert (arrivals + [a])[1..] == [];
    } else {
      assert (arrivals + [a])[1..] == arrivals[1..] + [a];
      HeldGrows(p, Add(p, m, arrivals[0]), arrivals[1..], a);
    }
  }

  /** Some arrival is a copy of the packet. */
  ghost predicate Arrived(p: Picture, arrivals: seq<RawPacket>, k: Seq16) {
    exists i :: 0 <= i < |arrivals| && IsPart(p, arrivals[i]) && arrivals[i].sequence == k
  }

  lemma ArrivedGrows(p: Picture, arrivals: seq<RawPacket>, a: RawPacket, k: Seq16)
    ensures Arrived(p, arrivals + [a], k) <==> Arrived(p, arrivals, k) || (IsPart(p, a) && a.sequence == k)
  {
    hide IsPart;
    var all := arrivals + [a];
    if Arrived(p, arrivals, k) {
      var i :| 0 <= i < |arrivals| && IsPart(p, arrivals[i]) && arrivals[i].sequence == k;
      assert all[i] == arrivals[i];
    }
    assert all[|arrivals|] == a;
  }

  /** Exactly the packets that arrived are held. */
  lemma {:induction false} HeldArrived(p: Picture, arrivals: seq<RawPacket>)
    ensures PartOf(Held(p, map[], arrivals), p)
    ensures forall k :: k in Held(p, map[], arrivals) <==> Arrived(p, arrivals, k)
    decreases |arrivals|
  {
    hide IsPart, Arrived;
    if arrivals == [] {
      assert forall k :: !Arrived(p, [], k) by { NoneArrived(p); }
    } else {
      var n := |arrivals| - 1;
      HeldArrived(p, arrivals[..n]);
      HeldGrows(p, map[], arrivals[..n], arrivals[n]);
      assert arrivals == arrivals[..n] + [arrivals[n]];
      forall k: Seq16 ensures Arrived(p, arrivals, k) <==> Arrived(p, arrivals[..n], k) || (IsPart(p, arrivals[n]) && arrivals[n].sequence == k) {
        ArrivedGrows(p, arrivals[..n], arrivals[n], k);
      }
    }
  }

  lemma NoneArrived(p: Picture)
    ensures forall k: Seq16 :: !Arrived(p, [], k)
  {
  }

  /** And each as its first copy, so with the time of that copy. */
  lemma {:induction false} HeldIsFirstCopy(p: Picture, arrivals: seq<RawPacket>, i: nat)
    requires i < |arrivals| && FirstCopy(p, arrivals, i)
    ensures arrivals[i].sequence in Held(p, map[], arrivals) && Held(p, map[], arrivals)[arrivals[i].sequence] == arrivals[i]
    decreases |arrivals|
  {
    hide IsPart;
    var n := |arrivals| - 1;
    var init := arrivals[..n];
    assert arrivals == init + [arrivals[n]];
    HeldGrows(p, map[], init, arrivals[n]);
    if i < n {
      assert FirstCopy(p, init, i);
      HeldIsFirstCopy(p, init, i);
    } else {
      HeldArrived(p, init);
      assert !Arrived(p, init, arrivals[n].sequence);
    }
  }
}
