/**
`Depacketizer` of `internal/video/depacketizer.go`, in place: the fields of the
source, its loops, and `Push` proved to compute `DepacketizerSpec.Push`.
*/
module Depacketization {
  import opened Basics
  import opened Rtp
  import Spec = DepacketizerSpec

  /** Strictly farther from the marker: the comparison `orderedPackets` sorts by. */
  predicate Farther(marker: Seq16, a: Seq16, b: Seq16) {
    Spec.Distance(marker, a) > Spec.Distance(marker, b)
  }

  predicate Sorted(marker: Seq16, s: seq<Seq16>) {
    forall i, j :: 0 <= i < j < |s| ==> Farther(marker, s[i], s[j])
  }

  /** One step of the sort: `x` placed before the first element nearer to the marker. */
  method Insert(marker: Seq16, s: seq<Seq16>, x: Seq16) returns (r: seq<Seq16>)
    requires Sorted(marker, s) && x !in s
    ensures Sorted(marker, r) && forall y :: y in r <==> y == x || y in s
  {
    var i := 0;
    while i < |s| && Farther(marker, s[i], x)
      invariant 0 <= i <= |s|
      invariant forall j :: 0 <= j < i ==> Farther(marker, s[j], x)
    {
      i := i + 1;
    }
    r := s[..i] + [x] + s[i..];
    InsertSorted(marker, s, x, i);
  }

  lemma InsertSorted(marker: Seq16, s: seq<Seq16>, x: Seq16, i: nat)
    requires Sorted(marker, s) && x !in s && i <= |s|
    requires forall j :: 0 <= j < i ==> Farther(marker, s[j], x)
    requires i < |s| ==> !Farther(marker, s[i], x)
    ensures var r := s[..i] + [x] + s[i..]; Sorted(marker, r) && forall y :: y in r <==> y == x || y in s
  {
    hide Spec.Distance;
    assert s == s[..i] + s[i..];
    if i < |s| {
      assert s[i] in s;
      DistancesDiffer(marker, s[i], x);
      forall j | i <= j < |s|
        ensures Farther(marker, x, s[j])
      {
        assert j == i || Farther(marker, s[i], s[j]);
      }
    }
  }

  lemma DistancesDiffer(marker: Seq16, a: Seq16, b: Seq16)
    requires a != b
    ensures Spec.Distance(marker, a) != Spec.Distance(marker, b)
  {
    Spec.BeforeDistance(marker, a);
    Spec.BeforeDistance(marker, b);
  }

  /** A sorted list of everything within the window, when it is exactly the run. */
  lemma RunFromSorted(packets: map<Seq16, Packet>, marker: Seq16, max: nat, s: seq<Seq16>)
    requires Sorted(marker, s) && s != []
    requires forall k :: k in s <==> k in packets && Spec.Distance(marker, k) < max
    requires forall i :: 0 < i < |s| ==> s[i] == NextSequence(s[i - 1])
    requires s[|s| - 1] == marker
    ensures |s| == Spec.RunLength(packets, marker, max)
    ensures forall i :: 0 <= i < |s| ==> s[i] == Spec.Before(marker, |s| - 1 - i)
    ensures !exists k :: k in packets && |s| <= Spec.Distance(marker, k) < max
  {
    hide Spec.RunLength;
    var n := |s|;
    SortedDistances(marker, s, n - 1);
    forall k | k in packets && Spec.Distance(marker, k) < max
      ensures Spec.Distance(marker, k) < n
    {
      assert k in s;
    }
    forall i | 0 <= i < n
      ensures Spec.Before(marker, i) in packets && i < max
    {
      assert s[n - 1 - i] == Spec.Before(marker, i) && s[n - 1 - i] in s;
      Spec.DistanceBefore(marker, i);
    }
    assert s[0] in s && Spec.Distance(marker, s[0]) == n - 1;
    RunAtLeast(packets, marker, max, n, 0);
    if n < max && n < 0x1_0000 {
      Spec.DistanceBefore(marker, n);
      assert Spec.Before(marker, n) !in packets;
    }
  }

  lemma {:induction false} RunAtLeast(packets: map<Seq16, Packet>, marker: Seq16, max: nat, n: nat, k: nat)
    requires k <= n <= max && n <= 0x1_0000
    requires forall i :: 0 <= i < n ==> Spec.Before(marker, i) in packets
    ensures Spec.RunLength(packets, marker, max, k) >= n
    decreases n - k
  {
    hide Spec.Before;
    if k < n {
      RunAtLeast(packets, marker, max, n, k + 1);
    }
  }

  /** Consecutive numbers ending at the marker stand at distances n-1 down to 0. */
  lemma {:induction false} SortedDistances(marker: Seq16, s: seq<Seq16>, k: nat)
    requires Sorted(marker, s) && s != [] && k < |s|
    requires forall i :: 0 < i < |s| ==> s[i] == NextSequence(s[i - 1])
    requires s[|s| - 1] == marker
    ensures |s| <= 0x1_0000
    ensures forall i :: |s| - 1 - k <= i < |s| ==>
      Spec.Distance(marker, s[i]) == |s| - 1 - i && s[i] == Spec.Before(marker, |s| - 1 - i)
    decreases k
  {
    var n := |s|;
    if k > 0 {
      SortedDistances(marker, s, k - 1);
      var i := n - 1 - k;
      assert s[i + 1] == NextSequence(s[i]) && Farther(marker, s[i], s[i + 1]);
      Spec.BeforeDistance(marker, s[i]);
    }
    if n > 0x1_0000 {
      DistancesFall(marker, s, 0);
    }
  }

  lemma {:induction false} DistancesFall(marker: Seq16, s: seq<Seq16>, i: nat)
    requires Sorted(marker, s) && i < |s|
    ensures Spec.Distance(marker, s[i]) >= |s| - 1 - i
    decreases |s| - i
  {
    if i + 1 < |s| {
      DistancesFall(marker, s, i + 1);
      assert Farther(marker, s[i], s[i + 1]);
    }
  }

  /** Conversely, when the window is exactly the run, the sorted list has no gap. */
  lemma NoGapWhenRun(packets: map<Seq16, Packet>, marker: Seq16, max: nat, s: seq<Seq16>)
    requires Sorted(marker, s) && s != []
    requires forall k :: k in s <==> k in packets && Spec.Distance(marker, k) < max
    requires !exists k :: k in packets && Spec.RunLength(packets, marker, max) <= Spec.Distance(marker, k) < max
    ensures Spec.RunLength(packets, marker, max) > 0
    ensures forall i :: 0 < i < |s| ==> s[i] == NextSequence(s[i - 1])
    ensures s[|s| - 1] == marker
  {
    hide Spec.RunLength, Spec.Distance, Spec.Before;
    var r := Spec.RunLength(packets, marker, max);
    var n := |s|;
    forall i | 0 <= i < n
      ensures Spec.Distance(marker, s[i]) < r
    {
      assert s[i] in s;
    }
    assert 0 <= Spec.Distance(marker, s[0]) < r;
    Nearest(packets, marker, max, s, r);
    forall i | 0 < i < n
      ensures s[i] == NextSequence(s[i - 1])
    {
      Adjacent(packets, marker, max, s, r, i);
    }
  }

  lemma SortedOrder(marker: Seq16, s: seq<Seq16>, a: nat, b: nat)
    requires Sorted(marker, s) && a < |s| && b < |s|
    ensures a < b <==> Spec.Distance(marker, s[a]) > Spec.Distance(marker, s[b])
  {
    hide Spec.Distance;
    if b < a {
      assert Farther(marker, s[b], s[a]);
    }
    if a < b {
      assert Farther(marker, s[a], s[b]);
    }
  }

  lemma Nearest(packets: map<Seq16, Packet>, marker: Seq16, max: nat, s: seq<Seq16>, r: nat)
    requires Sorted(marker, s) && s != [] && 0 < r == Spec.RunLength(packets, marker, max)
    requires forall k :: k in s <==> k in packets && Spec.Distance(marker, k) < max
    ensures s[|s| - 1] == marker
  {
    hide Spec.RunLength;
    var n := |s|;
    Present(packets, marker, max, s, 0);
    var j :| 0 <= j < n && s[j] == Spec.Before(marker, 0);
    SortedOrder(marker, s, n - 1, j);
  }

  lemma Adjacent(packets: map<Seq16, Packet>, marker: Seq16, max: nat, s: seq<Seq16>, r: nat, i: nat)
    requires Sorted(marker, s) && 0 < i < |s| && r == Spec.RunLength(packets, marker, max)
    requires forall k :: k in s <==> k in packets && Spec.Distance(marker, k) < max
    requires Spec.Distance(marker, s[i - 1]) < r
    ensures s[i] == NextSequence(s[i - 1])
  {
    hide Spec.RunLength, Spec.Distance, Spec.Before;
    assert Farther(marker, s[i - 1], s[i]);
    var d := Spec.Distance(marker, s[i]) + 1;
    Present(packets, marker, max, s, d);
    var m :| 0 <= m < |s| && s[m] == Spec.Before(marker, d);
    Spec.DistanceBefore(marker, d);
    SortedOrder(marker, s, i, m);
    SortedOrder(marker, s, i - 1, m);
    OneNearer(marker, s[i - 1], s[i]);
  }

  lemma OneNearer(marker: Seq16, a: Seq16, b: Seq16)
    requires Spec.Distance(marker, a) == Spec.Distance(marker, b) + 1
    ensures b == NextSequence(a)
  {
    Spec.BeforeDistance(marker, a);
    Spec.BeforeDistance(marker, b);
  }

  lemma Present(packets: map<Seq16, Packet>, marker: Seq16, max: nat, s: seq<Seq16>, d: nat)
    requires forall k :: k in s <==> k in packets && Spec.Distance(marker, k) < max
    requires d < Spec.RunLength(packets, marker, max)
    ensures Spec.Before(marker, d) in s
  {
    Spec.DistanceBefore(marker, d);
  }

  /** `orderedPackets`: collect, sort, check for gaps. */
  method OrderedPackets(packets: map<Seq16, Packet>, marker: Seq16, max: nat) returns (r: Option<seq<Packet>>)
    ensures r == Spec.Ordered(packets, marker, max)
  {
    hide Spec.RunLength, Spec.Distance, Spec.Ordered, Spec.RunPackets;
    var sequences: seq<Seq16> := [];
    var rest := packets.Keys;
    while rest != {}
      invariant rest <= packets.Keys
      invariant Sorted(marker, sequences)
      invariant forall k :: k in sequences <==> k in packets && k !in rest && Spec.Distance(marker, k) < max
      decreases |rest|
    {
      var k :| k in rest;
      rest := rest - {k};
      if Spec.Distance(marker, k) < max {
        sequences := Insert(marker, sequences, k);
      }
    }
    if sequences == [] {
      NothingInWindow(packets, marker, max);
      return None;
    }
    var result: seq<Packet> := [];
    var i := 0;
    while i < |sequences|
      invariant 0 <= i <= |sequences| && |result| == i
      invariant forall j :: 0 < j < i ==> sequences[j] == NextSequence(sequences[j - 1])
      invariant forall j :: 0 <= j < i ==> sequences[j] in packets && result[j] == packets[sequences[j]]
    {
      assert sequences[i] in sequences;
      if i > 0 && sequences[i] != NextSequence(sequences[i - 1]) {
        GapIsUnordered(packets, marker, max, sequences, i);
        return None;
      }
      result := result + [packets[sequences[i]]];
      i := i + 1;
    }
    if sequences[|sequences| - 1] != marker {
      GapIsUnordered(packets, marker, max, sequences, 0);
      return None;
    }
    RunIsOrdered(packets, marker, max, sequences, result);
    if Spec.Continuation(result[0]) {
      return None;
    }
    return Some(result);
  }

  lemma GapIsUnordered(packets: map<Seq16, Packet>, marker: Seq16, max: nat, s: seq<Seq16>, i: nat)
    requires Sorted(marker, s) && s != [] && i < |s|
    requires forall k :: k in s <==> k in packets && Spec.Distance(marker, k) < max
    requires (i > 0 && s[i] != NextSequence(s[i - 1])) || s[|s| - 1] != marker
    ensures Spec.Ordered(packets, marker, max) == None
  {
    hide Spec.RunLength;
    if !exists k :: k in packets && Spec.RunLength(packets, marker, max) <= Spec.Distance(marker, k) < max {
      NoGapWhenRun(packets, marker, max, s);
    }
  }

  lemma RunIsOrdered(packets: map<Seq16, Packet>, marker: Seq16, max: nat, s: seq<Seq16>, result: seq<Packet>)
    requires Sorted(marker, s) && s != [] && |result| == |s|
    requires forall k :: k in s <==> k in packets && Spec.Distance(marker, k) < max
    requires forall i :: 0 < i < |s| ==> s[i] == NextSequence(s[i - 1])
    requires s[|s| - 1] == marker
    requires forall i :: 0 <= i < |s| ==> s[i] in packets && result[i] == packets[s[i]]
    ensures Spec.Ordered(packets, marker, max) == if Spec.Continuation(result[0]) then None else Some(result)
  {
    hide Spec.RunLength, Spec.Distance, Spec.Before;
    RunFromSorted(packets, marker, max, s);
    assert result == Spec.RunPackets(packets, marker, |s|);
  }

  lemma NothingInWindow(packets: map<Seq16, Packet>, marker: Seq16, max: nat)
    requires forall k :: k in packets ==> Spec.Distance(marker, k) >= max
    ensures Spec.Ordered(packets, marker, max) == None
  {
    hide Spec.RunPackets, Spec.Continuation, Spec.Distance, Spec.Before;
    Spec.DistanceBefore(marker, 0);
    assert max > 0 ==> Spec.Before(marker, 0) !in packets;
    assert Spec.RunLength(packets, marker, max) == 0;
  }

  class Depacketizer {
    var generation: nat
    const limits: Limits
    var pending: Option<Spec.PendingUnit>
    var sps: seq<Byte>
    var pps: seq<Byte>
    var lastSequence: Seq16
    var lastTimestamp: Time32
    var haveLast: bool
    var discontinuity: bool

    ghost function View(): Spec.State
      reads this
    {
      Spec.State(generation, limits, pending, sps, pps, lastSequence, lastTimestamp, haveLast, discontinuity)
    }

    /** `NewDepacketizer`; generation zero is refused by `Pipelines.NewPipeline`. */
    constructor (generation: nat, limits: Limits)
      ensures View() == Spec.State(generation, limits, None, [], [], 0, 0, false, false)
    {
      this.generation, this.limits := generation, limits;
      pending, sps, pps := None, [], [];
      lastSequence, lastTimestamp, haveLast, discontinuity := 0, 0, false, false;
    }

    method Reset(next: nat) returns (ok: bool)
      modifies this
      ensures ok == (next != 0)
      ensures View() == if next == 0 then old(View()) else
                          old(View()).(generation := next, pending := None, sps := [], pps := [], haveLast := false, discontinuity := false)
    {
      if next == 0 {
        return false;
      }
      generation := next;
      pending := None;
      sps, pps := [], [];
      haveLast, discontinuity := false, false;
      return true;
    }

    /** The loop of `assemble` over the payloads and, inside it, over a STAP-A's units. */
    method AppendPayloads(packets: seq<Packet>) returns (r: Spec.Progress)
      modifies this
      ensures r == Spec.AppendAll(Spec.Fresh(old(sps), old(pps)), Spec.PayloadsOf(packets), limits.maxUnitBytes)
      ensures View() == old(View()).(sps := r.a.sps, pps := r.a.pps)
    {
      hide Spec.AppendFragment, Spec.AppendNal, Spec.AppendAggregate;
      var max := limits.maxUnitBytes;
      ghost var payloads := Spec.PayloadsOf(packets);
      var a := Spec.Fresh(sps, pps);
      assert payloads[0..] == payloads;
      for i := 0 to |packets|
        invariant |a.annexB| <= max
        invariant Spec.AppendAll(Spec.Fresh(old(sps), old(pps)), payloads, max) == Spec.AppendAll(a, payloads[i..], max)
        invariant View() == old(View()).(sps := a.sps, pps := a.pps)
      {
        var payload := packets[i].payload;
        assert payloads[i..][0] == payload && payloads[i..][1..] == payloads[i + 1..];
        var t := TypeOf(payload[0]);
        if t == 24 && !a.fragmented {
          r := AppendUnits(a, payload);
        } else {
          r := Spec.AppendPayload(a, payload, max);
        }
        a := r.a;
        sps, pps := a.sps, a.pps;
        if r.Abort? {
          return;
        }
      }
      r := Spec.Continue(a);
    }

    method AppendUnits(start: Spec.Assembly, payload: Payload) returns (r: Spec.Progress)
      requires |start.annexB| <= limits.maxUnitBytes
      ensures r == Spec.AppendAggregate(start, payload, 1, limits.maxUnitBytes)
    {
      hide Spec.AppendNal;
      var a, offset := start, 1;
      while offset < |payload|
        invariant 1 <= offset <= |payload| && |a.annexB| <= limits.maxUnitBytes
        invariant Spec.AppendAggregate(start, payload, 1, limits.maxUnitBytes) == Spec.AppendAggregate(a, payload, offset, limits.maxUnitBytes)
      {
        if |payload| - offset < 2 {
          return Spec.Abort(a, InvalidPacket);
        }
        var size := Spec.Size16(payload, offset);
        if size == 0 || size > |payload| - offset - 2 {
          return Spec.Abort(a, InvalidPacket);
        }
        r := Spec.AppendNal(a, payload[offset + 2..offset + 2 + size], limits.maxUnitBytes);
        if r.Abort? {
          return;
        }
        a, offset := r.a, offset + 2 + size;
      }
      r := Spec.Continue(a);
    }

    method Assemble(unit: Spec.PendingUnit, packets: seq<Packet>) returns (r: Spec.Outcome)
      requires packets != []
      modifies this
      ensures var e := Spec.Assemble(old(sps), old(pps), unit, packets, limits.maxUnitBytes);
              r == e.result && View() == old(View()).(sps := e.sps, pps := e.pps)
    {
      hide Spec.AppendAll;
      var p := AppendPayloads(packets);
      if p.Abort? {
        return Spec.Failed(p.error);
      }
      if p.a.fragmented {
        return Spec.Failed(PacketLoss);
      }
      r := Spec.Finish(p.a, unit, packets, limits.maxUnitBytes);
    }

    method Push(packet: RawPacket) returns (r: Spec.Outcome)
      modifies this
      ensures Spec.Pushed(View(), r) == Spec.Push(old(View()), packet)
    {
      hide Spec.Ordered, Spec.Assemble;
      if packet.generation != generation {
        return Spec.Failed(GenerationMismatch);
      }
      if packet.receivedAt == 0 || packet.payload == [] {
        return Spec.Failed(InvalidPacket);
      }
      if |packet.payload| > limits.maxPacketBytes {
        return Spec.Failed(PacketTooLarge);
      }
      if haveLast && SignedDifference(packet.timestamp, lastTimestamp) <= 0 {
        return Spec.Nothing;
      }
      if pending.Some? && SignedDifference(packet.timestamp, pending.value.timestamp) < 0 {
        return Spec.Nothing;
      }
      var priorLoss := false;
      if pending.None? || pending.value.timestamp != packet.timestamp {
        priorLoss := pending.Some?;
        if priorLoss {
          discontinuity := true;
        }
        pending := Some(Spec.PendingUnit(packet.generation, packet.timestamp, map[], None, 0));
      }
      r := StorePacket(packet, priorLoss);
    }

    method StorePacket(packet: Packet, priorLoss: bool) returns (r: Spec.Outcome)
      requires pending.Some?
      modifies this
      ensures Spec.Pushed(View(), r) == Spec.Store(old(View()), old(pending.value), packet, priorLoss)
    {
      hide Spec.Ordered, Spec.Assemble;
      var unit := pending.value;
      if packet.sequence in unit.packets {
        return Spec.Nothing;
      }
      var bytes := unit.bytes + |packet.payload|;
      if bytes > limits.maxUnitBytes || |unit.packets| >= limits.maxPackets {
        pending := None;
        discontinuity := true;
        return Spec.Failed(AccessUnitTooLarge);
      }
      unit := unit.(packets := unit.packets[packet.sequence := packet], bytes := bytes);
      if packet.marker {
        unit := unit.(marker := Some(packet.sequence));
      }
      pending := Some(unit);
      if unit.marker.None? {
        return if priorLoss then Spec.Failed(PacketLoss) else Spec.Nothing;
      }
      var ordered := OrderedPackets(unit.packets, unit.marker.value, limits.maxPackets);
      if ordered.None? {
        return Spec.Nothing;
      }
      r := Assemble(unit, ordered.value);
      pending := None;
      if r.Failed? {
        discontinuity := true;
        return;
      }
      var accessUnit := r.unit.(discontinuity := discontinuity || (haveLast && r.unit.firstSequence != NextSequence(lastSequence)));
      lastSequence, lastTimestamp, haveLast := accessUnit.lastSequence, accessUnit.rtpTime, true;
      discontinuity := false;
      r := Spec.Emitted(accessUnit);
    }
  }
}
