/**
The bit reader of `internal/video/sps_validate.go` and its inverse. The writers
follow ITU-T H.264: section 7.3.1 (emulation prevention), 9.1 and 9.1.1
(Exp-Golomb codes) and 7.3.2.11 (trailing bits).
*/
module Rbsp {
  import opened Basics
  import opened Rtp

  type Bit = b: int | 0 <= b < 2

  function Pow2(n: nat): (r: nat)
    ensures r > 0
  {
    if n == 0 then 1 else 2 * Pow2(n - 1)
  }

  lemma {:induction false} Pow2Monotone(a: nat, b: nat)
    requires a <= b
    ensures Pow2(a) <= Pow2(b)
    decreases b
  {
    if a < b {
      Pow2Monotone(a, b - 1);
    }
  }

  lemma Powers()
    ensures Pow2(8) == 0x100 && Pow2(16) == 0x1_0000 && Pow2(30) == 0x4000_0000 && Pow2(31) == 0x8000_0000
  {
    assert Pow2(12) == 0x1000;
    assert Pow2(20) == 0x10_0000;
    assert Pow2(26) == 0x400_0000;
  }

  /** The number a bit string spells, most significant bit first. */
  function Value(bits: seq<Bit>): (v: nat)
    ensures v < Pow2(|bits|)
  {
    if bits == [] then 0 else 2 * Value(bits[..|bits| - 1]) + bits[|bits| - 1]
  }

  function Shift(v: nat, k: nat): nat { if k == 0 then v else Shift(v / 2, k - 1) }

  function BitAt(v: nat, k: nat): Bit { Shift(v, k) % 2 }

  /** The bits of a byte string in reading order. */
  function BitsOf(data: seq<Byte>): (r: seq<Bit>)
    ensures |r| == 8 * |data|
  {
    seq(8 * |data|, i requires 0 <= i < 8 * |data| => BitAt(data[i / 8], 7 - i % 8))
  }

  lemma BitIndex(data: seq<Byte>, i: nat)
    requires i < 8 * |data|
    ensures BitsOf(data)[i] == BitAt(data[i / 8], 7 - i % 8)
  {
  }

  // ------------------------------------------------------------------ reading

  /** What is left to read, and the sticky error. */
  datatype Cursor = Cursor(rest: seq<Bit>, err: bool)

  datatype Got = Got(value: nat, cursor: Cursor)

  function ReadU(c: Cursor, n: nat): Got {
    if c.err || n > 32 || n > |c.rest| then Got(0, c.(err := true))
    else Got(Value(c.rest[..n]), Cursor(c.rest[n..], false))
  }

  datatype Zeros = Zeros(count: nat, cursor: Cursor, overlong: bool)

  function CountZeros(c: Cursor, zeros: nat): (r: Zeros)
    requires zeros <= 30
    ensures !r.overlong ==> r.count <= 30
    decreases 31 - zeros
  {
    if c.err then Zeros(zeros, c, false)
    else
      var g := ReadU(c, 1);
      if g.value != 0 then Zeros(zeros, g.cursor, false)
      else if zeros + 1 > 30 then Zeros(zeros + 1, g.cursor.(err := true), true)
      else CountZeros(g.cursor, zeros + 1)
  }

  function ReadUe(c: Cursor): (r: Got)
    ensures r.value <= 0x7FFF_FFFE
  {
    var z := CountZeros(c, 0);
    if z.overlong then Got(0, z.cursor)
    else
      var g := ReadU(z.cursor, z.count);
      Pow2Monotone(z.count, 30);
      Powers();
      assert g.value < Pow2(z.count);
      Got(Pow2(z.count) - 1 + g.value, g.cursor)
  }

  datatype GotSigned = GotSigned(value: int, cursor: Cursor)

  function ReadSe(c: Cursor): GotSigned {
    var g := ReadUe(c);
    GotSigned(if g.value % 2 == 1 then (g.value + 1) / 2 else -(g.value as int) / 2, g.cursor)
  }

  /** `rbspBits`: bytes, a bit position, a sticky error. */
  class RbspBits {
    var data: seq<Byte>
    var pos: nat
    var err: bool

    ghost predicate Valid()
      reads this
    {
      pos <= 8 * |data|
    }

    ghost function View(): Cursor
      requires Valid()
      reads this
    {
      Cursor(BitsOf(data)[pos..], err)
    }

    /** `newRBSP`. */
    constructor (src: seq<Byte>)
      ensures Valid() && View() == Cursor(BitsOf(Strip(src, 0)), false)
    {
      hide BitsOf, BitAt, Strip;
      data, pos, err := [], 0, false;
      new;
      var zeros := 0;
      assert src[0..] == src;
      for i := 0 to |src|
        invariant pos == 0 && !err
        invariant Strip(src, 0) == data + Strip(src[i..], zeros)
      {
        StripStep(src, i, zeros);
        if zeros == 2 && src[i] == 3 {
          zeros := 0;
          continue;
        }
        ghost var after := if src[i] == 0 then zeros + 1 else 0;
        Regroup(data, src[i], Strip(src[i + 1..], after));
        data := data + [src[i]];
        zeros := if src[i] == 0 then zeros + 1 else 0;
      }
      StripNothing(src[|src|..], zeros);
      assert data + [] == data;
      assert BitsOf(data)[0..] == BitsOf(data);
    }

    method Read(n: nat) returns (v: nat)
      requires Valid()
      modifies this
      ensures Valid() && data == old(data) && Got(v, View()) == ReadU(old(View()), n)
    {
      hide BitAt, BitsOf;
      if err || n > 32 || pos + n > |data| * 8 {
        err := true;
        return 0;
      }
      v := 0;
      ghost var start, bits := pos, BitsOf(data);
      for i := 0 to n
        invariant data == old(data) && pos == start + i <= 8 * |data| && !err
        invariant v == Value(bits[start..pos])
      {
        BitIndex(data, pos);
        assert bits[start..pos + 1][..i] == bits[start..pos];
        v := 2 * v + BitAt(data[pos / 8], 7 - pos % 8);
        pos := pos + 1;
      }
      assert bits[start..][..n] == bits[start..pos];
      assert bits[start..][n..] == bits[pos..];
    }

    method Ue() returns (v: nat)
      requires Valid()
      modifies this
      ensures Valid() && data == old(data) && Got(v, View()) == ReadUe(old(View()))
    {
      var zeros := 0;
      while !err
        invariant Valid() && data == old(data) && zeros <= 30
        invariant CountZeros(old(View()), 0) == CountZeros(View(), zeros)
        decreases 31 - zeros
      {
        var b := Read(1);
        if b != 0 {
          break;
        }
        zeros := zeros + 1;
        if zeros > 30 {
          err := true;
          return 0;
        }
      }
      assert CountZeros(old(View()), 0) == Zeros(zeros, View(), false);
      var rest := Read(zeros);
      v := Pow2(zeros) - 1 + rest;
    }

    method Se() returns (v: int)
      requires Valid()
      modifies this
      ensures Valid() && data == old(data) && GotSigned(v, View()) == ReadSe(old(View()))
    {
      hide ReadUe;
      var u := Ue();
      if u % 2 == 1 {
        v := (u + 1) / 2;
      } else {
        v := -(u as int) / 2;
      }
    }
  }

  // ------------------------------------------------------------------ writing

  function ToBits(n: nat, v: nat): (r: seq<Bit>)
    ensures |r| == n
  {
    if n == 0 then [] else ToBits(n - 1, v / 2) + [v % 2]
  }

  lemma {:induction false} ValueOfBits(n: nat, v: nat)
    requires v < Pow2(n)
    ensures Value(ToBits(n, v)) == v
  {
    if n > 0 {
      ValueOfBits(n - 1, v / 2);
      assert ToBits(n, v)[..n - 1] == ToBits(n - 1, v / 2);
    }
  }

  function Log2(v: nat): (n: nat)
    requires v >= 1
    ensures Pow2(n) <= v < 2 * Pow2(n)
  {
    if v == 1 then 0 else 1 + Log2(v / 2)
  }

  function PutU(n: nat, v: nat, rest: seq<Bit>): seq<Bit> { ToBits(n, v) + rest }

  function PutZeros(n: nat, rest: seq<Bit>): seq<Bit> { if n == 0 then rest else [0] + PutZeros(n - 1, rest) }

  /** ue(v): as many zeros as the information has bits, a one, the information. */
  function PutUe(v: nat, rest: seq<Bit>): seq<Bit> {
    var n := Log2(v + 1);
    PutZeros(n, [1] + PutU(n, v + 1 - Pow2(n), rest))
  }

  /** se(v): positive values take the odd code numbers. */
  function SignedCode(v: int): nat { if v > 0 then 2 * v - 1 else -2 * v }

  function PutSe(v: int, rest: seq<Bit>): seq<Bit> { PutUe(SignedCode(v), rest) }

  lemma ReadPutU(n: nat, v: nat, rest: seq<Bit>)
    requires n <= 32 && v < Pow2(n)
    ensures ReadU(Cursor(PutU(n, v, rest), false), n) == Got(v, Cursor(rest, false))
  {
    ValueOfBits(n, v);
    assert PutU(n, v, rest)[..n] == ToBits(n, v) && PutU(n, v, rest)[n..] == rest;
  }

  lemma ReadOneBit(b: Bit, rest: seq<Bit>)
    ensures ReadU(Cursor([b] + rest, false), 1) == Got(b, Cursor(rest, false))
  {
    assert ([b] + rest)[..1] == [b] && ([b] + rest)[1..] == rest;
    assert [b][..0] == [];
  }

  lemma {:induction false} CountPutZeros(n: nat, zeros: nat, rest: seq<Bit>)
    requires zeros + n <= 30
    ensures CountZeros(Cursor(PutZeros(n, [1] + rest), false), zeros) == Zeros(zeros + n, Cursor(rest, false), false)
    decreases n
  {
    if n == 0 {
      ReadOneBit(1, rest);
    } else {
      ReadOneBit(0, PutZeros(n - 1, [1] + rest));
      CountPutZeros(n - 1, zeros + 1, rest);
    }
  }

  lemma {:induction false} CountTooManyZeros(n: nat, zeros: nat, rest: seq<Bit>)
    requires zeros <= 30 && zeros + n > 30
    ensures var z := CountZeros(Cursor(PutZeros(n, rest), false), zeros); z.overlong && z.cursor.err
    decreases n
  {
    ReadOneBit(0, PutZeros(n - 1, rest));
    if zeros + 1 <= 30 {
      CountTooManyZeros(n - 1, zeros + 1, rest);
    }
  }

  /** Every code number up to 2^31 - 2 is read back, and every larger one is refused. */
  lemma UeRoundTrip(v: nat, rest: seq<Bit>)
    ensures v <= 0x7FFF_FFFE ==> ReadUe(Cursor(PutUe(v, rest), false)) == Got(v, Cursor(rest, false))
    ensures v > 0x7FFF_FFFE ==> ReadUe(Cursor(PutUe(v, rest), false)).cursor.err
  {
    hide CountZeros, PutZeros, ToBits;
    var n := Log2(v + 1);
    Powers();
    if v <= 0x7FFF_FFFE {
      if n >= 31 {
        Pow2Monotone(31, n);
      }
      CountPutZeros(n, 0, PutU(n, v + 1 - Pow2(n), rest));
      ReadPutU(n, v + 1 - Pow2(n), rest);
    } else {
      if n <= 30 {
        Pow2Monotone(n, 30);
      }
      CountTooManyZeros(n, 0, [1] + PutU(n, v + 1 - Pow2(n), rest));
    }
  }

  lemma SeRoundTrip(v: int, rest: seq<Bit>)
    requires -0x3FFF_FFFF <= v <= 0x3FFF_FFFF
    ensures ReadSe(Cursor(PutSe(v, rest), false)) == GotSigned(v, Cursor(rest, false))
  {
    hide ReadUe, PutUe;
    UeRoundTrip(SignedCode(v), rest);
  }

  // ----------------------------------------------------- emulation prevention

  /** `newRBSP` as a function: a 3 after exactly two zeros is dropped. */
  function Strip(src: seq<Byte>, zeros: nat): seq<Byte> {
    if src == [] then []
    else if zeros == 2 && src[0] == 3 then Strip(src[1..], 0)
    else [src[0]] + Strip(src[1..], if src[0] == 0 then zeros + 1 else 0)
  }

  lemma StripStep(src: seq<Byte>, i: nat, zeros: nat)
    requires i < |src|
    ensures Strip(src[i..], zeros) ==
      if zeros == 2 && src[i] == 3 then Strip(src[i + 1..], 0)
      else [src[i]] + Strip(src[i + 1..], if src[i] == 0 then zeros + 1 else 0)
  {
    assert src[i..][1..] == src[i + 1..];
  }

  lemma Regroup(data: seq<Byte>, b: Byte, rest: seq<Byte>)
    ensures data + ([b] + rest) == data + [b] + rest
  {
  }

  lemma StripNothing(src: seq<Byte>, zeros: nat)
    requires src == []
    ensures Strip(src, zeros) == []
  {
  }

  /** The encoder's side: a 3 before any byte up to 3 that follows two zeros. */
  function Protect(src: seq<Byte>, zeros: nat): seq<Byte> {
    if src == [] then []
    else if zeros == 2 && src[0] <= 3 then [3, src[0]] + Protect(src[1..], if src[0] == 0 then 1 else 0)
    else [src[0]] + Protect(src[1..], if src[0] == 0 then zeros + 1 else 0)
  }

  lemma {:induction false} StripInvertsProtect(src: seq<Byte>, zeros: nat)
    requires zeros <= 2
    ensures Strip(Protect(src, zeros), zeros) == src
    decreases |src|
  {
    if src != [] {
      var next := if src[0] == 0 then (if zeros == 2 then 1 else zeros + 1) else 0;
      StripInvertsProtect(src[1..], next);
      var p := Protect(src, zeros);
      if zeros == 2 && src[0] <= 3 {
        assert p[1..] == [src[0]] + Protect(src[1..], next);
        assert p[1..][1..] == Protect(src[1..], next);
      } else {
        assert p[1..] == Protect(src[1..], next);
      }
      assert src == [src[0]] + src[1..];
    }
  }

  /** No byte below 3 directly after two zeros (section 7.4.1). */
  ghost predicate Clean(s: seq<Byte>, zeros: nat) {
    s == [] || (!(zeros >= 2 && s[0] < 3) && Clean(s[1..], if s[0] == 0 then zeros + 1 else 0))
  }

  lemma {:induction false} ProtectIsClean(src: seq<Byte>, zeros: nat)
    requires zeros <= 2
    ensures Clean(Protect(src, zeros), zeros)
    decreases |src|
  {
    if src != [] {
      var next := if src[0] == 0 then (if zeros == 2 then 1 else zeros + 1) else 0;
      ProtectIsClean(src[1..], next);
      var p := Protect(src, zeros);
      if zeros == 2 && src[0] <= 3 {
        assert p[1..] == [src[0]] + Protect(src[1..], next);
        assert p[1..][1..] == Protect(src[1..], next);
      } else {
        assert p[1..] == Protect(src[1..], next);
      }
    }
  }

  lemma {:induction false} CleanHasNoStartCode(s: seq<Byte>, zeros: nat, i: nat)
    requires Clean(s, zeros) && i + 2 < |s|
    ensures !(s[i] == 0 && s[i + 1] == 0 && s[i + 2] < 3)
    decreases i
  {
    if i == 0 {
      if s[0] == 0 && s[1] == 0 {
        var t := s[1..];
        assert t[0] == s[1] && Clean(t, zeros + 1);
        var u := t[1..];
        assert u[0] == s[2] && Clean(u, zeros + 2);
      }
    } else {
      CleanHasNoStartCode(s[1..], if s[0] == 0 then zeros + 1 else 0, i - 1);
    }
  }

  lemma {:induction false} ProtectKeepsLast(src: seq<Byte>, zeros: nat)
    requires src != []
    ensures var p := Protect(src, zeros); |p| >= |src| && p[|p| - 1] == src[|src| - 1]
    decreases |src|
  {
    if |src| > 1 {
      ProtectKeepsLast(src[1..], if src[0] == 0 then (if zeros == 2 then 1 else zeros + 1) else 0);
    }
  }

  // ------------------------------------------------------------- whole bytes

  /** Bytes of a bit string whose length is a multiple of eight. */
  function Pack(bits: seq<Bit>): (r: seq<Byte>)
    requires |bits| % 8 == 0
    ensures 8 * |r| == |bits|
    decreases |bits|
  {
    if bits == [] then [] else
      assert Pow2(8) == 256;
      [Value(bits[..8])] + Pack(bits[8..])
  }

  /** Appending a low bit shifts the rest up. */
  lemma {:induction false} BitsOfValue(bits: seq<Bit>, k: nat)
    requires k < |bits|
    ensures BitAt(Value(bits), k) == bits[|bits| - 1 - k]
    decreases k
  {
    if k > 0 {
      var short := bits[..|bits| - 1];
      BitsOfValue(short, k - 1);
      assert Value(bits) / 2 == Value(short);
    }
  }

  lemma BitsOfByte(bits: seq<Bit>)
    requires |bits| == 8
    ensures Value(bits) < 256 && BitsOf([Value(bits)]) == bits
  {
    assert Pow2(8) == 256;
    forall i | 0 <= i < 8 ensures BitsOf([Value(bits)])[i] == bits[i] {
      BitsOfValue(bits, 7 - i);
    }
  }

  lemma BitsOfCons(b: Byte, rest: seq<Byte>)
    ensures BitsOf([b] + rest) == BitsOf([b]) + BitsOf(rest)
  {
    hide BitAt;
    var all := [b] + rest;
    forall i | 0 <= i < 8 * |all| ensures BitsOf(all)[i] == (BitsOf([b]) + BitsOf(rest))[i] {
      assert i >= 8 ==> i / 8 == (i - 8) / 8 + 1 && i % 8 == (i - 8) % 8;
    }
  }

  lemma {:induction false} BitsOfPack(bits: seq<Bit>)
    requires |bits| % 8 == 0
    ensures BitsOf(Pack(bits)) == bits
    decreases |bits|
  {
    hide BitsOf, BitAt, Value;
    if bits != [] {
      BitsOfByte(bits[..8]);
      BitsOfPack(bits[8..]);
      BitsOfCons(Value(bits[..8]), Pack(bits[8..]));
      assert bits == bits[..8] + bits[8..];
    }
  }

  /** A one and then zeros up to the next whole byte (section 7.3.2.11). */
  function Trailing(n: nat): (r: seq<Bit>)
    ensures (n + |r|) % 8 == 0 && 1 <= |r| <= 8 && r[0] == 1
  {
    [1] + seq((7 - n % 8) % 8, _ => 0)
  }

  /** What the decoder's reader sees of protected bytes: exactly the bits packed in them. */
  lemma ReaderSeesPacked(bits: seq<Bit>)
    requires |bits| % 8 == 0
    ensures BitsOf(Strip(Protect(Pack(bits), 0), 0)) == bits
  {
    StripInvertsProtect(Pack(bits), 0);
    BitsOfPack(bits);
  }

  /** Bits that end as section 7.3.2.11 asks: whole bytes, the last of them ended by trailing bits. */
  ghost predicate Trailed(bits: seq<Bit>) {
    |bits| % 8 == 0 && exists n :: 0 <= n < |bits| && bits[n..] == Trailing(n)
  }

  /** Then the last byte is not zero, protected or not. */
  lemma TrailedEndsNonZero(bits: seq<Bit>)
    requires Trailed(bits)
    ensures var p := Protect(Pack(bits), 0); p != [] && p[|p| - 1] != 0
  {
    var n :| 0 <= n < |bits| && bits[n..] == Trailing(n);
    var p := Pack(bits);
    BitsOfPack(bits);
    assert n / 8 == |p| - 1 by { assert |bits| - n <= 8; }
    assert bits[n] == bits[n..][0];
    assert BitsOf(p)[n] == bits[n] == 1;
    ZeroHasNoBits(7 - n % 8);
    ProtectKeepsLast(p, 0);
  }

  lemma {:induction false} ZeroHasNoBits(k: nat)
    ensures Shift(0, k) == 0
  {
    if k > 0 {
      ZeroHasNoBits(k - 1);
    }
  }
}
