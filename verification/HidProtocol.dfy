/**
The HID-RPC reports of `internal/input/protocol.go`, and the host that receives
them: what a boot keyboard, an absolute pointer and a relative mouse hold after a
report, as the USB HID class defines them.
*/
module HidProtocol {
  import opened Basics

  const SLOTS := 6
  const COORDINATE := 32767
  const MAX_BUTTONS := 0x1F

  function Zeros(n: nat): (s: seq<Byte>)
    ensures |s| == n && forall i :: 0 <= i < n ==> s[i] == 0
  {
    seq(n, _ => 0)
  }

  /** `binary.BigEndian.PutUint32`. */
  function BigEndian32(v: nat): (s: seq<Byte>)
    requires v < 0x1_0000_0000
    ensures |s| == 4
  {
    [v / 0x100_0000, v / 0x1_0000 % 0x100, v / 0x100 % 0x100, v % 0x100]
  }

  function ReadBigEndian32(s: seq<Byte>): nat
    requires |s| == 4
  {
    s[0] as int * 0x100_0000 + s[1] as int * 0x1_0000 + s[2] as int * 0x100 + s[3] as int
  }

  /** `byte(int8(v))`. */
  function SignedByte(v: int): Byte { v % 0x100 }

  function FromSignedByte(b: Byte): int { if b < 0x80 then b else b - 0x100 }

  function KeyboardReport(modifier: Byte, keys: seq<Byte>): Option<seq<Byte>> {
    if |keys| > SLOTS then None else Some([0x02, modifier] + keys + Zeros(SLOTS - |keys|))
  }

  function PointerReport(x: int, y: int, buttons: Byte): Option<seq<Byte>> {
    if !(0 <= x <= COORDINATE && 0 <= y <= COORDINATE) then None
    else if buttons > MAX_BUTTONS then None
    else Some([0x03] + BigEndian32(x) + BigEndian32(y) + [buttons])
  }

  function RelativeMouseReport(dx: int, dy: int, buttons: Byte): Option<seq<Byte>> {
    if !(-128 <= dx <= 127 && -128 <= dy <= 127) then None
    else if buttons > MAX_BUTTONS then None
    else Some([0x06, SignedByte(dx), SignedByte(dy), buttons])
  }

  const KEEPALIVE: seq<Byte> := [0x09]
  const RELEASED: seq<Byte> := [0x02, 0, 0, 0, 0, 0, 0, 0]

  // ------------------------------------------------------------------- host

  /** A report as its receiver reads it. */
  datatype Report =
    | Keyboard(modifier: Byte, slots: seq<Byte>)
    | Pointer(x: int, y: int, buttons: Byte)
    | Relative(dx: int, dy: int, buttons: Byte)
    | Other

  function Read(frame: seq<Byte>): Report {
    if |frame| == 8 && frame[0] == 0x02 then Keyboard(frame[1], frame[2..])
    else if |frame| == 10 && frame[0] == 0x03 then
      Pointer(ReadBigEndian32(frame[1..5]), ReadBigEndian32(frame[5..9]), frame[9])
    else if |frame| == 4 && frame[0] == 0x06 then
      Relative(FromSignedByte(frame[1]), FromSignedByte(frame[2]), frame[3])
    else Other
  }

  /** What the controlled host believes is pressed. */
  datatype Host = Host(modifier: Byte, keys: set<Byte>, pointerButtons: Byte, mouseButtons: Byte)

  const IDLE := Host(0, {}, 0, 0)

  function Pressed(slots: seq<Byte>): set<Byte> { set k | k in slots && k != 0 }

  function After(h: Host, frame: seq<Byte>): Host {
    match Read(frame)
    case Keyboard(modifier, slots) => h.(modifier := modifier, keys := Pressed(slots))
    case Pointer(_, _, buttons) => h.(pointerButtons := buttons)
    case Relative(_, _, buttons) => h.(mouseButtons := buttons)
    case Other => h
  }

  function AfterAll(h: Host, frames: seq<seq<Byte>>): Host
    decreases |frames|
  {
    if frames == [] then h else After(AfterAll(h, frames[..|frames| - 1]), frames[|frames| - 1])
  }

  // ------------------------------------------------------------- round trips

  lemma BigEndianRoundTrip(v: nat)
    requires v < 0x1_0000_0000
    ensures ReadBigEndian32(BigEndian32(v)) == v
  {
    var a, b, c := v / 0x100_0000, v / 0x1_0000, v / 0x100;
    assert v == 0x100 * c + v % 0x100;
    assert c == 0x100 * b + c % 0x100 by { assert c / 0x100 == b; }
    assert b == 0x100 * a + b % 0x100 by { assert b / 0x100 == a; }
  }

  /** A keyboard report is refused exactly for more than six keys, and otherwise read back as it was meant. */
  lemma KeyboardRoundTrip(modifier: Byte, keys: seq<Byte>)
    ensures KeyboardReport(modifier, keys).Some? <==> |keys| <= 6
    ensures |keys| <= 6 ==>
      var r := Read(KeyboardReport(modifier, keys).value);
      r == Keyboard(modifier, keys + Zeros(6 - |keys|)) && Pressed(r.slots) == Pressed(keys)
  {
    if |keys| <= 6 {
      var frame := KeyboardReport(modifier, keys).value;
      assert frame[2..] == keys + Zeros(6 - |keys|);
      assert Pressed(frame[2..]) == Pressed(keys);
    }
  }

  /** A pointer report carries any coordinate of 0..32767 and any five buttons, and nothing else. */
  lemma PointerRoundTrip(x: int, y: int, buttons: Byte)
    ensures PointerReport(x, y, buttons).Some? <==> 0 <= x <= 32767 && 0 <= y <= 32767 && buttons <= 0x1F
    ensures PointerReport(x, y, buttons).Some? ==> Read(PointerReport(x, y, buttons).value) == Pointer(x, y, buttons)
  {
    if PointerReport(x, y, buttons).Some? {
      var frame := PointerReport(x, y, buttons).value;
      assert frame[1..5] == BigEndian32(x) && frame[5..9] == BigEndian32(y);
      BigEndianRoundTrip(x);
      BigEndianRoundTrip(y);
    }
  }

  lemma RelativeRoundTrip(dx: int, dy: int, buttons: Byte)
    ensures RelativeMouseReport(dx, dy, buttons).Some? <==> -128 <= dx <= 127 && -128 <= dy <= 127 && buttons <= 0x1F
    ensures RelativeMouseReport(dx, dy, buttons).Some? ==> Read(RelativeMouseReport(dx, dy, buttons).value) == Relative(dx, dy, buttons)
  {
  }

  lemma AfterAllGrows(h: Host, frames: seq<seq<Byte>>, frame: seq<Byte>)
    ensures AfterAll(h, frames + [frame]) == After(AfterAll(h, frames), frame)
  {
    assert (frames + [frame])[..|frames|] == frames;
  }

  lemma {:induction false} AfterAllFromFirst(h: Host, frames: seq<seq<Byte>>)
    requires frames != []
    ensures AfterAll(h, frames) == AfterAll(After(h, frames[0]), frames[1..])
    decreases |frames|
  {
    var init := frames[..|frames| - 1];
    if init != [] {
      AfterAllFromFirst(h, init);
      assert init[1..] == frames[1..][..|frames| - 2];
    } else {
      assert frames == [frames[0]];
    }
  }

  /** The three neutral reports release everything, whatever was pressed before. */
  lemma NeutralFramesRelease(h: Host, x: int, y: int)
    requires 0 <= x <= COORDINATE && 0 <= y <= COORDINATE
    ensures KeyboardReport(0, []).Some? && PointerReport(x, y, 0).Some? && RelativeMouseReport(0, 0, 0).Some?
    ensures After(After(After(h, KeyboardReport(0, []).value), PointerReport(x, y, 0).value), RelativeMouseReport(0, 0, 0).value) == IDLE
    ensures KeyboardReport(0, []).value == RELEASED
  {
    KeyboardRoundTrip(0, []);
    PointerRoundTrip(x, y, 0);
    RelativeRoundTrip(0, 0, 0);
    assert Pressed([]) == {};
  }
}
