/**
What the controlled host makes of the frames of an action that ran to its end: the text it
reads, the buttons it sees go down, and that nothing stays pressed.
*/
module HostView {
  import opened Basics
  import opened HidProtocol
  import opened Actions
  import opened Plans
  import K = Keys

  /** The frames among the operations of a plan. */
  function FramesOf(ops: seq<Op>): seq<seq<Byte>> {
    if ops == [] then []
    else FramesOf(ops[..|ops| - 1]) + (if ops[|ops| - 1].Hid? then [ops[|ops| - 1].frame] else [])
  }

  /** What a report writes on a host that held `h`: the legend of a key that was not down before. */
  function WrittenBy(h: Host, frame: seq<Byte>): seq<K.Rune> {
    match Read(frame)
    case Keyboard(modifier, slots) =>
      if |slots| == SLOTS && slots[0] != 0 && slots[0] !in h.keys && K.Typed(K.Keystroke(modifier, slots[0])).Some?
      then [K.Typed(K.Keystroke(modifier, slots[0])).value] else []
    case _ => []
  }

  function Written(h: Host, frames: seq<seq<Byte>>): seq<K.Rune> {
    if frames == [] then []
    else Written(h, frames[..|frames| - 1]) + WrittenBy(AfterAll(h, frames[..|frames| - 1]), frames[|frames| - 1])
  }

  lemma {:induction false} FramesAdd(a: seq<Op>, b: seq<Op>)
    ensures FramesOf(a + b) == FramesOf(a) + FramesOf(b)
    decreases |b|
  {
    if b == [] {
      assert a + b == a;
    } else {
      FramesAdd(a, b[..|b| - 1]);
      assert (a + b)[..|a + b| - 1] == a + b[..|b| - 1];
    }
  }

  lemma {:induction false} HostAdds(h: Host, a: seq<seq<Byte>>, b: seq<seq<Byte>>)
    ensures AfterAll(h, a + b) == AfterAll(AfterAll(h, a), b)
    ensures Written(h, a + b) == Written(h, a) + Written(AfterAll(h, a), b)
    decreases |b|
  {
    hide After, WrittenBy;
    if b == [] {
      assert a + b == a;
    } else {
      HostAdds(h, a, b[..|b| - 1]);
      assert (a + b)[..|a + b| - 1] == a + b[..|b| - 1];
    }
  }

  lemma OneFrame(h: Host, op: Op)
    ensures FramesOf([op]) == if op.Hid? then [op.frame] else []
    ensures AfterAll(h, []) == h && Written(h, []) == []
    ensures op.Hid? ==> AfterAll(h, [op.frame]) == After(h, op.frame) && Written(h, [op.frame]) == WrittenBy(h, op.frame)
  {
    assert [op][..0] == [];
    if op.Hid? { assert [op.frame][..0] == []; }
  }

  // ------------------------------------------------------------------- keys

  /** A press and its release: the host writes what the key is for, and holds nothing afterwards. */
  lemma PressArrives(modifier: Byte, keys: seq<Byte>, l: Limits)
    requires |keys| <= SLOTS
    ensures
      var frames := FramesOf(Press(modifier, keys, l));
      && frames == [KeyboardReport(modifier, keys).value, RELEASED]
      && AfterAll(IDLE, frames) == IDLE
      && AfterAll(IDLE, frames[..1]) == IDLE.(modifier := modifier, keys := Pressed(keys))
      && (|keys| == 1 && keys[0] != 0 && K.Typed(K.Keystroke(modifier, keys[0])).Some? ==>
            Written(IDLE, frames) == [K.Typed(K.Keystroke(modifier, keys[0])).value])
  {
    hide K.Typed;
    var down := KeyboardReport(modifier, keys).value;
    var ops := Press(modifier, keys, l);
    PressFrames(modifier, keys, l);
    KeyboardRoundTrip(modifier, keys);
    NeutralFramesRelease(IDLE, 0, 0);
    OneFrame(IDLE, Hid(down));
    var held := After(IDLE, down);
    OneFrame(held, Hid(RELEASED));
    HostAdds(IDLE, [down], [RELEASED]);
    assert [down, RELEASED][..1] == [down] && [down] + [RELEASED] == [down, RELEASED];
    ReleaseReads();
  }

  lemma PressFrames(modifier: Byte, keys: seq<Byte>, l: Limits)
    requires |keys| <= SLOTS
    ensures FramesOf(Press(modifier, keys, l)) == [KeyboardReport(modifier, keys).value, RELEASED]
  {
    var ops := Press(modifier, keys, l);
    var a, b, c, d := [ops[0]], [ops[1]], [ops[2]], [ops[3]];
    FramesAdd(a, b);
    FramesAdd(a + b, c);
    FramesAdd(a + b + c, d);
    assert ops == a + b + c + d;
    assert a[..0] == [] && b[..0] == [] && c[..0] == [] && d[..0] == [];
  }

  lemma ReleaseReads()
    ensures Read(RELEASED) == Keyboard(0, [0, 0, 0, 0, 0, 0]) && forall h: Host :: After(h, RELEASED) == h.(modifier := 0, keys := {})
    ensures forall h: Host :: WrittenBy(h, RELEASED) == []
  {
    assert RELEASED[2..] == [0, 0, 0, 0, 0, 0];
    assert Pressed([0, 0, 0, 0, 0, 0]) == {};
  }

  /** Text that compiles arrives: the host reads exactly it, and nothing stays pressed. */
  lemma {:induction false} TextArrives(text: seq<K.Rune>, l: Limits)
    requires forall i :: 0 <= i < |text| ==> K.Printable(text[i])
    ensures
      var frames := FramesOf(TextPlan(K.Strokes(text), l));
      Written(IDLE, frames) == text && AfterAll(IDLE, frames) == IDLE
  {
    hide K.Typed, K.UsRune, Press, WrittenBy, After;
    var strokes := K.Strokes(text);
    if text != [] {
      var n := |text| - 1;
      TextArrives(text[..n], l);
      assert strokes[..n] == K.Strokes(text[..n]);
      K.StrokeWritesRune(text[n]);
      StrokeHasKey(text[n]);
      var s := strokes[n];
      PressArrives(s.modifier, [s.key], l);
      FramesAdd(TextPlan(strokes[..n], l), Press(s.modifier, [s.key], l));
      HostAdds(IDLE, FramesOf(TextPlan(strokes[..n], l)), FramesOf(Press(s.modifier, [s.key], l)));
      assert text == text[..n] + [text[n]];
    }
  }

  lemma StrokeHasKey(v: K.Rune)
    requires K.Printable(v)
    ensures K.UsRune(v).Some? && K.UsRune(v).value.key != 0
  {
    K.StrokeWritesRune(v);
  }

  /** A hold keeps the chord down through all keepalives, until its release. */
  lemma HoldArrives(c: Compiled, ticks: nat)
    requires |c.keys| <= SLOTS
    ensures AfterAll(IDLE, FramesOf(HoldStart(c, ticks))) == IDLE.(modifier := c.modifier, keys := Pressed(c.keys))
    ensures AfterAll(IDLE, FramesOf(HoldStart(c, ticks) + [Hid(RELEASED)])) == IDLE
  {
    hide After;
    var down := KeyboardReport(c.modifier, c.keys).value;
    var a, b, d, e := [Hid(down)], [Flush], [Armed(c.duration)], KeepAlives(ticks);
    var held := IDLE.(modifier := c.modifier, keys := Pressed(c.keys));
    PressArrives(c.modifier, c.keys, DEFAULTS);
    assert FramesOf(Press(c.modifier, c.keys, DEFAULTS))[..1] == [down];
    FramesAdd(a, b);
    FramesAdd(a + b, d);
    FramesAdd(a + b + d, e);
    FramesAdd(a + b + d + e, [Hid(RELEASED)]);
    assert a[..0] == [] && b[..0] == [] && d[..0] == [];
    assert HoldStart(c, ticks) == a + b + d + e;
    assert FramesOf(a + b + d) == [down];
    KeepAlivesHold(held, ticks);
    HostAdds(IDLE, [down], FramesOf(e));
    OneFrame(held, Hid(RELEASED));
    HostAdds(IDLE, FramesOf(HoldStart(c, ticks)), [RELEASED]);
    ReleaseReads();
  }

  lemma {:induction false} KeepAlivesHold(h: Host, n: nat)
    ensures AfterAll(h, FramesOf(KeepAlives(n))) == h
  {
    if n > 0 {
      KeepAlivesHold(h, n - 1);
      assert KeepAlives(n)[..n - 1] == KeepAlives(n - 1);
      AfterAllGrows(h, FramesOf(KeepAlives(n - 1)), KEEPALIVE);
    }
  }

  // ---------------------------------------------------------------- pointer

  /** The reports of a plan as the host reads them. */
  function Reports(frames: seq<seq<Byte>>): seq<Report> {
    seq(|frames|, i requires 0 <= i < |frames| => Read(frames[i]))
  }

  function At(p: Point, buttons: Byte): Report { Pointer(p.x, p.y, buttons) }

  lemma PointerReads(h: Host, p: Point, buttons: Byte)
    requires InRange(p) && buttons <= MAX_BUTTONS
    ensures Read(PointerFrame(p, buttons)) == At(p, buttons)
    ensures After(h, PointerFrame(p, buttons)) == h.(pointerButtons := buttons)
  {
    PointerRoundTrip(p.x, p.y, buttons);
  }

  lemma {:induction false} FramesOfHids(ops: seq<Op>)
    requires forall i :: 0 <= i < |ops| ==> ops[i].Hid?
    ensures |FramesOf(ops)| == |ops| && forall i :: 0 <= i < |ops| ==> FramesOf(ops)[i] == ops[i].frame
  {
    if ops != [] { FramesOfHids(ops[..|ops| - 1]); }
  }

  lemma {:induction false} LastPointerHolds(h: Host, frames: seq<seq<Byte>>)
    requires forall i :: 0 <= i < |frames| ==> Read(frames[i]).Pointer?
    ensures AfterAll(h, frames) == if frames == [] then h else h.(pointerButtons := Read(frames[|frames| - 1]).buttons)
  {
    if frames != [] { LastPointerHolds(h, frames[..|frames| - 1]); }
  }

  /** A click moves to the point, presses there and lets go. */
  lemma ClickArrives(p: Point, button: Byte)
    requires InRange(p) && button <= MAX_BUTTONS
    ensures Reports(FramesOf(ClickPlan(p, button))) == [At(p, 0), At(p, button), At(p, 0)]
    ensures AfterAll(IDLE, FramesOf(ClickPlan(p, button))) == IDLE
  {
    hide PointerFrame, Read, After;
    FramesOfHids(ClickPlan(p, button));
    PointerReads(IDLE, p, 0);
    PointerReads(IDLE, p, button);
    LastPointerHolds(IDLE, FramesOf(ClickPlan(p, button)));
  }

  /** A drag goes to the first point, holds the button along every point of the path, and lets go at the last. */
  lemma DragArrives(path: seq<Point>, button: Byte)
    requires button <= MAX_BUTTONS && path != [] && forall i :: 0 <= i < |path| ==> InRange(path[i])
    ensures
      Reports(FramesOf(DragPlan(path, button))) ==
        [At(path[0], 0)] + seq(|path|, i requires 0 <= i < |path| => At(path[i], button)) + [At(path[|path| - 1], 0)]
    ensures AfterAll(IDLE, FramesOf(DragPlan(path, button))) == IDLE
  {
    hide PointerFrame, Read, After;
    var ops := DragPlan(path, button);
    FramesOfHids(ops);
    forall i | 0 <= i < |ops| ensures Read(ops[i].frame) == if i == 0 then At(path[0], 0) else if i <= |path| then At(path[i - 1], button) else At(path[|path| - 1], 0) {
      PointerReads(IDLE, if i == 0 then path[0] else if i <= |path| then path[i - 1] else path[|path| - 1], if 0 < i <= |path| then button else 0);
    }
    LastPointerHolds(IDLE, FramesOf(ops));
  }

  /** Whatever the action, a plan that ran to its end on an idle host leaves it idle. */
  lemma PlanReleases(c: Compiled, l: Limits, ticks: nat)
    requires WellFormed(c)
    ensures AfterAll(IDLE, FramesOf(Plan(c, l, ticks))) == IDLE
  {
    hide PointerFrame, After, Press, TextPlan, HoldStart, DragPlan, ClickPlan;
    match c.kind
    case Move =>
      PointerReads(IDLE, c.point, 0);
      OneFrame(IDLE, Hid(PointerFrame(c.point, 0)));
    case Click => ClickArrives(c.point, c.button);
    case DoubleClick =>
      var one, pause := ClickPlan(c.point, c.button), [Paused(l.doubleClickDelay)];
      ClickArrives(c.point, c.button);
      OneFrame(IDLE, pause[0]);
      FramesAdd(one, pause);
      FramesAdd(one + pause, one);
      assert FramesOf(one) + [] == FramesOf(one);
      HostAdds(IDLE, FramesOf(one), FramesOf(one));
    case Drag => DragArrives(c.path, c.button);
    case Scroll => OneFrame(IDLE, Wheel(c.deltaY, c.deltaX));
    case KeyHold => HoldArrives(c, ticks);
    case Keypress => PressArrives(c.modifier, c.keys, l);
    case TypeText => StrokesRelease(c.text, l);
    case Wait => OneFrame(IDLE, Paused(c.duration));
    case Screenshot => OneFrame(IDLE, Capture);
  }

  lemma {:induction false} StrokesRelease(text: seq<K.Keystroke>, l: Limits)
    ensures AfterAll(IDLE, FramesOf(TextPlan(text, l))) == IDLE
  {
    hide Press, After;
    if text != [] {
      var n := |text| - 1;
      StrokesRelease(text[..n], l);
      PressArrives(text[n].modifier, [text[n].key], l);
      FramesAdd(TextPlan(text[..n], l), Press(text[n].modifier, [text[n].key], l));
      HostAdds(IDLE, FramesOf(TextPlan(text[..n], l)), FramesOf(Press(text[n].modifier, [text[n].key], l)));
    }
  }
}
