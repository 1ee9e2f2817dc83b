/**
What executing a compiled action consists of (`internal/input/executor.go`): the frames,
wheel calls and waits of each action in order, when nothing fails. `ticks` is how many
keepalives a key hold sends before its deadline, which the scheduler decides.
*/
module Plans {
  import opened Basics
  import opened HidProtocol
  import opened Coordinates
  import opened Actions
  import K = Keys

  datatype Op =
    | Hid(frame: seq<Byte>)
    | Wheel(dy: int, dx: int)
    | Flush
    | Paused(duration: int)
    | Armed(duration: int)
    | Capture

  predicate InRange(p: Point) { 0 <= p.x <= COORDINATE && 0 <= p.y <= COORDINATE }

  /** What compilation guarantees about an action, whichever its type. */
  predicate WellFormed(c: Compiled) {
    && c.button <= MAX_BUTTONS && |c.keys| <= SLOTS && c.duration >= 0
    && (c.kind in {Move, Click, DoubleClick} ==> InRange(c.point))
    && (c.kind.Drag? ==> 2 <= |c.path| && forall i :: 0 <= i < |c.path| ==> InRange(c.path[i]))
    && !c.kind.UnknownAction?
  }

  /** The captured frame is at most 2^48 pixels each way. */
  predicate ScreenFits(b: Option<Binding>) {
    b.Some? ==> b.value.width <= 0x1_0000_0000_0000 && b.value.height <= 0x1_0000_0000_0000
  }

  lemma BoundPointInRange(p: Point, b: Option<Binding>, generation: nat, now: int, maxAge: int)
    requires ScreenFits(b) && BindPoint(p, b, generation, now, maxAge).Ok?
    ensures InRange(BindPoint(p, b, generation, now, maxAge).value)
  {
    hide Nearest, ScaleCoordinate, Fits;
    ScreensFit(p.x, b.value.width);
    ScreensFit(p.y, b.value.height);
    ScaledIsNearestIffFits(p.x, b.value.width);
    ScaledIsNearestIffFits(p.y, b.value.height);
  }

  /** No report of a compiled action is refused as malformed. */
  lemma CompiledIsWellFormed(a: Action, c: Context)
    requires (forall n :: n in a.keys ==> K.KnownName(n)) && OutcomeIn(a, c).Ok? && ScreenFits(c.binding)
    ensures WellFormed(OutcomeIn(a, c).value.0) && OutcomeIn(a, c).value.0.kind == a.kind
  {
    hide ScaleCoordinate, BindPoint, BindAll;
    if a.kind in {Move, Click, DoubleClick} {
      BoundPointInRange(a.point, c.binding, c.generation, c.now, c.limits.maxObservationAge);
    }
    if a.kind.Drag? {
      var item := OutcomeIn(a, c).value.0;
      forall i | 0 <= i < |item.path| ensures InRange(item.path[i]) {
        BoundPointInRange(a.path[i], c.binding, c.generation, c.now, c.limits.maxObservationAge);
      }
    }
  }

  function PointerFrame(p: Point, buttons: Byte): seq<Byte>
    requires InRange(p) && buttons <= MAX_BUTTONS
  {
    PointerReport(p.x, p.y, buttons).value
  }

  function Press(modifier: Byte, keys: seq<Byte>, l: Limits): seq<Op>
    requires |keys| <= SLOTS
  {
    [Hid(KeyboardReport(modifier, keys).value), Paused(l.keyHold), Hid(RELEASED), Paused(l.interKey)]
  }

  function ClickPlan(p: Point, button: Byte): seq<Op>
    requires InRange(p) && button <= MAX_BUTTONS
  {
    [Hid(PointerFrame(p, 0)), Hid(PointerFrame(p, button)), Hid(PointerFrame(p, 0))]
  }

  function DragMoves(path: seq<Point>, button: Byte): (ops: seq<Op>)
    requires button <= MAX_BUTTONS && forall i :: 0 <= i < |path| ==> InRange(path[i])
    ensures |ops| == |path|
  {
    seq(|path|, i requires 0 <= i < |path| => Hid(PointerFrame(path[i], button)))
  }

  function DragPlan(path: seq<Point>, button: Byte): seq<Op>
    requires button <= MAX_BUTTONS && path != [] && forall i :: 0 <= i < |path| ==> InRange(path[i])
  {
    [Hid(PointerFrame(path[0], 0))] + DragMoves(path, button) + [Hid(PointerFrame(path[|path| - 1], 0))]
  }

  function TextPlan(text: seq<K.Keystroke>, l: Limits): seq<Op> {
    if text == [] then []
    else TextPlan(text[..|text| - 1], l) + Press(text[|text| - 1].modifier, [text[|text| - 1].key], l)
  }

  function KeepAlives(n: nat): (ops: seq<Op>)
    ensures |ops| == n
  {
    seq(n, _ => Hid(KEEPALIVE))
  }

  function HoldStart(c: Compiled, n: nat): seq<Op>
    requires |c.keys| <= SLOTS
  {
    [Hid(KeyboardReport(c.modifier, c.keys).value), Flush, Armed(c.duration)] + KeepAlives(n)
  }

  function Plan(c: Compiled, l: Limits, ticks: nat): seq<Op>
    requires WellFormed(c)
  {
    match c.kind
    case Move => [Hid(PointerFrame(c.point, 0))]
    case Click => ClickPlan(c.point, c.button)
    case DoubleClick => ClickPlan(c.point, c.button) + [Paused(l.doubleClickDelay)] + ClickPlan(c.point, c.button)
    case Drag => DragPlan(c.path, c.button)
    case Scroll => [Wheel(c.deltaY, c.deltaX)]
    case KeyHold => HoldStart(c, ticks) + [Hid(RELEASED)]
    case Keypress => Press(c.modifier, c.keys, l)
    case TypeText => TextPlan(c.text, l)
    case Wait => [Paused(c.duration)]
    case Screenshot => [Capture]
  }

  function PlanAll(cs: seq<Compiled>, l: Limits, ticks: seq<nat>): seq<Op>
    requires |ticks| == |cs| && forall i :: 0 <= i < |cs| ==> WellFormed(cs[i])
  {
    if cs == [] then []
    else PlanAll(cs[..|cs| - 1], l, ticks[..|cs| - 1]) + Plan(cs[|cs| - 1], l, ticks[|cs| - 1])
  }

  // ------------------------------------------------------------------- time

  /** The time an operation schedules for itself. */
  function Length(op: Op): int {
    match op
    case Paused(d) => d
    case Armed(d) => d
    case _ => 0
  }

  function Scheduled(ops: seq<Op>): int {
    if ops == [] then 0 else Scheduled(ops[..|ops| - 1]) + Length(ops[|ops| - 1])
  }

  lemma {:induction false} ScheduledAdds(a: seq<Op>, b: seq<Op>)
    ensures Scheduled(a + b) == Scheduled(a) + Scheduled(b)
    decreases |b|
  {
    if b == [] {
      assert a + b == a;
    } else {
      ScheduledAdds(a, b[..|b| - 1]);
      assert (a + b)[..|a + b| - 1] == a + b[..|b| - 1];
    }
  }

  lemma {:induction false} NoTime(ops: seq<Op>)
    requires forall i :: 0 <= i < |ops| ==> Length(ops[i]) == 0
    ensures Scheduled(ops) == 0
  {
    if ops != [] { NoTime(ops[..|ops| - 1]); }
  }

  lemma PauseTakes(d: int)
    ensures Scheduled([Paused(d)]) == d
  {
    assert Scheduled([Paused(d)]) == Scheduled([Paused(d)][..0]) + d;
  }

  lemma PressTakes(modifier: Byte, keys: seq<Byte>, l: Limits)
    requires |keys| <= SLOTS
    ensures Scheduled(Press(modifier, keys, l)) == l.keyHold + l.interKey
  {
    var press, hold, release, rest := [Hid(KeyboardReport(modifier, keys).value)], [Paused(l.keyHold)], [Hid(RELEASED)], [Paused(l.interKey)];
    NoTime(press);
    NoTime(release);
    PauseTakes(l.keyHold);
    PauseTakes(l.interKey);
    ScheduledAdds(press, hold);
    ScheduledAdds(press + hold, release);
    ScheduledAdds(press + hold + release, rest);
    assert Press(modifier, keys, l) == press + hold + release + rest;
  }

  lemma {:induction false} TextTakes(text: seq<K.Keystroke>, l: Limits)
    ensures Scheduled(TextPlan(text, l)) == |text| * (l.keyHold + l.interKey)
  {
    hide Press;
    if text != [] {
      var init, last := text[..|text| - 1], text[|text| - 1];
      TextTakes(init, l);
      PressTakes(last.modifier, [last.key], l);
      ScheduledAdds(TextPlan(init, l), Press(last.modifier, [last.key], l));
      assert |text| * (l.keyHold + l.interKey) == (|text| - 1) * (l.keyHold + l.interKey) + (l.keyHold + l.interKey);
    }
  }

  lemma HoldTakes(c: Compiled, ticks: nat)
    requires |c.keys| <= SLOTS
    ensures Scheduled(HoldStart(c, ticks) + [Hid(RELEASED)]) == c.duration
  {
    var press, arm, rest := [Hid(KeyboardReport(c.modifier, c.keys).value), Flush], [Armed(c.duration)], KeepAlives(ticks) + [Hid(RELEASED)];
    NoTime(press);
    NoTime(rest);
    ScheduledAdds(press, arm);
    ScheduledAdds(press + arm, rest);
    assert Scheduled(arm) == Scheduled(arm[..0]) + c.duration;
    assert HoldStart(c, ticks) + [Hid(RELEASED)] == press + arm + rest;
  }

  lemma DoubleClickTakes(p: Point, button: Byte, delay: int)
    requires InRange(p) && button <= MAX_BUTTONS
    ensures Scheduled(ClickPlan(p, button) + [Paused(delay)] + ClickPlan(p, button)) == delay
  {
    hide PointerFrame;
    NoTime(ClickPlan(p, button));
    ScheduledAdds(ClickPlan(p, button), [Paused(delay)]);
    ScheduledAdds(ClickPlan(p, button) + [Paused(delay)], ClickPlan(p, button));
    assert Scheduled([Paused(delay)]) == Scheduled([Paused(delay)][..0]) + delay;
  }

  /** The waits of an action never exceed what compilation estimated for it. */
  lemma PlanWithinEstimate(a: Action, c: Context, ticks: nat)
    requires (forall n :: n in a.keys ==> K.KnownName(n)) && OutcomeIn(a, c).Ok? && ScreenFits(c.binding)
    ensures WellFormed(OutcomeIn(a, c).value.0)
    ensures 0 <= Scheduled(Plan(OutcomeIn(a, c).value.0, c.limits, ticks)) <= OutcomeIn(a, c).value.1
  {
    hide ScaleCoordinate, BindPoint, BindAll, PointerFrame, KeyboardReport, Press, HoldStart, ClickPlan, TextPlan, DragPlan, Scheduled, WellFormed;
    CompiledIsWellFormed(a, c);
    var item := OutcomeIn(a, c).value.0;
    WellFormedParts(item);
    match a.kind
    case Click => NoTimeInPointers(item);
    case Move => NoTimeInPointers(item);
    case Drag => NoTimeInPointers(item);
    case DoubleClick => DoubleClickTakes(item.point, item.button, c.limits.doubleClickDelay);
    case Scroll => NoTime([Wheel(item.deltaY, item.deltaX)]);
    case KeyHold => HoldTakes(item, ticks);
    case Keypress => PressTakes(item.modifier, item.keys, c.limits);
    case TypeText =>
      TextTakes(item.text, c.limits);
      assert |item.text| * (c.limits.keyHold + c.limits.interKey) >= 0;
    case Wait => PauseTakes(item.duration);
    case Screenshot => NoTime([Capture]);
  }

  lemma WellFormedParts(c: Compiled)
    requires WellFormed(c)
    ensures c.button <= MAX_BUTTONS && |c.keys| <= SLOTS
    ensures c.kind in {Move, Click, DoubleClick} ==> InRange(c.point)
  {
  }

  lemma NoTimeInPointers(c: Compiled)
    requires WellFormed(c) && c.kind in {Move, Click, Drag}
    ensures forall l: Limits, ticks: nat :: Scheduled(Plan(c, l, ticks)) == 0
  {
    hide PointerFrame, Scheduled;
    forall l: Limits, ticks: nat ensures Scheduled(Plan(c, l, ticks)) == 0 { NoTime(Plan(c, l, ticks)); }
  }

  /** The waits of an accepted batch total at most its estimate, hence at most the batch limit. */
  lemma {:induction false} BatchWithinEstimate(actions: seq<Action>, c: Context, cs: seq<Compiled>, ticks: seq<nat>)
    requires Named(actions) && AllCompile(actions, c) && ScreenFits(c.binding)
    requires |cs| == |actions| == |ticks|
    requires forall i :: 0 <= i < |cs| ==> cs[i] == OutcomeIn(actions[i], c).value.0
    ensures forall i :: 0 <= i < |cs| ==> WellFormed(cs[i])
    ensures Scheduled(PlanAll(cs, c.limits, ticks)) <= TotalCost(actions, c)
    ensures Acceptable(actions, c) ==> Scheduled(PlanAll(cs, c.limits, ticks)) <= c.limits.maxBatchDuration
  {
    hide ActionOutcome, Plan, WellFormed;
    if actions != [] {
      var n := |actions| - 1;
      assert Named(actions[..n]) && AllCompile(actions[..n], c);
      BatchWithinEstimate(actions[..n], c, cs[..n], ticks[..n]);
      assert OutcomeIn(actions[n], c).Ok?;
      PlanWithinEstimate(actions[n], c, ticks[n]);
      assert forall i :: 0 <= i < |cs| ==> cs[i] == if i < n then cs[..n][i] else cs[n];
      ScheduledAdds(PlanAll(cs[..n], c.limits, ticks[..n]), Plan(cs[n], c.limits, ticks[n]));
    }
  }

  predicate TakesTime(ops: seq<Op>) { forall i :: 0 <= i < |ops| ==> Length(ops[i]) >= 0 }

  lemma {:induction false} TextPlanTakesTime(text: seq<K.Keystroke>, l: Limits)
    ensures TakesTime(TextPlan(text, l))
  {
    if text != [] { TextPlanTakesTime(text[..|text| - 1], l); }
  }

  lemma PlanTakesTime(c: Compiled, l: Limits, ticks: nat)
    requires WellFormed(c)
    ensures TakesTime(Plan(c, l, ticks))
  {
    hide PointerFrame, KeyboardReport;
    TextPlanTakesTime(c.text, l);
  }

  lemma {:induction false} PrefixTakesLess(a: seq<Op>, b: seq<Op>)
    requires a <= b && TakesTime(b)
    ensures Scheduled(a) <= Scheduled(b)
    decreases |b|
  {
    if |a| < |b| {
      PrefixTakesLess(a, b[..|b| - 1]);
    } else {
      assert a == b;
    }
  }

  /** However far a batch got, the waits it scheduled stay within the batch limit. */
  lemma RunWithinBudget(actions: seq<Action>, c: Context, cs: seq<Compiled>, n: nat, ticks: seq<nat>, partial: seq<Op>)
    requires Named(actions) && Acceptable(actions, c) && ScreenFits(c.binding)
    requires |cs| == |actions| == |ticks| && n <= |cs|
    requires forall i :: 0 <= i < |cs| ==> cs[i] == OutcomeIn(actions[i], c).value.0 && WellFormed(cs[i])
    requires if n == |cs| then partial == [] else partial <= Plan(cs[n], c.limits, ticks[n])
    ensures Scheduled(PlanAll(cs[..n], c.limits, ticks[..n]) + partial) <= TotalCost(actions, c) <= c.limits.maxBatchDuration
  {
    hide ActionOutcome, Plan, WellFormed, Scheduled, TotalWait;
    var done := PlanAll(cs[..n], c.limits, ticks[..n]);
    ScheduledAdds(done, partial);
    if n == |cs| {
      BatchWithinEstimate(actions, c, cs, ticks);
      assert cs[..n] == cs && ticks[..n] == ticks && done + partial == done;
    } else {
      var some := actions[..n + 1];
      TotalsGrow(actions, n + 1, c);
      assert Named(some);
      PlanTakesTime(cs[n], c.limits, ticks[n]);
      PrefixTakesLess(partial, Plan(cs[n], c.limits, ticks[n]));
      BatchWithinEstimate(some, c, cs[..n + 1], ticks[..n + 1]);
      assert cs[..n + 1][..n] == cs[..n] && ticks[..n + 1][..n] == ticks[..n];
      ScheduledAdds(done, Plan(cs[n], c.limits, ticks[n]));
    }
  }

  /** With the default limits no estimate and no running total leaves 64 bits. */
  lemma DefaultEstimatesFit(a: Action, c: Context, before: int)
    requires (forall n :: n in a.keys ==> K.KnownName(n)) && OutcomeIn(a, c).Ok? && c.limits == DEFAULTS
    requires 0 <= before <= c.limits.maxBatchDuration
    ensures 0 <= OutcomeIn(a, c).value.1 && before + OutcomeIn(a, c).value.1 < TWO63
  {
    hide ScaleCoordinate, BindPoint, BindAll;
    if a.kind.TypeText? { assert |a.text| * 40_000_000 <= 4096 * 40_000_000; }
  }
}
