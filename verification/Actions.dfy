/**
Compiling a batch of input actions (`internal/input/actions.go`), and what the
executor will do with a compiled action: its frames and its waits. Durations and
instants are whole nanoseconds.
*/
module Actions {
  import opened Basics
  import opened HidProtocol
  import opened Coordinates
  import K = Keys

  const SECOND := 1_000_000_000
  const MAX_KEY_HOLD := 12 * SECOND

  datatype ActionType = Move | Click | DoubleClick | Drag | Scroll | Keypress | KeyHold | TypeText | Wait | Screenshot | UnknownAction

  datatype Button = Unspecified | Left | Right | Middle | Back | Forward | UnknownButton

  datatype Point = Point(x: int, y: int)

  /** The union of all action fields; the zero value of a field means it is absent. */
  datatype Action = Action(
    kind: ActionType, point: Point, button: Button, path: seq<Point>, deltaX: int, deltaY: int,
    keys: seq<K.KeyName>, text: seq<K.Rune>, textValid: bool, duration: int)

  /** `capturedAt == None` is Go's zero time. */
  datatype Binding = Binding(hasId: bool, generation: nat, width: int, height: int, capturedAt: Option<int>)

  datatype LimitValues = LimitValues(
    keyHold: int, interKey: int, doubleClickDelay: int, maxActions: int,
    maxBatchDuration: int, maxWaitDuration: int, maxTotalWait: int, maxObservationAge: int)

  const DEFAULTS := LimitValues(20_000_000, 20_000_000, 100_000_000, 16, 15 * SECOND, 5 * SECOND, 10 * SECOND, 30 * SECOND)

  /** `validateLimits`. */
  predicate LimitsValid(l: LimitValues) {
    && l.keyHold >= 0 && l.interKey >= 0 && l.doubleClickDelay >= 0
    && 0 < l.maxActions <= 16
    && 0 < l.maxWaitDuration <= l.maxTotalWait <= l.maxBatchDuration
    && l.maxObservationAge > 0
  }

  type Limits = l: LimitValues | LimitsValid(l) witness DEFAULTS

  datatype ActionError = InvalidAction | StaleGeneration | StaleObservation | KeyFailed(error: K.KeyError)

  datatype Result<+T> = Ok(value: T) | Err(error: ActionError)

  datatype Compiled = Compiled(
    kind: ActionType, point: Point, button: Byte, path: seq<Point>, deltaX: int, deltaY: int,
    keys: seq<Byte>, modifier: Byte, text: seq<K.Keystroke>, duration: int, expires: Option<int>)

  // -------------------------------------------------------------- one action

  /** `validateFields`: only the fields of the action's own type may be set. */
  predicate FieldsFit(a: Action) {
    var point := a.point != Point(0, 0);
    var button, path, delta := a.button != Unspecified, a.path != [], a.deltaX != 0 || a.deltaY != 0;
    var keys, text, duration := a.keys != [], a.text != [] || !a.textValid, a.duration != 0;
    match a.kind
    case Move => !(button || path || delta || keys || text || duration)
    case Click => !(path || delta || keys || text || duration)
    case DoubleClick => !(path || delta || keys || text || duration)
    case Drag => !(point || delta || keys || text || duration)
    case Scroll => !(point || button || path || keys || text || duration)
    case KeyHold => !(point || button || path || delta || text || !keys || !duration)
    case Keypress => !(point || button || path || delta || text || duration)
    case TypeText => !(point || button || path || delta || keys || duration)
    case Wait => !(point || button || path || delta || keys || text)
    case Screenshot => !(point || button || path || delta || keys || text || duration)
    case UnknownAction => false
  }

  predicate Bound(b: Option<Binding>) {
    b.Some? && b.value.hasId && b.value.width > 0 && b.value.height > 0 && b.value.capturedAt.Some?
  }

  /** `bindPoint`. */
  function BindPoint(p: Point, b: Option<Binding>, generation: nat, now: int, maxAge: int): Result<Point> {
    if !Bound(b) then Err(InvalidAction)
    else if b.value.generation != generation then Err(StaleGeneration)
    else if !(0 <= now - b.value.capturedAt.value <= maxAge) then Err(StaleObservation)
    else if !(0 <= p.x < b.value.width && 0 <= p.y < b.value.height) then Err(InvalidAction)
    else Ok(Point(ScaleCoordinate(p.x, b.value.width), ScaleCoordinate(p.y, b.value.height)))
  }

  function ButtonMask(b: Button): Result<Byte> {
    match b
    case Unspecified => Ok(1)
    case Left => Ok(1)
    case Right => Ok(2)
    case Middle => Ok(4)
    case Back => Ok(8)
    case Forward => Ok(16)
    case UnknownButton => Err(InvalidAction)
  }

  /** The points of a drag, or the error of the first that cannot be bound. */
  function BindAll(path: seq<Point>, b: Option<Binding>, generation: nat, now: int, maxAge: int): (r: Result<seq<Point>>)
    ensures r.Ok? ==> |r.value| == |path|
    ensures r.Ok? ==> forall i :: 0 <= i < |path| ==> BindPoint(path[i], b, generation, now, maxAge) == Ok(r.value[i])
  {
    if path == [] then Ok([])
    else
      var init := BindAll(path[..|path| - 1], b, generation, now, maxAge);
      if init.Err? then init
      else
        var last := BindPoint(path[|path| - 1], b, generation, now, maxAge);
        if last.Err? then Err(last.error) else Ok(init.value + [last.value])
  }

  lemma BindAllGrows(path: seq<Point>, p: Point, b: Option<Binding>, generation: nat, now: int, maxAge: int)
    ensures
      var before, one, after := BindAll(path, b, generation, now, maxAge), BindPoint(p, b, generation, now, maxAge), BindAll(path + [p], b, generation, now, maxAge);
      after == if before.Err? then before else if one.Err? then Err(one.error) else Ok(before.value + [one.value])
  {
    assert (path + [p])[..|path|] == path;
  }

  lemma {:induction false} BindAllStops(path: seq<Point>, i: nat, b: Option<Binding>, generation: nat, now: int, maxAge: int)
    requires i <= |path| && BindAll(path[..i], b, generation, now, maxAge).Err?
    ensures BindAll(path, b, generation, now, maxAge) == BindAll(path[..i], b, generation, now, maxAge)
  {
    if i == |path| {
      assert path[..i] == path;
    } else {
      assert path[..|path| - 1][..i] == path[..i];
      BindAllStops(path[..|path| - 1], i, b, generation, now, maxAge);
    }
  }

  function Blank(a: Action): Compiled { Compiled(a.kind, a.point, 0, [], 0, 0, [], 0, [], 0, None) }

  /** A pointer action at one bound point; it expires with its observation. */
  function PointAction(a: Action, l: Limits, b: Option<Binding>, generation: nat, now: int): Result<Compiled> {
    var p := BindPoint(a.point, b, generation, now, l.maxObservationAge);
    if p.Err? then Err(p.error)
    else Ok(Blank(a).(point := p.value, expires := Some(b.value.capturedAt.value + l.maxObservationAge)))
  }

  /** `compileAction`: the compiled action and its estimated duration. */
  function ActionOutcome(a: Action, l: Limits, b: Option<Binding>, generation: nat, now: int): Result<(Compiled, int)>
    requires forall n :: n in a.keys ==> K.KnownName(n)
  {
    if !FieldsFit(a) then Err(InvalidAction)
    else
      match a.kind
      case Move =>
        var item := PointAction(a, l, b, generation, now);
        if item.Err? then Err(item.error) else Ok((item.value, 0))
      case Click => ClickOutcome(a, l, b, generation, now, 0)
      case DoubleClick => ClickOutcome(a, l, b, generation, now, l.doubleClickDelay)
      case Drag =>
        if !(2 <= |a.path| <= 64) then Err(InvalidAction)
        else
          var path := BindAll(a.path, b, generation, now, l.maxObservationAge);
          if path.Err? then Err(path.error)
          else
            var button := ButtonMask(a.button);
            if button.Err? then Err(button.error) else Ok((Blank(a).(path := path.value, button := button.value), 0))
      case Scroll =>
        if !(-127 <= a.deltaX <= 127 && -127 <= a.deltaY <= 127) || (a.deltaX == 0 && a.deltaY == 0) then Err(InvalidAction)
        else Ok((Blank(a).(deltaX := a.deltaX, deltaY := a.deltaY), 0))
      case Keypress => if !K.Chord(a.keys) then Err(KeyFailed(K.UnknownKey)) else Ok((WithChord(a), l.keyHold + l.interKey))
      case KeyHold =>
        if !K.Chord(a.keys) then Err(KeyFailed(K.UnknownKey))
        else if !(0 < a.duration <= MAX_KEY_HOLD) then Err(InvalidAction)
        else Ok((WithChord(a).(duration := a.duration), a.duration + l.interKey))
      case TypeText =>
        if !K.Typeable(a.text, a.textValid) then Err(KeyFailed(K.UnsupportedText))
        else Ok((Blank(a).(text := K.Strokes(a.text)), |a.text| * (l.keyHold + l.interKey)))
      case Wait => if !(0 < a.duration <= l.maxWaitDuration) then Err(InvalidAction) else Ok((Blank(a).(duration := a.duration), a.duration))
      case Screenshot => Ok((Blank(a), 0))
      case UnknownAction => Err(InvalidAction)
  }

  function ClickOutcome(a: Action, l: Limits, b: Option<Binding>, generation: nat, now: int, cost: int): Result<(Compiled, int)> {
    var item := PointAction(a, l, b, generation, now);
    if item.Err? then Err(item.error)
    else
      var button := ButtonMask(a.button);
      if button.Err? then Err(button.error) else Ok((item.value.(button := button.value), cost))
  }

  function WithChord(a: Action): Compiled {
    Blank(a).(modifier := K.ModifierByte(K.BitsOf(a.keys)), keys := K.KeysOf(a.keys))
  }

  method CompileAction(a: Action, l: Limits, b: Option<Binding>, generation: nat, now: int) returns (r: Result<(Compiled, int)>)
    requires forall n :: n in a.keys ==> K.KnownName(n)
    ensures r == ActionOutcome(a, l, b, generation, now)
  {
    if !FieldsFit(a) { return Err(InvalidAction); }
    var item := Blank(a);
    match a.kind {
      case Move =>
        var p := BindPoint(a.point, b, generation, now, l.maxObservationAge);
        if p.Err? { return Err(p.error); }
        item := item.(point := p.value, expires := Some(b.value.capturedAt.value + l.maxObservationAge));
      case Click | DoubleClick =>
        var p := BindPoint(a.point, b, generation, now, l.maxObservationAge);
        if p.Err? { return Err(p.error); }
        item := item.(point := p.value, expires := Some(b.value.capturedAt.value + l.maxObservationAge));
        var button := ButtonMask(a.button);
        if button.Err? { return Err(button.error); }
        item := item.(button := button.value);
        if a.kind.DoubleClick? { return Ok((item, l.doubleClickDelay)); }
      case Drag =>
        if |a.path| < 2 || |a.path| > 64 { return Err(InvalidAction); }
        var path: seq<Point> := [];
        for i := 0 to |a.path|
          invariant BindAll(a.path[..i], b, generation, now, l.maxObservationAge) == Ok(path)
        {
          assert a.path[..i + 1] == a.path[..i] + [a.path[i]];
          BindAllGrows(a.path[..i], a.path[i], b, generation, now, l.maxObservationAge);
          var bound := BindPoint(a.path[i], b, generation, now, l.maxObservationAge);
          if bound.Err? {
            BindAllStops(a.path, i + 1, b, generation, now, l.maxObservationAge);
            return Err(bound.error);
          }
          path := path + [bound.value];
        }
        assert a.path[..|a.path|] == a.path;
        var button := ButtonMask(a.button);
        if button.Err? { return Err(button.error); }
        item := item.(path := path, button := button.value);
      case Scroll =>
        if a.deltaX < -127 || a.deltaX > 127 || a.deltaY < -127 || a.deltaY > 127 || (a.deltaX == 0 && a.deltaY == 0) {
          return Err(InvalidAction);
        }
        item := item.(deltaX := a.deltaX, deltaY := a.deltaY);
      case Keypress | KeyHold =>
        var chord := K.CompileKeyCombo(a.keys);
        if chord.Err? { return Err(KeyFailed(chord.error)); }
        item := item.(modifier := chord.value.0, keys := chord.value.1);
        if a.kind.KeyHold? {
          if a.duration <= 0 || a.duration > MAX_KEY_HOLD { return Err(InvalidAction); }
          return Ok((item.(duration := a.duration), a.duration + l.interKey));
        }
        return Ok((item, l.keyHold + l.interKey));
      case TypeText =>
        var strokes := K.CompileText(a.text, a.textValid);
        if strokes.Err? { return Err(KeyFailed(strokes.error)); }
        return Ok((item.(text := strokes.value), |strokes.value| * (l.keyHold + l.interKey)));
      case Wait =>
        if a.duration <= 0 || a.duration > l.maxWaitDuration { return Err(InvalidAction); }
        return Ok((item.(duration := a.duration), a.duration));
      case Screenshot =>
      case UnknownAction =>
        return Err(InvalidAction);
    }
    return Ok((item, 0));
  }

  // ----------------------------------------------------------------- a batch

  datatype Context = Context(limits: Limits, binding: Option<Binding>, generation: nat, now: int)

  ghost predicate Named(actions: seq<Action>) {
    forall i, n :: 0 <= i < |actions| && n in actions[i].keys ==> K.KnownName(n)
  }

  function OutcomeIn(a: Action, c: Context): Result<(Compiled, int)>
    requires forall n :: n in a.keys ==> K.KnownName(n)
  {
    ActionOutcome(a, c.limits, c.binding, c.generation, c.now)
  }

  function TotalWait(actions: seq<Action>): int {
    if actions == [] then 0
    else TotalWait(actions[..|actions| - 1]) + (var a := actions[|actions| - 1]; if a.kind.Wait? then a.duration else 0)
  }

  ghost predicate AllCompile(actions: seq<Action>, c: Context)
    requires Named(actions)
  {
    forall i :: 0 <= i < |actions| ==> OutcomeIn(actions[i], c).Ok?
  }

  ghost function TotalCost(actions: seq<Action>, c: Context): int
    requires Named(actions) && AllCompile(actions, c)
  {
    if actions == [] then 0
    else TotalCost(actions[..|actions| - 1], c) + OutcomeIn(actions[|actions| - 1], c).value.1
  }

  /** What a batch must satisfy as a whole. */
  ghost predicate Acceptable(actions: seq<Action>, c: Context)
    requires Named(actions)
  {
    && 1 <= |actions| <= c.limits.maxActions
    && ShotLast(actions, |actions|)
    && AllCompile(actions, c)
    && TotalWait(actions) <= c.limits.maxTotalWait
    && TotalCost(actions, c) <= c.limits.maxBatchDuration
  }

  /** The actions that point at something on an observation. */
  predicate Points(t: ActionType) { t.Move? || t.Click? || t.DoubleClick? || t.Drag? }

  /** The check that the executor makes before it runs an action. */
  predicate Stale(item: Compiled, now: int) { item.expires.Some? && now > item.expires.value }

  /**
  Every pointing action is compiled on a fresh observation; when it runs, it is refused exactly if
  the observation has become too old and it is not a drag: a drag runs however old it is by then.
  */
  lemma OnlyDragsOutliveTheirObservation(a: Action, c: Context, later: int)
    requires (forall n :: n in a.keys ==> K.KnownName(n)) && OutcomeIn(a, c).Ok? && Points(a.kind)
    ensures Bound(c.binding)
    ensures
      var captured := c.binding.value.capturedAt.value;
      && 0 <= c.now - captured <= c.limits.maxObservationAge
      && (Stale(OutcomeIn(a, c).value.0, later) <==> !a.kind.Drag? && later - captured > c.limits.maxObservationAge)
  {
    if a.kind.Drag? {
      var path := BindAll(a.path, c.binding, c.generation, c.now, c.limits.maxObservationAge);
      assert BindPoint(a.path[0], c.binding, c.generation, c.now, c.limits.maxObservationAge) == Ok(path.value[0]);
    }
  }

  lemma CostsAreNatural(a: Action, c: Context)
    requires (forall n :: n in a.keys ==> K.KnownName(n)) && OutcomeIn(a, c).Ok?
    ensures OutcomeIn(a, c).value.1 >= 0
    ensures a.kind.Wait? ==> a.duration > 0
  {
  }

  /** Totals only grow: a batch within its limits was within them at every action. */
  lemma {:induction false} TotalsGrow(actions: seq<Action>, i: nat, c: Context)
    requires Named(actions) && AllCompile(actions, c) && i <= |actions|
    ensures AllCompile(actions[..i], c)
    ensures TotalWait(actions[..i]) <= TotalWait(actions) && TotalCost(actions[..i], c) <= TotalCost(actions, c)
  {
    hide ActionOutcome;
    if i == |actions| {
      assert actions[..i] == actions;
    } else {
      var init, last := actions[..|actions| - 1], actions[|actions| - 1];
      assert init[..i] == actions[..i];
      assert Named(init) && AllCompile(init, c);
      TotalsGrow(init, i, c);
      assert OutcomeIn(last, c).Ok?;
      CostsAreNatural(last, c);
    }
  }

  lemma TotalsStep(actions: seq<Action>, a: Action, c: Context)
    requires Named(actions + [a]) && Named(actions) && AllCompile(actions, c)
    ensures TotalWait(actions + [a]) == TotalWait(actions) + if a.kind.Wait? then a.duration else 0
    ensures AllCompile(actions + [a], c) <==> OutcomeIn((actions + [a])[|actions|], c).Ok?
    ensures AllCompile(actions + [a], c) ==> TotalCost(actions + [a], c) == TotalCost(actions, c) + OutcomeIn((actions + [a])[|actions|], c).value.1
  {
    hide ActionOutcome;
    var all := actions + [a];
    assert all[..|actions|] == actions;
    if OutcomeIn(all[|actions|], c).Ok? {
      assert forall i :: 0 <= i < |all| ==> all[i] == if i < |actions| then actions[i] else a;
    }
  }

  lemma TotalsStart(c: Context)
    ensures Named([]) && AllCompile([], c) && CompiledAs([], [], c) && TotalWait([]) == 0 && TotalCost([], c) == 0
  {
  }

  lemma AllOf(actions: seq<Action>, cs: seq<Compiled>, c: Context)
    requires Named(actions) && CompiledAs(actions, cs, c)
    ensures AllCompile(actions, c)
  {
  }

  lemma NamedParts(actions: seq<Action>, i: nat)
    requires Named(actions) && i < |actions|
    ensures Named(actions[..i]) && Named(actions[..i + 1]) && forall n :: n in actions[i].keys ==> K.KnownName(n)
  {
  }

  lemma OutcomeOf(a: Action, c: Context)
    requires forall n :: n in a.keys ==> K.KnownName(n)
    ensures OutcomeIn(a, c) == ActionOutcome(a, c.limits, c.binding, c.generation, c.now)
  {
  }

  lemma OneFails(actions: seq<Action>, i: nat, c: Context)
    requires Named(actions) && i < |actions| && OutcomeIn(actions[i], c).Err?
    ensures !AllCompile(actions, c)
  {
  }

  /** Each action on its own became the compiled action at its place. */
  ghost predicate CompiledAs(actions: seq<Action>, cs: seq<Compiled>, c: Context)
    requires Named(actions)
  {
    && |cs| == |actions| && AllCompile(actions, c)
    && forall i :: 0 <= i < |actions| ==> OutcomeIn(actions[i], c).Ok? && cs[i] == OutcomeIn(actions[i], c).value.0
  }

  lemma CompiledGrows(actions: seq<Action>, i: nat, cs: seq<Compiled>, c: Context)
    requires Named(actions) && i < |actions| && Named(actions[..i]) && CompiledAs(actions[..i], cs, c) && OutcomeIn(actions[i], c).Ok?
    ensures Named(actions[..i + 1]) && AllCompile(actions[..i], c) && AllCompile(actions[..i + 1], c)
    ensures CompiledAs(actions[..i + 1], cs + [OutcomeIn(actions[i], c).value.0], c)
    ensures TotalWait(actions[..i + 1]) == TotalWait(actions[..i]) + if actions[i].kind.Wait? then actions[i].duration else 0
    ensures TotalCost(actions[..i + 1], c) == TotalCost(actions[..i], c) + OutcomeIn(actions[i], c).value.1
    ensures AllCompile(actions, c) ==>
      TotalWait(actions[..i + 1]) <= TotalWait(actions) && TotalCost(actions[..i + 1], c) <= TotalCost(actions, c)
  {
    hide OutcomeIn;
    assert actions[..i + 1] == actions[..i] + [actions[i]];
    TotalsStep(actions[..i], actions[i], c);
    if AllCompile(actions, c) { TotalsGrow(actions, i + 1, c); }
  }

  /** A screenshot only ends a batch. */
  ghost predicate ShotLast(actions: seq<Action>, i: nat)
    requires i <= |actions|
  {
    forall j :: 0 <= j < i && j < |actions| - 1 ==> !actions[j].kind.Screenshot?
  }

  /**
  `compileBatch`: the running checks accept exactly the batches that are acceptable as
  a whole, and compile each action on its own.
  */
  method CompileBatch(actions: seq<Action>, c: Context) returns (r: Result<seq<Compiled>>, ghost estimate: int)
    requires Named(actions)
    ensures r.Ok? <==> Acceptable(actions, c)
    ensures r.Ok? ==> CompiledAs(actions, r.value, c)
    ensures r.Ok? ==> estimate == TotalCost(actions, c)
  {
    hide Named, OutcomeIn, AllCompile, TotalWait, TotalCost, CompiledAs;
    estimate := 0;
    if |actions| == 0 || |actions| > c.limits.maxActions { return Err(InvalidAction), 0; }
    var compiled: seq<Compiled> := [];
    var totalWait, estimated := 0, 0;
    TotalsStart(c);
    assert actions[..0] == [];
    for i := 0 to |actions|
      invariant Named(actions[..i]) && CompiledAs(actions[..i], compiled, c) && ShotLast(actions, i)
      invariant totalWait == TotalWait(actions[..i]) <= c.limits.maxTotalWait
      invariant AllCompile(actions[..i], c) && estimated == TotalCost(actions[..i], c) <= c.limits.maxBatchDuration
    {
      var action := actions[i];
      NamedParts(actions, i);
      if action.kind.Screenshot? && |actions| != 1 && i != |actions| - 1 { return Err(InvalidAction), 0; }
      var item := CompileAction(action, c.limits, c.binding, c.generation, c.now);
      OutcomeOf(action, c);
      if item.Err? {
        OneFails(actions, i, c);
        return Err(item.error), 0;
      }
      CompiledGrows(actions, i, compiled, c);
      AllOf(actions[..i + 1], compiled + [item.value.0], c);
      if action.kind.Wait? {
        totalWait := totalWait + action.duration;
        if totalWait > c.limits.maxTotalWait { return Err(InvalidAction), 0; }
      }
      estimated := estimated + item.value.1;
      if estimated > c.limits.maxBatchDuration { return Err(InvalidAction), 0; }
      compiled := compiled + [item.value.0];
    }
    assert actions[..|actions|] == actions;
    return Ok(compiled), estimated;
  }
}
