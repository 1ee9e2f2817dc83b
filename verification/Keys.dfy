/**
The US keyboard of `internal/input/keys.go`: text and key chords become key usages.
A string is the sequence of its runes; key names are taken after normalization and
lookup, so a name is a modifier, a key, or unknown.
*/
module Keys {
  import opened Basics
  import opened HidProtocol

  type Rune = int

  const MAX_TEXT := 4096

  datatype Keystroke = Keystroke(modifier: Byte, key: Byte)

  datatype KeyError = UnknownKey | UnsupportedText

  datatype Result<+T> = Ok(value: T) | Err(error: KeyError)

  /** `usPunctuation`. */
  function UsPunctuation(v: Rune): Option<Keystroke> {
    match v
    case 32 => Some(Keystroke(0, 0x2C))
    case 45 => Some(Keystroke(0, 0x2D))
    case 95 => Some(Keystroke(2, 0x2D))
    case 61 => Some(Keystroke(0, 0x2E))
    case 43 => Some(Keystroke(2, 0x2E))
    case 91 => Some(Keystroke(0, 0x2F))
    case 123 => Some(Keystroke(2, 0x2F))
    case 93 => Some(Keystroke(0, 0x30))
    case 125 => Some(Keystroke(2, 0x30))
    case 92 => Some(Keystroke(0, 0x31))
    case 124 => Some(Keystroke(2, 0x31))
    case 59 => Some(Keystroke(0, 0x33))
    case 58 => Some(Keystroke(2, 0x33))
    case 39 => Some(Keystroke(0, 0x34))
    case 34 => Some(Keystroke(2, 0x34))
    case 96 => Some(Keystroke(0, 0x35))
    case 126 => Some(Keystroke(2, 0x35))
    case 44 => Some(Keystroke(0, 0x36))
    case 60 => Some(Keystroke(2, 0x36))
    case 46 => Some(Keystroke(0, 0x37))
    case 62 => Some(Keystroke(2, 0x37))
    case 47 => Some(Keystroke(0, 0x38))
    case 63 => Some(Keystroke(2, 0x38))
    case 33 => Some(Keystroke(2, 0x1E))
    case 64 => Some(Keystroke(2, 0x1F))
    case 35 => Some(Keystroke(2, 0x20))
    case 36 => Some(Keystroke(2, 0x21))
    case 37 => Some(Keystroke(2, 0x22))
    case 94 => Some(Keystroke(2, 0x23))
    case 38 => Some(Keystroke(2, 0x24))
    case 42 => Some(Keystroke(2, 0x25))
    case 40 => Some(Keystroke(2, 0x26))
    case 41 => Some(Keystroke(2, 0x27))
    case _ => None
  }

  function UsRune(v: Rune): Option<Keystroke> {
    if 'a' as int <= v <= 'z' as int then Some(Keystroke(0, 0x04 + v - 'a' as int))
    else if 'A' as int <= v <= 'Z' as int then Some(Keystroke(0x02, 0x04 + v - 'A' as int))
    else if '1' as int <= v <= '9' as int then Some(Keystroke(0, 0x1E + v - '1' as int))
    else if v == '0' as int then Some(Keystroke(0, 0x27))
    else UsPunctuation(v)
  }

  // ------------------------------------------------- the layout, independently

  /** What is printed on a key of a US keyboard: its character without and with Shift. */
  function Legend(key: Byte): Option<(char, char)> {
    match key
    case 0x04 => Some(('a', 'A'))
    case 0x05 => Some(('b', 'B'))
    case 0x06 => Some(('c', 'C'))
    case 0x07 => Some(('d', 'D'))
    case 0x08 => Some(('e', 'E'))
    case 0x09 => Some(('f', 'F'))
    case 0x0A => Some(('g', 'G'))
    case 0x0B => Some(('h', 'H'))
    case 0x0C => Some(('i', 'I'))
    case 0x0D => Some(('j', 'J'))
    case 0x0E => Some(('k', 'K'))
    case 0x0F => Some(('l', 'L'))
    case 0x10 => Some(('m', 'M'))
    case 0x11 => Some(('n', 'N'))
    case 0x12 => Some(('o', 'O'))
    case 0x13 => Some(('p', 'P'))
    case 0x14 => Some(('q', 'Q'))
    case 0x15 => Some(('r', 'R'))
    case 0x16 => Some(('s', 'S'))
    case 0x17 => Some(('t', 'T'))
    case 0x18 => Some(('u', 'U'))
    case 0x19 => Some(('v', 'V'))
    case 0x1A => Some(('w', 'W'))
    case 0x1B => Some(('x', 'X'))
    case 0x1C => Some(('y', 'Y'))
    case 0x1D => Some(('z', 'Z'))
    case 0x1E => Some(('1', '!'))
    case 0x1F => Some(('2', '@'))
    case 0x20 => Some(('3', '#'))
    case 0x21 => Some(('4', '$'))
    case 0x22 => Some(('5', '%'))
    case 0x23 => Some(('6', '^'))
    case 0x24 => Some(('7', '&'))
    case 0x25 => Some(('8', '*'))
    case 0x26 => Some(('9', '('))
    case 0x27 => Some(('0', ')'))
    case 0x2C => Some((' ', ' '))
    case 0x2D => Some(('-', '_'))
    case 0x2E => Some(('=', '+'))
    case 0x2F => Some(('[', '{'))
    case 0x30 => Some((']', '}'))
    case 0x31 => Some(('\\', '|'))
    case 0x33 => Some((';', ':'))
    case 0x34 => Some(('\'', '\"'))
    case 0x35 => Some(('`', '~'))
    case 0x36 => Some((',', '<'))
    case 0x37 => Some(('.', '>'))
    case 0x38 => Some(('/', '?'))
    case _ => None
  }

  /** What a host with the US layout writes for one stroke; `None` when it writes nothing printable. */
  function Typed(s: Keystroke): Option<Rune> {
    if Legend(s.key).None? then None
    else if s.modifier == 0 then Some(Legend(s.key).value.0 as int)
    else if s.modifier == 2 then Some(Legend(s.key).value.1 as int)
    else None
  }

  predicate Printable(v: Rune) { 32 <= v <= 126 }

  /** Exactly the printable ASCII characters have a stroke, and the host writes that character back. */
  lemma StrokeWritesRune(v: Rune)
    ensures UsRune(v).Some? <==> Printable(v)
    ensures Printable(v) ==> Typed(UsRune(v).value) == Some(v)
  {
  }

  lemma PlainStroke(key: Byte)
    ensures Legend(key).Some? ==> UsRune(Legend(key).value.0 as int) == Some(Keystroke(0, key))
  {
  }

  lemma ShiftedStroke(key: Byte)
    ensures Legend(key).Some? ==> UsRune(Legend(key).value.1 as int) == Some(if key == 0x2C then Keystroke(0, 0x2C) else Keystroke(2, key))
  {
  }

  /** Every stroke that writes something is the one chosen for what it writes, except that Shift does not matter for a space. */
  lemma RuneFindsStroke(s: Keystroke)
    ensures Typed(s).Some? ==> UsRune(Typed(s).value) == Some(if s == Keystroke(2, 0x2C) then Keystroke(0, 0x2C) else s)
  {
    hide UsRune, Legend;
    PlainStroke(s.key);
    ShiftedStroke(s.key);
  }

  predicate Typeable(text: seq<Rune>, validUtf8: bool) {
    validUtf8 && 1 <= |text| <= MAX_TEXT && forall i :: 0 <= i < |text| ==> Printable(text[i])
  }

  function Strokes(text: seq<Rune>): (strokes: seq<Keystroke>)
    requires forall i :: 0 <= i < |text| ==> Printable(text[i])
    ensures |strokes| == |text|
  {
    seq(|text|, i requires 0 <= i < |text| => (StrokeWritesRune(text[i]); UsRune(text[i]).value))
  }

  /** `CompileText`: all or nothing; the strokes write exactly the text. */
  method CompileText(text: seq<Rune>, validUtf8: bool) returns (r: Result<seq<Keystroke>>)
    ensures r.Ok? <==> Typeable(text, validUtf8)
    ensures r.Err? ==> r.error == UnsupportedText
    ensures r.Ok? ==> |r.value| == |text| && forall i :: 0 <= i < |text| ==> Typed(r.value[i]) == Some(text[i])
    ensures r.Ok? ==> r.value == Strokes(text)
  {
    if !validUtf8 { return Err(UnsupportedText); }
    if |text| == 0 || |text| > MAX_TEXT { return Err(UnsupportedText); }
    var strokes: seq<Keystroke> := [];
    for i := 0 to |text|
      invariant |strokes| == i
      invariant forall j :: 0 <= j < i ==> Printable(text[j]) && UsRune(text[j]) == Some(strokes[j]) && Typed(strokes[j]) == Some(text[j])
    {
      var stroke := UsRune(text[i]);
      StrokeWritesRune(text[i]);
      if stroke.None? { return Err(UnsupportedText); }
      strokes := strokes + [stroke.value];
    }
    return Ok(strokes);
  }

  // ----------------------------------------------------------------- chords

  /** A normalized key name as the tables resolve it; a modifier is one of eight bits. */
  datatype KeyName = Modifier(bit: nat) | Key(usage: Byte) | Unknown

  predicate KnownName(n: KeyName) {
    match n
    case Modifier(bit) => bit < 8
    case Key(usage) => usage != 0
    case Unknown => true
  }

  /** The modifier byte with exactly the given bits. */
  function ModifierByte(bits: set<nat>): (m: Byte) {
    (if 0 in bits then 1 else 0) + (if 1 in bits then 2 else 0) + (if 2 in bits then 4 else 0) + (if 3 in bits then 8 else 0)
    + (if 4 in bits then 16 else 0) + (if 5 in bits then 32 else 0) + (if 6 in bits then 64 else 0) + (if 7 in bits then 128 else 0)
  }

  function KeysOf(names: seq<KeyName>): seq<Byte>
  {
    if names == [] then []
    else KeysOf(names[..|names| - 1]) + (if names[|names| - 1].Key? then [names[|names| - 1].usage] else [])
  }

  function BitsOf(names: seq<KeyName>): set<nat> { set n | n in names && n.Modifier? :: n.bit }

  /** What a chord must be: known names, none twice, at most six keys. */
  predicate Chord(names: seq<KeyName>) {
    names != [] && Distinct(names) && |KeysOf(names)| <= SLOTS
  }

  predicate Distinct(names: seq<KeyName>) {
    && (forall n :: n in names ==> !n.Unknown?)
    && (forall i, j :: 0 <= i < j < |names| ==> names[i] != names[j])
  }

  lemma DistinctGrows(names: seq<KeyName>, n: KeyName)
    ensures Distinct(names + [n]) <==> Distinct(names) && n !in names && !n.Unknown?
    ensures n.Modifier? ==> (n in names <==> n.bit in BitsOf(names))
  {
    if Distinct(names + [n]) {
      assert names == (names + [n])[..|names|];
      assert forall i :: 0 <= i < |names| ==> (names + [n])[i] == names[i];
      assert forall m :: m in names ==> m in names + [n];
      assert (names + [n])[|names|] == n;
    }
  }

  lemma DistinctEnds(names: seq<KeyName>, i: nat)
    requires i < |names| && (names[i] in names[..i] || names[i].Unknown?)
    ensures !Distinct(names)
  {
  }

  lemma KeysOfGrows(names: seq<KeyName>, n: KeyName)
    ensures KeysOf(names + [n]) == KeysOf(names) + if n.Key? then [n.usage] else []
    ensures BitsOf(names + [n]) == BitsOf(names) + if n.Modifier? then {n.bit} else {}
  {
    assert (names + [n])[..|names|] == names;
    assert forall m :: m in names + [n] <==> m in names || m == n;
  }

  lemma {:induction false} KeysOfMembers(names: seq<KeyName>)
    ensures forall u :: u in KeysOf(names) <==> Key(u) in names
    ensures (exists n :: n in names && n.Key?) <==> KeysOf(names) != []
  {
    if names != [] {
      var init, last := names[..|names| - 1], names[|names| - 1];
      KeysOfMembers(init);
      assert names == init + [last];
      assert forall m :: m in names <==> m in init || m == last;
    }
  }

  /**
  `CompileKeyCombo`: accepted exactly for a chord, which becomes one keyboard report
  holding its modifiers and its keys, in the order given.
  */
  method CompileKeyCombo(names: seq<KeyName>) returns (r: Result<(Byte, seq<Byte>)>)
    requires forall n :: n in names ==> KnownName(n)
    ensures r.Ok? <==> Chord(names)
    ensures r.Err? ==> r.error == UnknownKey
    ensures r.Ok? ==> r.value == (ModifierByte(BitsOf(names)), KeysOf(names))
    ensures r.Ok? ==> |r.value.1| <= SLOTS && 0 !in r.value.1
  {
    if |names| == 0 { return Err(UnknownKey); }
    var seenKeys: set<Byte>, seenModifiers: set<nat> := {}, {};
    var keys: seq<Byte> := [];
    for i := 0 to |names|
      invariant keys == KeysOf(names[..i]) && seenModifiers == BitsOf(names[..i])
      invariant forall u :: u in seenKeys <==> Key(u) in names[..i]
      invariant Distinct(names[..i])
    {
      assert names[..i + 1] == names[..i] + [names[i]];
      KeysOfGrows(names[..i], names[i]);
      DistinctGrows(names[..i], names[i]);
      if names[i] in names[..i] || names[i].Unknown? { DistinctEnds(names, i); }
      match names[i]
      case Modifier(bit) =>
        if bit in seenModifiers { return Err(UnknownKey); }
        seenModifiers := seenModifiers + {bit};
      case Key(usage) =>
        if usage in seenKeys { return Err(UnknownKey); }
        seenKeys := seenKeys + {usage};
        keys := keys + [usage];
      case Unknown =>
        return Err(UnknownKey);
    }
    assert names[..|names|] == names;
    KeysOfMembers(names);
    if |keys| > SLOTS { return Err(UnknownKey); }
    assert names[0] in names && (names[0].Modifier? ==> names[0].bit in BitsOf(names));
    if seenModifiers == {} && |keys| == 0 { return Err(UnknownKey); }
    return Ok((ModifierByte(seenModifiers), keys));
  }
}
