/**
Key names of `internal/input/keys.go`: how a spelling is normalized and what the tables
make of it. A rune is its code point. `strings.ToUpper` maps two runes outside ASCII into
it (dotless i and long s); every other rune outside ASCII stays outside, in no table.
*/
module KeyNames {
  import opened Basics
  import opened Keys

  type Name = seq<Rune>

  /** `unicode.IsSpace`. */
  predicate IsSpace(r: Rune) {
    9 <= r <= 13 || r in {32, 0x85, 0xA0, 0x1680, 0x2028, 0x2029, 0x202F, 0x205F, 0x3000} || 0x2000 <= r <= 0x200A
  }

  /** `unicode.ToUpper`, as far as its result can be in a table. */
  function Upper(r: Rune): Rune {
    if 97 <= r <= 122 then r - 32 else if r == 0x131 then 73 else if r == 0x17F then 83 else r
  }

  /** What the replacer drops: hyphen, underscore and space. */
  predicate Dropped(r: Rune) { r == 45 || r == 95 || r == 32 }

  function TrimLeft(s: Name): Name {
    if s != [] && IsSpace(s[0]) then TrimLeft(s[1..]) else s
  }

  function TrimRight(s: Name): Name {
    if s != [] && IsSpace(s[|s| - 1]) then TrimRight(s[..|s| - 1]) else s
  }

  function Letter(r: Rune): Name { if Dropped(Upper(r)) then [] else [Upper(r)] }

  /** Every rune in upper case, without the separators. */
  function Letters(s: Name): Name {
    if s == [] then [] else Letter(s[0]) + Letters(s[1..])
  }

  /** `normalizeKeyName`. */
  function Normalized(name: Name): Name { Letters(TrimRight(TrimLeft(name))) }

  function Runes(s: string): (r: Name)
    ensures |r| == |s| && forall i :: 0 <= i < |s| ==> r[i] == s[i] as int
  {
    seq(|s|, i requires 0 <= i < |s| => s[i] as int)
  }

  // ------------------------------------------------------------------ tables

  /** `modifierUsages`, as bit numbers. */
  function ModifierNamed(n: Name): (bit: Option<nat>)
    ensures bit.Some? ==> bit.value < 8
  {
    if n in {Runes("CTRL"), Runes("CONTROL"), Runes("CTRLLEFT"), Runes("CONTROLLEFT")} then Some(0)
    else if n in {Runes("SHIFT"), Runes("SHIFTLEFT")} then Some(1)
    else if n in {Runes("ALT"), Runes("ALTLEFT")} then Some(2)
    else if n in {Runes("META"), Runes("SUPER"), Runes("COMMAND"), Runes("CMD"), Runes("METALEFT"), Runes("SUPERLEFT")} then Some(3)
    else if n in {Runes("CONTROLRIGHT"), Runes("CTRLRIGHT")} then Some(4)
    else if n == Runes("SHIFTRIGHT") then Some(5)
    else if n in {Runes("ALTRIGHT"), Runes("ALTGR")} then Some(6)
    else if n in {Runes("METARIGHT"), Runes("SUPERRIGHT"), Runes("COMMANDRIGHT")} then Some(7)
    else None
  }

  /** The literal part of `buildKeyUsages`. */
  function SpecialNamed(n: Name): (usage: Option<Byte>)
    ensures usage.Some? ==> usage.value != 0
  {
    if n in {Runes("ENTER"), Runes("RETURN")} then Some(0x28) else if n in {Runes("ESCAPE"), Runes("ESC")} then Some(0x29)
    else if n == Runes("BACKSPACE") then Some(0x2A) else if n == Runes("TAB") then Some(0x2B) else if n == Runes("SPACE") then Some(0x2C)
    else if n == Runes("MINUS") then Some(0x2D) else if n == Runes("EQUAL") then Some(0x2E)
    else if n == Runes("BRACKETLEFT") then Some(0x2F) else if n == Runes("BRACKETRIGHT") then Some(0x30)
    else if n == Runes("BACKSLASH") then Some(0x31) else if n == Runes("SEMICOLON") then Some(0x33)
    else if n == Runes("QUOTE") then Some(0x34) else if n == Runes("BACKQUOTE") then Some(0x35)
    else if n == Runes("COMMA") then Some(0x36) else if n == Runes("PERIOD") then Some(0x37) else if n == Runes("SLASH") then Some(0x38)
    else if n == Runes("CAPSLOCK") then Some(0x39) else if n == Runes("PRINTSCREEN") then Some(0x46)
    else if n == Runes("SCROLLLOCK") then Some(0x47) else if n == Runes("PAUSE") then Some(0x48) else if n == Runes("INSERT") then Some(0x49)
    else if n == Runes("HOME") then Some(0x4A) else if n == Runes("PAGEUP") then Some(0x4B) else if n == Runes("DELETE") then Some(0x4C)
    else if n == Runes("END") then Some(0x4D) else if n == Runes("PAGEDOWN") then Some(0x4E)
    else if n in {Runes("ARROWRIGHT"), Runes("RIGHT")} then Some(0x4F) else if n in {Runes("ARROWLEFT"), Runes("LEFT")} then Some(0x50)
    else if n in {Runes("ARROWDOWN"), Runes("DOWN")} then Some(0x51) else if n in {Runes("ARROWUP"), Runes("UP")} then Some(0x52)
    else if n == Runes("NUMLOCK") then Some(0x53) else if n == Runes("NUMPADDIVIDE") then Some(0x54)
    else if n == Runes("NUMPADMULTIPLY") then Some(0x55) else if n == Runes("NUMPADSUBTRACT") then Some(0x56)
    else if n == Runes("NUMPADADD") then Some(0x57) else if n == Runes("NUMPADENTER") then Some(0x58)
    else if n == Runes("NUMPADDECIMAL") then Some(0x63) else if n in {Runes("APPLICATION"), Runes("CONTEXTMENU")} then Some(0x65)
    else None
  }

  predicate IsDigit(r: Rune) { 48 <= r <= 57 }

  predicate IsLetter(r: Rune) { 65 <= r <= 90 }

  /** `base` for digit 1 and on, `zero` for digit 0. */
  function DigitUsage(r: Rune, base: Byte, zero: Byte): Byte
    requires IsDigit(r) && base < 200
  {
    if r == 48 then zero else base + (r - 49)
  }

  /** The number written by one or two digits without a leading zero. */
  function FunctionNumber(n: Name): Option<nat> {
    if |n| == 1 && IsDigit(n[0]) && n[0] != 48 then Some(n[0] - 48)
    else if |n| == 2 && IsDigit(n[0]) && n[0] != 48 && IsDigit(n[1]) then Some((n[0] - 48) * 10 + (n[1] - 48))
    else None
  }

  /** The loops of `buildKeyUsages`: letters, digits, function keys, the numeric pad. */
  function SeriesNamed(n: Name): (usage: Option<Byte>)
    ensures usage.Some? ==> usage.value != 0
  {
    if |n| == 1 && IsLetter(n[0]) then Some(0x04 + (n[0] - 65))
    else if |n| == 4 && n[..3] == Runes("KEY") && IsLetter(n[3]) then Some(0x04 + (n[3] - 65))
    else if |n| == 1 && IsDigit(n[0]) then Some(DigitUsage(n[0], 0x1E, 0x27))
    else if |n| == 6 && n[..5] == Runes("DIGIT") && IsDigit(n[5]) then Some(DigitUsage(n[5], 0x1E, 0x27))
    else if |n| == 7 && n[..6] == Runes("NUMPAD") && IsDigit(n[6]) then Some(DigitUsage(n[6], 0x59, 0x62))
    else if |n| > 1 && n[0] == 70 then
      match FunctionNumber(n[1..])
      case Some(k) => if k <= 12 then Some(0x3A + k - 1) else if k <= 24 then Some(0x68 + k - 13) else None
      case None => None
    else None
  }

  /** What the tables make of a spelling. */
  function Resolved(name: Name): KeyName { Looked(Normalized(name)) }

  function Looked(n: Name): KeyName {
    match ModifierNamed(n)
    case Some(bit) => Modifier(bit)
    case None =>
      match SpecialNamed(n)
      case Some(usage) => Key(usage)
      case None =>
        match SeriesNamed(n)
        case Some(usage) => Key(usage)
        case None => Unknown
  }

  function AllResolved(names: seq<Name>): (r: seq<KeyName>)
    ensures |r| == |names| && forall i :: 0 <= i < |names| ==> r[i] == Resolved(names[i])
  {
    seq(|names|, i requires 0 <= i < |names| => Resolved(names[i]))
  }

  // --------------------------------------------------------------- spellings

  /** Only spaces stand at the start of the name. */
  predicate LeftPlain(s: Name) { s == [] || !IsSpace(s[0]) || (s[0] == 32 && LeftPlain(s[1..])) }

  predicate RightPlain(s: Name) { s == [] || !IsSpace(s[|s| - 1]) || (s[|s| - 1] == 32 && RightPlain(s[..|s| - 1])) }

  /** Trimming takes nothing but spaces off the name. */
  predicate Plain(name: Name) { LeftPlain(name) && RightPlain(TrimLeft(name)) }

  lemma Associative(x: Name, y: Name, z: Name)
    ensures x + (y + z) == x + y + z
  {
  }

  lemma {:induction false} LettersConcat(a: Name, b: Name)
    ensures Letters(a + b) == Letters(a) + Letters(b)
  {
    hide Letter;
    if a == [] {
      assert a + b == b;
    } else {
      LettersConcat(a[1..], b);
      assert (a + b)[0] == a[0] && (a + b)[1..] == a[1..] + b;
      Associative(Letter(a[0]), Letters(a[1..]), Letters(b));
    }
  }

  /** A space is dropped as a separator too; any other white space is kept where it is not trimmed. */
  lemma SpaceLetter(r: Rune)
    requires IsSpace(r)
    ensures Letter(r) == if r == 32 then [] else [r]
  {
  }

  lemma {:induction false} TrimLeftLetters(name: Name)
    ensures |Letters(TrimLeft(name))| <= |Letters(name)|
    ensures LeftPlain(name) <==> Letters(TrimLeft(name)) == Letters(name)
    ensures LeftPlain(name) <==> |Letters(TrimLeft(name))| == |Letters(name)|
  {
    hide Letter;
    if name != [] && IsSpace(name[0]) {
      SpaceLetter(name[0]);
      TrimLeftLetters(name[1..]);
    }
  }

  lemma {:induction false} TrimRightLetters(name: Name)
    ensures |Letters(TrimRight(name))| <= |Letters(name)|
    ensures RightPlain(name) <==> Letters(TrimRight(name)) == Letters(name)
    ensures RightPlain(name) <==> |Letters(TrimRight(name))| == |Letters(name)|
  {
    hide Letter;
    if name != [] && IsSpace(name[|name| - 1]) {
      var init, last := name[..|name| - 1], name[|name| - 1];
      assert name == init + [last];
      SpaceLetter(last);
      TrimRightLetters(init);
      LettersConcat(init, [last]);
      assert Letters([last]) == Letter(last) by { assert [last][1..] == []; }
    }
  }

  /** Normalizing a name leaves its letters exactly if trimming takes nothing but spaces. */
  lemma NormalizedIsLettersIff(name: Name)
    ensures Normalized(name) == Letters(name) <==> Plain(name)
  {
    hide Letters;
    TrimLeftLetters(name);
    TrimRightLetters(TrimLeft(name));
  }

  /** Case and separators do not matter to such names: two of the same letters are one key. */
  lemma SpellingsAgree(a: Name, b: Name)
    requires Plain(a) && Plain(b) && Letters(a) == Letters(b)
    ensures Normalized(a) == Normalized(b) == Letters(a) && Resolved(a) == Resolved(b)
  {
    hide Letters, Looked;
    NormalizedIsLettersIff(a);
    NormalizedIsLettersIff(b);
  }

  /** A respelling of such a name is the same name exactly if it is such a name itself. */
  lemma SameNameIff(a: Name, b: Name)
    requires Plain(b) && Letters(a) == Letters(b)
    ensures Normalized(a) == Normalized(b) <==> Plain(a)
  {
    hide Letters;
    NormalizedIsLettersIff(a);
    NormalizedIsLettersIff(b);
  }

  lemma LookedIsKnown(n: Name)
    ensures KnownName(Looked(n))
  {
    hide ModifierNamed, SpecialNamed, SeriesNamed;
  }

  lemma OneRuneIsSeries(n: Name)
    requires |n| == 1
    ensures ModifierNamed(n).None? && SpecialNamed(n).None?
  {
    hide SeriesNamed;
  }

  /** A printable letter or digit as a name is the key that types it, in either case. */
  lemma NamesTypeThemselves(r: Rune)
    requires 97 <= r <= 122 || IsLetter(r) || IsDigit(r)
    ensures UsRune(r).Some? && Resolved([r]) == Key(UsRune(r).value.key)
  {
    hide ModifierNamed, SpecialNamed;
    assert Letters([r]) == [Upper(r)] by { assert [r][1..] == []; }
    OneRuneIsSeries([Upper(r)]);
  }

  lemma TabIsNoName(n: Name)
    requires |n| == 2 && n[1] == 9
    ensures Looked(n) == Unknown
  {
  }

  lemma QIsKey()
    ensures UsRune(81) == Some(Keystroke(2, 0x14))
  {
  }

  /** With other white space separators do matter: a tab at the end is trimmed, but not before a hyphen. */
  lemma HyphenAfterTab()
    ensures Resolved([81, 9]) == Key(0x14) && Resolved([81, 9, 45]) == Unknown
  {
    hide ModifierNamed, SpecialNamed, SeriesNamed, Looked, UsRune;
    NamesTypeThemselves(81);
    assert UsRune(81).value.key == 0x14 by { QIsKey(); }
    assert [81, 9][..1] == [81];
    assert TrimRight([81, 9]) == TrimRight([81]) == [81];
    assert [81, 9, 45][1..] == [9, 45] && [9, 45][1..] == [45] && [45][1..] == [];
    assert Letters([45]) == [] && Letters([9, 45]) == [9] && Letters([81, 9, 45]) == [81, 9];
    TabIsNoName([81, 9]);
  }

  /** `CompileKeyCombo` on spellings: respelling any names of a combination changes nothing. */
  method CompileNames(names: seq<Name>) returns (r: Result<(Byte, seq<Byte>)>)
    ensures r.Ok? <==> Chord(AllResolved(names))
    ensures r.Ok? ==> r.value == (ModifierByte(BitsOf(AllResolved(names))), KeysOf(AllResolved(names)))
  {
    hide Looked;
    var resolved := AllResolved(names);
    forall n | n in resolved ensures KnownName(n) {
      var i :| 0 <= i < |resolved| && resolved[i] == n;
      LookedIsKnown(Normalized(names[i]));
    }
    r := CompileKeyCombo(resolved);
  }

  lemma RespellingChangesNothing(names: seq<Name>, others: seq<Name>)
    requires |names| == |others|
    requires forall i :: 0 <= i < |names| ==> Plain(names[i]) && Plain(others[i]) && Letters(names[i]) == Letters(others[i])
    ensures AllResolved(names) == AllResolved(others)
  {
    hide Letters, Resolved;
    forall i | 0 <= i < |names| ensures Resolved(names[i]) == Resolved(others[i]) {
      SpellingsAgree(names[i], others[i]);
    }
  }
}
