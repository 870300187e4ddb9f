/** Keyboard synthesis: text as key events on the US layout, and key combos. */
module KeyEvents {
  import opened Basics

  datatype Modifier = Command | Shift | Alternate | Control | SecondaryFn

  type KeyCode = nat

  const KEY_SHIFT: KeyCode := 0x38

  /** A posted event: its key, direction, modifier flags and unicode payload. */
  datatype KeyEvent = KeyEvent(code: KeyCode, down: bool, flags: set<Modifier>, text: Option<char>)

  // ---- the character table ----

  function LetterKey(upper: char): Option<KeyCode> {
    match upper
    case 'A' => Some(0x00) case 'S' => Some(0x01) case 'D' => Some(0x02) case 'F' => Some(0x03)
    case 'H' => Some(0x04) case 'G' => Some(0x05) case 'Z' => Some(0x06) case 'X' => Some(0x07)
    case 'C' => Some(0x08) case 'V' => Some(0x09) case 'B' => Some(0x0B) case 'Q' => Some(0x0C)
    case 'W' => Some(0x0D) case 'E' => Some(0x0E) case 'R' => Some(0x0F) case 'Y' => Some(0x10)
    case 'T' => Some(0x11) case 'O' => Some(0x1F) case 'U' => Some(0x20) case 'I' => Some(0x22)
    case 'P' => Some(0x23) case 'L' => Some(0x25) case 'J' => Some(0x26) case 'K' => Some(0x28)
    case 'N' => Some(0x2D) case 'M' => Some(0x2E)
    case _ => None
  }

  /** The key for a non-letter, and whether shift is held. */
  function SymbolKey(c: char): Option<(KeyCode, bool)> {
    match c
    case '0' => Some((0x1D, false)) case '1' => Some((0x12, false)) case '2' => Some((0x13, false))
    case '3' => Some((0x14, false)) case '4' => Some((0x15, false)) case '5' => Some((0x17, false))
    case '6' => Some((0x16, false)) case '7' => Some((0x1A, false)) case '8' => Some((0x1C, false))
    case '9' => Some((0x19, false))
    case ' ' => Some((0x31, false)) case '\t' => Some((0x30, false)) case '\n' => Some((0x24, false))
    case '`' => Some((0x32, false)) case '~' => Some((0x32, true))
    case '!' => Some((0x12, true)) case '@' => Some((0x13, true)) case '#' => Some((0x14, true))
    case '$' => Some((0x15, true)) case '%' => Some((0x17, true)) case '^' => Some((0x16, true))
    case '&' => Some((0x1A, true)) case '*' => Some((0x1C, true)) case '(' => Some((0x19, true))
    case ')' => Some((0x1D, true))
    case '-' => Some((0x1B, false)) case '_' => Some((0x1B, true))
    case '=' => Some((0x18, false)) case '+' => Some((0x18, true))
    case '[' => Some((0x21, false)) case '{' => Some((0x21, true))
    case ']' => Some((0x1E, false)) case '}' => Some((0x1E, true))
    case '\\' => Some((0x2A, false)) case '|' => Some((0x2A, true))
    case ';' => Some((0x29, false)) case ':' => Some((0x29, true))
    case '\'' => Some((0x27, false)) case '"' => Some((0x27, true))
    case ',' => Some((0x2B, false)) case '<' => Some((0x2B, true))
    case '.' => Some((0x2F, false)) case '>' => Some((0x2F, true))
    case '/' => Some((0x2C, false)) case '?' => Some((0x2C, true))
    case _ => None
  }

  function CharToKeyCombo(c: char): Option<(KeyCode, bool)> {
    if 'a' <= c <= 'z' then
      var k := LetterKey(((c as int) - 32) as char);
      if k.Some? then Some((k.value, false)) else None
    else if 'A' <= c <= 'Z' then
      var k := LetterKey(c);
      if k.Some? then Some((k.value, true)) else None
    else SymbolKey(c)
  }

  /** The layout read the other way: what a key types, alone and with shift. */
  function KeyTypes(code: KeyCode): Option<(char, char)> {
    match code
    case 0x00 => Some(('a', 'A')) case 0x01 => Some(('s', 'S')) case 0x02 => Some(('d', 'D'))
    case 0x03 => Some(('f', 'F')) case 0x04 => Some(('h', 'H')) case 0x05 => Some(('g', 'G'))
    case 0x06 => Some(('z', 'Z')) case 0x07 => Some(('x', 'X')) case 0x08 => Some(('c', 'C'))
    case 0x09 => Some(('v', 'V')) case 0x0B => Some(('b', 'B')) case 0x0C => Some(('q', 'Q'))
    case 0x0D => Some(('w', 'W')) case 0x0E => Some(('e', 'E')) case 0x0F => Some(('r', 'R'))
    case 0x10 => Some(('y', 'Y')) case 0x11 => Some(('t', 'T')) case 0x1F => Some(('o', 'O'))
    case 0x20 => Some(('u', 'U')) case 0x22 => Some(('i', 'I')) case 0x23 => Some(('p', 'P'))
    case 0x25 => Some(('l', 'L')) case 0x26 => Some(('j', 'J')) case 0x28 => Some(('k', 'K'))
    case 0x2D => Some(('n', 'N')) case 0x2E => Some(('m', 'M'))
    case 0x1D => Some(('0', ')')) case 0x12 => Some(('1', '!')) case 0x13 => Some(('2', '@'))
    case 0x14 => Some(('3', '#')) case 0x15 => Some(('4', '$')) case 0x17 => Some(('5', '%'))
    case 0x16 => Some(('6', '^')) case 0x1A => Some(('7', '&')) case 0x1C => Some(('8', '*'))
    case 0x19 => Some(('9', '('))
    case 0x31 => Some((' ', ' ')) case 0x30 => Some(('\t', '\t')) case 0x24 => Some(('\n', '\n'))
    case 0x32 => Some(('`', '~')) case 0x1B => Some(('-', '_')) case 0x18 => Some(('=', '+'))
    case 0x21 => Some(('[', '{')) case 0x1E => Some((']', '}')) case 0x2A => Some(('\\', '|'))
    case 0x29 => Some((';', ':')) case 0x27 => Some(('\'', '"')) case 0x2B => Some((',', '<'))
    case 0x2F => Some(('.', '>')) case 0x2C => Some(('/', '?'))
    case _ => None
  }

  lemma LetterTypesBack(c: char)
    requires 'A' <= c <= 'Z'
    ensures LetterKey(c).Some?
    ensures KeyTypes(LetterKey(c).value) == Some((((c as int) + 32) as char, c))
  {
  }

  lemma SymbolTypesBack(c: char)
    requires SymbolKey(c).Some?
    ensures var (code, shift) := SymbolKey(c).value;
            KeyTypes(code).Some? && c == if shift then KeyTypes(code).value.1 else KeyTypes(code).value.0
  {
  }

  /** Every mapped character is what its key types, so the table is injective. */
  lemma KeyTypesBack(c: char)
    requires CharToKeyCombo(c).Some?
    ensures var (code, shift) := CharToKeyCombo(c).value;
            KeyTypes(code).Some? && c == if shift then KeyTypes(code).value.1 else KeyTypes(code).value.0
  {
    if 'a' <= c <= 'z' {
      LetterTypesBack(((c as int) - 32) as char);
    } else if 'A' <= c <= 'Z' {
      LetterTypesBack(c);
    } else {
      SymbolTypesBack(c);
    }
  }

  lemma TableInjective(c: char, d: char)
    requires CharToKeyCombo(c).Some? && CharToKeyCombo(c) == CharToKeyCombo(d)
    ensures c == d
  {
    KeyTypesBack(c);
    KeyTypesBack(d);
  }

  // ---- typing ----

  function Tap(code: KeyCode, flags: set<Modifier>, text: Option<char>): seq<KeyEvent> {
    [KeyEvent(code, true, flags, text), KeyEvent(code, false, flags, text)]
  }

  function Shifted(code: KeyCode): seq<KeyEvent> {
    [KeyEvent(KEY_SHIFT, true, {}, None)] + Tap(code, {Shift}, None) + [KeyEvent(KEY_SHIFT, false, {}, None)]
  }

  function CharEvents(c: char): seq<KeyEvent> {
    match CharToKeyCombo(c)
    case Some((code, shift)) =>
      if shift then Shifted(code) else Tap(code, {}, None)
    case None => Tap(0, {}, Some(c))
  }

  function TypeEvents(text: string): seq<KeyEvent> {
    if text == "" then [] else TypeEvents(text[..|text| - 1]) + CharEvents(text[|text| - 1])
  }

  /** A posted event, and whether the batch token had fired by then. */
  datatype PostedKey = PostedKey(event: KeyEvent, fired: bool)

  /** How far `left` events have come down after `n` more; None never comes to 0. */
  function Fewer(left: Option<nat>, n: nat): Option<nat> {
    if left.None? then None else Some(if left.value <= n then 0 else left.value - n)
  }

  /** `es`, posted while the token fires after `left` of them. */
  function Timed(es: seq<KeyEvent>, left: Option<nat>): seq<PostedKey> {
    seq(|es|, i requires 0 <= i < |es| => PostedKey(es[i], left.Some? && left.value <= i))
  }

  lemma TimedAppend(es: seq<KeyEvent>, e: KeyEvent, left: Option<nat>)
    ensures Timed(es + [e], left) == Timed(es, left) + [PostedKey(e, Fewer(left, |es|) == Some(0))]
    ensures Fewer(left, |es + [e]|) == Fewer(Fewer(left, |es|), 1)
  {
  }

  /** Where the keyboard's events go. `left` is how many are posted before the token
      fires; the keyboard is never shown the token, and never asks. */
  class KeyPoster {
    var left: Option<nat>
    var posted: seq<PostedKey>

    constructor (left: Option<nat>)
      ensures this.left == left && posted == []
    {
      this.left, posted := left, [];
    }

    method Post(e: KeyEvent)
      modifies this
      ensures posted == old(posted) + [PostedKey(e, old(left) == Some(0))] && left == Fewer(old(left), 1)
    {
      posted := posted + [PostedKey(e, left == Some(0))];
      left := Fewer(left, 1);
    }

    /** The same, when `sent` has already gone out since the token would fire after `from`. */
    method PostAfter(e: KeyEvent, ghost before: seq<PostedKey>, ghost sent: seq<KeyEvent>, ghost from: Option<nat>)
      requires posted == before + Timed(sent, from) && left == Fewer(from, |sent|)
      modifies this
      ensures posted == before + Timed(sent + [e], from) && left == Fewer(from, |sent + [e]|)
    {
      TimedAppend(sent, e, from);
      Post(e);
    }
  }

  method TypeText(text: string, post: KeyPoster)
    modifies post
    ensures post.posted == old(post.posted) + Timed(TypeEvents(text), old(post.left))
  {
    ghost var (was, from) := (post.posted, post.left);
    for i := 0 to |text|
      invariant post.posted == was + Timed(TypeEvents(text[..i]), from)
      invariant post.left == Fewer(from, |TypeEvents(text[..i])|)
    {
      assert text[..i + 1][..i] == text[..i];
      TypeChar(text[i], post, was, TypeEvents(text[..i]), from);
    }
    assert text[..|text|] == text;
  }

  /** One character: a key inside a press of shift if it needs one, or a unicode payload. */
  method TypeChar(c: char, post: KeyPoster, ghost was: seq<PostedKey>, ghost sent: seq<KeyEvent>,
          ghost from: Option<nat>)
    requires post.posted == was + Timed(sent, from) && post.left == Fewer(from, |sent|)
    modifies post
    ensures post.posted == was + Timed(sent + CharEvents(c), from) && post.left == Fewer(from, |sent + CharEvents(c)|)
  {
    ghost var out := sent;
    match CharToKeyCombo(c) {
      case Some((code, shift)) =>
        var shiftDown, shiftUp := KeyEvent(KEY_SHIFT, true, {}, None), KeyEvent(KEY_SHIFT, false, {}, None);
        if shift {
          post.PostAfter(shiftDown, was, out, from);
          out := out + [shiftDown];
        }
        var flags := if shift then {Shift} else {};
        post.PostAfter(KeyEvent(code, true, flags, None), was, out, from);
        out := out + [KeyEvent(code, true, flags, None)];
        post.PostAfter(KeyEvent(code, false, flags, None), was, out, from);
        out := out + [KeyEvent(code, false, flags, None)];
        if shift {
          post.PostAfter(shiftUp, was, out, from);
          out := out + [shiftUp];
        }
      case None =>
        post.PostAfter(KeyEvent(0, true, {}, Some(c)), was, out, from);
        out := out + [KeyEvent(0, true, {}, Some(c))];
        post.PostAfter(KeyEvent(0, false, {}, Some(c)), was, out, from);
        out := out + [KeyEvent(0, false, {}, Some(c))];
    }
    assert out == sent + CharEvents(c);
  }

  /** The events posted with the token fired. */
  function AfterFire(ts: seq<PostedKey>): seq<KeyEvent> {
    if ts == [] then [] else (if ts[0].fired then [ts[0].event] else []) + AfterFire(ts[1..])
  }

  /** When the token fires after `k` events, every event from the `k`-th on still goes out;
      so something goes out under a fired token if and only if `k` is less than their number. */
  lemma {:induction false} KeysAfterAGrab(es: seq<KeyEvent>, k: nat)
    ensures AfterFire(Timed(es, Some(k))) == if k <= |es| then es[k..] else []
    ensures AfterFire(Timed(es, Some(k))) != [] <==> k < |es|
    decreases |es|
  {
    if es != [] {
      var rest := Timed(es, Some(k))[1..];
      assert rest == Timed(es[1..], Some(if k == 0 then 0 else k - 1));
      KeysAfterAGrab(es[1..], if k == 0 then 0 else k - 1);
      if 0 < k <= |es| {
        assert es[1..][k - 1..] == es[k..];
      }
    }
  }

  /** What one stroke types on a US layout: a payload wins over the keycode, and a
      tap inside a shift press types the upper character. */
  function ReadStroke(t: seq<KeyEvent>): Option<char> {
    if |t| == 2 && t == Tap(t[0].code, {}, t[0].text) then
      if t[0].text.Some? then t[0].text
      else if KeyTypes(t[0].code).Some? then Some(KeyTypes(t[0].code).value.0) else None
    else if |t| == 4 && t == Shifted(t[1].code) && KeyTypes(t[1].code).Some? then Some(KeyTypes(t[1].code).value.1)
    else None
  }

  /** How many events the last stroke of a stream takes. */
  function LastStroke(es: seq<KeyEvent>): nat {
    if es != [] && es[|es| - 1].code == KEY_SHIFT then 4 else 2
  }

  /** The text a stream of strokes types, read from the end. */
  function Decode(es: seq<KeyEvent>): Option<string> {
    if es == [] then Some("")
    else if |es| < LastStroke(es) then None
    else
      var cut := |es| - LastStroke(es);
      match (Decode(es[..cut]), ReadStroke(es[cut..]))
      case (Some(text), Some(c)) => Some(text + [c])
      case _ => None
  }

  /** The three forms a character's events take, away from the tables. */
  lemma CharForms(c: char) returns (code: KeyCode, shift: bool, text: Option<char>)
    ensures CharEvents(c) == if shift then Shifted(code) else Tap(code, {}, text)
    ensures code != KEY_SHIFT && (shift ==> text.None?)
    ensures text.Some? ==> text == Some(c)
    ensures text.None? ==> KeyTypes(code).Some? && c == if shift then KeyTypes(code).value.1 else KeyTypes(code).value.0
  {
    match CharToKeyCombo(c)
    case Some((k, s)) =>
      KeyTypesBack(c);
      code, shift, text := k, s, None;
    case None => code, shift, text := 0, false, Some(c);
  }

  lemma CharReads(c: char)
    ensures ReadStroke(CharEvents(c)) == Some(c)
    ensures |CharEvents(c)| == LastStroke(CharEvents(c))
  {
    var code, shift, payload := CharForms(c);
    if shift {
      assert Shifted(code)[1].code == code;
    }
  }

  lemma DecodeChar(es: seq<KeyEvent>, c: char)
    requires Decode(es).Some?
    ensures Decode(es + CharEvents(c)) == Some(Decode(es).value + [c])
  {
    CharReads(c);
    var (all, t) := (es + CharEvents(c), CharEvents(c));
    assert all[|all| - 1] == t[|t| - 1];
    assert all[..|es|] == es && all[|es|..] == t;
  }

  lemma DecodeOneMore(init: string, c: char)
    requires Decode(TypeEvents(init)) == Some(init)
    ensures Decode(TypeEvents(init + [c])) == Some(init + [c])
  {
    assert (init + [c])[..|init|] == init;
    DecodeChar(TypeEvents(init), c);
  }

  lemma InitAndLast(text: string)
    requires text != ""
    ensures text[..|text| - 1] + [text[|text| - 1]] == text
  {
  }

  /** Every string comes back from its events, mapped characters and fallbacks alike. */
  lemma {:induction false} TypingDecodes(text: string)
    ensures Decode(TypeEvents(text)) == Some(text)
    decreases |text|
  {
    if text != "" {
      var (init, c) := (text[..|text| - 1], text[|text| - 1]);
      TypingDecodes(init);
      InitAndLast(text);
      DecodeOneMore(init, c);
    }
  }

  /** The keys held after a stream; None once a key goes down twice or up while up. */
  function Held(es: seq<KeyEvent>): Option<set<KeyCode>> {
    if es == [] then Some({}) else
    var (held, e) := (Held(es[..|es| - 1]), es[|es| - 1]);
    if held.None? || (e.code in held.value) == e.down then None
    else Some(if e.down then held.value + {e.code} else held.value - {e.code})
  }

  lemma {:induction false} TapReleases(es: seq<KeyEvent>, code: KeyCode, flags: set<Modifier>, text: Option<char>)
    requires Held(es).Some? && code !in Held(es).value
    ensures Held(es + Tap(code, flags, text)) == Held(es)
  {
    var t := Tap(code, flags, text);
    assert (es + t)[..|es| + 1] == es + [t[0]];
    assert (es + [t[0]])[..|es|] == es;
    assert Held(es).value + {code} - {code} == Held(es).value;
  }

  lemma HeldPress(es: seq<KeyEvent>, e: KeyEvent)
    requires Held(es).Some? && (e.code in Held(es).value) != e.down
    ensures Held(es + [e]) == Some(if e.down then Held(es).value + {e.code} else Held(es).value - {e.code})
  {
    assert (es + [e])[..|es|] == es;
  }

  lemma ShiftedReleases(es: seq<KeyEvent>, code: KeyCode)
    requires Held(es) == Some({}) && code != KEY_SHIFT
    ensures Held(es + Shifted(code)) == Some({})
  {
    var (press, release) := (KeyEvent(KEY_SHIFT, true, {}, None), KeyEvent(KEY_SHIFT, false, {}, None));
    HeldPress(es, press);
    TapReleases(es + [press], code, {Shift}, None);
    HeldPress(es + [press] + Tap(code, {Shift}, None), release);
    assert es + Shifted(code) == es + [press] + Tap(code, {Shift}, None) + [release];
  }

  /** At every character boundary all keys, shift included, are up again. */
  lemma {:induction false} TypingReleases(text: string)
    ensures Held(TypeEvents(text)) == Some({})
  {
    if text != "" {
      var (init, c) := (text[..|text| - 1], text[|text| - 1]);
      TypingReleases(init);
      var code, shift, payload := CharForms(c);
      if shift {
        ShiftedReleases(TypeEvents(init), code);
      } else {
        TapReleases(TypeEvents(init), code, {}, payload);
      }
    }
  }

  // ---- combos ----

  /** A key name after table lookup; modifier names are recognised first. */
  datatype KeyName = ModifierName(m: Modifier) | ActionName(code: KeyCode) | UnknownName

  datatype KeyCombo = KeyCombo(flags: set<Modifier>, keycode: Option<KeyCode>)

  datatype ComboError = MoreThanOneActionKey | UnknownKey | EmptyCombo

  function FlagsOf(keys: seq<KeyName>): set<Modifier> {
    set k | k in keys && k.ModifierName? :: k.m
  }

  function ActionsOf(keys: seq<KeyName>): seq<KeyCode> {
    if keys == [] then [] else
    var last := keys[|keys| - 1];
    ActionsOf(keys[..|keys| - 1]) + if last.ActionName? then [last.code] else []
  }

  /** Accepted exactly when every name is known, there is at most one action key and
      something to press; then it is the set of modifiers and that key. */
  method ParseCombo(keys: seq<KeyName>) returns (r: Result<KeyCombo, ComboError>)
    ensures r.Ok? <==> UnknownName !in keys && |ActionsOf(keys)| <= 1 && (FlagsOf(keys) != {} || |ActionsOf(keys)| == 1)
    ensures r.Ok? ==>
              r.value == KeyCombo(FlagsOf(keys), if ActionsOf(keys) == [] then None else Some(ActionsOf(keys)[0]))
    ensures r.Err? && r.error == EmptyCombo <==> keys == []
  {
    var flags: set<Modifier> := {};
    var keycode: Option<KeyCode> := None;
    for i := 0 to |keys|
      invariant UnknownName !in keys[..i]
      invariant flags == FlagsOf(keys[..i])
      invariant ActionsOf(keys[..i]) == if keycode.Some? then [keycode.value] else []
      invariant i > 0 ==> flags != {} || keycode.Some?
    {
      var k := keys[i];
      ComboStep(keys, i);
      match k {
        case ModifierName(m) =>
          flags := flags + {m};
        case ActionName(code) =>
          if keycode.Some? {
            ActionsGrow(keys, i + 1);
            return Err(MoreThanOneActionKey);
          }
          keycode := Some(code);
        case UnknownName =>
          return Err(UnknownKey);
      }
    }
    WholePrefix(keys);
    if keycode.None? && flags == {} {
      return Err(EmptyCombo);
    }
    r := Ok(KeyCombo(flags, keycode));
  }

  lemma ComboStep(keys: seq<KeyName>, i: nat)
    requires i < |keys|
    ensures FlagsOf(keys[..i + 1]) == FlagsOf(keys[..i]) + if keys[i].ModifierName? then {keys[i].m} else {}
    ensures ActionsOf(keys[..i + 1]) == ActionsOf(keys[..i]) + if keys[i].ActionName? then [keys[i].code] else []
    ensures UnknownName in keys[..i + 1] <==> UnknownName in keys[..i] || keys[i] == UnknownName
  {
    var (was, now) := (keys[..i], keys[..i + 1]);
    assert now[..i] == was;
    forall m
      ensures m in FlagsOf(now) <==> m in FlagsOf(was) || keys[i] == ModifierName(m)
    {
      assert m in FlagsOf(now) <==> ModifierName(m) in now;
      assert m in FlagsOf(was) <==> ModifierName(m) in was;
    }
  }

  lemma WholePrefix(keys: seq<KeyName>)
    ensures keys[..|keys|] == keys
  {
  }

  lemma {:induction false} ActionsGrow(keys: seq<KeyName>, i: nat)
    requires i <= |keys|
    ensures |ActionsOf(keys[..i])| <= |ActionsOf(keys)|
  {
    if i < |keys| {
      ActionsGrow(keys[..|keys| - 1], i);
      assert keys[..|keys| - 1][..i] == keys[..i];
    } else {
      assert keys[..i] == keys;
    }
  }

  function ModifierKeyCode(m: Modifier): KeyCode {
    match m
    case Command => 0x37
    case Shift => 0x38
    case Alternate => 0x3A
    case Control => 0x3B
    case SecondaryFn => 0x3F
  }

  /** The one modifier whose key is pressed for a combo. */
  function PressedModifier(flags: set<Modifier>): Option<Modifier> {
    if Command in flags then Some(Command)
    else if Shift in flags then Some(Shift)
    else if Alternate in flags then Some(Alternate)
    else if Control in flags then Some(Control)
    else if SecondaryFn in flags then Some(SecondaryFn)
    else None
  }

  /** The action key is not itself the key of one of the modifiers. */
  ghost predicate KeyApart(combo: KeyCombo) {
    combo.keycode.Some? ==> forall m :: m in combo.flags ==> ModifierKeyCode(m) != combo.keycode.value
  }

  function Edge(m: Option<Modifier>, down: bool): seq<KeyEvent> {
    if m.Some? then [KeyEvent(ModifierKeyCode(m.value), down, {}, None)] else []
  }

  /** The action key's tap inside one modifier's press. */
  function ComboEvents(combo: KeyCombo): seq<KeyEvent> {
    var m := PressedModifier(combo.flags);
    Edge(m, true) + (if combo.keycode.Some? then Tap(combo.keycode.value, combo.flags, None) else []) + Edge(m, false)
  }

  method PostCombo(combo: KeyCombo, post: KeyPoster)
    modifies post
    ensures post.posted == old(post.posted) + Timed(ComboEvents(combo), old(post.left))
  {
    if combo.flags == {} && combo.keycode.None? {
      return;
    }
    ghost var (was, from) := (post.posted, post.left);
    ghost var out := [];
    var m := PressedModifier(combo.flags);
    if m.Some? {
      post.PostAfter(KeyEvent(ModifierKeyCode(m.value), true, {}, None), was, out, from);
      out := out + [KeyEvent(ModifierKeyCode(m.value), true, {}, None)];
    }
    if combo.keycode.Some? {
      post.PostAfter(KeyEvent(combo.keycode.value, true, combo.flags, None), was, out, from);
      out := out + [KeyEvent(combo.keycode.value, true, combo.flags, None)];
      post.PostAfter(KeyEvent(combo.keycode.value, false, combo.flags, None), was, out, from);
      out := out + [KeyEvent(combo.keycode.value, false, combo.flags, None)];
    }
    if m.Some? {
      post.PostAfter(KeyEvent(ModifierKeyCode(m.value), false, {}, None), was, out, from);
      out := out + [KeyEvent(ModifierKeyCode(m.value), false, {}, None)];
    }
    assert out == ComboEvents(combo);
  }

  lemma HeldAlone(code: KeyCode)
    ensures Held([KeyEvent(code, true, {}, None)]) == Some({code})
  {
    HeldPress([], KeyEvent(code, true, {}, None));
    AppendNothing([KeyEvent(code, true, {}, None)]);
    assert {} + {code} == {code};
  }

  lemma HeldAround(code: KeyCode, inner: seq<KeyEvent>)
    requires Held([KeyEvent(code, true, {}, None)] + inner) == Some({code})
    ensures Held([KeyEvent(code, true, {}, None)] + inner + [KeyEvent(code, false, {}, None)]) == Some({})
  {
    HeldPress([KeyEvent(code, true, {}, None)] + inner, KeyEvent(code, false, {}, None));
    assert {code} - {code} == {};
  }

  lemma AppendNothing(es: seq<KeyEvent>)
    ensures es + [] == es && [] + es == es
  {
  }

  /** The action key is the very key pressed for the combo's modifier. */
  predicate SameKeyTwice(combo: KeyCombo) {
    && combo.keycode.Some? && PressedModifier(combo.flags).Some?
    && ModifierKeyCode(PressedModifier(combo.flags).value) == combo.keycode.value
  }

  lemma ApartReleases(combo: KeyCombo)
    requires !SameKeyTwice(combo)
    ensures Held(ComboEvents(combo)) == Some({})
  {
    var tap := if combo.keycode.Some? then Tap(combo.keycode.value, combo.flags, None) else [];
    match PressedModifier(combo.flags)
    case Some(m) =>
      var press := [KeyEvent(ModifierKeyCode(m), true, {}, None)];
      HeldAlone(ModifierKeyCode(m));
      if combo.keycode.Some? {
        TapReleases(press, combo.keycode.value, combo.flags, None);
      } else {
        AppendNothing(press);
      }
      HeldAround(ModifierKeyCode(m), tap);
    case None =>
      if combo.keycode.Some? {
        TapReleases([], combo.keycode.value, combo.flags, None);
      }
      AppendNothing(tap);
  }

  lemma {:induction false} StuckStays(es: seq<KeyEvent>, more: seq<KeyEvent>)
    requires Held(es).None?
    ensures Held(es + more).None?
    decreases |more|
  {
    if more == [] {
      AppendNothing(es);
    } else {
      StuckStays(es, more[..|more| - 1]);
      assert (es + more)[..|es + more| - 1] == es + more[..|more| - 1];
    }
  }

  lemma PressedTwice(code: KeyCode, flags: set<Modifier>)
    ensures Held([KeyEvent(code, true, {}, None), KeyEvent(code, true, flags, None)]).None?
  {
    var (first, second) := (KeyEvent(code, true, {}, None), KeyEvent(code, true, flags, None));
    HeldAlone(code);
    assert [first, second][..1] == [first];
  }

  /** A combo presses each of its keys once and leaves every key up, exactly when its
      action key is not the key already pressed for its modifier. */
  lemma ComboReleases(combo: KeyCombo)
    ensures Held(ComboEvents(combo)) == Some({}) <==> !SameKeyTwice(combo)
    ensures KeyApart(combo) ==> !SameKeyTwice(combo)
  {
    if SameKeyTwice(combo) {
      var (es, code) := (ComboEvents(combo), combo.keycode.value);
      PressedTwice(code, combo.flags);
      StuckStays(es[..2], es[2..]);
      assert es == es[..2] + es[2..];
      assert es[..2] == [KeyEvent(code, true, {}, None), KeyEvent(code, true, combo.flags, None)];
    } else {
      ApartReleases(combo);
    }
  }

  function KeysPressed(es: seq<KeyEvent>): set<KeyCode> { set e | e in es && e.down :: e.code }

  /** The keys a combo presses: the action key, and the key of one modifier. */
  lemma ComboPresses(combo: KeyCombo)
    ensures KeysPressed(ComboEvents(combo))
         == (match PressedModifier(combo.flags) case Some(m) => {ModifierKeyCode(m)} case None => {})
          + (match combo.keycode case Some(code) => {code} case None => {})
  {
    var es := ComboEvents(combo);
    var m := PressedModifier(combo.flags);
    if m.Some? {
      assert es[0] in es;
    }
    if combo.keycode.Some? {
      assert es[|Edge(m, true)|] in es;
    }
  }

  /** Command before shift, shift before alternate, alternate before control, and the
      function key last. */
  function Precedence(m: Modifier): nat {
    match m
    case Command => 0
    case Shift => 1
    case Alternate => 2
    case Control => 3
    case SecondaryFn => 4
  }

  /** The modifier whose key is pressed is the first of the combination's. */
  lemma PressedIsFirst(flags: set<Modifier>, m: Modifier)
    ensures PressedModifier(flags) == Some(m) <==>
              m in flags && forall n :: n in flags ==> Precedence(m) <= Precedence(n)
  {
    if m in flags && forall n :: n in flags ==> Precedence(m) <= Precedence(n) {
      assert forall n: Modifier :: n in flags && n != m ==> Precedence(m) < Precedence(n);
    }
  }

  /** A character that needs shift is typed inside a press of the key that is the modifier
      shift in a combination, with the shift flag on its own key; no other character's
      events touch a modifier's key. */
  lemma ShiftIsTheModifier(c: char)
    ensures var (es, shift) := (CharEvents(c), ModifierKeyCode(Shift));
            if CharToKeyCombo(c).Some? && CharToKeyCombo(c).value.1 then
              && |es| == 4
              && es[0] == KeyEvent(shift, true, {}, None) && es[3] == KeyEvent(shift, false, {}, None)
              && es[1].flags == {Shift} && es[2].flags == {Shift} && es[1].down && !es[2].down
            else |es| == 2 && forall e :: e in es ==> e.flags == {} && e.code != shift
  {
    var code, shift, text := CharForms(c);
  }

  /** Only the one modifier whose key is pressed. */
  lemma OneModifier(flags: set<Modifier>)
    ensures (forall m :: m in flags ==> PressedModifier(flags) == Some(m)) <==> |flags| <= 1
  {
    if forall m :: m in flags ==> PressedModifier(flags) == Some(m) {
      if flags != {} {
        var m :| m in flags;
        assert flags == {m};
      }
    } else {
      var m :| m in flags && PressedModifier(flags) != Some(m);
      assert m.Command? || m.Shift? || m.Alternate? || m.Control? || m.SecondaryFn?;
      var p := PressedModifier(flags).value;
      assert {m, p} <= flags && |{m, p}| == 2;
      SubsetSize({m, p}, flags);
    }
  }

  /** The keyboard read the other way: the modifier a key is. */
  function ModifierOf(code: KeyCode): Option<Modifier> {
    match code
    case 0x37 => Some(Command)
    case 0x38 => Some(Shift)
    case 0x3A => Some(Alternate)
    case 0x3B => Some(Control)
    case 0x3F => Some(SecondaryFn)
    case _ => None
  }

  /** Every modifier's key is its own, and types nothing. */
  lemma ModifierKeysBack(m: Modifier)
    ensures ModifierOf(ModifierKeyCode(m)) == Some(m) && KeyTypes(ModifierKeyCode(m)).None?
  {
  }

  lemma ModifierKeysDiffer(m: Modifier, n: Modifier)
    ensures ModifierKeyCode(m) == ModifierKeyCode(n) <==> m == n
  {
  }

  /** Every modifier of a combo has its key pressed among the posted events exactly when
      there is at most one: the others are only flag bits on the action key. (A combo
      whose action key is itself a modifier's key presses that one too.) */
  lemma AllModifiersPressed(combo: KeyCombo)
    ensures (forall m :: m in combo.flags ==> ModifierKeyCode(m) in KeysPressed(ComboEvents(combo)))
       <==> (forall m :: m in combo.flags ==>
               PressedModifier(combo.flags) == Some(m) || combo.keycode == Some(ModifierKeyCode(m)))
    ensures KeyApart(combo) ==>
              ((forall m :: m in combo.flags ==> ModifierKeyCode(m) in KeysPressed(ComboEvents(combo)))
               <==> |combo.flags| <= 1)
  {
    ComboPresses(combo);
    OneModifier(combo.flags);
    forall m | m in combo.flags
      ensures ModifierKeyCode(m) in KeysPressed(ComboEvents(combo)) <==>
              PressedModifier(combo.flags) == Some(m) || combo.keycode == Some(ModifierKeyCode(m))
    {
      if PressedModifier(combo.flags).Some? {
        ModifierKeysDiffer(m, PressedModifier(combo.flags).value);
      }
    }
  }

  lemma SubsetSize<T>(a: set<T>, b: set<T>)
    requires a <= b
    ensures |a| <= |b|
  {
    assert b == a + (b - a);
  }
}
