/** The detail string a dispatched action carries: how it is printed, and how the
    report parses it back into a pointer-execution result. */
module PointerDetail {
  import opened Basics

  // ---- numbers and flags as text ----

  function Digit(d: nat): char
    requires d < 10
  {
    ('0' as int + d) as char
  }

  function NatText(n: nat): string {
    if n < 10 then [Digit(n)] else NatText(n / 10) + [Digit(n % 10)]
  }

  predicate IsDigit(c: char) { '0' <= c <= '9' }

  function DigitsValue(s: string): Option<nat> {
    if s == "" then None
    else if !IsDigit(s[|s| - 1]) then None
    else
      var low := s[|s| - 1] as int - '0' as int;
      if |s| == 1 then Some(low) else
      var high := DigitsValue(s[..|s| - 1]);
      if high.None? then None else Some(10 * high.value + low)
  }

  /** `str::parse::<u64>`: an optional plus sign, digits, and no overflow. */
  function ParseU64(s: string): Option<nat> {
    var digits := if s != "" && s[0] == '+' then s[1..] else s;
    var v := DigitsValue(digits);
    if v.Some? && v.value < U64_SIZE then v else None
  }

  function BoolText(b: bool): string { if b then "true" else "false" }

  function ParseBool(s: string): Option<bool> {
    if s == "true" then Some(true) else if s == "false" then Some(false) else None
  }

  lemma {:induction false} NatTextParses(n: nat)
    ensures DigitsValue(NatText(n)) == Some(n)
    ensures forall c :: c in NatText(n) ==> IsDigit(c)
    ensures NatText(n) != "" && IsDigit(NatText(n)[0])
  {
    if n >= 10 {
      NatTextParses(n / 10);
      assert NatText(n)[..|NatText(n)| - 1] == NatText(n / 10);
    }
  }

  // ---- fields, separated by ';', keys from values by the first ':' ----

  datatype Field = Field(key: string, value: string)

  function FieldText(f: Field): string { f.key + ":" + f.value }

  function Render(fs: seq<Field>): string
    requires fs != []
  {
    if |fs| == 1 then FieldText(fs[0])
    else Render(fs[..|fs| - 1]) + ";" + FieldText(fs[|fs| - 1])
  }

  /** `str::split`. */
  function SplitOn(s: string, c: char): (parts: seq<string>)
    ensures parts != []
  {
    if s == "" then [""] else
    var parts := SplitOn(s[..|s| - 1], c);
    var last := s[|s| - 1];
    if last == c then parts + [""]
    else parts[..|parts| - 1] + [parts[|parts| - 1] + [last]]
  }

  /** `splitn(2, ':')` with both halves demanded. */
  function SplitField(part: string): Option<Field> {
    if part == "" then None
    else if part[0] == ':' then Some(Field("", part[1..]))
    else
      match SplitField(part[1..])
      case Some(f) => Some(Field([part[0]] + f.key, f.value))
      case None => None
  }

  predicate Separable(f: Field) { ':' !in f.key && ';' !in f.key && ';' !in f.value }

  lemma {:induction false} SplitLast(a: string, b: string, c: char)
    requires c !in b
    ensures SplitOn(a + [c] + b, c) == SplitOn(a, c) + [b]
    decreases |b|
  {
    if b == "" {
      assert a + [c] + b == a + [c];
      assert (a + [c])[..|a|] == a;
    } else {
      var (init, last) := (b[..|b| - 1], b[|b| - 1]);
      SplitLast(a, init, c);
      var all := a + [c] + b;
      assert all[..|all| - 1] == a + [c] + init;
      assert init + [last] == b;
      assert (SplitOn(a, c) + [init])[..|SplitOn(a, c)|] == SplitOn(a, c);
    }
  }

  lemma {:induction false} SplitWhole(b: string, c: char)
    requires c !in b
    ensures SplitOn(b, c) == [b]
    decreases |b|
  {
    if b != "" {
      SplitWhole(b[..|b| - 1], c);
      assert b[..|b| - 1] + [b[|b| - 1]] == b;
    }
  }

  lemma {:induction false} SplitFieldBack(key: string, value: string)
    requires ':' !in key
    ensures SplitField(key + ":" + value) == Some(Field(key, value))
    decreases |key|
  {
    var all := key + ":" + value;
    if key == "" {
      assert all[1..] == value;
    } else {
      SplitFieldBack(key[1..], value);
      assert all[1..] == key[1..] + ":" + value;
      assert [key[0]] + key[1..] == key;
    }
  }

  function Texts(fs: seq<Field>): seq<string> { seq(|fs|, i requires 0 <= i < |fs| => FieldText(fs[i])) }

  lemma FieldTextPlain(f: Field)
    requires Separable(f)
    ensures ';' !in FieldText(f)
  {
  }

  lemma TextsGrow(fs: seq<Field>)
    requires fs != []
    ensures Texts(fs) == Texts(fs[..|fs| - 1]) + [FieldText(fs[|fs| - 1])]
  {
  }

  lemma {:induction false} RenderSplits(fs: seq<Field>)
    requires fs != [] && forall f :: f in fs ==> Separable(f)
    ensures SplitOn(Render(fs), ';') == Texts(fs)
    decreases |fs|
  {
    var (init, last) := (fs[..|fs| - 1], fs[|fs| - 1]);
    assert last in fs;
    FieldTextPlain(last);
    TextsGrow(fs);
    if |fs| == 1 {
      SplitWhole(FieldText(last), ';');
      assert Texts(init) == [];
    } else {
      assert forall f :: f in init ==> f in fs;
      RenderSplits(init);
      SplitLast(Render(init), FieldText(last), ';');
    }
  }

  // ---- the keys ----

  datatype Key =
    | Backend | Isolated | Moved | DeltaPx | Restored | HumanDuring | Detection | Takeover | InputStop | OtherKey

  function KeyName(k: Key): string {
    match k
    case Backend => "pointer_backend"
    case Isolated => "isolated"
    case Moved => "physical_cursor_moved"
    case DeltaPx => "physical_cursor_delta_px"
    case Restored => "physical_cursor_restored"
    case HumanDuring => "human_input_during_fallback"
    case Detection => "event_detection_latency_ms"
    case Takeover => "human_to_takeover_ms"
    case InputStop => "human_to_input_stop_ms"
    case OtherKey => "occlusion"
  }

  function KeyOf(s: string): Key {
    if s == "pointer_backend" then Backend
    else if s == "isolated" then Isolated
    else if s == "physical_cursor_moved" then Moved
    else if s == "physical_cursor_delta_px" then DeltaPx
    else if s == "physical_cursor_restored" then Restored
    else if s == "human_input_during_fallback" then HumanDuring
    else if s == "event_detection_latency_ms" then Detection
    else if s == "human_to_takeover_ms" then Takeover
    else if s == "human_to_input_stop_ms" then InputStop
    else OtherKey
  }

  lemma KeyLengths(k: Key)
    ensures |KeyName(k)| == match k
                            case Backend => 15
                            case Isolated => 8
                            case Moved => 21
                            case DeltaPx => 24
                            case Restored => 24
                            case HumanDuring => 27
                            case Detection => 26
                            case Takeover => 20
                            case InputStop => 22
                            case OtherKey => 9
    ensures k == DeltaPx ==> KeyName(k)[16] == 'd'
    ensures k == Restored ==> KeyName(k)[16] == 'r'
  {
  }

  lemma KeyOfName(k: Key)
    ensures KeyOf(KeyName(k)) == k
  {
    forall j: Key
      ensures KeyName(j) == KeyName(k) ==> j == k
    {
      KeyLengths(j);
      KeyLengths(k);
    }
  }

  lemma KeyPlainShort(k: Key, i: nat)
    requires i < |KeyName(k)| && (k.Backend? || k.Isolated? || k.OtherKey?)
    ensures KeyName(k)[i] != ':' && KeyName(k)[i] != ';'
  {
    match k
    case Backend =>
    case Isolated =>
    case OtherKey =>
  }

  lemma KeyPlainCursor(k: Key, i: nat)
    requires i < |KeyName(k)| && (k.Moved? || k.DeltaPx? || k.Restored?)
    ensures KeyName(k)[i] != ':' && KeyName(k)[i] != ';'
  {
    match k
    case Moved =>
    case DeltaPx =>
    case Restored =>
  }

  lemma KeyPlainEvent(k: Key, i: nat)
    requires i < |KeyName(k)| && (k.HumanDuring? || k.Detection?)
    ensures KeyName(k)[i] != ':' && KeyName(k)[i] != ';'
  {
    match k
    case HumanDuring =>
    case Detection =>
  }

  lemma KeyPlainLatency(k: Key, i: nat)
    requires i < |KeyName(k)| && (k.Takeover? || k.InputStop?)
    ensures KeyName(k)[i] != ':' && KeyName(k)[i] != ';'
  {
    match k
    case Takeover =>
    case InputStop =>
  }

  lemma KeyPlainAt(k: Key, i: nat)
    requires i < |KeyName(k)|
    ensures KeyName(k)[i] != ':' && KeyName(k)[i] != ';'
  {
    match k
    case Backend => KeyPlainShort(k, i);
    case Isolated => KeyPlainShort(k, i);
    case OtherKey => KeyPlainShort(k, i);
    case Moved => KeyPlainCursor(k, i);
    case DeltaPx => KeyPlainCursor(k, i);
    case Restored => KeyPlainCursor(k, i);
    case HumanDuring => KeyPlainEvent(k, i);
    case Detection => KeyPlainEvent(k, i);
    case Takeover => KeyPlainLatency(k, i);
    case InputStop => KeyPlainLatency(k, i);
  }

  lemma KeyPlain(k: Key)
    ensures ':' !in KeyName(k) && ';' !in KeyName(k)
  {
    var name := KeyName(k);
    forall i | 0 <= i < |name|
      ensures name[i] != ':' && name[i] != ';'
    {
      KeyPlainAt(k, i);
    }
  }

  // ---- parsing ----

  datatype PointerResult = PointerResult(
    backend: string, isolated: bool, moved: bool, deltaPx: nat,
    restored: Option<bool>, humanDuring: Option<bool>,
    detection: Option<nat>, takeover: Option<nat>, inputStop: Option<nat>)

  /** The parser's locals. */
  datatype Parsed = Parsed(
    backend: Option<string>, isolated: Option<bool>, moved: Option<bool>, deltaPx: nat,
    restored: Option<bool>, humanDuring: Option<bool>,
    detection: Option<nat>, takeover: Option<nat>, inputStop: Option<nat>)

  const EMPTY: Parsed := Parsed(None, None, None, 0, None, None, None, None, None)

  function GetOr(o: Option<nat>, default: nat): nat { if o.Some? then o.value else default }

  /** One key's effect; unknown keys are skipped. */
  function Accept(p: Parsed, k: Key, v: string): Parsed {
    match k
    case Backend => p.(backend := Some(v))
    case Isolated => p.(isolated := ParseBool(v))
    case Moved => p.(moved := ParseBool(v))
    case DeltaPx => p.(deltaPx := GetOr(DigitsValue(v), 0))
    case Restored => p.(restored := ParseBool(v))
    case HumanDuring => p.(humanDuring := ParseBool(v))
    case Detection => p.(detection := ParseU64(v))
    case Takeover => p.(takeover := ParseU64(v))
    case InputStop => p.(inputStop := ParseU64(v))
    case OtherKey => p
  }

  function Finish(p: Parsed): Option<PointerResult> {
    if p.backend.None? || p.isolated.None? || p.moved.None? then None
    else Some(PointerResult(p.backend.value, p.isolated.value, p.moved.value, p.deltaPx, p.restored,
                            p.humanDuring, p.detection, p.takeover, p.inputStop))
  }

  /** A part without a ':' fails the whole parse. */
  function ParseParts(parts: seq<string>): Option<Parsed> {
    if parts == [] then Some(EMPTY) else
    match (ParseParts(parts[..|parts| - 1]), SplitField(parts[|parts| - 1]))
    case (Some(p), Some(f)) => Some(Accept(p, KeyOf(f.key), f.value))
    case _ => None
  }

  function ParseDetail(detail: string): Option<PointerResult> {
    match ParseParts(SplitOn(detail, ';'))
    case Some(p) => Finish(p)
    case None => None
  }

  lemma {:induction false} PrefixFails(parts: seq<string>, i: nat)
    requires i <= |parts| && ParseParts(parts[..i]).None?
    ensures ParseParts(parts).None?
    decreases |parts|
  {
    if i == |parts| {
      assert parts[..i] == parts;
    } else {
      assert parts[..|parts| - 1][..i] == parts[..i];
      PrefixFails(parts[..|parts| - 1], i);
    }
  }

  method ParsePointerDetail(detail: string) returns (r: Option<PointerResult>)
    ensures r == ParseDetail(detail)
  {
    var parts := SplitOn(detail, ';');
    var p := EMPTY;
    for i := 0 to |parts|
      invariant ParseParts(parts[..i]) == Some(p)
    {
      ghost var next := parts[..i + 1];
      assert next[..i] == parts[..i];
      match SplitField(parts[i]) {
        case None =>
          PrefixFails(parts, i + 1);
          return None;
        case Some(f) =>
          p := Accept(p, KeyOf(f.key), f.value);
      }
    }
    assert parts[..|parts|] == parts;
    r := Finish(p);
  }

  // ---- the strings the queue builds ----

  datatype Telemetry = Telemetry(detection: Option<nat>, takeover: Option<nat>, inputStop: Option<nat>)

  datatype Detail =
    | Message(text: string)
    | Cancelled(telemetry: Telemetry)
    | Direct
    | Accessibility(occludedBy: Option<string>)
    | Virtual
    | PhysicalGrabbed(telemetry: Telemetry)
    | PhysicalReturned(restored: bool)

  datatype Entry = Entry(k: Key, v: string)

  function Entries(d: Detail): seq<Entry> {
    match d
    case Direct =>
      [Entry(Backend, "direct_cg_event"), Entry(Isolated, "true"), Entry(Moved, "false"), Entry(DeltaPx, "0")]
    case Accessibility(occluded) =>
      [Entry(Backend, "accessibility"), Entry(Isolated, "true"), Entry(Moved, "false"), Entry(DeltaPx, "0")]
      + (if occluded.Some? then [Entry(OtherKey, occluded.value)] else [])
    case Virtual =>
      [Entry(Backend, "virtual"), Entry(Isolated, "true"), Entry(Moved, "false")]
    case PhysicalGrabbed(t) =>
      [Entry(Backend, "physical"), Entry(Isolated, "false"), Entry(Moved, "true"), Entry(Restored, "false"),
       Entry(HumanDuring, "true")]
    case PhysicalReturned(b) =>
      [Entry(Backend, "physical"), Entry(Isolated, "false"), Entry(Moved, "true"), Entry(Restored, BoolText(b)),
       Entry(HumanDuring, "false")]
    case Message(_) => []
    case Cancelled(_) => []
  }

  function Measured(k: Key, o: Option<nat>): seq<Entry> { if o.Some? then [Entry(k, NatText(o.value))] else [] }

  function TelemetryEntries(t: Telemetry): seq<Entry> {
    Measured(Detection, t.detection) + Measured(Takeover, t.takeover) + Measured(InputStop, t.inputStop)
  }

  function FieldOf(e: Entry): Field { Field(KeyName(e.k), e.v) }

  function FieldsOf(es: seq<Entry>): seq<Field> { seq(|es|, i requires 0 <= i < |es| => FieldOf(es[i])) }

  /** The `;key:value` suffix appended to a finished detail. */
  function Suffix(es: seq<Entry>): string {
    if es == [] then "" else Suffix(es[..|es| - 1]) + (";" + FieldText(FieldOf(es[|es| - 1])))
  }

  function DetailText(d: Detail): string {
    match d
    case Message(text) => text
    case Cancelled(t) => CANCELLED + Suffix(TelemetryEntries(t))
    case PhysicalGrabbed(t) => Render(FieldsOf(Entries(d))) + Suffix(TelemetryEntries(t))
    case _ => Render(FieldsOf(Entries(d)))
  }

  // ---- printing then parsing ----

  function Accepted(es: seq<Entry>): Parsed {
    if es == [] then EMPTY else
    Accept(Accepted(es[..|es| - 1]), es[|es| - 1].k, es[|es| - 1].v)
  }

  predicate Printable(es: seq<Entry>) { forall e :: e in es ==> ';' !in e.v }

  lemma AcceptOne(es: seq<Entry>, e: Entry)
    ensures Accepted(es + [e]) == Accept(Accepted(es), e.k, e.v)
  {
    assert (es + [e])[..|es|] == es;
  }

  lemma {:induction false} TextsParse(es: seq<Entry>)
    requires Printable(es)
    ensures ParseParts(Texts(FieldsOf(es))) == Some(Accepted(es))
    decreases |es|
  {
    if es != [] {
      var (init, last) := (es[..|es| - 1], es[|es| - 1]);
      assert forall e :: e in init ==> e in es;
      TextsParse(init);
      assert FieldsOf(es)[..|es| - 1] == FieldsOf(init);
      TextsGrow(FieldsOf(es));
      assert Texts(FieldsOf(es))[..|es| - 1] == Texts(FieldsOf(init));
      KeyPlain(last.k);
      KeyOfName(last.k);
      SplitFieldBack(KeyName(last.k), last.v);
    }
  }

  /** Any printed entries parse back to what accepting them gives. */
  lemma RenderedParses(es: seq<Entry>)
    requires es != [] && Printable(es)
    ensures ParseDetail(Render(FieldsOf(es))) == Finish(Accepted(es))
  {
    forall f | f in FieldsOf(es)
      ensures Separable(f)
    {
      var i :| 0 <= i < |es| && FieldsOf(es)[i] == f;
      assert es[i] in es;
      KeyPlain(es[i].k);
    }
    RenderSplits(FieldsOf(es));
    TextsParse(es);
  }

  lemma RenderAppend(es: seq<Entry>, e: Entry)
    requires es != []
    ensures Render(FieldsOf(es + [e])) == Render(FieldsOf(es)) + ";" + FieldText(FieldOf(e))
  {
    assert FieldsOf(es + [e])[..|es|] == FieldsOf(es);
  }

  lemma SuffixAppend(es: seq<Entry>, e: Entry)
    ensures Suffix(es + [e]) == Suffix(es) + (";" + FieldText(FieldOf(e)))
  {
    assert (es + [e])[..|es|] == es;
  }

  lemma Reassociate(a: string, b: string, c: string, d: string)
    ensures a + (b + (c + d)) == a + b + c + d
  {
  }

  lemma InitAndLast(es: seq<Entry>)
    requires es != []
    ensures es[..|es| - 1] + [es[|es| - 1]] == es
  {
  }

  lemma AppendInitAndLast(base: seq<Entry>, es: seq<Entry>)
    requires es != []
    ensures base + es == base + es[..|es| - 1] + [es[|es| - 1]]
  {
  }

  /** The appended suffix reads as more fields of the same detail. */
  lemma {:induction false} SuffixRenders(base: seq<Entry>, more: seq<Entry>)
    requires base != []
    ensures Render(FieldsOf(base)) + Suffix(more) == Render(FieldsOf(base + more))
    decreases |more|
  {
    if more == [] {
      assert base + more == base;
    } else {
      var (init, last) := (more[..|more| - 1], more[|more| - 1]);
      SuffixRenders(base, init);
      AppendInitAndLast(base, more);
      InitAndLast(more);
      RenderAppend(base + init, last);
      SuffixAppend(init, last);
      Reassociate(Render(FieldsOf(base)), Suffix(init), ";", FieldText(FieldOf(last)));
    }
  }

  lemma AcceptFive(a: Entry, b: Entry, c: Entry, d: Entry, e: Entry)
    ensures Accepted([a, b, c]) == Accept(Accept(Accept(EMPTY, a.k, a.v), b.k, b.v), c.k, c.v)
    ensures Accepted([a, b, c, d]) == Accept(Accepted([a, b, c]), d.k, d.v)
    ensures Accepted([a, b, c, d, e]) == Accept(Accepted([a, b, c, d]), e.k, e.v)
  {
    AcceptOne([], a);
    AcceptOne([a], b);
    AcceptOne([a, b], c);
    AcceptOne([a, b, c], d);
    AcceptOne([a, b, c, d], e);
    assert [] + [a] == [a] && [a] + [b] == [a, b] && [a, b] + [c] == [a, b, c];
    assert [a, b, c] + [d] == [a, b, c, d] && [a, b, c, d] + [e] == [a, b, c, d, e];
  }

  predicate U64(o: Option<nat>) { o.Some? ==> o.value < U64_SIZE }

  /** A latency key's effect when something was measured. */
  function WithLatency(p: Parsed, k: Key, o: Option<nat>): Parsed {
    if o.None? then p else
    match k
    case Detection => p.(detection := o)
    case Takeover => p.(takeover := o)
    case InputStop => p.(inputStop := o)
    case _ => p
  }

  lemma NatTextIsU64(n: nat)
    requires n < U64_SIZE
    ensures ParseU64(NatText(n)) == Some(n) && ';' !in NatText(n)
  {
    NatTextParses(n);
  }

  lemma MeasuredAccepted(es: seq<Entry>, k: Key, o: Option<nat>)
    requires U64(o) && k in {Detection, Takeover, InputStop}
    ensures Accepted(es + Measured(k, o)) == WithLatency(Accepted(es), k, o)
    ensures Printable(Measured(k, o))
  {
    if o.Some? {
      AcceptOne(es, Entry(k, NatText(o.value)));
      NatTextIsU64(o.value);
    } else {
      assert es + Measured(k, o) == es;
    }
  }

  lemma ThreeMeasured(es: seq<Entry>, t: Telemetry)
    requires U64(t.detection) && U64(t.takeover) && U64(t.inputStop)
    ensures Accepted(es + Measured(Detection, t.detection) + Measured(Takeover, t.takeover)
                     + Measured(InputStop, t.inputStop))
         == WithLatency(WithLatency(WithLatency(Accepted(es), Detection, t.detection), Takeover, t.takeover),
                        InputStop, t.inputStop)
  {
    var one := es + Measured(Detection, t.detection);
    MeasuredAccepted(es, Detection, t.detection);
    MeasuredAccepted(one, Takeover, t.takeover);
    MeasuredAccepted(one + Measured(Takeover, t.takeover), InputStop, t.inputStop);
  }

  lemma AppendThree(es: seq<Entry>, a: seq<Entry>, b: seq<Entry>, c: seq<Entry>)
    ensures es + (a + b + c) == es + a + b + c
    ensures Printable(a) && Printable(b) && Printable(c) ==> Printable(a + b + c)
  {
  }

  lemma TelemetryAccepted(es: seq<Entry>, t: Telemetry)
    requires U64(t.detection) && U64(t.takeover) && U64(t.inputStop)
    ensures Accepted(es + TelemetryEntries(t))
         == WithLatency(WithLatency(WithLatency(Accepted(es), Detection, t.detection), Takeover, t.takeover),
                        InputStop, t.inputStop)
    ensures Printable(TelemetryEntries(t))
  {
    ThreeMeasured(es, t);
    var (a, b) := (Measured(Detection, t.detection), Measured(Takeover, t.takeover));
    var c := Measured(InputStop, t.inputStop);
    MeasuredAccepted([], Detection, t.detection);
    MeasuredAccepted([], Takeover, t.takeover);
    MeasuredAccepted([], InputStop, t.inputStop);
    AppendThree(es, a, b, c);
  }

  /** What each detail says. */
  function Meaning(d: Detail): Option<PointerResult> {
    match d
    case Direct => Some(PointerResult("direct_cg_event", true, false, 0, None, None, None, None, None))
    case Accessibility(_) => Some(PointerResult("accessibility", true, false, 0, None, None, None, None, None))
    case Virtual => Some(PointerResult("virtual", true, false, 0, None, None, None, None, None))
    case PhysicalGrabbed(t) =>
      Some(PointerResult("physical", false, true, 0, Some(false), Some(true), t.detection, t.takeover, t.inputStop))
    case PhysicalReturned(b) =>
      Some(PointerResult("physical", false, true, 0, Some(b), Some(false), None, None, None))
    case Message(_) => None
    case Cancelled(_) => None
  }

  /** Details as the queue builds them: u64 measurements, and a label from the fixed set. */
  predicate Built(d: Detail) {
    match d
    case PhysicalGrabbed(t) => U64(t.detection) && U64(t.takeover) && U64(t.inputStop)
    case Cancelled(t) => U64(t.detection) && U64(t.takeover) && U64(t.inputStop)
    case Accessibility(occluded) => occluded.Some? ==> ';' !in occluded.value
    case Message(_) => false
    case _ => true
  }

  lemma EntriesMean(d: Detail)
    requires Built(d) && !d.Cancelled? && !d.PhysicalGrabbed?
    ensures Finish(Accepted(Entries(d))) == Meaning(d)
  {
    var es := Entries(d);
    var e := Entry(OtherKey, "");
    match d
    case Direct => AcceptFive(es[0], es[1], es[2], es[3], e);
    case Accessibility(occluded) =>
      AcceptFive(es[0], es[1], es[2], es[3], if |es| == 5 then es[4] else e);
      if occluded.Some? {
        assert es == [es[0], es[1], es[2], es[3], es[4]];
      } else {
        assert es == [es[0], es[1], es[2], es[3]];
      }
    case Virtual => AcceptFive(es[0], es[1], es[2], e, e);
    case PhysicalReturned(_) => AcceptFive(es[0], es[1], es[2], es[3], es[4]);
  }

  lemma ValuePlainAt(v: string, i: nat)
    requires v in {"direct_cg_event", "accessibility", "virtual", "physical", "true", "false", "0"}
    requires i < |v|
    ensures v[i] != ';'
  {
    if v == "direct_cg_event" {
    } else if v == "accessibility" {
    } else if v == "virtual" {
    } else if v == "physical" {
    } else if v == "true" {
    } else if v == "false" {
    } else {
      assert v == "0";
    }
  }

  lemma ValuePlain(v: string)
    requires v in {"direct_cg_event", "accessibility", "virtual", "physical", "true", "false", "0"}
    ensures ';' !in v
  {
    forall i | 0 <= i < |v|
      ensures v[i] != ';'
    {
      ValuePlainAt(v, i);
    }
  }

  /** The values of one detail are drawn from the fixed words. */
  predicate Worded(es: seq<Entry>) {
    forall e :: e in es ==> e.v in {"direct_cg_event", "accessibility", "virtual", "physical", "true", "false", "0"}
  }

  lemma WordedPrintable(es: seq<Entry>)
    requires Worded(es)
    ensures Printable(es)
  {
    forall e | e in es
      ensures ';' !in e.v
    {
      ValuePlain(e.v);
    }
  }

  lemma EntriesPrintable(d: Detail)
    requires Built(d)
    ensures Printable(Entries(d))
  {
    match d
    case Direct => WordedPrintable(Entries(d));
    case Virtual => WordedPrintable(Entries(d));
    case PhysicalGrabbed(_) => WordedPrintable(Entries(d));
    case PhysicalReturned(_) => WordedPrintable(Entries(d));
    case Accessibility(occluded) =>
      var es := Entries(Accessibility(None));
      WordedPrintable(es);
      if occluded.Some? {
        PrintableAppend(es, [Entry(OtherKey, occluded.value)]);
      }
    case _ =>
  }

  /** Every pointer detail the queue prints parses back to exactly what it was built
      from; a cancellation carries its telemetry but parses to nothing. */
  lemma DetailParses(d: Detail)
    requires Built(d)
    ensures ParseDetail(DetailText(d)) == Meaning(d)
  {
    EntriesPrintable(d);
    match d
    case PhysicalGrabbed(t) => GrabbedParses(t);
    case Cancelled(t) => CancelledParses(t);
    case _ =>
      EntriesMean(d);
      RenderedParses(Entries(d));
  }

  lemma GrabbedAccepted(t: Telemetry)
    ensures Accepted(Entries(PhysicalGrabbed(t)))
         == EMPTY.(backend := Some("physical"), isolated := Some(false), moved := Some(true),
                   restored := Some(false), humanDuring := Some(true))
  {
    var es := Entries(PhysicalGrabbed(t));
    AcceptFive(es[0], es[1], es[2], es[3], es[4]);
  }

  lemma PrintableAppend(a: seq<Entry>, b: seq<Entry>)
    requires Printable(a) && Printable(b)
    ensures Printable(a + b)
  {
  }

  lemma AppendedParses(base: seq<Entry>, more: seq<Entry>)
    requires base != [] && Printable(base) && Printable(more)
    ensures ParseDetail(Render(FieldsOf(base)) + Suffix(more)) == Finish(Accepted(base + more))
  {
    PrintableAppend(base, more);
    SuffixRenders(base, more);
    RenderedParses(base + more);
  }

  lemma GrabbedMeans(t: Telemetry)
    requires Built(PhysicalGrabbed(t))
    ensures Finish(Accepted(Entries(PhysicalGrabbed(t)) + TelemetryEntries(t))) == Meaning(PhysicalGrabbed(t))
    ensures Printable(TelemetryEntries(t))
  {
    GrabbedAccepted(t);
    TelemetryAccepted(Entries(PhysicalGrabbed(t)), t);
  }

  lemma GrabbedParses(t: Telemetry)
    requires Built(PhysicalGrabbed(t))
    ensures ParseDetail(DetailText(PhysicalGrabbed(t))) == Meaning(PhysicalGrabbed(t))
  {
    GrabbedMeans(t);
    EntriesPrintable(PhysicalGrabbed(t));
    AppendedParses(Entries(PhysicalGrabbed(t)), TelemetryEntries(t));
  }

  const CANCELLED: string := "cancelled by user takeover"

  lemma CancelledPlainAt(i: nat)
    requires i < |CANCELLED|
    ensures CANCELLED[i] != ':' && CANCELLED[i] != ';'
  {
  }

  lemma CancelledPlain()
    ensures ':' !in CANCELLED && ';' !in CANCELLED
  {
    forall i | 0 <= i < |CANCELLED|
      ensures CANCELLED[i] != ':' && CANCELLED[i] != ';'
    {
      CancelledPlainAt(i);
    }
  }

  lemma {:induction false} NoColonNoField(part: string)
    requires ':' !in part
    ensures SplitField(part).None?
    decreases |part|
  {
    if part != "" {
      assert part[0] in part && forall c :: c in part[1..] ==> c in part;
      NoColonNoField(part[1..]);
    }
  }

  lemma {:induction false} SuffixSplits(head: string, es: seq<Entry>)
    requires ';' !in head && Printable(es)
    ensures SplitOn(head + Suffix(es), ';') == [head] + Texts(FieldsOf(es))
    decreases |es|
  {
    if es == [] {
      assert head + Suffix(es) == head && [head] + Texts(FieldsOf(es)) == [head];
      SplitWhole(head, ';');
    } else {
      var (init, last) := (es[..|es| - 1], es[|es| - 1]);
      assert forall e :: e in init ==> e in es;
      assert last in es;
      SuffixSplits(head, init);
      KeyPlain(last.k);
      FieldTextPlain(FieldOf(last));
      SplitLast(head + Suffix(init), FieldText(FieldOf(last)), ';');
      Reassociate(head, Suffix(init), ";", FieldText(FieldOf(last)));
      TextsGrow(FieldsOf(es));
      assert FieldsOf(es)[..|es| - 1] == FieldsOf(init);
    }
  }

  lemma CancelledParses(t: Telemetry)
    requires Built(Cancelled(t))
    ensures ParseDetail(DetailText(Cancelled(t))).None?
  {
    CancelledPlain();
    TelemetryAccepted([], t);
    SuffixSplits(CANCELLED, TelemetryEntries(t));
    var parts := SplitOn(DetailText(Cancelled(t)), ';');
    NoColonNoField(CANCELLED);
    assert parts[..1] == [CANCELLED];
    PrefixFails(parts, 1);
  }
}
