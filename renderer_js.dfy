/** The definition builder (js/renderer.js): it takes the choir and song from
    the trigger key or the parameters, turns the song's parts into rectangles
    by aspect ratio, keeps hidden parts aside, orders the rectangles by their
    reversed id, lays them out, and writes a definition whose inputs carry a
    position and a stereo pan for every laid-out part. The layout library and
    the songs service are parameters. */
module RendererJs {
  import opened Wrappers
  import opened Strings
  import opened Sorting
  import opened Definition
  import opened CompositorChild

  // ---------------------------------------------------------------------------
  // reverseString

  /** `str.split('').reverse().join('')`. */
  function Reverse(s: string): (r: string)
    ensures |r| == |s|
  {
    if |s| == 0 then "" else [s[|s| - 1]] + Reverse(s[..|s| - 1])
  }

  lemma {:induction false} ReverseAt(s: string, i: int)
    requires 0 <= i < |s|
    ensures Reverse(s)[i] == s[|s| - 1 - i]
  {
    if i > 0 {
      ReverseAt(s[..|s| - 1], i - 1);
    }
  }

  /** Reversing twice gives the string back. */
  lemma ReverseInvolution(s: string)
    ensures Reverse(Reverse(s)) == s
  {
    forall i | 0 <= i < |s| ensures Reverse(Reverse(s))[i] == s[i] {
      ReverseAt(Reverse(s), i);
      ReverseAt(s, |s| - 1 - i);
    }
  }

  /** The sort key: the character codes of the reversed id. */
  function ReversedId(r: Rect): seq<int> {
    Codes(Reverse(r.id))
  }

  /** The comparator answers 0 exactly for equal ids, and otherwise orders
      the two ids one way or the other. */
  lemma ReversedIdOrder(a: Rect, b: Rect)
    ensures ReversedId(a) == ReversedId(b) <==> a.id == b.id
    ensures LexLe(ReversedId(a), ReversedId(b)) || LexLe(ReversedId(b), ReversedId(a))
  {
    if ReversedId(a) == ReversedId(b) {
      CodesInjective(Reverse(a.id), Reverse(b.id));
      ReverseInvolution(a.id);
      ReverseInvolution(b.id);
    }
    LexTotal(ReversedId(a), ReversedId(b));
  }

  // ---------------------------------------------------------------------------
  // parseInt

  /** A JavaScript number: the model needs finite values and NaN. */
  datatype Number = Num(v: real) | NaN

  /** The characters `parseInt` skips at the start: white space and line
      terminators. */
  predicate JsSpace(c: char) {
    c == '\t' || c == '\U{b}' || c == '\U{c}' || c == ' ' || c == '\U{a0}' || c == '\U{feff}'
    || c == '\n' || c == '\r' || c == '\U{2028}' || c == '\U{2029}' || c == '\U{1680}'
    || ('\U{2000}' <= c <= '\U{200a}') || c == '\U{202f}' || c == '\U{205f}' || c == '\U{3000}'
  }

  function TrimStart(s: string): (r: string)
    ensures |r| <= |s| && r == s[|s| - |r|..]
    ensures |r| > 0 ==> !JsSpace(r[0])
    ensures forall i :: 0 <= i < |s| - |r| ==> JsSpace(s[i])
  {
    if |s| > 0 && JsSpace(s[0]) then TrimStart(s[1..]) else s
  }

  /** The value of a digit in the given radix, if it is one. */
  function DigitIn(c: char, radix: nat): (r: Option<nat>)
    ensures r.Some? ==> r.value < radix
  {
    var d: int :=
      if '0' <= c <= '9' then c as int - '0' as int
      else if 'a' <= c <= 'z' then c as int - 'a' as int + 10
      else if 'A' <= c <= 'Z' then c as int - 'A' as int + 10
      else radix;
    if 0 <= d < radix then Some(d) else None
  }

  /** The longest prefix made of digits of the radix. */
  function DigitRun(s: string, radix: nat): (r: string)
    ensures StartsWith(s, r)
    ensures forall i :: 0 <= i < |r| ==> DigitIn(r[i], radix).Some?
    ensures |r| < |s| ==> DigitIn(s[|r|], radix).None?
  {
    if |s| == 0 || DigitIn(s[0], radix).None? then "" else [s[0]] + DigitRun(s[1..], radix)
  }

  /** The value of a run of digits in radix 10 or 16 (the only two
      `parseInt` picks without a radix argument). */
  function RadixValue(ds: string, radix: nat): nat
    requires radix == 10 || radix == 16
    requires forall i :: 0 <= i < |ds| ==> DigitIn(ds[i], radix).Some?
  {
    if |ds| == 0 then 0
    else
      var v, d := RadixValue(ds[..|ds| - 1], radix), DigitIn(ds[|ds| - 1], radix).value;
      if radix == 10 then v * 10 + d else v * 16 + d
  }

  /** The digits after the sign: a `0x` or `0X` prefix selects hexadecimal,
      then the longest run of digits counts; no digits give `None`. */
  function UnsignedValue(u: string): Option<nat> {
    var hex := |u| >= 2 && u[0] == '0' && (u[1] == 'x' || u[1] == 'X');
    var radix := if hex then 16 else 10;
    var digits := DigitRun(if hex then u[2..] else u, radix);
    if |digits| == 0 then None else Some(RadixValue(digits, radix))
  }

  /** `parseInt(s)` without a radix: leading white space, one sign, then the
      unsigned part; no digits give NaN. */
  function JsParseInt(s: string): (r: Number)
    ensures r.Num? ==> r.v == r.v.Floor as real
  {
    ParseTrimmed(TrimStart(s))
  }

  /** The sign and the unsigned part of the trimmed text. */
  function ParseTrimmed(t: string): (r: Number)
    ensures r.Num? ==> r.v == r.v.Floor as real
  {
    var negative := |t| > 0 && t[0] == '-';
    var u := if |t| > 0 && (t[0] == '-' || t[0] == '+') then t[1..] else t;
    match UnsignedValue(u)
    case None => NaN
    case Some(n) =>
      var z: int := if negative then -(n as int) else n as int;
      assert (z as real).Floor == z;
      Num(z as real)
  }

  lemma {:induction false} DecimalValue(s: string)
    requires AllDigits(s)
    ensures forall i :: 0 <= i < |s| ==> DigitIn(s[i], 10).Some?
    ensures RadixValue(s, 10) == DigitsValue(s)
  {
    if |s| > 0 {
      DecimalValue(s[..|s| - 1]);
    }
  }

  lemma {:induction false} DigitRunAll(s: string)
    requires AllDigits(s)
    ensures DigitRun(s, 10) == s
  {
    if |s| > 0 {
      DigitRunAll(s[1..]);
    }
  }

  /** A run of decimal digits reads as its decimal value. */
  lemma UnsignedDecimal(d: string)
    requires |d| >= 1 && AllDigits(d)
    ensures UnsignedValue(d) == Some(DigitsValue(d))
  {
    assert |d| >= 2 ==> d[1] != 'x' && d[1] != 'X';
    DigitRunAll(d);
    DecimalValue(d);
  }

  /** A plain run of decimal digits reads as its value. */
  lemma DecimalText(d: string)
    requires |d| >= 1 && AllDigits(d)
    ensures JsParseInt(d) == Num(DigitsValue(d) as real)
  {
    UnsignedDecimal(d);
    DigitNotSpace(d[0]);
    TrimStartKeeps(d);
    assert ParseTrimmed(d) == Num(DigitsValue(d) as real);
  }

  lemma DigitNotSpace(c: char)
    requires IsDigit(c)
    ensures !JsSpace(c) && c != '-' && c != '+'
  {
  }

  /** Text that starts with no white space is not trimmed. */
  lemma TrimStartKeeps(s: string)
    requires |s| > 0 && !JsSpace(s[0])
    ensures TrimStart(s) == s
  {
  }

  /** A minus sign before a run of decimal digits negates its value. */
  lemma NegativeDecimalText(d: string)
    requires |d| >= 1 && AllDigits(d)
    ensures JsParseInt("-" + d) == Num(-(DigitsValue(d) as real))
  {
    UnsignedDecimal(d);
    MinusTail(d);
    ParseNegative("-" + d, DigitsValue(d));
  }

  lemma MinusTail(d: string)
    ensures |"-" + d| > 0 && ("-" + d)[0] == '-' && ("-" + d)[1..] == d
  {
  }

  /** Untrimmed text that starts with a minus sign reads as the negated
      value of what follows it. */
  lemma ParseNegative(s: string, n: nat)
    requires |s| > 0 && s[0] == '-' && UnsignedValue(s[1..]) == Some(n)
    ensures JsParseInt(s) == Num(-(n as real))
  {
    assert !JsSpace('-');
    TrimStartKeeps(s);
    assert ParseTrimmed(s) == Num(-(n as real));
  }

  /** `parseInt` reads back any integer written in decimal. */
  lemma ParseIntOfDecimal(i: int)
    ensures JsParseInt(IntToStr(i)) == Num(i as real)
  {
    var n: nat := if i < 0 then -i else i;
    var d := NatToStr(n);
    NatToStrValue(n);
    if i < 0 {
      assert IntToStr(i) == "-" + d;
      NegativeDecimalText(d);
    } else {
      assert IntToStr(i) == d;
      DecimalText(d);
    }
  }

  /** The default aspect ratio splits into its two sides. */
  lemma DefaultAspectSplit()
    ensures Split("640:480", ':') == ["640", "480"]
  {
    SplitJoin(["640", "480"], ':');
    assert Join(["640", "480"], ':') == "640:480";
  }

  /** The value of three decimal digits. */
  lemma ThreeDigits(d: string)
    requires |d| == 3 && AllDigits(d)
    ensures DigitsValue(d) == 100 * (d[0] as int - '0' as int) + 10 * (d[1] as int - '0' as int) + (d[2] as int - '0' as int)
  {
    assert d[..2][..1] == d[..1] && d[..1][..0] == [];
    assert DigitsValue(d[..1]) == d[0] as int - '0' as int;
    assert DigitsValue(d[..2]) == DigitsValue(d[..1]) * 10 + (d[1] as int - '0' as int);
  }

  lemma ParseRoundThreeDigits(d: string, a: int, b: int)
    requires 0 <= a < 10 && 0 <= b < 10
    requires |d| == 3 && d[0] == DigitChar(a) && d[1] == DigitChar(b) && d[2] == '0'
    ensures JsParseInt(d) == Num((100 * a + 10 * b) as real)
  {
    RoundThreeDigits(d, a, b);
    DecimalText(d);
  }

  lemma RoundThreeDigits(d: string, a: int, b: int)
    requires 0 <= a < 10 && 0 <= b < 10
    requires |d| == 3 && d[0] == DigitChar(a) && d[1] == DigitChar(b) && d[2] == '0'
    ensures AllDigits(d) && DigitsValue(d) == 100 * a + 10 * b
  {
    ThreeDigits(d);
  }

  /** The sides of the default aspect ratio read as 640 and 480. */
  lemma DefaultAspectSides()
    ensures JsParseInt("640") == Num(640.0) && JsParseInt("480") == Num(480.0)
  {
    ParseRoundThreeDigits("640", 6, 4);
    ParseRoundThreeDigits("480", 4, 8);
  }

  // ---------------------------------------------------------------------------
  // Parameters

  /** A storage trigger's notification; it has an object name or not. */
  datatype Notification = Notification(objectName: Option<string>)

  /** The parameters `main` reads, each with the one JSON type the code
      expects of it; `None` is `undefined`. */
  datatype Opts = Opts(
    notification: Option<Notification>,
    key: Option<string>,
    choirId: Option<string>,
    songId: Option<string>,
    width: Option<int>,
    height: Option<int>,
    reverb: Option<real>,
    reverbType: Option<string>,
    panning: Option<bool>,
    watermark: Option<string>,
    margin: Option<int>,
    center: Option<bool>)

  /** `opts.notification ? opts.notification.object_name : opts.key`. */
  function KeyOf(opts: Opts): Option<string> {
    if opts.notification.Some? then opts.notification.value.objectName else opts.key
  }

  /** The choir and song ids: the first two '+' fields of the key, or the
      parameters without a key; either one missing or empty means
      `{ ok: false, message: 'missing parameters' }`. */
  function IdsOf(opts: Opts): (r: Option<(string, string)>)
    ensures r.Some? ==> r.value.0 != "" && r.value.1 != ""
    ensures KeyOf(opts).Some? && r.Some? ==>
      |Split(KeyOf(opts).value, '+')| >= 2 && r.value == (Split(KeyOf(opts).value, '+')[0], Split(KeyOf(opts).value, '+')[1])
    ensures KeyOf(opts).None? && r.Some? ==> opts.choirId == Some(r.value.0) && opts.songId == Some(r.value.1)
  {
    var ids: (Option<string>, Option<string>) :=
      match KeyOf(opts)
      case Some(key) =>
        var parts := Split(key, '+');
        (Some(parts[0]), if |parts| > 1 then Some(parts[1]) else None)
      case None => (opts.choirId, opts.songId);
    if ids.1.None? || ids.1.value == "" || ids.0.None? || ids.0.value == "" then None
    else Some((ids.0.value, ids.1.value))
  }

  /** A key that names a choir and a song in its first two fields, such as a
      definition's key, gives those two ids back. */
  lemma IdsOfDefinitionKey(opts: Opts, id: DefinitionId)
    requires KeyOf(opts) == Some(DefinitionKey(id))
    requires PlainId(id.choirId) && PlainId(id.songId) && PlainId(id.defId)
    requires id.choirId != "" && id.songId != ""
    ensures IdsOf(opts) == Some((id.choirId, id.songId))
  {
    var parts := [id.choirId, id.songId, id.defId + ".json"];
    assert Join([id.songId, id.defId], '+') + ".json" == Join(parts[1..], '+');
    assert DefinitionKey(id) == Join(parts, '+');
    assert '+' !in ".json";
    SplitJoin(parts, '+');
  }

  /** `a || d` on a number parameter: 0 and undefined fall back. */
  function OrInt(a: Option<int>, d: int): (r: int)
    ensures a.Some? && a.value != 0 ==> r == a.value
    ensures (a.None? || a.value == 0) ==> r == d
  {
    if a.Some? && a.value != 0 then a.value else d
  }

  function OrReal(a: Option<real>, d: real): (r: real)
    ensures a.Some? && a.value != 0.0 ==> r == a.value
    ensures (a.None? || a.value == 0.0) ==> r == d
  {
    if a.Some? && a.value != 0.0 then a.value else d
  }

  function OrText(a: Option<string>, d: string): (r: string)
    ensures a.Some? && a.value != "" ==> r == a.value
    ensures (a.None? || a.value == "") ==> r == d
  {
    if a.Some? && a.value != "" then a.value else d
  }

  /** `opts.panning || true` as written: the flag can never be turned off. */
  function FlagAsWritten(a: Option<bool>): bool {
    if a.Some? && a.value then a.value else true
  }

  lemma FlagAsWrittenIgnoresFalse()
    ensures FlagAsWritten(Some(false)) == true
  {
  }

  /** The evidently intended default: an explicit `false` turns the flag off,
      undefined keeps it on. */
  function Flag(a: Option<bool>): (r: bool)
    ensures a.Some? ==> r == a.value
    ensures a.None? ==> r
  {
    if a.Some? then a.value else true
  }

  /** The two readings differ exactly on an explicit `false`. */
  lemma FlagReadings(a: Option<bool>)
    ensures FlagAsWritten(a) == Flag(a) <==> a != Some(false)
  {
  }

  /** The `output` section of the definition. */
  datatype Settings = Settings(width: int, height: int, reverb: real, reverbType: string, panning: bool, watermark: string)

  function SettingsOf(opts: Opts): (r: Settings)
    ensures r.width != 0 && r.height != 0 && r.reverb != 0.0
    ensures r.reverbType != "" && r.watermark != ""
    ensures r.panning == Flag(opts.panning)
  {
    Settings(OrInt(opts.width, 1920), OrInt(opts.height, 1080), OrReal(opts.reverb, 0.1),
      OrText(opts.reverbType, "hall"), Flag(opts.panning), OrText(opts.watermark, "choirless_watermark.png"))
  }

  // ---------------------------------------------------------------------------
  // Parts and rectangles

  /** A song part from the songs service. */
  datatype Part = Part(partId: string, aspectRatio: Option<string>, hidden: bool)

  /** The rectangle handed to the layout: the id and the two sides. */
  datatype Rect = Rect(id: string, width: Number, height: Number)

  /** `if (!p.aspectRatio) p.aspectRatio = '640:480'`. */
  function AspectOf(p: Part): (r: string)
    ensures r != ""
  {
    OrText(p.aspectRatio, "640:480")
  }

  /** `parseInt` of the two sides of the aspect ratio's ':'; a missing second
      side is `parseInt(undefined)`, NaN. */
  function RectOf(p: Part): (r: Rect)
    ensures r.id == p.partId
    ensures ':' !in AspectOf(p) ==> r.height == NaN
  {
    var ar := Split(AspectOf(p), ':');
    assert ':' !in AspectOf(p) ==> |ar| == 1 by {
      if ':' !in AspectOf(p) {
        SplitBeforeFirst(AspectOf(p), ':', "");
      }
    }
    Rect(p.partId, JsParseInt(ar[0]), if |ar| > 1 then JsParseInt(ar[1]) else NaN)
  }

  lemma DefaultRect(id: string, hidden: bool)
    ensures RectOf(Part(id, None, hidden)) == Rect(id, Num(640.0), Num(480.0))
  {
    DefaultAspectSplit();
    DefaultAspectSides();
  }

  predicate Shown(p: Part) { !p.hidden }

  predicate Hidden(p: Part) { p.hidden }

  /** The loop over the parts: a shown part's rectangle goes to
      `rectangles`, a hidden one's to `hiddenParts`, both in part order. */
  method Partition(parts: seq<Part>) returns (rectangles: seq<Rect>, hiddenParts: seq<Rect>)
    ensures rectangles == Map(RectOf, Filter(Shown, parts))
    ensures hiddenParts == Map(RectOf, Filter(Hidden, parts))
  {
    rectangles, hiddenParts := [], [];
    for i := 0 to |parts|
      invariant rectangles == Map(RectOf, Filter(Shown, parts[..i]))
      invariant hiddenParts == Map(RectOf, Filter(Hidden, parts[..i]))
    {
      var p := parts[i];
      MapFilterSnoc(RectOf, Shown, parts, i);
      MapFilterSnoc(RectOf, Hidden, parts, i);
      var obj := RectOf(p);
      if !p.hidden {
        rectangles := rectangles + [obj];
      } else {
        hiddenParts := hiddenParts + [obj];
      }
    }
    assert parts[..|parts|] == parts;
  }

  /** Every part lands in exactly one of the two lists. */
  lemma {:induction false} PartitionComplete(parts: seq<Part>)
    ensures multiset(Filter(Shown, parts)) + multiset(Filter(Hidden, parts)) == multiset(parts)
  {
    if |parts| > 0 {
      var n := |parts| - 1;
      var init, last := parts[..n], parts[n];
      PartitionComplete(init);
      FilterSnoc(Shown, parts, n);
      FilterSnoc(Hidden, parts, n);
      assert parts[..n + 1] == parts;
      assert multiset(parts) == multiset(init) + multiset{last};
    }
  }

  /** `rectangles.sort(...)` by reversed id, a stable sort. */
  function SortRectangles(rectangles: seq<Rect>): (r: seq<Rect>)
    ensures SortedBy(r, ReversedId) && multiset(r) == multiset(rectangles)
  {
    SortBy(rectangles, ReversedId)
  }

  // ---------------------------------------------------------------------------
  // Inputs

  /** A rectangle after layout; hidden parts keep no coordinates. */
  datatype Box = Box(id: string, width: Number, height: Number, at: Option<(real, real)>)

  function Unplaced(r: Rect): Box {
    Box(r.id, r.width, r.height, None)
  }

  /** `2 * ((r.x + r.width / 2) / width) - 1`. */
  function PanOf(x: real, w: Number, width: int): (r: Number)
    requires width != 0
    ensures r.NaN? <==> w.NaN?
    ensures w.Num? ==> (r.v + 1.0) / 2.0 * (width as real) == x + w.v / 2.0
  {
    match w
    case NaN => NaN
    case Num(v) => Num(2.0 * ((x + v / 2.0) / width as real) - 1.0)
  }

  /** A part that lies within the canvas is panned between hard left (-1) and
      hard right (1), and its centre's share of the width decides which. */
  lemma PanInRange(x: real, w: real, width: int)
    requires width > 0 && 0.0 <= x && 0.0 <= w && x + w <= width as real
    ensures PanOf(x, Num(w), width).Num?
    ensures -1.0 <= PanOf(x, Num(w), width).v <= 1.0
  {
    var m := x + w / 2.0;
    var W := width as real;
    var q := m / W;
    assert q * W == m;
    assert 0.0 <= m <= W;
  }

  /** One entry of the definition's `inputs`. */
  datatype Input = Input(
    partId: string,
    size: (Number, Number),
    volume: real,
    panning: real,
    offset: real,
    position: Option<(real, real)>,
    pan: Option<Number>)

  /** The map over the laid-out boxes: full volume, no offset, and a position
      (and, with panning on, a pan) only for a box with an `x`. */
  function InputOf(b: Box, width: int, panning: bool): (r: Input)
    requires width != 0
    ensures r.partId == b.id && r.size == (b.width, b.height)
    ensures r.volume == 1.0 && r.panning == 0.0 && r.offset == 0.0
    ensures r.position == b.at
    ensures r.pan.Some? <==> b.at.Some? && panning
    ensures r.pan.Some? ==> r.pan.value == PanOf(b.at.value.0, b.width, width)
  {
    Input(b.id, (b.width, b.height), 1.0, 0.0, 0.0, b.at,
      if b.at.Some? && panning then Some(PanOf(b.at.value.0, b.width, width)) else None)
  }

  function InputsOf(boxes: seq<Box>, width: int, panning: bool): (r: seq<Input>)
    requires width != 0
    ensures |r| == |boxes| && forall i :: 0 <= i < |boxes| ==> r[i] == InputOf(boxes[i], width, panning)
  {
    seq(|boxes|, i requires 0 <= i < |boxes| => InputOf(boxes[i], width, panning))
  }

  /** The hidden parts come last, one input each, in order, with neither a
      position nor a pan. */
  lemma HiddenInputsLast(placed: seq<Box>, hidden: seq<Rect>, width: int, panning: bool)
    requires width != 0
    ensures var inputs := InputsOf(placed + Map(Unplaced, hidden), width, panning);
      |inputs| == |placed| + |hidden|
      && forall k :: 0 <= k < |hidden| ==>
        inputs[|placed| + k].partId == hidden[k].id
        && inputs[|placed| + k].position.None? && inputs[|placed| + k].pan.None?
  {
    var boxes := placed + Map(Unplaced, hidden);
    forall k | 0 <= k < |hidden| ensures boxes[|placed| + k] == Unplaced(hidden[k]) {
    }
  }

  // ---------------------------------------------------------------------------
  // main

  /** The definition the step writes. */
  datatype AutoDefinition = AutoDefinition(choirId: string, songId: string, output: Settings, inputs: seq<Input>)

  /** `{ ok: false, message: 'missing parameters' }`, `{ ok: false }` when the
      service has no parts, or `{ ok: true }` after writing `definition` under
      `key`. */
  datatype Outcome = MissingParameters | NothingToDo | Written(key: string, definition: AutoDefinition)

  /** `[choirId, songId, 'auto'].join('+') + '.json'`. */
  function AutoKey(choirId: string, songId: string): string {
    Join([choirId, songId, "auto"], '+') + ".json"
  }

  /** The compositor reads the written definition's key back as the ids and
      the definition id `auto`. */
  lemma AutoKeyRoundTrip(choirId: string, songId: string)
    requires PlainId(choirId) && PlainId(songId)
    ensures ParseDefinitionKey(AutoKey(choirId, songId)) == Ok(DefinitionId(choirId, songId, "auto"))
  {
    DefinitionKeyRoundTrip(DefinitionId(choirId, songId, "auto"));
  }

  /** The layout library: it places the ordered rectangles in the container
      with the margin, centred or not. */
  type Layout = (seq<Rect>, Size, int, bool) -> seq<Box>

  /** `main` after the parameters: `parts` is the songs service's answer,
      `None` when it is not ok. */
  method RendererMain(opts: Opts, parts: Option<seq<Part>>, boxjam: Layout) returns (r: Outcome)
    ensures IdsOf(opts).None? <==> r == MissingParameters
    ensures IdsOf(opts).Some? ==> (r == NothingToDo <==> parts.None? || |parts.value| == 0)
    ensures r.Written? ==>
      && IdsOf(opts).Some? && parts.Some?
      && var settings := SettingsOf(opts);
      && var shown := SortRectangles(Map(RectOf, Filter(Shown, parts.value)));
      && var placed := boxjam(shown, Size(settings.width, settings.height), OrInt(opts.margin, 10), Flag(opts.center));
      && r.key == AutoKey(IdsOf(opts).value.0, IdsOf(opts).value.1)
      && r.definition.choirId == IdsOf(opts).value.0 && r.definition.songId == IdsOf(opts).value.1
      && r.definition.output == settings
      && r.definition.inputs == InputsOf(placed + Map(Unplaced, Map(RectOf, Filter(Hidden, parts.value))), settings.width, settings.panning)
  {
    var ids := IdsOf(opts);
    if ids.None? {
      return MissingParameters;
    }
    var (choirId, songId) := ids.value;
    var settings := SettingsOf(opts);
    var margin := OrInt(opts.margin, 10);
    var center := Flag(opts.center);
    if parts.None? || |parts.value| == 0 {
      return NothingToDo;
    }
    var rectangles, hiddenParts := Partition(parts.value);
    var ordered := SortRectangles(rectangles);
    var adjusted := boxjam(ordered, Size(settings.width, settings.height), margin, center) + Map(Unplaced, hiddenParts);
    var inputs := InputsOf(adjusted, settings.width, settings.panning);
    r := Written(AutoKey(choirId, songId), AutoDefinition(choirId, songId, settings, inputs));
  }
}
