/** The post-production step (python/post_production.py): from the merged
    `-preprod.nut` render it reads the three ids back, measures the loudness
    in a first ffmpeg pass, takes the loudnorm statistics block out of that
    pass's text output, and plans the second pass with the optional
    watermark and reverb and the `-final.mp4` output key. */
module PostProduction {
  import opened Wrappers
  import opened Strings
  import opened Sorting
  import opened Definition
  import opened Actions
  import opened RendererFinal

  // ---------------------------------------------------------------------------
  // Keys

  /** `Path(key).stem.split('-')[0].split('+')` unpacked into three ids. */
  function ParsePreprodKey(key: string): (r: Result<DefinitionId>)
    ensures r.Ok? <==> Count(Split(Stem(key), '-')[0], '+') == 2
    ensures r.Ok? ==> IdsText(r.value) == Split(Stem(key), '-')[0]
    ensures r.Ok? ==> '-' !in IdsText(r.value) && StartsWith(Stem(key), IdsText(r.value))
  {
    var head := Split(Stem(key), '-')[0];
    SplitHead(Stem(key), '-');
    SplitCount(head, '+');
    var ids := Split(head, '+');
    if |ids| != 3 then Err(UnpackError(3, |ids|))
    else
      ThreeIds(head);
      Ok(DefinitionId(ids[0], ids[1], ids[2]))
  }

  /** Text that splits into three ids at '+' is the ids text of those ids. */
  lemma ThreeIds(head: string)
    requires |Split(head, '+')| == 3
    ensures var ids := Split(head, '+');
      IdsText(DefinitionId(ids[0], ids[1], ids[2])) == head
  {
    var ids := Split(head, '+');
    assert ids == [ids[0], ids[1], ids[2]];
  }

  /** Ids that survive a `-preprod.nut` key: plain, and free of '-'. */
  predicate DashFree(id: DefinitionId) {
    PlainId(id.choirId) && PlainId(id.songId) && PlainId(id.defId)
    && '-' !in id.choirId && '-' !in id.songId && '-' !in id.defId
  }

  /** The stem of the merged render's key is the ids text and `-preprod`. */
  lemma PreprodKeyStem(k: RowKey)
    requires DashFree(DefinitionId(k.choirId, k.songId, k.defId))
    ensures Stem(PreprodKey(k)) == IdsText(DefinitionId(k.choirId, k.songId, k.defId)) + "-preprod"
  {
    var id := DefinitionId(k.choirId, k.songId, k.defId);
    IdsTextShape(id);
    var base := IdsText(id) + "-preprod";
    assert PreprodKey(k) == IdsText(id) + "-preprod.nut";
    PreprodSuffix(IdsText(id));
    StemOfName(base, "nut");
  }

  lemma PreprodSuffix(x: string)
    requires '/' !in x
    ensures x + "-preprod.nut" == x + "-preprod" + "." + "nut"
    ensures '/' !in x + "-preprod" && '/' !in "nut" && '.' !in "nut"
  {
  }

  /** The ids text is the part of that stem before its first '-'. */
  lemma PreprodStemHead(id: DefinitionId)
    requires DashFree(id)
    ensures Split(IdsText(id) + "-preprod", '-')[0] == IdsText(id)
  {
    JoinExcludes([id.choirId, id.songId, id.defId], '+', '-');
    SplitHeadOf(IdsText(id), '-', "preprod");
    DashSuffix(IdsText(id));
  }

  lemma DashSuffix(x: string)
    ensures x + "-preprod" == x + ['-'] + "preprod"
  {
  }

  /** The key parse reads back the ids of the merged render's key. */
  lemma PreprodKeyRoundTrip(k: RowKey)
    requires DashFree(DefinitionId(k.choirId, k.songId, k.defId))
    ensures ParsePreprodKey(PreprodKey(k)) == Ok(DefinitionId(k.choirId, k.songId, k.defId))
  {
    var id := DefinitionId(k.choirId, k.songId, k.defId);
    PreprodKeyStem(k);
    PreprodStemHead(id);
    IdsTextShape(id);
  }

  /** `f'{choir_id}+{song_id}+{def_id}-final.mp4'`. */
  function FinalKey(id: DefinitionId): string {
    IdsText(id) + "-final.mp4"
  }

  // ---------------------------------------------------------------------------
  // The loudnorm statistics block

  /** `[line.strip() for line in output.decode().split('\n')]`. */
  function OutputLines(text: string): (r: seq<string>)
    ensures |r| == |Split(text, '\n')|
    ensures forall i :: 0 <= i < |r| ==> r[i] == Strip(Split(text, '\n')[i])
  {
    Map(Strip, Split(text, '\n'))
  }

  /** The line ffmpeg's loudnorm filter writes just before its JSON block. */
  predicate IsMarker(line: string) {
    StartsWith(line, "[Parsed_loudnorm")
  }

  /** A line that closes the JSON block. */
  predicate IsClose(line: string) {
    StartsWith(line, "}")
  }

  /** Some line before index `j` is a marker. */
  predicate MarkedBefore(lines: seq<string>, j: int)
    requires j <= |lines|
  {
    exists i :: 0 <= i < j && IsMarker(lines[i])
  }

  /** The block `lines[start:end]` the scan settles on. */
  datatype Block = Block(start: nat, end: nat)

  /** `b` is the block the scan finds: it ends at the first closing line that
      comes after some marker, and starts just after the last marker before
      that line. */
  predicate IsBlock(lines: seq<string>, b: Block) {
    && 0 < b.start < b.end <= |lines|
    && IsMarker(lines[b.start - 1]) && IsClose(lines[b.end - 1])
    && (forall j :: b.start <= j < b.end ==> !IsMarker(lines[j]))
    && (forall j :: 0 <= j < b.end - 1 && IsClose(lines[j]) ==> !MarkedBefore(lines, j))
  }

  /** No closing line follows a marker: the scan finds nothing. */
  predicate NoBlock(lines: seq<string>) {
    forall j :: 0 <= j < |lines| && IsClose(lines[j]) ==> !MarkedBefore(lines, j)
  }

  /** The line scan: every marker line moves the start past itself; the first
      closing line after a start sets the end and stops the scan. Python keeps
      `False` in both flags until they are set; every index it stores is at
      least 1, so 0 stands for `False` here. */
  method LoudnormBlock(lines: seq<string>) returns (r: Result<Block>)
    ensures r.Err? <==> NoBlock(lines)
    ensures r.Err? ==> r.error == Exception("Could not parse loudnorm stats; no loudnorm-related output found")
    ensures r.Ok? ==> IsBlock(lines, r.value)
  {
    var start, end := 0, 0;
    for index := 0 to |lines|
      invariant start == 0 <==> !MarkedBefore(lines, index)
      invariant start > 0 ==> start - 1 < index && IsMarker(lines[start - 1])
      invariant start > 0 ==> forall j :: start <= j < index ==> !IsMarker(lines[j])
      invariant forall j :: 0 <= j < index && IsClose(lines[j]) ==> !MarkedBefore(lines, j)
      invariant end == 0
    {
      var line := lines[index];
      MarkedStep(lines, index);
      if IsMarker(line) {
        MarkerNotClose(line);
        start := index + 1;
        continue;
      }
      if start > 0 && IsClose(line) {
        end := index + 1;
        break;
      }
    }
    if !(start > 0 && end > 0) {
      return Err(Exception("Could not parse loudnorm stats; no loudnorm-related output found"));
    }
    r := Ok(Block(start, end));
    assert IsBlock(lines, r.value);
    assert MarkedBefore(lines, end - 1);
  }

  /** A marker line is not a closing line. */
  lemma MarkerNotClose(line: string)
    requires IsMarker(line)
    ensures !IsClose(line)
  {
    assert line[0] == "[Parsed_loudnorm"[0];
  }

  /** One more line is marked before exactly when it is a marker or an
      earlier line was. */
  lemma MarkedStep(lines: seq<string>, index: nat)
    requires index < |lines|
    ensures MarkedBefore(lines, index + 1) <==> MarkedBefore(lines, index) || IsMarker(lines[index])
  {
  }

  /** The scan's answer is the only block with its properties. */
  lemma BlockUnique(lines: seq<string>, a: Block, b: Block)
    requires IsBlock(lines, a) && IsBlock(lines, b)
    ensures a == b
  {
    assert MarkedBefore(lines, a.end - 1);
    assert MarkedBefore(lines, b.end - 1);
  }

  /** A block and no-block exclude each other. */
  lemma BlockOrNone(lines: seq<string>, b: Block)
    requires IsBlock(lines, b)
    ensures !NoBlock(lines)
  {
    assert MarkedBefore(lines, b.end - 1);
  }

  /** The block's text ends with its closing line and holds no marker. */
  lemma BlockShape(lines: seq<string>, b: Block)
    requires IsBlock(lines, b)
    ensures |lines[b.start..b.end]| >= 1
    ensures IsClose(lines[b.start..b.end][|lines[b.start..b.end]| - 1])
    ensures forall l :: l in lines[b.start..b.end] ==> !IsMarker(l)
  {
  }

  /** The measured values the second pass feeds back into loudnorm. */
  datatype LoudnormStats = LoudnormStats(targetOffset: real, inputI: real, inputLra: real, inputTp: real, inputThresh: real)

  /** The text of an exception, as `{e}` would format it. */
  function Describe(e: Error): string {
    match e
    case KeyError(k) => k
    case ValueError(m) => m
    case IndexError(m) => m
    case AttributeError(m) => m
    case TypeError(m) => m
    case Exception(m) => m
  }

  const JsonErrorPrefix := "Could not parse loudnorm stats; wrong JSON format in string: "

  /** The message as written: the string lacks its `f` prefix, so it carries
      the literal text `{e}` instead of the cause. */
  function JsonErrorMessageAsWritten(cause: string): string {
    JsonErrorPrefix + "{e}"
  }

  /** Two different decoding failures give the same message as written, and
      different messages once the cause is put in. */
  lemma JsonErrorMessageAsWrittenLosesCause()
    ensures JsonErrorMessageAsWritten("Expecting value") == JsonErrorMessageAsWritten("Extra data")
    ensures JsonErrorMessage("Expecting value") != JsonErrorMessage("Extra data")
  {
    assert JsonErrorMessage("Expecting value")[|JsonErrorPrefix|] == 'E';
    assert JsonErrorMessage("Expecting value")[|JsonErrorPrefix| + 1] == 'x';
    assert JsonErrorMessage("Expecting value")[|JsonErrorPrefix| + 2] == 'p';
    assert JsonErrorMessage("Extra data")[|JsonErrorPrefix| + 2] == 't';
  }

  /** The message as intended: the cause follows the prefix. */
  function JsonErrorMessage(cause: string): (r: string)
    ensures StartsWith(r, JsonErrorPrefix) && EndsWithText(r, cause)
  {
    JsonErrorPrefix + cause
  }

  /** Different causes give different messages. */
  lemma JsonErrorMessageKeepsCause(a: string, b: string)
    requires JsonErrorMessage(a) == JsonErrorMessage(b)
    ensures a == b
  {
    assert a == JsonErrorMessage(a)[|JsonErrorPrefix|..];
  }

  predicate EndsWithText(s: string, suffix: string) {
    |suffix| <= |s| && s[|s| - |suffix|..] == suffix
  }

  /** The five entries of the decoded block the second pass reads, in the
      order the program reads them. */
  const StatNames: seq<string> := ["target_offset", "input_i", "input_lra", "input_tp", "input_thresh"]

  /** Python's `float(v)` on a decoded JSON value. Numbers convert, a
      boolean counts as 0 or 1, a string is parsed by `parseFloat` (the
      parsing of float literals is not part of this model), and a null, a
      list or an object is a `TypeError`. */
  function PyFloat(v: Value, parseFloat: string -> Result<real>): Result<real> {
    match v
    case Int(i) => Ok(i as real)
    case Num(x) => Ok(x)
    case Bool(b) => Ok(if b then 1.0 else 0.0)
    case Str(t) => parseFloat(t)
    case NotANumber => Err(ValueError("nan"))
    case Null => Err(TypeError("float() argument must be a string or a real number, not 'NoneType'"))
    case List(_) => Err(TypeError("float() argument must be a string or a real number, not 'list'"))
    case Dict(_) => Err(TypeError("float() argument must be a string or a real number, not 'dict'"))
  }

  /** `float(loudnorm_stats[name])`: a missing entry is a `KeyError` naming
      it, and subscripting a decoded value that is not an object by a string
      is a `TypeError`. */
  function StatField(json: Value, name: string, parseFloat: string -> Result<real>): (r: Result<real>)
    ensures r.Ok? ==> json.Dict? && name in json.entries && r == PyFloat(json.entries[name], parseFloat)
    ensures json.Dict? && name !in json.entries ==> r == Err(KeyError(name))
    ensures !json.Dict? ==> r.Err? && r.error.TypeError?
  {
    if !json.Dict? then Err(TypeError("indices must be integers"))
    else if name !in json.entries then Err(KeyError(name))
    else PyFloat(json.entries[name], parseFloat)
  }

  /** The reads of `names` one after the other: the first read that fails
      raises its own exception, and otherwise the values come in order. */
  function ReadFields(json: Value, names: seq<string>, parseFloat: string -> Result<real>): (r: Result<seq<real>>)
    ensures r.Ok? <==> forall i :: 0 <= i < |names| ==> StatField(json, names[i], parseFloat).Ok?
    ensures r.Ok? ==> && |r.value| == |names|
                      && forall i :: 0 <= i < |names| ==> Ok(r.value[i]) == StatField(json, names[i], parseFloat)
    ensures r.Err? ==> exists i :: 0 <= i < |names| && StatField(json, names[i], parseFloat) == Err(r.error)
                                   && forall j :: 0 <= j < i ==> StatField(json, names[j], parseFloat).Ok?
    decreases |names|
  {
    if |names| == 0 then Ok([])
    else
      match StatField(json, names[0], parseFloat)
      case Err(e) => Err(e)
      case Ok(x) =>
        match ReadFields(json, names[1..], parseFloat)
        case Err(e) =>
          ghost var i :| 0 <= i < |names[1..]| && StatField(json, names[1..][i], parseFloat) == Err(e)
                         && forall j :: 0 <= j < i ==> StatField(json, names[1..][j], parseFloat).Ok?;
          assert StatField(json, names[i + 1], parseFloat) == Err(e);
          Err(e)
        case Ok(xs) => Ok([x] + xs)
  }

  /** The five reads one after the other, outside the `try`: the first read
      that fails raises its own exception, unwrapped. */
  function ReadStats(json: Value, parseFloat: string -> Result<real>): (r: Result<LoudnormStats>)
    ensures r.Ok? <==> forall i :: 0 <= i < |StatNames| ==> StatField(json, StatNames[i], parseFloat).Ok?
    ensures r.Ok? ==> r.value == LoudnormStats(
      StatField(json, StatNames[0], parseFloat).value, StatField(json, StatNames[1], parseFloat).value,
      StatField(json, StatNames[2], parseFloat).value, StatField(json, StatNames[3], parseFloat).value,
      StatField(json, StatNames[4], parseFloat).value)
    ensures r.Err? ==> exists i :: 0 <= i < |StatNames| && StatField(json, StatNames[i], parseFloat) == Err(r.error)
                                   && forall j :: 0 <= j < i ==> StatField(json, StatNames[j], parseFloat).Ok?
  {
    match ReadFields(json, StatNames, parseFloat)
    case Err(e) => Err(e)
    case Ok(v) => Ok(LoudnormStats(v[0], v[1], v[2], v[3], v[4]))
  }

  /** `json.loads('\n'.join(lines[start:end]))` inside the `try`, with the
      decoding as a parameter, followed by the five reads outside it. A
      decoding failure raises the message that names its cause (as
      intended, see `JsonErrorMessage`); a failed read raises its own
      exception. */
  function Stats(lines: seq<string>, b: Block, decode: string -> Result<Value>, parseFloat: string -> Result<real>): (r: Result<LoudnormStats>)
    requires b.start <= b.end <= |lines|
    ensures decode(Join(lines[b.start..b.end], '\n')).Err? ==>
      r == Err(Exception(JsonErrorMessage(Describe(decode(Join(lines[b.start..b.end], '\n')).error))))
    ensures decode(Join(lines[b.start..b.end], '\n')).Ok? ==> r == ReadStats(decode(Join(lines[b.start..b.end], '\n')).value, parseFloat)
    ensures r.Ok? <==> (decode(Join(lines[b.start..b.end], '\n')).Ok?
      && forall i :: 0 <= i < |StatNames| ==> StatField(decode(Join(lines[b.start..b.end], '\n')).value, StatNames[i], parseFloat).Ok?)
  {
    match decode(Join(lines[b.start..b.end], '\n'))
    case Ok(json) => ReadStats(json, parseFloat)
    case Err(e) => Err(Exception(JsonErrorMessage(Describe(e))))
  }

  /** A block that decodes to an object lacking `input_i` fails with the
      `KeyError` of the read, not with the decoding message. */
  lemma MissingFieldIsKeyError(lines: seq<string>, b: Block, decode: string -> Result<Value>, parseFloat: string -> Result<real>)
    requires b.start <= b.end <= |lines|
    requires decode(Join(lines[b.start..b.end], '\n')).Ok?
    requires decode(Join(lines[b.start..b.end], '\n')).value.Dict?
    requires "target_offset" in decode(Join(lines[b.start..b.end], '\n')).value.entries
    requires PyFloat(decode(Join(lines[b.start..b.end], '\n')).value.entries["target_offset"], parseFloat).Ok?
    requires "input_i" !in decode(Join(lines[b.start..b.end], '\n')).value.entries
    ensures Stats(lines, b, decode, parseFloat) == Err(KeyError("input_i"))
  {
  }

  // ---------------------------------------------------------------------------
  // The second pass

  /** The entries of the definition's `output` the step reads. */
  datatype OutputSpec = OutputSpec(size: Size, watermark: Option<string>, reverbType: Option<string>, reverb: Option<real>)

  /** The impulse response to convolve with and the wet fraction. */
  datatype ReverbMix = ReverbMix(impulseKey: string, pct: real)

  /** `if reverb_type:` then `reverb_pct = float(output_spec.get('reverb', 0.1))`
      and the mix only `if reverb_pct > 0`. */
  function ReverbOf(reverbType: Option<string>, reverb: Option<real>): (r: Option<ReverbMix>)
    ensures r.Some? <==> reverbType.Some? && reverbType.value != "" && (reverb.None? || reverb.value > 0.0)
    ensures r.Some? ==> r.value.impulseKey == reverbType.value + ".wav"
    ensures r.Some? ==> 0.0 < r.value.pct && (reverb.Some? ==> r.value.pct == reverb.value)
  {
    if reverbType.Some? && reverbType.value != "" then
      var pct := if reverb.Some? then reverb.value else 0.1;
      if pct > 0.0 then Some(ReverbMix(reverbType.value + ".wav", pct)) else None
    else None
  }

  /** Without a `reverb` entry a named reverb is mixed in at 0.1, and the dry
      and wet weights always add up to one. */
  lemma ReverbDefault(reverbType: string)
    requires reverbType != ""
    ensures ReverbOf(Some(reverbType), None) == Some(ReverbMix(reverbType + ".wav", 0.1))
    ensures (1.0 - ReverbOf(Some(reverbType), None).value.pct) + ReverbOf(Some(reverbType), None).value.pct == 1.0
  {
  }

  /** `if watermark_file:` the watermark is overlaid. */
  function WatermarkOf(watermark: Option<string>): (r: Option<string>)
    ensures r.Some? <==> watermark.Some? && watermark.value != ""
    ensures r.Some? ==> r == watermark
  {
    if watermark.Some? && watermark.value != "" then watermark else None
  }

  /** What the step renders and returns. */
  datatype Produced = Produced(
    definitionKey: string,
    inputKey: string,
    padTo: Size,
    watermark: Option<string>,
    stats: LoudnormStats,
    reverb: Option<ReverbMix>,
    dstKey: string,
    defId: string)

  /** `main` from the key onwards; the definition's `output`, the first
      pass's text output and the JSON decoding are parameters. */
  method PostProductionMain(args: Args, output: OutputSpec, ffmpegOutput: string, decode: string -> Result<Value>,
    parseFloat: string -> Result<real>)
    returns (r: Result<Produced>)
    ensures KeyArg(args.fields, "key").Err? ==> r.Err?
    ensures KeyArg(args.fields, "key").Ok? && ParsePreprodKey(KeyArg(args.fields, "key").value).Err? ==> r.Err?
    ensures (KeyArg(args.fields, "key").Ok? && ParsePreprodKey(KeyArg(args.fields, "key").value).Ok?
      && NoBlock(OutputLines(ffmpegOutput))) ==>
      r == Err(Exception("Could not parse loudnorm stats; no loudnorm-related output found"))
    ensures KeyArg(args.fields, "key").Ok? && ParsePreprodKey(KeyArg(args.fields, "key").value).Ok? ==>
      forall b :: IsBlock(OutputLines(ffmpegOutput), b) ==>
        && (r.Ok? <==> Stats(OutputLines(ffmpegOutput), b, decode, parseFloat).Ok?)
        && (r.Err? ==> r.error == Stats(OutputLines(ffmpegOutput), b, decode, parseFloat).error)
    ensures r.Ok? ==>
      && KeyArg(args.fields, "key").Ok? && ParsePreprodKey(KeyArg(args.fields, "key").value).Ok?
      && var key := KeyArg(args.fields, "key").value;
      && var id := ParsePreprodKey(key).value;
      && r.value.inputKey == key
      && r.value.definitionKey == DefinitionKey(id)
      && r.value.dstKey == FinalKey(id) && r.value.defId == id.defId
      && r.value.padTo == output.size
      && r.value.watermark == WatermarkOf(output.watermark)
      && r.value.reverb == ReverbOf(output.reverbType, output.reverb)
      && exists b :: IsBlock(OutputLines(ffmpegOutput), b) && Stats(OutputLines(ffmpegOutput), b, decode, parseFloat) == Ok(r.value.stats)
  {
    var keyArg := KeyArg(args.fields, "key");
    if keyArg.Err? {
      return Err(keyArg.error);
    }
    var key := keyArg.value;
    var parsed := ParsePreprodKey(key);
    if parsed.Err? {
      return Err(parsed.error);
    }
    var id := parsed.value;
    var lines := OutputLines(ffmpegOutput);
    var block := LoudnormBlock(lines);
    if block.Err? {
      return Err(block.error);
    }
    forall b | IsBlock(lines, b)
      ensures b == block.value
    {
      BlockUnique(lines, b, block.value);
    }
    var stats := Stats(lines, block.value, decode, parseFloat);
    if stats.Err? {
      return Err(stats.error);
    }
    r := Ok(Produced(DefinitionKey(id), key, output.size, WatermarkOf(output.watermark), stats.value,
      ReverbOf(output.reverbType, output.reverb), FinalKey(id), id.defId));
  }
}
