/** The older onset-based estimator (aligner/calculate_alignment.py): z-scored
    onset strengths thresholded at 2 into a pulse train, the same event map,
    and the shift with the smallest error among -100 .. 99. The z-scoring,
    which needs a standard deviation, happens before the model starts. */
module LegacyAlignment {
  import opened Wrappers
  import opened Strings
  import opened Decay
  import opened ErrorScan
  import opened Actions

  const SampleRate: nat := 44100

  /** `range(-100, 100)`. */
  const MinShift: int := -100
  const MaxShift: int := 99

  // ---------------------------------------------------------------------------
  // process_signal

  /** `np.where(o > 2, 1.0, 0.0)`. */
  function Threshold(z: seq<real>): (p: seq<real>)
    ensures |p| == |z|
    ensures forall i :: 0 <= i < |z| ==> (p[i] == 1.0 <==> z[i] > 2.0) && (p[i] == 0.0 <==> z[i] <= 2.0)
  {
    seq(|z|, i requires 0 <= i < |z| => if z[i] > 2.0 then 1.0 else 0.0)
  }

  /** `process_signal` after the z-score: threshold into a new array, then the
      two in-place decay passes. */
  method ProcessSignal(z: seq<real>) returns (o: seq<real>)
    ensures o == EventMap(Threshold(z))
  {
    var a := new real[|z|](i requires 0 <= i < |z| => if z[i] > 2.0 then 1.0 else 0.0);
    assert a[..] == Threshold(z);
    DecayForward(a);
    DecayBackward(a);
    o := a[..];
  }

  /** The processed signal stays in [0, 1], keeps height 1 at every frame
      above the threshold, and decays by at most a factor 0.9 per frame. */
  lemma ProcessSignalShape(z: seq<real>)
    ensures var d := EventMap(Threshold(z));
      && |d| == |z| && InUnit(d)
      && (forall i :: 0 <= i < |z| && z[i] > 2.0 ==> d[i] == 1.0)
      && (|z| > 0 ==> d[0] == Threshold(z)[0])
      && (forall i :: 1 <= i < |z| ==> d[i] >= 0.9 * d[i - 1])
      && (forall i :: 1 <= i < |z| - 1 ==> d[i] >= 0.9 * d[i + 1])
  {
    EventMapShape(Threshold(z));
  }

  // ---------------------------------------------------------------------------
  // find_offset

  /** A float that may be NaN, as the error is for an empty series. */
  datatype Float = Finite(value: real) | NaN

  /** `errors`, indexed from shift -100: entry `i` is the error at shift
      `MinShift + i`. */
  function Errors(x0: seq<real>, x1: seq<real>): (es: seq<real>)
    requires CommonLength(x0, x1) > 0
    ensures |es| == MaxShift - MinShift + 1
    ensures forall i :: 0 <= i < |es| ==> es[i] == MeasureError(x0, x1, MinShift + i)
  {
    seq(MaxShift - MinShift + 1, i requires 0 <= i <= MaxShift - MinShift => MeasureError(x0, x1, MinShift + i))
  }

  /** `sorted(errors)[0]` over the entries `lo ..` of the table: the smallest
      (error, index) pair in tuple order. */
  function Least(es: seq<real>, lo: nat): (r: (real, nat))
    requires lo < |es|
    ensures lo <= r.1 < |es| && r.0 == es[r.1]
    ensures forall i :: lo <= i < |es| ==> r.0 <= es[i]
    ensures forall i :: lo <= i < r.1 ==> r.0 < es[i]
    decreases |es| - lo
  {
    if lo == |es| - 1 then (es[lo], lo)
    else
      var b := Least(es, lo + 1);
      if es[lo] <= b.0 then (es[lo], lo) else b
  }

  /** A table whose entries are never negative, with a zero at `j` and no zero
      before it, has its least pair at `j`. */
  lemma LeastAtFirstZero(es: seq<real>, j: nat)
    requires j < |es| && es[j] == 0.0
    requires forall i :: 0 <= i < |es| ==> es[i] >= 0.0
    requires forall i :: 0 <= i < j ==> es[i] > 0.0
    ensures Least(es, 0) == (0.0, j)
  {
    var r, ej := Least(es, 0), es[j];
    assert r.0 <= ej;
    assert r.1 < j ==> r.0 > 0.0;
    assert j < r.1 ==> r.0 < ej;
  }

  /** `find_offset`: the negated shift of least error, the smallest shift
      among equal errors. With an empty series every error is NaN, no tuple is
      less than another, the sort keeps the list as it is, and the first
      entry, shift -100, wins. */
  function FindOffset(x0: seq<real>, x1: seq<real>): (r: (int, Float))
    ensures CommonLength(x0, x1) == 0 ==> r == (-MinShift, NaN)
    ensures CommonLength(x0, x1) > 0 ==>
      && -MaxShift <= r.0 <= -MinShift
      && r.1 == Finite(MeasureError(x0, x1, -r.0))
      && (forall o :: MinShift <= o <= MaxShift ==> r.1.value <= MeasureError(x0, x1, o))
      && (forall o :: MinShift <= o < -r.0 ==> r.1.value < MeasureError(x0, x1, o))
  {
    if CommonLength(x0, x1) == 0 then (-MinShift, NaN)
    else
      var es := Errors(x0, x1);
      var b := Least(es, 0);
      assert forall o :: MinShift <= o <= MaxShift ==> es[o - MinShift] == MeasureError(x0, x1, o);
      (-(MinShift + b.1), Finite(b.0))
  }

  /** A perfect copy delayed by `d` frames (0 <= d <= 99) is found at offset `d`
      with error zero, provided no smaller shift also matches perfectly. */
  lemma FindOffsetExact(x0: seq<real>, x1: seq<real>, d: int)
    requires CommonLength(x0, x1) > 0 && 0 <= d <= MaxShift
    requires MeasureError(x0, x1, -d) == 0.0
    requires forall o :: MinShift <= o < -d ==> MeasureError(x0, x1, o) > 0.0
    ensures FindOffset(x0, x1) == (d, Finite(0.0))
  {
    var es := Errors(x0, x1);
    forall i | 0 <= i < |es|
      ensures es[i] >= 0.0
    {
      MeasureErrorNonNegative(x0, x1, MinShift + i);
    }
    var j := -d - MinShift;
    assert forall i :: 0 <= i < j ==> es[i] == MeasureError(x0, x1, MinShift + i);
    LeastAtFirstZero(es, j);
  }

  /** `((offset * 512) / SAMPLE_RATE) * 1000`: milliseconds as a float, not
      truncated and not bounded. */
  function OffsetMs(frames: int): (ms: real)
    ensures ms * SampleRate as real == (frames * 512 * 1000) as real
  {
    (frames * 512) as real / SampleRate as real * 1000.0
  }

  // ---------------------------------------------------------------------------
  // Keys

  datatype ConvertedKey = ConvertedKey(choirId: string, partId: string, ext: string)

  const Converted: string := "+converted."

  /** `f"{choir_id}+{part_key}+{stage}.{ext}"` with the stage `converted`. */
  function ConvertedKeyText(k: ConvertedKey): string {
    k.choirId + "+" + (k.partId + Converted + k.ext)
  }

  /** `re.match(r'^(.*?)\+(.*?)\+(converted)\.(.*?)$', key)`: the choir id
      ends at the first '+', the part id at the first `+converted.` after it. */
  function ParseConvertedKey(key: string): (r: Option<ConvertedKey>)
    ensures r.Some? ==> '+' !in r.value.choirId
    ensures r.Some? ==> key == ConvertedKeyText(r.value) || key == ConvertedKeyText(r.value) + "\n"
  {
    match Anchored(key)
    case None => None
    case Some(s) =>
      match Cut(s, '+')
      case None => None
      case Some((choir, t)) =>
        match FindSub(t, Converted)
        case None => None
        case Some(i) =>
          var part, ext := t[..i], t[i + |Converted|..];
          AroundOccurrence(t, Converted, i);
          Some(ConvertedKey(choir, part, ext))
  }

  /** In `part + "+converted." + ext` with no '+' in `part`, the first
      `+converted.` starts right after `part`. */
  lemma ConvertedFound(part: string, ext: string)
    requires '+' !in part
    ensures var t := part + Converted + ext;
      && FindSub(t, Converted) == Some(|part|)
      && t[..|part|] == part && t[|part| + |Converted|..] == ext
  {
    var t := part + Converted + ext;
    assert OccursAt(t, Converted, |part|);
    forall j | 0 <= j < |part| ensures !OccursAt(t, Converted, j) {
      assert t[j] == part[j];
    }
    FindSubFirst(t, Converted, |part|);
  }

  /** A part id without '+' is found again after its choir id. */
  lemma ConvertedKeyRoundTrip(k: ConvertedKey)
    requires '+' !in k.choirId && '+' !in k.partId
    requires '\n' !in ConvertedKeyText(k)
    ensures ParseConvertedKey(ConvertedKeyText(k)) == Some(k)
  {
    var t := k.partId + Converted + k.ext;
    var key := ConvertedKeyText(k);
    assert Anchored(key) == Some(key);
    CutJoined(k.choirId, '+', t);
    ConvertedFound(k.partId, k.ext);
  }

  /** The reference recording of the rendition's choir, in the same stage and format. */
  function ReferenceKey(k: ConvertedKey): (r: string)
    ensures '+' !in k.choirId && '\n' !in k.choirId + k.ext ==>
      ParseConvertedKey(r) == Some(ConvertedKey(k.choirId, "reference", k.ext))
  {
    var ref := ConvertedKey(k.choirId, "reference", k.ext);
    assert '+' !in k.choirId && '\n' !in k.choirId + k.ext ==> ParseConvertedKey(ConvertedKeyText(ref)) == Some(ref) by {
      if '+' !in k.choirId && '\n' !in k.choirId + k.ext {
        assert '\n' !in ConvertedKeyText(ref);
        ConvertedKeyRoundTrip(ref);
      }
    }
    ConvertedKeyText(ref)
  }

  // ---------------------------------------------------------------------------
  // main and manual_main

  function FloatValue(f: Float): Value {
    match f
    case Finite(r) => Num(r)
    case NaN => NotANumber
  }

  /** `args` once `main` has recorded the part and reference keys derived from `k`. */
  function WithKeys(fields: map<string, Value>, k: ConvertedKey): map<string, Value> {
    fields["part_key" := Str(ConvertedKeyText(k))]["reference_key" := Str(ReferenceKey(k))]
  }

  /** `args` once `manual_main` has recorded the offset in milliseconds and the error. */
  function WithEstimate(fields: map<string, Value>, reference: seq<real>, part: seq<real>): map<string, Value> {
    var est := FindOffset(EventMap(Threshold(reference)), EventMap(Threshold(part)));
    fields["offset" := Num(OffsetMs(est.0))]["err" := FloatValue(est.1)]
  }

  /** `manual_main` after loading: the two keys must be present, the two
      z-scored onset series are processed, and `offset` and `err` are set.
      The storage client check and the loading and z-scoring of the audio
      are outside the model: the two series are parameters. */
  method ManualMain(args: Args, reference: seq<real>, part: seq<real>) returns (r: Result<()>)
    modifies args
    ensures r.Ok? <==> "reference_key" in old(args.fields) && "part_key" in old(args.fields)
    ensures r.Err? ==> args.fields == old(args.fields)
    ensures r.Ok? ==> args.fields == WithEstimate(old(args.fields), reference, part)
  {
    var referenceKey := args.Lookup("reference_key");
    if referenceKey.Err? {
      return Err(referenceKey.error);
    }
    var partKey := args.Lookup("part_key");
    if partKey.Err? {
      return Err(partKey.error);
    }
    var s0 := ProcessSignal(reference);
    var s1 := ProcessSignal(part);
    var est := FindOffset(s0, s1);
    args.Set("offset", Num(OffsetMs(est.0)));
    args.Set("err", FloatValue(est.1));
    return Ok(());
  }

  /** `main` from the key onwards: parse the key, record the part and
      reference keys, and either stop at once for the reference part or go
      on to `manual_main`. The storage client check is outside the model. */
  method AlignMain(args: Args, reference: seq<real>, part: seq<real>) returns (r: Result<()>)
    modifies args
    ensures r.Ok? <==>
      && "key" in old(args.fields) && old(args.fields)["key"].Str?
      && ParseConvertedKey(old(args.fields)["key"].s).Some?
    ensures r.Err? ==> args.fields == old(args.fields)
    ensures "key" !in old(args.fields) ==> r == Err(KeyError("key"))
    ensures "key" in old(args.fields) && !old(args.fields)["key"].Str? ==>
      r == Err(TypeError("expected string or bytes-like object"))
    ensures "key" in old(args.fields) && old(args.fields)["key"].Str? && ParseConvertedKey(old(args.fields)["key"].s).None? ==>
      r == Err(ValueError("Could not parse key: " + old(args.fields)["key"].s))
    ensures r.Ok? ==> var k := ParseConvertedKey(old(args.fields)["key"].s).value;
      args.fields == if k.partId == "reference"
        then WithKeys(old(args.fields), k)["offset" := Int(0)]["err" := Int(0)]
        else WithEstimate(WithKeys(old(args.fields), k), reference, part)
  {
    var key := args.Lookup("key");
    if key.Err? {
      return Err(key.error);
    }
    if !key.value.Str? {
      return Err(TypeError("expected string or bytes-like object"));
    }
    var parsed := ParseConvertedKey(key.value.s);
    if parsed.None? {
      return Err(ValueError("Could not parse key: " + key.value.s));
    }
    var k := parsed.value;
    args.Set("part_key", Str(ConvertedKeyText(k)));
    args.Set("reference_key", Str(ReferenceKey(k)));
    if k.partId == "reference" {
      args.Set("offset", Int(0));
      args.Set("err", Int(0));
      return Ok(());
    }
    r := ManualMain(args, reference, part);
  }
}
