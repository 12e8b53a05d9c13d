/** The beat-based audio-offset estimator (python/calculate_alignment.py):
    two event maps built from beat positions, fifty candidate frame shifts,
    the first strict local minimum of the error with a tie-break in favour of
    no shift, and the conversion of frames to milliseconds. Onset envelopes,
    beat frames and tempi come from the audio analysis library and are inputs. */
module Alignment {
  import opened Wrappers
  import opened Strings
  import opened Decay
  import opened ErrorScan
  import opened Actions

  const SampleRate: nat := 44100
  const HopLength: nat := 512

  /** The number of candidate shifts, `np.arange(0, 50)`. */
  const ShiftCount: nat := 50

  // ---------------------------------------------------------------------------
  // process_signal: a pulse at every beat, then the two decay passes

  /** The element `np.put` writes for index `b` of an array of length `n`:
      a negative index counts from the end. */
  function Wrap(b: int, n: nat): int {
    if b < 0 then b + n else b
  }

  /** `np.put` in its default mode accepts exactly the indices -n .. n-1. */
  predicate BeatsInRange(n: nat, beats: seq<int>) {
    forall j :: 0 <= j < |beats| ==> -(n as int) <= beats[j] < n
  }

  /** One of the first `count` beats lands on index `i`. */
  predicate PutAt(n: nat, beats: seq<int>, count: nat, i: int)
    requires count <= |beats|
  {
    exists j :: 0 <= j < count && Wrap(beats[j], n) == i
  }

  predicate IsBeat(n: nat, beats: seq<int>, i: int) {
    PutAt(n, beats, |beats|, i)
  }

  /** `np.zeros(n)` followed by `np.put(data, beats, 1)`. */
  function Pulses(n: nat, beats: seq<int>): (r: seq<real>)
    ensures |r| == n
  {
    seq(n, i requires 0 <= i < n => if IsBeat(n, beats, i) then 1.0 else 0.0)
  }

  /** `process_signal` on an onset envelope of `n` frames with the given beat
      frames: an IndexError when a beat lies outside the array, otherwise the
      event map of the pulse train. */
  method ProcessSignal(n: nat, beats: seq<int>) returns (r: Result<seq<real>>)
    ensures r.Ok? <==> BeatsInRange(n, beats)
    ensures r.Ok? ==> r.value == EventMap(Pulses(n, beats))
  {
    var data := new real[n](_ => 0.0);
    var j := 0;
    while j < |beats|
      invariant 0 <= j <= |beats|
      invariant forall m :: 0 <= m < j ==> -(n as int) <= beats[m] < n
      invariant forall i :: 0 <= i < n ==> data[i] == if PutAt(n, beats, j, i) then 1.0 else 0.0
    {
      if !(-(n as int) <= beats[j] < n) {
        return Err(IndexError("index out of bounds"));
      }
      data[Wrap(beats[j], n)] := 1.0;
      assert forall i :: PutAt(n, beats, j + 1, i) <==> PutAt(n, beats, j, i) || i == Wrap(beats[j], n);
      j := j + 1;
    }
    assert data[..] == Pulses(n, beats);
    DecayForward(data);
    DecayBackward(data);
    return Ok(data[..]);
  }

  lemma PulsesInUnit(n: nat, beats: seq<int>)
    ensures InUnit(Pulses(n, beats))
  {
  }

  /** The event map of a valid beat list: every entry in [0, 1], exactly 1 at
      every beat, no entry below its pulse, index 0 as `put` left it, and a
      decay of at most a factor 0.9 per frame (backwards only from 1 to n-2). */
  lemma ProcessSignalShape(n: nat, beats: seq<int>)
    requires BeatsInRange(n, beats)
    ensures var d := EventMap(Pulses(n, beats));
      && InUnit(d)
      && Dominates(d, Pulses(n, beats))
      && (forall j :: 0 <= j < |beats| ==> d[Wrap(beats[j], n)] == 1.0)
      && (n > 0 ==> d[0] == Pulses(n, beats)[0])
      && (forall i :: 1 <= i < n ==> d[i] >= 0.9 * d[i - 1])
      && (forall i :: 1 <= i < n - 1 ==> d[i] >= 0.9 * d[i + 1])
  {
    var p := Pulses(n, beats);
    PulsesInUnit(n, beats);
    EventMapShape(p);
    forall j | 0 <= j < |beats| ensures EventMap(p)[Wrap(beats[j], n)] == 1.0 {
      assert IsBeat(n, beats, Wrap(beats[j], n));
      assert p[Wrap(beats[j], n)] == 1.0;
    }
  }

  // ---------------------------------------------------------------------------
  // find_offset

  /** The errors of shifts 0 .. 49 frames, the rendition rolled back by each. */
  function Errors(x0: seq<real>, x1: seq<real>): (e: seq<real>)
    requires CommonLength(x0, x1) > 0
    ensures |e| == ShiftCount
  {
    seq(ShiftCount, o requires 0 <= o < ShiftCount => MeasureError(x0, x1, -o))
  }

  /** A strict local minimum as `argrelextrema(errors, np.less)` finds it:
      in its default mode the end points never qualify. */
  predicate IsLocalMin(e: seq<real>, i: int) {
    1 <= i < |e| - 1 && e[i] < e[i - 1] && e[i] < e[i + 1]
  }

  /** The first strict local minimum at or after `from`. */
  function FirstLocalMin(e: seq<real>, from: nat): (r: Option<nat>)
    requires from >= 1
    ensures r.Some? ==> from <= r.value && IsLocalMin(e, r.value)
    ensures r.Some? ==> forall i :: from <= i < r.value ==> !IsLocalMin(e, i)
    ensures r.None? ==> forall i :: from <= i ==> !IsLocalMin(e, i)
    decreases |e| - from
  {
    if from >= |e| - 1 then None
    else if IsLocalMin(e, from) then Some(from)
    else FirstLocalMin(e, from + 1)
  }

  datatype Estimate = Estimate(frames: nat, error: real)

  /** `find_offset`: the first strict local minimum among the fifty errors,
      unless shift 0 is at least as good. With an empty series every error is
      NaN, there is no minimum, and indexing the empty result raises. */
  function FindOffset(x0: seq<real>, x1: seq<real>): (r: Result<Estimate>)
    ensures r.Err? <==>
      CommonLength(x0, x1) == 0 || forall i :: 0 <= i < ShiftCount ==> !IsLocalMin(Errors(x0, x1), i)
    ensures r.Ok? ==> CommonLength(x0, x1) > 0
    ensures r.Ok? ==> var e := Errors(x0, x1);
      && r.value.frames <= ShiftCount - 2
      && r.value.error == e[r.value.frames]
      && r.value.error <= MeasureError(x0, x1, 0)
    ensures r.Ok? && r.value.frames > 0 ==> var e := Errors(x0, x1);
      && IsLocalMin(e, r.value.frames)
      && (forall i :: 0 <= i < r.value.frames ==> !IsLocalMin(e, i))
      && r.value.error < MeasureError(x0, x1, 0)
    ensures r.Ok? && r.value.frames == 0 ==> var e := Errors(x0, x1);
      exists b :: IsLocalMin(e, b) && (forall i :: 0 <= i < b ==> !IsLocalMin(e, i)) && MeasureError(x0, x1, 0) <= e[b]
  {
    if CommonLength(x0, x1) == 0 then Err(IndexError("index 0 is out of bounds for axis 0 with size 0"))
    else
      var e := Errors(x0, x1);
      var error0 := MeasureError(x0, x1, 0);
      assert e[0] == error0;
      match FirstLocalMin(e, 1)
      case None => Err(IndexError("index 0 is out of bounds for axis 0 with size 0"))
      case Some(b) =>
        if error0 <= e[b] then Ok(Estimate(0, error0)) else Ok(Estimate(b, e[b]))
  }

  /** `int(((frames * HOP_LENGTH) / SAMPLE_RATE) * 1000)`: the exact value
      truncated towards zero. */
  function FrameMs(frames: nat): (ms: nat)
    ensures ms * SampleRate <= frames * HopLength * 1000 < (ms + 1) * SampleRate
  {
    (frames * HopLength * 1000) / SampleRate
  }

  /** The largest shift `find_offset` can return is 48 frames, which is 557 ms,
      so the fallback for offsets above 700 ms can never apply. */
  lemma FrameMsBound(frames: nat)
    requires frames <= ShiftCount - 2
    ensures FrameMs(frames) <= 557 < 700
  {
    assert frames * HopLength * 1000 <= 48 * 512000 < 558 * SampleRate;
  }

  // ---------------------------------------------------------------------------
  // Keys

  datatype RenditionKey = RenditionKey(choirId: string, songId: string, partId: string, ext: string)

  function RenditionKeyText(k: RenditionKey): string {
    k.choirId + "+" + (k.songId + "+" + (k.partId + "." + k.ext))
  }

  /** `re.match(r'^(.*?)\+(.*?)\+(.*?)\.(.*?)$', key)`: the lazy groups end at
      the first '+', the next '+' and the first '.' after it. */
  function ParseRenditionKey(key: string): (r: Option<RenditionKey>)
    ensures r.Some? ==> '+' !in r.value.choirId && '+' !in r.value.songId && '.' !in r.value.partId
    ensures r.Some? ==> key == RenditionKeyText(r.value) || key == RenditionKeyText(r.value) + "\n"
  {
    match Anchored(key)
    case None => None
    case Some(s) =>
      match Cut(s, '+')
      case None => None
      case Some((choir, t)) =>
        match Cut(t, '+')
        case None => None
        case Some((song, u)) =>
          match Cut(u, '.')
          case None => None
          case Some((part, ext)) =>
            Some(RenditionKey(choir, song, part, ext))
  }

  /** A key built from ids without the separators they are split on, and
      without newlines, parses back into those ids. */
  lemma RenditionKeyRoundTrip(k: RenditionKey)
    requires '+' !in k.choirId && '+' !in k.songId && '.' !in k.partId
    requires '\n' !in RenditionKeyText(k)
    ensures ParseRenditionKey(RenditionKeyText(k)) == Some(k)
  {
    var u := k.partId + "." + k.ext;
    var t := k.songId + "+" + u;
    var s := k.choirId + "+" + t;
    assert s == RenditionKeyText(k);
    assert Anchored(s) == Some(s);
    CutJoined(k.choirId, '+', t);
    CutJoined(k.songId, '+', u);
    CutJoined(k.partId, '.', k.ext);
  }

  /** `f"{choir_id}+{song_id}+reference.{ext}"`. */
  function DefaultReferenceKey(k: RenditionKey): (r: string)
    ensures '+' !in k.choirId && '+' !in k.songId && '\n' !in k.choirId + k.songId + k.ext ==>
      ParseRenditionKey(r) == Some(RenditionKey(k.choirId, k.songId, "reference", k.ext))
  {
    var ref := RenditionKey(k.choirId, k.songId, "reference", k.ext);
    assert '+' !in k.choirId && '+' !in k.songId && '\n' !in k.choirId + k.songId + k.ext ==>
      ParseRenditionKey(RenditionKeyText(ref)) == Some(ref) by {
      if '+' !in k.choirId && '+' !in k.songId && '\n' !in k.choirId + k.songId + k.ext {
        assert '\n' !in RenditionKeyText(ref);
        RenditionKeyRoundTrip(ref);
      }
    }
    RenditionKeyText(ref)
  }

  /** A part record from the songs service; a field is None when the record
      lacks that key. */
  datatype Part = Part(partType: Option<string>, choirId: Option<string>, songId: Option<string>, partId: Option<string>)

  predicate IsBacking(p: Part) {
    p.partType == Some("backing")
  }

  /** Reading the record raises KeyError: it has no part type, or it is the
      backing part and lacks an id. */
  predicate Raises(p: Part) {
    p.partType.None? || (IsBacking(p) && (p.choirId.None? || p.songId.None? || p.partId.None?))
  }

  /** `f"{part['choirId']}+{part['songId']}+{part['partId']}.nut"`. */
  function NutKey(p: Part): (r: string)
    requires IsBacking(p) && !Raises(p)
    ensures var k := RenditionKey(p.choirId.value, p.songId.value, p.partId.value, "nut");
      '+' !in k.choirId && '+' !in k.songId && '.' !in k.partId && '\n' !in k.choirId + k.songId + k.partId ==>
        ParseRenditionKey(r) == Some(k)
  {
    var k := RenditionKey(p.choirId.value, p.songId.value, p.partId.value, "nut");
    assert '+' !in k.choirId && '+' !in k.songId && '.' !in k.partId && '\n' !in k.choirId + k.songId + k.partId ==>
      ParseRenditionKey(RenditionKeyText(k)) == Some(k) by {
      if '+' !in k.choirId && '+' !in k.songId && '.' !in k.partId && '\n' !in k.choirId + k.songId + k.partId {
        assert '\n' !in RenditionKeyText(k);
        RenditionKeyRoundTrip(k);
      }
    }
    assert RenditionKeyText(k) == p.choirId.value + "+" + p.songId.value + "+" + p.partId.value + ".nut";
    RenditionKeyText(k)
  }

  /** How many records the loop gets through before one raises. */
  function Reached(parts: seq<Part>): (m: nat)
    ensures m <= |parts| && (forall k :: 0 <= k < m ==> !Raises(parts[k]))
    ensures m < |parts| ==> Raises(parts[m])
  {
    if |parts| == 0 then 0
    else if Raises(parts[0]) then 0
    else
      var m := Reached(parts[1..]);
      assert forall k :: 1 <= k < 1 + m ==> parts[k] == parts[1..][k - 1];
      1 + m
  }

  /** The `.nut` key of the last backing part among the first `m` records,
      or `default` when none of them is a backing part. */
  function LastBacking(default: string, ps: seq<Part>, m: nat): (key: string)
    requires m <= |ps| && forall k :: 0 <= k < m ==> !Raises(ps[k])
    ensures || (key == default && forall k :: 0 <= k < m ==> !IsBacking(ps[k]))
            || (exists j :: 0 <= j < m && IsBacking(ps[j]) && key == NutKey(ps[j])
                  && forall k :: j < k < m ==> !IsBacking(ps[k]))
  {
    if m == 0 then default
    else if IsBacking(ps[m - 1]) then NutKey(ps[m - 1])
    else LastBacking(default, ps, m - 1)
  }

  /** The reference key the lookup settles on: the default when the songs
      service gave no answer, otherwise the key of the last backing part read
      before a record raised. */
  function ReferenceKeyOf(default: string, parts: Option<seq<Part>>): (key: string)
    ensures parts.None? ==> key == default
    ensures parts.Some? ==> var ps, m := parts.value, Reached(parts.value);
      || (key == default && forall k :: 0 <= k < m ==> !IsBacking(ps[k]))
      || (exists j :: 0 <= j < m && IsBacking(ps[j]) && key == NutKey(ps[j])
            && forall k :: j < k < m ==> !IsBacking(ps[k]))
  {
    if parts.None? then default else LastBacking(default, parts.value, Reached(parts.value))
  }

  /** The lookup loop: each backing part overrides the reference key, and the
      bare `except` keeps whatever was set before a record raised. `None`
      stands for a lookup that failed before the loop. */
  method LookUpReference(default: string, parts: Option<seq<Part>>) returns (key: string)
    ensures key == ReferenceKeyOf(default, parts)
    ensures parts.None? ==> key == default
    ensures parts.Some? ==> var ps, m := parts.value, Reached(parts.value);
      || (key == default && forall k :: 0 <= k < m ==> !IsBacking(ps[k]))
      || (exists j :: 0 <= j < m && IsBacking(ps[j]) && key == NutKey(ps[j])
            && forall k :: j < k < m ==> !IsBacking(ps[k]))
  {
    key := default;
    if parts.None? {
      return;
    }
    var ps := parts.value;
    ghost var m := Reached(ps);
    var i := 0;
    while i < |ps|
      invariant 0 <= i <= m
      invariant key == LastBacking(default, ps, i)
    {
      var p := ps[i];
      if Raises(p) {
        return;
      }
      if IsBacking(p) {
        key := NutKey(p);
      }
      i := i + 1;
    }
  }

  /** With no backing part known, the rendition is the reference exactly when
      its part id is `reference`. */
  lemma ReferenceByPartId(k: RenditionKey)
    ensures RenditionKeyText(k) == DefaultReferenceKey(k) <==> k.partId == "reference"
  {
    var a := k.choirId + "+" + k.songId + "+";
    if RenditionKeyText(k) == DefaultReferenceKey(k) {
      assert RenditionKeyText(k) == a + k.partId + "." + k.ext;
      assert DefaultReferenceKey(k) == a + "reference" + "." + k.ext;
      assert |k.partId| == |"reference"|;
      assert k.partId == RenditionKeyText(k)[|a|..|a| + |k.partId|];
    }
  }

  // ---------------------------------------------------------------------------
  // main

  /** What the analysis of one recording yields: the onset envelope's length,
      the beat frames and the tempo. */
  datatype Signal = Signal(frames: nat, beats: seq<int>, tempo: real)

  datatype Alignment = Alignment(offset: int, err: real, key: string, renditionKey: string, referenceKey: string)

  /** The event maps `main` compares when both beat lists are valid. */
  function Maps(reference: Signal, rendition: Signal): (seq<real>, seq<real>) {
    (EventMap(Pulses(reference.frames, reference.beats)), EventMap(Pulses(rendition.frames, rendition.beats)))
  }

  /** `main` from the key onwards. The storage client check and the audio
      analysis are outside the model: `parts` is the songs service's answer
      and the two signals are the analysis results. */
  method AlignMain(args: Args, parts: Option<seq<Part>>, reference: Signal, rendition: Signal) returns (r: Result<Alignment>)
    modifies args
    ensures r.Ok? ==> 0 <= r.value.offset <= 557
    ensures r.Ok? ==> r.value.key == r.value.renditionKey && KeyArg(old(args.fields), "key") == Ok(r.value.renditionKey)
    ensures r.Ok? ==> ParseRenditionKey(r.value.renditionKey).Some?
    ensures r.Ok? ==> r.value.referenceKey == ReferenceKeyOf(DefaultReferenceKey(ParseRenditionKey(r.value.renditionKey).value), parts)
    ensures var key := KeyArg(old(args.fields), "key");
      r.Err? <==>
        || key.Err? || ParseRenditionKey(key.value).None?
        || (&& key.value != ReferenceKeyOf(DefaultReferenceKey(ParseRenditionKey(key.value).value), parts)
            && (|| !BeatsInRange(reference.frames, reference.beats) || !BeatsInRange(rendition.frames, rendition.beats)
                || (reference.tempo > 0.0 && rendition.tempo > 0.0 && FindOffset(Maps(reference, rendition).0, Maps(reference, rendition).1).Err?)))
    ensures r.Ok? && r.value.renditionKey == r.value.referenceKey ==>
      r.value.offset == 0 && r.value.err == 0.0 && args.fields == old(args.fields)
    ensures r.Ok? && r.value.renditionKey != r.value.referenceKey ==>
      args.fields == old(args.fields)["rendition_key" := Str(r.value.renditionKey)]["reference_key" := Str(r.value.referenceKey)]
    ensures r.Ok? && r.value.renditionKey != r.value.referenceKey && (reference.tempo <= 0.0 || rendition.tempo <= 0.0) ==>
      r.value.offset == 0 && r.value.err == 0.0
    ensures r.Ok? && r.value.renditionKey != r.value.referenceKey && reference.tempo > 0.0 && rendition.tempo > 0.0 ==>
      var est := FindOffset(Maps(reference, rendition).0, Maps(reference, rendition).1);
      est.Ok? && r.value.offset == FrameMs(est.value.frames) && r.value.err == est.value.error
  {
    var keyArg := KeyArg(args.fields, "key");
    if keyArg.Err? {
      return Err(keyArg.error);
    }
    var renditionKey := keyArg.value;
    var parsed := ParseRenditionKey(renditionKey);
    if parsed.None? {
      return Err(ValueError("Could not parse key: " + renditionKey));
    }
    var referenceKey := LookUpReference(DefaultReferenceKey(parsed.value), parts);
    if renditionKey == referenceKey {
      return Ok(Alignment(0, 0.0, renditionKey, renditionKey, referenceKey));
    }
    args.Set("rendition_key", Str(renditionKey));
    args.Set("reference_key", Str(referenceKey));

    var data0 := ProcessSignal(reference.frames, reference.beats);
    if data0.Err? {
      return Err(data0.error);
    }
    var data1 := ProcessSignal(rendition.frames, rendition.beats);
    if data1.Err? {
      return Err(data1.error);
    }
    var offset: int, error: real;
    if reference.tempo > 0.0 && rendition.tempo > 0.0 {
      var est := FindOffset(data0.value, data1.value);
      if est.Err? {
        return Err(est.error);
      }
      FrameMsBound(est.value.frames);
      offset, error := FrameMs(est.value.frames), est.value.error;
    } else {
      offset, error := 0, 0.0;
    }
    if offset > 700 {
      offset := 0;
    }
    return Ok(Alignment(offset, error, renditionKey, renditionKey, referenceKey));
  }
}
