/** The one-pass compositing engine (python/renderer_engine_composite.py): it
    needs one scaled video per input of the definition, named after the part
    and its size; when any is missing from storage it records them and
    stops, otherwise it stacks the scaled videos at the inputs' positions
    into `{choir}+{song}+final.m2v`. */
module EngineComposite {
  import opened Wrappers
  import opened Strings
  import opened Definition
  import opened Actions

  /** The fields of the definition this step reads. */
  datatype CompositeDefinition = CompositeDefinition(choirId: string, songId: string, size: Size, inputs: seq<Spec>)

  /** `f"{choir_id}+{song_id}+{part_id}-{width}-{height}.mkv"`. */
  function ScaledPartKey(choirId: string, songId: string, partId: string, size: Size): string {
    choirId + "+" + songId + "+" + partId + "-" + IntToStr(size.width) + "-" + IntToStr(size.height) + ".mkv"
  }

  function RequiredKey(choirId: string, songId: string, spec: Spec): string {
    ScaledPartKey(choirId, songId, spec.partId, spec.size)
  }

  /** The third '+' field of a scaled part's key before its extension. */
  function PartField(partId: string, size: Size): string {
    partId + "-" + IntToStr(size.width) + "-" + IntToStr(size.height)
  }

  lemma ScaledPartKeyJoined(choirId: string, songId: string, partId: string, size: Size)
    ensures ScaledPartKey(choirId, songId, partId, size)
      == Join([choirId, songId, PartField(partId, size)], '+') + "." + "mkv"
  {
    assert Join([songId, PartField(partId, size)], '+') == songId + "+" + PartField(partId, size);
  }

  /** A non-negative number is written with digits only. */
  lemma NonNegativeText(i: int)
    requires i >= 0
    ensures AllDigits(IntToStr(i)) && '-' !in IntToStr(i)
  {
    assert IntToStr(i) == NatToStr(i);
    NatToStrValue(i);
  }

  /** The stem of a scaled part's key splits at '+' into the choir, the song
      and a field that splits at '-' into the part and the two sides. */
  lemma ScaledPartKeyFields(choirId: string, songId: string, partId: string, size: Size)
    requires PlainId(choirId) && PlainId(songId) && PlainId(partId) && '-' !in partId
    requires size.width >= 0 && size.height >= 0
    ensures var f := Split(Stem(ScaledPartKey(choirId, songId, partId, size)), '+');
      |f| == 3 && f[0] == choirId && f[1] == songId
      && Split(f[2], '-') == [partId, IntToStr(size.width), IntToStr(size.height)]
  {
    PartFieldSplit(partId, size);
    ScaledPartKeyJoined(choirId, songId, partId, size);
    StemFields(choirId, songId, PartField(partId, size));
  }

  /** The stem of `{choir}+{song}+{field}.mkv` splits back into the three. */
  lemma StemFields(choirId: string, songId: string, field: string)
    requires PlainId(choirId) && PlainId(songId) && PlainId(field)
    ensures Split(Stem(Join([choirId, songId, field], '+') + "." + "mkv"), '+') == [choirId, songId, field]
  {
    var base := Join([choirId, songId, field], '+');
    JoinExcludes([choirId, songId, field], '+', '/');
    StemOfName(base, "mkv");
    SplitJoin([choirId, songId, field], '+');
  }

  /** The part's field holds neither '+' nor '/', so the key's stem is the
      '+'-join of the three fields; it splits at '-' into the part and the
      two sides. */
  lemma PartFieldSplit(partId: string, size: Size)
    requires PlainId(partId) && '-' !in partId
    requires size.width >= 0 && size.height >= 0
    ensures PlainId(PartField(partId, size))
    ensures Split(PartField(partId, size), '-') == [partId, IntToStr(size.width), IntToStr(size.height)]
  {
    var w, h := IntToStr(size.width), IntToStr(size.height);
    NonNegativeText(size.width);
    NonNegativeText(size.height);
    IntToStrHasNo(size.width, '+');
    IntToStrHasNo(size.height, '+');
    IntToStrHasNo(size.width, '/');
    IntToStrHasNo(size.height, '/');
    assert Join([w, h], '-') == w + "-" + h;
    assert [partId, w, h][1..] == [w, h];
    assert PartField(partId, size) == Join([partId, w, h], '-');
    SplitJoin([partId, w, h], '-');
  }

  /** Distinct parts or sizes need distinct scaled videos. */
  lemma ScaledPartKeyInjective(choirId: string, songId: string, p: string, a: Size, q: string, b: Size)
    requires PlainId(choirId) && PlainId(songId)
    requires PlainId(p) && '-' !in p && a.width >= 0 && a.height >= 0
    requires PlainId(q) && '-' !in q && b.width >= 0 && b.height >= 0
    requires ScaledPartKey(choirId, songId, p, a) == ScaledPartKey(choirId, songId, q, b)
    ensures p == q && a == b
  {
    ScaledPartKeyFields(choirId, songId, p, a);
    ScaledPartKeyFields(choirId, songId, q, b);
    IntToStrRoundTrip(a.width);
    IntToStrRoundTrip(a.height);
    IntToStrRoundTrip(b.width);
    IntToStrRoundTrip(b.height);
  }

  /** The first loop: one required key per input, collected as a set;
      `input['position']` raises KeyError on an input without a position. */
  method RequiredKeys(choirId: string, songId: string, inputs: seq<Spec>) returns (r: Result<set<string>>)
    ensures r.Err? <==> exists i :: 0 <= i < |inputs| && inputs[i].position.None?
    ensures r.Err? ==> r.error == KeyError("position")
    ensures r.Ok? ==> r.value == set i | 0 <= i < |inputs| :: RequiredKey(choirId, songId, inputs[i])
  {
    var required: set<string> := {};
    for i := 0 to |inputs|
      invariant forall j :: 0 <= j < i ==> inputs[j].position.Some?
      invariant required == set j | 0 <= j < i :: RequiredKey(choirId, songId, inputs[j])
    {
      if inputs[i].position.None? {
        return Err(KeyError("position"));
      }
      RequiredPrefixStep(choirId, songId, inputs, i);
      required := required + {RequiredKey(choirId, songId, inputs[i])};
    }
    r := Ok(required);
  }

  /** The keys required by one more input are the earlier ones and its own. */
  lemma RequiredPrefixStep(choirId: string, songId: string, inputs: seq<Spec>, i: nat)
    requires i < |inputs|
    ensures (set j | 0 <= j < i + 1 :: RequiredKey(choirId, songId, inputs[j]))
      == (set j | 0 <= j < i :: RequiredKey(choirId, songId, inputs[j])) + {RequiredKey(choirId, songId, inputs[i])}
  {
  }

  /** The positions of inputs that all have one. */
  function Points(inputs: seq<Spec>): (r: seq<Point>)
    requires forall i :: 0 <= i < |inputs| ==> inputs[i].position.Some?
    ensures |r| == |inputs| && forall i :: 0 <= i < |inputs| ==> r[i] == inputs[i].position.value
  {
    seq(|inputs|, i requires 0 <= i < |inputs| => inputs[i].position.value)
  }

  /** The second loop: the scaled video and the `x_y` layout entry of every
      input, in input order. */
  method Stacking(choirId: string, songId: string, inputs: seq<Spec>) returns (videoKeys: seq<string>, layouts: seq<string>)
    requires forall i :: 0 <= i < |inputs| ==> inputs[i].position.Some?
    ensures |videoKeys| == |inputs|
    ensures forall i :: 0 <= i < |inputs| ==> videoKeys[i] == RequiredKey(choirId, songId, inputs[i])
    ensures layouts == Coords(Points(inputs))
  {
    videoKeys, layouts := [], [];
    for i := 0 to |inputs|
      invariant |videoKeys| == i
      invariant forall j :: 0 <= j < i ==> videoKeys[j] == RequiredKey(choirId, songId, inputs[j])
      invariant layouts == Coords(Points(inputs[..i]))
    {
      var p := inputs[i].position.value;
      assert Points(inputs[..i + 1]) == Points(inputs[..i]) + [p];
      CoordsSnoc(Points(inputs[..i]), p);
      videoKeys := videoKeys + [RequiredKey(choirId, songId, inputs[i])];
      layouts := layouts + [Coord(p)];
    }
    assert inputs[..|inputs|] == inputs;
  }

  /** `list(missing_keys)`: the set's elements in some order, each once. */
  method ListOf(s: set<string>) returns (xs: seq<string>)
    ensures multiset(xs) == multiset(s)
  {
    xs := [];
    var rest := s;
    while rest != {}
      invariant rest <= s
      invariant multiset(xs) + multiset(rest) == multiset(s)
      decreases |rest|
    {
      var x :| x in rest;
      xs := xs + [x];
      rest := rest - {x};
    }
  }

  /** What `main` ends with: the missing scaled videos, or the stacked
      output's key with the inputs' videos and the layout it was built from. */
  datatype Composite =
    | MissingParts(keys: seq<string>)
    | Merged(dstKey: string, videoKeys: seq<string>, layout: string)

  function FinalVideoKey(choirId: string, songId: string): string {
    choirId + "+" + songId + "+final.m2v"
  }

  /** `main` from the loaded definition and the keys stored under the
      performance's prefix. */
  method CompositeMain(args: Args, definition: CompositeDefinition, existing: set<string>) returns (r: Result<Composite>)
    modifies args
    ensures r.Err? <==> exists i :: 0 <= i < |definition.inputs| && definition.inputs[i].position.None?
    ensures r.Err? ==> r.error == KeyError("position") && args.fields == old(args.fields)
    ensures r.Ok? ==>
      var required := set i | 0 <= i < |definition.inputs| :: RequiredKey(definition.choirId, definition.songId, definition.inputs[i]);
      (r.value.MissingParts? <==> required - existing != {})
    ensures r.Ok? && r.value.MissingParts? ==>
      && multiset(r.value.keys) == multiset((set i | 0 <= i < |definition.inputs| :: RequiredKey(definition.choirId, definition.songId, definition.inputs[i])) - existing)
      && args.fields == old(args.fields)["status" := Str("missing parts")]["missing_keys" := StrList(r.value.keys)]
    ensures r.Ok? && r.value.Merged? ==>
      && (forall i :: 0 <= i < |definition.inputs| ==> definition.inputs[i].position.Some?)
      && r.value.dstKey == FinalVideoKey(definition.choirId, definition.songId)
      && |r.value.videoKeys| == |definition.inputs|
      && (forall i :: 0 <= i < |definition.inputs| ==>
            r.value.videoKeys[i] == RequiredKey(definition.choirId, definition.songId, definition.inputs[i])
            && r.value.videoKeys[i] in existing)
      && r.value.layout == Layout(Points(definition.inputs))
      && args.fields == old(args.fields)["dst_key" := Str(r.value.dstKey)]["status" := Str("merged")]
  {
    var c, s := definition.choirId, definition.songId;
    var required := RequiredKeys(c, s, definition.inputs);
    if required.Err? {
      return Err(required.error);
    }
    var missing := required.value - existing;
    if missing != {} {
      var keys := ListOf(missing);
      args.Set("status", Str("missing parts"));
      args.Set("missing_keys", StrList(keys));
      return Ok(MissingParts(keys));
    }
    var videoKeys, layouts := Stacking(c, s, definition.inputs);
    forall i | 0 <= i < |definition.inputs| ensures videoKeys[i] in existing {
      assert videoKeys[i] == RequiredKey(c, s, definition.inputs[i]);
      assert videoKeys[i] in required.value;
      assert videoKeys[i] !in missing;
    }
    var dstKey := FinalVideoKey(c, s);
    args.Set("dst_key", Str(dstKey));
    args.Set("status", Str("merged"));
    r := Ok(Merged(dstKey, videoKeys, Join(layouts, '|')));
  }
}
