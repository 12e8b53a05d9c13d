/** One row of the compositing fan-out (python/renderer_compositor_child.py):
    from the definition and the row number it picks the row's specs, works out
    how tall the row's strip of the final picture is and where its parts sit,
    scales the row's audio by how full the row is, and names the output object
    `{choir}+{song}+{def}+{run}+{row}@{rows_hash}.nut`. The ffmpeg graph is
    represented by the inputs, mixes and padding it is built from. */
module CompositorChild {
  import opened Wrappers
  import opened Strings
  import opened Sorting
  import opened Definition

  /** Space left below each row's parts. */
  const Margin: int := 10

  // ---------------------------------------------------------------------------
  // Keys

  /** `Path(definition_key).stem.split('+', 3)` unpacked into three names: the
      stem must hold exactly two '+' (with three or more the split yields four
      pieces, with fewer it yields too few). */
  function ParseDefinitionKey(key: string): (r: Result<DefinitionId>)
    ensures r.Ok? <==> Count(Stem(key), '+') == 2
    ensures r.Ok? ==> IdsText(r.value) == Stem(key)
    ensures r.Ok? ==> PlainId(r.value.choirId) && PlainId(r.value.songId) && PlainId(r.value.defId)
  {
    var parts := Split(Stem(key), '+');
    SplitCount(Stem(key), '+');
    StemHasNoSlash(key);
    if |parts| == 3 then
      var id := DefinitionId(parts[0], parts[1], parts[2]);
      assert parts == [id.choirId, id.songId, id.defId];
      Ok(id)
    else Err(UnpackError(3, |parts|))
  }

  /** A definition key built from plain ids names those ids again. */
  lemma DefinitionKeyRoundTrip(id: DefinitionId)
    requires PlainId(id.choirId) && PlainId(id.songId) && PlainId(id.defId)
    ensures ParseDefinitionKey(DefinitionKey(id)) == Ok(id)
  {
    IdsTextShape(id);
    JsonStem(IdsText(id));
    assert Split(Stem(DefinitionKey(id)), '+') == [id.choirId, id.songId, id.defId];
  }

  lemma JsonStem(base: string)
    requires |base| >= 1 && '/' !in base
    ensures Stem(base + ".json") == base
  {
    assert base + ".json" == base + "." + "json";
    StemOfName(base, "json");
  }

  /** `f"{choir_id}+{song_id}+{part_id}.nut"`, a converted part's object key. */
  function PartKey(id: DefinitionId, partId: string): string {
    Join([id.choirId, id.songId, partId], '+') + ".nut"
  }

  /** `f"{choir_id}+{song_id}+{def_id}+{run_id}+{row_num}@{rows_hash}.nut"`. */
  function OutputKey(id: DefinitionId, runId: string, row: int, rowsHash: string): string {
    Join([id.choirId, id.songId, id.defId, runId, IntToStr(row) + "@" + rowsHash], '+') + ".nut"
  }

  // ---------------------------------------------------------------------------
  // Rows

  /** `rows = sorted({y of every spec})`: the row loop collects the set, then
      it is sorted. */
  method CollectRows(specs: seq<Spec>) returns (rows: seq<int>)
    ensures IsSortedSetOf(rows, RowSet(specs))
  {
    var seen: set<int> := {};
    for i := 0 to |specs|
      invariant seen == set j | 0 <= j < i :: RowOf(specs[j])
    {
      seen := seen + {RowOf(specs[i])};
    }
    rows := SortSet(seen);
  }

  /** `specs_for_row`: the specs in row `row`, in their original order. */
  function SpecsForRow(specs: seq<Spec>, row: int): (r: seq<Spec>)
    ensures |r| <= |specs|
  {
    if |specs| == 0 then []
    else
      var init, last := specs[..|specs| - 1], specs[|specs| - 1];
      SpecsForRow(init, row) + if RowOf(last) == row then [last] else []
  }

  /** `specs_for_row` yields exactly the specs whose row is `row`. */
  lemma {:induction false} SpecsForRowMembers(specs: seq<Spec>, row: int)
    ensures forall s :: s in SpecsForRow(specs, row) <==> s in specs && RowOf(s) == row
  {
    if |specs| > 0 {
      var init, last := specs[..|specs| - 1], specs[|specs| - 1];
      SpecsForRowMembers(init, row);
      assert specs == init + [last];
    }
  }

  /** A row is non-empty exactly when some spec lies in it. */
  lemma SpecsForRowNonEmpty(specs: seq<Spec>, row: int)
    ensures |SpecsForRow(specs, row)| > 0 <==> row in RowSet(specs)
  {
    var r := SpecsForRow(specs, row);
    SpecsForRowMembers(specs, row);
    if |r| > 0 {
      assert r[0] in r;
      var i :| 0 <= i < |specs| && specs[i] == r[0];
    }
    if row in RowSet(specs) {
      var i :| 0 <= i < |specs| && RowOf(specs[i]) == row;
      assert specs[i] in specs;
    }
  }

  function RowLen(specs: seq<Spec>, row: int): nat {
    |SpecsForRow(specs, row)|
  }

  /** The largest of some lengths, 0 when there are none. */
  function MaxOf(ls: seq<nat>): nat {
    if |ls| == 0 then 0
    else
      var m, l := MaxOf(ls[..|ls| - 1]), ls[|ls| - 1];
      if l > m then l else m
  }

  /** `MaxOf` bounds every length and is one of them. */
  lemma {:induction false} MaxOfIsMax(ls: seq<nat>)
    ensures forall i :: 0 <= i < |ls| ==> ls[i] <= MaxOf(ls)
    ensures |ls| == 0 ==> MaxOf(ls) == 0
    ensures |ls| > 0 ==> exists i :: 0 <= i < |ls| && MaxOf(ls) == ls[i]
  {
    if |ls| > 0 {
      var init := ls[..|ls| - 1];
      MaxOfIsMax(init);
      assert forall i :: 0 <= i < |init| ==> init[i] == ls[i];
      if |init| > 0 {
        var i :| 0 <= i < |init| && MaxOf(init) == init[i];
      }
    }
  }

  /** The length of each spec's row. */
  function RowLens(specs: seq<Spec>): (r: seq<nat>)
    ensures |r| == |specs| && forall i :: 0 <= i < |specs| ==> r[i] == RowLen(specs, RowOf(specs[i]))
  {
    seq(|specs|, i requires 0 <= i < |specs| => RowLen(specs, RowOf(specs[i])))
  }

  /** The largest number of specs sharing a row. */
  function MaxRowLen(specs: seq<Spec>): nat {
    MaxOf(RowLens(specs))
  }

  /** A bound reached by the lengths of all the rows, listed once each, is
      the largest row length. */
  lemma MaxOverRows(specs: seq<Spec>, rows: seq<int>, m: nat)
    requires IsSortedSetOf(rows, RowSet(specs))
    requires forall j :: 0 <= j < |rows| ==> RowLen(specs, rows[j]) <= m
    requires m == 0 || exists j :: 0 <= j < |rows| && m == RowLen(specs, rows[j])
    ensures m == MaxRowLen(specs)
  {
    var ls := RowLens(specs);
    MaxOfIsMax(ls);
    if |specs| > 0 {
      var i :| 0 <= i < |ls| && MaxOf(ls) == ls[i];
      assert RowOf(specs[i]) in RowSet(specs);
      var j :| 0 <= j < |rows| && rows[j] == RowOf(specs[i]);
    }
    if m != 0 {
      var j :| 0 <= j < |rows| && m == RowLen(specs, rows[j]);
      assert rows[j] in rows;
      var i :| 0 <= i < |specs| && RowOf(specs[i]) == rows[j];
      assert ls[i] == m;
    }
  }

  /** The `max_row_len` loop over the sorted rows: it starts at 0 and keeps the
      largest row length seen. */
  method MaxRowLength(specs: seq<Spec>, rows: seq<int>) returns (m: nat)
    requires IsSortedSetOf(rows, RowSet(specs))
    ensures m == MaxRowLen(specs)
  {
    m := 0;
    for i := 0 to |rows|
      invariant forall j :: 0 <= j < i ==> RowLen(specs, rows[j]) <= m
      invariant m == 0 || exists j :: 0 <= j < i && m == RowLen(specs, rows[j])
    {
      var l := RowLen(specs, rows[i]);
      if l > m {
        m := l;
      }
    }
    MaxOverRows(specs, rows, m);
  }

  /** Every non-empty row makes the largest row length positive and fits in it. */
  lemma RowWithinMax(specs: seq<Spec>, row: int)
    requires RowLen(specs, row) > 0
    ensures 0 < RowLen(specs, row) <= MaxRowLen(specs)
  {
    var r := SpecsForRow(specs, row);
    SpecsForRowMembers(specs, row);
    assert r[0] in r;
    var i :| 0 <= i < |specs| && specs[i] == r[0];
    MaxOfIsMax(RowLens(specs));
  }

  // ---------------------------------------------------------------------------
  // Bounding box

  /** A bound of the bounding box: infinite until a positioned spec is seen. */
  datatype Bound = NegInf | Fin(v: int) | PosInf

  /** `y < top` against a bound that may be infinite. */
  predicate Below(y: int, b: Bound) {
    b.PosInf? || (b.Fin? && y < b.v)
  }

  /** `y > bottom` against a bound that may be infinite. */
  predicate Above(y: int, b: Bound) {
    b.NegInf? || (b.Fin? && y > b.v)
  }

  /** The top after the bounding-box loop over `specs`. */
  function TopOf(specs: seq<Spec>): Bound {
    if |specs| == 0 then PosInf
    else
      var t, s := TopOf(specs[..|specs| - 1]), specs[|specs| - 1];
      if s.position.Some? && Below(s.position.value.y, t) then Fin(s.position.value.y) else t
  }

  /** The bottom after the bounding-box loop over `specs`. */
  function BottomOf(specs: seq<Spec>): Bound {
    if |specs| == 0 then NegInf
    else
      var b, s := BottomOf(specs[..|specs| - 1]), specs[|specs| - 1];
      if s.position.Some? && Above(s.position.value.y + s.size.height, b) then
        Fin(s.position.value.y + s.size.height)
      else b
  }

  predicate HasPosition(specs: seq<Spec>) {
    exists i :: 0 <= i < |specs| && specs[i].position.Some?
  }

  /** The box is (+inf, -inf) when no spec is positioned; otherwise the top is
      the least y and the bottom the greatest y + height over the positioned
      specs, specs without a position playing no part. */
  lemma {:induction false} BoundingBox(specs: seq<Spec>)
    ensures TopOf(specs) == PosInf <==> !HasPosition(specs)
    ensures BottomOf(specs) == NegInf <==> !HasPosition(specs)
    ensures TopOf(specs) != NegInf && BottomOf(specs) != PosInf
    ensures TopOf(specs).Fin? ==>
      && (exists i :: 0 <= i < |specs| && specs[i].position.Some? && specs[i].position.value.y == TopOf(specs).v)
      && (forall i :: 0 <= i < |specs| && specs[i].position.Some? ==> TopOf(specs).v <= specs[i].position.value.y)
    ensures BottomOf(specs).Fin? ==>
      && (exists i :: 0 <= i < |specs| && specs[i].position.Some?
            && specs[i].position.value.y + specs[i].size.height == BottomOf(specs).v)
      && (forall i :: 0 <= i < |specs| && specs[i].position.Some?
            ==> specs[i].position.value.y + specs[i].size.height <= BottomOf(specs).v)
  {
    if |specs| > 0 {
      var init := specs[..|specs| - 1];
      BoundingBox(init);
      assert forall i :: 0 <= i < |init| ==> init[i] == specs[i];
      if HasPosition(init) {
        var i :| 0 <= i < |init| && init[i].position.Some?;
        assert specs[i].position.Some?;
      }
    }
  }

  /** `calc_bounding_box`: the loop that lowers `top` and raises `bottom`. */
  method CalcBoundingBox(specs: seq<Spec>) returns (top: Bound, bottom: Bound)
    ensures top == TopOf(specs) && bottom == BottomOf(specs)
  {
    top, bottom := PosInf, NegInf;
    for i := 0 to |specs|
      invariant top == TopOf(specs[..i]) && bottom == BottomOf(specs[..i])
    {
      assert specs[..i + 1][..i] == specs[..i];
      var s := specs[i];
      if s.position.Some? {
        var y, height := s.position.value.y, s.size.height;
        if Below(y, top) {
          top := Fin(y);
        }
        if Above(y + height, bottom) {
          bottom := Fin(y + height);
        }
      }
    }
    assert specs[..|specs|] == specs;
  }

  /** A positioned spec of the row is a positioned spec of the whole
      definition, so both boxes are finite. */
  lemma RowBoxFinite(specs: seq<Spec>, row: int)
    requires HasPosition(SpecsForRow(specs, row))
    ensures TopOf(specs).Fin? && BottomOf(specs).Fin?
    ensures TopOf(SpecsForRow(specs, row)).Fin? && BottomOf(SpecsForRow(specs, row)).Fin?
  {
    var r := SpecsForRow(specs, row);
    SpecsForRowMembers(specs, row);
    var i :| 0 <= i < |r| && r[i].position.Some?;
    assert r[i] in r;
    var j :| 0 <= j < |specs| && specs[j] == r[i];
    BoundingBox(specs);
    BoundingBox(r);
  }

  // ---------------------------------------------------------------------------
  // Row geometry

  datatype Geometry = Geometry(width: int, height: int, rowY: int)

  /** The padded size of the row's strip and the y its parts are drawn at. The
      strip is as tall as the row plus the margin; the top row also gets the
      space above it (and is drawn that far down), the bottom row also the
      space below the lowest part. */
  function RowGeometry(output: Size, totalTop: int, totalBottom: int, top: int, bottom: int): Geometry {
    var first := top == totalTop;
    var last := bottom == totalBottom;
    Geometry(
      output.width,
      bottom - top + Margin + (if first then top else 0) + (if last then output.height - totalBottom else 0),
      if first then top else 0)
  }

  /** The row's parts, drawn from `rowY`, leave at least the margin free at
      the bottom of the strip. */
  lemma RowFits(output: Size, totalTop: int, totalBottom: int, top: int, bottom: int)
    requires 0 <= totalTop <= top && bottom <= totalBottom <= output.height
    ensures var g := RowGeometry(output, totalTop, totalBottom, top, bottom);
      0 <= g.rowY && g.rowY + (bottom - top) + Margin <= g.height
  {
  }

  /** A row that is both the top and the bottom row fills the whole output
      height plus the margin and is drawn at its own y. */
  lemma SingleRowGeometry(output: Size, top: int, bottom: int)
    ensures RowGeometry(output, top, bottom, top, bottom) == Geometry(output.width, output.height + Margin, top)
  {
  }

  /** The strips of rows stacked top to bottom with no gaps between them
      (each row starting where the previous one's strip ends, counted without
      margins) add up to the output height plus one margin per row. */
  lemma TwoRowsStack(output: Size, top: int, mid: int, bottom: int)
    requires top < mid < bottom
    ensures RowGeometry(output, top, bottom, top, mid).height + RowGeometry(output, top, bottom, mid, bottom).height
      == output.height + 2 * Margin
  {
  }

  // ---------------------------------------------------------------------------
  // Inputs

  datatype VideoInput = VideoInput(partKey: string, trim: Option<real>, size: Size)

  datatype AudioInput = AudioInput(partKey: string, trim: Option<real>, volume: real, pan: real)

  /** `float(spec.get('offset', 0)) / 1000`: the part's lead in seconds. */
  function OffsetSeconds(s: Spec): real {
    (if s.offset.Some? then s.offset.value else 0.0) / 1000.0
  }

  /** The start a part is trimmed to: only a positive offset trims. */
  function TrimOf(s: Spec): (t: Option<real>)
    ensures t.Some? <==> OffsetSeconds(s) > 0.0
    ensures t.Some? ==> t.value * 1000.0 == s.offset.value
  {
    var offset := OffsetSeconds(s);
    if offset > 0.0 then Some(offset) else None
  }

  /** `process_spec`'s video: trimmed by the offset and scaled to the spec's size. */
  function VideoOf(id: DefinitionId, s: Spec): VideoInput {
    VideoInput(PartKey(id, s.partId), TrimOf(s), s.size)
  }

  /** `process_spec`'s audio: trimmed by the offset, volume 1 and pan 0 unless
      the spec says otherwise. */
  function AudioOf(id: DefinitionId, s: Spec): AudioInput {
    AudioInput(PartKey(id, s.partId), TrimOf(s),
      if s.volume.Some? then s.volume.value else 1.0,
      if s.pan.Some? then s.pan.value else 0.0)
  }

  /** Video and audio start at the same trimmed point, and the defaults apply
      exactly where the spec leaves a value out. */
  lemma ProcessSpec(id: DefinitionId, s: Spec)
    ensures VideoOf(id, s).trim == AudioOf(id, s).trim
    ensures VideoOf(id, s).trim.Some? <==> (s.offset.Some? && s.offset.value > 0.0)
    ensures s.volume.None? ==> AudioOf(id, s).volume == 1.0
    ensures s.pan.None? ==> AudioOf(id, s).pan == 0.0
    ensures s.volume.Some? ==> AudioOf(id, s).volume == s.volume.value
    ensures s.pan.Some? ==> AudioOf(id, s).pan == s.pan.value
  {
  }

  function VideosOf(id: DefinitionId, specs: seq<Spec>): (r: seq<VideoInput>)
    ensures |r| == |specs| && forall i :: 0 <= i < |specs| ==> r[i] == VideoOf(id, specs[i])
  {
    seq(|specs|, i requires 0 <= i < |specs| => VideoOf(id, specs[i]))
  }

  function AudiosOf(id: DefinitionId, specs: seq<Spec>): (r: seq<AudioInput>)
    ensures |r| == |specs| && forall i :: 0 <= i < |specs| ==> r[i] == AudioOf(id, specs[i])
  {
    seq(|specs|, i requires 0 <= i < |specs| => AudioOf(id, specs[i]))
  }

  /** `(x, row_y)` for each positioned spec. */
  function PointsOf(specs: seq<Spec>, rowY: int): (r: seq<Point>)
    ensures |r| == |specs|
  {
    seq(|specs|, i requires 0 <= i < |specs| =>
      Point(if specs[i].position.Some? then specs[i].position.value.x else 0, rowY))
  }

  // ---------------------------------------------------------------------------
  // The row's plan

  /** The video of a row: the inputs, and either the one part padded at its
      point or an xstack of several with their layout, then padded. */
  datatype VideoMix = VideoMix(inputs: seq<VideoInput>, layout: Option<string>, padAt: Option<Point>, geometry: Geometry)

  /** The audio of a row: the inputs mixed, then scaled by `volume`. */
  datatype AudioMix = AudioMix(inputs: seq<AudioInput>, volume: real)

  /** What a child returns: `{'error': 'no parts to process'}`, or a rendered
      row under its output key. */
  datatype Outcome = NoParts | Rendered(outputKey: string, audio: Option<AudioMix>, video: Option<VideoMix>)

  /** The child's parameters: `definition_key`, `row_num`, `rows_hash`, `run_id`. */
  datatype Request = Request(definitionKey: string, rowNum: int, rowsHash: string, runId: string)

  /** The padded geometry, defined once both bounding boxes are finite. */
  function PadOf(output: Size, totalTop: Bound, totalBottom: Bound, top: Bound, bottom: Bound): Option<Geometry> {
    if totalTop.Fin? && totalBottom.Fin? && top.Fin? && bottom.Fin? then
      Some(RowGeometry(output, totalTop.v, totalBottom.v, top.v, bottom.v))
    else None
  }

  /** The padding statements: the strip starts as tall as the row plus the
      margin and grows for the top and for the bottom row. */
  method Pad(output: Size, totalTop: Bound, totalBottom: Bound, top: Bound, bottom: Bound) returns (g: Option<Geometry>)
    ensures g == PadOf(output, totalTop, totalBottom, top, bottom)
  {
    g := None;
    if totalTop.Fin? && totalBottom.Fin? && top.Fin? && bottom.Fin? {
      var height := bottom.v - top.v + Margin;
      var rowY := 0;
      if top == totalTop {
        height := height + top.v;
        rowY := top.v;
      }
      if bottom == totalBottom {
        height := height + (output.height - totalBottom.v);
      }
      g := Some(Geometry(output.width, height, rowY));
    }
  }

  function VideoMixOf(id: DefinitionId, output: Size, specs: seq<Spec>, row: seq<Spec>): Option<VideoMix> {
    var shown := Positioned(row);
    match PadOf(output, TopOf(specs), BottomOf(specs), TopOf(row), BottomOf(row))
    case Some(g) =>
      if |shown| == 0 then None
      else
        var points := PointsOf(shown, g.rowY);
        Some(VideoMix(VideosOf(id, shown),
          if |shown| == 1 then None else Some(Layout(points)),
          if |shown| == 1 then Some(points[0]) else None,
          g))
    case None => None
  }

  /** The plan for row `req.rowNum`: nothing when the row is empty, otherwise
      one audio input per spec of the row scaled by how full the row is, and
      one video input per positioned spec of the row. */
  function RowPlan(id: DefinitionId, req: Request, output: Size, specs: seq<Spec>): Outcome {
    var row := SpecsForRow(specs, req.rowNum);
    if |row| == 0 then NoParts
    else
      RowWithinMax(specs, req.rowNum);
      var volume := |row| as real / MaxRowLen(specs) as real;
      Rendered(OutputKey(id, req.runId, req.rowNum, req.rowsHash),
        Some(AudioMix(AudiosOf(id, row), volume)),
        VideoMixOf(id, output, specs, row))
  }

  /** The loop over the row's specs: an audio input for each, and a video
      input and its point for each positioned one. */
  method RowInputs(id: DefinitionId, row: seq<Spec>, rowY: int) returns (audio: seq<AudioInput>, video: seq<VideoInput>, coords: seq<Point>)
    ensures audio == AudiosOf(id, row)
    ensures video == VideosOf(id, Positioned(row))
    ensures coords == PointsOf(Positioned(row), rowY)
  {
    audio, video, coords := [], [], [];
    for i := 0 to |row|
      invariant audio == AudiosOf(id, row[..i])
      invariant video == VideosOf(id, Positioned(row[..i]))
      invariant coords == PointsOf(Positioned(row[..i]), rowY)
    {
      var s := row[i];
      PositionedSnoc(row, i);
      AudiosSnoc(id, row[..i], s);
      assert row[..i + 1] == row[..i] + [s];
      audio := audio + [AudioOf(id, s)];
      if s.position.Some? {
        VideosSnoc(id, Positioned(row[..i]), s);
        PointsSnoc(Positioned(row[..i]), s, rowY);
        video := video + [VideoOf(id, s)];
        coords := coords + [Point(s.position.value.x, rowY)];
      }
    }
    assert row[..|row|] == row;
  }

  lemma PositionedSnoc(row: seq<Spec>, i: int)
    requires 0 <= i < |row|
    ensures Positioned(row[..i + 1]) == Positioned(row[..i]) + if row[i].position.Some? then [row[i]] else []
  {
    assert row[..i + 1][..i] == row[..i];
  }

  lemma AudiosSnoc(id: DefinitionId, ss: seq<Spec>, s: Spec)
    ensures AudiosOf(id, ss + [s]) == AudiosOf(id, ss) + [AudioOf(id, s)]
  {
  }

  lemma VideosSnoc(id: DefinitionId, ss: seq<Spec>, s: Spec)
    ensures VideosOf(id, ss + [s]) == VideosOf(id, ss) + [VideoOf(id, s)]
  {
  }

  lemma PointsSnoc(ss: seq<Spec>, s: Spec, rowY: int)
    requires s.position.Some?
    ensures PointsOf(ss + [s], rowY) == PointsOf(ss, rowY) + [Point(s.position.value.x, rowY)]
  {
  }

  /** A row with a positioned spec among those `Positioned` keeps has one. */
  lemma ShownHasPosition(row: seq<Spec>)
    requires |Positioned(row)| > 0
    ensures HasPosition(row)
  {
    PositionedMembers(row);
    assert Positioned(row)[0] in Positioned(row);
  }

  /** The video branch: a single part is padded at its point, several are
      stacked with the layout of their points. */
  method StackRow(id: DefinitionId, output: Size, specs: seq<Spec>, rowNum: int,
                  videoInputs: seq<VideoInput>, coords: seq<Point>, geometry: Option<Geometry>)
    returns (video: Option<VideoMix>)
    requires geometry == PadOf(output, TopOf(specs), BottomOf(specs), TopOf(SpecsForRow(specs, rowNum)), BottomOf(SpecsForRow(specs, rowNum)))
    requires videoInputs == VideosOf(id, Positioned(SpecsForRow(specs, rowNum)))
    requires coords == PointsOf(Positioned(SpecsForRow(specs, rowNum)), if geometry.Some? then geometry.value.rowY else 0)
    ensures video == VideoMixOf(id, output, specs, SpecsForRow(specs, rowNum))
  {
    var row := SpecsForRow(specs, rowNum);
    video := None;
    if |videoInputs| > 0 {
      ShownHasPosition(row);
      RowBoxFinite(specs, rowNum);
      if |videoInputs| == 1 {
        video := Some(VideoMix(videoInputs, None, Some(coords[0]), geometry.value));
      } else {
        video := Some(VideoMix(videoInputs, Some(Layout(coords)), None, geometry.value));
      }
    }
  }

  /** `main` from the parsed key on: rows, the largest row, the two bounding
      boxes, the padding, the inputs loop, then the audio and video mixes. */
  method Composite(req: Request, output: Size, specs: seq<Spec>) returns (r: Result<Outcome>)
    ensures ParseDefinitionKey(req.definitionKey).Err? ==> r == Err(ParseDefinitionKey(req.definitionKey).error)
    ensures ParseDefinitionKey(req.definitionKey).Ok? ==>
      r == Ok(RowPlan(ParseDefinitionKey(req.definitionKey).value, req, output, specs))
  {
    var parsed := ParseDefinitionKey(req.definitionKey);
    if parsed.Err? {
      return Err(parsed.error);
    }
    var id := parsed.value;
    var rows := CollectRows(specs);
    var maxRowLen := MaxRowLength(specs, rows);
    var row := SpecsForRow(specs, req.rowNum);
    var totalTop, totalBottom := CalcBoundingBox(specs);
    var top, bottom := CalcBoundingBox(row);
    var geometry := Pad(output, totalTop, totalBottom, top, bottom);
    var rowY := if geometry.Some? then geometry.value.rowY else 0;
    var audioInputs, videoInputs, coords := RowInputs(id, row, rowY);

    var audio: Option<AudioMix> := None;
    if |audioInputs| > 0 {
      RowWithinMax(specs, req.rowNum);
      audio := Some(AudioMix(audioInputs, |row| as real / maxRowLen as real));
    }
    var video := StackRow(id, output, specs, req.rowNum, videoInputs, coords, geometry);
    if audio.None? && video.None? {
      return Ok(NoParts);
    }
    return Ok(Rendered(OutputKey(id, req.runId, req.rowNum, req.rowsHash), audio, video));
  }

  // ---------------------------------------------------------------------------
  // What the plan promises

  /** A row renders exactly when some spec lies in it; otherwise the child
      reports that there are no parts. */
  lemma RowPlanNoParts(id: DefinitionId, req: Request, output: Size, specs: seq<Spec>)
    ensures RowPlan(id, req, output, specs) == NoParts <==> req.rowNum !in RowSet(specs)
  {
    SpecsForRowNonEmpty(specs, req.rowNum);
  }

  /** A rendered row has one audio input per spec of the row, in order, and
      its volume lies in (0, 1]: it is 1 for the fullest row. */
  lemma RowPlanAudio(id: DefinitionId, req: Request, output: Size, specs: seq<Spec>)
    requires RowPlan(id, req, output, specs).Rendered?
    ensures var p := RowPlan(id, req, output, specs);
      && p.audio.Some?
      && p.audio.value.inputs == AudiosOf(id, SpecsForRow(specs, req.rowNum))
      && 0.0 < p.audio.value.volume <= 1.0
      && (p.audio.value.volume == 1.0 <==> RowLen(specs, req.rowNum) == MaxRowLen(specs))
  {
    RowWithinMax(specs, req.rowNum);
    RatioInUnit(RowLen(specs, req.rowNum), MaxRowLen(specs));
  }

  /** A fraction whose numerator is positive and at most its denominator lies
      in (0, 1] and is 1 only for equal terms. */
  lemma RatioInUnit(a: nat, b: nat)
    requires 0 < a <= b
    ensures 0.0 < a as real / b as real <= 1.0
    ensures a as real / b as real == 1.0 <==> a == b
  {
    var q := a as real / b as real;
    assert q * b as real == a as real;
  }

  /** A rendered row has video exactly when one of its specs is positioned,
      with one input per positioned spec in order; a single part is padded at
      its own point, several are stacked with one layout entry each. */
  lemma RowPlanVideo(id: DefinitionId, req: Request, output: Size, specs: seq<Spec>)
    requires RowPlan(id, req, output, specs).Rendered?
    ensures var p := RowPlan(id, req, output, specs);
      var shown := Positioned(SpecsForRow(specs, req.rowNum));
      && (p.video.Some? <==> |shown| > 0)
      && (p.video.Some? ==>
        && p.video.value.inputs == VideosOf(id, shown)
        && (|shown| == 1 ==> p.video.value.padAt == Some(PointsOf(shown, p.video.value.geometry.rowY)[0]))
        && (|shown| > 1 ==> (p.video.value.layout.Some?
              && Split(p.video.value.layout.value, '|') == Coords(PointsOf(shown, p.video.value.geometry.rowY)))))
  {
    var row := SpecsForRow(specs, req.rowNum);
    var shown := Positioned(row);
    assert RowPlan(id, req, output, specs).video == VideoMixOf(id, output, specs, row);
    if |shown| > 0 {
      ShownHasPosition(row);
      RowBoxFinite(specs, req.rowNum);
      var g := PadOf(output, TopOf(specs), BottomOf(specs), TopOf(row), BottomOf(row)).value;
      if |shown| > 1 {
        LayoutEntries(PointsOf(shown, g.rowY));
      }
    }
  }

  /** A row of parts without a position (hidden parts, row -1) renders its
      audio and no video. */
  lemma HiddenRowAudioOnly(id: DefinitionId, req: Request, output: Size, specs: seq<Spec>)
    requires RowLen(specs, req.rowNum) > 0
    requires forall s :: s in SpecsForRow(specs, req.rowNum) ==> s.position.None?
    ensures var p := RowPlan(id, req, output, specs);
      p.Rendered? && p.video.None? && p.audio.Some?
      && |p.audio.value.inputs| == RowLen(specs, req.rowNum)
  {
    var shown := Positioned(SpecsForRow(specs, req.rowNum));
    if |shown| > 0 {
      ShownHasPosition(SpecsForRow(specs, req.rowNum));
    }
  }

  // ---------------------------------------------------------------------------
  // The inputs loop as written

  /** Lines 125-138 as written: `spec['position']` is read for every spec of
      the row, so the first spec without a position raises KeyError before any
      input is built. */
  function RowInputsAsWritten(id: DefinitionId, row: seq<Spec>): (r: Result<(seq<VideoInput>, seq<AudioInput>)>)
    ensures r.Err? <==> exists i :: 0 <= i < |row| && row[i].position.None?
    ensures r.Err? ==> r.error == KeyError("position")
  {
    if |row| == 0 then Ok(([], []))
    else if row[0].position.None? then Err(KeyError("position"))
    else
      match RowInputsAsWritten(id, row[1..])
      case Err(e) => Err(e)
      case Ok((vs, as_)) => Ok(([VideoOf(id, row[0])] + vs, [AudioOf(id, row[0])] + as_))
  }

  /** Where every spec of the row is positioned, the written loop and the
      corrected plan build the same inputs. */
  lemma {:induction false} RowInputsAgree(id: DefinitionId, row: seq<Spec>)
    requires forall i :: 0 <= i < |row| ==> row[i].position.Some?
    ensures RowInputsAsWritten(id, row) == Ok((VideosOf(id, Positioned(row)), AudiosOf(id, row)))
  {
    if |row| > 0 {
      var tail := row[1..];
      assert forall i :: 0 <= i < |tail| ==> tail[i] == row[i + 1];
      RowInputsAgree(id, tail);
      AllPositioned(row);
      AllPositioned(tail);
      InputsCons(id, row);
      var vs, as_ := VideosOf(id, tail), AudiosOf(id, tail);
      assert RowInputsAsWritten(id, tail) == Ok((vs, as_));
      assert RowInputsAsWritten(id, row) == Ok(([VideoOf(id, row[0])] + vs, [AudioOf(id, row[0])] + as_));
    }
  }

  /** The inputs of a row are those of its first spec followed by the rest's. */
  lemma InputsCons(id: DefinitionId, row: seq<Spec>)
    requires |row| > 0
    ensures VideosOf(id, row) == [VideoOf(id, row[0])] + VideosOf(id, row[1..])
    ensures AudiosOf(id, row) == [AudioOf(id, row[0])] + AudiosOf(id, row[1..])
  {
  }

  lemma {:induction false} AllPositioned(row: seq<Spec>)
    requires forall i :: 0 <= i < |row| ==> row[i].position.Some?
    ensures Positioned(row) == row
  {
    if |row| > 0 {
      AllPositioned(row[..|row| - 1]);
    }
  }
}
