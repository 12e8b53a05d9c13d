/** The render definition the compositing steps share: one input spec per sung
    part, with an optional position on the output canvas and a size, and the
    `x_y|x_y` layout strings the video stacking filter takes. */
module Definition {
  import opened Wrappers
  import opened Strings

  datatype Point = Point(x: int, y: int)

  datatype Size = Size(width: int, height: int)

  /** One entry of a definition's `inputs`. A spec without a position is an
      audio-only (hidden) part; offset (ms), pan and volume may be absent. */
  datatype Spec = Spec(
    partId: string,
    position: Option<Point>,
    size: Size,
    offset: Option<real>,
    pan: Option<real>,
    volume: Option<real>)

  /** `spec.get('position', [-1, -1])[1]`: the spec's row, -1 without a position. */
  function RowOf(s: Spec): int {
    if s.position.Some? then s.position.value.y else -1
  }

  /** The y values of all specs, -1 for a spec without a position. */
  function RowSet(specs: seq<Spec>): set<int> {
    set i | 0 <= i < |specs| :: RowOf(specs[i])
  }

  /** `f"{x}_{y}"`. */
  function Coord(p: Point): string {
    IntToStr(p.x) + "_" + IntToStr(p.y)
  }

  function Coords(ps: seq<Point>): (r: seq<string>)
    ensures |r| == |ps| && forall i :: 0 <= i < |ps| ==> r[i] == Coord(ps[i])
  {
    seq(|ps|, i requires 0 <= i < |ps| => Coord(ps[i]))
  }

  lemma CoordsSnoc(ps: seq<Point>, p: Point)
    ensures Coords(ps + [p]) == Coords(ps) + [Coord(p)]
  {
  }

  /** `'|'.join(f"{x}_{y}" for ...)`. */
  function Layout(ps: seq<Point>): string {
    Join(Coords(ps), '|')
  }

  /** A coordinate's text holds no '|' and splits at its '_' into the two
      numbers, which parse back. */
  lemma CoordRoundTrip(p: Point)
    ensures '|' !in Coord(p)
    ensures Cut(Coord(p), '_') == Some((IntToStr(p.x), IntToStr(p.y)))
    ensures ParseInt(IntToStr(p.x)) == Some(p.x) && ParseInt(IntToStr(p.y)) == Some(p.y)
  {
    IntToStrHasNo(p.x, '|');
    IntToStrHasNo(p.y, '|');
    IntToStrHasNo(p.x, '_');
    CutJoined(IntToStr(p.x), '_', IntToStr(p.y));
    IntToStrRoundTrip(p.x);
    IntToStrRoundTrip(p.y);
  }

  /** The layout has one entry per point, in order: splitting it at '|' gives
      the coordinates back. */
  lemma LayoutEntries(ps: seq<Point>)
    requires |ps| >= 1
    ensures Split(Layout(ps), '|') == Coords(ps)
  {
    forall i | 0 <= i < |ps| ensures '|' !in Coords(ps)[i] {
      CoordRoundTrip(ps[i]);
    }
    SplitJoin(Coords(ps), '|');
  }

  /** The specs that have a position, in their original order. */
  function Positioned(specs: seq<Spec>): (r: seq<Spec>)
    ensures |r| <= |specs|
  {
    if |specs| == 0 then []
    else
      var init, last := specs[..|specs| - 1], specs[|specs| - 1];
      Positioned(init) + if last.position.Some? then [last] else []
  }

  /** `Positioned` keeps exactly the specs that have a position. */
  lemma {:induction false} PositionedMembers(specs: seq<Spec>)
    ensures forall s :: s in Positioned(specs) <==> s in specs && s.position.Some?
  {
    if |specs| > 0 {
      var init, last := specs[..|specs| - 1], specs[|specs| - 1];
      PositionedMembers(init);
      assert specs == init + [last];
    }
  }

  /** The three ids a definition file is named after. */
  datatype DefinitionId = DefinitionId(choirId: string, songId: string, defId: string)

  /** `f"{choir_id}+{song_id}+{def_id}"`. */
  function IdsText(id: DefinitionId): string {
    Join([id.choirId, id.songId, id.defId], '+')
  }

  /** `f"{choir_id}+{song_id}+{def_id}.json"`, the definition's object key. */
  function DefinitionKey(id: DefinitionId): string {
    IdsText(id) + ".json"
  }

  /** Plain ids name distinct definition files: the key determines the ids. */
  lemma DefinitionKeyInjective(a: DefinitionId, b: DefinitionId)
    requires PlainId(a.choirId) && PlainId(a.songId) && PlainId(a.defId)
    requires PlainId(b.choirId) && PlainId(b.songId) && PlainId(b.defId)
    ensures DefinitionKey(a) == DefinitionKey(b) <==> a == b
  {
    if DefinitionKey(a) == DefinitionKey(b) {
      var n := |DefinitionKey(a)| - 5;
      assert IdsText(a) == DefinitionKey(a)[..n];
      assert IdsText(b) == DefinitionKey(b)[..n];
      IdsTextShape(a);
      IdsTextShape(b);
    }
  }

  /** An id that can be put between the separators of an object key and
      found again: no '+' between fields and no '/' of a directory. */
  predicate PlainId(s: string) {
    '+' !in s && '/' !in s
  }

  /** The ids text holds exactly the two separating '+' and no '/'. */
  lemma IdsTextShape(id: DefinitionId)
    requires PlainId(id.choirId) && PlainId(id.songId) && PlainId(id.defId)
    ensures '/' !in IdsText(id) && |IdsText(id)| >= 2
    ensures Split(IdsText(id), '+') == [id.choirId, id.songId, id.defId]
  {
    var parts := [id.choirId, id.songId, id.defId];
    JoinExcludes(parts, '+', '/');
    SplitJoin(parts, '+');
    SplitCount(IdsText(id), '+');
    if |IdsText(id)| < 2 {
      CountAtMost(IdsText(id), '+');
    }
  }

  lemma {:induction false} CountAtMost(s: string, c: char)
    ensures Count(s, c) <= |s|
  {
    if |s| > 0 { CountAtMost(s[1..], c); }
  }
}
