/** The final merge of the row renders (python/renderer_final.py): parse a
    row key, list the run's non-empty row objects, order them by row, check
    from the rows hash that every row is there, and stack the rows' video
    (row -1 has none) while mixing all their audio. */
module RendererFinal {
  import opened Wrappers
  import opened Strings
  import opened Sorting
  import opened Definition
  import opened RowsHash
  import opened CompositorChild

  /** The six fields of a row object's key. */
  datatype RowKey = RowKey(choirId: string, songId: string, defId: string, runId: string, rowNum: int, rowsHash: string)

  /** `parse_key`: the stem must split at '+' into exactly five fields, the
      last must split at '@' into exactly two, and the first of those must be
      an integer. */
  function ParseRowKey(key: string): (r: Result<RowKey>)
    ensures r.Ok? <==> (|Split(Stem(key), '+')| == 5 && |Split(Split(Stem(key), '+')[4], '@')| == 2
      && ParseInt(Split(Split(Stem(key), '+')[4], '@')[0]).Some?)
  {
    var fields := Split(Stem(key), '+');
    if |fields| != 5 then Err(UnpackError(5, |fields|))
    else
      var halves := Split(fields[4], '@');
      if |halves| != 2 then Err(UnpackError(2, |halves|))
      else
        match ParseInt(halves[0])
        case None => Err(ValueError("invalid literal for int() with base 10: '" + halves[0] + "'"))
        case Some(row) => Ok(RowKey(fields[0], fields[1], fields[2], fields[3], row, halves[1]))
  }

  /** A parsed key is the five fields joined at '+', the last of them a
      number, '@' and the hash, and no field holds a '+'. */
  lemma ParseRowKeySound(key: string)
    requires ParseRowKey(key).Ok?
    ensures var k := ParseRowKey(key).value; exists t ::
      && ParseInt(t) == Some(k.rowNum) && '@' !in t && '@' !in k.rowsHash
      && Stem(key) == Join([k.choirId, k.songId, k.defId, k.runId, t + "@" + k.rowsHash], '+')
    ensures var k := ParseRowKey(key).value;
      '+' !in k.choirId && '+' !in k.songId && '+' !in k.defId && '+' !in k.runId && '+' !in k.rowsHash
  {
    var fields := Split(Stem(key), '+');
    var halves := Split(fields[4], '@');
    assert fields[4] == halves[0] + "@" + halves[1];
    assert fields == [fields[0], fields[1], fields[2], fields[3], halves[0] + "@" + halves[1]];
  }

  /** A row key holds nothing a parse would misread: ids free of '+' and '/',
      a hash also free of '@'. */
  predicate PlainRowKey(id: DefinitionId, runId: string, rowsHash: string) {
    PlainId(id.choirId) && PlainId(id.songId) && PlainId(id.defId) && PlainId(runId)
    && PlainId(rowsHash) && '@' !in rowsHash
  }

  /** The five fields of a row object's key. */
  function RowKeyFields(id: DefinitionId, runId: string, row: int, rowsHash: string): seq<string> {
    [id.choirId, id.songId, id.defId, runId, IntToStr(row) + "@" + rowsHash]
  }

  /** The stem of a row child's key is its five fields joined, and they split
      back at '+'. */
  lemma OutputKeyStem(id: DefinitionId, runId: string, row: int, rowsHash: string)
    requires PlainRowKey(id, runId, rowsHash)
    ensures Stem(OutputKey(id, runId, row, rowsHash)) == Join(RowKeyFields(id, runId, row, rowsHash), '+')
    ensures Split(Join(RowKeyFields(id, runId, row, rowsHash), '+'), '+') == RowKeyFields(id, runId, row, rowsHash)
  {
    var fields := RowKeyFields(id, runId, row, rowsHash);
    RowKeyFieldsPlain(id, runId, row, rowsHash);
    PlainFieldsJoin(fields);
    assert OutputKey(id, runId, row, rowsHash) == Join(fields, '+') + ".nut";
    NutStem(Join(fields, '+'));
  }

  lemma NutStem(base: string)
    requires |base| >= 1 && '/' !in base
    ensures Stem(base + ".nut") == base
  {
    assert base + ".nut" == base + "." + "nut";
    StemOfName(base, "nut");
  }

  lemma RowKeyFieldsPlain(id: DefinitionId, runId: string, row: int, rowsHash: string)
    requires PlainRowKey(id, runId, rowsHash)
    ensures |RowKeyFields(id, runId, row, rowsHash)| >= 2
    ensures forall i :: 0 <= i < |RowKeyFields(id, runId, row, rowsHash)| ==> PlainId(RowKeyFields(id, runId, row, rowsHash)[i])
  {
    IntToStrHasNo(row, '+');
    IntToStrHasNo(row, '/');
  }

  /** Fields free of '+' and '/' join into a non-empty text without '/' that
      splits back into them. */
  lemma PlainFieldsJoin(fields: seq<string>)
    requires |fields| >= 2 && forall i :: 0 <= i < |fields| ==> PlainId(fields[i])
    ensures '/' !in Join(fields, '+') && |Join(fields, '+')| >= 1
    ensures Split(Join(fields, '+'), '+') == fields
  {
    JoinExcludes(fields, '+', '/');
    SplitJoin(fields, '+');
    assert Join(fields, '+') == fields[0] + "+" + Join(fields[1..], '+');
  }

  /** The last field splits at its one '@' into the row and the hash. */
  lemma RowSectionSplit(row: int, rowsHash: string)
    requires '@' !in rowsHash
    ensures Split(IntToStr(row) + "@" + rowsHash, '@') == [IntToStr(row), rowsHash]
  {
    IntToStrHasNo(row, '@');
    SplitJoin([IntToStr(row), rowsHash], '@');
    assert Join([IntToStr(row), rowsHash], '@') == IntToStr(row) + "@" + rowsHash;
  }

  /** `parse_key` reads back the key a row child writes. */
  lemma OutputKeyRoundTrip(id: DefinitionId, runId: string, row: int, rowsHash: string)
    requires PlainRowKey(id, runId, rowsHash)
    ensures ParseRowKey(OutputKey(id, runId, row, rowsHash))
      == Ok(RowKey(id.choirId, id.songId, id.defId, runId, row, rowsHash))
  {
    var fields := RowKeyFields(id, runId, row, rowsHash);
    OutputKeyStem(id, runId, row, rowsHash);
    assert Split(Stem(OutputKey(id, runId, row, rowsHash)), '+') == fields;
    RowSectionSplit(row, rowsHash);
    IntToStrRoundTrip(row);
  }

  /** `int(parse_key(x)[4])` for a key known to parse; the sort key and the
      hash use it. */
  function RowNumOf(key: string): int {
    match ParseRowKey(key)
    case Ok(k) => k.rowNum
    case Err(_) => 0
  }

  predicate AllParse(keys: seq<string>) {
    forall i :: 0 <= i < |keys| ==> ParseRowKey(keys[i]).Ok?
  }

  predicate Unparsed(key: string) {
    ParseRowKey(key).Err?
  }

  /** The position of the first key `parse_key` rejects. */
  function FirstUnparsed(keys: seq<string>): (i: nat)
    requires !AllParse(keys)
    ensures i < |keys| && ParseRowKey(keys[i]).Err?
    ensures forall j :: 0 <= j < i ==> ParseRowKey(keys[j]).Ok?
  {
    assert exists j :: 0 <= j < |keys| && Unparsed(keys[j]);
    FirstWhere(Unparsed, keys)
  }

  /** `calc_hash_of_keys`: the rows hash of the keys' row numbers; the first
      key that does not parse raises its own error. */
  function CalcHashOfKeys(sha1Hex: string -> string, keys: seq<string>): (r: Result<string>)
    ensures r.Ok? <==> AllParse(keys)
    ensures !AllParse(keys) ==> r == Err(ParseRowKey(keys[FirstUnparsed(keys)]).error)
  {
    if AllParse(keys) then Ok(CalcHashRows(sha1Hex, Map(RowNumOf, keys)))
    else Err(ParseRowKey(keys[FirstUnparsed(keys)]).error)
  }

  /** The completeness hash does not depend on the order of the keys;
      whether it raises does not either, though which key's error it
      raises does. */
  lemma CalcHashOfKeysPermutation(sha1Hex: string -> string, a: seq<string>, b: seq<string>)
    requires multiset(a) == multiset(b)
    ensures CalcHashOfKeys(sha1Hex, a).Ok? == CalcHashOfKeys(sha1Hex, b).Ok?
    ensures AllParse(a) ==> CalcHashOfKeys(sha1Hex, a) == CalcHashOfKeys(sha1Hex, b)
  {
    if AllParse(a) {
      forall i | 0 <= i < |b| ensures ParseRowKey(b[i]).Ok? {
        assert b[i] in multiset(a);
      }
    }
    if AllParse(b) {
      forall i | 0 <= i < |a| ensures ParseRowKey(a[i]).Ok? {
        assert a[i] in multiset(b);
      }
    }
    MapPermutation(RowNumOf, a, b);
    CalcHashRowsPermutation(sha1Hex, Map(RowNumOf, a), Map(RowNumOf, b));
  }

  /** The keys the children of one run write, one per row. */
  function RunKeys(id: DefinitionId, runId: string, rows: seq<int>, rowsHash: string): (r: seq<string>)
    ensures |r| == |rows|
  {
    seq(|rows|, i requires 0 <= i < |rows| => OutputKey(id, runId, rows[i], rowsHash))
  }

  /** When the objects of every row of the run are there, in any order, the
      hash of their keys is the rows hash the fan-out computed, so the merge
      goes ahead. */
  lemma CompleteRunPasses(sha1Hex: string -> string, id: DefinitionId, runId: string, rows: seq<int>, keys: seq<string>)
    requires PlainRowKey(id, runId, CalcHashRows(sha1Hex, rows))
    requires multiset(keys) == multiset(RunKeys(id, runId, rows, CalcHashRows(sha1Hex, rows)))
    ensures CalcHashOfKeys(sha1Hex, keys) == Ok(CalcHashRows(sha1Hex, rows))
  {
    var h := CalcHashRows(sha1Hex, rows);
    var written := RunKeys(id, runId, rows, h);
    forall i | 0 <= i < |written| ensures ParseRowKey(written[i]).Ok? && RowNumOf(written[i]) == rows[i] {
      OutputKeyRoundTrip(id, runId, rows[i], h);
    }
    assert Map(RowNumOf, written) == rows;
    CalcHashOfKeysPermutation(sha1Hex, keys, written);
  }

  // ---------------------------------------------------------------------------
  // main

  /** One entry of the storage listing under the run's key prefix. */
  datatype Listed = Listed(key: string, size: int)

  /** `[x['Key'] for x in contents if x['Size'] > 0]`. */
  function SizedKeys(listing: seq<Listed>): (r: seq<string>)
    ensures forall k :: k in r <==> exists i :: 0 <= i < |listing| && listing[i].size > 0 && listing[i].key == k
  {
    if |listing| == 0 then []
    else
      var init, last := listing[..|listing| - 1], listing[|listing| - 1];
      assert forall i :: 0 <= i < |init| ==> init[i] == listing[i];
      SizedKeys(init) + if last.size > 0 then [last.key] else []
  }

  /** The sort key `int(parse_key(x)[4])` as a one-element key. */
  function ByRow(key: string): seq<int> {
    [RowNumOf(key)]
  }

  /** How the video of the merged render is made. */
  datatype Video = VStack(keys: seq<string>) | Single(key: string) | NoVideo

  /** What `main` returns: `{'status': 'missing rows'}`, or the merged
      render's key, run and definition ids, its video and the audio mixed. */
  datatype FinalOutcome = MissingRows | Merged(dstKey: string, runId: string, defId: string, video: Video, audio: seq<string>)

  /** Whether a row key carries video: every row but -1 does. */
  predicate HasVideo(key: string) {
    RowNumOf(key) != -1
  }

  /** The row keys that carry video, in order. */
  function VideoKeys(keys: seq<string>): seq<string> {
    Filter(HasVideo, keys)
  }

  /** `f"{choir_id}+{song_id}+{def_id}-preprod.nut"`. */
  function PreprodKey(k: RowKey): string {
    Join([k.choirId, k.songId, k.defId], '+') + "-preprod.nut"
  }

  /** The loop over several row keys: each one's video unless it is row -1,
      and each one's audio. */
  method RowParts(rowKeys: seq<string>) returns (videoParts: seq<string>, audioParts: seq<string>)
    ensures videoParts == VideoKeys(rowKeys)
    ensures audioParts == rowKeys
  {
    videoParts, audioParts := [], [];
    for i := 0 to |rowKeys|
      invariant videoParts == VideoKeys(rowKeys[..i])
      invariant audioParts == rowKeys[..i]
    {
      var rowKey := rowKeys[i];
      FilterSnoc(HasVideo, rowKeys, i);
      if HasVideo(rowKey) {
        videoParts := videoParts + [rowKey];
      }
      audioParts := audioParts + [rowKey];
    }
    assert rowKeys[..|rowKeys|] == rowKeys;
  }

  /** `process`: with several rows, a vstack of the rows other than -1 and a
      mix of all of them; with one, its video unless it is row -1, and its
      audio; with none, `row_keys[0]` raises IndexError. */
  method Process(k: RowKey, rowKeys: seq<string>) returns (r: Result<FinalOutcome>)
    ensures r.Err? <==> |rowKeys| == 0
    ensures r.Ok? ==> r.value.Merged? && r.value.dstKey == PreprodKey(k)
    ensures r.Ok? ==> r.value.runId == k.runId && r.value.defId == k.defId && r.value.audio == rowKeys
    ensures r.Ok? && |rowKeys| > 1 ==> r.value.video == VStack(VideoKeys(rowKeys))
    ensures r.Ok? && |rowKeys| == 1 ==>
      r.value.video == if RowNumOf(rowKeys[0]) == -1 then NoVideo else Single(rowKeys[0])
  {
    if |rowKeys| == 0 {
      return Err(IndexError("list index out of range"));
    }
    var video: Video;
    var audioParts: seq<string>;
    if |rowKeys| > 1 {
      var videoParts;
      videoParts, audioParts := RowParts(rowKeys);
      video := VStack(videoParts);
    } else {
      video := if RowNumOf(rowKeys[0]) != -1 then Single(rowKeys[0]) else NoVideo;
      audioParts := [rowKeys[0]];
    }
    return Ok(Merged(PreprodKey(k), k.runId, k.defId, video, audioParts));
  }

  /** `main`: parse the key, keep the listed objects that are not empty, sort
      them by row (the sort key raises on a key that does not parse), and
      merge only when their hash is the key's rows hash. */
  method FinalMain(key: string, listing: seq<Listed>, sha1Hex: string -> string) returns (r: Result<FinalOutcome>)
    ensures ParseRowKey(key).Err? ==> r == Err(ParseRowKey(key).error)
    ensures ParseRowKey(key).Ok? && !AllParse(SizedKeys(listing)) ==>
      r == Err(ParseRowKey(SizedKeys(listing)[FirstUnparsed(SizedKeys(listing))]).error)
    ensures r == Ok(MissingRows) <==>
      && ParseRowKey(key).Ok? && AllParse(SizedKeys(listing))
      && CalcHashOfKeys(sha1Hex, SizedKeys(listing)).value != ParseRowKey(key).value.rowsHash
    ensures r.Ok? && r.value.Merged? ==>
      && ParseRowKey(key).Ok? && AllParse(SizedKeys(listing))
      && CalcHashOfKeys(sha1Hex, SizedKeys(listing)) == Ok(ParseRowKey(key).value.rowsHash)
      && r.value.dstKey == PreprodKey(ParseRowKey(key).value)
      && multiset(r.value.audio) == multiset(SizedKeys(listing))
      && SortedBy(r.value.audio, ByRow)
    ensures r.Err? <==>
      || ParseRowKey(key).Err? || !AllParse(SizedKeys(listing))
      || (CalcHashOfKeys(sha1Hex, SizedKeys(listing)) == Ok(ParseRowKey(key).value.rowsHash) && |SizedKeys(listing)| == 0)
    ensures (&& ParseRowKey(key).Ok? && AllParse(SizedKeys(listing))
             && CalcHashOfKeys(sha1Hex, SizedKeys(listing)) == Ok(ParseRowKey(key).value.rowsHash)
             && |SizedKeys(listing)| > 0) ==>
      var k, sorted := ParseRowKey(key).value, SortBy(SizedKeys(listing), ByRow);
      && |sorted| == |SizedKeys(listing)|
      && r == Ok(Merged(PreprodKey(k), k.runId, k.defId,
        if |sorted| > 1 then VStack(VideoKeys(sorted))
        else if RowNumOf(sorted[0]) == -1 then NoVideo else Single(sorted[0]),
        sorted))
  {
    var parsed := ParseRowKey(key);
    if parsed.Err? {
      return Err(parsed.error);
    }
    var rowKeys := SizedKeys(listing);
    if !AllParse(rowKeys) {
      var i := FirstUnparsed(rowKeys);
      return Err(ParseRowKey(rowKeys[i]).error);
    }
    var sorted := SortBy(rowKeys, ByRow);
    forall i | 0 <= i < |sorted| ensures ParseRowKey(sorted[i]).Ok? {
      assert sorted[i] in multiset(rowKeys);
    }
    CalcHashOfKeysPermutation(sha1Hex, sorted, rowKeys);
    var h := CalcHashOfKeys(sha1Hex, sorted);
    if h.value != parsed.value.rowsHash {
      return Ok(MissingRows);
    }
    assert |sorted| == |multiset(sorted)| == |rowKeys|;
    r := Process(parsed.value, sorted);
  }

  /** Row -1 brings audio and no video: with several rows its key is mixed
      but not stacked, and every other row's key is stacked. */
  lemma RowMinusOneAudioOnly(rowKeys: seq<string>, i: int)
    requires 0 <= i < |rowKeys| && RowNumOf(rowKeys[i]) == -1
    ensures rowKeys[i] !in VideoKeys(rowKeys)
    ensures forall j :: 0 <= j < |rowKeys| && RowNumOf(rowKeys[j]) != -1 ==> rowKeys[j] in VideoKeys(rowKeys)
  {
    FilterMembers(HasVideo, rowKeys);
    assert !HasVideo(rowKeys[i]);
    forall j | 0 <= j < |rowKeys| && RowNumOf(rowKeys[j]) != -1
      ensures rowKeys[j] in VideoKeys(rowKeys)
    {
      assert HasVideo(rowKeys[j]);
    }
  }

  /** Keys ordered by row stay ordered by row once row -1 is taken out, so
      the rows are stacked top to bottom. */
  lemma VideoKeysSorted(keys: seq<string>)
    requires SortedBy(keys, ByRow)
    ensures SortedBy(VideoKeys(keys), ByRow)
  {
    FilterSortedBy(HasVideo, keys, ByRow);
  }
}
