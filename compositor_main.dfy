/** The Python fan-out (python/renderer_compositor_main.py): collect the rows
    of a definition, hash them, and ask for one child render per row, all
    under one run id. The HTTP posts become the list of calls made. */
module CompositorMain {
  import opened Wrappers
  import opened Sorting
  import opened Definition
  import opened RowsHash

  /** The JSON body posted to the child for one row. */
  datatype ChildCall = ChildCall(
    rowNum: int, runId: string, rowsHash: string, compositor: string, key: string, definitionKey: string)

  /** The action's result: `{'status': 'spawned children', 'run_id', 'definition_key'}`
      together with the calls it made. */
  datatype Spawned = Spawned(runId: string, definitionKey: string, calls: seq<ChildCall>)

  /** The row loop: `x, y = spec['position']` raises KeyError for a spec
      without a position; otherwise the rows are the distinct y values in
      increasing order. */
  method CollectRows(specs: seq<Spec>) returns (r: Result<seq<int>>)
    ensures r.Err? <==> exists i :: 0 <= i < |specs| && specs[i].position.None?
    ensures r.Err? ==> r.error == KeyError("position")
    ensures r.Ok? ==> IsSortedSetOf(r.value, RowSet(specs))
  {
    var seen: set<int> := {};
    for i := 0 to |specs|
      invariant forall j :: 0 <= j < i ==> specs[j].position.Some?
      invariant seen == set j | 0 <= j < i :: RowOf(specs[j])
    {
      if specs[i].position.None? {
        return Err(KeyError("position"));
      }
      seen := seen + {specs[i].position.value.y};
    }
    var rows := SortSet(seen);
    return Ok(rows);
  }

  /** One call per row, in row order, all with the same run id, rows hash,
      the `combined` compositor and the definition key. */
  function CallsFor(rows: seq<int>, runId: string, rowsHash: string, key: string): (r: seq<ChildCall>)
    ensures |r| == |rows|
    ensures forall i :: 0 <= i < |rows| ==>
      && r[i].rowNum == rows[i] && r[i].runId == runId && r[i].rowsHash == rowsHash
      && r[i].compositor == "combined" && r[i].key == key && r[i].definitionKey == key
  {
    seq(|rows|, i requires 0 <= i < |rows| => ChildCall(rows[i], runId, rowsHash, "combined", key, key))
  }

  /** `async_main` after the definition is loaded: rows, their hash, a run id
      (the first eight characters of a fresh uuid, given here), and the
      `tasks` list with one call per row. */
  method Spawn(definitionKey: string, specs: seq<Spec>, sha1Hex: string -> string, uuid: string)
    returns (r: Result<Spawned>)
    ensures r.Err? <==> exists i :: 0 <= i < |specs| && specs[i].position.None?
    ensures r.Ok? ==> exists rows ::
      && IsSortedSetOf(rows, RowSet(specs))
      && r.value == Spawned(Prefix8(uuid), definitionKey,
           CallsFor(rows, Prefix8(uuid), CalcHashRows(sha1Hex, rows), definitionKey))
  {
    var rows := CollectRows(specs);
    if rows.Err? {
      return Err(rows.error);
    }
    var rowsHash := CalcHashRows(sha1Hex, rows.value);
    var runId := Prefix8(uuid);
    var tasks: seq<ChildCall> := [];
    for i := 0 to |rows.value|
      invariant tasks == CallsFor(rows.value[..i], runId, rowsHash, definitionKey)
    {
      tasks := tasks + [ChildCall(rows.value[i], runId, rowsHash, "combined", definitionKey, definitionKey)];
    }
    assert rows.value[..|rows.value|] == rows.value;
    return Ok(Spawned(runId, definitionKey, tasks));
  }

  /** Every row of the definition gets exactly one call, and every call is
      for a row of the definition. */
  lemma OneCallPerRow(rows: seq<int>, specs: seq<Spec>, runId: string, rowsHash: string, key: string)
    requires IsSortedSetOf(rows, RowSet(specs))
    ensures var calls := CallsFor(rows, runId, rowsHash, key);
      && (forall i :: 0 <= i < |calls| ==> calls[i].rowNum in RowSet(specs))
      && (forall y :: y in RowSet(specs) ==> exists i :: 0 <= i < |calls| && calls[i].rowNum == y)
      && (forall i, j :: 0 <= i < j < |calls| ==> calls[i].rowNum != calls[j].rowNum)
  {
    var calls := CallsFor(rows, runId, rowsHash, key);
    forall i | 0 <= i < |calls| ensures calls[i].rowNum in RowSet(specs) {
      assert rows[i] in rows;
    }
    forall y | y in RowSet(specs)
      ensures exists i :: 0 <= i < |calls| && calls[i].rowNum == y
    {
      var i :| 0 <= i < |rows| && rows[i] == y;
      assert calls[i].rowNum == y;
    }
  }
}
