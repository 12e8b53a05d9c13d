/** The JavaScript fan-out (js/renderer_compositor_main.js): the same rows as
    the Python fan-out, except that a spec without a position counts as row -1
    instead of raising; one non-blocking invocation per row, and the
    activation ids in row order. */
module CompositorMainJs {
  import opened Wrappers
  import opened Strings
  import opened Sorting
  import opened Definition
  import opened RowsHash
  import opened CompositorChild
  import opened CompositorMain

  /** The action's result: `{status: "spawned children", run_id,
      definition_key, activation_ids}` with the invocations made. */
  datatype SpawnedJs = SpawnedJs(runId: string, definitionKey: string, invocations: seq<ChildCall>, activationIds: seq<string>)

  /** The `forEach` adding each spec's y (-1 without a position) to a Set:
      every row once, in the order first seen. */
  method DistinctRows(specs: seq<Spec>) returns (rows: seq<int>)
    ensures NoDup(rows)
    ensures forall y :: y in rows <==> y in RowSet(specs)
  {
    rows := [];
    for i := 0 to |specs|
      invariant NoDup(rows)
      invariant forall y :: y in rows <==> exists j :: 0 <= j < i && RowOf(specs[j]) == y
    {
      var y := RowOf(specs[i]);
      if y !in rows {
        rows := rows + [y];
      }
    }
  }

  /** `Array.from(rows)` sorted with `(a, b) => parseInt(a) - parseInt(b)`:
      for integer rows, ascending numeric order. */
  method SortedRows(specs: seq<Spec>) returns (rows: seq<int>)
    ensures IsSortedSetOf(rows, RowSet(specs))
  {
    var distinct := DistinctRows(specs);
    rows := SortInts(distinct);
    SortedNoDupStrict(rows, distinct);
    forall y ensures y in rows <==> y in distinct {
      assert y in rows <==> y in multiset(rows);
      assert y in distinct <==> y in multiset(distinct);
    }
  }

  /** `crypto.createHash('sha1').update(rows.join("-")).digest('hex').slice(0, 8)`. */
  function JsRowsHash(sha1Hex: string -> string, rows: seq<int>): string {
    Prefix8(sha1Hex(Join(Texts(rows), '-')))
  }

  /** `main` after the definition is loaded: rows, their hash, the run id
      (`uuidv4().slice(0, 8)`, the uuid given here), one invocation per row,
      and the activation id each invocation returns, in the same order. */
  method SpawnJs(key: string, specs: seq<Spec>, sha1Hex: string -> string, uuid: string, activate: ChildCall -> string)
    returns (r: SpawnedJs)
    ensures exists rows ::
      && IsSortedSetOf(rows, RowSet(specs))
      && r.runId == Prefix8(uuid) && r.definitionKey == key
      && r.invocations == CallsFor(rows, Prefix8(uuid), JsRowsHash(sha1Hex, rows), key)
    ensures |r.activationIds| == |r.invocations|
    ensures forall i :: 0 <= i < |r.invocations| ==> r.activationIds[i] == activate(r.invocations[i])
  {
    var rows := SortedRows(specs);
    var rowsHash := JsRowsHash(sha1Hex, rows);
    var runId := Prefix8(uuid);
    var actions := CallsFor(rows, runId, rowsHash, key);
    var ids := seq(|actions|, i requires 0 <= i < |actions| => activate(actions[i]));
    r := SpawnedJs(runId, key, actions, ids);
  }

  /** Where every spec has a position, both fan-outs see the same rows and
      compute the same rows hash, so the child outputs they cause are named
      alike. */
  lemma SameRowsAndHash(specs: seq<Spec>, jsRows: seq<int>, pyRows: seq<int>, sha1Hex: string -> string)
    requires IsSortedSetOf(jsRows, RowSet(specs)) && IsSortedSetOf(pyRows, RowSet(specs))
    ensures jsRows == pyRows
    ensures JsRowsHash(sha1Hex, jsRows) == CalcHashRows(sha1Hex, pyRows)
  {
    SortedSetUnique(jsRows, pyRows, RowSet(specs));
    RowsTextSorted(pyRows);
  }

  /** As written, a spec without a position puts row -1 among the rows the
      JavaScript fan-out spawns a child for, and that child's inputs loop
      raises KeyError on the spec. */
  lemma PositionlessRowAsWritten(id: DefinitionId, specs: seq<Spec>, i: int)
    requires 0 <= i < |specs| && specs[i].position.None?
    ensures -1 in RowSet(specs)
    ensures RowInputsAsWritten(id, SpecsForRow(specs, -1)) == Err(KeyError("position"))
  {
    var row := SpecsForRow(specs, -1);
    SpecsForRowMembers(specs, -1);
    assert specs[i] in row;
    var k :| 0 <= k < |row| && row[k] == specs[i];
  }

  /** With the correction the child renders row -1: the spec's audio is mixed
      in, and the video holds only the parts that have a position. */
  lemma PositionlessRowCorrected(id: DefinitionId, req: Request, output: Size, specs: seq<Spec>, i: int)
    requires 0 <= i < |specs| && specs[i].position.None? && req.rowNum == -1
    ensures RowPlan(id, req, output, specs).Rendered?
    ensures AudioOf(id, specs[i]) in RowPlan(id, req, output, specs).audio.value.inputs
    ensures specs[i] !in Positioned(SpecsForRow(specs, -1))
  {
    var row := SpecsForRow(specs, -1);
    SpecsForRowMembers(specs, -1);
    PositionedMembers(row);
    assert specs[i] in row;
    var k :| 0 <= k < |row| && row[k] == specs[i];
    assert AudiosOf(id, row)[k] == AudioOf(id, specs[i]);
  }
}
