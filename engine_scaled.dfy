/** The scaling step before compositing
    (python/renderer_engine_video_ensure_scaled.py): for every input of the
    definition it wants the part's video scaled to the input's size, under a
    key the compositing engine will look for; a scaled video already in
    storage is reused, any other is requested from the scaler service. */
module EngineScaled {
  import opened Wrappers
  import opened Strings
  import opened Sorting
  import opened Definition
  import opened Actions
  import opened EngineComposite

  /** `f"{choir_id}+{song_id}+{part_id}.mkv"`, a part's unscaled video. */
  function PartVideoKey(choirId: string, songId: string, partId: string): string {
    choirId + "+" + songId + "+" + partId + ".mkv"
  }

  /** `f"{Path(key).stem}-{width}-{height}.mkv"`. */
  function ScaledKey(key: string, size: Size): string {
    Stem(key) + "-" + IntToStr(size.width) + "-" + IntToStr(size.height) + ".mkv"
  }

  /** The scaled video of a part is the one the compositing engine requires
      for an input of that part and size. */
  lemma ScaledKeyIsRequired(choirId: string, songId: string, partId: string, size: Size)
    requires PlainId(choirId) && PlainId(songId) && PlainId(partId)
    ensures ScaledKey(PartVideoKey(choirId, songId, partId), size) == ScaledPartKey(choirId, songId, partId, size)
  {
    var base := choirId + "+" + songId + "+" + partId;
    assert '/' !in base by {
      assert base == choirId + ("+" + songId + "+" + partId);
    }
    assert PartVideoKey(choirId, songId, partId) == base + "." + "mkv";
    StemOfName(base, "mkv");
  }

  /** The body the scaler service is posted. */
  datatype ScaleRequest = ScaleRequest(key: string, width: int, height: int)

  /** The scaler service: the HTTP status of its answer to a request. */
  type Scaler = ScaleRequest -> int

  /** `call_scaler`: the scaled key, and the requests it sends (none or one). */
  function CallScaler(alreadyScaled: set<string>, key: string, size: Size, scaler: Scaler): (r: (Option<string>, seq<ScaleRequest>))
    ensures |r.1| <= 1
    ensures r.0.Some? ==> r.0.value == ScaledKey(key, size)
  {
    var scaledKey := ScaledKey(key, size);
    if scaledKey in alreadyScaled then (Some(scaledKey), [])
    else
      var request := ScaleRequest(key, size.width, size.height);
      (if scaler(request) == 200 then Some(scaledKey) else None, [request])
  }

  /** A stored scaled video is answered without a request; otherwise one
      request goes out, and only a 200 answer gives the key. */
  lemma CallScalerCases(alreadyScaled: set<string>, key: string, size: Size, scaler: Scaler)
    ensures var r := CallScaler(alreadyScaled, key, size, scaler);
      && (r.1 == [] <==> ScaledKey(key, size) in alreadyScaled)
      && (r.1 != [] ==> r.1 == [ScaleRequest(key, size.width, size.height)])
      && (r.0.Some? ==> r.0.value == ScaledKey(key, size))
      && (r.0.None? <==> ScaledKey(key, size) !in alreadyScaled && scaler(ScaleRequest(key, size.width, size.height)) != 200)
  {
  }

  function InputResult(choirId: string, songId: string, input: Spec, alreadyScaled: set<string>, scaler: Scaler): (Option<string>, seq<ScaleRequest>) {
    CallScaler(alreadyScaled, PartVideoKey(choirId, songId, input.partId), input.size, scaler)
  }

  /** The JSON value of `scaled_keys`: a string or null per input. */
  function KeysValue(keys: seq<Option<string>>): (v: Value)
    ensures v.List? && |v.items| == |keys|
    ensures forall i :: 0 <= i < |keys| ==> v.items[i] == (if keys[i].Some? then Str(keys[i].value) else Null)
  {
    List(seq(|keys|, i requires 0 <= i < |keys| => if keys[i].Some? then Str(keys[i].value) else Null))
  }

  /** Whether an input's scaled video is still to be made. */
  predicate Pending(choirId: string, songId: string, alreadyScaled: set<string>, input: Spec) {
    ScaledKey(PartVideoKey(choirId, songId, input.partId), input.size) !in alreadyScaled
  }

  /** The request an input's scaling sends. */
  function RequestFor(choirId: string, songId: string, input: Spec): ScaleRequest {
    ScaleRequest(PartVideoKey(choirId, songId, input.partId), input.size.width, input.size.height)
  }

  /** The results of all inputs, in input order. */
  function Results(choirId: string, songId: string, inputs: seq<Spec>, alreadyScaled: set<string>, scaler: Scaler): (r: seq<Option<string>>)
    ensures |r| == |inputs|
  {
    if |inputs| == 0 then []
    else
      var init := inputs[..|inputs| - 1];
      Results(choirId, songId, init, alreadyScaled, scaler) + [InputResult(choirId, songId, inputs[|inputs| - 1], alreadyScaled, scaler).0]
  }

  /** The requests for the pending inputs, in input order. */
  function PendingRequests(choirId: string, songId: string, inputs: seq<Spec>, alreadyScaled: set<string>): (r: seq<ScaleRequest>)
    ensures |r| <= |inputs|
  {
    if |inputs| == 0 then []
    else
      var init, last := inputs[..|inputs| - 1], inputs[|inputs| - 1];
      PendingRequests(choirId, songId, init, alreadyScaled)
        + if Pending(choirId, songId, alreadyScaled, last) then [RequestFor(choirId, songId, last)] else []
  }

  /** One input's call sends its request exactly when it is pending. */
  lemma InputRequests(choirId: string, songId: string, input: Spec, alreadyScaled: set<string>, scaler: Scaler)
    ensures InputResult(choirId, songId, input, alreadyScaled, scaler).1
      == if Pending(choirId, songId, alreadyScaled, input) then [RequestFor(choirId, songId, input)] else []
  {
  }

  /** One more input adds its answer and its requests. */
  lemma ScaleStep(choirId: string, songId: string, inputs: seq<Spec>, alreadyScaled: set<string>, scaler: Scaler, i: int)
    requires 0 <= i < |inputs|
    ensures Results(choirId, songId, inputs[..i + 1], alreadyScaled, scaler)
      == Results(choirId, songId, inputs[..i], alreadyScaled, scaler) + [InputResult(choirId, songId, inputs[i], alreadyScaled, scaler).0]
    ensures PendingRequests(choirId, songId, inputs[..i + 1], alreadyScaled)
      == PendingRequests(choirId, songId, inputs[..i], alreadyScaled) + InputResult(choirId, songId, inputs[i], alreadyScaled, scaler).1
  {
    var init, x := inputs[..i + 1][..i], inputs[..i + 1][i];
    assert init == inputs[..i] && x == inputs[i];
    assert Results(choirId, songId, inputs[..i + 1], alreadyScaled, scaler)
      == Results(choirId, songId, init, alreadyScaled, scaler) + [InputResult(choirId, songId, x, alreadyScaled, scaler).0];
    assert PendingRequests(choirId, songId, inputs[..i + 1], alreadyScaled)
      == PendingRequests(choirId, songId, init, alreadyScaled)
        + if Pending(choirId, songId, alreadyScaled, x) then [RequestFor(choirId, songId, x)] else [];
    InputRequests(choirId, songId, x, alreadyScaled, scaler);
  }

  /** The loop over the inputs and the gathering of the calls: one result per
      input, in input order, and the requests of the pending inputs, in input
      order. */
  method ScaleAll(choirId: string, songId: string, inputs: seq<Spec>, alreadyScaled: set<string>, scaler: Scaler)
    returns (scaledKeys: seq<Option<string>>, requests: seq<ScaleRequest>)
    ensures scaledKeys == Results(choirId, songId, inputs, alreadyScaled, scaler)
    ensures requests == PendingRequests(choirId, songId, inputs, alreadyScaled)
  {
    scaledKeys, requests := [], [];
    for i := 0 to |inputs|
      invariant scaledKeys == Results(choirId, songId, inputs[..i], alreadyScaled, scaler)
      invariant requests == PendingRequests(choirId, songId, inputs[..i], alreadyScaled)
    {
      var result := InputResult(choirId, songId, inputs[i], alreadyScaled, scaler);
      ScaleStep(choirId, songId, inputs, alreadyScaled, scaler, i);
      scaledKeys := scaledKeys + [result.0];
      requests := requests + result.1;
    }
    assert inputs[..|inputs|] == inputs;
  }

  /** `main` from the loaded definition and the keys stored under the
      performance's prefix: `scaled_keys` is set to the results. */
  method EnsureScaledMain(args: Args, choirId: string, songId: string, inputs: seq<Spec>, alreadyScaled: set<string>, scaler: Scaler)
    returns (scaledKeys: seq<Option<string>>, requests: seq<ScaleRequest>)
    modifies args
    ensures scaledKeys == Results(choirId, songId, inputs, alreadyScaled, scaler)
    ensures requests == PendingRequests(choirId, songId, inputs, alreadyScaled)
    ensures args.fields == old(args.fields)["scaled_keys" := KeysValue(scaledKeys)]
  {
    scaledKeys, requests := ScaleAll(choirId, songId, inputs, alreadyScaled, scaler);
    args.Set("scaled_keys", KeysValue(scaledKeys));
  }

  /** Each result is its own input's answer. */
  lemma {:induction false} ResultsAt(choirId: string, songId: string, inputs: seq<Spec>, alreadyScaled: set<string>, scaler: Scaler, i: int)
    requires 0 <= i < |inputs|
    ensures Results(choirId, songId, inputs, alreadyScaled, scaler)[i] == InputResult(choirId, songId, inputs[i], alreadyScaled, scaler).0
  {
    if i < |inputs| - 1 {
      ResultsAt(choirId, songId, inputs[..|inputs| - 1], alreadyScaled, scaler, i);
    }
  }

  /** A request goes out for an input exactly when its scaled video is not
      stored. */
  lemma {:induction false} PendingRequestsMembers(choirId: string, songId: string, inputs: seq<Spec>, alreadyScaled: set<string>, q: ScaleRequest)
    ensures q in PendingRequests(choirId, songId, inputs, alreadyScaled) <==>
      exists i :: 0 <= i < |inputs| && Pending(choirId, songId, alreadyScaled, inputs[i]) && q == RequestFor(choirId, songId, inputs[i])
  {
    if q in PendingRequests(choirId, songId, inputs, alreadyScaled) {
      PendingRequestSource(choirId, songId, inputs, alreadyScaled, q);
    }
    if exists i :: 0 <= i < |inputs| && Pending(choirId, songId, alreadyScaled, inputs[i]) && q == RequestFor(choirId, songId, inputs[i]) {
      var i :| 0 <= i < |inputs| && Pending(choirId, songId, alreadyScaled, inputs[i]) && q == RequestFor(choirId, songId, inputs[i]);
      PendingRequestSent(choirId, songId, inputs, alreadyScaled, i);
    }
  }

  /** Every request that goes out is the request of a pending input. */
  lemma {:induction false} PendingRequestSource(choirId: string, songId: string, inputs: seq<Spec>, alreadyScaled: set<string>, q: ScaleRequest)
    requires q in PendingRequests(choirId, songId, inputs, alreadyScaled)
    ensures exists i :: 0 <= i < |inputs| && Pending(choirId, songId, alreadyScaled, inputs[i]) && q == RequestFor(choirId, songId, inputs[i])
  {
    var init, last := inputs[..|inputs| - 1], inputs[|inputs| - 1];
    var tail := if Pending(choirId, songId, alreadyScaled, last) then [RequestFor(choirId, songId, last)] else [];
    assert PendingRequests(choirId, songId, inputs, alreadyScaled) == PendingRequests(choirId, songId, init, alreadyScaled) + tail;
    if q in PendingRequests(choirId, songId, init, alreadyScaled) {
      PendingRequestSource(choirId, songId, init, alreadyScaled, q);
      var i :| 0 <= i < |init| && Pending(choirId, songId, alreadyScaled, init[i]) && q == RequestFor(choirId, songId, init[i]);
      assert inputs[i] == init[i];
    } else {
      assert q in tail;
      assert Pending(choirId, songId, alreadyScaled, inputs[|inputs| - 1]);
    }
  }

  /** Every pending input's request goes out. */
  lemma {:induction false} PendingRequestSent(choirId: string, songId: string, inputs: seq<Spec>, alreadyScaled: set<string>, i: int)
    requires 0 <= i < |inputs| && Pending(choirId, songId, alreadyScaled, inputs[i])
    ensures RequestFor(choirId, songId, inputs[i]) in PendingRequests(choirId, songId, inputs, alreadyScaled)
  {
    var init, last := inputs[..|inputs| - 1], inputs[|inputs| - 1];
    var tail := if Pending(choirId, songId, alreadyScaled, last) then [RequestFor(choirId, songId, last)] else [];
    assert PendingRequests(choirId, songId, inputs, alreadyScaled) == PendingRequests(choirId, songId, init, alreadyScaled) + tail;
    if i < |inputs| - 1 {
      assert init[i] == inputs[i];
      PendingRequestSent(choirId, songId, init, alreadyScaled, i);
    }
  }

  /** With every scaled video stored, no scaling request goes out. */
  lemma AllStoredNoRequests(choirId: string, songId: string, inputs: seq<Spec>, alreadyScaled: set<string>)
    requires forall i :: 0 <= i < |inputs| ==> !Pending(choirId, songId, alreadyScaled, inputs[i])
    ensures PendingRequests(choirId, songId, inputs, alreadyScaled) == []
  {
    var r := PendingRequests(choirId, songId, inputs, alreadyScaled);
    if r != [] {
      PendingRequestsMembers(choirId, songId, inputs, alreadyScaled, r[0]);
    }
  }

  /** Every key the step reports is the one the compositing engine requires
      for that input. */
  lemma ScaledMeetsComposite(choirId: string, songId: string, inputs: seq<Spec>, alreadyScaled: set<string>, scaler: Scaler)
    requires PlainId(choirId) && PlainId(songId)
    requires forall i :: 0 <= i < |inputs| ==> PlainId(inputs[i].partId)
    ensures forall i :: 0 <= i < |inputs| && InputResult(choirId, songId, inputs[i], alreadyScaled, scaler).0.Some? ==>
      InputResult(choirId, songId, inputs[i], alreadyScaled, scaler).0.value == RequiredKey(choirId, songId, inputs[i])
  {
    forall i | 0 <= i < |inputs|
      ensures InputResult(choirId, songId, inputs[i], alreadyScaled, scaler).0.Some? ==>
        InputResult(choirId, songId, inputs[i], alreadyScaled, scaler).0.value == RequiredKey(choirId, songId, inputs[i])
    {
      ScaledKeyIsRequired(choirId, songId, inputs[i].partId, inputs[i].size);
    }
  }
}
