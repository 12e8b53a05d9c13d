/** The hand-off from alignment to the stitcher (aligner/pass_to_sticher.py):
    a trigger by a final video is ignored, otherwise every non-final video
    stored under the choir's prefix is listed in SHA-1 order and, when there
    are at least three, `args` is filled with the stitcher's fixed settings. */
module StitcherPass {
  import opened Wrappers
  import opened Strings
  import opened Sorting
  import opened Actions

  /** The marker of a stitched output, `'+final.'`. */
  const FinalMark := "+final."

  /** The least number of videos worth stitching. */
  const MinVideos := 3

  /** `'+final.' in trigger_key` for the value the notification holds: a
      substring test on a string, membership on a list or on a dictionary's
      keys, and TypeError on a value `in` cannot search. */
  function Triggered(fields: map<string, Value>): (r: Result<bool>)
    ensures NotificationKey(fields).Err? ==> r == Err(NotificationKey(fields).error)
    ensures (NotificationKey(fields).Ok? && NotificationKey(fields).value.Str?) ==>
      r == Ok(Contains(NotificationKey(fields).value.s, FinalMark))
  {
    match NotificationKey(fields)
    case Err(e) => Err(e)
    case Ok(v) =>
      match v
      case Str(s) => Ok(Contains(s, FinalMark))
      case List(items) => Ok(Str(FinalMark) in items)
      case Dict(entries) => Ok(FinalMark in entries)
      case _ => Err(TypeError("argument of type is not iterable"))
  }

  /** `args.get('key').split('+')[0]`: a missing or non-string key has no
      `split`. */
  function ChoirOf(fields: map<string, Value>): (r: Result<string>)
    ensures r.Ok? <==> "key" in fields && fields["key"].Str?
    ensures r.Ok? ==> '+' !in r.value && StartsWith(fields["key"].s, r.value)
    ensures r.Err? ==> r == Err(AttributeError("object has no attribute 'split'"))
  {
    if "key" in fields && fields["key"].Str? then
      var parts := Split(fields["key"].s, '+');
      SplitHead(fields["key"].s, '+');
      Ok(parts[0])
    else Err(AttributeError("object has no attribute 'split'"))
  }

  predicate NotFinal(key: string) {
    !Contains(key, FinalMark)
  }

  /** The sort key: the SHA-1 hex digest of the name, compared as text. */
  function DigestKey(sha1Hex: string -> string): string -> seq<int> {
    x => Codes(sha1Hex(x))
  }

  /** The listed keys without the final videos, ordered by their digest. */
  function Candidates(keys: seq<string>, sha1Hex: string -> string): seq<string> {
    SortBy(Filter(NotFinal, keys), DigestKey(sha1Hex))
  }

  /** `f'{choir_key}+final.mp4'`. */
  function OutputKey(choir: string): string {
    choir + "+final.mp4"
  }

  function NotEnough(count: nat): string {
    "Not enough videos to pass to sticher, only found " + NatToStr(count) + " videos"
  }

  /** The names `args` gains when the videos are passed on. */
  const SettingNames: set<string> :=
    {"COS_BUCKET", "videos", "width", "height", "margin", "center", "pan", "reverbType", "reverbMix", "outputKey"}

  /** `args` after the hand-off: the bucket and the videos, a 1080x720 canvas
      with a margin of 10, centred and panned, a 'hall' reverb mixed at 0.1,
      and the output key; every other entry is kept. */
  function PassFields(fields: map<string, Value>, choir: string, videos: seq<string>): (r: map<string, Value>)
    ensures r.Keys == fields.Keys + SettingNames
    ensures forall k :: k in fields && k !in SettingNames ==> r[k] == fields[k]
    ensures r["videos"] == StrList(videos) && r["outputKey"] == Str(OutputKey(choir))
    ensures r["COS_BUCKET"] == if "bucket" in fields then fields["bucket"] else Null
  {
    var bucket := if "bucket" in fields then fields["bucket"] else Null;
    fields["COS_BUCKET" := bucket]["videos" := StrList(videos)]["width" := Int(1080)]["height" := Int(720)]
      ["margin" := Int(10)]["center" := Bool(true)]["pan" := Bool(true)]["reverbType" := Str("hall")]
      ["reverbMix" := Num(0.1)]["outputKey" := Str(OutputKey(choir))]
  }

  /** The guards before the listing all passed: not a final trigger, a
      client, a key to take the choir from. */
  predicate Listed(fields: map<string, Value>, clientReady: bool) {
    Triggered(fields) == Ok(false) && clientReady && ChoirOf(fields).Ok?
  }

  /** How `main` ends when it raises nothing. */
  datatype Pass = Skipped | Passed(videos: seq<string>)

  /** `main`, with the storage client's creation reduced to whether it
      succeeded, the listing under the choir's prefix given as the keys of
      its `Contents` (None when the response has none) and SHA-1 as a
      parameter. Nothing is written to `args` unless the videos are passed. */
  method StitcherMain(args: Args, clientReady: bool, listing: Option<seq<string>>, sha1Hex: string -> string)
    returns (r: Result<Pass>)
    modifies args
    ensures !(r.Ok? && r.value.Passed?) ==> args.fields == old(args.fields)
    ensures Triggered(old(args.fields)).Err? ==> r == Err(Triggered(old(args.fields)).error)
    ensures r == Ok(Skipped) <==> Triggered(old(args.fields)) == Ok(true)
    ensures Triggered(old(args.fields)) == Ok(false) && !clientReady ==>
      r == Err(ValueError("could not create COS instance"))
    ensures Triggered(old(args.fields)) == Ok(false) && clientReady && ChoirOf(old(args.fields)).Err? ==>
      r == Err(ChoirOf(old(args.fields)).error)
    ensures Listed(old(args.fields), clientReady) && listing.None? ==> r == Err(KeyError("Contents"))
    ensures Listed(old(args.fields), clientReady) && listing.Some? ==>
      var videos := Candidates(listing.value, sha1Hex);
      && (|videos| < MinVideos ==> r == Err(ValueError(NotEnough(|videos|))))
      && (|videos| >= MinVideos ==>
            r == Ok(Passed(videos)) && args.fields == PassFields(old(args.fields), ChoirOf(old(args.fields)).value, videos))
  {
    var triggered := Triggered(args.fields);
    if triggered.Err? {
      return Err(triggered.error);
    }
    if triggered.value {
      return Ok(Skipped);
    }
    if !clientReady {
      return Err(ValueError("could not create COS instance"));
    }
    var choir := ChoirOf(args.fields);
    if choir.Err? {
      return Err(choir.error);
    }
    if listing.None? {
      return Err(KeyError("Contents"));
    }
    var files := Filter(NotFinal, listing.value);
    files := SortBy(files, DigestKey(sha1Hex));
    if |files| >= MinVideos {
      var bucket := if "bucket" in args.fields then args.fields["bucket"] else Null;
      args.Set("COS_BUCKET", bucket);
      args.Set("videos", StrList(files));
      args.Set("width", Int(1080));
      args.Set("height", Int(720));
      args.Set("margin", Int(10));
      args.Set("center", Bool(true));
      args.Set("pan", Bool(true));
      args.Set("reverbType", Str("hall"));
      args.Set("reverbMix", Num(0.1));
      args.Set("outputKey", Str(OutputKey(choir.value)));
      return Ok(Passed(files));
    }
    return Err(ValueError(NotEnough(|files|)));
  }

  /** The candidates are exactly the listed keys that are not final videos,
      each as often as it is listed, in digest order. */
  lemma CandidatesSpec(keys: seq<string>, sha1Hex: string -> string)
    ensures multiset(Candidates(keys, sha1Hex)) == multiset(Filter(NotFinal, keys))
    ensures SortedBy(Candidates(keys, sha1Hex), DigestKey(sha1Hex))
    ensures forall x :: x in Candidates(keys, sha1Hex) <==> x in keys && !Contains(x, FinalMark)
  {
    var c, f := Candidates(keys, sha1Hex), Filter(NotFinal, keys);
    FilterMembers(NotFinal, keys);
    forall x ensures x in c <==> x in f {
      assert x in c <==> x in multiset(c);
      assert x in f <==> x in multiset(f);
    }
  }

  /** The stitched output carries the final marker, so the upload it causes
      triggers a run that stops at once instead of stitching again. */
  lemma OutputStopsLoop(choir: string)
    ensures Contains(OutputKey(choir), FinalMark)
  {
    assert OutputKey(choir)[|choir|..|choir| + |FinalMark|] == FinalMark;
    assert OccursAt(OutputKey(choir), FinalMark, |choir|);
  }

  /** A trigger by the stitched output is skipped and changes nothing. */
  lemma OutputTriggerSkipped(fields: map<string, Value>, choir: string)
    requires "notification" in fields
    requires fields["notification"] == Dict(map["object_name" := Str(OutputKey(choir))])
    ensures Triggered(fields) == Ok(true)
  {
    OutputStopsLoop(choir);
  }

  /** An earlier stitched output is never stitched again. */
  lemma OutputNeverCandidate(keys: seq<string>, sha1Hex: string -> string, choir: string)
    ensures OutputKey(choir) !in Candidates(keys, sha1Hex)
  {
    CandidatesSpec(keys, sha1Hex);
    OutputStopsLoop(choir);
  }
}
