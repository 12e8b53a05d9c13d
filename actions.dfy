/** The parameter dictionary every serverless action receives as `args`, reads
    its inputs from, updates field by field and often returns as its result. */
module Actions {
  import opened Wrappers

  /** The JSON values an action parameter can hold. */
  datatype Value =
    | Null
    | Bool(b: bool)
    | Int(i: int)
    | Num(r: real)
    | Str(s: string)
    | List(items: seq<Value>)
    | Dict(entries: map<string, Value>)
    | NotANumber                       // a float NaN

  /** A list of strings as a JSON value. */
  function StrList(xs: seq<string>): (v: Value)
    ensures v.List? && |v.items| == |xs|
    ensures forall i :: 0 <= i < |xs| ==> v.items[i] == Str(xs[i])
  {
    List(seq(|xs|, i requires 0 <= i < |xs| => Str(xs[i])))
  }

  /** `d.get(k, default)` on a dictionary value; any other value has no `get`. */
  function GetOr(d: Value, k: string, default: Value): (r: Result<Value>)
    ensures r.Err? <==> !d.Dict?
    ensures r.Ok? && k in d.entries ==> r.value == d.entries[k]
    ensures r.Ok? && k !in d.entries ==> r.value == default
  {
    if !d.Dict? then Err(AttributeError("object has no attribute 'get'"))
    else if k in d.entries then Ok(d.entries[k])
    else Ok(default)
  }

  /** `args.get('notification', {}).get('object_name', '')`, the object key of
      a storage trigger. */
  function NotificationKey(fields: map<string, Value>): Result<Value> {
    var n := if "notification" in fields then fields["notification"] else Dict(map[]);
    GetOr(n, "object_name", Str(""))
  }

  /** `args.get(name, notification.get('object_name', ''))`, the object key an
      action works on; the default is evaluated, and so can raise, even when
      `name` is present, and a key that is not a string fails later. */
  function KeyArg(fields: map<string, Value>, name: string): (r: Result<string>)
    ensures r.Ok? && name in fields ==> fields[name] == Str(r.value)
    ensures r.Ok? && name !in fields ==> NotificationKey(fields) == Ok(Str(r.value))
    ensures r.Err? <==> NotificationKey(fields).Err? || !(if name in fields then fields[name] else NotificationKey(fields).value).Str?
  {
    match NotificationKey(fields)
    case Err(e) => Err(e)
    case Ok(n) =>
      var v := if name in fields then fields[name] else n;
      if v.Str? then Ok(v.s) else Err(TypeError("expected string or bytes-like object"))
  }

  /** The mutable `args` dictionary. */
  class Args {
    var fields: map<string, Value>

    constructor (initial: map<string, Value>)
      ensures fields == initial
    {
      fields := initial;
    }

    /** `args[k] = v`: that one entry is set, every other one is kept. */
    method Set(k: string, v: Value)
      modifies this
      ensures fields == old(fields)[k := v]
    {
      fields := fields[k := v];
    }

    /** `args[k]`, raising KeyError when the key is absent. */
    function Lookup(k: string): (r: Result<Value>)
      reads this
      ensures r.Ok? <==> k in fields
      ensures r.Ok? ==> r.value == fields[k]
    {
      if k in fields then Ok(fields[k]) else Err(KeyError(k))
    }
  }
}
