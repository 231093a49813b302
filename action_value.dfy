/**
 The loosely typed values an action receives, and the Swift casts the attribute
 action performs on them (`as? [String : Any]`, `as? [String]`,
 `as? [String : [String : Any]]`).
 */
module ActionValue {

  datatype Option<+T> = None | Some(value: T)

  /** A payload value as the action sees it after JSON decoding or bridging.
      `Number` stands for anything that bridges to NSNumber (JSON booleans included),
      `Date` for a Foundation date (seconds since the reference date), and
      `Other` for everything else: null, dictionaries whose keys are not all
      strings, data blobs and so on. */
  datatype Value =
    | Str(s: string)
    | Number(n: real)
    | Date(sinceEpoch: real)
    | Array(items: seq<Value>)
    | Object(fields: map<string, Value>)
    | Other

  /** The situation an action is run in (UASituation). */
  datatype Situation =
    | ManualInvocation
    | LaunchedFromPush
    | ForegroundPush
    | BackgroundPush
    | WebViewInvocation
    | ForegroundInteractiveButton
    | BackgroundInteractiveButton
    | Automation

  /** The arguments of an action run: its situation and its untyped value. */
  datatype Arguments = Arguments(situation: Situation, value: Value)

  /** Dictionary subscript: the entry for `key`, or nil. */
  function Lookup<V>(m: map<string, V>, key: string): (r: Option<V>)
    ensures r.Some? <==> key in m
    ensures r.Some? ==> r.value == m[key]
  {
    if key in m then Some(m[key]) else None
  }

  /** The strings of `items` when every one of them is a string, nil otherwise. */
  function StringsOf(items: seq<Value>): (r: Option<seq<string>>)
    ensures r.Some? <==> forall i :: 0 <= i < |items| ==> items[i].Str?
    ensures r.Some? ==> |r.value| == |items| && forall i :: 0 <= i < |items| ==> r.value[i] == items[i].s
  {
    if items == [] then Some([])
    else if !items[0].Str? then None
    else match StringsOf(items[1..])
      case None => None
      case Some(rest) => Some([items[0].s] + rest)
  }

  /** The cast `v as? [String]`: an array all of whose elements are strings. */
  function AsStringList(v: Value): (r: Option<seq<string>>)
    ensures r.Some? <==> v.Array? && forall i :: 0 <= i < |v.items| ==> v.items[i].Str?
    ensures r.Some? ==> |r.value| == |v.items| && forall i :: 0 <= i < |v.items| ==> r.value[i] == v.items[i].s
  {
    if v.Array? then StringsOf(v.items) else None
  }

  /** The cast `v as? [String : [String : Any]]`: a dictionary all of whose
      values are themselves string-keyed dictionaries. */
  function AsSections(v: Value): (r: Option<map<string, map<string, Value>>>)
    ensures r.Some? <==> v.Object? && forall k :: k in v.fields ==> v.fields[k].Object?
    ensures r.Some? ==> r.value.Keys == v.fields.Keys
    ensures r.Some? ==> forall k :: k in r.value ==> Object(r.value[k]) == v.fields[k]
  {
    if v.Object? && forall k :: k in v.fields ==> v.fields[k].Object? then
      Some(map k | k in v.fields :: v.fields[k].fields)
    else
      None
  }
}
