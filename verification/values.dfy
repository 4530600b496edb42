/** The payloads that cross the platform channel: nested maps of strings,
    numbers, booleans, byte blobs and lists, as Kotlin's `Map<String, Any>`
    and Swift's `[String: Any]` carry them. The accessors are the casts the
    builders apply (`as? String`, `as? Int`, `as? [[String: Any]]`, ...): a
    missing key, a null and a value of another type all read as absent. */
module Values {
  import opened Wrappers

  type Bytes = seq<bv8>

  datatype Value =
    | Null
    | Bool(b: bool)
    | Int(i: int)
    | Str(s: string)
    | Blob(data: Bytes)
    | List(items: seq<Value>)
    | Dict(entries: map<string, Value>)

  type Dict = map<string, Value>

  /** `d[key]?.let { ... }`: present and not null. */
  function GetNonNull(d: Dict, key: string): Option<Value> {
    if key in d && !d[key].Null? then Some(d[key]) else None
  }

  /** `d[key] as? String`. */
  function GetString(d: Dict, key: string): (r: Option<string>)
    ensures r.Some? <==> key in d && d[key].Str?
    ensures r.Some? ==> d[key] == Str(r.value)
  {
    if key in d && d[key].Str? then Some(d[key].s) else None
  }

  /** `d[key] as? Int`. */
  function GetInt(d: Dict, key: string): (r: Option<int>)
    ensures r.Some? <==> key in d && d[key].Int?
    ensures r.Some? ==> d[key] == Int(r.value)
  {
    if key in d && d[key].Int? then Some(d[key].i) else None
  }

  /** `d[key] as? Map<String, Any>` / `as? [String: Any]`. */
  function GetDict(d: Dict, key: string): (r: Option<Dict>)
    ensures r.Some? <==> key in d && d[key].Dict?
    ensures r.Some? ==> d[key] == Dict(r.value)
  {
    if key in d && d[key].Dict? then Some(d[key].entries) else None
  }

  /** Kotlin's unchecked `d[key] as? List<Map<String, Any>>`: it only checks
      for a list; the items are cast one at a time when they are used. */
  function GetList(d: Dict, key: string): (r: Option<seq<Value>>)
    ensures r.Some? <==> key in d && d[key].List?
    ensures r.Some? ==> d[key] == List(r.value)
  {
    if key in d && d[key].List? then Some(d[key].items) else None
  }

  predicate AllDicts(items: seq<Value>) {
    forall i :: 0 <= i < |items| ==> items[i].Dict?
  }

  /** Swift's checked `d[key] as? [[String: Any]]`: nil unless the value is
      a list whose every item is a dictionary. */
  function GetDictList(d: Dict, key: string): (r: Option<seq<Dict>>)
    ensures r.Some? <==> key in d && d[key].List? && AllDicts(d[key].items)
    ensures r.Some? ==> |r.value| == |d[key].items|
    ensures r.Some? ==> forall i :: 0 <= i < |r.value| ==> d[key].items[i] == Dict(r.value[i])
  {
    if key in d && d[key].List? && AllDicts(d[key].items) then
      var items := d[key].items;
      Some(seq(|items|, i requires 0 <= i < |items| => items[i].entries))
    else None
  }

  /** An optional string as the bridge writes it into a dictionary. */
  function OptStr(s: Option<string>): Value {
    if s.Some? then Str(s.value) else Null
  }

  function OptInt(i: Option<int>): Value {
    if i.Some? then Int(i.value) else Null
  }
}
