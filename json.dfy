/** JavaScript values as the handlers see them (request bodies, query strings,
    stored documents), the handlers' status-code outcomes, and first-match lookup
    in a collection kept in the store's natural order. */
module Json {

  datatype Option<+T> = None | Some(value: T)

  /** A JSON value. Numbers are integers: fractional numbers are not modelled. */
  datatype JsValue =
    | Undefined
    | Null
    | Bool(b: bool)
    | Num(n: int)
    | Str(s: string)
    | Arr(items: seq<JsValue>)
    | Obj(fields: map<string, JsValue>)

  /** A stored document or a request body: its top-level keys. */
  type Doc = map<string, JsValue>

  /** JavaScript truthiness: `!v` is `!Truthy(v)`. */
  predicate Truthy(v: JsValue) {
    match v
    case Undefined => false
    case Null => false
    case Bool(b) => b
    case Num(n) => n != 0
    case Str(s) => s != ""
    case Arr(_) => true
    case Obj(_) => true
  }

  /** `v || d` */
  function Or(v: JsValue, d: JsValue): JsValue {
    if Truthy(v) then v else d
  }

  /** `v ?? d` */
  function Coalesce(v: JsValue, d: JsValue): JsValue {
    if v == Undefined || v == Null then d else v
  }

  /** `d.key`, undefined when the key is absent. */
  function Get(d: Doc, key: string): JsValue {
    if key in d then d[key] else Undefined
  }

  /** `v?.key`: a property of an object; nothing else has the properties read here. */
  function Prop(v: JsValue, key: string): JsValue {
    match v
    case Obj(fields) => Get(fields, key)
    case _ => Undefined
  }

  /** A present string field of a request: JavaScript truthiness of a string. */
  predicate Present(s: Option<string>) {
    s.Some? && s.value != ""
  }

  /** What a handler sends: a status code with a body, or a status code with the
      `message` of its JSON error body. */
  datatype Outcome<+T> = Ok(status: nat, value: T) | Err(status: nat, message: string)

  /** A success body `{ message, <item> }`. */
  datatype Reply<+T> = Reply(message: string, item: T)

  /** The position of the first element satisfying `p`: the record a store's
      `findOne` returns when it scans in natural order. */
  function FirstIndex<T>(s: seq<T>, p: T -> bool): (r: Option<nat>)
    ensures r.Some? ==> r.value < |s| && p(s[r.value])
    ensures r.Some? ==> forall j :: 0 <= j < r.value ==> !p(s[j])
    ensures r.None? <==> forall j :: 0 <= j < |s| ==> !p(s[j])
  {
    if s == [] then None
    else if p(s[0]) then Some(0)
    else
      match FirstIndex(s[1..], p)
      case None => None
      case Some(k) => Some(k + 1)
  }

  /** The sequence without its element at position k. */
  function RemoveAt<T>(s: seq<T>, k: nat): (r: seq<T>)
    requires k < |s|
    ensures |r| == |s| - 1
    ensures forall j :: 0 <= j < k ==> r[j] == s[j]
    ensures forall j :: k <= j < |r| ==> r[j] == s[j + 1]
    ensures multiset(r) + multiset{s[k]} == multiset(s)
  {
    assert s == s[..k] + [s[k]] + s[k + 1..];
    s[..k] + s[k + 1..]
  }
}
