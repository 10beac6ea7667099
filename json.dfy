/** The generic document the XML decoder (fast-xml-parser) hands to the report parser:
    a JSON value whose objects keep their properties in document order, and the JavaScript
    property tests the parser applies to it. */
module Json {
  import opened Wrappers

  datatype JSONValue =
    | JString(str: string)
    | JNumber(num: real)
    | JBool(b: bool)
    | JObject(entries: seq<(string, JSONValue)>)
    | JArray(items: seq<JSONValue>)

  type JSONObject = seq<(string, JSONValue)>

  /** Position of the first property called `key`: the one `obj[key]` reads. */
  function FindKey(obj: JSONObject, key: string): (r: Option<nat>)
    ensures r.Some? ==> r.value < |obj| && obj[r.value].0 == key
    ensures r.Some? ==> forall j :: 0 <= j < r.value ==> obj[j].0 != key
    ensures r.None? ==> forall j :: 0 <= j < |obj| ==> obj[j].0 != key
  {
    if obj == [] then None
    else if obj[0].0 == key then Some(0)
    else match FindKey(obj[1..], key)
      case Some(i) => Some(i + 1)
      case None => None
  }

  /** `obj[key]`: the value of the first property called `key`; `None` is `undefined`. */
  function Get(obj: JSONObject, key: string): Option<JSONValue>
  {
    if obj == [] then None
    else if obj[0].0 == key then Some(obj[0].1)
    else Get(obj[1..], key)
  }

  /** `key in obj`. */
  predicate Has(obj: JSONObject, key: string)
  {
    Get(obj, key).Some?
  }

  /** The property `obj[key]` reads is the one `FindKey` locates. */
  lemma {:induction false} GetIsFindKey(obj: JSONObject, key: string)
    ensures Get(obj, key) == match FindKey(obj, key) case Some(i) => Some(obj[i].1) case None => None
  {
    if obj != [] && obj[0].0 != key {
      GetIsFindKey(obj[1..], key);
    }
  }

  /** `v[key]` on any value: only objects carry the element names the parser asks for. */
  function Member(v: JSONValue, key: string): Option<JSONValue>
  {
    match v
    case JObject(obj) => Get(obj, key)
    case _ => None
  }

  /** `x && typeof x === 'string'`: a string other than the (falsy) empty one. */
  predicate IsNonEmptyString(x: Option<JSONValue>)
  {
    x.Some? && x.value.JString? && x.value.str != ""
  }

  /** `typeof x === 'string'`. */
  predicate IsString(x: Option<JSONValue>)
  {
    x.Some? && x.value.JString?
  }

  /** `x && typeof x === 'object' && !Array.isArray(x)`. */
  predicate IsPlainObject(x: Option<JSONValue>)
  {
    x.Some? && x.value.JObject?
  }

  /** `x && Array.isArray(x)` (an array is always truthy). */
  predicate IsArray(x: Option<JSONValue>)
  {
    x.Some? && x.value.JArray?
  }

  /** `Number(v)` on the values the decoder produces for an element holding a number. */
  function NumberOf(v: JSONValue): real
  {
    match v
    case JNumber(n) => n
    case JBool(b) => if b then 1.0 else 0.0
    case _ => 0.0
  }
}
