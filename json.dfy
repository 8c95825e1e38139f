/** The values `json.loads` produces, as far as the LLM drivers look at them: `null`,
    booleans, numbers, strings, arrays and objects. An object lists its members in
    document order, one per key, as the dictionary Python builds from it. Only a
    number's type is ever inspected, so numbers carry an `int` or a `real`. */
module Json {
  import opened Wrappers
  import opened Strings
  import opened Fence

  datatype Json =
    | Null
    | Bool(b: bool)
    | Int(i: int)
    | Float(r: real)
    | Str(s: string)
    | Arr(items: seq<Json>)
    | Obj(fields: seq<(string, Json)>)

  /** `type(v).__name__`. */
  function TypeName(v: Json): string {
    match v
    case Null => "NoneType"
    case Bool(_) => "bool"
    case Int(_) => "int"
    case Float(_) => "float"
    case Str(_) => "str"
    case Arr(_) => "list"
    case Obj(_) => "dict"
  }

  /** A dictionary's members, in document order. */
  type Fields = seq<(string, Json)>

  /** The values `len` accepts: strings, lists and dictionaries. */
  predicate Sized(v: Json) {
    v.Str? || v.Arr? || v.Obj?
  }

  /** The `TypeError` message of `len(v)` for a value without a length. */
  function NoLenMessage(v: Json): string {
    "object of type '" + TypeName(v) + "' has no len()"
  }

  /** `len(v)`: the length, or the `TypeError` raised for a value that has none. */
  function Len(v: Json): (r: Result<nat, string>)
    ensures r.Ok? <==> Sized(v)
    ensures r.Err? ==> r.error == NoLenMessage(v)
  {
    match v
    case Str(s) => Ok(|s|)
    case Arr(items) => Ok(|items|)
    case Obj(fields) => Ok(|fields|)
    case _ => Err(NoLenMessage(v))
  }

  /** What `for x in v` visits: the characters of a string, each a one-character
      string; the items of a list; the keys of a dictionary. A value without a
      length is not iterable, and visits nothing here. */
  function Items(v: Json): (xs: seq<Json>)
    ensures Sized(v) ==> |xs| == Len(v).value
    ensures v.Arr? ==> xs == v.items
    ensures v.Str? || v.Obj? ==> forall i :: 0 <= i < |xs| ==> xs[i].Str?
  {
    match v
    case Str(s) => seq(|s|, i requires 0 <= i < |s| => Str([s[i]]))
    case Arr(items) => items
    case Obj(fields) => seq(|fields|, i requires 0 <= i < |fields| => Str(fields[i].0))
    case _ => []
  }

  /** `d.get(key)` on a dictionary's members: the value under `key`, if any. */
  function Get(fields: Fields, key: string): (r: Option<Json>)
    ensures r.Some? ==> (key, r.value) in fields
    ensures r.None? ==> forall i :: 0 <= i < |fields| ==> fields[i].0 != key
    decreases |fields|
  {
    if |fields| == 0 then None
    else if fields[0].0 == key then Some(fields[0].1)
    else
      var r := Get(fields[1..], key);
      assert forall i :: 1 <= i < |fields| ==> fields[i] == fields[1..][i - 1];
      r
  }

  /** `key in d`. */
  predicate Has(fields: Fields, key: string) {
    Get(fields, key).Some?
  }

  /** A dictionary holds a key exactly when one of its members is under it. */
  lemma HasIff(fields: Fields, key: string)
    ensures Has(fields, key) <==> exists i :: 0 <= i < |fields| && fields[i].0 == key
  {
    if Has(fields, key) {
      var i :| 0 <= i < |fields| && fields[i] == (key, Get(fields, key).value);
    }
  }

  /** `str(KeyError(key))`: the key in quotes. */
  function KeyErrorMessage(key: string): string {
    "'" + key + "'"
  }

  /** The first of `keys` the dictionary lacks: the `KeyError` raised when the keys
      are read one after another. */
  function FirstMissing(fields: Fields, keys: seq<string>): (m: Option<string>)
    ensures m.None? <==> forall i :: 0 <= i < |keys| ==> Has(fields, keys[i])
    ensures m.Some? ==> exists i :: 0 <= i < |keys| && keys[i] == m.value && !Has(fields, m.value)
                                    && forall j :: 0 <= j < i ==> Has(fields, keys[j])
    decreases |keys|
  {
    if |keys| == 0 then None
    else if !Has(fields, keys[0]) then Some(keys[0])
    else
      var m := FirstMissing(fields, keys[1..]);
      assert forall i :: 1 <= i < |keys| ==> keys[i] == keys[1..][i - 1];
      m
  }

  /** What `json.loads` gives for the model's reply: the message content, stripped and
      unfenced, decoded by `decode`; an error from the API call passes through. */
  function Decoded(reply: Result<string, string>, decode: string -> Result<Json, string>): (r: Result<Json, string>)
    ensures reply.Err? ==> r == Err(reply.error)
  {
    match reply
    case Err(msg) => Err(msg)
    case Ok(content) => decode(Unfence(Strip(content)))
  }

  /** The answer decoded to a value that has no length. */
  predicate Unsized(r: Result<Json, string>) {
    r.Ok? && !Sized(r.value)
  }
}
