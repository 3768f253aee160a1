/**
 * The values `json.loads` produces, and the Python dict operations the
 * modelled code applies to them. A dict is an association list in insertion
 * order (the order Python keeps); a lookup takes the entry for the key, and a
 * store overwrites that entry where it stands or appends a new one. Numbers
 * are fixed-point with two decimals (`JNum(hundredths)`).
 */
module PyJson {
  import opened Wrappers

  datatype Json =
    | JNull
    | JBool(b: bool)
    | JNum(hundredths: int)
    | JStr(s: string)
    | JArr(items: seq<Json>)
    | JObj(fields: seq<(string, Json)>)

  type Fields = seq<(string, Json)>

  /** `key in d`. */
  predicate HasKey(fields: Fields, key: string) {
    exists i :: 0 <= i < |fields| && fields[i].0 == key
  }

  /** `d[key]` if present. */
  function Lookup(fields: Fields, key: string): (r: Option<Json>)
    ensures r.Some? <==> HasKey(fields, key)
  {
    if fields == [] then None
    else if fields[0].0 == key then Some(fields[0].1)
    else Lookup(fields[1..], key)
  }

  /** `d.get(key, default)`. */
  function Get(fields: Fields, key: string, default: Json): Json {
    Lookup(fields, key).GetOr(default)
  }

  /** `d[key] = v`: an existing entry keeps its position, a new one goes last. */
  function Store(fields: Fields, key: string, v: Json): Fields {
    if fields == [] then [(key, v)]
    else if fields[0].0 == key then [(key, v)] + fields[1..]
    else [fields[0]] + Store(fields[1..], key, v)
  }

  /** After `d[key] = v`, `d[key]` is `v` and every other key reads as before. */
  lemma {:induction false} StoreLookup(fields: Fields, key: string, v: Json, other: string)
    ensures Lookup(Store(fields, key, v), key) == Some(v)
    ensures other != key ==> Lookup(Store(fields, key, v), other) == Lookup(fields, other)
  {
    if fields != [] && fields[0].0 != key {
      StoreLookup(fields[1..], key, v, other);
    }
  }

  /** Storing the value a key already holds changes nothing. */
  lemma {:induction false} StoreSame(fields: Fields, key: string, v: Json)
    requires Lookup(fields, key) == Some(v)
    ensures Store(fields, key, v) == fields
  {
    if fields[0].0 != key {
      StoreSame(fields[1..], key, v);
    }
  }

  /** Overwriting an existing key keeps the dict's length; a new key makes it one longer. */
  lemma {:induction false} StoreLength(fields: Fields, key: string, v: Json)
    ensures |Store(fields, key, v)| == if HasKey(fields, key) then |fields| else |fields| + 1
  {
    if fields != [] && fields[0].0 != key {
      StoreLength(fields[1..], key, v);
      assert HasKey(fields, key) <==> HasKey(fields[1..], key) by {
        if HasKey(fields, key) {
          var i :| 0 <= i < |fields| && fields[i].0 == key;
          assert fields[1..][i - 1].0 == key;
        }
        if HasKey(fields[1..], key) {
          var i :| 0 <= i < |fields[1..]| && fields[1..][i].0 == key;
          assert fields[i + 1].0 == key;
        }
      }
    }
  }

  /** Python truthiness of a JSON value. */
  predicate Truthy(v: Json) {
    match v
    case JNull => false
    case JBool(b) => b
    case JNum(h) => h != 0
    case JStr(s) => s != []
    case JArr(xs) => xs != []
    case JObj(fs) => fs != []
  }

  /** `v == n` for a Python int `n` (a bool compares as 0 or 1). */
  predicate EqualsInt(v: Json, n: int) {
    match v
    case JNum(h) => h == 100 * n
    case JBool(b) => (if b then 1 else 0) == n
    case _ => false
  }

  /** The value Python arithmetic sees, in hundredths; None where `+` or `>=` would raise TypeError. */
  function NumericValue(v: Json): Option<int> {
    match v
    case JNum(h) => Some(h)
    case JBool(b) => Some(if b then 100 else 0)
    case _ => None
  }

  /** The elements `for x in v` visits, or None where iteration would fail. */
  function Iterated(v: Json): Option<seq<Json>> {
    match v
    case JArr(xs) => Some(xs)
    case JStr(s) => Some(seq(|s|, i requires 0 <= i < |s| => JStr([s[i]])))
    case JObj(fs) => Some(seq(|fs|, i requires 0 <= i < |fs| => JStr(fs[i].0)))
    case _ => None
  }
}
