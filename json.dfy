/** JSON values as Python's `json` module and `jsonschema` see them. */
module Json {
  import opened Wrappers

  /** Objects keep their keys in insertion order (a Python dict); numbers are
      Python ints or floats (NaN and the infinities are not modelled). */
  datatype Json =
    | JNull
    | JBool(b: bool)
    | JInt(i: int)
    | JFloat(r: real)
    | JString(s: string)
    | JArray(items: seq<Json>)
    | JObject(fields: seq<(string, Json)>)

  /** `d.get(key)`: the value bound to `key`, if any (the first binding, which
      for a Python dict is the only one). */
  function Get(fields: seq<(string, Json)>, key: string): (r: Option<Json>)
    ensures r.None? <==> forall i :: 0 <= i < |fields| ==> fields[i].0 != key
    ensures r.Some? ==> exists i :: 0 <= i < |fields| && fields[i] == (key, r.value)
  {
    if fields == [] then None
    else if fields[0].0 == key then Some(fields[0].1)
    else
      var r := Get(fields[1..], key);
      assert r.Some? ==> exists i :: 0 <= i < |fields[1..]| && fields[1..][i] == (key, r.value);
      r
  }

  /** No key is bound twice (true of every Python dict). */
  predicate DistinctKeys(fields: seq<(string, Json)>) {
    forall i, j :: 0 <= i < j < |fields| ==> fields[i].0 != fields[j].0
  }

  /** In an object without repeated keys, looking a key up finds its entry. */
  lemma GetDistinct(fields: seq<(string, Json)>, i: int)
    requires DistinctKeys(fields) && 0 <= i < |fields|
    ensures Get(fields, fields[i].0) == Some(fields[i].1)
  {
    var r := Get(fields, fields[i].0);
    var j :| 0 <= j < |fields| && fields[j] == (fields[i].0, r.value);
    assert j == i;
  }
}
