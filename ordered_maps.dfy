/** Insertion-ordered string-keyed maps: JavaScript objects and `Map`s iterate their keys in the
    order they were first set. */
module OrderedMaps {
  import opened Common

  datatype Dict<V> = Dict(keys: seq<string>, vals: map<string, V>)

  /** Keys are listed once each, and exactly the keys with a value are listed. */
  ghost predicate Valid<V>(d: Dict<V>) {
    (forall i, j :: 0 <= i < j < |d.keys| ==> d.keys[i] != d.keys[j]) &&
    (forall k :: k in d.vals <==> k in d.keys)
  }

  function Empty<V>(): (d: Dict<V>)
    ensures Valid(d) && d.keys == []
  {
    Dict([], map[])
  }

  /** `d[k] = v`: an existing key keeps its place, a new key goes last. */
  function Put<V>(d: Dict<V>, k: string, v: V): (r: Dict<V>)
    ensures Valid(d) ==> Valid(r)
    ensures r.vals == d.vals[k := v]
    ensures r.keys == if k in d.vals then d.keys else d.keys + [k]
  {
    if k in d.vals then Dict(d.keys, d.vals[k := v]) else Dict(d.keys + [k], d.vals[k := v])
  }

  function Get<V>(d: Dict<V>, k: string): Option<V> {
    if k in d.vals then Some(d.vals[k]) else None
  }

  /** `d[k] || dflt` for a value that is always truthy when present. */
  function GetOr<V>(d: Dict<V>, k: string, dflt: V): V {
    if k in d.vals then d.vals[k] else dflt
  }

  /** `Object.values(d)` / `Array.from(map.values())`: the values in key order. */
  function Values<V>(d: Dict<V>): (r: seq<V>)
    requires Valid(d)
    ensures |r| == |d.keys|
    ensures forall i :: 0 <= i < |r| ==> r[i] == d.vals[d.keys[i]]
  {
    seq(|d.keys|, i requires 0 <= i < |d.keys| => d.vals[d.keys[i]])
  }
}
