/**
 * JSON-shaped values as the configuration holds them. A Python dict is an
 * association list in insertion order; a dict never holds a key twice, which
 * `DistinctKeys` states.
 */
module JsonValues {
  import opened Wrappers

  datatype Json =
    | JNull
    | JBool(b: bool)
    | JInt(i: int)
    | JFloat(f: real)
    | JStr(s: string)
    | JList(items: seq<Json>)
    | JObj(entries: seq<(string, Json)>)

  type Entries = seq<(string, Json)>

  /** Python truthiness: null, false, zero, and empty strings, lists and dicts are falsy. */
  predicate Truthy(j: Json) {
    match j
    case JNull => false
    case JBool(b) => b
    case JInt(i) => i != 0
    case JFloat(f) => f != 0.0
    case JStr(s) => s != ""
    case JList(items) => |items| > 0
    case JObj(entries) => |entries| > 0
  }

  predicate DistinctKeys(e: Entries) {
    forall i, j :: 0 <= i < j < |e| ==> e[i].0 != e[j].0
  }

  function Keys(e: Entries): (ks: seq<string>)
    ensures |ks| == |e| && forall i :: 0 <= i < |e| ==> ks[i] == e[i].0
  {
    if |e| == 0 then [] else [e[0].0] + Keys(e[1..])
  }

  /** `d.get(k)`: the value stored under `k`, if any. */
  function Get(e: Entries, k: string): (r: Option<Json>)
    ensures r.None? <==> k !in Keys(e)
    ensures r.Some? ==> (k, r.value) in e
  {
    if |e| == 0 then None
    else if e[0].0 == k then Some(e[0].1)
    else Get(e[1..], k)
  }

  /** `d[k] = v`: an existing key keeps its place, a new key goes last. */
  function Put(e: Entries, k: string, v: Json): Entries {
    if |e| == 0 then [(k, v)]
    else if e[0].0 == k then [(k, v)] + e[1..]
    else [e[0]] + Put(e[1..], k, v)
  }

  /** After `d[k] = v`, `k` maps to `v` and every other key keeps its value. */
  lemma {:induction false} PutGet(e: Entries, k: string, v: Json)
    ensures Get(Put(e, k, v), k) == Some(v)
    ensures forall k' :: k' != k ==> Get(Put(e, k, v), k') == Get(e, k')
  {
    if |e| > 0 && e[0].0 != k {
      PutGet(e[1..], k, v);
      forall k' | k' != k
        ensures Get(Put(e, k, v), k') == Get(e, k')
      {
        if e[0].0 != k' {
          assert Put(e, k, v)[1..] == Put(e[1..], k, v);
        }
      }
    } else if |e| > 0 {
      forall k' | k' != k
        ensures Get(Put(e, k, v), k') == Get(e, k')
      {
        assert Put(e, k, v)[1..] == e[1..];
      }
    }
  }

  /** An existing key keeps its place; a new key goes last. */
  lemma {:induction false} PutKeys(e: Entries, k: string, v: Json)
    ensures k in Keys(e) ==> Keys(Put(e, k, v)) == Keys(e)
    ensures k !in Keys(e) ==> Keys(Put(e, k, v)) == Keys(e) + [k]
  {
    if |e| > 0 && e[0].0 != k {
      PutKeys(e[1..], k, v);
    }
  }

  /** Assignment keeps the keys of a dict distinct. */
  lemma PutDistinct(e: Entries, k: string, v: Json)
    requires DistinctKeys(e)
    ensures DistinctKeys(Put(e, k, v))
  {
    PutKeys(e, k, v);
    var r := Put(e, k, v);
    forall i, j | 0 <= i < j < |r|
      ensures r[i].0 != r[j].0
    {
      assert Keys(r)[i] == r[i].0 && Keys(r)[j] == r[j].0;
      if k in Keys(e) {
        assert Keys(e)[i] == e[i].0 && Keys(e)[j] == e[j].0;
      } else if j < |e| {
        assert Keys(e)[i] == e[i].0 && Keys(e)[j] == e[j].0;
      } else {
        assert Keys(e)[i] == e[i].0;
      }
    }
  }

  /** `d.update(u)`: the entries of `u` assigned in order. */
  function Update(base: Entries, u: Entries): Entries
    decreases |u|
  {
    if |u| == 0 then base
    else Update(Put(base, u[0].0, u[0].1), u[1..])
  }

  /** After `d.update(u)` a key of `u` maps to its value in `u`; any other key keeps its value in `d`. */
  lemma {:induction false} UpdateGet(base: Entries, u: Entries, k: string)
    requires DistinctKeys(u)
    ensures Get(Update(base, u), k) == if k in Keys(u) then Get(u, k) else Get(base, k)
    decreases |u|
  {
    if |u| > 0 {
      var b2 := Put(base, u[0].0, u[0].1);
      PutGet(base, u[0].0, u[0].1);
      UpdateGet(b2, u[1..], k);
      if k == u[0].0 {
        assert k !in Keys(u[1..]);
      } else {
        assert Get(u, k) == Get(u[1..], k);
      }
    }
  }

  /** After `d.update(u)` the keys are those of `d` and those of `u`. */
  lemma {:induction false} UpdateKeys(base: Entries, u: Entries, k: string)
    ensures k in Keys(Update(base, u)) <==> k in Keys(base) || k in Keys(u)
    decreases |u|
  {
    if |u| > 0 {
      PutKeys(base, u[0].0, u[0].1);
      UpdateKeys(Put(base, u[0].0, u[0].1), u[1..], k);
      assert Keys(u) == [u[0].0] + Keys(u[1..]);
    }
  }

  /** Updating keeps distinct keys distinct. */
  lemma {:induction false} UpdateDistinct(base: Entries, u: Entries)
    requires DistinctKeys(base)
    ensures DistinctKeys(Update(base, u))
    decreases |u|
  {
    if |u| > 0 {
      PutDistinct(base, u[0].0, u[0].1);
      UpdateDistinct(Put(base, u[0].0, u[0].1), u[1..]);
    }
  }
}
