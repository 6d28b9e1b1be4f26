/** JSON-shaped Python values as the services exchange them, Python dicts
    with string keys, and the few runtime behaviours the model treats as opaque. */
module PyValues {
  import opened Wrappers

  /** A Python dict with string keys: its (key, value) pairs in insertion order. */
  type Dict<V> = seq<(string, V)>

  /** A value decoded from JSON (`json.loads` / `response.json()`).
      Python's int and float are both `JNum`. A nested object is a map: the
      code reads it only by key. Where the order of an object's entries
      matters (a dict the code iterates over) the model keeps a `Dict`. */
  datatype Json =
    | JNull
    | JBool(b: bool)
    | JNum(n: real)
    | JStr(s: string)
    | JList(items: seq<Json>)
    | JObj(fields: map<string, Json>)

  function Keys<V>(d: Dict<V>): (ks: seq<string>)
    ensures |ks| == |d|
    ensures forall i :: 0 <= i < |d| ==> ks[i] == d[i].0
  {
    seq(|d|, i requires 0 <= i < |d| => d[i].0)
  }

  predicate HasKey<V>(d: Dict<V>, k: string)
  {
    k in Keys(d)
  }

  predicate Distinct(s: seq<string>)
  {
    forall i, j :: 0 <= i < j < |s| ==> s[i] != s[j]
  }

  /** Every dict Python builds has this property. */
  predicate DistinctKeys<V>(d: Dict<V>)
  {
    Distinct(Keys(d))
  }

  /** `d.get(k)`: the value stored under `k`, if any. */
  function Get<V>(d: Dict<V>, k: string): (r: Option<V>)
    ensures r.Some? <==> HasKey(d, k)
    ensures r.Some? ==> (k, r.value) in d
  {
    if d == [] then None
    else if d[0].0 == k then Some(d[0].1)
    else Get(d[1..], k)
  }

  /** `d.get(k, default)` */
  function GetOr<V>(d: Dict<V>, k: string, default: V): V
  {
    match Get(d, k)
    case Some(v) => v
    case None => default
  }

  /** `d[k] = v`: an existing key keeps its place and takes the new value; a
      new key goes at the end. */
  function Put<V>(d: Dict<V>, k: string, v: V): Dict<V>
  {
    if d == [] then [(k, v)]
    else if d[0].0 == k then [(k, v)] + d[1..]
    else [d[0]] + Put(d[1..], k, v)
  }

  /** After `d[k] = v`, `k` maps to `v`. */
  lemma {:induction false} PutGetSame<V>(d: Dict<V>, k: string, v: V)
    ensures Get(Put(d, k, v), k) == Some(v)
  {
    if d != [] && d[0].0 != k {
      PutGetSame(d[1..], k, v);
      assert Put(d, k, v)[1..] == Put(d[1..], k, v);
    }
  }

  /** After `d[k] = v`, every other key keeps its value. */
  lemma {:induction false} PutGetOther<V>(d: Dict<V>, k: string, v: V, k': string)
    requires k' != k
    ensures Get(Put(d, k, v), k') == Get(d, k')
  {
    var r := Put(d, k, v);
    if d == [] {
      assert r[1..] == [];
    } else if d[0].0 == k {
      assert r[1..] == d[1..];
    } else {
      PutGetOther(d[1..], k, v, k');
      assert r[1..] == Put(d[1..], k, v);
    }
  }

  /** After `d[k] = v`, the keys keep their order; a new `k` comes last. */
  lemma {:induction false} PutKeys<V>(d: Dict<V>, k: string, v: V)
    ensures Keys(Put(d, k, v)) == if HasKey(d, k) then Keys(d) else Keys(d) + [k]
  {
    var r := Put(d, k, v);
    if d == [] {
    } else if d[0].0 == k {
      assert Keys(r) == Keys(d);
    } else {
      PutKeys(d[1..], k, v);
      assert r[1..] == Put(d[1..], k, v);
      assert Keys(d) == [d[0].0] + Keys(d[1..]);
      assert HasKey(d, k) <==> HasKey(d[1..], k);
      assert Keys(r) == [d[0].0] + Keys(Put(d[1..], k, v));
    }
  }

  lemma PutKeepsDistinct<V>(d: Dict<V>, k: string, v: V)
    requires DistinctKeys(d)
    ensures DistinctKeys(Put(d, k, v))
  {
    PutKeys(d, k, v);
    var ks := Keys(d);
    if !HasKey(d, k) {
      assert forall i :: 0 <= i < |ks| ==> ks[i] != k;
    }
  }

  /** Storing under a new key appends the pair. */
  lemma {:induction false} PutAppends<V>(d: Dict<V>, k: string, v: V)
    requires !HasKey(d, k)
    ensures Put(d, k, v) == d + [(k, v)]
  {
    if d != [] {
      assert Keys(d)[0] == d[0].0;
      if HasKey(d[1..], k) {
        HasKeyTail(d, k);
      }
      PutAppends(d[1..], k, v);
      assert d == [d[0]] + d[1..];
    }
  }

  /** A key of the tail is a key of the dict. */
  lemma HasKeyTail<V>(d: Dict<V>, k: string)
    requires d != [] && HasKey(d[1..], k)
    ensures HasKey(d, k)
  {
    var i :| 0 <= i < |d| - 1 && Keys(d[1..])[i] == k;
    assert Keys(d)[i + 1] == k;
  }

  /** The key of every pair in the dict is one of its keys. */
  lemma HasKeyOfPair<V>(d: Dict<V>, p: (string, V))
    requires p in d
    ensures HasKey(d, p.0)
  {
    var i :| 0 <= i < |d| && d[i] == p;
    assert Keys(d)[i] == p.0;
  }

  /** Two dicts with the same pairs have the same keys. */
  lemma HasKeySamePairs<V>(a: Dict<V>, b: Dict<V>, k: string)
    requires multiset(a) == multiset(b)
    ensures HasKey(a, k) <==> HasKey(b, k)
  {
    if HasKey(a, k) {
      var i :| 0 <= i < |a| && Keys(a)[i] == k;
      assert a[i] in multiset(b);
      HasKeyOfPair(b, a[i]);
    }
    if HasKey(b, k) {
      var i :| 0 <= i < |b| && Keys(b)[i] == k;
      assert b[i] in multiset(a);
      HasKeyOfPair(a, b[i]);
    }
  }

  /** Without repeated keys, each pair's key finds that pair's value. */
  lemma {:induction false} GetAt<V>(d: Dict<V>, i: nat)
    requires i < |d| && DistinctKeys(d)
    ensures Get(d, d[i].0) == Some(d[i].1)
  {
    if i > 0 {
      assert Keys(d)[0] != Keys(d)[i];
      assert DistinctKeys(d[1..]) by {
        forall a, b | 0 <= a < b < |d| - 1
          ensures Keys(d[1..])[a] != Keys(d[1..])[b]
        {
          assert Keys(d[1..])[a] == Keys(d)[a + 1];
          assert Keys(d[1..])[b] == Keys(d)[b + 1];
        }
      }
      GetAt(d[1..], i - 1);
    }
  }

  /** `obj.get(k, default)` on a JSON object. */
  function Lookup(fields: map<string, Json>, k: string, default: Json): (r: Json)
    ensures k in fields ==> r == fields[k]
    ensures k !in fields ==> r == default
  {
    if k in fields then fields[k] else default
  }

  /** Python truthiness (`if x:` / `not x`). */
  predicate Truthy(j: Json)
  {
    match j
    case JNull => false
    case JBool(b) => b
    case JNum(n) => n != 0.0
    case JStr(s) => s != ""
    case JList(items) => items != []
    case JObj(fields) => fields != map[]
  }

  /** The value of `j` when `isinstance(j, (int, float))`; a bool is an int in Python. */
  function Number(j: Json): Option<real>
  {
    match j
    case JNum(n) => Some(n)
    case JBool(b) => Some(if b then 1.0 else 0.0)
    case _ => None
  }

  /** An exception raised inside a service. */
  datatype PyError =
    | KeyError(key: string)
    | TypeError(operation: string)
    | ValueError(message: string)
    | AttributeError(receiver: Json, name: string)

  /** FastAPI's `HTTPException(status_code, detail)`. */
  datatype HttpException = HttpException(status: int, detail: string)

  /** What the interpreter does that the model does not spell out:
      `str()` of a non-string value, `format(x, ".2f")`, `round(x, 2)` and
      `str(e)` of an exception. */
  datatype Runtime = Runtime(
    repr: Json -> string,
    fixed2: real -> string,
    round2: real -> real,
    errorText: PyError -> string)

  /** `str(j)`, also what an f-string inserts for `{j}`. */
  function Str(rt: Runtime, j: Json): string
  {
    if j.JStr? then j.s else rt.repr(j)
  }
}
