/** Loosely typed record values as the system reads them from a parsed JSON
    document, and the few dictionary operations the core performs on them. */
module Values {

  datatype Option<+T> = None | Some(value: T)

  /** A parsed JSON value. Python's `int` and `float` are both carried by
      `JNum`; `bool` is kept apart because Python tells it from a number
      everywhere except in `isinstance(v, (int, float))`. */
  datatype Json =
    | JNull
    | JBool(b: bool)
    | JNum(n: real)
    | JStr(s: string)
    | JList(items: seq<Json>)
    | JObj(fields: Dict)

  /** A Python dict in insertion order. Python dicts never repeat a key;
      lookups below return the first binding, so a repeated key would only
      be shadowed. */
  type Dict = seq<(string, Json)>

  /** `k in d` */
  predicate HasKey(d: Dict, k: string)
  {
    exists i :: 0 <= i < |d| && d[i].0 == k
  }

  /** `d.get(k, default)` */
  function Get(d: Dict, k: string, default: Json): Json
  {
    if d == [] then default
    else if d[0].0 == k then d[0].1
    else Get(d[1..], k, default)
  }

  /** `d.get(k, default)` is the value of the first binding of `k`. */
  lemma {:induction false} GetFirst(d: Dict, k: string, default: Json, i: nat)
    requires i < |d| && d[i].0 == k
    requires forall j :: 0 <= j < i ==> d[j].0 != k
    ensures Get(d, k, default) == d[i].1
  {
    if i > 0 {
      GetFirst(d[1..], k, default, i - 1);
    }
  }

  /** `d.get(k, default)` is `default` when `k` is not bound. */
  lemma {:induction false} GetMissing(d: Dict, k: string, default: Json)
    requires forall j :: 0 <= j < |d| ==> d[j].0 != k
    ensures Get(d, k, default) == default
  {
    if d != [] {
      GetMissing(d[1..], k, default);
    }
  }

  /** The payload of `d.get(k)` when it is a JSON object, else no fields. */
  function Fields(j: Json): Dict
  {
    if j.JObj? then j.fields else []
  }

  /** Python truthiness: `if value:` */
  predicate Truthy(j: Json)
  {
    match j
    case JNull => false
    case JBool(b) => b
    case JNum(n) => n != 0.0
    case JStr(s) => s != []
    case JList(xs) => xs != []
    case JObj(fs) => fs != []
  }

  /** `float(v) if isinstance(v, (int, float)) else None`; `bool` is a
      subclass of `int` in Python, so `True` reads as 1.0 and `False` as 0.0. */
  function AsNumber(j: Json): (r: Option<real>)
    ensures r.Some? <==> (j.JNum? || j.JBool?)
    ensures j.JNum? ==> r == Some(j.n)
    ensures j.JBool? ==> r == Some(if j.b then 1.0 else 0.0)
  {
    match j
    case JNum(n) => Some(n)
    case JBool(b) => Some(if b then 1.0 else 0.0)
    case _ => None
  }
}

/** Names fixed by the record layout: vessels, metric keys and the reserved
    key of the derived ratio. */
module Vitals {
  import opened Values

  const Ica: string := "ICA"
  const Cca: string := "CCA"
  const Eca: string := "ECA"
  const PsvKey: string := "psv_cm_s"
  const EdvKey: string := "edv_cm_s"
  const ImtKey: string := "imt_mm"
  const RatioKey: string := "ica_cca_ratio"

  /** The layout of the records the tests use: CCA, ICA and ECA payloads,
      then the ratio. */
  predicate FixtureLayout(v: Dict)
  {
    |v| == 4 && v[0].0 == Cca && v[1].0 == Ica && v[2].0 == Eca && v[3].0 == RatioKey
    && v[0].1.JObj? && v[1].1.JObj? && v[2].1.JObj?
    && PayloadLayout(v[0].1.fields, 3) && PayloadLayout(v[1].1.fields, 3) && PayloadLayout(v[2].1.fields, 2)
  }

  /** A payload with PSV and EDV and, when `n` is 3, IMT, in that order. */
  predicate PayloadLayout(p: Dict, n: nat)
  {
    |p| == n && 2 <= n <= 3 && p[0].0 == PsvKey && p[1].0 == EdvKey && (n == 3 ==> p[2].0 == ImtKey)
  }

  /** Lookups in a fixture laid out as the test fixtures are. */
  lemma FixtureLookups(v: Dict)
    requires |v| == 4 && v[0].0 == Cca && v[1].0 == Ica && v[2].0 == Eca && v[3].0 == RatioKey
    ensures Get(v, Cca, JNull) == v[0].1 && Get(v, Ica, JNull) == v[1].1
    ensures Get(v, Eca, JNull) == v[2].1 && Get(v, RatioKey, JNull) == v[3].1
  {
    assert Cca[0] != Ica[0] && Cca[0] != Eca[0] && Ica[0] != Eca[0];
    assert Cca[0] != RatioKey[0] && Ica[0] != RatioKey[0] && Eca[0] != RatioKey[0];
    GetFirst(v, Cca, JNull, 0);
    GetFirst(v, Ica, JNull, 1);
    GetFirst(v, Eca, JNull, 2);
    GetFirst(v, RatioKey, JNull, 3);
  }

  /** Lookups in a vessel payload laid out as the test fixtures are. */
  lemma PayloadLookups(p: Dict)
    requires 2 <= |p| <= 3 && p[0].0 == PsvKey && p[1].0 == EdvKey && (|p| == 3 ==> p[2].0 == ImtKey)
    ensures Get(p, PsvKey, JNull) == p[0].1 && Get(p, EdvKey, JNull) == p[1].1
    ensures Get(p, ImtKey, JNull) == if |p| == 3 then p[2].1 else JNull
  {
    assert PsvKey[0] != EdvKey[0] && PsvKey[0] != ImtKey[0] && EdvKey[0] != ImtKey[0];
    GetFirst(p, PsvKey, JNull, 0);
    GetFirst(p, EdvKey, JNull, 1);
    if |p| == 3 {
      GetFirst(p, ImtKey, JNull, 2);
    } else {
      GetMissing(p, ImtKey, JNull);
    }
  }
}
