/**
 * JSON-like values as the import and repair scripts see them. An object is the
 * list of its members in insertion order (the order `Object.entries` reports);
 * like a JavaScript object it is meant to hold each key at most once.
 * A missing member (`undefined`) is `None` where a member is looked up.
 * Numbers are integers: no script logic modelled here depends on fractions.
 */
module Json {
  import opened Wrappers

  datatype Json =
    | JNull
    | JBool(b: bool)
    | JNum(n: int)
    | JStr(s: string)
    | JArr(items: seq<Json>)
    | JObj(members: seq<Member>)

  datatype Member = Member(key: string, value: Json)

  /** JavaScript truthiness: `null`, `false`, `0` and `""` are falsy; arrays and objects are truthy. */
  predicate Truthy(v: Json) {
    match v
    case JNull => false
    case JBool(b) => b
    case JNum(n) => n != 0
    case JStr(s) => s != ""
    case _ => true
  }

  /** Truthiness of a member read that may be `undefined`. */
  predicate TruthyField(f: Option<Json>) {
    f.Some? && Truthy(f.value)
  }

  /** `a || b` where `a` is a member read. */
  function Or(f: Option<Json>, default: Json): (r: Json)
    ensures TruthyField(f) ==> r == f.value
    ensures !TruthyField(f) ==> r == default
  {
    if TruthyField(f) then f.value else default
  }

  function Keys(ms: seq<Member>): (ks: seq<string>)
    ensures |ks| == |ms| && forall i :: 0 <= i < |ms| ==> ks[i] == ms[i].key
  {
    if ms == [] then [] else [ms[0].key] + Keys(ms[1..])
  }

  predicate DistinctKeys(ms: seq<Member>) {
    forall i, j :: 0 <= i < j < |ms| ==> ms[i].key != ms[j].key
  }

  /** `obj[k]` on an object: the value of the first member named `k`. */
  function Get(ms: seq<Member>, k: string): (r: Option<Json>)
  {
    if ms == [] then None
    else if ms[0].key == k then Some(ms[0].value)
    else Get(ms[1..], k)
  }

  /** `obj[k] = v`: an existing member keeps its place, a new one goes last. */
  function Put(ms: seq<Member>, k: string, v: Json): (r: seq<Member>)
    ensures Get(r, k) == Some(v)
    ensures forall k' {:trigger Get(r, k')} :: k' != k ==> Get(r, k') == Get(ms, k')
  {
    if ms == [] then [Member(k, v)]
    else if ms[0].key == k then [Member(k, v)] + ms[1..]
    else [ms[0]] + Put(ms[1..], k, v)
  }

  /** `delete obj[k]` */
  function Delete(ms: seq<Member>, k: string): (r: seq<Member>)
    ensures Get(r, k) == None
    ensures forall k' {:trigger Get(r, k')} :: k' != k ==> Get(r, k') == Get(ms, k')
  {
    if ms == [] then []
    else if ms[0].key == k then Delete(ms[1..], k)
    else [ms[0]] + Delete(ms[1..], k)
  }

  /** Deleting a missing member changes nothing. */
  lemma {:induction false} DeleteMissing(ms: seq<Member>, k: string)
    requires k !in Keys(ms)
    ensures Delete(ms, k) == ms
  {
    if ms != [] {
      assert Keys(ms[1..]) == Keys(ms)[1..];
      DeleteMissing(ms[1..], k);
    }
  }

  /** `v.k` for any value: a member of an object, `undefined` for every other value. */
  function Prop(v: Json, k: string): (r: Option<Json>)
    ensures r.Some? ==> v.JObj?
  {
    if v.JObj? then Get(v.members, k) else None
  }

  /** Is `v` a string, `typeof v === 'string'`. */
  predicate IsString(f: Option<Json>) {
    f.Some? && f.value.JStr?
  }

  /** Looking up a key in an object with one more member at the end. */
  lemma {:induction false} GetSnoc(ms: seq<Member>, m: Member, k: string)
    ensures Get(ms + [m], k) == if Get(ms, k).Some? then Get(ms, k) else if m.key == k then Some(m.value) else None
  {
    if ms != [] {
      assert (ms + [m])[1..] == ms[1..] + [m];
      GetSnoc(ms[1..], m, k);
    }
  }
}
