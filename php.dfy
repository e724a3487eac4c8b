/**
 * The slice of PHP's value model the application relies on: dynamically typed
 * values, ordered arrays (`$a[$k] = $v` keeps a key's first position), `isset`,
 * `empty()` and the `??` operator.
 */
module Php {
  import opened Wrappers

  /** An array key. (PHP turns decimal string keys into int keys; no key used here is one.) */
  datatype Key = IntKey(n: int) | StrKey(s: string)

  /** A PHP value; floats are exact reals in this model. */
  datatype Value =
    | Null
    | Bool(b: bool)
    | Int(n: int)
    | Float(r: real)
    | Str(s: string)
    | Arr(entries: seq<(Key, Value)>)

  /** No key occurs twice: every array PHP builds has this shape. */
  ghost predicate UniqueKeys<K, V>(a: seq<(K, V)>) {
    forall i, j :: 0 <= i < j < |a| ==> a[i].0 != a[j].0
  }

  /** Position of the first entry with key `k`. */
  function Find<K(==), V>(a: seq<(K, V)>, k: K): (r: Option<nat>)
    ensures r.Some? ==> r.value < |a| && a[r.value].0 == k
    ensures r.Some? ==> forall j :: 0 <= j < r.value ==> a[j].0 != k
    ensures r.None? ==> forall j :: 0 <= j < |a| ==> a[j].0 != k
  {
    if |a| == 0 then None
    else if a[0].0 == k then Some(0)
    else match Find(a[1..], k)
      case None => None
      case Some(i) => Some(i + 1)
  }

  /** `$a[$k]` when the key is present. */
  function Lookup<K(==), V>(a: seq<(K, V)>, k: K): (r: Option<V>)
    ensures r.None? <==> forall j :: 0 <= j < |a| ==> a[j].0 != k
    ensures r.Some? ==> exists j :: 0 <= j < |a| && a[j] == (k, r.value)
  {
    match Find(a, k)
    case None => None
    case Some(i) => Some(a[i].1)
  }

  /** `$a[$k] = $v`: overwrites in place when `k` is present, appends otherwise. */
  function Put<K(==,!new), V>(a: seq<(K, V)>, k: K, v: V): (r: seq<(K, V)>)
    ensures Lookup(r, k) == Some(v)
    ensures forall k' :: k' != k ==> Lookup(r, k') == Lookup(a, k')
    ensures Find(a, k).Some? ==> |r| == |a|
    ensures Find(a, k).None? ==> |r| == |a| + 1 && r[|a|] == (k, v)
    ensures forall i :: 0 <= i < |a| ==> r[i].0 == a[i].0
    ensures UniqueKeys(a) ==> UniqueKeys(r)
    ensures forall i :: 0 <= i < |r| ==> r[i] == (k, v) || r[i] in a
  {
    match Find(a, k)
    case Some(i) =>
      var r := a[i := (k, v)];
      forall k' ensures Find(r, k') == Find(a, k') {
        FindSameKeys(a, r, k');
      }
      r
    case None =>
      var r := a + [(k, v)];
      assert Find(r, k) == Some(|a|) by {
        FindPrefix(a, [(k, v)], k);
      }
      forall k' | k' != k ensures Lookup(r, k') == Lookup(a, k') {
        FindPrefix(a, [(k, v)], k');
      }
      r
  }

  /** A key found in a prefix is found at the same place in any extension. */
  lemma {:induction false} FindPrefix<K, V>(a: seq<(K, V)>, b: seq<(K, V)>, k: K)
    ensures Find(a, k).Some? ==> Find(a + b, k) == Find(a, k)
    ensures Find(a, k).None? && Find(b, k).Some? ==> Find(a + b, k) == Some(|a| + Find(b, k).value)
    ensures Find(a, k).None? && Find(b, k).None? ==> Find(a + b, k).None?
  {
    if |a| > 0 && a[0].0 != k {
      assert (a + b)[1..] == a[1..] + b;
      FindPrefix(a[1..], b, k);
    } else if |a| == 0 {
      assert a + b == b;
    }
  }

  /** Find looks at keys only. */
  lemma {:induction false} FindSameKeys<K, V>(a: seq<(K, V)>, b: seq<(K, V)>, k: K)
    requires |a| == |b| && forall i :: 0 <= i < |a| ==> a[i].0 == b[i].0
    ensures Find(a, k) == Find(b, k)
  {
    if |a| > 0 {
      FindSameKeys(a[1..], b[1..], k);
    }
  }

  /** The keys of an array, in order. */
  function Keys<K, V>(a: seq<(K, V)>): seq<K> {
    seq(|a|, i requires 0 <= i < |a| => a[i].0)
  }

  /** `empty($v)`: null, false, 0, 0.0, "", "0" and the empty array. */
  predicate Empty(v: Value) {
    match v
    case Null => true
    case Bool(b) => !b
    case Int(n) => n == 0
    case Float(r) => r == 0.0
    case Str(s) => s == "" || s == "0"
    case Arr(e) => e == []
  }

  /** `$v[$k] ?? null` for any key. */
  function IndexKey(v: Value, k: Key): (r: Value)
    ensures v.Arr? && Lookup(v.entries, k).Some? ==> r == Lookup(v.entries, k).value
    ensures !v.Arr? || Lookup(v.entries, k).None? ==> r == Null
  {
    match v
    case Arr(e) => Lookup(e, k).GetOr(Null)
    case _ => Null
  }

  /** `$v[$k] ?? null` for a string key: arrays are indexed, every other value yields null. */
  function Index(v: Value, k: string): (r: Value)
    ensures v.Arr? && Lookup(v.entries, StrKey(k)).Some? ==> r == Lookup(v.entries, StrKey(k)).value
    ensures !v.Arr? || Lookup(v.entries, StrKey(k)).None? ==> r == Null
  {
    IndexKey(v, StrKey(k))
  }

  /** `isset($v[$k])`: the key is present and its value is not null. */
  predicate Isset(v: Value, k: string) {
    Index(v, k) != Null
  }

  /** `$a[$k] ?? $default` */
  function Coalesce(v: Value, k: string, default: Value): Value {
    if Isset(v, k) then Index(v, k) else default
  }
}
