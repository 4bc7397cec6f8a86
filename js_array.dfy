/**
 * The JavaScript Array built-ins the stores and the Travel entity rely on:
 * reading `a[i]`, `indexOf`/`findIndex`/`find` (first match), and
 * `splice(start, 1)` with the ECMAScript rules for a relative start.
 * A store's `findIndex(x => x.key === k)` is `IndexOf` over the projected keys.
 */
module JsArray {
  import opened Nullable

  /** How a call ends: normally with a value, or by throwing a TypeError (e.g. reading a property of undefined). */
  datatype Completion<+T> = Normal(value: T) | TypeError

  /** The values a callback may return, as far as `filter` cares. */
  datatype JsValue = Undefined | Boolean(b: bool)

  /** `ToBoolean`: undefined is falsy. */
  predicate Truthy(v: JsValue) {
    match v
    case Undefined => false
    case Boolean(b) => b
  }

  /** `a[i]`: the element at position i, or `undefined` outside 0 .. length-1. */
  function At<T>(s: seq<T>, i: int): Option<T> {
    if 0 <= i < |s| then Some(s[i]) else None
  }

  /** The position of the first occurrence of k in keys, or -1 when there is none. */
  function IndexOf<K(==)>(keys: seq<K>, k: K): (r: int)
    ensures -1 <= r < |keys|
    ensures r == -1 <==> k !in keys
    ensures 0 <= r ==> keys[r] == k && forall j :: 0 <= j < r ==> keys[j] != k
  {
    if |keys| == 0 then -1
    else if keys[0] == k then 0
    else
      var j := IndexOf(keys[1..], k);
      if j == -1 then -1 else j + 1
  }

  /** The key of every element, position by position (`a.map(key)`): what a `findIndex`/`find` callback compares. */
  function Keys<T, K>(s: seq<T>, key: T -> K): (r: seq<K>)
    ensures |r| == |s| && forall i :: 0 <= i < |s| ==> r[i] == key(s[i])
  {
    seq(|s|, i requires 0 <= i < |s| => key(s[i]))
  }

  /** `a.find(x => key(x) === k)`, given the keys position by position: the first element whose key is k, or undefined. */
  function Find<T, K(==)>(s: seq<T>, keys: seq<K>, k: K): Option<T>
    requires |keys| == |s|
  {
    At(s, IndexOf(keys, k))
  }

  /** s with the element at position k taken out; s itself when k is past the end. */
  function RemoveAt<T>(s: seq<T>, k: nat): (r: seq<T>)
    ensures |r| == if k < |s| then |s| - 1 else |s|
    ensures forall i :: 0 <= i < k && i < |r| ==> r[i] == s[i]
    ensures forall i :: k <= i < |r| ==> r[i] == s[i + 1]
    ensures k < |s| ==> multiset(r) + multiset{s[k]} == multiset(s)
    ensures |s| <= k ==> r == s
  {
    if k < |s| then
      assert s == s[..k] + [s[k]] + s[k + 1..];
      s[..k] + s[k + 1..]
    else s
  }

  /**
   * The position `splice(start, 1)` starts at on an array of length len
   * (ECMAScript Array.prototype.splice): a negative start counts from the
   * end and is clamped to 0, a start past the end is clamped to len.
   */
  function RelativeStart(len: nat, start: int): (k: nat)
    ensures k <= len
  {
    if start < 0 then (if len + start > 0 then len + start else 0)
    else if start < len then start
    else len
  }

  /** The array `a.splice(start, 1)` leaves behind. */
  function Splice1<T>(s: seq<T>, start: int): seq<T> {
    RemoveAt(s, RelativeStart(|s|, start))
  }

  /** `ToIntegerOrInfinity` of a start that may be `undefined`: undefined becomes NaN, which becomes 0. */
  function StartOf(start: Option<int>): int {
    match start
    case Some(n) => n
    case None => 0
  }

  /**
   * `a.splice(a.findIndex(…), 1)` when some key matches removes exactly the
   * first match and keeps every other element in order.
   */
  lemma {:induction false} SpliceAtFirstMatch<T, K>(s: seq<T>, keys: seq<K>, k: K)
    requires |keys| == |s| && k in keys
    ensures var i := IndexOf(keys, k);
      0 <= i < |s| && Splice1(s, i) == s[..i] + s[i + 1..]
  {
  }

  /**
   * `a.splice(a.findIndex(…), 1)` when no key matches: findIndex gives -1,
   * and a start of -1 means the last position, so the LAST element goes.
   */
  lemma {:induction false} SpliceWhenNoMatch<T, K>(s: seq<T>, keys: seq<K>, k: K)
    requires |keys| == |s| && k !in keys
    ensures IndexOf(keys, k) == -1
    ensures Splice1(s, IndexOf(keys, k)) == if |s| == 0 then [] else s[..|s| - 1]
  {
  }
}
