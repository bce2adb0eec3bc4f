/** PHP arrays with string keys, as the dialog wrapper uses them: an
    insertion-ordered list of (key, value) entries in which a key occurs at
    most once. `$a[$k] = $v` is `Assign` and `array_merge($a, $b)` is `Merge`.
 */
module PhpArray {

  type Entry<V> = (string, V)

  /** The keys of an array, in iteration order (PHP's `array_keys`). */
  function Keys<V>(p: seq<Entry<V>>): seq<string>
  {
    seq(|p|, i requires 0 <= i < |p| => p[i].0)
  }

  /** Every key occurs once: what every PHP array satisfies. */
  predicate UniqueKeys<V>(p: seq<Entry<V>>)
  {
    forall i, j :: 0 <= i < j < |p| ==> p[i].0 != p[j].0
  }

  /** The position of key `k`. */
  function IndexOf<V>(p: seq<Entry<V>>, k: string): (i: nat)
    requires k in Keys(p)
    ensures i < |p| && p[i].0 == k
    ensures forall j :: 0 <= j < i ==> p[j].0 != k
  {
    if p[0].0 == k then 0
    else
      assert k in Keys(p[1..]) by {
        var m :| 0 <= m < |p| && Keys(p)[m] == k;
        assert Keys(p[1..])[m - 1] == k;
      }
      1 + IndexOf(p[1..], k)
  }

  /** `$p[$k]` for a key that is present. */
  function Get<V>(p: seq<Entry<V>>, k: string): V
    requires k in Keys(p)
  {
    p[IndexOf(p, k)].1
  }

  /** Two arrays with the same key sequence find every key at the same position. */
  lemma {:induction false} IndexOfSameKeys<V>(p: seq<Entry<V>>, q: seq<Entry<V>>, k: string)
    requires Keys(p) == Keys(q) && k in Keys(p)
    ensures IndexOf(p, k) == IndexOf(q, k)
  {
    assert |p| == |Keys(p)| == |q|;
    forall m | 0 <= m < |p| ensures p[m].0 == q[m].0 {
      assert Keys(p)[m] == Keys(q)[m];
    }
  }

  /** Appending entries does not move the first occurrence of a key already present. */
  lemma {:induction false} IndexOfAppend<V>(p: seq<Entry<V>>, q: seq<Entry<V>>, k: string)
    requires k in Keys(p)
    ensures k in Keys(p + q) && IndexOf(p + q, k) == IndexOf(p, k)
  {
    var i := IndexOf(p, k);
    assert Keys(p + q)[i] == k;
    forall m | 0 <= m < |p| ensures (p + q)[m] == p[m] { }
  }

  /** PHP's assignment `$p[$k] = $v`. */
  function Assign<V>(p: seq<Entry<V>>, k: string, v: V): seq<Entry<V>>
  {
    if k in Keys(p) then p[IndexOf(p, k) := (k, v)] else p + [(k, v)]
  }

  /** An existing key keeps its position and takes the new value; a new key
      is appended at the end; every other key keeps its value. */
  lemma {:induction false} AssignContents<V>(p: seq<Entry<V>>, k: string, v: V)
    ensures var r := Assign(p, k, v);
      && Keys(r) == (if k in Keys(p) then Keys(p) else Keys(p) + [k])
      && |p| <= |r| && Keys(r)[..|p|] == Keys(p)
      && (forall k' :: k' in Keys(r) <==> k' in Keys(p) || k' == k)
      && (UniqueKeys(p) ==> UniqueKeys(r))
      && k in Keys(r) && Get(r, k) == v
      && (forall k' :: k' in Keys(p) && k' != k ==> k' in Keys(r) && Get(r, k') == Get(p, k'))
  {
    var r := Assign(p, k, v);
    if k in Keys(p) {
      assert Keys(r) == Keys(p);
      assert Keys(r)[..|p|] == Keys(p);
      forall k' | k' in Keys(p) ensures IndexOf(r, k') == IndexOf(p, k') {
        IndexOfSameKeys(r, p, k');
      }
    } else {
      assert Keys(r) == Keys(p) + [k];
      assert Keys(r)[..|p|] == Keys(p);
      assert Keys(r)[|p|] == k;
      forall j | 0 <= j < |p| ensures r[j].0 != k {
        assert Keys(p)[j] == p[j].0;
      }
      forall k' | k' in Keys(p) ensures IndexOf(r, k') == IndexOf(p, k') {
        IndexOfAppend(p, [(k, v)], k');
      }
    }
  }

  /** The keys of `ks` that are not in `seen`, in the order of `ks`. */
  function Fresh(ks: seq<string>, seen: seq<string>): (r: seq<string>)
    ensures forall k :: k in r <==> k in ks && k !in seen
  {
    if ks == [] then []
    else (if ks[0] in seen then [] else [ks[0]]) + Fresh(ks[1..], seen)
  }

  lemma {:induction false} FreshIgnoresAbsent(ks: seq<string>, seen: seq<string>, x: string)
    requires x !in ks
    ensures Fresh(ks, seen + [x]) == Fresh(ks, seen)
  {
    if ks != [] {
      assert ks[0] != x;
      FreshIgnoresAbsent(ks[1..], seen, x);
    }
  }

  lemma KeysTail<V>(b: seq<Entry<V>>)
    requires b != []
    ensures Keys(b) == [b[0].0] + Keys(b[1..])
  {
  }

  /** In an array with unique keys the first key does not occur again. */
  lemma HeadKeyNotInTail<V>(b: seq<Entry<V>>)
    requires b != [] && UniqueKeys(b)
    ensures b[0].0 !in Keys(b[1..])
  {
  }

  /** One step of `Merge` on key order: adding key `k0` to the keys `ka`,
      then the fresh keys of `kb`, places the keys where adding the fresh keys
      of `[k0] + kb` would. */
  lemma {:induction false} MergeKeysStep(ka: seq<string>, k0: string, kb: seq<string>)
    requires k0 !in kb
    ensures var ka' := if k0 in ka then ka else ka + [k0];
      ka' + Fresh(kb, ka') == ka + Fresh([k0] + kb, ka)
  {
    var rest := Fresh(kb, ka);
    assert ([k0] + kb)[1..] == kb;
    if k0 in ka {
      assert Fresh([k0] + kb, ka) == rest;
    } else {
      FreshIgnoresAbsent(kb, ka, k0);
      assert Fresh([k0] + kb, ka) == [k0] + rest;
    }
  }

  /** One step of `Merge` on values: a key of `b` takes its value from `b`. */
  lemma {:induction false} MergeValuesStep<V>(b: seq<Entry<V>>, a': seq<Entry<V>>, r: seq<Entry<V>>)
    requires b != [] && UniqueKeys(b)
    requires b[0].0 in Keys(a') && Get(a', b[0].0) == b[0].1
    requires forall k :: k in Keys(b[1..]) ==> k in Keys(r) && Get(r, k) == Get(b[1..], k)
    requires forall k :: k in Keys(a') && k !in Keys(b[1..]) ==> k in Keys(r) && Get(r, k) == Get(a', k)
    ensures forall k :: k in Keys(b) ==> k in Keys(r) && Get(r, k) == Get(b, k)
  {
    KeysTail(b);
    forall k | k in Keys(b) ensures k in Keys(r) && Get(r, k) == Get(b, k) {
      if k == b[0].0 {
        HeadKeyNotInTail(b);
      } else {
        assert k in Keys(b[1..]);
        var i := IndexOf(b, k);
        assert IndexOf(b[1..], k) == i - 1;
      }
    }
  }

  /** PHP's `array_merge($a, $b)` for string keys: each entry of `b` in turn
      is assigned into `a`. */
  function Merge<V>(a: seq<Entry<V>>, b: seq<Entry<V>>): seq<Entry<V>>
    decreases |b|
  {
    if b == [] then a else Merge(Assign(a, b[0].0, b[0].1), b[1..])
  }

  /** What `array_merge` promises for string keys: the keys of `a` keep their
      positions, the keys of `b` that `a` lacks follow in `b`'s order, on a
      shared key the value from `b` wins, and every other value of `a` stays. */
  lemma {:induction false} MergeContents<V>(a: seq<Entry<V>>, b: seq<Entry<V>>)
    requires UniqueKeys(a) && UniqueKeys(b)
    ensures var r := Merge(a, b);
      && UniqueKeys(r)
      && Keys(r) == Keys(a) + Fresh(Keys(b), Keys(a))
      && (forall k :: k in Keys(r) <==> k in Keys(a) || k in Keys(b))
      && (forall k :: k in Keys(b) ==> k in Keys(r) && Get(r, k) == Get(b, k))
      && (forall k :: k in Keys(a) && k !in Keys(b) ==> k in Keys(r) && Get(r, k) == Get(a, k))
    decreases |b|
  {
    if b != [] {
      var a' := Assign(a, b[0].0, b[0].1);
      AssignContents(a, b[0].0, b[0].1);
      assert UniqueKeys(b[1..]);
      MergeContents(a', b[1..]);
      var r := Merge(a', b[1..]);
      KeysTail(b);
      HeadKeyNotInTail(b);
      MergeKeysStep(Keys(a), b[0].0, Keys(b[1..]));
      MergeValuesStep(b, a', r);
    }
  }
}
