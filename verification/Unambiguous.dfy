/** `unambiguous` (seadex_types.py) keeps the keys that show up with one value only. */
module Unambiguous {
  /** `k` shows up, and always with `v`. */
  predicate Pairs<K(==), V(==)>(pairs: seq<(K, V)>, k: K, v: V) {
    (k, v) in pairs && forall i :: 0 <= i < |pairs| && pairs[i].0 == k ==> pairs[i].1 == v
  }

  /** The keys that show up. */
  function KeysOf<K(==), V(==)>(pairs: seq<(K, V)>): set<K> {
    set p <- pairs :: p.0
  }

  /** The value a key first shows up with. */
  function FirstValue<K(==), V(==)>(pairs: seq<(K, V)>, k: K): (v: V)
    requires k in KeysOf(pairs)
    ensures (k, v) in pairs
  {
    if pairs[0].0 == k then pairs[0].1 else FirstValue(pairs[1..], k)
  }

  predicate Single<K(==), V(==)>(pairs: seq<(K, V)>, k: K) {
    k in KeysOf(pairs) && forall i :: 0 <= i < |pairs| && pairs[i].0 == k ==> pairs[i].1 == FirstValue(pairs, k)
  }

  function Kept<K(==), V(==)>(pairs: seq<(K, V)>): map<K, V> {
    map k | k in KeysOf(pairs) && Single(pairs, k) :: FirstValue(pairs, k)
  }

  /** A key is kept with a value exactly when every pair of it has that value. */
  lemma KeptExactly<K, V>(pairs: seq<(K, V)>, k: K, v: V)
    ensures k in Kept(pairs) && Kept(pairs)[k] == v <==> Pairs(pairs, k, v)
  {
    if Pairs(pairs, k, v) {
      assert k in KeysOf(pairs);
      var i :| 0 <= i < |pairs| && pairs[i] == (k, FirstValue(pairs, k));
    }
  }

  /** What one more pair changes. */
  lemma {:induction false} OneMorePair<K, V>(pairs: seq<(K, V)>, pair: (K, V), k: K)
    ensures KeysOf(pairs + [pair]) == KeysOf(pairs) + {pair.0}
    ensures k in KeysOf(pairs) ==> FirstValue(pairs + [pair], k) == FirstValue(pairs, k)
    ensures k == pair.0 && k !in KeysOf(pairs) ==> FirstValue(pairs + [pair], k) == pair.1
  {
    if pairs != [] {
      assert pairs + [pair] == [pairs[0]] + (pairs[1..] + [pair]);
      assert pairs == [pairs[0]] + pairs[1..];
      OneMorePair(pairs[1..], pair, k);
    }
  }

  lemma SingleAfter<K, V>(pairs: seq<(K, V)>, pair: (K, V), k: K)
    ensures Single(pairs + [pair], k) <==>
            if k != pair.0 then Single(pairs, k)
            else k !in KeysOf(pairs) || (Single(pairs, k) && FirstValue(pairs, k) == pair.1)
  {
    var more := pairs + [pair];
    OneMorePair(pairs, pair, k);
    assert forall i :: 0 <= i < |pairs| ==> more[i] == pairs[i];
    assert more[|pairs|] == pair;
    assert forall i :: 0 <= i < |pairs| ==> pairs[i] in pairs && pairs[i].0 in KeysOf(pairs);
  }

  /** What the loop knows after some pairs. */
  ghost predicate Known<K(!new), V>(pairs: seq<(K, V)>, values: map<K, V>, ambiguous: set<K>) {
    && values.Keys == KeysOf(pairs)
    && (forall k :: k in values ==> values[k] == FirstValue(pairs, k))
    && (forall k :: k in ambiguous <==> k in KeysOf(pairs) && !Single(pairs, k))
  }

  lemma KnownAfter<K(!new), V>(pairs: seq<(K, V)>, values: map<K, V>, ambiguous: set<K>, key: K, value: V)
    requires Known(pairs, values, ambiguous)
    ensures Known(pairs + [(key, value)],
                  if key in values then values else values[key := value],
                  if key in values && values[key] != value then ambiguous + {key} else ambiguous)
  {
    var more := pairs + [(key, value)];
    var next := if key in values then values else values[key := value];
    var doubtful := if key in values && values[key] != value then ambiguous + {key} else ambiguous;
    OneMorePair(pairs, (key, value), key);
    forall k | k in next ensures next[k] == FirstValue(more, k) {
      OneMorePair(pairs, (key, value), k);
    }
    forall k ensures k in doubtful <==> k in KeysOf(more) && !Single(more, k) {
      SingleAfter(pairs, (key, value), k);
    }
  }

  /** The loop: the first value of each key, and the keys seen with another. */
  method FoldUnambiguous<K(==, !new), V(==)>(pairs: seq<(K, V)>) returns (kept: map<K, V>)
    ensures kept == Kept(pairs)
  {
    var values: map<K, V> := map[];
    var ambiguous: set<K> := {};
    for i := 0 to |pairs|
      invariant Known(pairs[..i], values, ambiguous)
    {
      var (key, value) := pairs[i];
      assert pairs[..i + 1] == pairs[..i] + [(key, value)];
      KnownAfter(pairs[..i], values, ambiguous, key, value);
      if key !in values {
        values := values[key := value];
      } else if values[key] != value {
        ambiguous := ambiguous + {key};
      }
    }
    assert pairs[..|pairs|] == pairs;
    kept := map k | k in values && k !in ambiguous :: values[k];
  }
}
