/** Rows grouped by key as a dict of lists fills them, each list in the rows' order. */
module Grouping {
  /** The rows of a key among the first `n`, in order. */
  function RowsTo<K(==), R>(keyed: seq<(K, R)>, key: K, n: nat): seq<R>
    requires n <= |keyed|
  {
    if n == 0 then []
    else RowsTo(keyed, key, n - 1) + (if keyed[n - 1].0 == key then [keyed[n - 1].1] else [])
  }

  function RowsFor<K(==), R>(keyed: seq<(K, R)>, key: K): seq<R> {
    RowsTo(keyed, key, |keyed|)
  }

  function KeysTo<K(==), R>(keyed: seq<(K, R)>, n: nat): set<K>
    requires n <= |keyed|
  {
    set i | 0 <= i < n :: keyed[i].0
  }

  function Held<K, R>(grouped: map<K, seq<R>>, key: K): seq<R> {
    if key in grouped then grouped[key] else []
  }

  ghost predicate Grouped<K(!new), R>(keyed: seq<(K, R)>, n: nat, grouped: map<K, seq<R>>)
    requires n <= |keyed|
  {
    grouped.Keys == KeysTo(keyed, n) && forall key :: RowsTo(keyed, key, n) == Held(grouped, key)
  }

  lemma HeldNext<K, R>(grouped: map<K, seq<R>>, key: K, row: R, k: K)
    ensures Held(grouped[key := Held(grouped, key) + [row]], k) == Held(grouped, k) + (if k == key then [row] else [])
  {
  }

  lemma GroupOneMore<K(!new), R>(keyed: seq<(K, R)>, n: nat, grouped: map<K, seq<R>>)
    requires n < |keyed| && Grouped(keyed, n, grouped)
    ensures
      var (key, row) := keyed[n];
      Grouped(keyed, n + 1, grouped[key := Held(grouped, key) + [row]])
  {
    var (key, row) := keyed[n];
    assert KeysTo(keyed, n + 1) == KeysTo(keyed, n) + {key};
    var next := grouped[key := Held(grouped, key) + [row]];
    forall k ensures RowsTo(keyed, k, n + 1) == Held(next, k) {
      HeldNext(grouped, key, row, k);
      assert RowsTo(keyed, k, n) == Held(grouped, k);
    }
  }

  method Group<K(==, !new), R>(keyed: seq<(K, R)>) returns (grouped: map<K, seq<R>>)
    ensures grouped.Keys == KeysTo(keyed, |keyed|)
    ensures forall key :: key in grouped ==> grouped[key] == RowsFor(keyed, key) && grouped[key] != []
  {
    grouped := map[];
    for i := 0 to |keyed|
      invariant Grouped(keyed, i, grouped)
      invariant forall key :: key in grouped ==> grouped[key] != []
    {
      GroupOneMore(keyed, i, grouped);
      var (key, row) := keyed[i];
      grouped := grouped[key := Held(grouped, key) + [row]];
    }
    forall key | key in grouped ensures grouped[key] == RowsFor(keyed, key) {
      assert RowsTo(keyed, key, |keyed|) == Held(grouped, key);
    }
  }

  lemma CountOneMore<T>(s: seq<T>, n: nat, x: T)
    requires 0 < n <= |s|
    ensures multiset(s[..n])[x] == multiset(s[..n - 1])[x] + if s[n - 1] == x then 1 else 0
  {
    assert s[..n] == s[..n - 1] + [s[n - 1]];
  }

  lemma CountAppended<T>(s: seq<T>, last: T, x: T)
    ensures multiset(s + [last])[x] == multiset(s)[x] + if last == x then 1 else 0
  {
  }

  /** A key's rows are those stored under it, each as often. */
  lemma {:induction false} RowsAreCounted<K, R>(keyed: seq<(K, R)>, key: K, row: R, n: nat)
    requires n <= |keyed|
    ensures multiset(RowsTo(keyed, key, n))[row] == multiset(keyed[..n])[(key, row)]
  {
    if n > 0 {
      RowsAreCounted(keyed, key, row, n - 1);
      CountOneMore(keyed, n, (key, row));
      var before, last := RowsTo(keyed, key, n - 1), keyed[n - 1];
      if last.0 == key {
        CountAppended(before, last.1, row);
      } else {
        assert RowsTo(keyed, key, n) == before;
      }
    }
  }
}
