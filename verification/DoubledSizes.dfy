/** The sizes a disk holds more often than a listing places them (`_doubled_sizes`, planner.py). */
module DoubledSizes {
  import opened Wrappers

  /** The keys a placement gives one of the sizes. */
  function At<K(==)>(placement: map<K, int>, sizes: set<int>): set<K> {
    set key | key in placement && placement[key] in sizes
  }

  function Count<K(==)>(placement: map<K, int>, size: int): nat {
    |At(placement, {size})|
  }

  /** What is held on the listed keys. */
  function HeldOnListed<K(==)>(listed: map<K, int>, held: map<K, int>): map<K, int> {
    map key | key in held && key in listed :: held[key]
  }

  /** `_doubled_sizes`, as a set. */
  function Doubled<K(==)>(listed: map<K, int>, held: map<K, int>, sizes: set<int>): set<int> {
    var here := HeldOnListed(listed, held);
    set key | key in here && here[key] in sizes && Count(listed, here[key]) < Count(here, here[key]) :: here[key]
  }

  lemma {:induction false} CountsAddUp<K>(placement: map<K, int>, sizes: set<int>, size: int)
    requires size in sizes
    ensures |At(placement, sizes)| == |At(placement, sizes - {size})| + Count(placement, size)
  {
    assert At(placement, sizes) == At(placement, sizes - {size}) + At(placement, {size});
    assert At(placement, sizes - {size}) !! At(placement, {size});
  }

  /** A placement that gives each size as often gives them as often together. */
  lemma {:induction false} CountsCompare<K>(a: map<K, int>, b: map<K, int>, sizes: set<int>)
    requires forall size :: size in sizes ==> Count(a, size) <= Count(b, size)
    ensures |At(a, sizes)| <= |At(b, sizes)|
    ensures (exists size :: size in sizes && Count(a, size) < Count(b, size)) ==> |At(a, sizes)| < |At(b, sizes)|
    decreases sizes
  {
    if sizes == {} {
      assert At(a, sizes) == {} && At(b, sizes) == {};
    } else {
      var size := SomeOf(sizes);
      CountsAddUp(a, sizes, size);
      CountsAddUp(b, sizes, size);
      CountsCompare(a, b, sizes - {size});
    }
  }

  /** All the sizes of a placement. */
  function SizesIn<K(==)>(placement: map<K, int>): set<int> {
    set key | key in placement :: placement[key]
  }

  lemma AllKeys<K>(placement: map<K, int>, sizes: set<int>)
    requires SizesIn(placement) <= sizes
    ensures At(placement, sizes) == placement.Keys
  {
    forall key | key in placement ensures key in At(placement, sizes) {
      assert placement[key] in SizesIn(placement);
    }
  }

  /** Pigeonhole: a doubled size leaves some listed size short. */
  lemma DoubledLeavesOneShort<K>(listed: map<K, int>, held: map<K, int>, sizes: set<int>)
    requires Doubled(listed, held, sizes) != {}
    ensures exists short :: short in SizesIn(listed) && Count(HeldOnListed(listed, held), short) < Count(listed, short)
  {
    var here := HeldOnListed(listed, held);
    var doubled := SomeOf(Doubled(listed, held, sizes));
    var all := SizesIn(listed) + SizesIn(here);
    assert doubled in all && Count(listed, doubled) < Count(here, doubled);
    if forall size :: size in SizesIn(listed) ==> Count(listed, size) <= Count(here, size) {
      forall size | size in all ensures Count(listed, size) <= Count(here, size) {
        if size !in SizesIn(listed) {
          assert At(listed, {size}) == {};
        }
      }
      CountsCompare(listed, here, all);
      AllKeys(listed, all);
      AllKeys(here, all);
      Within(here.Keys, listed.Keys);
    }
  }

  lemma {:induction false} Within<K>(inner: set<K>, outer: set<K>)
    requires inner <= outer
    ensures |inner| <= |outer|
  {
    assert outer == inner + (outer - inner);
  }

  lemma {:induction false} ImageCount<K>(keys: set<K>, onto: set<K>, pi: map<K, K>)
    requires keys <= pi.Keys
    requires forall a, b :: a in keys && b in keys && pi[a] == pi[b] ==> a == b
    requires forall a :: a in keys ==> pi[a] in onto
    ensures |keys| <= |onto|
  {
    if keys != {} {
      var a := SomeOf(keys);
      ImageCount(keys - {a}, onto - {pi[a]}, pi);
    }
  }

  lemma NoneDoubled<K>(listed: map<K, int>, held: map<K, int>, sizes: set<int>)
    requires forall size :: Count(HeldOnListed(listed, held), size) <= Count(listed, size)
    ensures Doubled(listed, held, sizes) == {}
  {
  }

  /** A copy that only moves listed sizes around doubles none: each held file stands for a listed one of its own. */
  lemma PermutedDoublesNone<K>(listed: map<K, int>, held: map<K, int>, sizes: set<int>, pi: map<K, K>)
    requires pi.Keys == held.Keys
    requires forall a :: a in pi ==> pi[a] in listed && held[a] == listed[pi[a]]
    requires forall a, b :: a in pi && b in pi && pi[a] == pi[b] ==> a == b
    ensures Doubled(listed, held, sizes) == {}
  {
    var here := HeldOnListed(listed, held);
    forall size ensures Count(here, size) <= Count(listed, size) {
      ImageCount(At(here, {size}), At(listed, {size}), pi);
    }
    NoneDoubled(listed, held, sizes);
  }

  /** A size that is not doubled is held no more often than it is listed. */
  lemma UndoubledIsCovered<K>(listed: map<K, int>, held: map<K, int>, sizes: set<int>, size: int)
    requires SizesIn(HeldOnListed(listed, held)) <= sizes && size !in Doubled(listed, held, sizes)
    ensures Count(HeldOnListed(listed, held), size) <= Count(listed, size)
  {
    var here := HeldOnListed(listed, held);
    if At(here, {size}) != {} {
      var key := SomeOf(At(here, {size}));
      assert here[key] in SizesIn(here);
    }
  }

  /** When every listed key holds a file and every held size is asked for, none is doubled exactly when each size is
    * held as often as it is listed.
    */
  lemma NoneDoubledIff<K>(listed: map<K, int>, held: map<K, int>, sizes: set<int>)
    requires listed.Keys <= held.Keys && SizesIn(HeldOnListed(listed, held)) <= sizes
    ensures Doubled(listed, held, sizes) == {} <==>
            forall size :: Count(HeldOnListed(listed, held), size) == Count(listed, size)
  {
    var here := HeldOnListed(listed, held);
    var all := SizesIn(listed) + SizesIn(here);
    if Doubled(listed, held, sizes) == {} {
      forall size ensures Count(here, size) <= Count(listed, size) {
        UndoubledIsCovered(listed, held, sizes, size);
      }
      CountsCompare(here, listed, all);
      AllKeys(listed, all);
      AllKeys(here, all);
      assert here.Keys == listed.Keys;
      forall size ensures Count(here, size) == Count(listed, size) {
        if size !in all {
          assert At(here, {size}) == {} && At(listed, {size}) == {};
        }
      }
    } else {
      var doubled := SomeOf(Doubled(listed, held, sizes));
      assert Count(here, doubled) != Count(listed, doubled);
    }
  }
}
