/** The one-word-off title match against the edit distance (`_one_word_apart`, episode_titles.py). */
module NearTitles {
  import opened Wrappers

  type Words = seq<string>

  /** Where the first `n` words of two equally long titles differ. */
  function ApartTo(words: Words, title: Words, n: nat): seq<nat>
    requires n <= |words| == |title|
  {
    if n == 0 then []
    else ApartTo(words, title, n - 1) + (if words[n - 1] != title[n - 1] then [n - 1] else [])
  }

  function Apart(words: Words, title: Words): seq<nat>
    requires |words| == |title|
  {
    ApartTo(words, title, |words|)
  }

  /** The title's first `n` words but for the places listed. */
  function BesidesTo(title: Words, apart: seq<nat>, n: nat): Words
    requires n <= |title|
  {
    if n == 0 then [] else BesidesTo(title, apart, n - 1) + (if n - 1 in apart then [] else [title[n - 1]])
  }

  function Besides(title: Words, apart: seq<nat>): Words {
    BesidesTo(title, apart, |title|)
  }

  function Without(words: Words, i: nat): Words
    requires i < |words|
  {
    words[..i] + words[i + 1..]
  }

  predicate OneDropped(longer: Words, shorter: Words) {
    exists i :: 0 <= i < |longer| && Without(longer, i) == shorter
  }

  /** `_one_word_apart`. */
  function OneWordApart(words: Words, title: Words): Option<Words> {
    if |words| == |title| then
      var apart := Apart(words, title);
      if |apart| <= 1 then Some(Besides(title, apart)) else None
    else
      var longer, shorter := if |words| > |title| then words else title, if |words| > |title| then title else words;
      if |longer| == |shorter| + 1 && OneDropped(longer, shorter) then Some(shorter) else None
  }

  function Min(a: nat, b: nat): nat {
    if a < b then a else b
  }

  function Max(a: nat, b: nat): nat {
    if a < b then b else a
  }

  /** The word-level edit distance: swaps, additions and drops. */
  function Distance(a: Words, b: Words): nat
    decreases |a| + |b|
  {
    if a == [] then |b|
    else if b == [] then |a|
    else
      Min(Distance(a[1..], b[1..]) + (if a[0] == b[0] then 0 else 1),
          Min(Distance(a[1..], b) + 1, Distance(a, b[1..]) + 1))
  }

  predicate Subsequence(s: Words, of: Words)
    decreases |of|
  {
    s == [] || (of != [] && if s[0] == of[0] then Subsequence(s[1..], of[1..]) else Subsequence(s, of[1..]))
  }

  lemma {:induction false} DistanceIsSymmetric(a: Words, b: Words)
    ensures Distance(a, b) == Distance(b, a)
    decreases |a| + |b|
  {
    if a != [] && b != [] {
      DistanceIsSymmetric(a[1..], b[1..]);
      DistanceIsSymmetric(a[1..], b);
      DistanceIsSymmetric(a, b[1..]);
    }
  }

  lemma {:induction false} LengthsBound(a: Words, b: Words)
    ensures Distance(a, b) >= |a| - |b| && Distance(a, b) >= |b| - |a|
    decreases |a| + |b|
  {
    if a != [] && b != [] {
      LengthsBound(a[1..], b[1..]);
      LengthsBound(a[1..], b);
      LengthsBound(a, b[1..]);
    }
  }

  lemma HeadAndTail(a: Words, b: Words)
    requires a != [] && b != []
    ensures a == b <==> a[0] == b[0] && a[1..] == b[1..]
  {
    assert a == [a[0]] + a[1..] && b == [b[0]] + b[1..];
  }

  lemma {:induction false} ZeroIsEqual(a: Words, b: Words)
    ensures Distance(a, b) == 0 <==> a == b
    decreases |a| + |b|
  {
    if a != [] && b != [] {
      HeadAndTail(a, b);
      ZeroIsEqual(a[1..], b[1..]);
    }
  }

  /** The lengths bound the distance, and only equal titles are at none. */
  lemma DistanceBounds(a: Words, b: Words)
    ensures Distance(a, b) >= |a| - |b| && Distance(a, b) >= |b| - |a|
    ensures Distance(a, b) == 0 <==> a == b
  {
    LengthsBound(a, b);
    ZeroIsEqual(a, b);
  }

  function Mismatches(a: Words, b: Words): nat
    requires |a| == |b|
  {
    if a == [] then 0 else (if a[0] == b[0] then 0 else 1) + Mismatches(a[1..], b[1..])
  }

  lemma {:induction false} NoMismatch(a: Words, b: Words)
    requires |a| == |b|
    ensures Mismatches(a, b) == 0 <==> a == b
  {
    if a != [] {
      NoMismatch(a[1..], b[1..]);
      assert a == [a[0]] + a[1..] && b == [b[0]] + b[1..];
      assert a == b ==> a[1..] == b[1..];
    }
  }

  /** Equally long titles are a word off exactly when one place differs. */
  lemma {:induction false} SwapIsNear(a: Words, b: Words)
    requires |a| == |b|
    ensures Distance(a, b) <= 1 <==> Mismatches(a, b) <= 1
  {
    if a != [] {
      SwapIsNear(a[1..], b[1..]);
      DistanceBounds(a[1..], b);
      DistanceBounds(a, b[1..]);
      DistanceBounds(a[1..], b[1..]);
      NoMismatch(a[1..], b[1..]);
    }
  }

  lemma WithoutLater(a: Words, i: nat)
    requires i + 1 < |a|
    ensures Without(a, i + 1) == [a[0]] + Without(a[1..], i)
  {
  }

  /** Which word to drop: the first, or one of the rest when the heads agree. */
  lemma OneDroppedUnfolds(a: Words, b: Words)
    requires |a| == |b| + 1 && b != []
    ensures OneDropped(a, b) <==> a[1..] == b || (a[0] == b[0] && OneDropped(a[1..], b[1..]))
  {
    assert Without(a, 0) == a[1..];
    forall i: nat | i + 1 < |a| ensures Without(a, i + 1) == b <==> a[0] == b[0] && Without(a[1..], i) == b[1..] {
      WithoutLater(a, i);
      HeadAndTail([a[0]] + Without(a[1..], i), b);
    }
    if a[0] == b[0] && OneDropped(a[1..], b[1..]) {
      var i: nat :| i < |a[1..]| && Without(a[1..], i) == b[1..];
      assert Without(a, i + 1) == b;
    }
    if OneDropped(a, b) && a[1..] != b {
      var i: nat :| i < |a| && Without(a, i) == b;
      assert i > 0;
      var k: nat := i - 1;
      assert Without(a, k + 1) == b;
      assert 0 <= k < |a[1..]| && Without(a[1..], k) == b[1..];
    }
  }

  /** A title a word longer is a word off exactly when dropping one of its words gives the other. */
  lemma {:induction false} DropIsNear(a: Words, b: Words)
    requires |a| == |b| + 1
    ensures Distance(a, b) <= 1 <==> OneDropped(a, b)
  {
    if b == [] {
      assert Without(a, 0) == b;
    } else {
      DropIsNear(a[1..], b[1..]);
      OneDroppedUnfolds(a, b);
      DistanceBounds(a[1..], b);
      DistanceBounds(a, b[1..]);
      DistanceBounds(a[1..], b[1..]);
    }
  }

  lemma {:induction false} MismatchesAtEnd(a: Words, b: Words)
    requires |a| == |b| > 0
    ensures
      var n := |a| - 1;
      Mismatches(a, b) == Mismatches(a[..n], b[..n]) + (if a[n] == b[n] then 0 else 1)
  {
    var n := |a| - 1;
    if n > 0 {
      MismatchesAtEnd(a[1..], b[1..]);
      assert a[1..][..n - 1] == a[..n][1..] && b[1..][..n - 1] == b[..n][1..];
    }
  }

  lemma {:induction false} SubsequenceMore(s: Words, of: Words, w: string)
    requires Subsequence(s, of)
    ensures Subsequence(s, of + [w]) && Subsequence(s + [w], of + [w])
    decreases |of|
  {
    if of == [] {
      assert s + [w] == [w] && (of + [w])[1..] == [];
      assert Subsequence([], []);
    } else {
      assert (of + [w])[1..] == of[1..] + [w];
      if s == [] {
        SubsequenceMore([], of[1..], w);
        assert s + [w] == [w];
        SubsequenceMore(s, of[1..], w);
        assert [w][1..] == [];
      } else if s[0] == of[0] {
        SubsequenceMore(s[1..], of[1..], w);
        assert (s + [w])[1..] == s[1..] + [w];
      } else {
        SubsequenceMore(s, of[1..], w);
        assert (s + [w])[0] == s[0];
      }
    }
  }

  lemma MismatchesOfMore(words: Words, title: Words, n: nat)
    requires n < |words| == |title|
    ensures Mismatches(words[..n + 1], title[..n + 1]) ==
            Mismatches(words[..n], title[..n]) + (if words[n] == title[n] then 0 else 1)
  {
    MismatchesAtEnd(words[..n + 1], title[..n + 1]);
    assert words[..n + 1][..n] == words[..n] && title[..n + 1][..n] == title[..n];
  }

  /** The words kept are in both titles, in order, all but the mismatches. */
  lemma {:induction false} BesidesIsShared(words: Words, title: Words, apart: seq<nat>, n: nat)
    requires n <= |words| == |title|
    requires forall i :: 0 <= i < |words| ==> (i in apart <==> words[i] != title[i])
    ensures Subsequence(BesidesTo(title, apart, n), words[..n]) && Subsequence(BesidesTo(title, apart, n), title[..n])
    ensures |BesidesTo(title, apart, n)| == n - Mismatches(words[..n], title[..n])
  {
    if n > 0 {
      var before := BesidesTo(title, apart, n - 1);
      BesidesIsShared(words, title, apart, n - 1);
      MismatchesOfMore(words, title, n - 1);
      assert words[..n] == words[..n - 1] + [words[n - 1]] && title[..n] == title[..n - 1] + [title[n - 1]];
      SubsequenceMore(before, words[..n - 1], words[n - 1]);
      SubsequenceMore(before, title[..n - 1], title[n - 1]);
      assert before + [] == before;
    }
  }

  lemma {:induction false} ApartHolds(words: Words, title: Words, n: nat)
    requires n <= |words| == |title|
    ensures forall i :: i in ApartTo(words, title, n) <==> 0 <= i < n && words[i] != title[i]
    ensures |ApartTo(words, title, n)| == Mismatches(words[..n], title[..n])
  {
    if n > 0 {
      ApartHolds(words, title, n - 1);
      MismatchesOfMore(words, title, n - 1);
    }
  }

  lemma {:induction false} SubsequenceOfSelf(s: Words)
    ensures Subsequence(s, s)
  {
    if s != [] {
      SubsequenceOfSelf(s[1..]);
    }
  }

  lemma {:induction false} DroppedIsShared(longer: Words, i: nat)
    requires i < |longer|
    ensures Subsequence(Without(longer, i), longer)
  {
    if i == 0 {
      SkipOne(longer);
      assert Without(longer, 0) == longer[1..];
    } else {
      DroppedIsShared(longer[1..], i - 1);
      assert Without(longer, i)[1..] == Without(longer[1..], i - 1);
    }
  }

  lemma {:induction false} SkipOne(longer: Words)
    requires longer != []
    ensures Subsequence(longer[1..], longer)
  {
    SubsequenceOfSelf(longer[1..]);
    if |longer| > 1 && longer[1] == longer[0] {
      SkipOne(longer[1..]);
      assert longer[1..][1..] == longer[2..];
    }
  }

  lemma SwapCase(words: Words, title: Words)
    requires |words| == |title|
    ensures |Apart(words, title)| == Mismatches(words, title)
    ensures
      var shared := Besides(title, Apart(words, title));
      Subsequence(shared, words) && Subsequence(shared, title) && |shared| == |title| - Mismatches(words, title)
  {
    ApartHolds(words, title, |words|);
    BesidesIsShared(words, title, Apart(words, title), |words|);
    assert words[..|words|] == words && title[..|title|] == title;
  }

  /** Near-title match: words answer exactly when they are at most one edit from the title, and the answer is a common
    * subsequence of the two as long as the longer less the distance.
    */
  lemma NearIsOneEdit(words: Words, title: Words)
    ensures
      var shared := OneWordApart(words, title);
      && (shared.Some? <==> Distance(words, title) <= 1)
      && (shared.Some? ==>
            && Subsequence(shared.value, words) && Subsequence(shared.value, title)
            && |shared.value| == Max(|words|, |title|) - Distance(words, title))
  {
    DistanceBounds(words, title);
    if |words| == |title| {
      SwapIsNear(words, title);
      SwapCase(words, title);
      NoMismatch(words, title);
    } else {
      var longer, shorter := if |words| > |title| then words else title, if |words| > |title| then title else words;
      DistanceIsSymmetric(words, title);
      DropCase(longer, shorter);
    }
  }

  lemma DropCase(longer: Words, shorter: Words)
    requires |longer| > |shorter|
    ensures |longer| == |shorter| + 1 && OneDropped(longer, shorter) <==> Distance(longer, shorter) <= 1
    ensures Subsequence(shorter, shorter)
    ensures |longer| == |shorter| + 1 && OneDropped(longer, shorter) ==> Subsequence(shorter, longer)
  {
    SubsequenceOfSelf(shorter);
    DistanceBounds(longer, shorter);
    if |longer| == |shorter| + 1 {
      DropIsNear(longer, shorter);
      if i :| 0 <= i < |longer| && Without(longer, i) == shorter {
        DroppedIsShared(longer, i);
      }
    }
  }
}
