/** Folding names and maps of them: each name's leaf once, in first-seen order (manual_import.py). The lemmas hold of
  * any kind of name, and `leaf` is the folding (`normalized_leaf`).
  */
module NameFolding {
  import opened Wrappers

  /** A dict from names to ids, in its order. */
  type IdMap<N> = seq<(N, seq<int>)>

  predicate Settles<N(==)>(leaf: N -> N, name: N) {
    leaf(leaf(name)) == leaf(name)
  }

  /** The folding settles every name in one go. */
  ghost predicate Idempotent<N(!new)>(leaf: N -> N) {
    forall name :: Settles(leaf, name)
  }

  function Members<N(==)>(names: seq<N>): set<N> {
    set n <- names
  }

  function LeavesOf<N(==)>(leaf: N -> N, names: seq<N>): set<N> {
    set n <- names :: leaf(n)
  }

  /** The first `k` names' leaves, each once. */
  function InOrderTo<N(==)>(leaf: N -> N, names: seq<N>, k: nat): seq<N>
    requires k <= |names|
  {
    if k == 0 then []
    else
      var before, last := InOrderTo(leaf, names, k - 1), leaf(names[k - 1]);
      if last in before then before else before + [last]
  }

  /** `_normalized_names_in_order`. */
  function InOrder<N(==)>(leaf: N -> N, names: seq<N>): seq<N> {
    InOrderTo(leaf, names, |names|)
  }

  function LackingTo<N(==)>(names: seq<N>, taken: set<N>, k: nat): seq<N>
    requires k <= |names|
  {
    if k == 0 then []
    else LackingTo(names, taken, k - 1) + (if names[k - 1] in taken then [] else [names[k - 1]])
  }

  function Lacking<N(==)>(names: seq<N>, taken: set<N>): seq<N> {
    LackingTo(names, taken, |names|)
  }

  predicate Distinct<N(==)>(names: seq<N>) {
    forall i, j :: 0 <= i < j < |names| ==> names[i] != names[j]
  }

  /** Settled names, each once. */
  predicate SettledNames<N(==)>(leaf: N -> N, names: seq<N>) {
    Distinct(names) && forall i :: 0 <= i < |names| ==> leaf(names[i]) == names[i]
  }

  lemma MembersOfMore<N>(names: seq<N>, name: N)
    ensures Members(names + [name]) == Members(names) + {name}
  {
  }

  lemma LeavesOfConcat<N>(leaf: N -> N, a: seq<N>, b: seq<N>)
    ensures LeavesOf(leaf, a + b) == LeavesOf(leaf, a) + LeavesOf(leaf, b)
  {
  }

  lemma LeavesOfMore<N>(leaf: N -> N, names: seq<N>, k: nat)
    requires k < |names|
    ensures LeavesOf(leaf, names[..k + 1]) == LeavesOf(leaf, names[..k]) + {leaf(names[k])}
    ensures Members(names[..k + 1]) == Members(names[..k]) + {names[k]}
  {
    assert names[..k + 1] == names[..k] + [names[k]];
  }

  lemma SettledGoesOn<N>(leaf: N -> N, before: seq<N>, name: N)
    requires SettledNames(leaf, before) && leaf(name) == name && name !in Members(before)
    ensures SettledNames(leaf, before + [name])
  {
    forall i | 0 <= i < |before| ensures before[i] != name {
      assert before[i] in Members(before);
    }
  }

  lemma {:induction false} InOrderHolds<N(!new)>(leaf: N -> N, names: seq<N>, k: nat)
    requires Idempotent(leaf) && k <= |names|
    ensures SettledNames(leaf, InOrderTo(leaf, names, k))
    ensures Members(InOrderTo(leaf, names, k)) == LeavesOf(leaf, names[..k])
  {
    if k > 0 {
      var before, last := InOrderTo(leaf, names, k - 1), leaf(names[k - 1]);
      InOrderHolds(leaf, names, k - 1);
      assert Settles(leaf, names[k - 1]);
      LeavesOfMore(leaf, names, k - 1);
      assert last in before <==> last in Members(before);
      if last !in before {
        MembersOfMore(before, last);
        SettledGoesOn(leaf, before, last);
      }
    }
  }

  lemma InOrderIs<N(!new)>(leaf: N -> N, names: seq<N>)
    requires Idempotent(leaf)
    ensures SettledNames(leaf, InOrder(leaf, names))
    ensures Members(InOrder(leaf, names)) == LeavesOf(leaf, names)
  {
    InOrderHolds(leaf, names, |names|);
    assert names[..|names|] == names;
  }

  lemma {:induction false} InOrderStays<N>(leaf: N -> N, names: seq<N>, k: nat)
    requires SettledNames(leaf, names) && k <= |names|
    ensures InOrderTo(leaf, names, k) == names[..k]
  {
    if k > 0 {
      InOrderStays(leaf, names, k - 1);
      assert names[k - 1] !in names[..k - 1];
      assert names[..k] == names[..k - 1] + [names[k - 1]];
    }
  }

  lemma {:induction false} LackingHolds<N>(leaf: N -> N, names: seq<N>, taken: set<N>, k: nat)
    requires SettledNames(leaf, names) && k <= |names|
    ensures SettledNames(leaf, LackingTo(names, taken, k))
    ensures Members(LackingTo(names, taken, k)) == Members(names[..k]) - taken
  {
    if k > 0 {
      var before, last := LackingTo(names, taken, k - 1), names[k - 1];
      LackingHolds(leaf, names, taken, k - 1);
      LeavesOfMore(leaf, names, k - 1);
      if last in taken {
        assert before + [] == before;
      } else {
        MembersOfMore(before, last);
        assert last !in names[..k - 1] && last !in Members(names[..k - 1]);
        SettledGoesOn(leaf, before, last);
      }
    }
  }

  lemma LackingFrom<N>(leaf: N -> N, names: seq<N>, taken: set<N>)
    requires SettledNames(leaf, names)
    ensures SettledNames(leaf, Lacking(names, taken))
    ensures Members(Lacking(names, taken)) == Members(names) - taken
  {
    LackingHolds(leaf, names, taken, |names|);
    assert names[..|names|] == names;
  }

  lemma {:induction false} LackingStays<N>(names: seq<N>, taken: set<N>, k: nat)
    requires Members(names) !! taken && k <= |names|
    ensures LackingTo(names, taken, k) == names[..k]
  {
    if k > 0 {
      LackingStays(names, taken, k - 1);
      assert names[k - 1] in Members(names);
      assert names[..k] == names[..k - 1] + [names[k - 1]];
    }
  }

  lemma {:induction false} LackingIs<N>(names: seq<N>, taken: set<N>, k: nat, name: N)
    requires k <= |names|
    ensures name in LackingTo(names, taken, k) <==> name in names[..k] && name !in taken
  {
    if k > 0 {
      LackingIs(names, taken, k - 1, name);
      assert names[..k] == names[..k - 1] + [names[k - 1]];
    }
  }

  lemma SettledLeaves<N>(leaf: N -> N, names: seq<N>)
    requires SettledNames(leaf, names)
    ensures LeavesOf(leaf, names) == Members(names)
  {
    forall n | n in names ensures leaf(n) == n {
      var i :| 0 <= i < |names| && names[i] == n;
    }
    forall n | n in Members(names) ensures n in LeavesOf(leaf, names) {
      assert n in names && leaf(n) == n;
    }
  }

  // Maps.

  function NonzeroTo(ids: seq<int>, k: nat): seq<int>
    requires k <= |ids|
  {
    if k == 0 then [] else NonzeroTo(ids, k - 1) + (if ids[k - 1] != 0 then [ids[k - 1]] else [])
  }

  function Nonzero(ids: seq<int>): seq<int> {
    NonzeroTo(ids, |ids|)
  }

  function NamesIn<N(==)>(m: IdMap<N>): set<N> {
    set e <- m :: e.0
  }

  /** The ids a map holds for a name. */
  function Get<N(==)>(m: IdMap<N>, name: N): Option<seq<int>> {
    if m == [] then None
    else if m[0].0 == name then Some(m[0].1)
    else Get(m[1..], name)
  }

  function NormalizedTo<N(==)>(leaf: N -> N, m: IdMap<N>, k: nat): IdMap<N>
    requires k <= |m|
  {
    if k == 0 then []
    else
      var before, (name, ids) := NormalizedTo(leaf, m, k - 1), m[k - 1];
      if Nonzero(ids) != [] && leaf(name) !in NamesIn(before) then before + [(leaf(name), Nonzero(ids))] else before
  }

  /** `_normalized_map`: real ids only, and the first of two names with one leaf. */
  function NormalizedMap<N(==)>(leaf: N -> N, m: IdMap<N>): IdMap<N> {
    NormalizedTo(leaf, m, |m|)
  }

  /** `_normalized_map` as its loop. */
  method NormalizeMap<N(==)>(leaf: N -> N, m: IdMap<N>) returns (normalized: IdMap<N>)
    ensures normalized == NormalizedMap(leaf, m)
  {
    normalized := [];
    for i := 0 to |m|
      invariant normalized == NormalizedTo(leaf, m, i)
    {
      var clean := Nonzero(m[i].1);
      if clean != [] && leaf(m[i].0) !in NamesIn(normalized) {
        normalized := normalized + [(leaf(m[i].0), clean)];
      }
    }
  }

  function JoinedTo<N(==)>(base: IdMap<N>, added: IdMap<N>, k: nat): IdMap<N>
    requires k <= |added|
  {
    if k == 0 then base
    else
      var before := JoinedTo(base, added, k - 1);
      if added[k - 1].0 in NamesIn(base) then before else before + [added[k - 1]]
  }

  /** `joined_map`. */
  function JoinedMap<N(==)>(base: IdMap<N>, added: IdMap<N>): IdMap<N> {
    JoinedTo(base, added, |added|)
  }

  /** The leaves a normalized map holds: those of the entries with a real id. */
  function Placed<N(==)>(leaf: N -> N, m: IdMap<N>): set<N> {
    set e <- m | Nonzero(e.1) != [] :: leaf(e.0)
  }

  predicate DistinctNames<N(==)>(m: IdMap<N>) {
    forall i, j :: 0 <= i < j < |m| ==> m[i].0 != m[j].0
  }

  /** Settled names, each once, and real ids only. */
  predicate SettledMap<N(==)>(leaf: N -> N, m: IdMap<N>) {
    DistinctNames(m) && forall i :: 0 <= i < |m| ==> leaf(m[i].0) == m[i].0 && m[i].1 != [] && 0 !in m[i].1
  }

  lemma {:induction false} NonzeroHolds(ids: seq<int>, k: nat)
    requires k <= |ids|
    ensures forall x :: x in NonzeroTo(ids, k) <==> x in ids[..k] && x != 0
    ensures 0 !in ids ==> NonzeroTo(ids, k) == ids[..k]
  {
    if k > 0 {
      NonzeroHolds(ids, k - 1);
      assert ids[..k] == ids[..k - 1] + [ids[k - 1]];
    }
  }

  lemma NonzeroIs(ids: seq<int>)
    ensures forall x :: x in Nonzero(ids) <==> x in ids && x != 0
    ensures 0 !in ids ==> Nonzero(ids) == ids
  {
    NonzeroHolds(ids, |ids|);
    assert ids[..|ids|] == ids;
  }

  lemma NamesOfMore<N>(m: IdMap<N>, e: (N, seq<int>))
    ensures NamesIn(m + [e]) == NamesIn(m) + {e.0}
  {
  }

  lemma PlacedOfMore<N>(leaf: N -> N, m: IdMap<N>, e: (N, seq<int>))
    ensures Placed(leaf, m + [e]) == Placed(leaf, m) + (if Nonzero(e.1) != [] then {leaf(e.0)} else {})
  {
  }

  lemma SettledMapGoesOn<N>(leaf: N -> N, before: IdMap<N>, e: (N, seq<int>))
    requires SettledMap(leaf, before)
    requires leaf(e.0) == e.0 && e.1 != [] && 0 !in e.1 && e.0 !in NamesIn(before)
    ensures SettledMap(leaf, before + [e])
  {
    forall i | 0 <= i < |before| ensures before[i].0 != e.0 {
      assert before[i] in before;
    }
  }

  lemma {:induction false} NormalizedMapHolds<N(!new)>(leaf: N -> N, m: IdMap<N>, k: nat)
    requires Idempotent(leaf) && k <= |m|
    ensures SettledMap(leaf, NormalizedTo(leaf, m, k))
  {
    if k > 0 {
      var before, name, ids := NormalizedTo(leaf, m, k - 1), m[k - 1].0, m[k - 1].1;
      NormalizedMapHolds(leaf, m, k - 1);
      NonzeroIs(ids);
      assert Settles(leaf, name);
      if Nonzero(ids) != [] && leaf(name) !in NamesIn(before) {
        SettledMapGoesOn(leaf, before, (leaf(name), Nonzero(ids)));
      }
    }
  }

  /** The settled beginning of a map stays as it is. */
  lemma {:induction false} SettledMapStays<N>(leaf: N -> N, m: IdMap<N>, n: nat, k: nat)
    requires k <= n <= |m| && SettledMap(leaf, m[..n])
    ensures NormalizedTo(leaf, m, k) == m[..k]
  {
    if k > 0 {
      SettledMapStays(leaf, m, n, k - 1);
      assert m[k - 1] == m[..n][k - 1];
      NonzeroIs(m[k - 1].1);
      forall e | e in m[..k - 1] ensures e.0 != m[k - 1].0 {
        var i :| 0 <= i < k - 1 && m[i] == e;
        assert m[..n][i] == e;
      }
      assert m[..k] == m[..k - 1] + [m[k - 1]];
    }
  }

  lemma SettledMapIs<N>(leaf: N -> N, m: IdMap<N>)
    requires SettledMap(leaf, m)
    ensures NormalizedMap(leaf, m) == m
  {
    assert m[..|m|] == m;
    SettledMapStays(leaf, m, |m|, |m|);
  }

  lemma {:induction false} NormalizedNamesTo<N>(leaf: N -> N, m: IdMap<N>, k: nat)
    requires k <= |m|
    ensures NamesIn(NormalizedTo(leaf, m, k)) == Placed(leaf, m[..k])
  {
    if k > 0 {
      NormalizedNamesTo(leaf, m, k - 1);
      assert m[..k] == m[..k - 1] + [m[k - 1]];
      PlacedOfMore(leaf, m[..k - 1], m[k - 1]);
      NamesOfMore(NormalizedTo(leaf, m, k - 1), (leaf(m[k - 1].0), Nonzero(m[k - 1].1)));
    }
  }

  lemma NormalizedNames<N>(leaf: N -> N, m: IdMap<N>)
    ensures NamesIn(NormalizedMap(leaf, m)) == Placed(leaf, m)
  {
    NormalizedNamesTo(leaf, m, |m|);
    assert m[..|m|] == m;
  }

  lemma SettledMapNames<N>(leaf: N -> N, m: IdMap<N>, name: N)
    requires SettledMap(leaf, m) && name in NamesIn(m)
    ensures leaf(name) == name
  {
    var i :| 0 <= i < |m| && m[i].0 == name;
  }

  /** One more entry, whose name the base lacks or has placed itself. */
  lemma JoinOnePlaces<N>(leaf: N -> N, base: IdMap<N>, added: IdMap<N>, k: nat)
    requires SettledMap(leaf, base) && k < |added|
    requires NamesIn(base) <= Placed(leaf, JoinedTo(base, added, k))
    ensures Placed(leaf, JoinedTo(base, added, k + 1)) ==
            Placed(leaf, JoinedTo(base, added, k)) + (if Nonzero(added[k].1) != [] then {leaf(added[k].0)} else {})
  {
    if added[k].0 in NamesIn(base) {
      SettledMapNames(leaf, base, added[k].0);
    } else {
      PlacedOfMore(leaf, JoinedTo(base, added, k), added[k]);
    }
  }

  function PlacedTo<N(==)>(leaf: N -> N, m: IdMap<N>, k: nat): set<N>
    requires k <= |m|
  {
    if k == 0 then {} else PlacedTo(leaf, m, k - 1) + (if Nonzero(m[k - 1].1) != [] then {leaf(m[k - 1].0)} else {})
  }

  lemma {:induction false} PlacedToIs<N>(leaf: N -> N, m: IdMap<N>, k: nat)
    requires k <= |m|
    ensures PlacedTo(leaf, m, k) == Placed(leaf, m[..k])
  {
    if k > 0 {
      PlacedToIs(leaf, m, k - 1);
      assert m[..k] == m[..k - 1] + [m[k - 1]];
      PlacedOfMore(leaf, m[..k - 1], m[k - 1]);
    }
  }

  lemma {:induction false} JoinedPlacesTo<N>(leaf: N -> N, base: IdMap<N>, added: IdMap<N>, k: nat)
    requires SettledMap(leaf, base) && k <= |added|
    ensures Placed(leaf, JoinedTo(base, added, k)) == NamesIn(base) + PlacedTo(leaf, added, k)
  {
    if k == 0 {
      NormalizedNames(leaf, base);
      SettledMapIs(leaf, base);
    } else {
      JoinedPlacesTo(leaf, base, added, k - 1);
      JoinOnePlaces(leaf, base, added, k - 1);
    }
  }

  lemma JoinedPlaces<N>(leaf: N -> N, base: IdMap<N>, added: IdMap<N>)
    requires SettledMap(leaf, base)
    ensures Placed(leaf, JoinedMap(base, added)) == NamesIn(base) + Placed(leaf, added)
  {
    JoinedPlacesTo(leaf, base, added, |added|);
    PlacedToIs(leaf, added, |added|);
    assert added[..|added|] == added;
  }

  lemma {:induction false} JoinedKeepsBase<N>(base: IdMap<N>, added: IdMap<N>, k: nat)
    requires k <= |added|
    ensures |JoinedTo(base, added, k)| >= |base| && JoinedTo(base, added, k)[..|base|] == base
  {
    if k > 0 {
      JoinedKeepsBase(base, added, k - 1);
    }
  }

  lemma PrefixesChain<T>(a: seq<T>, b: seq<T>, c: seq<T>)
    requires a <= b && b <= c
    ensures a <= c
  {
    assert c[..|a|] == b[..|a|];
  }

  lemma {:induction false} NormalizedGrows<N>(leaf: N -> N, m: IdMap<N>, n: nat, k: nat)
    requires n <= k <= |m|
    ensures NormalizedTo(leaf, m, n) <= NormalizedTo(leaf, m, k)
  {
    if n < k {
      NormalizedGrows(leaf, m, n, k - 1);
      assert NormalizedTo(leaf, m, k - 1) <= NormalizedTo(leaf, m, k);
      PrefixesChain(NormalizedTo(leaf, m, n), NormalizedTo(leaf, m, k - 1), NormalizedTo(leaf, m, k));
    }
  }

  lemma {:induction false} NormalizedByEntries<N>(leaf: N -> N, m: IdMap<N>, more: IdMap<N>, k: nat)
    requires k <= |m| <= |more| && forall i :: 0 <= i < |m| ==> more[i] == m[i]
    ensures NormalizedTo(leaf, more, k) == NormalizedTo(leaf, m, k)
  {
    if k > 0 {
      NormalizedByEntries(leaf, m, more, k - 1);
    }
  }

  /** One more entry, placed if it holds a real id and its leaf is new. */
  lemma NormalizedOfMore<N>(leaf: N -> N, m: IdMap<N>, e: (N, seq<int>))
    ensures NormalizedMap(leaf, m + [e]) ==
            if Nonzero(e.1) != [] && leaf(e.0) !in NamesIn(NormalizedMap(leaf, m)) then
              NormalizedMap(leaf, m) + [(leaf(e.0), Nonzero(e.1))]
            else NormalizedMap(leaf, m)
  {
    NormalizedByEntries(leaf, m, m + [e], |m|);
  }

  /** Normalizing keeps a settled beginning. */
  lemma NormalizedKeepsPrefix<N>(leaf: N -> N, m: IdMap<N>, n: nat)
    requires n <= |m| && SettledMap(leaf, m[..n])
    ensures m[..n] <= NormalizedMap(leaf, m)
  {
    SettledMapStays(leaf, m, n, n);
    NormalizedGrows(leaf, m, n, |m|);
  }

  lemma {:induction false} GetAbsent<N>(m: IdMap<N>, name: N)
    ensures Get(m, name).Some? <==> name in NamesIn(m)
  {
    if m != [] {
      GetAbsent(m[1..], name);
      assert m == [m[0]] + m[1..];
    }
  }

  lemma {:induction false} GetMore<N>(m: IdMap<N>, e: (N, seq<int>), name: N)
    ensures Get(m + [e], name) == if name in NamesIn(m) then Get(m, name) else if e.0 == name then Some(e.1) else None
  {
    if m != [] {
      assert (m + [e])[1..] == m[1..] + [e];
      assert m == [m[0]] + m[1..];
      GetMore(m[1..], e, name);
    }
  }

  lemma {:induction false} GetOfPrefix<N>(m: IdMap<N>, n: nat, name: N)
    requires n <= |m| && name in NamesIn(m[..n])
    ensures Get(m, name) == Get(m[..n], name)
  {
    if m[0].0 != name {
      assert m[..n] == [m[0]] + m[1..][..n - 1];
      assert m[..n][1..] == m[1..][..n - 1];
      GetOfPrefix(m[1..], n - 1, name);
    }
  }
}
