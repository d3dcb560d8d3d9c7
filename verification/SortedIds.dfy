/** `sorted(set(...))`: numbers in increasing order, each once. */
module SortedIds {
  /** `ids` with one more in its place, once. */
  function WithId(ids: seq<int>, id: int): seq<int> {
    if ids == [] then [id]
    else if id < ids[0] then [id] + ids
    else if id == ids[0] then ids
    else [ids[0]] + WithId(ids[1..], id)
  }

  function Sorted(ids: seq<int>): seq<int> {
    if ids == [] then [] else WithId(Sorted(ids[..|ids| - 1]), ids[|ids| - 1])
  }

  predicate Increasing(ids: seq<int>) {
    forall i, j :: 0 <= i < j < |ids| ==> ids[i] < ids[j]
  }

  lemma {:induction false} WithIdHolds(ids: seq<int>, id: int)
    requires Increasing(ids)
    ensures Increasing(WithId(ids, id))
    ensures forall x :: x in WithId(ids, id) <==> x in ids || x == id
  {
    if ids != [] && id > ids[0] {
      WithIdHolds(ids[1..], id);
      assert forall x :: x in ids <==> x == ids[0] || x in ids[1..];
      var rest := WithId(ids[1..], id);
      forall i: nat | i < |rest| ensures ids[0] < rest[i] {
        assert rest[i] in rest;
      }
    }
  }

  lemma {:induction false} SortedHolds(ids: seq<int>)
    ensures Increasing(Sorted(ids))
    ensures forall x :: x in Sorted(ids) <==> x in ids
  {
    if ids != [] {
      var n := |ids| - 1;
      SortedHolds(ids[..n]);
      WithIdHolds(Sorted(ids[..n]), ids[n]);
      assert forall x :: x in ids <==> x in ids[..n] || x == ids[n];
    }
  }
}
