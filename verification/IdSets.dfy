/** sorted(set(ids)) and its two properties. */
module IdSets {
  function Insert(id: nat, sorted: seq<nat>): seq<nat> {
    if sorted == [] || id < sorted[0] then [id] + sorted
    else if id == sorted[0] then sorted
    else [sorted[0]] + Insert(id, sorted[1..])
  }

  /** sorted(set(ids)) */
  function SortedIds(ids: seq<nat>): seq<nat> {
    if ids == [] then [] else Insert(ids[0], SortedIds(ids[1..]))
  }

  ghost predicate AscendingIds(ids: seq<nat>) {
    forall i, j :: 0 <= i < j < |ids| ==> ids[i] < ids[j]
  }

  lemma {:induction false} InsertSorts(id: nat, sorted: seq<nat>)
    requires AscendingIds(sorted)
    ensures AscendingIds(Insert(id, sorted))
    ensures forall x :: x in Insert(id, sorted) <==> x == id || x in sorted
  {
    if sorted != [] && id > sorted[0] {
      InsertSorts(id, sorted[1..]);
      forall x | x in Insert(id, sorted[1..]) ensures sorted[0] < x {}
      assert sorted == [sorted[0]] + sorted[1..];
    }
  }

  lemma {:induction false} SortedIdsSorts(ids: seq<nat>)
    ensures AscendingIds(SortedIds(ids))
    ensures forall x :: x in SortedIds(ids) <==> x in ids
  {
    if ids != [] {
      SortedIdsSorts(ids[1..]);
      InsertSorts(ids[0], SortedIds(ids[1..]));
      assert ids == [ids[0]] + ids[1..];
    }
  }
}
