/** Operations on a table held in memory as a list of rows, each with an id. */
module Rows {
  import opened Seqs

  /** The list after a confirmed delete of `id`: unchanged unless the admin
      confirms and the backend deletes; then the rows with that id are gone
      and the others stay, in order. */
  function DeleteById<T(==)>(rows: seq<T>, idOf: T -> string, id: string, confirmed: bool, backendOk: bool): (r: seq<T>)
    ensures !confirmed || !backendOk ==> r == rows
    ensures confirmed && backendOk ==> forall i :: 0 <= i < |r| ==> idOf(r[i]) != id
    ensures forall x :: x in rows && idOf(x) != id ==> x in r
    ensures forall x :: x in rows && idOf(x) != id ==> multiset(r)[x] == multiset(rows)[x]
    ensures IsSubsequence(r, rows)
  {
    if confirmed && backendOk then
      FilterIsSubsequence(rows, (x: T) => idOf(x) != id);
      FilterMultiplicity(rows, (x: T) => idOf(x) != id);
      Filter(rows, (x: T) => idOf(x) != id)
    else
      SubsequenceReflexive(rows);
      rows
  }

  /** Deleting an id no row has leaves the list as it is, so deleting the same
      id a second time changes nothing. */
  lemma DeleteByIdIdempotent<T>(rows: seq<T>, idOf: T -> string, id: string)
    ensures (forall i :: 0 <= i < |rows| ==> idOf(rows[i]) != id) ==> DeleteById(rows, idOf, id, true, true) == rows
    ensures var once := DeleteById(rows, idOf, id, true, true);
      DeleteById(once, idOf, id, true, true) == once
  {
    if forall i :: 0 <= i < |rows| ==> idOf(rows[i]) != id {
      FilterKeepsAll(rows, (x: T) => idOf(x) != id);
    }
    var once := DeleteById(rows, idOf, id, true, true);
    FilterKeepsAll(once, (x: T) => idOf(x) != id);
  }
}
