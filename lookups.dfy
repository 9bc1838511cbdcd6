/** The client-side joins the list pages perform: look a row up by id in a
    reference list (`list.find((x) => x.id === id)?.name || ''`) and count
    the rows that point at a parent (`select('*', { count: 'exact' })`). */
module Lookups {
  import opened Types
  import opened Seqs

  function Matches<R>(id: Option<Id>, idOf: R -> Id): R -> bool {
    (row: R) => Some(idOf(row)) == id
  }

  /** The name of the first row whose id equals `id`, or "" when none does
      (an absent `id` equals no row). */
  function NameOf<R>(rows: seq<R>, id: Option<Id>, idOf: R -> Id, nameOf: R -> string): (r: string)
    ensures id.None? ==> r == ""
    ensures (forall k :: 0 <= k < |rows| ==> Some(idOf(rows[k])) != id) ==> r == ""
    ensures forall k ::
              (0 <= k < |rows| && Some(idOf(rows[k])) == id
               && (forall j :: 0 <= j < k ==> Some(idOf(rows[j])) != id)) ==> r == nameOf(rows[k])
  {
    var k := FindIndex(rows, Matches(id, idOf));
    if k < 0 then "" else nameOf(rows[k])
  }

  /** Ids are distinct (a primary key). */
  ghost predicate DistinctIds<R>(rows: seq<R>, idOf: R -> Id) {
    forall i, j :: 0 <= i < j < |rows| ==> idOf(rows[i]) != idOf(rows[j])
  }

  /** With distinct ids the lookup yields the name of the row carrying that
      id, wherever it stands in the list: the list's order does not matter. */
  lemma NameOfFound<R>(rows: seq<R>, id: Option<Id>, idOf: R -> Id, nameOf: R -> string, row: R)
    requires DistinctIds(rows, idOf) && row in rows && Some(idOf(row)) == id
    ensures NameOf(rows, id, idOf, nameOf) == nameOf(row)
  {
    var k :| 0 <= k < |rows| && rows[k] == row;
    assert forall j :: 0 <= j < k ==> Some(idOf(rows[j])) != id;
  }

  // Keys and names of the reference lists the pages join against.

  function CompanyKey(c: Company): Id { c.id }
  function CompanyName(c: Company): string { c.name }
  function TeamKey(t: Team): Id { t.id }
  function TeamName(t: Team): string { t.name }
  function ChecklistKey(c: Checklist): Id { c.id }
  function ChecklistName(c: Checklist): string { c.name }

  /** The number of rows satisfying `p` (an exact count query). */
  function CountWhere<R(!new)>(rows: seq<R>, p: R -> bool): (n: nat)
    ensures n <= |rows|
    ensures n == 0 <==> forall k :: 0 <= k < |rows| ==> !p(rows[k])
  {
    var f := Filter(rows, p);
    assert f != [] ==> f[0] in f;
    assert (exists k :: 0 <= k < |rows| && p(rows[k])) ==> f != [] by {
      if k :| 0 <= k < |rows| && p(rows[k]) {
        assert rows[k] in f;
      }
    }
    |f|
  }

  /** Appending a row adds one to the count exactly when it satisfies `p`. */
  lemma CountWhereAppend<R(!new)>(rows: seq<R>, x: R, p: R -> bool)
    ensures CountWhere(rows + [x], p) == CountWhere(rows, p) + (if p(x) then 1 else 0)
  {
    FilterAppend(rows, [x], p);
  }

  /** `s || '-'`: an empty string is displayed as a dash. */
  function OrDash(s: string): (r: string)
    ensures r == "-" <==> s == "" || s == "-"
    ensures s != "" ==> r == s
  {
    if s == "" then "-" else s
  }
}
