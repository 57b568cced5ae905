/** The bundled medicine catalogue and its search by name. */
module MedicineDatabase {
  import opened Json
  import opened Collections

  /** A catalogue entry: its name and the rest of its fields. */
  datatype Medicine = Medicine(name: string, rest: Obj)

  /** ASCII `toLowerCase` of one character. */
  function LowerChar(c: char): (r: char)
    ensures 'A' <= c <= 'Z' ==> r as int == c as int + 32
    ensures !('A' <= c <= 'Z') ==> r == c
  {
    if 'A' <= c <= 'Z' then (c as int + 32) as char else c
  }

  function Lower(s: string): (r: string)
    ensures |r| == |s|
    ensures forall i :: 0 <= i < |s| ==> r[i] == LowerChar(s[i])
  {
    seq(|s|, i requires 0 <= i < |s| => LowerChar(s[i]))
  }

  /** `needle` occurs in `hay` starting at index `i`. */
  predicate OccursAt(hay: string, needle: string, i: int)
  {
    0 <= i <= |hay| - |needle| && hay[i..i + |needle|] == needle
  }

  /** `hay.includes(needle)`. */
  predicate Includes(hay: string, needle: string)
  {
    exists i | 0 <= i <= |hay| :: OccursAt(hay, needle, i)
  }

  /** Whether the catalogue entry matches the query, ignoring ASCII case. */
  predicate Matches(query: string, med: Medicine)
  {
    Includes(Lower(med.name), Lower(query))
  }

  function MatchesOf(query: string): Medicine -> bool
  {
    med => Matches(query, med)
  }

  /** `searchMedicines(query)`: an absent or empty query returns the whole
      catalogue; otherwise the entries whose name contains the query, ignoring
      ASCII case, in catalogue order. */
  function SearchMedicines(medicines: seq<Medicine>, query: Option<string>): (r: seq<Medicine>)
    ensures query.None? || query == Some("") ==> r == medicines
    ensures Subseq(r, medicines)
    ensures query.Some? ==> forall m :: m in r ==> Matches(query.value, m)
    ensures query.Some? ==> forall m :: m in medicines && Matches(query.value, m) ==> m in r
    ensures query.Some? ==> forall m :: multiset(r)[m] == if Matches(query.value, m) then multiset(medicines)[m] else 0
  {
    if query.None? || query.value == "" then
      SubseqRefl(medicines);
      EmptyQueryMatchesAll(medicines);
      medicines
    else
      FilterIsSubseq(medicines, MatchesOf(query.value));
      FilterMembers(medicines, MatchesOf(query.value));
      FilterMultiplicity(medicines, MatchesOf(query.value));
      Filter(medicines, MatchesOf(query.value))
  }

  /** Every name contains the empty string, so the empty-query shortcut
      agrees with the filter it skips. */
  lemma EmptyQueryMatchesAll(medicines: seq<Medicine>)
    ensures forall m :: m in medicines ==> Matches("", m)
  {
    forall m | m in medicines
      ensures Matches("", m)
    {
      assert OccursAt(Lower(m.name), Lower(""), 0);
    }
  }
}
