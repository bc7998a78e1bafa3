/**
 * The search box on the reports page: each row of the reports table is shown
 * exactly when its lower-cased text includes the lower-cased query.
 */
module Reports {
  import opened Text

  /** A row of the reports table: its text content and whether it is displayed. */
  datatype Row = Row(text: string, visible: bool)

  predicate Matches(text: string, query: string) {
    Contains(Lower(text), Lower(query))
  }

  /** The rows after filterReports(query): same texts, in the same order, shown iff they match. */
  function Filtered(rows: seq<Row>, query: string): (r: seq<Row>)
    ensures |r| == |rows|
    ensures forall i :: 0 <= i < |rows| ==> r[i].text == rows[i].text
    ensures forall i :: 0 <= i < |rows| ==>
      (r[i].visible <==> exists k :: OccursAt(Lower(rows[i].text), Lower(query), k))
    decreases |rows|
  {
    if rows == [] then []
    else
      var head := Row(rows[0].text, Matches(rows[0].text, query));
      [head] + Filtered(rows[1..], query)
  }

  /** An empty query shows every row. */
  lemma EmptyQueryShowsAll(rows: seq<Row>)
    ensures forall i :: 0 <= i < |rows| ==> Filtered(rows, "")[i].visible
  {
  }

  /** Filtering again with the same query changes nothing. */
  lemma FilterIdempotent(rows: seq<Row>, query: string)
    ensures Filtered(Filtered(rows, query), query) == Filtered(rows, query)
  {
  }

  /** Upper- and lower-case letters in the query make no difference. */
  lemma FilterIgnoresCase(rows: seq<Row>, query: string)
    ensures Filtered(rows, Lower(query)) == Filtered(rows, query)
  {
    LowerIdempotent(query);
  }

  /** Typing more characters into the search box can only hide rows, never reveal one. */
  lemma TypingNarrows(rows: seq<Row>, query: string, more: string)
    ensures forall i :: (0 <= i < |rows| && Filtered(rows, query + more)[i].visible
      ==> Filtered(rows, query)[i].visible)
  {
    var q := Lower(query);
    var qm := Lower(query + more);
    assert q <= qm by {
      assert qm[..|q|] == q;
    }
    forall i | 0 <= i < |rows| && Filtered(rows, query + more)[i].visible
      ensures Filtered(rows, query)[i].visible
    {
      var s := Lower(rows[i].text);
      var k :| OccursAt(s, qm, k);
      PrefixOccurs(s, q, qm, k);
    }
  }

  /** Where a query occurs, so does each of its prefixes. */
  lemma PrefixOccurs(s: string, q: string, qm: string, k: int)
    requires q <= qm && OccursAt(s, qm, k)
    ensures OccursAt(s, q, k)
  {
  }
}
