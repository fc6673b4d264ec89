/** The search term of a topic (search.go) and Go's 64-bit integers. */
module Terms {
  import opened GoStrings

  const MinInt64: int := -0x8000_0000_0000_0000
  const MaxInt64: int := 0x7fff_ffff_ffff_ffff

  /** Go's `int64`. */
  type Int64 = x: int | MinInt64 <= x <= MaxInt64

  /** A configured subject: its human-readable topic and its Twitter search query. */
  datatype SearchTerm = SearchTerm(topic: string, query: string)

  /** `SearchTerm.buildQuery`: trims the query, stores the trimmed query back in
      the term and returns it. The pair is the updated term and the returned query. */
  function BuildQuery(st: SearchTerm): (r: (SearchTerm, string))
    ensures r.0.topic == st.topic && r.0.query == r.1
    ensures exists i, j :: TrimmedAt(r.1, st.query, i, j)
  {
    TrimSpaceTrims(st.query);
    var q := TrimSpace(st.query);
    (st.(query := q), q)
  }

  /** Building the query of an already built term changes nothing. */
  lemma BuildQueryIdempotent(st: SearchTerm)
    ensures BuildQuery(BuildQuery(st).0) == BuildQuery(st)
  {
    TrimSpaceIdempotent(st.query);
  }
}
