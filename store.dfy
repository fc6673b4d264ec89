/**
 * store.go: the Sentiment record that the aggregator fills in and saves, the
 * two steps that prepare it for saving, and the store's error outcomes.
 */
module Store {
  import opened Wrappers
  import opened GoStrings
  import opened Terms

  /** A float64 result: a real number, or one of IEEE-754's infinities and NaN,
      which none of the operations below turns back into a number. */
  datatype Float64 = Finite(value: real) | NotFinite

  /** Float64 division by the converted integer `d`; dividing by zero gives NaN
      or an infinity. */
  function Quotient(f: Float64, d: int): Float64
  {
    if f.Finite? && d != 0 then Finite(f.value / d as real) else NotFinite
  }

  /** `math.Sqrt`, with the square root of a non-negative real left to `root`:
      NaN for a negative argument, and non-finite for a non-finite one. */
  function SquareRoot(f: Float64, root: real -> real): Float64
  {
    if f.Finite? && f.value >= 0.0 then Finite(root(f.value)) else NotFinite
  }

  /** The outcomes the store reports besides success (store.go:19-20) and a
      failure of the backend itself. */
  datatype StoreError = NoResultsFound | InvalidSlug | Backend

  /** The value of a Sentiment: what `SaveSentiment` receives. `fetchedAt` is a
      timestamp, 0 standing for Go's zero time. */
  datatype SentimentRecord = SentimentRecord(
    id: string, topic: string, slug: string, query: string, count: int,
    score: real, stdDev: Float64, variance: Float64, fetchedAt: int, lastSeenID: int)

  /** The zero value `Sentiment{}`. */
  const ZeroRecord: SentimentRecord :=
    SentimentRecord("", "", "", "", 0, 0.0, Finite(0.0), Finite(0.0), 0, 0)

  /** The topic as `populateWithSearch` stores it: lower-cased, then trimmed. */
  function NormalizeTopic(topic: string): string
  {
    TrimSpace(ToLower(topic))
  }

  /** The aggregated result of the sentiment analysis of `count` tweets about a
      topic. While the aggregator folds results in, `variance` holds the running
      sum of squared deviations; `finalize` turns it into the sample variance. */
  class Sentiment {
    var id: string
    var topic: string
    var slug: string
    var query: string
    var count: int
    var score: real
    var stdDev: Float64
    var variance: Float64
    var fetchedAt: int
    var lastSeenID: int

    function Value(): SentimentRecord
      reads this
    {
      SentimentRecord(id, topic, slug, query, count, score, stdDev, variance, fetchedAt, lastSeenID)
    }

    /** `&Sentiment{}`. */
    constructor ()
      ensures Value() == ZeroRecord
    {
      id, topic, slug, query := "", "", "", "";
      count, score := 0, 0.0;
      stdDev, variance := Finite(0.0), Finite(0.0);
      fetchedAt, lastSeenID := 0, 0;
    }

    /** `populateWithSearch`: the topic becomes the term's topic lower-cased and
        trimmed, the query is the term's query exactly; nothing else changes. */
    method PopulateWithSearch(st: SearchTerm)
      modifies this
      ensures Value() == Populated(old(Value()), st)
    {
      topic := TrimSpace(ToLower(st.topic));
      query := st.query;
    }

    /** `finalize`, which turns the running aggregate into the record to save. */
    method Finalize(now: int, makeSlug: string -> string, root: real -> real)
      modifies this
      ensures Value() == Finalized(old(Value()), now, makeSlug, root)
    {
      variance := Quotient(variance, count - 1);
      stdDev := SquareRoot(variance, root);
      fetchedAt := now;
      slug := makeSlug(topic);
    }
  }

  /** The record `finalize` leaves behind, as a value: the sum of squared
      deviations divided by `count - 1` (so a single sample gives NaN), its
      square root, the time stamp, and the slug of the topic. Count, score,
      checkpoint, topic and query are left as they were. */
  function Finalized(s: SentimentRecord, now: int, makeSlug: string -> string, root: real -> real): (r: SentimentRecord)
    ensures s.count >= 2 && s.variance.Finite? ==> r.variance == Finite(s.variance.value / (s.count - 1) as real)
    ensures s.count == 1 ==> r.variance.NotFinite?
    ensures r.stdDev == SquareRoot(r.variance, root)
    ensures r.slug == makeSlug(s.topic) && r.fetchedAt == now
    ensures r.(variance := s.variance, stdDev := s.stdDev, slug := s.slug, fetchedAt := s.fetchedAt) == s
  {
    var v := Quotient(s.variance, s.count - 1);
    s.(variance := v, stdDev := SquareRoot(v, root), fetchedAt := now, slug := makeSlug(s.topic))
  }

  /** The record `populateWithSearch` leaves behind, as a value. */
  function Populated(s: SentimentRecord, st: SearchTerm): (r: SentimentRecord)
    ensures r.topic == NormalizeTopic(st.topic) && r.query == st.query
    ensures r.(topic := s.topic, query := s.query) == s
  {
    s.(topic := NormalizeTopic(st.topic), query := st.query)
  }

  /** Populating twice with the same term gives the same record as populating once. */
  lemma PopulateIdempotent(s: SentimentRecord, st: SearchTerm)
    ensures Populated(Populated(s, st), st) == Populated(s, st)
  {
  }

  lemma LowerRuneIdempotent(c: char)
    ensures LowerRune(LowerRune(c)) == LowerRune(c)
    ensures IsSpace(LowerRune(c)) == IsSpace(c)
  {
  }

  /** Normalising is idempotent: a normalised topic normalises to itself. */
  lemma NormalizeTopicIdempotent(topic: string)
    ensures NormalizeTopic(NormalizeTopic(topic)) == NormalizeTopic(topic)
  {
    var n := NormalizeTopic(topic);
    TrimSpaceTrims(ToLower(topic));
    var l := ToLower(n);
    forall k | 0 <= k < |n| ensures l[k] == n[k] {
      var i, j :| TrimmedAt(n, ToLower(topic), i, j);
      assert n[k] == ToLower(topic)[i + k];
      LowerRuneIdempotent(topic[i + k]);
    }
    assert l == n;
    TrimSpaceOfTrimmed(n);
  }

  /** The outcome of `GetSentimentsBySlug`: a string that is not a slug is
      rejected with InvalidSlug before the store is consulted; otherwise the
      answer is the store's lookup of that slug (`lookup`), up to `limit` records. */
  function GetSentimentsBySlug(
    topicSlug: string, limit: int, isSlug: string -> bool,
    lookup: (string, int) -> Result<seq<SentimentRecord>, StoreError>): (r: Result<seq<SentimentRecord>, StoreError>)
    ensures !isSlug(topicSlug) ==> r == Failure(InvalidSlug)
    ensures isSlug(topicSlug) ==> r == lookup(topicSlug, limit)
  {
    if !isSlug(topicSlug) then Failure(InvalidSlug) else lookup(topicSlug, limit)
  }
}
