/**
 * aggregate.go: the aggregator folds the stream of analyzer results into one
 * Sentiment per topic (`updateAggregate`), then finalizes and saves each one.
 */
module Aggregate {
  import opened Terms
  import opened Store
  import opened Stats

  /** The result of analysing one tweet (analysis.go): its ID, its score and
      magnitude, and the term it was found by. */
  datatype AnalyzerResult = AnalyzerResult(tweetID: Int64, score: real, magnitude: real, term: SearchTerm)

  /** f(r) for the results r of the stream that belong to `topic`, in stream order. */
  function Project<T>(rs: seq<AnalyzerResult>, topic: string, f: AnalyzerResult -> T): seq<T>
  {
    if |rs| == 0 then []
    else Project(rs[..|rs| - 1], topic, f) + (if rs[|rs| - 1].term.topic == topic then [f(rs[|rs| - 1])] else [])
  }

  function ScoreOf(r: AnalyzerResult): real { r.score }

  function IdOf(r: AnalyzerResult): int { r.tweetID as int }

  /** The scores folded into `topic`'s aggregate. */
  function ScoresFor(rs: seq<AnalyzerResult>, topic: string): seq<real>
  {
    Project(rs, topic, ScoreOf)
  }

  /** The tweet IDs folded into `topic`'s aggregate. */
  function IdsFor(rs: seq<AnalyzerResult>, topic: string): seq<int>
  {
    Project(rs, topic, IdOf)
  }

  /** The query of the last result for `topic`, "" when there is none. */
  function LastQuery(rs: seq<AnalyzerResult>, topic: string): string
  {
    if |rs| == 0 then ""
    else if rs[|rs| - 1].term.topic == topic then rs[|rs| - 1].term.query
    else LastQuery(rs[..|rs| - 1], topic)
  }

  /** The topics that occur in the stream. */
  function Topics(rs: seq<AnalyzerResult>): set<string>
  {
    if |rs| == 0 then {} else Topics(rs[..|rs| - 1]) + {rs[|rs| - 1].term.topic}
  }

  /** The largest of 0 and the given IDs. */
  function MaxOrZero(ids: seq<int>): (m: int)
    ensures m >= 0
    ensures forall i :: 0 <= i < |ids| ==> ids[i] <= m
    ensures m == 0 || m in ids
  {
    if |ids| == 0 then 0
    else
      var p := MaxOrZero(ids[..|ids| - 1]);
      if ids[|ids| - 1] > p then ids[|ids| - 1] else p
  }

  /** What the aggregate of `topic` holds after the stream `rs`, defined by the
      statistics themselves: the number of results, their mean score, the sum
      of squared deviations of their scores, the largest tweet ID (or 0), and
      the normalised topic with the last result's query. A topic absent from
      the stream has the zero record. */
  ghost function Summary(rs: seq<AnalyzerResult>, topic: string): SentimentRecord
  {
    var scores := ScoresFor(rs, topic);
    ZeroRecord.(
      topic := if topic in Topics(rs) then NormalizeTopic(topic) else "",
      query := LastQuery(rs, topic),
      count := |scores|,
      score := Mean(scores),
      variance := Finite(SqDev(scores, Mean(scores))),
      lastSeenID := MaxOrZero(IdsFor(rs, topic)))
  }

  /** The summaries of all topics of the stream. */
  ghost function Summaries(rs: seq<AnalyzerResult>): map<string, SentimentRecord>
  {
    map t | t in Topics(rs) :: Summary(rs, t)
  }

  /** The records saved when the aggregates `m` are finalized in the order
      `order` and the saves of the topics in `failing` fail. The i-th
      finalize reads the clock once, and gets `clock(i)`. */
  function SavedRecords(m: map<string, SentimentRecord>, order: seq<string>, failing: set<string>, clock: nat -> int,
                        makeSlug: string -> string, root: real -> real): seq<SentimentRecord>
    requires forall t :: t in order ==> t in m
  {
    if |order| == 0 then []
    else
      var t := order[|order| - 1];
      SavedRecords(m, order[..|order| - 1], failing, clock, makeSlug, root)
      + (if t in failing then [] else [Finalized(m[t], clock(|order| - 1), makeSlug, root)])
  }

  /** Attempting one more topic adds its finalised record unless its save fails. */
  lemma SavedRecordsAppend(m: map<string, SentimentRecord>, order: seq<string>, t: string, failing: set<string>,
                           clock: nat -> int, makeSlug: string -> string, root: real -> real)
    requires forall u :: u in order ==> u in m
    requires t in m
    ensures SavedRecords(m, order + [t], failing, clock, makeSlug, root)
         == SavedRecords(m, order, failing, clock, makeSlug, root)
            + (if t in failing then [] else [Finalized(m[t], clock(|order|), makeSlug, root)])
  {
    assert (order + [t])[..|order|] == order;
  }

  /** The record saved for a topic has the Bessel-corrected sample variance of
      its scores (NaN for a single score), and the slug of its normalised topic. */
  lemma SavedSummary(rs: seq<AnalyzerResult>, topic: string, now: int, makeSlug: string -> string, root: real -> real)
    requires topic in Topics(rs)
    ensures var scores := ScoresFor(rs, topic);
            var r := Finalized(Summary(rs, topic), now, makeSlug, root);
            && r.count == |scores| >= 1
            && r.score == Mean(scores)
            && (|scores| >= 2 ==> r.variance == Finite(SqDev(scores, Mean(scores)) / (|scores| - 1) as real))
            && (|scores| == 1 ==> r.variance.NotFinite?)
            && r.lastSeenID == MaxOrZero(IdsFor(rs, topic))
            && r.topic == NormalizeTopic(topic) && r.slug == makeSlug(NormalizeTopic(topic))
  {
    TopicsHaveScores(rs, topic);
  }

  /** A topic whose results score 0.5, -0.2, 0.1 and 0.9 is saved with count
      4, score 0.325 and sample variance 0.6875 / 3 (about 0.229). */
  lemma FourScoresSaved(rs: seq<AnalyzerResult>, topic: string, now: int, makeSlug: string -> string, root: real -> real)
    requires ScoresFor(rs, topic) == [0.5, -0.2, 0.1, 0.9]
    ensures topic in Topics(rs)
    ensures var r := Finalized(Summary(rs, topic), now, makeSlug, root);
            r.count == 4 && r.score == 0.325 && r.variance == Finite(0.6875 / 3.0)
  {
    ScoresNeedTopic(rs, topic);
    SavedSummary(rs, topic, now, makeSlug, root);
    FourScores();
  }

  /** Only a topic of the stream has scores. */
  lemma {:induction false} ScoresNeedTopic(rs: seq<AnalyzerResult>, topic: string)
    requires |ScoresFor(rs, topic)| > 0
    ensures topic in Topics(rs)
  {
    var rs', r := rs[..|rs| - 1], rs[|rs| - 1];
    if r.term.topic != topic {
      assert ScoresFor(rs, topic) == ScoresFor(rs', topic);
      ScoresNeedTopic(rs', topic);
    }
  }

  lemma {:induction false} TopicsHaveScores(rs: seq<AnalyzerResult>, topic: string)
    requires topic in Topics(rs)
    ensures |ScoresFor(rs, topic)| >= 1
  {
    var rs', r := rs[..|rs| - 1], rs[|rs| - 1];
    assert rs == rs' + [r];
    ProjectAppend(rs', r, topic, ScoreOf);
    if r.term.topic != topic {
      TopicsHaveScores(rs', topic);
    }
  }

  lemma {:induction false} ProjectAppend<T>(rs: seq<AnalyzerResult>, r: AnalyzerResult, topic: string, f: AnalyzerResult -> T)
    ensures Project(rs + [r], topic, f) == Project(rs, topic, f) + (if r.term.topic == topic then [f(r)] else [])
  {
    assert (rs + [r])[..|rs|] == rs;
  }

  lemma {:induction false} LastQueryAppend(rs: seq<AnalyzerResult>, r: AnalyzerResult, topic: string)
    ensures LastQuery(rs + [r], topic) == if r.term.topic == topic then r.term.query else LastQuery(rs, topic)
  {
    assert (rs + [r])[..|rs|] == rs;
  }

  /** The record `updateAggregate` leaves behind, as a value: one more sample,
      the score and the sum of squared deviations updated by updateAverage and
      updateVariance, the checkpoint raised to the tweet ID if that is larger. */
  function Updated(s: SentimentRecord, score: real, tweetID: int): (r: SentimentRecord)
    requires s.count >= 0
  {
    var count := s.count + 1;
    var average := UpdateAverage(score, s.score, count);
    s.(count := count, score := average,
       variance := if s.variance.Finite? then Finite(UpdateVariance(score, s.variance.value, s.score, average, count)) else NotFinite,
       lastSeenID := if tweetID > s.lastSeenID then tweetID else s.lastSeenID)
  }

  /** Folding one more result into the summary of its topic is exactly the
      update of updateAggregate followed by populateWithSearch: the incremental
      fold keeps the count, the mean, the sum of squared deviations and the
      maximum tweet ID of the results seen so far. */
  lemma SummaryStep(rs: seq<AnalyzerResult>, r: AnalyzerResult)
    ensures Summary(rs + [r], r.term.topic) == Populated(Updated(Summary(rs, r.term.topic), r.score, r.tweetID as int), r.term)
  {
    var t := r.term.topic;
    ProjectAppend(rs, r, t, ScoreOf);
    ProjectAppend(rs, r, t, IdOf);
    LastQueryAppend(rs, r, t);
    assert (rs + [r])[..|rs|] == rs;
    assert ScoresFor(rs + [r], t) == ScoresFor(rs, t) + [r.score];
    var ids := IdsFor(rs + [r], t);
    assert ids == IdsFor(rs, t) + [r.tweetID as int];
    assert ids[..|ids| - 1] == IdsFor(rs, t);
    WelfordStep(ScoresFor(rs, t), r.score);
  }

  /** A topic that does not occur in the stream has the zero record, which is
      the Sentiment the aggregator creates when the topic first appears. */
  lemma {:induction false} SummaryAbsent(rs: seq<AnalyzerResult>, topic: string)
    requires topic !in Topics(rs)
    ensures Summary(rs, topic) == ZeroRecord
  {
    if |rs| > 0 {
      var rs' := rs[..|rs| - 1];
      assert rs == rs' + [rs[|rs| - 1]];
      SummaryAbsent(rs', topic);
      SummaryOther(rs', rs[|rs| - 1], topic);
    }
  }

  /** Folding a result for one topic leaves the summary of every other topic as it was. */
  lemma SummaryOther(rs: seq<AnalyzerResult>, r: AnalyzerResult, topic: string)
    requires topic != r.term.topic
    ensures Summary(rs + [r], topic) == Summary(rs, topic)
  {
    ProjectAppend(rs, r, topic, ScoreOf);
    ProjectAppend(rs, r, topic, IdOf);
    LastQueryAppend(rs, r, topic);
    assert (rs + [r])[..|rs|] == rs;
    assert Topics(rs + [r]) == Topics(rs) + {r.term.topic};
    assert ScoresFor(rs + [r], topic) == ScoresFor(rs, topic);
    assert IdsFor(rs + [r], topic) == IdsFor(rs, topic);
  }

  /** One iteration of the range loop of `Run`, on values: create the zero
      record for a topic seen for the first time, fold the result in, and
      record the term's topic and query. */
  function Fold(m: map<string, SentimentRecord>, r: AnalyzerResult): map<string, SentimentRecord>
    requires forall t :: t in m ==> m[t].count >= 0
  {
    var s := if r.term.topic in m then m[r.term.topic] else ZeroRecord;
    m[r.term.topic := Populated(Updated(s, r.score, r.tweetID as int), r.term)]
  }

  /** The aggregates after folding the whole stream `rs`, one result at a time. */
  function FoldAll(rs: seq<AnalyzerResult>): (m: map<string, SentimentRecord>)
    ensures forall t :: t in m ==> m[t].count >= 1
  {
    if |rs| == 0 then map[] else Fold(FoldAll(rs[..|rs| - 1]), rs[|rs| - 1])
  }

  /** The incremental fold computes the statistics: after any stream, the map
      holds exactly the topics of the stream, each with its summary. */
  lemma {:induction false} FoldAllSummarizes(rs: seq<AnalyzerResult>)
    ensures FoldAll(rs).Keys == Topics(rs)
    ensures forall t :: t in FoldAll(rs) ==> FoldAll(rs)[t] == Summary(rs, t)
  {
    if |rs| > 0 {
      var rs', r := rs[..|rs| - 1], rs[|rs| - 1];
      assert rs == rs' + [r];
      FoldAllSummarizes(rs');
      var t := r.term.topic;
      var before, after := FoldAll(rs'), FoldAll(rs);
      assert after == Fold(before, r);
      if t !in before {
        SummaryAbsent(rs', t);
      }
      SummaryStep(rs', r);
      assert after.Keys == before.Keys + {t};
      forall u | u in after && u != t
        ensures after[u] == Summary(rs, u)
      {
        assert after[u] == before[u];
        SummaryOther(rs', r, u);
      }
    }
  }

  /** The fold of the whole stream is the map of its summaries. */
  lemma FoldAllIsSummaries(rs: seq<AnalyzerResult>)
    ensures FoldAll(rs) == Summaries(rs)
  {
    FoldAllSummarizes(rs);
    var folded, summaries := FoldAll(rs), Summaries(rs);
    assert folded.Keys == summaries.Keys;
    forall t | t in folded
      ensures folded[t] == summaries[t]
    {
    }
  }

  /** `updateAggregate`: one more sample for the topic. The count goes up by one,
      the score and the sum of squared deviations follow updateAverage and
      updateVariance, and the checkpoint becomes the larger of itself and the
      tweet ID. The magnitude is not used. Returns the same Sentiment. */
  method UpdateAggregate(score: real, magnitude: real, tweetID: Int64, sentiment: Sentiment) returns (r: Sentiment)
    requires sentiment.count >= 0
    modifies sentiment
    ensures r == sentiment
    ensures sentiment.Value() == Updated(old(sentiment.Value()), score, tweetID as int)
  {
    sentiment.count := sentiment.count + 1;
    var oldAverage := sentiment.score;
    sentiment.score := UpdateAverage(score, sentiment.score, sentiment.count);
    if sentiment.variance.Finite? {
      sentiment.variance := Finite(UpdateVariance(score, sentiment.variance.value, oldAverage, sentiment.score, sentiment.count));
    }
    if tweetID as int > sentiment.lastSeenID {
      sentiment.lastSeenID := tweetID as int;
    }
    r := sentiment;
  }

  /** The aggregates behind `sentiments` are pairwise distinct objects. */
  predicate Distinct(sentiments: map<string, Sentiment>)
  {
    forall t, u :: t in sentiments && u in sentiments && t != u ==> sentiments[t] != sentiments[u]
  }

  /** One iteration of the range loop of Run: the aggregate of the result's
      topic, created on first sight, absorbs the result. */
  method Absorb(sentiments: map<string, Sentiment>, ghost values: map<string, SentimentRecord>, res: AnalyzerResult)
    returns (next: map<string, Sentiment>)
    requires sentiments.Keys == values.Keys && Distinct(sentiments)
    requires forall t :: t in values ==> values[t].count >= 0
    requires forall t :: t in sentiments ==> sentiments[t].Value() == values[t]
    modifies set t | t in sentiments :: sentiments[t]
    ensures next.Keys == Fold(values, res).Keys && Distinct(next)
    ensures forall t :: t in next ==> (t in sentiments && next[t] == sentiments[t]) || fresh(next[t])
    ensures forall t :: t in next ==> next[t].Value() == Fold(values, res)[t]
  {
    var topic := res.term.topic;
    next := sentiments;
    if topic !in next {
      var created := new Sentiment();
      next := next[topic := created];
    }
    var s := next[topic];
    s := UpdateAggregate(res.score, res.magnitude, res.tweetID, s);
    s.PopulateWithSearch(res.term);
  }

  /** One iteration of the save loop of Run: the aggregate of `topic` is
      finalised and, unless its save fails, its record is saved. The other
      aggregates are left as they were. */
  method SaveOne(sentiments: map<string, Sentiment>, ghost values: map<string, SentimentRecord>, topic: string,
                 failing: set<string>, now: int, makeSlug: string -> string, root: real -> real, saved: seq<SentimentRecord>)
    returns (saved': seq<SentimentRecord>)
    requires topic in sentiments && sentiments.Keys == values.Keys && Distinct(sentiments)
    requires forall t :: t in sentiments ==> sentiments[t].Value() == values[t]
    modifies sentiments[topic]
    ensures forall t :: t in sentiments ==>
              sentiments[t].Value() == values[topic := Finalized(values[topic], now, makeSlug, root)][t]
    ensures saved' == saved + (if topic in failing then [] else [Finalized(values[topic], now, makeSlug, root)])
  {
    var s := sentiments[topic];
    s.Finalize(now, makeSlug, root);
    saved' := saved;
    if topic !in failing {
      saved' := saved' + [s.Value()];
    }
  }

  /** The order in which `range` visits the keys of a map: each key once,
      in an order of the runtime's choosing. */
  method RangeOrder(keys: set<string>) returns (order: seq<string>)
    ensures forall t :: t in order <==> t in keys
    ensures forall i, j :: 0 <= i < j < |order| ==> order[i] != order[j]
  {
    order := [];
    var remaining := keys;
    while remaining != {}
      invariant remaining <= keys
      invariant forall t :: t in keys ==> (t in remaining <==> t !in order)
      invariant forall t :: t in order ==> t in keys
      invariant forall i, j :: 0 <= i < j < |order| ==> order[i] != order[j]
      decreases remaining
    {
      var t :| t in remaining;
      order := order + [t];
      remaining := remaining - {t};
    }
  }

  /** The first i + 1 elements are the first i and then the i-th. */
  lemma TakeOneMore<T>(s: seq<T>, i: int)
    requires 0 <= i < |s|
    ensures s[..i + 1] == s[..i] + [s[i]]
  {
  }

  /** The save loop of Run: every aggregate is finalised, in the order the
      range visits them, the i-th at time `clock(i)`, and the ones whose save
      succeeds are kept, in that order. */
  method SaveAll(sentiments: map<string, Sentiment>, ghost folded: map<string, SentimentRecord>, failing: set<string>,
                 clock: nat -> int, makeSlug: string -> string, root: real -> real)
    returns (attempted: seq<string>, saved: seq<SentimentRecord>)
    requires sentiments.Keys == folded.Keys && Distinct(sentiments)
    requires forall t :: t in sentiments ==> sentiments[t].Value() == folded[t]
    modifies set t | t in sentiments :: sentiments[t]
    ensures forall t :: t in attempted <==> t in sentiments
    ensures forall i, j :: 0 <= i < j < |attempted| ==> attempted[i] != attempted[j]
    ensures forall i :: 0 <= i < |attempted| ==>
              sentiments[attempted[i]].Value() == Finalized(folded[attempted[i]], clock(i), makeSlug, root)
    ensures saved == SavedRecords(folded, attempted, failing, clock, makeSlug, root)
  {
    attempted := RangeOrder(sentiments.Keys);
    saved := [];
    ghost var values := folded;
    for i := 0 to |attempted|
      invariant values.Keys == sentiments.Keys && forall t :: t in attempted[..i] ==> t in folded
      invariant forall t :: t in sentiments ==> sentiments[t].Value() == values[t]
      invariant forall j :: 0 <= j < i ==> values[attempted[j]] == Finalized(folded[attempted[j]], clock(j), makeSlug, root)
      invariant forall t :: t in values && t !in attempted[..i] ==> values[t] == folded[t]
      invariant saved == SavedRecords(folded, attempted[..i], failing, clock, makeSlug, root)
    {
      var topic := attempted[i];
      TakeOneMore(attempted, i);
      saved := SaveOne(sentiments, values, topic, failing, clock(i), makeSlug, root, saved);
      values := values[topic := Finalized(values[topic], clock(i), makeSlug, root)];
      SavedRecordsAppend(folded, attempted[..i], topic, failing, clock, makeSlug, root);
    }
    assert attempted[..|attempted|] == attempted;
  }

  /** The range loop of Run: one fresh aggregate per topic, holding the fold
      of that topic's results. */
  method FoldResults(results: seq<AnalyzerResult>) returns (sentiments: map<string, Sentiment>)
    ensures sentiments.Keys == FoldAll(results).Keys && Distinct(sentiments)
    ensures forall t :: t in sentiments ==> fresh(sentiments[t])
    ensures forall t :: t in sentiments ==> sentiments[t].Value() == FoldAll(results)[t]
  {
    sentiments := map[];
    var i := 0;
    while i < |results|
      invariant 0 <= i <= |results|
      invariant sentiments.Keys == FoldAll(results[..i]).Keys
      invariant forall t :: t in sentiments ==> fresh(sentiments[t])
      invariant Distinct(sentiments)
      invariant forall t :: t in sentiments ==> sentiments[t].Value() == FoldAll(results[..i])[t]
    {
      assert results[..i + 1][..i] == results[..i];
      sentiments := Absorb(sentiments, FoldAll(results[..i]), results[i]);
      i := i + 1;
    }
    assert results[..i] == results;
  }

  /** `Aggregator.Run`: folds the whole stream into one Sentiment per topic,
      then finalizes every topic once, in an order of the map's choosing
      (`attempted`), the i-th at time `clock(i)`, and saves it. A save in
      `failing` fails: that topic's record is lost and the others are still
      saved. Run itself reports no error. */
  method Run(results: seq<AnalyzerResult>, failing: set<string>, clock: nat -> int,
             makeSlug: string -> string, root: real -> real)
    returns (attempted: seq<string>, saved: seq<SentimentRecord>)
    ensures forall t :: t in attempted <==> t in Topics(results)
    ensures forall i, j :: 0 <= i < j < |attempted| ==> attempted[i] != attempted[j]
    ensures saved == SavedRecords(Summaries(results), attempted, failing, clock, makeSlug, root)
  {
    var sentiments := FoldResults(results);
    attempted, saved := SaveAll(sentiments, FoldAll(results), failing, clock, makeSlug, root);
    FoldAllIsSummaries(results);
  }
}
