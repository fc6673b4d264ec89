/**
 * The search side of search.go: the validation in NewSearcher, the checkpoint
 * lookup of getLastSeenID, and the fetch loop of `search`, which pages
 * backwards through Twitter's search results for one term, keeping a cursor at
 * the oldest tweet ID seen, counting every status as seen and emitting only the
 * ones whose timestamp parses and that are recent enough.
 *
 * The Twitter API and the cancellation context are a script: what happens at
 * each iteration of the fetch loop is one Step, either the context being done,
 * the API call failing, or a page of statuses. The emitted results, which the
 * source sends on a channel, are appended to a sequence.
 */
module Search {
  import opened Wrappers
  import opened Terms
  import opened Store

  /** A status of a search page: its ID, whether its creation time parsed,
      its age (time.Since of the creation time, in the unit of maxAge),
      whether it carries a retweeted status, and its text. */
  datatype Status = Status(id: Int64, parsedOk: bool, age: int, hasRetweetedStatus: bool, text: string)

  /** `SearchResult`: the term (the loop's own copy, after buildQuery), the tweet ID,
      the retweet flag and the content. */
  datatype SearchResult = SearchResult(term: SearchTerm, tweetID: Int64, retweet: bool, content: string)

  /** What one iteration of the fetch loop meets: the context is done, the
      search call fails, or the call returns a page of statuses. */
  datatype Step = Cancel | Fail | Reply(page: seq<Status>)

  /** The query and the URL parameters of one GetSearch call. */
  datatype Request = Request(query: string, resultType: string, lang: string, count: int, maxID: Int64, sinceID: int)

  /** How the fetch loop ended: its condition became false, the context was
      done, the API call failed, the script of steps ran out, or (under the
      corrected rule only) a page came back empty. */
  datatype Exit = Satisfied | Cancelled | ApiError | ScriptEnd | EmptyPage

  /** The configuration a Searcher keeps. */
  datatype Searcher = Searcher(terms: seq<SearchTerm>, minResults: int, maxAge: int)

  datatype SearcherError = NoTerms | EmptyTopic | EmptyQuery | BadMinResults | Unauthenticated

  /** Why getLastSeenID returned no checkpoint. */
  datatype LookupError = Lookup(cause: StoreError) | Ambiguous(got: nat)

  // ---------------------------------------------------------------------------
  // NewSearcher

  /** A term NewSearcher accepts: non-empty topic and non-empty query. */
  predicate Usable(t: SearchTerm)
  {
    t.topic != "" && t.query != ""
  }

  /** Term i is the first term NewSearcher rejects. */
  predicate FirstUnusable(terms: seq<SearchTerm>, i: int)
  {
    0 <= i < |terms| && !Usable(terms[i]) && forall j :: 0 <= j < i ==> Usable(terms[j])
  }

  /** The loop over the terms in NewSearcher: the complaint about the first
      term with an empty topic or query, the topic being checked first. */
  function TermsError(terms: seq<SearchTerm>): (r: Option<SearcherError>)
    ensures r == None || r == Some(EmptyTopic) || r == Some(EmptyQuery)
  {
    if |terms| == 0 then None
    else if terms[0].topic == "" then Some(EmptyTopic)
    else if terms[0].query == "" then Some(EmptyQuery)
    else TermsError(terms[1..])
  }

  /** The terms loop finds nothing exactly when every term is usable; otherwise
      it reports the first unusable term, EmptyTopic when its topic is empty
      and EmptyQuery when only its query is. */
  lemma {:induction false} TermsErrorSpec(terms: seq<SearchTerm>)
    ensures TermsError(terms) == None <==> forall i :: 0 <= i < |terms| ==> Usable(terms[i])
    ensures forall i :: FirstUnusable(terms, i) ==>
              TermsError(terms) == Some(if terms[i].topic == "" then EmptyTopic else EmptyQuery)
  {
    if |terms| > 0 {
      TermsErrorSpec(terms[1..]);
      forall i | FirstUnusable(terms, i)
        ensures TermsError(terms) == Some(if terms[i].topic == "" then EmptyTopic else EmptyQuery)
      {
        if i > 0 {
          assert Usable(terms[0]);
          assert FirstUnusable(terms[1..], i - 1);
        }
      }
      if TermsError(terms) == None {
        forall i | 0 <= i < |terms| ensures Usable(terms[i]) {
          if i > 0 {
            assert terms[i] == terms[1..][i - 1];
          }
        }
      }
    }
  }

  /** `NewSearcher`: a Searcher exists exactly when there is a term, every
      term has a topic and a query, minResults is at least 1 and the
      credentials verify; the checks run in that order. */
  function NewSearcher(terms: seq<SearchTerm>, minResults: int, maxAge: int, credentialsOk: bool): (r: Result<Searcher, SearcherError>)
    ensures r.Success? <==>
      |terms| > 0 && (forall i :: 0 <= i < |terms| ==> Usable(terms[i])) && minResults >= 1 && credentialsOk
    ensures r.Success? ==> r.value == Searcher(terms, minResults, maxAge)
    ensures |terms| == 0 ==> r == Failure(NoTerms)
    ensures forall i :: FirstUnusable(terms, i) ==>
              r == Failure(if terms[i].topic == "" then EmptyTopic else EmptyQuery)
    ensures r == Failure(BadMinResults) <==>
      |terms| > 0 && (forall i :: 0 <= i < |terms| ==> Usable(terms[i])) && minResults < 1
    ensures r == Failure(Unauthenticated) <==>
      |terms| > 0 && (forall i :: 0 <= i < |terms| ==> Usable(terms[i])) && minResults >= 1 && !credentialsOk
  {
    TermsErrorSpec(terms);
    if |terms| == 0 then Failure(NoTerms)
    else if TermsError(terms).Some? then Failure(TermsError(terms).value)
    else if minResults < 1 then Failure(BadMinResults)
    else if !credentialsOk then Failure(Unauthenticated)
    else Success(Searcher(terms, minResults, maxAge))
  }

  // ---------------------------------------------------------------------------
  // getLastSeenID

  /** `getLastSeenID`: looks up one record by the slug of the topic. The
      checkpoint is that record's LastSeenID when the lookup yields exactly one
      record, and 0, with an error, otherwise. */
  function GetLastSeenID(st: SearchTerm, makeSlug: string -> string, isSlug: string -> bool,
                         lookup: (string, int) -> Result<seq<SentimentRecord>, StoreError>): (r: (int, Option<LookupError>))
    ensures r.1 == None <==>
      isSlug(makeSlug(st.topic)) && lookup(makeSlug(st.topic), 1).Success? && |lookup(makeSlug(st.topic), 1).value| == 1
    ensures r.1 == None ==> r.0 == lookup(makeSlug(st.topic), 1).value[0].lastSeenID
    ensures r.1 != None ==> r.0 == 0
    ensures !isSlug(makeSlug(st.topic)) ==> r.1 == Some(Lookup(InvalidSlug))
    ensures isSlug(makeSlug(st.topic)) && lookup(makeSlug(st.topic), 1).Failure? ==>
              r.1 == Some(Lookup(lookup(makeSlug(st.topic), 1).error))
    ensures isSlug(makeSlug(st.topic)) && lookup(makeSlug(st.topic), 1).Success? && |lookup(makeSlug(st.topic), 1).value| != 1 ==>
              r.1 == Some(Ambiguous(|lookup(makeSlug(st.topic), 1).value|))
  {
    var topicSlug := makeSlug(st.topic);
    match GetSentimentsBySlug(topicSlug, 1, isSlug, lookup)
    case Failure(e) => (0, Some(Lookup(e)))
    case Success(recs) =>
      if |recs| != 1 then (0, Some(Ambiguous(|recs|))) else (recs[0].lastSeenID, None)
  }

  // ---------------------------------------------------------------------------
  // Request parameters

  /** The `count` parameter: minResults, capped at 100. */
  function PageSize(minResults: int): (r: int)
    ensures r <= 100 && r <= minResults
    ensures r == 100 || r == minResults
  {
    if minResults > 100 then 100 else minResults
  }

  /** The `max_id` parameter: cursor − 1 in int64 arithmetic, which wraps
      around at the least int64. */
  function MaxIDParam(cursor: Int64): (r: Int64)
    ensures cursor > MinInt64 ==> r < cursor && r + 1 == cursor
    ensures cursor == MinInt64 ==> r == MaxInt64
  {
    if cursor == MinInt64 then MaxInt64 else cursor - 1
  }

  /** The request of an iteration whose cursor is `cursor`. */
  function RequestFor(query: string, minResults: int, fromID: int, cursor: Int64): Request
  {
    Request(query, "recent", "en", PageSize(minResults), MaxIDParam(cursor), fromID)
  }

  // ---------------------------------------------------------------------------
  // The stopping rule

  /** The loop condition at search.go:189 as written, the give-up rule the
      comment above it describes, and that rule with the loop also ending on
      an empty page, which is what bounds the number of requests. */
  datatype LoopRule = AsWritten | Intended | IntendedUntilEmpty

  predicate KeepFetching(rule: LoopRule, collected: int, seen: int, minResults: int)
  {
    match rule
    case AsWritten => collected < minResults || seen >= minResults * 3
    case Intended | IntendedUntilEmpty => collected < minResults && seen < minResults * 3
  }

  /** As written, the loop stops only when enough results were collected and
      fewer than three times minResults statuses were seen. */
  lemma AsWrittenStopsOnlyWhen(collected: int, seen: int, minResults: int)
    ensures !KeepFetching(AsWritten, collected, seen, minResults) <==>
            collected >= minResults && seen < minResults * 3
  {
  }

  /** As written, the give-up never happens: once three times minResults
      statuses were seen, the loop goes on whatever was collected. */
  lemma AsWrittenNeverGivesUp(collected: int, seen: int, minResults: int)
    requires seen >= minResults * 3
    ensures KeepFetching(AsWritten, collected, seen, minResults)
  {
  }

  /** With the rule of the comment the loop stops once enough results were
      collected or three times minResults statuses were seen. */
  lemma IntendedStops(collected: int, seen: int, minResults: int)
    ensures !KeepFetching(Intended, collected, seen, minResults) <==>
            collected >= minResults || seen >= minResults * 3
  {
  }

  /** minResults = 5: after 15 statuses seen and 4 collected the code as written
      fetches again where the comment gives up, and after 15 seen and 5
      collected it fetches again although it has enough. */
  lemma GiveUpCounterexample()
    ensures KeepFetching(AsWritten, 4, 15, 5) && !KeepFetching(Intended, 4, 15, 5)
    ensures KeepFetching(AsWritten, 5, 15, 5) && !KeepFetching(Intended, 5, 15, 5)
  {
  }

  // ---------------------------------------------------------------------------
  // One page

  /** A status the loop emits: its creation time parsed and its age is at most maxAge. */
  predicate Recent(s: Status, maxAge: int)
  {
    s.parsedOk && !(s.age > maxAge)
  }

  /** The result built for an emitted status. */
  function ResultOf(s: Status, term: SearchTerm): (r: SearchResult)
    ensures r.term == term && r.tweetID == s.id && r.content == s.text
    ensures r.retweet <==> s.hasRetweetedStatus
  {
    SearchResult(term, s.id, s.hasRetweetedStatus, s.text)
  }

  /** The results emitted for a page, in page order. */
  function EmitPage(page: seq<Status>, term: SearchTerm, maxAge: int): (r: seq<SearchResult>)
    ensures |r| <= |page|
  {
    if |page| == 0 then []
    else
      var last := page[|page| - 1];
      EmitPage(page[..|page| - 1], term, maxAge) + (if Recent(last, maxAge) then [ResultOf(last, term)] else [])
  }

  /** The positions of the statuses of a page that are emitted. */
  ghost function KeptIndices(page: seq<Status>, maxAge: int): seq<int>
  {
    if |page| == 0 then []
    else KeptIndices(page[..|page| - 1], maxAge) + (if Recent(page[|page| - 1], maxAge) then [|page| - 1] else [])
  }

  /** The kept positions are positions of the page, in increasing order, and
      a position is kept if and only if its status is recent. */
  lemma {:induction false} KeptIndicesSpec(page: seq<Status>, maxAge: int)
    ensures forall k :: 0 <= k < |KeptIndices(page, maxAge)| ==> 0 <= KeptIndices(page, maxAge)[k] < |page|
    ensures forall k, l :: 0 <= k < l < |KeptIndices(page, maxAge)| ==> KeptIndices(page, maxAge)[k] < KeptIndices(page, maxAge)[l]
    ensures forall i :: 0 <= i < |page| ==> (Recent(page[i], maxAge) <==> i in KeptIndices(page, maxAge))
  {
    if |page| > 0 {
      var p := page[..|page| - 1];
      KeptIndicesSpec(p, maxAge);
      assert forall i :: 0 <= i < |p| ==> p[i] == page[i];
    }
  }

  /** The emitted results of a page are the results of exactly its recent
      statuses, in page order: the k-th result is that of the status at the
      k-th kept position. */
  lemma {:induction false} EmitPageKeeps(page: seq<Status>, term: SearchTerm, maxAge: int)
    ensures |KeptIndices(page, maxAge)| == |EmitPage(page, term, maxAge)|
    ensures forall k :: 0 <= k < |KeptIndices(page, maxAge)| ==>
              0 <= KeptIndices(page, maxAge)[k] < |page| &&
              EmitPage(page, term, maxAge)[k] == ResultOf(page[KeptIndices(page, maxAge)[k]], term)
  {
    KeptIndicesSpec(page, maxAge);
    if |page| > 0 {
      var p := page[..|page| - 1];
      EmitPageKeeps(p, term, maxAge);
      KeptIndicesSpec(p, maxAge);
      assert forall i :: 0 <= i < |p| ==> p[i] == page[i];
    }
  }

  /** The cursor after a page: the smaller of the cursor and each ID in turn. */
  function Lowest(cursor: Int64, page: seq<Status>): Int64
  {
    if |page| == 0 then cursor
    else
      var c := Lowest(cursor, page[..|page| - 1]);
      if c > page[|page| - 1].id then page[|page| - 1].id else c
  }

  /** Lowest is the least of the cursor and the IDs of the page. */
  lemma {:induction false} LowestIsMin(cursor: Int64, page: seq<Status>)
    ensures Lowest(cursor, page) <= cursor && forall i :: 0 <= i < |page| ==> Lowest(cursor, page) <= page[i].id
    ensures Lowest(cursor, page) == cursor || exists i :: 0 <= i < |page| && Lowest(cursor, page) == page[i].id
  {
    if |page| > 0 {
      var p := page[..|page| - 1];
      LowestIsMin(cursor, p);
      assert forall i :: 0 <= i < |p| ==> p[i] == page[i];
      if Lowest(cursor, page) != cursor && Lowest(cursor, page) == Lowest(cursor, p) {
        var i :| 0 <= i < |p| && Lowest(cursor, p) == p[i].id;
        assert Lowest(cursor, page) == page[i].id;
      }
    }
  }

  /** `for _, status := range resp.Statuses`: every status moves the cursor
      and counts as seen; recent ones are emitted and counted as collected. */
  method ScanPage(page: seq<Status>, term: SearchTerm, maxAge: int,
                  out: seq<SearchResult>, collected: int, seen: int, cursor: Int64)
    returns (out': seq<SearchResult>, collected': int, seen': int, cursor': Int64)
    ensures out' == out + EmitPage(page, term, maxAge)
    ensures collected' == collected + |EmitPage(page, term, maxAge)|
    ensures seen' == seen + |page|
    ensures cursor' == Lowest(cursor, page)
  {
    out', collected', seen', cursor' := out, collected, seen, cursor;
    var i := 0;
    while i < |page|
      invariant 0 <= i <= |page|
      invariant out' == out + EmitPage(page[..i], term, maxAge)
      invariant collected' == collected + |EmitPage(page[..i], term, maxAge)|
      invariant seen' == seen + i
      invariant cursor' == Lowest(cursor, page[..i])
    {
      var status := page[i];
      assert page[..i + 1][..i] == page[..i];
      if cursor' > status.id {
        cursor' := status.id;
      }
      if !status.parsedOk {
        seen' := seen' + 1;
      } else if status.age > maxAge {
        seen' := seen' + 1;
      } else {
        out' := out' + [ResultOf(status, term)];
        collected' := collected' + 1;
        seen' := seen' + 1;
      }
      i := i + 1;
    }
    assert page[..i] == page;
  }

  // ---------------------------------------------------------------------------
  // Several pages

  /** The statuses a step brings: its page for a reply, none otherwise. */
  function Page(s: Step): seq<Status>
  {
    if s.Reply? then s.page else []
  }

  /** Everything emitted over the pages of `steps`, in order. */
  function EmittedBy(steps: seq<Step>, term: SearchTerm, maxAge: int): seq<SearchResult>
  {
    if |steps| == 0 then []
    else EmittedBy(steps[..|steps| - 1], term, maxAge) + EmitPage(Page(steps[|steps| - 1]), term, maxAge)
  }

  /** The number of statuses over the pages of `steps`. */
  function SeenBy(steps: seq<Step>): nat
  {
    if |steps| == 0 then 0 else SeenBy(steps[..|steps| - 1]) + |Page(steps[|steps| - 1])|
  }

  /** The cursor after the pages of `steps`, starting at the greatest int64. */
  function CursorBy(steps: seq<Step>): Int64
  {
    if |steps| == 0 then MaxInt64 else Lowest(CursorBy(steps[..|steps| - 1]), Page(steps[|steps| - 1]))
  }

  /** The first k steps of the first k + 1 steps, and the last of them. */
  lemma PrefixOfPrefix(script: seq<Step>, k: int)
    requires 0 <= k < |script|
    ensures script[..k + 1][..k] == script[..k] && script[..k + 1][k] == script[k]
  {
  }

  /** Every step of `steps` is a reply. */
  predicate AllReplies(steps: seq<Step>)
  {
    |steps| == 0 || (AllReplies(steps[..|steps| - 1]) && steps[|steps| - 1].Reply?)
  }

  /** AllReplies holds exactly when every step is a reply. */
  lemma {:induction false} AllRepliesAt(steps: seq<Step>)
    ensures AllReplies(steps) <==> forall j :: 0 <= j < |steps| ==> steps[j].Reply?
  {
    if |steps| > 0 {
      var prefix := steps[..|steps| - 1];
      AllRepliesAt(prefix);
      assert forall j :: 0 <= j < |prefix| ==> prefix[j] == steps[j];
    }
  }

  /** Every reply of the script has at least one status. */
  predicate NonEmptyReplies(script: seq<Step>)
  {
    forall j :: 0 <= j < |script| && script[j].Reply? ==> |script[j].page| > 0
  }

  /** An empty page changes nothing the loop looks at: over any number of
      empty replies nothing is seen or collected, the cursor stays at the
      greatest int64, the loop condition keeps holding under every rule, and
      every request is the first one again. Without a stop on an empty page
      the loop therefore ends only when the context is done or the call fails. */
  lemma {:induction false} EmptyRepliesRefetch(rule: LoopRule, steps: seq<Step>, term: SearchTerm, maxAge: int,
                                               minResults: int, query: string, fromID: int)
    requires minResults >= 1
    requires forall j :: 0 <= j < |steps| ==> steps[j] == Reply([])
    ensures EmittedBy(steps, term, maxAge) == [] && SeenBy(steps) == 0 && CursorBy(steps) == MaxInt64
    ensures RuleHeldBefore(rule, steps, term, maxAge, minResults)
    ensures KeepFetching(rule, |EmittedBy(steps, term, maxAge)|, SeenBy(steps), minResults)
    ensures |RequestsFor(steps, query, minResults, fromID)| == |steps|
    ensures forall j :: 0 <= j < |steps| ==>
              RequestsFor(steps, query, minResults, fromID)[j] == RequestFor(query, minResults, fromID, MaxInt64)
  {
    if |steps| > 0 {
      var prefix := steps[..|steps| - 1];
      assert forall j :: 0 <= j < |prefix| ==> prefix[j] == steps[j];
      EmptyRepliesRefetch(rule, prefix, term, maxAge, minResults, query, fromID);
      assert Page(steps[|steps| - 1]) == [];
    }
  }

  /** The first n steps of the script all bring at least one status. */
  predicate NonEmptyBefore(script: seq<Step>, n: int)
  {
    forall j :: 0 <= j < n && j < |script| ==> Page(script[j]) != []
  }

  /** One more non-empty step extends NonEmptyBefore by one. */
  lemma NonEmptyBeforeStep(script: seq<Step>, n: int)
    requires 0 < n <= |script| && NonEmptyBefore(script, n - 1) && Page(script[n - 1]) != []
    ensures NonEmptyBefore(script, n)
  {
  }

  /** Every status of the pages of `steps` has an ID above `fromID`. */
  ghost predicate AllAbove(steps: seq<Step>, fromID: int)
  {
    forall j, i :: 0 <= j < |steps| && 0 <= i < |Page(steps[j])| ==> Page(steps[j])[i].id > fromID
  }

  /** The code never compares an ID with the checkpoint: only if Twitter
      honours `since_id`, returning statuses above it alone, is every emitted
      result above the checkpoint. */
  lemma {:induction false} EmittedAboveCheckpoint(steps: seq<Step>, term: SearchTerm, maxAge: int, fromID: int)
    requires AllAbove(steps, fromID)
    ensures forall k :: 0 <= k < |EmittedBy(steps, term, maxAge)| ==> EmittedBy(steps, term, maxAge)[k].tweetID > fromID
  {
    if |steps| > 0 {
      var prefix, last := steps[..|steps| - 1], Page(steps[|steps| - 1]);
      assert forall j :: 0 <= j < |prefix| ==> prefix[j] == steps[j];
      EmittedAboveCheckpoint(prefix, term, maxAge, fromID);
      EmitPageKeeps(last, term, maxAge);
      KeptIndicesSpec(last, maxAge);
      var before, page := EmittedBy(prefix, term, maxAge), EmitPage(last, term, maxAge);
      assert EmittedBy(steps, term, maxAge) == before + page;
      forall k | 0 <= k < |page| ensures page[k].tweetID > fromID {
        var i := KeptIndices(last, maxAge)[k];
        assert page[k].tweetID == last[i].id;
        assert Page(steps[|steps| - 1])[i].id > fromID;
      }
    }
  }

  /** No more results are collected than statuses are seen. */
  lemma {:induction false} CollectedAtMostSeen(steps: seq<Step>, term: SearchTerm, maxAge: int)
    ensures |EmittedBy(steps, term, maxAge)| <= SeenBy(steps)
  {
    if |steps| > 0 {
      CollectedAtMostSeen(steps[..|steps| - 1], term, maxAge);
    }
  }

  /** The cursor is the least ID of all statuses seen, skipped ones included,
      or the greatest int64 when none has a smaller ID. */
  lemma {:induction false} CursorIsLowest(steps: seq<Step>)
    ensures forall j, i :: 0 <= j < |steps| && 0 <= i < |Page(steps[j])| ==> CursorBy(steps) <= Page(steps[j])[i].id
    ensures CursorBy(steps) == MaxInt64 ||
            exists j, i :: 0 <= j < |steps| && 0 <= i < |Page(steps[j])| && CursorBy(steps) == Page(steps[j])[i].id
  {
    if |steps| > 0 {
      var prefix := steps[..|steps| - 1];
      var last := steps[|steps| - 1];
      CursorIsLowest(prefix);
      LowestIsMin(CursorBy(prefix), Page(last));
      assert forall j :: 0 <= j < |prefix| ==> steps[j] == prefix[j];
      var c := CursorBy(prefix);
      if CursorBy(steps) != MaxInt64 {
        if CursorBy(steps) == c {
          var j, i :| 0 <= j < |prefix| && 0 <= i < |Page(prefix[j])| && c == Page(prefix[j])[i].id;
          assert 0 <= i < |Page(steps[j])| && CursorBy(steps) == Page(steps[j])[i].id;
        } else {
          var i :| 0 <= i < |Page(last)| && CursorBy(steps) == Page(last)[i].id;
          assert steps[|steps| - 1] == last;
        }
      }
    }
  }

  /** The requests sent for the pages of `steps`: one per page, each with the
      cursor reached before that page. */
  function RequestsFor(steps: seq<Step>, query: string, minResults: int, fromID: int): seq<Request>
  {
    if |steps| == 0 then []
    else
      var prefix := steps[..|steps| - 1];
      RequestsFor(prefix, query, minResults, fromID) + [RequestFor(query, minResults, fromID, CursorBy(prefix))]
  }

  /** The j-th request carries the cursor reached after the first j pages. */
  lemma {:induction false} RequestsForAt(steps: seq<Step>, query: string, minResults: int, fromID: int)
    ensures |RequestsFor(steps, query, minResults, fromID)| == |steps|
    ensures forall j :: 0 <= j < |steps| ==>
              RequestsFor(steps, query, minResults, fromID)[j] == RequestFor(query, minResults, fromID, CursorBy(steps[..j]))
  {
    if |steps| > 0 {
      var prefix := steps[..|steps| - 1];
      RequestsForAt(prefix, query, minResults, fromID);
      forall j | 0 <= j < |prefix| ensures steps[..j] == prefix[..j] { }
    }
  }

  /** The loop rule allowed every page of `steps` to be fetched. */
  predicate RuleHeldBefore(rule: LoopRule, steps: seq<Step>, term: SearchTerm, maxAge: int, minResults: int)
  {
    |steps| == 0 ||
    var prefix := steps[..|steps| - 1];
    RuleHeldBefore(rule, prefix, term, maxAge, minResults) &&
    KeepFetching(rule, |EmittedBy(prefix, term, maxAge)|, SeenBy(prefix), minResults)
  }

  /** Before the j-th page the loop rule held of the results and statuses of the first j pages. */
  lemma {:induction false} RuleHeldBeforeAt(rule: LoopRule, steps: seq<Step>, term: SearchTerm, maxAge: int, minResults: int)
    requires RuleHeldBefore(rule, steps, term, maxAge, minResults)
    ensures forall j :: 0 <= j < |steps| ==>
              KeepFetching(rule, |EmittedBy(steps[..j], term, maxAge)|, SeenBy(steps[..j]), minResults)
  {
    if |steps| > 0 {
      var prefix := steps[..|steps| - 1];
      RuleHeldBeforeAt(rule, prefix, term, maxAge, minResults);
      forall j | 0 <= j < |prefix| ensures steps[..j] == prefix[..j] { }
    }
  }

  // ---------------------------------------------------------------------------
  // The fetch loop

  /** What the running totals of the fetch loop are after the first k steps
      of the script, all of them replies: the results, statuses, cursor and
      requests of those pages, the loop rule having held before each, and the
      bounds on the number of pages under the give-up rule. `lastEmpty` says
      whether the last page was empty. */
  predicate LoopState(rule: LoopRule, minResults: int, maxAge: int, term: SearchTerm, query: string, fromID: int,
                      script: seq<Step>, k: int, out: seq<SearchResult>, collected: int, seen: int, cursor: Int64,
                      requests: seq<Request>, lastEmpty: bool)
  {
    && 0 <= k <= |script| && AllReplies(script[..k])
    && out == EmittedBy(script[..k], term, maxAge) && collected == |out|
    && seen == SeenBy(script[..k]) && cursor == CursorBy(script[..k])
    && requests == RequestsFor(script[..k], query, minResults, fromID)
    && RuleHeldBefore(rule, script[..k], term, maxAge, minResults)
    && (rule == Intended && minResults >= 1 && NonEmptyReplies(script) ==> k <= seen && k <= 3 * minResults)
    && (lastEmpty <==> 0 < k && Page(script[k - 1]) == [])
    && (lastEmpty ==> KeepFetching(rule, collected, seen, minResults))
    && (rule == IntendedUntilEmpty ==> NonEmptyBefore(script, k - 1))
    && (rule == IntendedUntilEmpty && minResults >= 1 ==>
          k <= 3 * minResults && k <= seen + (if lastEmpty then 1 else 0))
  }

  /** One pass of the fetch loop that got page k: sends the request for the
      cursor, scans the page and moves every running total, and the prefix of
      the script they describe, on by that page. */
  method FetchPage(rule: LoopRule, minResults: int, maxAge: int, term: SearchTerm, query: string, fromID: int,
                   script: seq<Step>, k: nat, out: seq<SearchResult>, collected: int, seen: int, cursor: Int64,
                   requests: seq<Request>, lastEmpty: bool)
    returns (out': seq<SearchResult>, collected': int, seen': int, cursor': Int64,
             requests': seq<Request>, lastEmpty': bool)
    requires LoopState(rule, minResults, maxAge, term, query, fromID, script, k, out, collected, seen, cursor, requests, lastEmpty)
    requires k < |script| && script[k].Reply? && KeepFetching(rule, collected, seen, minResults)
    requires !(rule == IntendedUntilEmpty && lastEmpty)
    ensures LoopState(rule, minResults, maxAge, term, query, fromID, script, k + 1, out', collected', seen', cursor',
                      requests', lastEmpty')
    ensures requests' == requests + [RequestFor(query, minResults, fromID, cursor)]
  {
    if rule == IntendedUntilEmpty && 0 < k {
      NonEmptyBeforeStep(script, k);
    }
    PrefixOfPrefix(script, k);
    requests' := requests + [RequestFor(query, minResults, fromID, cursor)];
    out', collected', seen', cursor' := ScanPage(script[k].page, term, maxAge, out, collected, seen, cursor);
    lastEmpty' := |script[k].page| == 0;
  }

  /** The `for` loop of `search` without its exits: pages are fetched and
      scanned while the loop rule holds, the script has a reply next, and
      (under IntendedUntilEmpty) the last page was not empty. */
  method FetchPages(rule: LoopRule, minResults: int, maxAge: int, term: SearchTerm, query: string, fromID: int,
                    script: seq<Step>)
    returns (out: seq<SearchResult>, requests: seq<Request>, fetched: nat,
             collected: int, seen: int, cursor: Int64, lastEmpty: bool)
    ensures LoopState(rule, minResults, maxAge, term, query, fromID, script, fetched, out, collected, seen, cursor,
                      requests, lastEmpty)
    ensures !KeepFetching(rule, collected, seen, minResults) || fetched == |script| || !script[fetched].Reply?
            || (rule == IntendedUntilEmpty && lastEmpty)
  {
    collected, seen := 0, 0;
    cursor := MaxInt64;
    lastEmpty := false;
    out, requests, fetched := [], [], 0;
    while KeepFetching(rule, collected, seen, minResults) && fetched < |script| && script[fetched].Reply?
          && !(rule == IntendedUntilEmpty && lastEmpty)
      invariant LoopState(rule, minResults, maxAge, term, query, fromID, script, fetched, out, collected, seen, cursor,
                          requests, lastEmpty)
      decreases |script| - fetched
    {
      out, collected, seen, cursor, requests, lastEmpty :=
        FetchPage(rule, minResults, maxAge, term, query, fromID, script, fetched, out, collected, seen, cursor,
                  requests, lastEmpty);
      fetched := fetched + 1;
    }
  }

  /** The fetch loop of `search` for the built term `term` and its query,
      from the checkpoint `fromID`: while the loop rule says so, it fetches the
      page older than the cursor and scans it. `fetched` counts the pages
      scanned. Under IntendedUntilEmpty it also ends after an empty page. */
  method FetchLoop(rule: LoopRule, minResults: int, maxAge: int, term: SearchTerm, query: string, fromID: int,
                   script: seq<Step>)
    returns (out: seq<SearchResult>, requests: seq<Request>, fetched: nat, exit: Exit)
    ensures fetched <= |script| && AllReplies(script[..fetched])
    ensures exit == Cancelled ==> fetched < |script| && script[fetched].Cancel?
    ensures exit == ApiError ==> fetched < |script| && script[fetched].Fail?
    ensures exit == ScriptEnd ==> fetched == |script|
    ensures out == EmittedBy(script[..fetched], term, maxAge)
    ensures requests == RequestsFor(script[..fetched], query, minResults, fromID)
                        + if exit == ApiError then [RequestFor(query, minResults, fromID, CursorBy(script[..fetched]))] else []
    ensures RuleHeldBefore(rule, script[..fetched], term, maxAge, minResults)
    ensures exit == Satisfied <==> !KeepFetching(rule, |out|, SeenBy(script[..fetched]), minResults)
    ensures rule == Intended && minResults >= 1 && NonEmptyReplies(script) ==> fetched <= 3 * minResults
    ensures exit == EmptyPage ==> rule == IntendedUntilEmpty && 0 < fetched && Page(script[fetched - 1]) == []
    ensures rule == IntendedUntilEmpty && 0 < fetched && Page(script[fetched - 1]) == [] ==> exit == EmptyPage
    ensures rule == IntendedUntilEmpty ==> NonEmptyBefore(script, fetched - 1)
    ensures rule == IntendedUntilEmpty && minResults >= 1 ==> fetched <= 3 * minResults
  {
    var collected, seen, cursor, lastEmpty;
    out, requests, fetched, collected, seen, cursor, lastEmpty := FetchPages(rule, minResults, maxAge, term, query, fromID, script);
    if rule == IntendedUntilEmpty && lastEmpty {
      exit := EmptyPage;
    } else if !KeepFetching(rule, collected, seen, minResults) {
      exit := Satisfied;
    } else if fetched == |script| {
      exit := ScriptEnd;
    } else if script[fetched].Cancel? {
      exit := Cancelled;
    } else {
      requests := requests + [RequestFor(query, minResults, fromID, cursor)];
      exit := ApiError;
    }
  }

  /** What the prefix functions say about the first `fetched` pages, page by page. */
  lemma FetchedPointwise(rule: LoopRule, script: seq<Step>, fetched: nat, term: SearchTerm, query: string,
                         maxAge: int, minResults: int, fromID: int)
    requires fetched <= |script| && AllReplies(script[..fetched])
    requires RuleHeldBefore(rule, script[..fetched], term, maxAge, minResults)
    ensures forall j :: 0 <= j < fetched ==> script[j].Reply?
    ensures |RequestsFor(script[..fetched], query, minResults, fromID)| == fetched
    ensures forall j :: 0 <= j < fetched ==>
              RequestsFor(script[..fetched], query, minResults, fromID)[j] == RequestFor(query, minResults, fromID, CursorBy(script[..j]))
    ensures forall j :: 0 <= j < fetched ==>
              KeepFetching(rule, |EmittedBy(script[..j], term, maxAge)|, SeenBy(script[..j]), minResults)
  {
    var steps := script[..fetched];
    RequestsForAt(steps, query, minResults, fromID);
    RuleHeldBeforeAt(rule, steps, term, maxAge, minResults);
    AllRepliesAt(steps);
    forall j | 0 <= j < fetched ensures steps[..j] == script[..j] { }
  }

  /** `search` for one term: looks up the checkpoint (proceeding with 0 when
      there is none), trims the query, and runs the fetch loop with them.
      Every request asks for `count` = min(minResults, 100) statuses older
      than the cursor reached so far and newer than the checkpoint; the loop
      rule held before every page fetched; the results are those of the
      recent statuses of the pages fetched. */
  method Search(rule: LoopRule, sr: Searcher, st: SearchTerm,
                makeSlug: string -> string, isSlug: string -> bool,
                lookup: (string, int) -> Result<seq<SentimentRecord>, StoreError>, script: seq<Step>)
    returns (out: seq<SearchResult>, requests: seq<Request>, fetched: nat, exit: Exit)
    ensures fetched <= |script| && forall j :: 0 <= j < fetched ==> script[j].Reply?
    ensures exit == Cancelled ==> fetched < |script| && script[fetched].Cancel?
    ensures exit == ApiError ==> fetched < |script| && script[fetched].Fail?
    ensures exit == ScriptEnd ==> fetched == |script|
    ensures out == EmittedBy(script[..fetched], BuildQuery(st).0, sr.maxAge)
    ensures |requests| == if exit == ApiError then fetched + 1 else fetched
    ensures forall j :: 0 <= j < |requests| ==>
              requests[j] == RequestFor(BuildQuery(st).1, sr.minResults, GetLastSeenID(st, makeSlug, isSlug, lookup).0,
                                        CursorBy(script[..j]))
    ensures forall j :: 0 <= j < fetched ==>
              KeepFetching(rule, |EmittedBy(script[..j], BuildQuery(st).0, sr.maxAge)|, SeenBy(script[..j]), sr.minResults)
    ensures exit == Satisfied <==> !KeepFetching(rule, |out|, SeenBy(script[..fetched]), sr.minResults)
    ensures rule == Intended && sr.minResults >= 1 && NonEmptyReplies(script) ==> fetched <= 3 * sr.minResults
    ensures exit == EmptyPage ==> rule == IntendedUntilEmpty && 0 < fetched && Page(script[fetched - 1]) == []
    ensures rule == IntendedUntilEmpty && sr.minResults >= 1 ==> fetched <= 3 * sr.minResults
  {
    var fromID := GetLastSeenID(st, makeSlug, isSlug, lookup).0;
    var built := BuildQuery(st);
    out, requests, fetched, exit := FetchLoop(rule, sr.minResults, sr.maxAge, built.0, built.1, fromID, script);
    FetchedPointwise(rule, script, fetched, built.0, built.1, sr.maxAge, sr.minResults, fromID);
  }
}
