/**
 * The search-term file of centimentd (cmd/centimentd/config.go): after the
 * TOML file is decoded into a list of search terms, every term must have a
 * topic and a query of at least three runes each. The decode itself is a
 * parameter: either the decoded list or the decoder's error.
 */
module Config {
  import opened Wrappers
  import opened Terms
  import opened Search

  /** Why parseSearchTerms refused the file: the decoder failed, or a topic
      or a query is shorter than three runes (the string and its rune count). */
  datatype ConfigError =
    | Decode(msg: string)
    | TopicTooShort(topic: string, count: nat)
    | QueryTooShort(query: string, count: nat)

  /** The fewest runes a topic or a query may have. */
  const MinRunes: nat := 3

  /** A term the file may hold: topic and query of at least three runes. */
  predicate LongEnough(t: SearchTerm)
  {
    |t.topic| >= MinRunes && |t.query| >= MinRunes
  }

  /** Term i is the first term that is not long enough. */
  predicate FirstTooShort(terms: seq<SearchTerm>, i: int)
  {
    0 <= i < |terms| && !LongEnough(terms[i]) && forall j :: 0 <= j < i ==> LongEnough(terms[j])
  }

  /** The complaint parseSearchTerms makes about term t, if any: its topic is
      checked before its query. */
  function TermError(t: SearchTerm): (r: Option<ConfigError>)
    ensures r == None <==> LongEnough(t)
  {
    if |t.topic| < MinRunes then Some(TopicTooShort(t.topic, |t.topic|))
    else if |t.query| < MinRunes then Some(QueryTooShort(t.query, |t.query|))
    else None
  }

  /** The validation loop of parseSearchTerms: the complaint about the first
      term that has one. */
  function ValidateTerms(terms: seq<SearchTerm>): Option<ConfigError>
  {
    if |terms| == 0 then None
    else if TermError(terms[0]).Some? then TermError(terms[0])
    else ValidateTerms(terms[1..])
  }

  /** The loop finds nothing exactly when every term is long enough, and
      otherwise reports the first term that is not. */
  lemma {:induction false} ValidateTermsSpec(terms: seq<SearchTerm>)
    ensures ValidateTerms(terms) == None <==> forall i :: 0 <= i < |terms| ==> LongEnough(terms[i])
    ensures forall i :: FirstTooShort(terms, i) ==> ValidateTerms(terms) == TermError(terms[i])
  {
    if |terms| > 0 {
      ValidateTermsSpec(terms[1..]);
      forall i | FirstTooShort(terms, i) ensures ValidateTerms(terms) == TermError(terms[i]) {
        if i > 0 {
          assert LongEnough(terms[0]);
          assert FirstTooShort(terms[1..], i - 1);
        }
      }
      if ValidateTerms(terms) == None {
        forall i | 0 <= i < |terms| ensures LongEnough(terms[i]) {
          if i > 0 {
            assert terms[i] == terms[1..][i - 1];
          }
        }
      }
    }
  }

  /** `parseSearchTerms` after the decode: the decoder's error is passed on;
      otherwise the decoded list comes back unchanged exactly when every
      topic and query has at least three runes, and the first term that
      falls short decides the error. */
  function ParseSearchTerms(decoded: Result<seq<SearchTerm>, string>): (r: Result<seq<SearchTerm>, ConfigError>)
    ensures decoded.Failure? ==> r == Failure(Decode(decoded.error))
    ensures decoded.Success? ==>
              (r.Success? <==> forall i :: 0 <= i < |decoded.value| ==> LongEnough(decoded.value[i]))
    ensures r.Success? ==> decoded.Success? && r.value == decoded.value
    ensures decoded.Success? ==>
              forall i :: FirstTooShort(decoded.value, i) ==> r == Failure(TermError(decoded.value[i]).value)
  {
    match decoded
    case Failure(msg) => Failure(Decode(msg))
    case Success(terms) =>
      ValidateTermsSpec(terms);
      match ValidateTerms(terms)
      case Some(e) => Failure(e)
      case None => Success(terms)
  }

  /** A topic and a query of exactly three runes pass; two runes do not. */
  lemma ThreeRunesSuffice(topic: string, query: string)
    requires |topic| == 3 && |query| >= 3
    ensures ParseSearchTerms(Success([SearchTerm(topic, query)])) == Success([SearchTerm(topic, query)])
    ensures ParseSearchTerms(Success([SearchTerm(topic[..2], query)])) == Failure(TopicTooShort(topic[..2], 2))
  {
    assert FirstTooShort([SearchTerm(topic[..2], query)], 0);
  }

  /** Every term of an accepted file has a non-empty topic and query, so
      NewSearcher accepts a non-empty file whenever minResults is positive and
      the credentials verify. */
  lemma AcceptedTermsAreUsable(decoded: Result<seq<SearchTerm>, string>, minResults: int, maxAge: int)
    requires ParseSearchTerms(decoded).Success?
    ensures forall i :: 0 <= i < |ParseSearchTerms(decoded).value| ==> Usable(ParseSearchTerms(decoded).value[i])
    ensures |ParseSearchTerms(decoded).value| > 0 && minResults >= 1 ==>
              NewSearcher(ParseSearchTerms(decoded).value, minResults, maxAge, true).Success?
  {
    var terms := ParseSearchTerms(decoded).value;
    assert forall i :: 0 <= i < |terms| ==> LongEnough(terms[i]);
  }

  /** A file with no search terms passes validation, but NewSearcher then
      refuses the empty list. */
  lemma EmptyFileAcceptedThenRefused(minResults: int, maxAge: int, credentialsOk: bool)
    ensures ParseSearchTerms(Success([])) == Success([])
    ensures NewSearcher([], minResults, maxAge, credentialsOk) == Failure(NoTerms)
  {
  }
}
