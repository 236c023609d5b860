/**
 * The research-search tool: keyword relevance scoring of web-search hits and the
 * ranking of the first hits by that score. The HTTP request is an oracle `post`
 * from the query text to the provider's already-parsed answer.
 */
module ResearchSearch {
  import opened Wrappers
  import opened Text

  /** One hit of the provider's `organic` list; an absent field is `None`. */
  datatype OrganicResult = OrganicResult(title: Option<string>, snippet: Option<string>, link: Option<string>)

  /** One entry of the tool's `results` list. */
  datatype ScoredResult = ScoredResult(title: string, snippet: string, source: string, relevanceScore: nat)

  /** What the provider call produced: a raised exception (HTTP error status, network
      fault, undecodable body) or the decoded body with its optional `organic` list. */
  datatype Response = RequestFailed(reason: string) | Body(organic: Option<seq<OrganicResult>>)

  /** The three JSON objects the tool can answer with. */
  datatype SearchOutcome =
    | Failure(error: string)
    | NoResults(message: string)
    | Found(query: string, results: seq<ScoredResult>)

  const ResearchKeywords: seq<string> := [
    "study", "analysis", "research", "journal", "academic", "university",
    "financial", "risk", "volatility", "portfolio", "investment"
  ]

  const MissingKeyError: string := "SERPER_API_KEY not set in environment variables"
  const NoResultsMessage: string := "No relevant research results found."
  const SearchErrorPrefix: string := "Research search error: "
  const QuerySuffix: string := " financial risk management research "

  /** How many hits are scored, and how many of those are returned. */
  const ScoredLimit: nat := 6
  const ReturnedLimit: nat := 5

  // ---------------------------------------------------------------- relevance score

  /** What one keyword adds: 3 for the title, 2 for the snippet, 1 for the link. */
  function Points(keyword: string, title: string, snippet: string, link: string): nat
  {
    (if Contains(title, keyword) then 3 else 0)
    + (if Contains(snippet, keyword) then 2 else 0)
    + (if Contains(link, keyword) then 1 else 0)
  }

  /** The score accumulated over `keywords`, in order: at most 3 + 2 + 1 per keyword. */
  function KeywordScore(keywords: seq<string>, title: string, snippet: string, link: string): (score: nat)
    ensures score <= 6 * |keywords|
  {
    if |keywords| == 0 then 0
    else KeywordScore(keywords[..|keywords| - 1], title, snippet, link)
         + Points(keywords[|keywords| - 1], title, snippet, link)
  }

  /** How many of `keywords` occur in `text`. */
  function Hits(keywords: seq<string>, text: string): nat
  {
    if |keywords| == 0 then 0
    else Hits(keywords[..|keywords| - 1], text) + (if Contains(text, keywords[|keywords| - 1]) then 1 else 0)
  }

  /** The score is three times the title hits plus twice the snippet hits plus the link
      hits, and each hit count is at most the number of keywords. */
  lemma {:induction false} KeywordScoreByHits(keywords: seq<string>, title: string, snippet: string, link: string)
    ensures KeywordScore(keywords, title, snippet, link)
            == 3 * Hits(keywords, title) + 2 * Hits(keywords, snippet) + Hits(keywords, link)
    ensures Hits(keywords, title) <= |keywords| && Hits(keywords, snippet) <= |keywords|
            && Hits(keywords, link) <= |keywords|
  {
    if |keywords| > 0 {
      KeywordScoreByHits(keywords[..|keywords| - 1], title, snippet, link);
    }
  }

  /**
   * Scoring a hit: the three fields, absent ones read as "", lower-cased. Every
   * score lies between 0 and 66 = 11 keywords times 3 + 2 + 1.
   */
  function Relevance(r: OrganicResult): (score: nat)
    ensures score <= 6 * |ResearchKeywords| == 66
  {
    KeywordScore(ResearchKeywords, Lower(r.title.GetOr("")), Lower(r.snippet.GetOr("")), Lower(r.link.GetOr("")))
  }

  /** The score is zero exactly when no keyword occurs in any of the three fields. */
  lemma RelevanceZero(r: OrganicResult)
    ensures Relevance(r) == 0 <==>
      forall k :: 0 <= k < |ResearchKeywords| ==>
        !Contains(Lower(r.title.GetOr("")), ResearchKeywords[k])
        && !Contains(Lower(r.snippet.GetOr("")), ResearchKeywords[k])
        && !Contains(Lower(r.link.GetOr("")), ResearchKeywords[k])
  {
    var t, s, l := Lower(r.title.GetOr("")), Lower(r.snippet.GetOr("")), Lower(r.link.GetOr(""));
    ZeroScoreIffNoHit(ResearchKeywords, t, s, l);
  }

  lemma {:induction false} ZeroScoreIffNoHit(keywords: seq<string>, t: string, s: string, l: string)
    ensures KeywordScore(keywords, t, s, l) == 0 <==>
      forall k :: 0 <= k < |keywords| ==> !Contains(t, keywords[k]) && !Contains(s, keywords[k]) && !Contains(l, keywords[k])
  {
    if |keywords| > 0 {
      var init := keywords[..|keywords| - 1];
      ZeroScoreIffNoHit(init, t, s, l);
      assert forall k :: 0 <= k < |init| ==> init[k] == keywords[k];
    }
  }

  /** The score sees its fields only through `lower()`: hits whose fields agree up to
      case score the same. */
  lemma RelevanceIgnoresCase(a: OrganicResult, b: OrganicResult)
    requires Lower(a.title.GetOr("")) == Lower(b.title.GetOr(""))
    requires Lower(a.snippet.GetOr("")) == Lower(b.snippet.GetOr(""))
    requires Lower(a.link.GetOr("")) == Lower(b.link.GetOr(""))
    ensures Relevance(a) == Relevance(b)
  {
  }

  /**
   * `_calculate_relevance`: a loop over the keywords adding 3, 2 and 1 for a hit in
   * the lower-cased title, snippet and link. The query is accepted and not used.
   */
  method CalculateRelevance(result: OrganicResult, query: string) returns (score: nat)
    ensures score == Relevance(result)
    ensures score <= 66
  {
    var title := Lower(result.title.GetOr(""));
    var snippet := Lower(result.snippet.GetOr(""));
    var link := Lower(result.link.GetOr(""));
    score := 0;
    for i := 0 to |ResearchKeywords|
      invariant score == KeywordScore(ResearchKeywords[..i], title, snippet, link)
    {
      assert ResearchKeywords[..i + 1][..i] == ResearchKeywords[..i];
      if Contains(title, ResearchKeywords[i]) {
        score := score + 3;
      }
      if Contains(snippet, ResearchKeywords[i]) {
        score := score + 2;
      }
      if Contains(link, ResearchKeywords[i]) {
        score := score + 1;
      }
    }
    assert ResearchKeywords[..|ResearchKeywords|] == ResearchKeywords;
  }

  // ---------------------------------------------------------------- ranking

  function ToScored(r: OrganicResult): ScoredResult
  {
    ScoredResult(r.title.GetOr(""), r.snippet.GetOr(""), r.link.GetOr(""), Relevance(r))
  }

  /** The scored entries, in the provider's order: the k-th entry is the k-th hit, scored. */
  function ScoreAll(rs: seq<OrganicResult>): (s: seq<ScoredResult>)
    ensures |s| == |rs|
    ensures forall k :: 0 <= k < |rs| ==> s[k] == ToScored(rs[k])
  {
    if |rs| == 0 then [] else ScoreAll(rs[..|rs| - 1]) + [ToScored(rs[|rs| - 1])]
  }

  predicate SortedDesc(rs: seq<ScoredResult>) {
    forall i, j :: 0 <= i < j < |rs| ==> rs[i].relevanceScore >= rs[j].relevanceScore
  }

  /** The entries of `rs` whose score is `v`, in their order in `rs`. */
  function WithScore(rs: seq<ScoredResult>, v: nat): seq<ScoredResult>
  {
    if |rs| == 0 then []
    else (if rs[0].relevanceScore == v then [rs[0]] else []) + WithScore(rs[1..], v)
  }

  /** Places `x` before the first entry whose score is not above its own. */
  function InsertDesc(x: ScoredResult, s: seq<ScoredResult>): (r: seq<ScoredResult>)
    requires SortedDesc(s)
    ensures SortedDesc(r)
    ensures multiset(r) == multiset(s) + multiset{x}
  {
    if |s| == 0 || s[0].relevanceScore <= x.relevanceScore then [x] + s
    else
      var tail := InsertDesc(x, s[1..]);
      assert s == [s[0]] + s[1..];
      UpperBoundKept(tail, s[1..], x, s[0].relevanceScore);
      DescendingCons(s[0], tail);
      [s[0]] + tail
  }

  /** An entry scoring at least every entry of a descending list can go in front of it. */
  lemma DescendingCons(h: ScoredResult, t: seq<ScoredResult>)
    requires SortedDesc(t) && forall k :: 0 <= k < |t| ==> t[k].relevanceScore <= h.relevanceScore
    ensures SortedDesc([h] + t)
  {
    var r := [h] + t;
    forall i, j | 0 <= i < j < |r| ensures r[i].relevanceScore >= r[j].relevanceScore {
      assert r[j] == t[j - 1];
      if i > 0 {
        assert r[i] == t[i - 1];
      }
    }
  }

  /** A score at least that of `x` and of every entry of `u` bounds any arrangement of `u` with `x` added. */
  lemma UpperBoundKept(t: seq<ScoredResult>, u: seq<ScoredResult>, x: ScoredResult, b: nat)
    requires multiset(t) == multiset(u) + multiset{x}
    requires x.relevanceScore <= b && forall k :: 0 <= k < |u| ==> u[k].relevanceScore <= b
    ensures forall k :: 0 <= k < |t| ==> t[k].relevanceScore <= b
  {
    forall k | 0 <= k < |t| ensures t[k].relevanceScore <= b {
      assert t[k] in multiset(t);
      if t[k] != x {
        assert t[k] in multiset(u);
      }
    }
  }

  /** `list.sort(key=relevance_score, reverse=True)`: Python's sort is stable, so equal
      scores keep their input order (insertion sort is one stable sort). */
  function StableSortDesc(rs: seq<ScoredResult>): (s: seq<ScoredResult>)
    ensures SortedDesc(s)
    ensures multiset(s) == multiset(rs)
    ensures |s| == |rs|
  {
    if |rs| == 0 then []
    else
      assert rs == [rs[0]] + rs[1..];
      InsertDesc(rs[0], StableSortDesc(rs[1..]))
  }

  lemma {:induction false} InsertDescWithScore(x: ScoredResult, s: seq<ScoredResult>, v: nat)
    requires SortedDesc(s)
    ensures WithScore(InsertDesc(x, s), v) == (if x.relevanceScore == v then [x] else []) + WithScore(s, v)
  {
    if |s| == 0 || s[0].relevanceScore <= x.relevanceScore {
      WithScoreCons(x, s, v);
    } else {
      var tail := InsertDesc(x, s[1..]);
      InsertDescWithScore(x, s[1..], v);
      assert InsertDesc(x, s) == [s[0]] + tail;
      assert [s[0]] + s[1..] == s;
      PassOver(x, s[0], tail, s[1..], v);
    }
  }

  /** An entry scoring above `x` goes in front of the list `x` was inserted in and of the list without it. */
  lemma PassOver(x: ScoredResult, h: ScoredResult, tail: seq<ScoredResult>, rest: seq<ScoredResult>, v: nat)
    requires h.relevanceScore > x.relevanceScore
    requires WithScore(tail, v) == (if x.relevanceScore == v then [x] else []) + WithScore(rest, v)
    ensures WithScore([h] + tail, v) == (if x.relevanceScore == v then [x] else []) + WithScore([h] + rest, v)
  {
    WithScoreCons(h, tail, v);
    WithScoreCons(h, rest, v);
    if x.relevanceScore == v {
      assert h.relevanceScore != v;
    }
  }

  lemma WithScoreCons(h: ScoredResult, t: seq<ScoredResult>, v: nat)
    ensures WithScore([h] + t, v) == (if h.relevanceScore == v then [h] else []) + WithScore(t, v)
  {
    assert ([h] + t)[1..] == t;
  }

  /** Stability: for every score, the entries with that score come out of the sort in
      the order they went in. */
  lemma {:induction false} StableSortKeepsTies(rs: seq<ScoredResult>, v: nat)
    ensures WithScore(StableSortDesc(rs), v) == WithScore(rs, v)
  {
    if |rs| > 0 {
      StableSortKeepsTies(rs[1..], v);
      InsertDescWithScore(rs[0], StableSortDesc(rs[1..]), v);
    }
  }

  /** The entries of a prefix that score `v` are a prefix of those of the whole list. */
  lemma {:induction false} WithScorePrefix(rs: seq<ScoredResult>, k: nat, v: nat)
    requires k <= |rs|
    ensures WithScore(rs[..k], v) <= WithScore(rs, v)
  {
    if k > 0 {
      assert rs[..k][1..] == rs[1..][..k - 1];
      WithScorePrefix(rs[1..], k - 1, v);
    }
  }

  function MinNat(a: nat, b: nat): nat { if a <= b then a else b }

  /**
   * The returned list: the first six hits scored, stably sorted, cut to five. It
   * holds one entry per scored hit up to five, in non-increasing score order.
   */
  function Ranked(organic: seq<OrganicResult>): (ranked: seq<ScoredResult>)
    ensures |ranked| == MinNat(ReturnedLimit, MinNat(ScoredLimit, |organic|))
    ensures SortedDesc(ranked)
  {
    var sorted := StableSortDesc(ScoreAll(organic[..MinNat(ScoredLimit, |organic|)]));
    SortedPrefixIsTop(sorted, MinNat(ReturnedLimit, |sorted|));
    sorted[..MinNat(ReturnedLimit, |sorted|)]
  }

  /** The first `k` entries of a descending list: still descending, drawn from the list,
      and nothing after them beats one of them. */
  lemma SortedPrefixIsTop(sorted: seq<ScoredResult>, k: nat)
    requires SortedDesc(sorted) && k <= |sorted|
    ensures SortedDesc(sorted[..k])
    ensures multiset(sorted[..k]) <= multiset(sorted)
    ensures forall x, y :: x in sorted[..k] && y in multiset(sorted) - multiset(sorted[..k])
              ==> x.relevanceScore >= y.relevanceScore
  {
    assert sorted == sorted[..k] + sorted[k..];
    assert multiset(sorted) - multiset(sorted[..k]) == multiset(sorted[k..]);
    forall x, y | x in sorted[..k] && y in multiset(sorted[k..])
      ensures x.relevanceScore >= y.relevanceScore
    {
      TopBeatsRest(sorted, k, x, y);
    }
  }

  /** An entry among the first `k` of a descending list scores at least any entry after them. */
  lemma TopBeatsRest(sorted: seq<ScoredResult>, k: nat, x: ScoredResult, y: ScoredResult)
    requires SortedDesc(sorted) && k <= |sorted|
    requires x in sorted[..k] && y in multiset(sorted[k..])
    ensures x.relevanceScore >= y.relevanceScore
  {
    var i :| 0 <= i < k && sorted[i] == x;
    var j :| 0 <= j < |sorted[k..]| && sorted[k..][j] == y;
    assert sorted[k + j] == y;
  }

  /** The ranking's guarantees: at most five entries, one per scored hit up to five,
      in non-increasing score order, drawn from the first six hits with their own
      fields and score, and none of the scored hits left out beats one kept. */
  lemma RankedShape(organic: seq<OrganicResult>)
    ensures |Ranked(organic)| == MinNat(ReturnedLimit, MinNat(ScoredLimit, |organic|))
    ensures SortedDesc(Ranked(organic))
    ensures multiset(Ranked(organic)) <= multiset(ScoreAll(organic[..MinNat(ScoredLimit, |organic|)]))
    ensures forall x, y :: x in Ranked(organic)
              && y in multiset(ScoreAll(organic[..MinNat(ScoredLimit, |organic|)])) - multiset(Ranked(organic))
              ==> x.relevanceScore >= y.relevanceScore
  {
    var scored := ScoreAll(organic[..MinNat(ScoredLimit, |organic|)]);
    var sorted := StableSortDesc(scored);
    SortedPrefixIsTop(sorted, MinNat(ReturnedLimit, |sorted|));
  }

  /** Each returned entry is a scored hit among the first six, carried unchanged. */
  lemma RankedFromInput(organic: seq<OrganicResult>, x: ScoredResult)
    requires x in Ranked(organic)
    ensures exists i :: 0 <= i < MinNat(ScoredLimit, |organic|) && x == ToScored(organic[i])
  {
    var batch := organic[..MinNat(ScoredLimit, |organic|)];
    var scored := ScoreAll(batch);
    var sorted := StableSortDesc(scored);
    assert x in sorted[..MinNat(ReturnedLimit, |sorted|)];
    InSortedIsScored(scored, sorted, x);
    var i :| 0 <= i < |scored| && scored[i] == x;
    assert scored[i] == ToScored(batch[i]) && batch[i] == organic[i];
  }

  /** An entry of a permutation is an entry of the original. */
  lemma InSortedIsScored(scored: seq<ScoredResult>, sorted: seq<ScoredResult>, x: ScoredResult)
    requires multiset(sorted) == multiset(scored)
    requires x in sorted
    ensures x in scored
  {
    assert x in multiset(sorted);
  }

  /** Ties keep their input order: the returned entries with score `v` are the first of
      the scored hits with score `v`, in provider order. */
  lemma RankedKeepsTies(organic: seq<OrganicResult>, v: nat)
    ensures WithScore(Ranked(organic), v) <= WithScore(ScoreAll(organic[..MinNat(ScoredLimit, |organic|)]), v)
  {
    var scored := ScoreAll(organic[..MinNat(ScoredLimit, |organic|)]);
    var sorted := StableSortDesc(scored);
    WithScorePrefix(sorted, MinNat(ReturnedLimit, |sorted|), v);
    StableSortKeepsTies(scored, v);
  }

  // ---------------------------------------------------------------- the tool call

  function MissingKey(apiKey: Option<string>): bool
  {
    apiKey == None || apiKey.value == ""
  }

  /**
   * `search_financial_research`: refuse without an API key, post the extended query
   * once, score the first six hits in order (a loop appending to a list), and answer
   * with the five best by stable descending score, or the no-results message.
   * `posted` records the queries sent to the provider.
   */
  method SearchFinancialResearch(apiKey: Option<string>, query: string, focus: string, post: string -> Response)
    returns (outcome: SearchOutcome, ghost posted: seq<string>)
    ensures MissingKey(apiKey) ==> outcome == Failure(MissingKeyError) && posted == []
    ensures !MissingKey(apiKey) ==> posted == [query + QuerySuffix + focus]
    ensures !MissingKey(apiKey) ==>
      match post(query + QuerySuffix + focus)
      case RequestFailed(reason) => outcome == Failure(SearchErrorPrefix + reason)
      case Body(None) => outcome == NoResults(NoResultsMessage)
      case Body(Some(organic)) =>
        if organic == [] then outcome == NoResults(NoResultsMessage)
        else outcome == Found(query + QuerySuffix + focus, Ranked(organic))
    ensures outcome.Found? ==> 1 <= |outcome.results| <= ReturnedLimit && SortedDesc(outcome.results)
  {
    if MissingKey(apiKey) {
      return Failure(MissingKeyError), [];
    }
    var researchQuery := query + QuerySuffix + focus;
    posted := [researchQuery];
    var response := post(researchQuery);
    if response.RequestFailed? {
      return Failure(SearchErrorPrefix + response.reason), posted;
    }
    var researchResults: seq<ScoredResult> := [];
    var batch: seq<OrganicResult> := [];
    if response.organic.Some? {
      batch := response.organic.value[..MinNat(ScoredLimit, |response.organic.value|)];
      for i := 0 to |batch|
        invariant researchResults == ScoreAll(batch[..i])
      {
        var score := CalculateRelevance(batch[i], query);
        assert batch[..i + 1][..i] == batch[..i];
        researchResults := researchResults + [ScoredResult(
          batch[i].title.GetOr(""), batch[i].snippet.GetOr(""), batch[i].link.GetOr(""), score)];
      }
      assert batch[..|batch|] == batch;
    }
    if researchResults == [] {
      return NoResults(NoResultsMessage), posted;
    }
    var sorted := StableSortDesc(researchResults);
    outcome := Found(researchQuery, sorted[..MinNat(ReturnedLimit, |sorted|)]);
    RankedShape(response.organic.value);
  }
}
