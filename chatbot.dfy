/** The chatbot search of `functions/chatbot_functions.js`: keyword extraction with its
    fallback, the scan of the three collections with ranking, the summary message, and the
    input checks of the `chatbotSearch` callable. The completion service and the document
    store appear only as their replies, passed in as inputs. */
module Chatbot {
  import opened Text
  import opened Outcomes
  import opened Scoring
  import opened Ranking

  // ---------------------------------------------------------------- keyword extraction

  /** What `JSON.parse` made of the keyword reply: an array of strings, or any other value. */
  datatype JsonValue = JsonArray(items: seq<string>) | NotArray

  /** `extractKeywords`: the parsed array as it is, even an empty one; `[query]` when the
      reply parsed to something else, did not parse, or the call failed. */
  function ExtractKeywords(query: string, reply: Call<Parse<JsonValue>>): (keywords: seq<string>)
    ensures reply.Answered? && reply.body.Parsed? && reply.body.value.JsonArray? ==>
      keywords == reply.body.value.items
    ensures !(reply.Answered? && reply.body.Parsed? && reply.body.value.JsonArray?) ==>
      keywords == [query]
    ensures keywords == [] ==> reply == Answered(Parsed(JsonArray([])))
  {
    match reply
    case Answered(Parsed(JsonArray(items))) => items
    case _ => [query]
  }

  /** Under the fallback the whole query is the one keyword, and a document's score is that
      keyword's weight: 3 if the query occurs in the title, plus 1 if it occurs in the body. */
  lemma FallbackScore(query: string, reply: Call<Parse<JsonValue>>, d: Doc, c: Collection)
    requires !(reply.Answered? && reply.body.Parsed? && reply.body.value.JsonArray?)
    ensures MatchScore(ExtractKeywords(query, reply), d, c) ==
      Weight(query, OrEmpty(d.title), OrEmpty(BodyOf(d, c)))
  {
    ScoreFormula([query], d, c);
  }

  // ---------------------------------------------------------------- search

  /** A whole-collection read, `db.collection(name).get()`: the documents in iteration order,
      or the error the store threw. */
  datatype Fetch = Fetched(docs: seq<Doc>) | StoreError

  /** All hits in push order: products, then news, then adminNews. */
  function Collected(keywords: seq<string>, products: seq<Doc>, news: seq<Doc>, adminNews: seq<Doc>, now: string): seq<Hit>
  {
    Hits(products, Products, keywords, now) + Hits(news, News, keywords, now)
    + Hits(adminNews, AdminNews, keywords, now)
  }

  /** What `searchFirestore` returns: the ranked hits, or `[]` when any read fails. */
  function SearchResults(keywords: seq<string>, products: Fetch, news: Fetch, adminNews: Fetch, now: string): seq<Hit>
  {
    if products.Fetched? && news.Fetched? && adminNews.Fetched? then
      Rank(Collected(keywords, products.docs, news.docs, adminNews.docs, now))
    else []
  }

  /** The loop invariant of `ScanCollection` carries over one document. */
  lemma ScanStep(results: seq<Hit>, pushed: seq<Hit>, docs: seq<Doc>, i: nat, c: Collection,
                 keywords: seq<string>, now: string)
    requires i < |docs| && pushed == results + Hits(docs[..i], c, keywords, now)
    ensures var score := MatchScore(keywords, docs[i], c);
      (if score > 0 then pushed + [Project(docs[i], c, score, now)] else pushed)
        == results + Hits(docs[..i + 1], c, keywords, now)
  {
    HitsStep(docs, i, c, keywords, now);
  }

  /** One `snapshot.forEach`: pushes the projection of every document with a positive score
      onto `results`. */
  method ScanCollection(results: seq<Hit>, docs: seq<Doc>, c: Collection, keywords: seq<string>, now: string)
    returns (pushed: seq<Hit>)
    ensures pushed == results + Hits(docs, c, keywords, now)
  {
    pushed := results;
    for i := 0 to |docs|
      invariant pushed == results + Hits(docs[..i], c, keywords, now)
    {
      var d := docs[i];
      var score := MatchScore(keywords, d, c);
      ScanStep(results, pushed, docs, i, c, keywords, now);
      if score > 0 {
        pushed := pushed + [Project(d, c, score, now)];
      }
    }
    assert docs[..|docs|] == docs;
  }

  /** `results.sort(...)` followed by `results.slice(0, MAX_RESULTS)`, on an array holding
      the collected hits. */
  method RankHits(collected: seq<Hit>) returns (results: seq<Hit>)
    ensures results == Rank(collected)
  {
    var a := new Hit[|collected|](i requires 0 <= i < |collected| => collected[i]);
    assert a[..] == collected;
    SortInPlace(a);
    SortPermutes(collected);
    var n := if a.Length <= MaxResults then a.Length else MaxResults;
    results := a[..n];
  }

  /** `searchFirestore`: scans the three collections in order into one array, sorts it in
      place by descending score and keeps the first `MAX_RESULTS`; a store error anywhere
      yields `[]`. */
  method SearchFirestore(keywords: seq<string>, products: Fetch, news: Fetch, adminNews: Fetch, now: string)
    returns (results: seq<Hit>)
    ensures results == SearchResults(keywords, products, news, adminNews, now)
  {
    if products.StoreError? {
      return [];
    }
    ghost var hp := Hits(products.docs, Products, keywords, now);
    var collected := ScanCollection([], products.docs, Products, keywords, now);
    assert [] + hp == hp;
    if news.StoreError? {
      return [];
    }
    ghost var hn := Hits(news.docs, News, keywords, now);
    collected := ScanCollection(collected, news.docs, News, keywords, now);
    assert collected == hp + hn;
    if adminNews.StoreError? {
      return [];
    }
    ghost var ha := Hits(adminNews.docs, AdminNews, keywords, now);
    collected := ScanCollection(collected, adminNews.docs, AdminNews, keywords, now);
    assert collected == hp + hn + ha;
    results := RankHits(collected);
  }

  /** The search returns at most 10 hits, non-increasing in score, each with a positive
      score; any store error gives `[]`. */
  lemma SearchBounded(keywords: seq<string>, products: Fetch, news: Fetch, adminNews: Fetch, now: string)
    ensures var r := SearchResults(keywords, products, news, adminNews, now);
      && |r| <= MaxResults
      && SortedByScore(r)
      && (forall i :: 0 <= i < |r| ==> r[i].matchScore > 0)
      && (!(products.Fetched? && news.Fetched? && adminNews.Fetched?) ==> r == [])
  {
    if products.Fetched? && news.Fetched? && adminNews.Fetched? {
      var all := Collected(keywords, products.docs, news.docs, adminNews.docs, now);
      RankProperties(all);
      HitsShape(products.docs, Products, keywords, now);
      HitsShape(news.docs, News, keywords, now);
      HitsShape(adminNews.docs, AdminNews, keywords, now);
      RankPositive(all);
    }
  }

  /** Each hit returned is the projection of a document of a collection of its own kind:
      products for `'product'`, news or adminNews for `'news'`. */
  lemma SearchSound(keywords: seq<string>, products: seq<Doc>, news: seq<Doc>, adminNews: seq<Doc>, now: string)
    ensures var r := SearchResults(keywords, Fetched(products), Fetched(news), Fetched(adminNews), now);
      && (forall h :: h in r && h.kind == Product ==> FromCollection(h, products, Products, keywords, now))
      && (forall h :: h in r && h.kind == NewsItem ==>
            FromCollection(h, news, News, keywords, now) || FromCollection(h, adminNews, AdminNews, keywords, now))
  {
    var hp := Hits(products, Products, keywords, now);
    var hn := Hits(news, News, keywords, now);
    var ha := Hits(adminNews, AdminNews, keywords, now);
    var all := hp + hn + ha;
    RankMembers(all);
    HitsSound(products, Products, keywords, now);
    HitsSound(news, News, keywords, now);
    HitsSound(adminNews, AdminNews, keywords, now);
    HitsShape(products, Products, keywords, now);
    HitsShape(news, News, keywords, now);
    HitsShape(adminNews, AdminNews, keywords, now);
  }

  /** Ties keep scan order: for every score, the returned hits of that score are a prefix of
      that score's hits in the order they were pushed (products, then news, then adminNews,
      each in iteration order). */
  lemma SearchOrder(keywords: seq<string>, products: seq<Doc>, news: seq<Doc>, adminNews: seq<Doc>, now: string, k: nat)
    ensures IsPrefix(WithScore(SearchResults(keywords, Fetched(products), Fetched(news), Fetched(adminNews), now), k),
      WithScore(Hits(products, Products, keywords, now), k)
      + WithScore(Hits(news, News, keywords, now), k)
      + WithScore(Hits(adminNews, AdminNews, keywords, now), k))
  {
    var hp := Hits(products, Products, keywords, now);
    var hn := Hits(news, News, keywords, now);
    var ha := Hits(adminNews, AdminNews, keywords, now);
    RankProperties(hp + hn + ha);
    WithScoreAppend(hp + hn, ha, k);
    WithScoreAppend(hp, hn, k);
  }

  /** With at most 10 hits nothing is cut: every document of any collection with a positive
      score is in the result. */
  lemma SearchCompleteWhenFew(keywords: seq<string>, products: seq<Doc>, news: seq<Doc>, adminNews: seq<Doc>, now: string)
    requires |Collected(keywords, products, news, adminNews, now)| <= MaxResults
    ensures var r := SearchResults(keywords, Fetched(products), Fetched(news), Fetched(adminNews), now);
      && multiset(r) == multiset(Collected(keywords, products, news, adminNews, now))
      && (forall d :: d in products && MatchScore(keywords, d, Products) > 0 ==>
            Project(d, Products, MatchScore(keywords, d, Products), now) in r)
      && (forall d :: d in news && MatchScore(keywords, d, News) > 0 ==>
            Project(d, News, MatchScore(keywords, d, News), now) in r)
      && (forall d :: d in adminNews && MatchScore(keywords, d, AdminNews) > 0 ==>
            Project(d, AdminNews, MatchScore(keywords, d, AdminNews), now) in r)
  {
    var all := Collected(keywords, products, news, adminNews, now);
    var r := SearchResults(keywords, Fetched(products), Fetched(news), Fetched(adminNews), now);
    SortPermutes(all);
    assert r == SortByScore(all);
    HitsComplete(products, Products, keywords, now);
    HitsComplete(news, News, keywords, now);
    HitsComplete(adminNews, AdminNews, keywords, now);
    forall h | h in all ensures h in r {
      assert h in multiset(all);
    }
  }

  // ---------------------------------------------------------------- summary

  const NoResultsMessage: string := "죄송합니다. 검색 결과를 찾지 못했습니다. 다른 키워드로 다시 검색해보세요."

  const FoundSuffix: string := "개의 결과를 찾았습니다! 아래에서 확인해보세요."

  /** The fallback `${results.length}개의 결과를 찾았습니다! ...`. */
  function FoundMessage(count: nat): string
  {
    Decimal(count) + FoundSuffix
  }

  /** The figures the summary request states: the query, the number of results, and how many
      of them are products and how many news. */
  datatype SummaryPrompt = SummaryPrompt(query: string, total: nat, products: nat, news: nat)

  /** `results.filter(r => r.type === kind).length`. */
  function CountKind(results: seq<Hit>, kind: Kind): nat
    decreases |results|
  {
    if results == [] then 0
    else (if results[0].kind == kind then 1 else 0) + CountKind(results[1..], kind)
  }

  /** The indices from `lo` on whose hit has the given kind. */
  ghost function KindIndices(results: seq<Hit>, kind: Kind, lo: nat): set<nat>
  {
    set i: nat | lo <= i < |results| && results[i].kind == kind
  }

  /** `results.filter(r => r.type === kind).length`: the count is the number of positions
      holding a hit of that kind, counted from `lo` on. */
  lemma {:induction false} CountKindFrom(results: seq<Hit>, kind: Kind, lo: nat)
    requires lo <= |results|
    ensures CountKind(results[lo..], kind) == |KindIndices(results, kind, lo)|
    decreases |results| - lo
  {
    if lo == |results| {
      assert KindIndices(results, kind, lo) == {};
    } else {
      CountKindFrom(results, kind, lo + 1);
      var head: set<nat> := if results[lo].kind == kind then {lo} else {};
      assert KindIndices(results, kind, lo) == head + KindIndices(results, kind, lo + 1);
      assert head * KindIndices(results, kind, lo + 1) == {};
      assert results[lo..][0] == results[lo] && results[lo..][1..] == results[lo + 1..];
    }
  }

  /** The count of a kind is the number of positions holding a hit of that kind. */
  lemma CountKindIndices(results: seq<Hit>, kind: Kind)
    ensures CountKind(results, kind) == |set i: nat | i < |results| && results[i].kind == kind|
  {
    CountKindFrom(results, kind, 0);
    assert results[0..] == results;
    assert KindIndices(results, kind, 0) == set i: nat | i < |results| && results[i].kind == kind;
  }

  /** Every hit is a product or a news item, so the two counts add up to the total. */
  lemma {:induction false} KindCountsAddUp(results: seq<Hit>)
    ensures CountKind(results, Product) + CountKind(results, NewsItem) == |results|
    decreases |results|
  {
    if results != [] {
      KindCountsAddUp(results[1..]);
    }
  }

  /** The request `generateSummary` sends, or `None` when it sends none: with no results the
      service is not called. */
  function SummaryRequest(query: string, results: seq<Hit>): (p: Option<SummaryPrompt>)
    ensures p.None? <==> results == []
    ensures p.Some? ==> p.value.query == query && p.value.total == |results|
                        && p.value.products + p.value.news == |results|
    ensures p.Some? ==> p.value.products == CountKind(results, Product)
                        && p.value.news == CountKind(results, NewsItem)
  {
    if results == [] then None
    else
      KindCountsAddUp(results);
      Some(SummaryPrompt(query, |results|, CountKind(results, Product), CountKind(results, NewsItem)))
  }

  /** `generateSummary`: the fixed apology without a service call when there are no results,
      the trimmed reply when the call succeeds, the counted fallback when it fails. */
  function GenerateSummary(query: string, results: seq<Hit>, reply: Call<string>): (message: string)
    ensures results == [] ==> message == NoResultsMessage
    ensures results != [] && reply.Answered? ==> message == Trim(reply.body)
    ensures results != [] && reply.Failed? ==> message == FoundMessage(|results|)
  {
    match SummaryRequest(query, results)
    case None => NoResultsMessage
    case Some(_) =>
      match reply
      case Answered(text) => Trim(text)
      case Failed(_) => FoundMessage(|results|)
  }

  /** The fallback message begins with the decimal numeral of the result count, and that
      numeral ends where the fixed text begins, so the count can be read back from it. */
  lemma SummaryFallbackStatesCount(query: string, results: seq<Hit>, reply: Call<string>)
    requires results != [] && reply.Failed?
    ensures var m := GenerateSummary(query, results, reply);
      var d := Decimal(|results|);
      && StartsWith(m, d) && ValueOf(d) == |results|
      && |m| > |d| && !('0' <= m[|d|] <= '9')
  {
    DecimalRoundTrip(|results|);
    var m := GenerateSummary(query, results, reply);
    var d := Decimal(|results|);
    assert m == d + FoundSuffix;
    assert m[..|d|] == d;
    assert m[|d|] == FoundSuffix[0];
  }

  /** With no keywords no document scores, so the collection yields no hits. */
  lemma NoKeywordsNoHits(docs: seq<Doc>, c: Collection, now: string)
    ensures Hits(docs, c, [], now) == []
  {
    HitsSound(docs, c, [], now);
  }

  /** A keyword reply that parses to the empty array is taken as it is: the keyword list is
      empty rather than `[query]`, nothing is found, and the apology is the message. */
  lemma EmptyKeywordArrayFindsNothing(query: string, products: Fetch, news: Fetch, adminNews: Fetch,
                                      now: string, summaryReply: Call<string>)
    ensures var keywords := ExtractKeywords(query, Answered(Parsed(JsonArray([]))));
      && keywords == []
      && SearchResults(keywords, products, news, adminNews, now) == []
      && GenerateSummary(query, SearchResults(keywords, products, news, adminNews, now), summaryReply)
         == NoResultsMessage
  {
    if products.Fetched? && news.Fetched? && adminNews.Fetched? {
      NoKeywordsNoHits(products.docs, Products, now);
      NoKeywordsNoHits(news.docs, News, now);
      NoKeywordsNoHits(adminNews.docs, AdminNews, now);
      assert Collected([], products.docs, news.docs, adminNews.docs, now) == [];
    }
  }

  // ---------------------------------------------------------------- the callable

  const QueryRequired: string := "검색어를 입력해주세요."

  /** `!query || typeof query !== 'string' || query.trim().length === 0` fails. */
  predicate ValidQuery(query: Field)
  {
    query.Str? && Trim(query.value) != ""
  }

  /** A query is accepted exactly when it is a string with a character that is not white
      space; the empty string, non-strings and blank strings are all refused. */
  lemma ValidQueryIff(query: Field)
    ensures ValidQuery(query) <==>
      query.Str? && exists k :: 0 <= k < |query.value| && !IsSpace(query.value[k])
  {
    if query.Str? {
      TrimEmptyIff(query.value);
    }
  }

  /** The response object of `chatbotSearch`. */
  datatype SearchResponse = SearchResponse(success: bool, message: string, results: seq<Hit>, keywords: seq<string>)

  /** `chatbotSearch`: identity check, then query check, then keywords, search and summary.
      The handler's own `catch` (turning an exception into `internal`) is never reached,
      since each of the three steps absorbs its own failures. */
  method ChatbotSearch(authenticated: bool, query: Field, keywordReply: Call<Parse<JsonValue>>,
                       products: Fetch, news: Fetch, adminNews: Fetch,
                       summaryReply: Call<string>, now: string)
    returns (r: Result<SearchResponse>)
    ensures !authenticated ==> r == Err(HttpsError(Unauthenticated, LoginRequired))
    ensures authenticated && !ValidQuery(query) ==> r == Err(HttpsError(InvalidArgument, QueryRequired))
    ensures authenticated && ValidQuery(query) ==>
      var keywords := ExtractKeywords(query.value, keywordReply);
      var results := SearchResults(keywords, products, news, adminNews, now);
      r == Ok(SearchResponse(true, GenerateSummary(query.value, results, summaryReply), results, keywords))
    ensures r.Err? ==> r.error.code != Internal
  {
    if !authenticated {
      return Err(HttpsError(Unauthenticated, LoginRequired));
    }
    if !ValidQuery(query) {
      return Err(HttpsError(InvalidArgument, QueryRequired));
    }
    var keywords := ExtractKeywords(query.value, keywordReply);
    var results := SearchFirestore(keywords, products, news, adminNews, now);
    var message := GenerateSummary(query.value, results, summaryReply);
    r := Ok(SearchResponse(true, message, results, keywords));
  }
}
