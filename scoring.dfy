/** The per-document part of the chatbot search: the keyword score of a stored document and
    its projection to a search hit, for each of the three scanned collections. */
module Scoring {
  import opened Text
  import opened Outcomes

  /** A stored document of `products`, `news` or `adminNews`. Products carry a
      `description`, news items a `content`; `createdAt` is the document's timestamp already
      rendered as ISO-8601 text, when it has one. */
  datatype Doc = Doc(
    id: string,
    title: Option<string>,
    description: Option<string>,
    content: Option<string>,
    imageUrls: Option<seq<string>>,
    price: Option<int>,
    createdAt: Option<string>)

  /** The three collections, in the order the search scans them. */
  datatype Collection = Products | News | AdminNews

  /** The `type` of a hit: `'product'` or `'news'`. */
  datatype Kind = Product | NewsItem

  /** One entry of the search result. */
  datatype Hit = Hit(
    id: string,
    kind: Kind,
    title: Option<string>,
    description: Option<string>,
    imageUrl: Option<string>,
    price: Option<int>,
    createdAt: string,
    matchScore: nat)

  /** `(field || '')`. */
  function OrEmpty(field: Option<string>): string
  {
    match field
    case Some(s) => s
    case None => ""
  }

  /** The field scored as the body: `description` for products, `content` for news. */
  function BodyOf(d: Doc, c: Collection): Option<string>
  {
    if c == Products then d.description else d.content
  }

  /** The callback of the `reduce`: with `title` and `body` already lower-cased, add 3 when
      the lower-cased keyword occurs in the title and 1 when it occurs in the body. */
  function Step(score: nat, keyword: string, title: string, body: string): nat
  {
    var lowerKeyword := Lower(keyword);
    var afterTitle := if Contains(title, lowerKeyword) then score + 3 else score;
    if Contains(body, lowerKeyword) then afterTitle + 1 else afterTitle
  }

  /** `keywords.reduce(Step, score)`: a left fold over the keywords. */
  function Fold(score: nat, keywords: seq<string>, title: string, body: string): nat
    decreases |keywords|
  {
    if keywords == [] then score
    else Fold(Step(score, keywords[0], title, body), keywords[1..], title, body)
  }

  /** The `matchScore` of a document of collection `c`. */
  function MatchScore(keywords: seq<string>, d: Doc, c: Collection): nat
  {
    Fold(0, keywords, Lower(OrEmpty(d.title)), Lower(OrEmpty(BodyOf(d, c))))
  }

  /** Reference definition of what one keyword is worth:
      3·[title contains keyword] + 1·[body contains keyword], case-insensitively. */
  function Weight(keyword: string, title: string, body: string): nat
  {
    (if Contains(Lower(title), Lower(keyword)) then 3 else 0)
    + (if Contains(Lower(body), Lower(keyword)) then 1 else 0)
  }

  /** Reference definition of the score: the sum of the keywords' weights. */
  function WeightSum(keywords: seq<string>, title: string, body: string): nat
    decreases |keywords|
  {
    if keywords == [] then 0 else Weight(keywords[0], title, body) + WeightSum(keywords[1..], title, body)
  }

  /** The fold adds exactly the weights of the remaining keywords to its accumulator. */
  lemma {:induction false} FoldAddsWeights(score: nat, keywords: seq<string>, title: string, body: string)
    ensures Fold(score, keywords, Lower(title), Lower(body)) == score + WeightSum(keywords, title, body)
    decreases |keywords|
  {
    if keywords != [] {
      FoldAddsWeights(Step(score, keywords[0], Lower(title), Lower(body)), keywords[1..], title, body);
    }
  }

  /** The score formula: a document's score is the sum over the keywords of 3 for a title
      match plus 1 for a body match, a missing title or body counting as "". */
  lemma ScoreFormula(keywords: seq<string>, d: Doc, c: Collection)
    ensures MatchScore(keywords, d, c) == WeightSum(keywords, OrEmpty(d.title), OrEmpty(BodyOf(d, c)))
  {
    FoldAddsWeights(0, keywords, OrEmpty(d.title), OrEmpty(BodyOf(d, c)));
  }

  /** Each keyword is worth 0, 1, 3 or 4, so the score is at most 4 per keyword. */
  lemma {:induction false} WeightSumBound(keywords: seq<string>, title: string, body: string)
    ensures WeightSum(keywords, title, body) <= 4 * |keywords|
    decreases |keywords|
  {
    if keywords != [] {
      WeightSumBound(keywords[1..], title, body);
    }
  }

  /** The weight sum is zero exactly when no keyword matches either field. */
  lemma {:induction false} WeightSumZeroIff(keywords: seq<string>, title: string, body: string)
    ensures WeightSum(keywords, title, body) == 0 <==>
      forall i :: 0 <= i < |keywords| ==> Weight(keywords[i], title, body) == 0
    decreases |keywords|
  {
    if keywords != [] {
      WeightSumZeroIff(keywords[1..], title, body);
      assert forall i :: 1 <= i < |keywords| ==> keywords[i] == keywords[1..][i - 1];
    }
  }

  /** A document scores 0, and is dropped, exactly when no lower-cased keyword occurs in its
      lower-cased title or body. */
  lemma ScoreZeroIff(keywords: seq<string>, d: Doc, c: Collection)
    ensures MatchScore(keywords, d, c) == 0 <==>
      forall i :: 0 <= i < |keywords| ==>
        && !Contains(Lower(OrEmpty(d.title)), Lower(keywords[i]))
        && !Contains(Lower(OrEmpty(BodyOf(d, c))), Lower(keywords[i]))
  {
    ScoreFormula(keywords, d, c);
    WeightSumZeroIff(keywords, OrEmpty(d.title), OrEmpty(BodyOf(d, c)));
  }

  /** A document without a title and without a body ends up with score 0 under non-empty
      keywords: missing fields are read as "" and are never dereferenced. */
  lemma MissingFieldsNeverMatch(keywords: seq<string>, d: Doc, c: Collection)
    requires d.title.None? && BodyOf(d, c).None?
    requires forall i :: 0 <= i < |keywords| ==> keywords[i] != ""
    ensures MatchScore(keywords, d, c) == 0
  {
    forall i | 0 <= i < |keywords|
      ensures !Contains(Lower(""), Lower(keywords[i]))
    {
      EmptyContainsOnlyEmpty(Lower(keywords[i]));
    }
    ScoreZeroIff(keywords, d, c);
  }

  /** An empty keyword occurs in every field (`includes('')` is true), so it alone adds 4 to
      every document, and every document is then a hit. */
  lemma {:induction false} EmptyKeywordMatchesAll(keywords: seq<string>, title: string, body: string)
    requires "" in keywords
    ensures WeightSum(keywords, title, body) >= 4
    decreases |keywords|
  {
    if keywords[0] == "" {
      assert Lower("") == "";
      assert StartsWith(Lower(title), "") && StartsWith(Lower(body), "");
    } else {
      EmptyKeywordMatchesAll(keywords[1..], title, body);
    }
  }

  /** `content?.substring(0, 100)`: the first 100 characters, or all of a shorter text. */
  function Preview(content: string): (r: string)
    ensures |r| == if |content| < 100 then |content| else 100
    ensures r == content[..|r|]
  {
    if |content| <= 100 then content else content[..100]
  }

  /** `imageUrls && imageUrls.length > 0 ? imageUrls[0] : null`. */
  function FirstImage(urls: Option<seq<string>>): Option<string>
  {
    if urls.Some? && |urls.value| > 0 then Some(urls.value[0]) else None
  }

  /** The result record of a scored document; `now` is the time of the request, used when
      the document has no `createdAt`. */
  function Project(d: Doc, c: Collection, score: nat, now: string): Hit
  {
    var createdAt := if d.createdAt.Some? then d.createdAt.value else now;
    if c == Products then
      Hit(d.id, Product, d.title, d.description, FirstImage(d.imageUrls), d.price, createdAt, score)
    else
      Hit(d.id, NewsItem, d.title,
          if d.content.Some? then Some(Preview(d.content.value)) else None,
          FirstImage(d.imageUrls), None, createdAt, score)
  }

  /** The hits one `forEach` over a collection pushes, in iteration order: the projection of
      every document whose score is positive. */
  function Hits(docs: seq<Doc>, c: Collection, keywords: seq<string>, now: string): seq<Hit>
    decreases |docs|
  {
    if docs == [] then []
    else
      var d := docs[|docs| - 1];
      var score := MatchScore(keywords, d, c);
      Hits(docs[..|docs| - 1], c, keywords, now) + (if score > 0 then [Project(d, c, score, now)] else [])
  }

  /** Scanning one more document: it is pushed exactly when its score is positive. */
  lemma HitsStep(docs: seq<Doc>, i: nat, c: Collection, keywords: seq<string>, now: string)
    requires i < |docs|
    ensures var score := MatchScore(keywords, docs[i], c);
      Hits(docs[..i + 1], c, keywords, now)
        == Hits(docs[..i], c, keywords, now) + (if score > 0 then [Project(docs[i], c, score, now)] else [])
  {
    assert docs[..i + 1][..i] == docs[..i];
  }

  /** What a hit of collection `c` carries, given the document `d` it was made from. */
  ghost predicate ProjectedFrom(h: Hit, d: Doc, c: Collection, keywords: seq<string>, now: string)
  {
    && h.id == d.id
    && h.title == d.title
    && h.matchScore == MatchScore(keywords, d, c) && h.matchScore > 0
    && h.imageUrl == FirstImage(d.imageUrls)
    && h.createdAt == (if d.createdAt.Some? then d.createdAt.value else now)
    && (c == Products ==> h.kind == Product && h.description == d.description && h.price == d.price)
    && (c != Products ==>
          && h.kind == NewsItem && h.price.None?
          && (d.content.None? ==> h.description.None?)
          && (d.content.Some? ==>
                && h.description.Some?
                && |h.description.value| == (if |d.content.value| < 100 then |d.content.value| else 100)
                && h.description.value == d.content.value[..|h.description.value|]))
  }

  /** There are never more hits than documents. */
  lemma {:induction false} HitsLength(docs: seq<Doc>, c: Collection, keywords: seq<string>, now: string)
    ensures |Hits(docs, c, keywords, now)| <= |docs|
    decreases |docs|
  {
    if docs != [] {
      HitsLength(docs[..|docs| - 1], c, keywords, now);
    }
  }

  /** `h` is the projection of some document of `docs`. */
  ghost predicate FromCollection(h: Hit, docs: seq<Doc>, c: Collection, keywords: seq<string>, now: string)
  {
    exists d :: d in docs && ProjectedFrom(h, d, c, keywords, now)
  }

  /** Every hit comes from a document of the collection with a positive score and carries
      that document's fields as projected. */
  lemma {:induction false} HitsSound(docs: seq<Doc>, c: Collection, keywords: seq<string>, now: string)
    ensures forall h :: h in Hits(docs, c, keywords, now) ==> FromCollection(h, docs, c, keywords, now)
    decreases |docs|
  {
    if docs != [] {
      var init := docs[..|docs| - 1];
      var d := docs[|docs| - 1];
      HitsSound(init, c, keywords, now);
      assert docs == init + [d];
      var score := MatchScore(keywords, d, c);
      forall h | h in Hits(docs, c, keywords, now) ensures FromCollection(h, docs, c, keywords, now) {
        if h in Hits(init, c, keywords, now) {
          var e :| e in init && ProjectedFrom(h, e, c, keywords, now);
          assert e in docs;
        } else {
          assert h == Project(d, c, score, now);
          assert ProjectedFrom(h, d, c, keywords, now);
        }
      }
    }
  }

  /** Every hit has a positive score and the kind of its collection. */
  lemma {:induction false} HitsShape(docs: seq<Doc>, c: Collection, keywords: seq<string>, now: string)
    ensures forall h :: h in Hits(docs, c, keywords, now) ==>
      h.matchScore > 0 && h.kind == (if c == Products then Product else NewsItem)
    decreases |docs|
  {
    if docs != [] {
      HitsShape(docs[..|docs| - 1], c, keywords, now);
    }
  }

  /** Every document with a positive score yields a hit. */
  lemma {:induction false} HitsComplete(docs: seq<Doc>, c: Collection, keywords: seq<string>, now: string)
    ensures forall d :: d in docs && MatchScore(keywords, d, c) > 0 ==>
      Project(d, c, MatchScore(keywords, d, c), now) in Hits(docs, c, keywords, now)
    decreases |docs|
  {
    if docs != [] {
      var init := docs[..|docs| - 1];
      HitsComplete(init, c, keywords, now);
      assert docs == init + [docs[|docs| - 1]];
    }
  }

  /** Lower-casing leaves text without ASCII capitals, Hangul among it, unchanged. */
  lemma LowerNoCapitals(s: string)
    requires forall i :: 0 <= i < |s| ==> !('A' <= s[i] <= 'Z')
    ensures Lower(s) == s
  {
    LowerShape(s);
  }

  /** A non-empty string whose first character does not appear in `s` is not in `s`. */
  lemma FirstCharAbsent(s: string, t: string)
    requires t != [] && t[0] !in s
    ensures !Contains(s, t)
  {
    ContainsIffOccurs(s, t);
    forall i ensures !OccursAt(s, t, i) {
      if 0 <= i && i + |t| <= |s| {
        assert s[i..i + |t|][0] == s[i];
      }
    }
  }

  /** A string occurring at position `i` of `s` is in `s`. */
  lemma OccursContains(s: string, t: string, i: nat)
    requires OccursAt(s, t, i)
    ensures Contains(s, t)
  {
    ContainsIffOccurs(s, t);
  }

  /** The title "자전거 판매합니다" and the description "bike" of the example listing. */
  const BikeTitle: string := "자전거 판매합니다"
  const BikeBody: string := "bike"

  /** The example's keywords hold no capitals, nor do its title and description. */
  lemma BicycleLower(k: string)
    requires k in ["자전거", "싸이클", "bike", "팔아요", "판매"]
    ensures Lower(k) == k && Lower(BikeTitle) == BikeTitle && Lower(BikeBody) == BikeBody
  {
    LowerNoCapitals(BikeTitle);
    LowerNoCapitals(BikeBody);
    LowerNoCapitals(k);
  }

  /** A keyword already in lower case whose first character is in neither field weighs 0. */
  lemma WeightAbsent(k: string, title: string, body: string)
    requires Lower(k) == k && Lower(title) == title && Lower(body) == body
    requires k != [] && k[0] !in title && k[0] !in body
    ensures Weight(k, title, body) == 0
  {
    FirstCharAbsent(title, k);
    FirstCharAbsent(body, k);
  }

  /** A lower-case keyword found in the title only weighs 3. */
  lemma WeightTitleOnly(k: string, title: string, body: string, i: nat)
    requires Lower(k) == k && Lower(title) == title && Lower(body) == body
    requires k != [] && OccursAt(title, k, i) && k[0] !in body
    ensures Weight(k, title, body) == 3
  {
    OccursContains(title, k, i);
    FirstCharAbsent(body, k);
  }

  /** A lower-case keyword found in the body only weighs 1. */
  lemma WeightBodyOnly(k: string, title: string, body: string, i: nat)
    requires Lower(k) == k && Lower(title) == title && Lower(body) == body
    requires k != [] && OccursAt(body, k, i) && k[0] !in title
    ensures Weight(k, title, body) == 1
  {
    OccursContains(body, k, i);
    FirstCharAbsent(title, k);
  }

  lemma BicycleMatchesTitle()
    ensures Weight("자전거", BikeTitle, BikeBody) == 3
  {
    BicycleLower("자전거");
    assert BikeTitle[0..3] == "자전거";
    WeightTitleOnly("자전거", BikeTitle, BikeBody, 0);
  }

  lemma BicycleMatchesBody()
    ensures Weight("bike", BikeTitle, BikeBody) == 1
  {
    BicycleLower("bike");
    WeightBodyOnly("bike", BikeTitle, BikeBody, 0);
  }

  lemma BicycleMatchesSale()
    ensures Weight("판매", BikeTitle, BikeBody) == 3
  {
    BicycleLower("판매");
    assert BikeTitle[4..6] == "판매";
    WeightTitleOnly("판매", BikeTitle, BikeBody, 4);
  }

  /** "싸이클" and "팔아요" occur in neither the title nor the description. */
  lemma BicycleMisses(k: string)
    requires k == "싸이클" || k == "팔아요"
    ensures Weight(k, BikeTitle, BikeBody) == 0
  {
    BicycleLower(k);
    WeightAbsent(k, BikeTitle, BikeBody);
  }

  /** The keyword example of the extraction prompt against a listing titled
      "자전거 판매합니다" whose description is "bike": "자전거" and "판매" each occur in the
      title (3 + 3) and "bike" in the description (1), so the listing scores 7. */
  lemma BicycleListingScore()
    ensures MatchScore(["자전거", "싸이클", "bike", "팔아요", "판매"],
                       Doc("p1", Some(BikeTitle), Some(BikeBody), None, None, Some(100), None),
                       Products) == 7
  {
    var keywords := ["자전거", "싸이클", "bike", "팔아요", "판매"];
    ScoreFormula(keywords, Doc("p1", Some(BikeTitle), Some(BikeBody), None, None, Some(100), None), Products);
    BicycleMatchesTitle();
    BicycleMatchesBody();
    BicycleMatchesSale();
    BicycleMisses("싸이클");
    BicycleMisses("팔아요");
    assert keywords[1..][1..][1..][1..][1..] == [];
  }
}
