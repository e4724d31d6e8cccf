# Ondongne cloud functions: chatbot search and content moderation

This project models the server-side core of the Ondongne neighbourhood marketplace in Dafny. There are two groups of Firebase callables and triggers.

**Chatbot search** (`chatbotSearch`):
- It checks the caller and the query.
- It asks a completion service for search keywords, with a fallback when that fails.
- It scans the `products`, `news` and `adminNews` collections and scores each document by which keywords occur in it: 3 for a keyword in the title, 1 for one in the body, once per keyword however often it occurs.
- It keeps documents with a positive score, sorts them stably by descending score and keeps the first 10.
- It asks the service for a one-line summary, with a counted fallback message.

**Moderation and listing analysis:**
- `checkProfanity` asks the service for a verdict and fails open: any error counts as clean.
- The `checkProfanity` callable checks its input before calling it.
- The `news` and `comments` create triggers delete a new document when the verdict says "not clean".
- `analyzeProductImage` strips markdown code fences from the vision model's reply, parses it and rejects missing fields and banned items.

Modules, one per file:

| file | module | contents |
|---|---|---|
| `text.dfy` | `Text` | `toLowerCase`, `includes`, `trim` and the `\s` class, and the `${n}` rendering |
| `outcomes.dfy` | `Outcomes` | service replies (`Call`, `Parse`), caller fields with JS truthiness (`Field`), `HttpsError`, `Result` |
| `scoring.dfy` | `Scoring` | documents, the reduce-based score, the projection to a hit, the hits of one collection |
| `ranking.dfy` | `Ranking` | the stable descending sort, the in-place insertion sort on an array, the cut to 10 |
| `chatbot.dfy` | `Chatbot` | `extractKeywords`, `searchFirestore`, `generateSummary`, `chatbotSearch` |
| `moderation.dfy` | `Moderation` | the `checkProfanity` helper and callable, the two create triggers |
| `product_analysis.dfy` | `ProductAnalysis` | fence removal and `analyzeProductImage` |

How outside effects are modelled:
- Every call to the completion service or the document store is an input of the operation that makes it: the reply, or the error it threw.
- `JSON.parse` on the vision reply is a function parameter applied to the cleaned text.
- `new Date()` is the parameter `now`, one time shared by every hit of a search (see "## Left out").
- The triggers return a `Decision` (`Keep` or `Delete`). `snap.ref.delete()` itself is not modelled.
- `searchFirestore` is a method: a loop per collection pushes onto the results, then an array is sorted in place.
  - Its result is proved equal to `SearchResults`, a specification function.
  - The search properties are lemmas about that function.
- `Array.prototype.sort` must be stable (section 23.1.3.30 of ECMA-262, 2023 edition). The sort is therefore specified as the stable descending sort by score. `Ranking.StableSortIsSortByScore` shows that this leaves exactly one possible result.

Three consequences of the code worth knowing:
- **The prompt's example keywords.** The extraction prompt's example keywords `["자전거","싸이클","bike","팔아요","판매"]` score the listing "자전거 판매합니다" with description "bike" as 3 + 3 + 1 = 7: "자전거" and "판매" both occur in the title, "bike" in the description (`Scoring.BicycleListingScore`).
- **The keyword list can be empty.** A reply that parses to `[]` passes `Array.isArray`, so the keyword list is empty and nothing is found (`Chatbot.EmptyKeywordArrayFindsNothing`).
- **The query is not trimmed.** `chatbotSearch` tests `query.trim()` but passes the untrimmed query on to keyword extraction, the fallback keyword and the summary.

## Model

The rows name the lemmas and methods whose contracts specify each modelling function:
- `Text.Contains` by `ContainsIffOccurs`, and `Text.Trim` by `TrimSlice`.
- `Scoring.MatchScore` by `ScoreFormula`, and `Scoring.Project` and `Scoring.Hits` by `HitsSound`, `HitsShape` and `HitsComplete`.
- `Ranking.SortByScore` by `SortPermutes`, `SortSorted`, `SortStable` and `StableSortIsSortByScore`, and `Ranking.Rank` by `RankProperties`.
- `Chatbot.SearchResults` by `SearchFirestore` and the `Search*` lemmas, `Chatbot.CountKind` by `CountKindIndices`, and `Chatbot.ValidQuery` by `ValidQueryIff`.
- `ProductAnalysis.RemoveMarker` and `ProductAnalysis.CleanReply` by `RemoveFenceLeavesNone`, `CleanReplyFenceFree`, `CleanReplyNoBacktick` and `FencedReplyRoundTrip`, and `ProductAnalysis.ValidateAnalysis` by `AnalyzeReply`.

| member | source | states |
|---|---|---|
| Text.LowerShape | functions/chatbot_functions.js:115-120 | lower-casing keeps the length, leaves no ASCII capital, turns each capital into the small letter at the same alphabet position and keeps every other character in place |
| Text.LowerIdempotent | functions/chatbot_functions.js:115-121 | lower-casing an already lower-cased string changes nothing |
| Text.ContainsIffOccurs | functions/chatbot_functions.js:121-122 | `includes` is true exactly when the needle occurs at some position |
| Text.EmptyContainsOnlyEmpty | functions/chatbot_functions.js:115-122 | a missing field read as "" contains nothing but the empty string |
| Text.TrimStartShape | functions/index.js:247 | the leading-space removal keeps a suffix that does not begin with white space, and everything dropped is white space |
| Text.TrimEndShape | functions/chatbot_functions.js:240 | the trailing-space removal keeps a prefix that does not end with white space, and everything dropped is white space |
| Text.TrimSlice | functions/chatbot_functions.js:26 | `trim` returns a slice with only white space outside it and no white space at either end |
| Text.TrimEmptyIff | functions/index.js:86 | `trim()` is empty exactly for strings made only of white space |
| Text.TrimIdempotent | functions/chatbot_functions.js:240 | trimming twice is trimming once |
| Text.Decimal | functions/chatbot_functions.js:243 | the rendered count is a non-empty run of digits: "0" for zero, otherwise without a leading zero |
| Text.DecimalRoundTrip | functions/chatbot_functions.js:243 | reading the rendered numeral back gives the count |
| Scoring.FoldAddsWeights | functions/chatbot_functions.js:119-124 | the reduce adds, for each keyword, 3 for a title match and 1 for a body match to its accumulator |
| Scoring.ScoreFormula | functions/chatbot_functions.js:115-124 | a document's score is the sum of the keyword weights over the lower-cased title and body, a missing field counting as "" |
| Scoring.WeightSumBound | functions/chatbot_functions.js:119-124 | the score is at most 4 per keyword |
| Scoring.WeightSumZeroIff | functions/chatbot_functions.js:119-124 | the weight sum is zero exactly when every keyword weighs zero |
| Scoring.ScoreZeroIff | functions/chatbot_functions.js:115-126 | a document scores 0, and is dropped, exactly when no keyword occurs in its title or body, case-insensitively |
| Scoring.MissingFieldsNeverMatch | functions/chatbot_functions.js:115-116 | without title and body a document never scores under non-empty keywords |
| Scoring.EmptyKeywordMatchesAll | functions/chatbot_functions.js:119-124 | an empty keyword occurs in every field, so every document scores at least 4 |
| Scoring.BicycleListingScore | functions/chatbot_functions.js:79-81 | the prompt's example keywords score the listing "자전거 판매합니다" with description "bike" as 7 |
| Scoring.Preview | functions/chatbot_functions.js:159 | a news preview is the first 100 characters of the content, or all of a shorter content |
| Scoring.HitsLength | functions/chatbot_functions.js:113-138 | one collection's scan pushes at most one hit per document |
| Scoring.HitsSound | functions/chatbot_functions.js:126-136 | every hit carries its document's id, title, score (positive), first image and date, and the kind, description and price its collection prescribes |
| Scoring.HitsShape | functions/chatbot_functions.js:126-136 | every hit has a positive score and the kind of its collection (`'product'` or `'news'`) |
| Scoring.HitsComplete | functions/chatbot_functions.js:126-136 | every document with a positive score yields its projection as a hit |
| Ranking.SortPermutes | functions/chatbot_functions.js:197 | the sort rearranges the hits: same multiset, same length |
| Ranking.SortSorted | functions/chatbot_functions.js:197 | the sorted hits are non-increasing in score |
| Ranking.SortStable | functions/chatbot_functions.js:197 | hits of equal score keep their input order |
| Ranking.SortedStableUnique | functions/chatbot_functions.js:197 | two score-sorted lists that agree score by score on which hits they hold, in order, are equal |
| Ranking.StableSortIsSortByScore | functions/chatbot_functions.js:197 | any stable descending sort of the hits produces the modelled sort |
| Ranking.InsertAt | functions/chatbot_functions.js:197 | one insertion step leaves the array as the sorted prefix with the next hit inserted after every hit of at least its score, followed by the untouched rest |
| Ranking.SortInPlace | functions/chatbot_functions.js:197 | the in-place sort leaves the array holding the stable descending sort of its old contents |
| Ranking.RankMembers | functions/chatbot_functions.js:197-198 | every ranked hit is one of the collected hits |
| Ranking.RankPositive | functions/chatbot_functions.js:126 | when every collected hit has a positive score, so does every ranked hit |
| Ranking.RankProperties | functions/chatbot_functions.js:196-198 | the ranked list is the first min(10, n) sorted hits: sorted, drawn from the input, and for each score a prefix of that score's hits in input order |
| Chatbot.ExtractKeywords | functions/chatbot_functions.js:92-99 | the parsed array when the reply parses to an array, otherwise `[query]`; only an empty parsed array gives no keywords |
| Chatbot.FallbackScore | functions/chatbot_functions.js:94-98 | under the fallback a document scores 3 if the query occurs in its title plus 1 if in its body |
| Chatbot.ScanCollection | functions/chatbot_functions.js:113-138 | a collection's forEach appends exactly that collection's hits, in document order |
| Chatbot.RankHits | functions/chatbot_functions.js:196-198 | sorting the collected hits in an array and slicing off the first 10 yields the ranked list |
| Chatbot.SearchFirestore | functions/chatbot_functions.js:105-203 | the search returns the ranked hits of products, then news, then adminNews, or [] when a read fails |
| Chatbot.SearchBounded | functions/chatbot_functions.js:105-203 | at most 10 results, non-increasing in score, each with a positive score; [] on any store error |
| Chatbot.SearchSound | functions/chatbot_functions.js:126-191 | every result is the projection of a document of a collection of its kind |
| Chatbot.SearchOrder | functions/chatbot_functions.js:196-198 | for each score the results are a prefix of that score's hits in scan order |
| Chatbot.SearchCompleteWhenFew | functions/chatbot_functions.js:196-198 | with at most 10 hits, every document with a positive score is returned |
| Chatbot.NoKeywordsNoHits | functions/chatbot_functions.js:119-126 | without keywords no document of a collection becomes a hit |
| Chatbot.EmptyKeywordArrayFindsNothing | functions/chatbot_functions.js:94 | a reply parsing to `[]` gives no keywords, no results and the no-results message |
| Chatbot.KindCountsAddUp | functions/chatbot_functions.js:231 | the product and news counts in the summary request add up to the result count |
| Chatbot.CountKindIndices | functions/chatbot_functions.js:231 | `filter(r => r.type === kind).length` is the number of positions holding a hit of that kind |
| Chatbot.SummaryRequest | functions/chatbot_functions.js:208-238 | no request without results; otherwise the request states the query, the total, the number of product hits and the number of news hits |
| Chatbot.GenerateSummary | functions/chatbot_functions.js:208-245 | the apology without results, the trimmed reply on success, the counted message on failure |
| Chatbot.SummaryFallbackStatesCount | functions/chatbot_functions.js:243 | the fallback message begins with the result count in decimal, followed by a non-digit |
| Chatbot.ValidQueryIff | functions/chatbot_functions.js:26-31 | a query is accepted exactly when it is a string with a non-white-space character |
| Chatbot.ChatbotSearch | functions/chatbot_functions.js:14-58 | unauthenticated and invalid-argument errors in that order; otherwise the success response built from the keywords, search and summary; never `internal` for an object `data` |
| Moderation.CheckProfanity | functions/index.js:20-61 | the parsed verdict when call and parse succeed, otherwise clean; "not clean" exactly when a reply parsed to that |
| Moderation.CheckProfanityCallable | functions/index.js:66-104 | identity, missing or non-string text, blank text and over-5000 text fail in that order with their messages; otherwise the verdict |
| Moderation.ProfanityInputBoundaries | functions/index.js:86-98 | 5000 characters are accepted and 5001 refused when not blank; blank text is refused as blank at any length |
| Moderation.CheckNewsOnCreate | functions/index.js:109-127 | the post is deleted exactly when the title's or the content's verdict parsed to "not clean" |
| Moderation.CheckCommentOnCreate | functions/index.js:132-146 | the comment is deleted exactly when its content's verdict parsed to "not clean" |
| ProductAnalysis.RemoveFenceLeavesNone | functions/index.js:247 | after the fence removal no three backticks remain |
| ProductAnalysis.CleanReplyFenceFree | functions/index.js:247 | the cleaned reply holds no fence and has no white space at either end |
| ProductAnalysis.CleanReplyNoBacktick | functions/index.js:247 | a reply without backticks is only trimmed |
| ProductAnalysis.FencedReplyRoundTrip | functions/index.js:246-247 | a body without backticks wrapped in a "```json" fence and a closing "```" comes out as the trimmed body |
| ProductAnalysis.AnalyzeReply | functions/index.js:243-269 | the try block returns exactly a parsed, complete, listable suggestion, unchanged; otherwise it throws the failed call's message, the not-JSON message, the missing-field message when title, description or category is falsy, and the not-listable message only for a complete suggestion with the banned title |
| ProductAnalysis.AnalyzeProductImage | functions/index.js:156-283 | unauthenticated and missing-image errors first; success exactly for a parsed, complete, listable suggestion, returned unchanged; every later failure is `internal` with the fixed prefix followed by its cause: the call's message, the not-JSON message, the missing-field message (checked first) or the not-listable message |
| ProductAnalysis.RefusalsRejected | functions/index.js:200-219 | both refusal answers of the prompt are refused: an empty title as a missing field, the banned title with its other fields present as not listable |

## Left out

- Text.LowerShape: lower-cases ASCII letters only. Other scripts with case are out of scope, and Hangul has no case.
- Lengths are counted in characters, not in UTF-16 code units. `text.length > 5000` and `substring(0, 100)` differ from the model only for characters outside the Basic Multilingual Plane.
- Chatbot.ExtractKeywords: keyword arrays hold strings only. A non-string element would make `toLowerCase` throw inside the search, which then returns []. That path is not modelled.
- Chatbot.ExtractKeywords: the candidate limit of 5 keywords is a prompt instruction, not something the code enforces, so it is not modelled.
- Moderation.CheckProfanity: a reply that parses to `null` or to a non-object is not modelled. A verdict is an object with `isClean` read as its truthiness.
- ProductAnalysis.AnalyzeReply: a cleaned vision reply that parses to `null` is not modelled. In the source `parsed.title` then throws a TypeError, whose message becomes the cause of the `internal` error. `Parse<Analysis>` holds only objects.
- Chatbot.ChatbotSearch, Moderation.CheckProfanityCallable, ProductAnalysis.AnalyzeProductImage: `data` itself is always an object here; only its `query`, `text` or `imageBase64` property is an input. A signed-in call with `data` null makes the destructuring outside any `try` throw a TypeError, which the client receives as `internal` rather than `invalid-argument`.
- Chatbot.SearchFirestore: every document without `createdAt` gets the one time `now`. The source calls `new Date()` once per such document, so those hits may carry different times.
- A missing `message.content` in a service reply, and the TypeError it would cause, is not modelled.
- Scoring: `title`, `description` and `content` are strings or absent. Other JSON types in those fields are not modelled (a non-string `content` would make `toLowerCase` or `substring` throw, and the search would return []), and `price` does not distinguish `undefined` from `null`.
- `createdAt` arrives already rendered as ISO text. The Firestore `Timestamp` conversion is not modelled.
- The text of the prompts and the model, temperature and token settings are not modelled. Only the figures the summary request states are modelled.
- Firestore reads, document deletion, the completion and vision APIs, logging and the function regions are I/O. They appear only as inputs and decisions.
- No recommendation code is modelled.
- The CORS script and the Android build files are configuration, not logic.
