# E-commerce crawler, indexer and search engine — a Dafny model

The repository is a three-stage pipeline over an online shop:

- **TP1, the crawler.** It walks the shop from a start url. Its frontier queue puts product pages (priority 0) before other pages (priority 1). It records each crawled page.
- **TP2, the indexer.** It tokenizes the crawled documents and builds:
  - a position index per text field (term → url → token positions);
  - a simple index (term → sorted urls);
  - a reviews index (url → review count, mean mark and last rating);
  - feature indexes (feature value → sorted urls);
  - the list of feature names.
- **TP3, the search engine.** It answers a query in five steps:
  1. it tokenizes the query;
  2. it optionally expands the tokens with a synonym dictionary;
  3. it filters urls whose title or description holds any of the tokens, or all of them;
  4. it scores every filtered url, by BM25 or by a linear combination of signals;
  5. it sorts by descending score then url, and keeps the first `top_k`.

The model is in these modules, one per file:

* `Options`: an optional value with `GetOr`, Python's `d.get(k, default)`.
* `Text`: character classes and string operations.
  - ASCII lower-casing.
  - `string.punctuation` and its removal.
  - `str.split()`, `''.join` and `sep.join`.
  - Substring search (`pat in s`).
* `Ordering`: Python's string order, strictly sorted lists, and `sorted(list(s))` for a set.
* `Tokenizer`: the tokenizer both programs share: lower-case, strip punctuation, split, drop stopwords. The stopword set is a parameter.
* `Indexer`: the indexer's documents and its simple and position indexes.
* `Reviews`: the reviews index.
* `Features`:
  - feature aliases;
  - the separator regular expression of the multi-valued features;
  - the feature index and the feature-name list.
* `Query`: the search engine's side of a query.
  - Its stopword list.
  - Synonym expansion.
  - The two filters.
  - Term frequency.
  - The exact-phrase check.
* `Scoring`: BM25 and the linear score.
* `Engine`: the `SearchEngine` class and `search`.
* `Crawler`: URL priority, queueing, the stable sort before each pop, and the crawl loop (a `WebCrawler` class).

How the model is built:

- **Loops become methods.** Each loop of the source is a method with a loop. The method is proved equal to a left fold over its input, e.g. `PositionIndexOf`, `SimpleSets`, `ReviewsIndexOf`, `FeatureSets`, `Expanded`, `Enqueue`.
- **Properties are lemmas.** The lemmas about the folds state what the indexes contain, and link index contents back to document tokens.
- **Classes.** The two classes of the source, `SearchEngine` and `WebCrawler`, are Dafny classes. `WebCrawler`'s methods update its queue, visited set and results in place.
- **Oracles.** The crawler calls two functions it gets as inputs:
  - `canFetch` stands for the robots.txt lookup;
  - `fetch` stands for fetching a page and extracting its fields.
- **Logarithm.** Python's `math.log` is a parameter `ln: real -> real`. Scores are real numbers.

## Model

| member | source | states |
|---|---|---|
| `Text.LowerChar` | TP2/indexer.py:84 | an ASCII capital maps to its small letter (code point plus 32); every other character stays as it is; the result is never a capital |
| `Text.Lower` | TP2/indexer.py:84 | `text.lower()` keeps the length and lower-cases each character in place |
| `Text.PunctuationRanges` | TP2/indexer.py:87 | the four ASCII ranges used for punctuation are exactly the 32 characters of `string.punctuation` |
| `Text.StripPunctChars` | TP2/indexer.py:87 | removing punctuation leaves no punctuation character, only characters of the input, and every non-punctuation character of the input |
| `Text.WordPrefix` | TP2/indexer.py:90 | the word at the start of a text is a whitespace-free prefix followed by whitespace or by the end of the text |
| `Text.SplitWords` | TP2/indexer.py:90 | `str.split()` yields non-empty, whitespace-free words made of the text's characters; a text of whitespace only yields no word |
| `Text.Concat` | TP2/indexer.py:244 | `''.join` of a list holding a non-empty word is non-empty |
| `Text.Join` | TP3/search_engine.py:437 | `sep.join` of two or more words is at least as long as the separator; a non-empty first word gives a non-empty result |
| `Text.WordOfAppend` | TP2/indexer.py:90 | a whitespace-free word followed by whitespace or by nothing is the first word of the text |
| `Text.SplitJoin` | TP2/indexer.py:257 | round trip behind the `' '.join(value_tokens)` keys: splitting non-empty whitespace-free words joined by single spaces gives the words back |
| `Text.Contains` | TP3/search_engine.py:438 | `pat in s` holds exactly when `pat` occurs in `s` at some index |
| `Ordering.LessIsStrictTotalOrder` | TP2/indexer.py:162 | Python's string comparison is irreflexive, transitive and total |
| `Ordering.SortedUnique` | TP2/indexer.py:160-162 | two lists strictly sorted by the same irreflexive, transitive relation that hold the same elements are equal |
| `Ordering.InsertSorted` | TP2/indexer.py:162 | inserting into a strictly sorted list keeps it strictly sorted and adds exactly the new element |
| `Ordering.SortedList` | TP2/indexer.py:162 | `sorted(list(s))` is strictly sorted and holds exactly the elements of `s` |
| `Ordering.StrictlySortedDistinct` | TP2/indexer.py:162 | a strictly sorted list has no duplicate |
| `Ordering.SortedListUnique` | TP2/indexer.py:162 | the sorted list of a set of strings is unique |
| `Tokenizer.DropStopwordsKeeps` | TP2/indexer.py:93 | the kept words are exactly the input words that are not stopwords, and there are no more of them than input words |
| `Tokenizer.NormalizedChar` | TP2/indexer.py:84-87 | after lower-casing and removing punctuation, no character is punctuation or a capital |
| `Tokenizer.WordsClean` | TP2/indexer.py:84-90 | every word of the normalised text is non-empty and free of whitespace, punctuation and capitals |
| `Tokenizer.BlankNormalizesBlank` | TP2/indexer.py:84-87 | a text made only of whitespace and punctuation normalises to whitespace only |
| `Tokenizer.TokenizeClean` | TP2/indexer.py:73-95 | every token is non-empty and has no whitespace, no punctuation, no capital, and is not a stopword; a text of whitespace and punctuation only (the empty text too) has no token |
| `Tokenizer.DropStopwordsSubsequence` | TP2/indexer.py:93 | dropping stopwords keeps the order of the remaining words |
| `Tokenizer.DropStopwordsTwice` | TP2/indexer.py:93 | dropping a smaller stopword set before a larger one changes nothing |
| `Tokenizer.TokenizeMonotone` | TP2/indexer.py:73-95 | tokenizing with a larger stopword set gives the tokens of the smaller set without the extra stopwords, so a subsequence of them |
| `Indexer.EmptyTextNoTokens` | TP2/indexer.py:73-95 | an empty field has no token |
| `Indexer.AddPosition` | TP2/indexer.py:121-123 | `index[t][u].append(p)` appends `p` to exactly the postings of `(t, u)`, leaves all other postings as they were, and adds no empty entry |
| `Indexer.CreatePositionIndex` | TP2/indexer.py:98-130 | the builder's nested loops compute the fold `PositionIndexOf`, document by document |
| `Indexer.OccurrencesExact` | TP2/indexer.py:119-123 | the positions recorded for a term in one token list are exactly the positions holding it, strictly increasing, one per occurrence |
| `Indexer.AddTokensPostings` | TP2/indexer.py:119-123 | recording the first `n` tokens of a document appends, for its url only, each term's occurrences among them, and adds no empty entry |
| `Indexer.PositionIndexPostings` | TP2/indexer.py:98-130 | the postings of `(t, u)` are the positions of `t` in every document with url `u`, concatenated in document order; the index has no empty entry |
| `Indexer.GatheredSound` | TP2/indexer.py:112-123 | every stored position comes from an occurrence of the term in some document with that url |
| `Indexer.GatheredNone` | TP2/indexer.py:115-116 | a url whose documents give no tokens gets no positions |
| `Indexer.GatheredUnique` | TP2/indexer.py:98-130 | with unique urls, the positions of a url are exactly those of its own document |
| `Indexer.PositionsAreOccurrences` | TP2/indexer.py:98-130 | round trip: every stored position `p` of term `t` for url `u` has `tokens(doc)[p] == t` for some document with url `u` |
| `Indexer.PositionIndexExact` | TP2/indexer.py:98-130 | with unique urls a term has an entry for a document's url exactly when it is one of the document's tokens, and then holds exactly its positions, strictly increasing, non-empty and one per occurrence |
| `Indexer.PostingsExact` | TP2/indexer.py:119-123 | the occurrence list of one term states presence, exact membership, increasing order and count |
| `Indexer.EmptyFieldNoPositions` | TP2/indexer.py:115-116 | documents whose field is empty or missing put their url in no entry of the position index |
| `Indexer.AddKeysMembers` | TP2/indexer.py:156-157 | `index[key].add(u)` for the first `n` keys: the keys are the old keys plus those, and `u` joins exactly those keys' sets |
| `Indexer.FrozenUnique` | TP2/indexer.py:160-162 | the map from each key to the sorted list of its set is unique |
| `Indexer.SortedLists` | TP2/indexer.py:160-162 | the final loop maps each key to the sorted list of its urls and has no other key |
| `Indexer.CreateSimpleIndex` | TP2/indexer.py:133-164 | the builder computes the sorted-list form of the fold `SimpleSets` |
| `Indexer.SimpleSetsMembers` | TP2/indexer.py:133-164 | url `u` is listed under term `t` exactly when `t` is a token of that field of a document with url `u`; a term is a key exactly when it has a url |
| `Indexer.EmptyFieldNotListed` | TP2/indexer.py:150-151 | documents whose field is empty or missing put their url in no entry of the simple index |
| `Indexer.PositionKeysMentions` | TP2/indexer.py:98-130 | the position index has url `u` under `t` exactly when a document with url `u` has the token `t` |
| `Indexer.SimpleMatchesPositions` | TP2/indexer.py:98-164 | the simple index lists for each term exactly the urls the position index has for it |
| `Indexer.GatheredContains` | TP2/indexer.py:119-123 | a document holding `t` gives its url at least one position under `t` |
| `Reviews.StatsMeaning` | TP2/indexer.py:184-192 | the entry counts the reviews, its mean times the count is the sum of the ratings, and the last rating is that of the last review; no review gives zeros everywhere |
| `Reviews.SumBetween` | TP2/indexer.py:187 | ratings between `lo` and `hi` sum to between `count * lo` and `count * hi` |
| `Reviews.MeanBetween` | TP2/indexer.py:186-188 | when every rating lies between `lo` and `hi` (1 to 5 on the site), so does the mean mark of a non-empty review list |
| `Reviews.MissingRatingIsZero` | TP2/indexer.py:186-189 | a review without a rating adds 0 to the sum and gives a last rating of 0 |
| `Reviews.CreateReviewsIndex` | TP2/indexer.py:167-200 | the builder computes the fold `ReviewsIndexOf` |
| `Reviews.ReviewsIndexKeys` | TP2/indexer.py:167-200 | every url of the corpus has an entry, and no other url does |
| `Reviews.ReviewsIndexLast` | TP2/indexer.py:167-200 | a url's entry holds the statistics of the last document with that url |
| `Reviews.ReviewsIndexUnique` | TP2/indexer.py:167-200 | with unique urls, every document's entry holds its own statistics |
| `Reviews.StatsExample` | TP2/indexer.py:184-189 | ratings 4, 2, 5 give 3 reviews, mean 11/3 and last rating 5 |
| `Features.FirstPresent` | TP2/indexer.py:229-235 | the value is that of the first alias present in the features, even when empty, and the empty string when no alias is present |
| `Features.SpaceRunMaximal` | TP2/indexer.py:251 | the counted whitespace run at the start is whole |
| `Features.SplitPieces` | TP2/indexer.py:251 | like `re.split`, the split yields at least one piece |
| `Features.PiecesHaveNoComma` | TP2/indexer.py:251 | no piece holds a comma, since every comma starts a separator |
| `Features.NoSeparatorOnePiece` | TP2/indexer.py:251 | a text without any separator match is one piece |
| `Features.CommaSeparator` | TP2/indexer.py:251 | `", "` in front of a text that does not start with whitespace is one separator |
| `Features.AndSeparator` | TP2/indexer.py:251 | `" and "` in front of a text that does not start with whitespace is one separator |
| `Features.SplitJoinPieces` | TP2/indexer.py:251 | round trip: values free of whitespace and commas, joined by `", "`, split back into the same values, empty ones included |
| `Features.SplitOnAnd` | TP2/indexer.py:247-251 | two plain values joined by `" and "` (as in "red and blue") split into exactly those two values |
| `Features.LookUpValue` | TP2/indexer.py:229-235 | the alias loop stops at the first alias present and returns its value |
| `Features.AddPieces` | TP2/indexer.py:253-259 | the piece loop adds the url under the key of every piece that has tokens, in order |
| `Features.CreateFeatureIndex` | TP2/indexer.py:203-273 | the builder computes the sorted-list form of the fold `FeatureSets` |
| `Features.FeatureSetsMembers` | TP2/indexer.py:224-266 | url `u` is listed under `key` exactly when a document with url `u` contributes `key`; a key is present exactly when it has a url |
| `Features.NoEmptyKey` | TP2/indexer.py:255-266 | the empty string is never a key of a feature index |
| `Features.DocKeysNonEmpty` | TP2/indexer.py:237-266 | no document contributes the empty key |
| `Features.SingleValueKey` | TP2/indexer.py:242-263 | a single-valued feature (brand, origin, material, ...) gives at most one key, and that key is the value's tokens glued into one clean word |
| `Features.ValueKeyShape` | TP2/indexer.py:257 | the key of a piece is one clean word (from up to two tokens) or its tokens joined by single spaces, which splitting gives back |
| `Features.PieceKeysShape` | TP2/indexer.py:253-259 | every key of a list of pieces has that shape |
| `Features.MultiValueKeys` | TP2/indexer.py:245-260 | every key of a multi-valued feature (colors, sizes, flavors) has that shape |
| `Features.OriginExample` | TP2/indexer.py:217-218 | the origin index reads the "made in" feature: "Italy" gives the key "italy" |
| `Features.FeatureNamesMembers` | TP2/indexer.py:286-290 | a name is collected exactly when some document has a feature by that name |
| `Features.ExtractAllFeatures` | TP2/indexer.py:276-292 | the result is strictly sorted (each name once) and holds exactly the feature names used by some document |
| `Query.QueryTokensRefineIndexTokens` | TP3/search_engine.py:79-101 | the search engine's tokens of a text are the indexer's tokens without the extra NLTK stopwords, so a subsequence of them |
| `Query.LookupFirst` | TP3/search_engine.py:131-133 | `synonyms[token]` is found exactly when some item has the key, and it is the list of the first such item |
| `Query.ExpandQuery` | TP3/search_engine.py:117-140 | the two nested loops compute the fold `Expanded` |
| `Query.ReverseKeysMembers` | TP3/search_engine.py:136-138 | the reverse lookup only appends, and appends exactly the keys whose list holds the token |
| `Query.ReverseKeysFresh` | TP3/search_engine.py:136-138 | the keys the reverse lookup appends are new and appended once each |
| `Query.ExpandedMembers` | TP3/search_engine.py:117-140 | the expansion starts with the query tokens and holds exactly them, the synonyms of tokens that are keys, and the keys whose list holds a token |
| `Query.ExpandedNoTable` | TP3/search_engine.py:117-140 | an empty synonym dictionary leaves the tokens unchanged |
| `Query.FilterAny` | TP3/search_engine.py:143-168 | the loop computes the union over the tokens of the urls in either index |
| `Query.FilterAll` | TP3/search_engine.py:171-208 | the loop computes the intersection over the tokens, and the empty set for no token |
| `Query.AnyMatchMembers` | TP3/search_engine.py:157-168 | a url passes the "any" filter exactly when some token has it in the title or description index |
| `Query.AllMatchMembers` | TP3/search_engine.py:185-206 | an empty query passes nothing; otherwise a url passes the "all" filter exactly when every token has it in one of the two indexes |
| `Query.AllWithinAny` | TP3/search_engine.py:143-208 | every url of the "all" filter passes the "any" filter |
| `Query.ExpansionWidens` | TP3/search_engine.py:526-535 | expanding the query with synonyms only widens the "any" filter |
| `Query.MatchingMentions` | TP3/search_engine.py:159-166 | on built indexes a url matches a token exactly when a document with that url has the token in its title or description |
| `Query.TermFrequencyCounts` | TP3/search_engine.py:211-235 | on indexes built from unique urls, the two term frequencies are the numbers of occurrences among the document's title and description tokens |
| `Query.MatchInField` | TP3/search_engine.py:323-341 | the scan over start positions returns the field's exact-match test |
| `Query.CheckExactMatch` | TP3/search_engine.py:300-363 | the two results are the exact-match tests of the title and of the description |
| `Query.FieldMatchExact` | TP3/search_engine.py:323-341 | with exact postings, the exact-match test holds exactly when the query is non-empty and occurs as a run of consecutive tokens |
| `Query.FieldMatchIsPhrase` | TP3/search_engine.py:300-363 | on indexes built from unique urls, a field matches exactly when the query is non-empty and occurs as consecutive tokens of that field of the document |
| `Scoring.LengthNorm` | TP3/search_engine.py:293 | the length normaliser is at least `k1 * (1 - b)`, so the BM25 denominator is positive |
| `Scoring.DocLengthOf` | TP3/search_engine.py:266-271 | the first loop sums both fields' occurrences of each distinct query token |
| `Scoring.Bm25Score` | TP3/search_engine.py:238-297 | the two loops compute BM25: with mode `FieldSum` the source's score as written (`Bm25AsWritten`), with `DistinctUrls` the corrected score (`Bm25`, see Findings) |
| `Scoring.TermScoreOf` | TP3/search_engine.py:274-295 | one token's contribution under the given document-frequency count; a token no document holds adds nothing |
| `Scoring.DocFrequencyOf` | TP3/search_engine.py:274-279 | the document frequency: `len(title_index[token]) + len(description_index[token])` for `FieldSum`, the distinct urls of both fields for `DistinctUrls`, 0 for a token neither index holds |
| `Scoring.IdfArgumentRange` | TP3/search_engine.py:285 | the logarithm's argument is `(N + 1) / (df + 0.5)`: always positive, above 1 exactly when `df <= N` and below 1 exactly when `df > N` |
| `Scoring.SaturationRange` | TP3/search_engine.py:292-295 | the saturated term frequency lies in `[0, k1 + 1)` and is 0 exactly for an absent term |
| `Scoring.DistinctDfBounded` | TP3/search_engine.py:274-285 | counting each document once, the document frequency on built indexes is at most the corpus size, so the idf argument is above 1 |
| `Scoring.FieldSumOvercounts` | TP3/search_engine.py:275-279 | the source's count is the distinct count plus the number of urls holding the term in both fields |
| `Scoring.DoubleCountExample` | TP3/search_engine.py:275-285 | one document with "shoe" in both fields: the source's count is 2 and the argument 0.8, while counting urls gives 1 and an argument above 1 |
| `Scoring.AsWrittenScoresNegative` | TP3/search_engine.py:273-297 | on that corpus, with a logarithm negative below 1 and positive above 1, the source's BM25 score of the only document is negative, and counting documents once makes it positive |
| `Scoring.TermScoreSign` | TP3/search_engine.py:285-295 | a token present in the document and in the corpus contributes with the sign of its idf |
| `Scoring.FieldSumDoubles` | TP3/search_engine.py:275-279 | on built indexes, a term every document holds in both fields gets the source's count `2 * N` |
| `Scoring.RepeatedTokenScoredTwice` | TP3/search_engine.py:266-295 | a repeated query token is scored again while the document length stays the same |
| `Scoring.UnknownTokenIgnored` | TP3/search_engine.py:281-282 | a token that neither index holds does not change the BM25 score |
| `Scoring.MinPosition` | TP3/search_engine.py:430 | `min(positions)` is an element below or equal to every element |
| `Scoring.TfTotals` | TP3/search_engine.py:395-406 | the first two loops total the title and the description occurrences of the query tokens |
| `Scoring.PositionBonusOf` | TP3/search_engine.py:425-432 | the early-position loop sums the bonuses of the tokens |
| `Scoring.RawLinearScoreOf` | TP3/search_engine.py:392-439 | signals 1 to 6 add up to `RawLinearScore` |
| `Scoring.LinearScoreOf` | TP3/search_engine.py:366-446 | the signals, then the 0.7 penalty for a document with fewer than 10 tokens |
| `Scoring.TermScoreNonNegative` | TP3/search_engine.py:281-295 | a token's BM25 contribution is non-negative once its document frequency is at most the corpus size |
| `Scoring.Bm25NonNegative` | TP3/search_engine.py:238-297 | counting each document once, the BM25 score on built indexes is never negative, for a logarithm positive above 1 |
| `Scoring.EarlierIsBetter` | TP3/search_engine.py:430-431 | a token whose earliest title position is smaller gets a larger bonus, at most the weight |
| `Scoring.MinPositionIsFirstOccurrence` | TP3/search_engine.py:426-430 | on the title index built from unique urls, the bonus position is the first occurrence of the token in the title tokens |
| `Scoring.LinearScoreNonNegative` | TP3/search_engine.py:366-446 | with non-negative weights and mean marks and a logarithm non-negative from 1 on, the linear score is non-negative |
| `Scoring.NoSignalNoScore` | TP3/search_engine.py:366-446 | a url no query token reaches, without a review entry and without a brand scores 0 |
| `Engine.DocumentsMapLastWins` | TP3/search_engine.py:482 | a url is mapped exactly when some document has it, and to the last document with it |
| `Engine.SliceEnd` | TP3/search_engine.py:575 | `[:top_k]` keeps `min(k, n)` entries for `k >= 0` and `max(n + k, 0)` for a negative `k` |
| `Engine.PrecedesTotal` | TP3/search_engine.py:572 | the sort key orders any two entries with different urls |
| `Engine.PrecedesTransitive` | TP3/search_engine.py:572 | the sort key is transitive |
| `Engine.SortRanked` | TP3/search_engine.py:572 | the sort yields a permutation of the entries, ordered by descending score and then url |
| `Engine.RankingUnique` | TP3/search_engine.py:570-572 | two lists sorted by the key with the same entries are equal, so the ranking does not depend on how the filtered set is iterated |
| `Engine.SearchEngine.constructor` | TP3/search_engine.py:452-486 | the engine holds the given indexes, documents and synonyms, the url-to-document map and the document count |
| `Engine.SearchEngine.Search` | TP3/search_engine.py:488-591 | the result echoes the query, its tokens, the expanded tokens (when used), the counts and the modes; its entries are the top `top_k` of the filtered urls' entries by the sort key |
| `Engine.EntryOf` | TP3/search_engine.py:545-568 | the score is BM25 of the expanded tokens for "bm25" and the linear score of the original tokens otherwise; the entry carries the document's fields and review statistics |
| `Engine.RankUrls` | TP3/search_engine.py:541-568 | the loop builds the entry of every filtered url, each once |
| `Engine.RankAndCut` | TP3/search_engine.py:541-575 | scoring, sorting and slicing give the top ranking of the filtered urls |
| `Engine.TopEntries` | TP3/search_engine.py:572-575 | the first `k` entries of the sorted entries are sorted, are entries of filtered urls, and precede every entry left out |
| `Engine.TopRankingUnique` | TP3/search_engine.py:570-575 | the result list is determined by the engine state and the request, whatever the set's iteration order |
| `Crawler.IsProductUrl` | TP1/crawler.py:324-334 | a url is a product page exactly when "product" occurs in its lower-cased form |
| `Crawler.Priority` | TP1/crawler.py:345 | the priority is 0 or 1, and 0 exactly for product pages |
| `Crawler.QueuedUrls` | TP1/crawler.py:344 | the queued urls, one per entry, in queue order |
| `Crawler.SortTwoLevels` | TP1/crawler.py:356 | the stable sort puts the product entries first and the others after them, each group in queue order |
| `Crawler.PopsEarliestProduct` | TP1/crawler.py:356-358 | the popped entry is the earliest product entry when there is one (and then only then has priority 0), and the queue's first entry otherwise |
| `Crawler.SortByPriorityPermutes` | TP1/crawler.py:356 | the sorted queue is a permutation of the queue |
| `Crawler.FreshElems` | TP1/crawler.py:343-346 | the fresh urls are exactly the input urls not already seen |
| `Crawler.EnqueueExtends` | TP1/crawler.py:343-346 | queueing removes nothing and gives each appended url its priority |
| `Crawler.EnqueueAppendsFresh` | TP1/crawler.py:343-346 | queueing appends exactly the input urls neither visited nor queued before, first occurrence only, in input order |
| `Crawler.FreshSubsequence` | TP1/crawler.py:343-346 | the appended urls keep the input order |
| `Crawler.FreshDistinct` | TP1/crawler.py:343-346 | no url is appended twice |
| `Crawler.EnqueueKeepsDisjoint` | TP1/crawler.py:336-346 | queueing keeps the queue free of duplicate and visited urls, and afterwards every input url is visited or queued |
| `Crawler.PoppedNotVisited` | TP1/crawler.py:360-361 | under the invariant the popped url is never already visited |
| `Crawler.StepKeepsInvariant` | TP1/crawler.py:354-396 | a step keeps the invariant; it visits the popped url exactly when robots.txt allows it, and records a page exactly when the fetch also gives one |
| `Crawler.WebCrawler.constructor` | TP1/crawler.py:292-322 | the start url is queued at priority 1, nothing is visited or recorded, and the invariant holds |
| `Crawler.WebCrawler.AddUrlsToQueue` | TP1/crawler.py:336-346 | the queue becomes the fold `Enqueue` of the old queue; visited urls and results are unchanged |
| `Crawler.WebCrawler.CrawlStep` | TP1/crawler.py:355-396 | one loop iteration moves the state as `Step` does |
| `Crawler.StepProgress` | TP1/crawler.py:355-396 | in every state an iteration either shortens the queue and visits nothing, or visits exactly one new url, so the loop ends |
| `Crawler.RunStops` | TP1/crawler.py:355 | the loop `Run` ends with an empty queue or with `max_pages` urls visited |
| `Crawler.StepGrows` | TP1/crawler.py:360-396 | in every state an iteration only adds visited urls, each allowed by robots.txt, and appends at most one page, for the url it newly visits |
| `Crawler.RunKeepsInvariant` | TP1/crawler.py:355-396 | from a state meeting the invariant, `Run` keeps it |
| `Crawler.RunVisits` | TP1/crawler.py:355-396 | `Run` only adds visited urls, each allowed by robots.txt, and visits at most `max_pages` urls unless more already were |
| `Crawler.RunAppends` | TP1/crawler.py:355-396 | `Run` keeps the recorded pages as a prefix of its results |
| `Crawler.RunRecords` | TP1/crawler.py:355-396 | every page `Run` appends is for a url it newly visits |
| `Crawler.WebCrawler.Crawl` | TP1/crawler.py:348-400 | the final state is `Run` of the initial one, the loop's iterations of `Step` one after another; the invariant holds throughout; at the end the queue is empty or the page limit is reached; visited urls and results only grow; each newly visited url passed the robots check and each new result is one of them; at most `max_pages` urls are visited unless more already were |

## Left out

- File input and output are not modelled. This covers `load_json`, `load_jsonl`, `load_synonyms`, `save_index`, `build_all_indexes`, `save_results` and the `main` functions of the three programs. The indexes and documents are values handed to the builders and to the `SearchEngine` constructor. Printing is dropped.
- The network is not modelled. The crawler does not model:
  - the robots.txt lookup (`RobotsChecker`, with its cache);
  - `fetch_page`;
  - the HTML extraction (`extract_title`, `extract_description`, `extract_product_features`, `extract_product_reviews`, `extract_links`).

  They are the parameters `canFetch` and `fetch`. `fetch` returns the page's document, whose `links` are the extracted links. `None` stands for an empty or failed fetch.
- The politeness delay (`time.sleep`) and the `delay` field: a pause changes no state.
- Parsing `start_url` into `base_url` is not modelled. It is only passed to `extract_links`, which is behind `fetch`.
- `extract_product_id` and the other page-parsing helpers of the crawler are not modelled. They only feed the extracted page.
- `math.log` is the parameter `ln`. The non-negativity lemmas assume only that it is positive above 1, or non-negative from 1 on.
- Floating point is modelled as exact real arithmetic. Rounding is not captured.
- Integer division in the mean mark is not an issue: Python's `/` gives a real, and the model divides reals.
- Character handling is ASCII only:
  - `str.lower()` maps only `A`-`Z`;
  - whitespace for `split()` and `\s` is the ASCII set.

  Unicode case mapping and Unicode whitespace are not modelled.
- The separator regular expression `\s+and\s+|\s+or\s+|,\s*` is written out as `SeparatorLength`. It is not a general regular-expression engine.
- The brand and origin indexes are loaded by `SearchEngine.__init__` but never read by the scorers. They are not fields of `SearchEngine`. Building them is modelled by `CreateFeatureIndex`.
- The synonym dictionary is the sequence of its items in insertion order (`SynonymTable`). The dictionary `json.load` builds has each key once: a key repeated in the file keeps its last value. On tables with distinct keys, `Query.Lookup` and the reverse-map loop agree with that dictionary. The model's functions also accept tables with a repeated key, which the source cannot hold; there `Lookup` reads the first item and the reverse loop visits every item. That behaviour is the model's own choice, not Python's.
- Python sets are modelled as Dafny sets. The order in which a set is iterated is chosen by the model (`:|`). The ranking does not depend on it (`RankingUnique`, `TopRankingUnique`). The sorted index lists do not either (`SortedListUnique`, `FrozenUnique`).
- A missing field of a document reads as the empty string, and a missing feature map or review list as empty. This is what the source's `doc.get(key, default)` returns. A missing url is the empty string, as the indexers' `doc.get('url', '')` reads it. The search engine's `{doc['url']: doc ...}` raises `KeyError` on a document without a url instead; `Engine.DocumentsMap` and the `SearchEngine` constructor read it as the empty string.
- The stopwords with apostrophes in the search engine's list ("don't", "it's", ...) are kept in the set. They can never match a token, because punctuation is removed before the stopword test.
- Crawler.WebCrawler.Crawl: requires the crawl invariant on entry, which the source does not check. The constructor establishes it and every step keeps it, so every state the class can reach meets it.
  - The branch `if url in self.visited: continue` of `crawl` is modelled, in `Step` and in `CrawlStep`. By `PoppedNotVisited` it is never taken under that invariant.
- Scoring.Bm25Score: computes the source's score with mode `FieldSum` (`Bm25AsWritten`) and the corrected score with `DistinctUrls`. The engine calls it with `DistinctUrls` (see Findings).
- Scoring.TermScoreOf: the engine calls it with the corrected count `DistinctUrls`, so its ranking terms differ from the source's where a document holds a query token in both fields. The source's count is mode `FieldSum`.
- Engine.EntryOf: in "bm25" mode the score is the corrected BM25 (`Scoring.Bm25`), not the source's double-counting score (`Scoring.Bm25AsWritten`, see Findings). The two counts differ by the documents holding a query token in both its title and its description (`Scoring.FieldSumOvercounts`); where there are none, the scores agree.
- Engine.SearchEngine.Search: in "bm25" mode the ranking uses the corrected BM25 score of `Engine.EntryOf`, not the source's (see Findings).
- The rest of each program's `main` (the example searches and the printed reports) is not modelled.

## Findings

| source | as written | input that shows it | evidently intended | confidence | as-written member | corrected member |
|---|---|---|---|---|---|---|
| TP3/search_engine.py:274-285 | the document frequency is `len(title_index[token]) + len(description_index[token])`, so a document holding the term in both its title and its description is counted twice; once `df > N` the idf argument `(N - df + 0.5) / (df + 0.5) + 1` is below 1 and the idf is negative | a corpus of one document with "shoe" in its title and its description: `df = 2`, argument `2 / 2.5 = 0.8`, `log(0.8) < 0`, so the best-matching term gets a negative weight (`Scoring.DoubleCountExample`), and the document's score is negative (`Scoring.AsWrittenScoresNegative`); on any corpus, a term every document holds in both fields gets `df = 2 * N` (`Scoring.FieldSumDoubles`) | the document frequency is the number of distinct documents holding the term, at most `N`, so the idf is positive and BM25 scores are never negative; `Scoring.Bm25Score` with mode `DistinctUrls` counts that way and the engine uses it | not executed | `Scoring.AsWrittenScoresNegative` | `Scoring.Bm25NonNegative` |
