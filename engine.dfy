/**
 * The search engine: it holds the loaded indexes and answers a query by
 * tokenizing it, optionally expanding it with synonyms, filtering the
 * documents, scoring each one, sorting by descending score then url, and
 * keeping the first `top_k` results.
 */
module Engine {
  import opened Options
  import opened Ordering
  import opened Indexer
  import opened Reviews
  import opened Query
  import opened Scoring

  /** One entry of the result list. */
  datatype Ranked = Ranked(url: string, title: string, description: string, score: real,
                           reviewStats: Option<ReviewStats>)

  /** What a search returns, the metadata block flattened. */
  datatype SearchResult = SearchResult(
    query: string,
    queryTokens: seq<string>,
    expandedTokens: Option<seq<string>>,
    totalDocuments: nat,
    documentsFiltered: nat,
    documentsReturned: nat,
    filterMode: string,
    rankingMode: string,
    useSynonyms: bool,
    results: seq<Ranked>)

  /** The engine's loaded state, as one value. */
  datatype Indexes = Indexes(titleIndex: PositionIndex, descriptionIndex: PositionIndex,
                             reviews: map<string, ReviewStats>, documentsMap: map<string, Document>,
                             totalDocs: nat)

  /** `{doc['url']: doc for doc in documents}`: a later document replaces an earlier one with the same url. */
  function DocumentsMap(docs: seq<Document>): map<string, Document> {
    if docs == [] then map[]
    else DocumentsMap(docs[..|docs| - 1])[docs[|docs| - 1].url := docs[|docs| - 1]]
  }

  /** A url is mapped exactly when some document has it, and to the last such document. */
  lemma {:induction false} DocumentsMapLastWins(docs: seq<Document>, u: string)
    ensures u in DocumentsMap(docs) <==> exists i :: 0 <= i < |docs| && docs[i].url == u
    ensures u in DocumentsMap(docs) ==>
              exists i :: 0 <= i < |docs| && docs[i] == DocumentsMap(docs)[u]
                          && docs[i].url == u && forall j :: i < j < |docs| ==> docs[j].url != u
  {
    if docs != [] {
      var init := docs[..|docs| - 1];
      var last := docs[|docs| - 1];
      DocumentsMapLastWins(init, u);
      if u != last.url {
        if exists i :: 0 <= i < |docs| && docs[i].url == u {
          var i :| 0 <= i < |docs| && docs[i].url == u;
          assert init[i].url == u;
        }
        if u in DocumentsMap(docs) {
          var i :| 0 <= i < |init| && init[i] == DocumentsMap(init)[u]
                   && init[i].url == u && forall j :: i < j < |init| ==> init[j].url != u;
          assert docs[i] == init[i];
          assert forall j :: i < j < |docs| ==> docs[j].url != u by {
            forall j | i < j < |docs| ensures docs[j].url != u {
              if j < |init| {
                assert docs[j] == init[j];
              }
            }
          }
        }
      }
    }
  }

  /** The weights used when the caller gives none. */
  const DefaultWeights: map<string, real> := map[
    "title_tf" := 3.0,
    "description_tf" := 1.0,
    "title_exact_match" := 10.0,
    "description_exact_match" := 5.0,
    "review_score" := 1.5,
    "review_count" := 0.5,
    "early_position" := 1.0,
    "brand_match" := 5.0
  ]

  /** Python's `xs[:k]` length for a list of length `n`: a negative `k` counts from the end. */
  function SliceEnd(n: nat, k: int): (r: nat)
    ensures r <= n
    ensures k >= 0 ==> r == if k < n then k else n
    ensures k < 0 ==> r == if n + k > 0 then n + k else 0
  {
    if k >= 0 then (if k < n then k else n)
    else if n + k > 0 then n + k else 0
  }

  /** The query tokens the engine scores with. */
  function ExpandedTokens(original: seq<string>, syn: SynonymTable, useSynonyms: bool): seq<string> {
    if useSynonyms then Expanded(original, syn) else original
  }

  /** Step 3: "any" unions over the expanded tokens; any other mode intersects over the original tokens. */
  function Filtered(filterMode: string, original: seq<string>, expanded: seq<string>,
                    ti: PositionIndex, di: PositionIndex): set<string> {
    if filterMode == "any" then AnyMatch(expanded, ti, di) else AllMatch(original, ti, di)
  }

  /** Step 4: "bm25" scores the expanded tokens; any other mode is the linear score of the original tokens. */
  ghost function ScoreOf(ix: Indexes, rankingMode: string, original: seq<string>, expanded: seq<string>,
                         w: map<string, real>, ln: real -> real, u: string): real {
    if rankingMode == "bm25" then Bm25(expanded, u, ix.titleIndex, ix.descriptionIndex, ix.totalDocs, ln)
    else LinearScore(original, u, ix.titleIndex, ix.descriptionIndex, ix.reviews, ix.documentsMap, w, ln)
  }

  /** The result entry of one filtered url. */
  ghost function Entry(ix: Indexes, rankingMode: string, original: seq<string>, expanded: seq<string>,
                       w: map<string, real>, ln: real -> real, u: string): Ranked {
    var d := DocOf(ix.documentsMap, u);
    Ranked(u, d.title, d.description, ScoreOf(ix, rankingMode, original, expanded, w, ln, u),
           if u in ix.reviews then Some(ix.reviews[u]) else None)
  }

  /** The engine's entry function for one request. */
  ghost function EntryFn(ix: Indexes, rankingMode: string, original: seq<string>, expanded: seq<string>,
                         w: map<string, real>, ln: real -> real): string -> Ranked {
    u => Entry(ix, rankingMode, original, expanded, w, ln, u)
  }

  /** The sort key `(-score, url)`: a higher score first, ties by url. */
  predicate Precedes(a: Ranked, b: Ranked) {
    a.score > b.score || (a.score == b.score && Less(a.url, b.url))
  }

  predicate RankedSorted(xs: seq<Ranked>) {
    forall i, j :: 0 <= i < j < |xs| ==> Precedes(xs[i], xs[j])
  }

  /** No url occurs twice. */
  predicate UrlsOnce(xs: seq<Ranked>) {
    forall i, j :: 0 <= i < j < |xs| ==> xs[i].url != xs[j].url
  }

  /** Entries with different urls are ordered one way or the other. */
  lemma PrecedesTotal(a: Ranked, b: Ranked)
    requires a.url != b.url
    ensures Precedes(a, b) || Precedes(b, a)
  {
    LessTotal(a.url, b.url);
  }

  lemma PrecedesTransitive(a: Ranked, b: Ranked, c: Ranked)
    requires Precedes(a, b) && Precedes(b, c)
    ensures Precedes(a, c)
  {
    if a.score == b.score == c.score {
      LessTransitive(a.url, b.url, c.url);
    }
  }

  /** Insert `x` into a sorted list whose urls differ from `x`'s. */
  function InsertRanked(xs: seq<Ranked>, x: Ranked): (r: seq<Ranked>)
    requires RankedSorted(xs)
    requires forall i :: 0 <= i < |xs| ==> xs[i].url != x.url
    ensures RankedSorted(r)
    ensures multiset(r) == multiset(xs) + multiset{x}
  {
    if xs == [] then [x]
    else if Precedes(x, xs[0]) then
      PrecedesAll(x, xs);
      ConsSorted(x, xs);
      [x] + xs
    else
      PrecedesTotal(x, xs[0]);
      var rest := InsertRanked(xs[1..], x);
      assert xs == [xs[0]] + xs[1..];
      AllFollow(xs, rest, x);
      ConsSorted(xs[0], rest);
      [xs[0]] + rest
  }

  /** Putting an entry that precedes all of a sorted list in front keeps it sorted. */
  lemma ConsSorted(h: Ranked, xs: seq<Ranked>)
    requires RankedSorted(xs) && forall k :: 0 <= k < |xs| ==> Precedes(h, xs[k])
    ensures RankedSorted([h] + xs)
  {
    var r := [h] + xs;
    forall i, j | 0 <= i < j < |r| ensures Precedes(r[i], r[j]) {
      assert r[j] == xs[j - 1];
      if i > 0 {
        assert r[i] == xs[i - 1];
      }
    }
  }

  /** An entry that precedes the head of a sorted list precedes all of it. */
  lemma PrecedesAll(x: Ranked, xs: seq<Ranked>)
    requires RankedSorted(xs) && xs != [] && Precedes(x, xs[0])
    ensures forall k :: 0 <= k < |xs| ==> Precedes(x, xs[k])
  {
    forall k | 0 < k < |xs| ensures Precedes(x, xs[k]) {
      PrecedesTransitive(x, xs[0], xs[k]);
    }
  }

  /** A list holding the tail of sorted `xs` and an `x` that its head precedes lies wholly after that head. */
  lemma AllFollow(xs: seq<Ranked>, rest: seq<Ranked>, x: Ranked)
    requires RankedSorted(xs) && xs != []
    requires multiset(rest) == multiset(xs[1..]) + multiset{x}
    requires Precedes(xs[0], x)
    ensures forall k :: 0 <= k < |rest| ==> Precedes(xs[0], rest[k])
  {
    forall k | 0 <= k < |rest| ensures Precedes(xs[0], rest[k]) {
      assert rest[k] in multiset(rest);
      if rest[k] != x {
        assert rest[k] in multiset(xs[1..]);
        var m :| 0 <= m < |xs[1..]| && xs[1..][m] == rest[k];
        assert xs[m + 1] == rest[k];
      }
    }
  }

  /** `list.sort(key=lambda x: (-x['score'], x['url']))` on entries with distinct urls. */
  function SortRanked(xs: seq<Ranked>): (r: seq<Ranked>)
    requires UrlsOnce(xs)
    ensures RankedSorted(r)
    ensures multiset(r) == multiset(xs)
  {
    if xs == [] then []
    else
      var init := xs[..|xs| - 1];
      var sorted := SortRanked(init);
      assert forall i :: 0 <= i < |sorted| ==> sorted[i].url != xs[|xs| - 1].url by {
        forall i | 0 <= i < |sorted| ensures sorted[i].url != xs[|xs| - 1].url {
          assert sorted[i] in multiset(init);
          var m :| 0 <= m < |init| && init[m] == sorted[i];
          assert xs[m] == sorted[i];
        }
      }
      assert xs == init + [xs[|xs| - 1]];
      InsertRanked(sorted, xs[|xs| - 1])
  }

  /**
   * The order is determined by the entries alone: two lists sorted by the
   * key that hold the same entries are equal, so the ranking does not
   * depend on the order in which the filtered set is iterated.
   */
  lemma RankingUnique(a: seq<Ranked>, b: seq<Ranked>)
    requires RankedSorted(a) && RankedSorted(b)
    requires Elems(a) == Elems(b)
    ensures a == b
  {
    var lt := (x: Ranked, y: Ranked) => Precedes(x, y);
    forall x, y, z | lt(x, y) && lt(y, z) ensures lt(x, z) {
      PrecedesTransitive(x, y, z);
    }
    forall x ensures !lt(x, x) {
      LessIrreflexive(x.url);
    }
    assert SortedBy(lt, a) && SortedBy(lt, b);
    SortedUnique(lt, a, b);
  }

  /** The entries of exactly the urls of `urls`, each url once. */
  ghost predicate EntriesOf(rs: seq<Ranked>, urls: set<string>, entry: string -> Ranked) {
    && UrlsOnce(rs)
    && (forall i :: 0 <= i < |rs| ==> rs[i].url in urls && rs[i] == entry(rs[i].url))
    && (forall u :: u in urls ==> exists i :: 0 <= i < |rs| && rs[i].url == u)
  }

  /** Appending the entry of a new url extends the entries by that url. */
  lemma EntriesSnoc(rs: seq<Ranked>, done: set<string>, u: string, e: Ranked, entry: string -> Ranked)
    requires EntriesOf(rs, done, entry) && u !in done
    requires e == entry(u) && e.url == u
    ensures EntriesOf(rs + [e], done + {u}, entry)
  {
    var r := rs + [e];
    forall v | v in done + {u} ensures exists i :: 0 <= i < |r| && r[i].url == v {
      if v == u {
        assert r[|rs|].url == v;
      } else {
        var i :| 0 <= i < |rs| && rs[i].url == v;
        assert r[i].url == v;
      }
    }
  }

  lemma SortedEntries(xs: seq<Ranked>, urls: set<string>, entry: string -> Ranked)
    requires EntriesOf(xs, urls, entry)
    ensures EntriesOf(SortRanked(xs), urls, entry)
  {
    var r := SortRanked(xs);
    forall i | 0 <= i < |r|
      ensures r[i].url in urls && r[i] == entry(r[i].url)
    {
      assert r[i] in multiset(xs);
    }
    forall u | u in urls ensures exists i :: 0 <= i < |r| && r[i].url == u {
      var m :| 0 <= m < |xs| && xs[m].url == u;
      assert xs[m] in multiset(r);
    }
    forall i, j | 0 <= i < j < |r| ensures r[i].url != r[j].url {
      assert Precedes(r[i], r[j]);
      if r[i].url == r[j].url {
        assert r[i] == r[j];
        LessIrreflexive(r[i].url);
      }
    }
  }

  /**
   * The loaded engine. The brand and origin indexes are loaded by the
   * source but never read by the scorers, so they are not fields here.
   */
  class SearchEngine {
    var titleIndex: PositionIndex
    var descriptionIndex: PositionIndex
    var reviewsIndex: map<string, ReviewStats>
    var synonyms: SynonymTable
    var documents: seq<Document>
    var documentsMap: map<string, Document>
    var totalDocs: nat

    /** `__init__`, given the already parsed files. */
    constructor(titleIndex: PositionIndex, descriptionIndex: PositionIndex,
                reviewsIndex: map<string, ReviewStats>, synonyms: SynonymTable, documents: seq<Document>)
      ensures this.titleIndex == titleIndex && this.descriptionIndex == descriptionIndex
      ensures this.reviewsIndex == reviewsIndex && this.synonyms == synonyms
      ensures this.documents == documents
      ensures this.documentsMap == DocumentsMap(documents)
      ensures this.totalDocs == |documents|
    {
      this.titleIndex := titleIndex;
      this.descriptionIndex := descriptionIndex;
      this.reviewsIndex := reviewsIndex;
      this.synonyms := synonyms;
      this.documents := documents;
      this.documentsMap := DocumentsMap(documents);
      this.totalDocs := |documents|;
    }

    function Snapshot(): Indexes
      reads this
    {
      Indexes(titleIndex, descriptionIndex, reviewsIndex, documentsMap, totalDocs)
    }

    /**
     * `search`: the result echoes the query, its tokens and the modes, and
     * its entries are the top of the ranking of the filtered urls (see
     * `TopRanking`).
     */
    method Search(query: string, filterMode: string, rankingMode: string, useSynonyms: bool,
                  topK: int, weights: Option<map<string, real>>, ln: real -> real)
      returns (result: SearchResult)
      ensures var original := QueryTokens(query);
              var expanded := ExpandedTokens(original, synonyms, useSynonyms);
              var filtered := Filtered(filterMode, original, expanded, titleIndex, descriptionIndex);
              && result.query == query
              && result.queryTokens == original
              && result.expandedTokens == (if useSynonyms then Some(expanded) else None)
              && result.totalDocuments == totalDocs
              && result.documentsFiltered == |filtered|
              && result.documentsReturned == |result.results|
              && result.filterMode == filterMode && result.rankingMode == rankingMode
              && result.useSynonyms == useSynonyms
              && TopRanking(result.results, filtered,
                            EntryFn(Snapshot(), rankingMode, original, expanded, weights.GetOr(DefaultWeights), ln),
                            topK)
    {
      var w := if weights.Some? then weights.value else DefaultWeights;
      var ix := Snapshot();
      var originalTokens := QueryTokens(query);
      var queryTokens: seq<string>;
      if useSynonyms {
        queryTokens := ExpandQuery(originalTokens, synonyms);
      } else {
        queryTokens := originalTokens;
      }
      var filteredUrls: set<string>;
      if filterMode == "any" {
        filteredUrls := FilterAny(queryTokens, ix.titleIndex, ix.descriptionIndex);
      } else {
        filteredUrls := FilterAll(originalTokens, ix.titleIndex, ix.descriptionIndex);
      }
      assert filteredUrls == Filtered(filterMode, originalTokens, queryTokens, ix.titleIndex, ix.descriptionIndex);
      var top := RankAndCut(ix, filteredUrls, rankingMode, originalTokens, queryTokens, w, ln, topK);
      result := SearchResult(query, originalTokens, if useSynonyms then Some(queryTokens) else None,
                             totalDocs, |filteredUrls|, |top|, filterMode, rankingMode, useSynonyms, top);
    }
  }

  /** The score of one url and its entry in the result list. */
  method EntryOf(ix: Indexes, url: string, rankingMode: string, original: seq<string>, expanded: seq<string>,
                 w: map<string, real>, ln: real -> real) returns (entry: Ranked)
    ensures entry == Entry(ix, rankingMode, original, expanded, w, ln, url)
  {
    var score: real;
    if rankingMode == "bm25" {
      score := Bm25Score(DistinctUrls, expanded, url, ix.titleIndex, ix.descriptionIndex, ix.totalDocs, ln);
    } else {
      score := LinearScoreOf(original, url, ix.titleIndex, ix.descriptionIndex, ix.reviews, ix.documentsMap, w, ln);
    }
    var docData := DocOf(ix.documentsMap, url);
    var stats := if url in ix.reviews then Some(ix.reviews[url]) else None;
    entry := Ranked(url, docData.title, docData.description, score, stats);
  }

  /** Score every filtered url and build its entry, in the set's iteration order. */
  method RankUrls(ix: Indexes, urls: set<string>, rankingMode: string, original: seq<string>, expanded: seq<string>,
                  w: map<string, real>, ln: real -> real) returns (ranked: seq<Ranked>)
    ensures EntriesOf(ranked, urls, EntryFn(ix, rankingMode, original, expanded, w, ln))
  {
    ranked := [];
    var rest := urls;
    ghost var entry := EntryFn(ix, rankingMode, original, expanded, w, ln);
    while rest != {}
      invariant rest <= urls
      invariant EntriesOf(ranked, urls - rest, entry)
      decreases rest
    {
      var url :| url in rest;
      var e := EntryOf(ix, url, rankingMode, original, expanded, w, ln);
      EntriesSnoc(ranked, urls - rest, url, e, entry);
      assert (urls - rest) + {url} == urls - (rest - {url});
      ranked := ranked + [e];
      rest := rest - {url};
    }
    assert urls - rest == urls;
  }

  /**
   * Steps 4 and 5 of `search`: score the filtered urls, sort the entries
   * by the key and keep the slice `[:top_k]`.
   */
  method RankAndCut(ix: Indexes, urls: set<string>, rankingMode: string, original: seq<string>, expanded: seq<string>,
                    w: map<string, real>, ln: real -> real, topK: int) returns (top: seq<Ranked>)
    ensures TopRanking(top, urls, EntryFn(ix, rankingMode, original, expanded, w, ln), topK)
  {
    var ranked := RankUrls(ix, urls, rankingMode, original, expanded, w, ln);
    ghost var entry := EntryFn(ix, rankingMode, original, expanded, w, ln);
    SortedEntries(ranked, urls, entry);
    var sorted := SortRanked(ranked);
    EntriesCard(sorted, urls, entry);
    var k := SliceEnd(|sorted|, topK);
    top := sorted[..k];
    TopEntries(sorted, urls, entry, topK, k);
  }

  /**
   * `top` is what the engine returns for the filtered `urls`: as many
   * entries as the slice `[:top_k]` keeps, sorted by the key, each url
   * once, each the entry of a filtered url, and every filtered url left
   * out ranking after every one returned.
   */
  ghost predicate TopRanking(top: seq<Ranked>, urls: set<string>, entry: string -> Ranked, topK: int) {
    && |top| == SliceEnd(|urls|, topK)
    && RankedSorted(top)
    && UrlsOnce(top)
    && (forall i :: 0 <= i < |top| ==>
          top[i].url in urls && top[i] == entry(top[i].url))
    && (forall i, u :: (0 <= i < |top| && u in urls && forall j :: 0 <= j < |top| ==> top[j].url != u) ==>
          Precedes(top[i], entry(u)))
  }

  /**
   * The first `k` entries of a sorted list of the entries of `urls` are
   * sorted, are entries of `urls`, and precede every entry left out.
   */
  lemma TopEntries(sorted: seq<Ranked>, urls: set<string>, entry: string -> Ranked,
                   topK: int, k: nat)
    requires RankedSorted(sorted) && EntriesOf(sorted, urls, entry)
    requires |sorted| == |urls| && k == SliceEnd(|urls|, topK)
    ensures TopRanking(sorted[..k], urls, entry, topK)
  {
    var top := sorted[..k];
    assert forall i :: 0 <= i < k ==> top[i] == sorted[i];
    forall i, u | 0 <= i < k && u in urls && (forall j :: 0 <= j < k ==> top[j].url != u)
      ensures Precedes(top[i], entry(u))
    {
      var m :| 0 <= m < |sorted| && sorted[m].url == u;
      assert k <= m;
      assert Precedes(sorted[i], sorted[m]);
    }
  }

  /** A list of the entries of `urls`, one per url, is as long as `urls` is large. */
  lemma EntriesCard(rs: seq<Ranked>, urls: set<string>, entry: string -> Ranked)
    requires EntriesOf(rs, urls, entry)
    ensures |rs| == |urls|
  {
    UrlsOfCard(rs);
    assert UrlsOf(rs) == urls by {
      forall u | u in urls ensures u in UrlsOf(rs) {
        var i :| 0 <= i < |rs| && rs[i].url == u;
      }
    }
  }


  /**
   * The result list is determined by the engine's state and the request:
   * two lists that both meet `TopRanking` for the same arguments are equal,
   * whatever order the filtered set was iterated in.
   */
  lemma TopRankingUnique(a: seq<Ranked>, b: seq<Ranked>, urls: set<string>, entry: string -> Ranked, topK: int)
    requires TopRanking(a, urls, entry, topK)
    requires TopRanking(b, urls, entry, topK)
    ensures a == b
  {
    assert Elems(a) <= Elems(b) by {
      forall x | x in Elems(a) ensures x in Elems(b) {
        var i :| 0 <= i < |a| && a[i] == x;
        MissingRanksLast(a, b, urls, entry, topK, i);
      }
    }
    assert Elems(b) <= Elems(a) by {
      forall x | x in Elems(b) ensures x in Elems(a) {
        var i :| 0 <= i < |b| && b[i] == x;
        MissingRanksLast(b, a, urls, entry, topK, i);
      }
    }
    RankingUnique(a, b);
  }

  /** An entry of `a` is an entry of `b` when both are top rankings for the same arguments. */
  lemma MissingRanksLast(a: seq<Ranked>, b: seq<Ranked>, urls: set<string>, entry: string -> Ranked, topK: int, i: nat)
    requires TopRanking(a, urls, entry, topK)
    requires TopRanking(b, urls, entry, topK)
    requires i < |a|
    ensures a[i] in Elems(b)
  {
    var x := a[i];
    if x.url !in UrlsOf(b) {
      // every entry of `b` precedes `x`; `b` is as long as `a`, so some entry
      // of `b` is missing from `a`, and `x` precedes it
      UrlsOfCard(a);
      UrlsOfCard(b);
      assert x.url in UrlsOf(a);
      var v := OtherWitness(UrlsOf(a), UrlsOf(b), x.url);
      var m :| 0 <= m < |b| && b[m].url == v;
      var y := b[m];
      assert x == entry(x.url);
      assert y == entry(v);
      assert forall j :: 0 <= j < |b| ==> b[j].url != x.url;
      assert forall j :: 0 <= j < |a| ==> a[j].url != v;
      assert Precedes(y, x);
      assert Precedes(x, y);
      NoCycle(x, y);
      assert false;
    }
    var j :| 0 <= j < |b| && b[j].url == x.url;
    assert b[j] == x;
  }

  /** No two entries precede each other. */
  lemma NoCycle(x: Ranked, y: Ranked)
    requires Precedes(x, y)
    ensures !Precedes(y, x)
  {
    if Precedes(y, x) {
      PrecedesTransitive(x, y, x);
      LessIrreflexive(x.url);
    }
  }

  /** The urls of a result list. */
  ghost function UrlsOf(rs: seq<Ranked>): set<string> {
    set i | 0 <= i < |rs| :: rs[i].url
  }

  lemma UrlsOfCard(rs: seq<Ranked>)
    requires UrlsOnce(rs)
    ensures |UrlsOf(rs)| == |rs|
  {
    var us := seq(|rs|, k requires 0 <= k < |rs| => rs[k].url);
    assert Distinct(us);
    DistinctCard(us);
    assert Elems(us) == UrlsOf(rs) by {
      forall u | u in UrlsOf(rs) ensures u in Elems(us) {
        var k :| 0 <= k < |rs| && rs[k].url == u;
        assert us[k] == u;
      }
    }
  }

  /** Of two sets of the same size, one with an element the other lacks, the other has one the first lacks. */
  lemma OtherWitness(s: set<string>, t: set<string>, x: string) returns (v: string)
    requires |s| == |t| && x in s && x !in t
    ensures v in t && v !in s
  {
    if t <= s {
      SubsetCard(t, s - {x});
      assert false;
    }
    v :| v in t && v !in s;
  }
}
