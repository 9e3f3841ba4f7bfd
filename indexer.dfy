/**
 * The index builders of the indexer: a position index per text field
 * (term -> url -> token positions), a simple index (term -> sorted urls),
 * the reviews index, the feature indexes and the list of feature names.
 *
 * Every builder is a method whose loops follow the source; each is proved
 * equal to a left fold over the document list (`PositionIndexOf`,
 * `SimpleSets`, `ReviewsIndexOf`, `FeatureSets`), and the lemmas state what
 * those folds contain.
 */
module Indexer {
  import opened Options
  import opened Text
  import opened Tokenizer
  import opened Ordering

  /** The indexer's stopword set (38 words). */
  const Stopwords: set<string> := {
    "a", "an", "and", "are", "as", "at", "be", "by", "for", "from",
    "has", "he", "in", "is", "it", "its", "of", "on", "that", "the",
    "to", "was", "will", "with", "you", "your", "our", "this", "these",
    "those", "or", "but", "not", "can", "have", "we", "they", "if"
  }

  /** `tokenize` of the indexer. */
  function IndexTokens(text: string): seq<string> {
    Tokenize(text, Stopwords)
  }

  /** A review; a missing rating is `None`. */
  datatype Review = Review(date: string, id: string, rating: Option<int>, text: string)

  /**
   * A crawled document. A missing text field is the empty string and a
   * missing feature map or review list is empty, which is what the source's
   * `doc.get(key, default)` reads in those cases.
   */
  datatype Document = Document(
    url: string,
    title: string,
    description: string,
    features: map<string, string>,
    links: seq<string>,
    reviews: seq<Review>)

  /** The two text fields that get a position index. */
  datatype Field = Title | Description

  function FieldText(d: Document, f: Field): string {
    match f
    case Title => d.title
    case Description => d.description
  }

  /** The tokens of one field of one document. */
  function DocTokens(d: Document, f: Field): seq<string> {
    IndexTokens(FieldText(d, f))
  }

  lemma EmptyTextNoTokens(d: Document, f: Field)
    ensures FieldText(d, f) == "" ==> DocTokens(d, f) == []
  {
    TokenizeClean(FieldText(d, f), Stopwords);
  }

  /** No two documents share a url. */
  predicate UniqueUrls(docs: seq<Document>) {
    forall i, j :: 0 <= i < j < |docs| ==> docs[i].url != docs[j].url
  }

  // ---------------------------------------------------------------------
  // Position index

  /** term -> url -> positions of the term in that url's field. */
  type PositionIndex = map<string, map<string, seq<nat>>>

  /** The positions stored for `(t, u)`, empty when there is no entry. */
  function Postings(idx: PositionIndex, t: string, u: string): seq<nat> {
    if t in idx && u in idx[t] then idx[t][u] else []
  }

  /** No term without urls, no url without positions. */
  ghost predicate WellFormed(idx: PositionIndex) {
    forall t :: t in idx ==> idx[t] != map[] && forall u :: u in idx[t] ==> idx[t][u] != []
  }

  /** `index[t][u].append(p)` on the nested default dictionaries. */
  function AddPosition(idx: PositionIndex, t: string, u: string, p: nat): (r: PositionIndex)
    ensures WellFormed(idx) ==> WellFormed(r)
    ensures forall t', u' :: Postings(r, t', u') == Postings(idx, t', u') + (if t' == t && u' == u then [p] else [])
  {
    var postings := if t in idx then idx[t] else map[];
    var ps := if u in postings then postings[u] else [];
    idx[t := postings[u := ps + [p]]]
  }

  /** Record positions `0 .. n-1` of `toks` for url `u`. */
  function AddTokens(idx: PositionIndex, u: string, toks: seq<string>, n: nat): PositionIndex
    requires n <= |toks|
    decreases n
  {
    if n == 0 then idx else AddPosition(AddTokens(idx, u, toks, n - 1), toks[n - 1], u, n - 1)
  }

  /** One iteration of the document loop; an empty field is skipped. */
  function AddDocument(idx: PositionIndex, d: Document, f: Field): PositionIndex {
    var text := FieldText(d, f);
    if text == "" then idx
    else
      var toks := IndexTokens(text);
      AddTokens(idx, d.url, toks, |toks|)
  }

  /** The position index of `docs`, document by document. */
  function PositionIndexOf(docs: seq<Document>, f: Field): PositionIndex
    decreases |docs|
  {
    if docs == [] then map[]
    else AddDocument(PositionIndexOf(docs[..|docs| - 1], f), docs[|docs| - 1], f)
  }

  /** `create_inverted_index_with_positions(documents, field)`. */
  method CreatePositionIndex(docs: seq<Document>, f: Field) returns (idx: PositionIndex)
    ensures idx == PositionIndexOf(docs, f)
  {
    idx := map[];
    for i := 0 to |docs|
      invariant idx == PositionIndexOf(docs[..i], f)
    {
      assert docs[..i + 1][..i] == docs[..i];
      var d := docs[i];
      var text := FieldText(d, f);
      if text != "" {
        var toks := IndexTokens(text);
        ghost var before := idx;
        for p := 0 to |toks|
          invariant idx == AddTokens(before, d.url, toks, p)
        {
          idx := AddPosition(idx, toks[p], d.url, p);
        }
      }
    }
    assert docs[..|docs|] == docs;
  }

  /** The positions at which `t` occurs in `toks`, in increasing order. */
  function Occurrences(toks: seq<string>, t: string): seq<nat>
    decreases |toks|
  {
    if toks == [] then []
    else Occurrences(toks[..|toks| - 1], t) + (if toks[|toks| - 1] == t then [|toks| - 1] else [])
  }

  predicate Increasing(ps: seq<nat>) {
    forall i, j :: 0 <= i < j < |ps| ==> ps[i] < ps[j]
  }

  /**
   * `Occurrences(toks, t)` lists exactly the positions holding `t`, in
   * strictly increasing order, and has one entry per occurrence.
   */
  lemma {:induction false} OccurrencesExact(toks: seq<string>, t: string)
    ensures forall p: int :: p in Occurrences(toks, t) <==> 0 <= p < |toks| && toks[p] == t
    ensures Increasing(Occurrences(toks, t))
    ensures |Occurrences(toks, t)| == multiset(toks)[t]
  {
    OccurrencesMembers(toks, t);
    OccurrencesIncreasing(toks, t);
    OccurrencesCount(toks, t);
  }

  lemma {:induction false} OccurrencesMembers(toks: seq<string>, t: string)
    ensures forall p: int :: p in Occurrences(toks, t) <==> 0 <= p < |toks| && toks[p] == t
  {
    if toks != [] {
      var n := |toks| - 1;
      OccurrencesMembers(toks[..n], t);
      assert forall p :: 0 <= p < n ==> toks[p] == toks[..n][p];
    }
  }

  lemma {:induction false} OccurrencesIncreasing(toks: seq<string>, t: string)
    ensures Increasing(Occurrences(toks, t))
  {
    if toks != [] {
      var n := |toks| - 1;
      OccurrencesIncreasing(toks[..n], t);
      OccurrencesMembers(toks[..n], t);
      var occ := Occurrences(toks[..n], t);
      assert forall i :: 0 <= i < |occ| ==> occ[i] < n by {
        forall i | 0 <= i < |occ| ensures occ[i] < n {
          assert occ[i] in occ;
        }
      }
    }
  }

  lemma {:induction false} OccurrencesCount(toks: seq<string>, t: string)
    ensures |Occurrences(toks, t)| == multiset(toks)[t]
  {
    if toks != [] {
      var n := |toks| - 1;
      var init := toks[..n];
      OccurrencesCount(init, t);
      assert toks == init + [toks[n]];
      assert multiset(toks) == multiset(init) + multiset{toks[n]};
    }
  }

  /** Adding the first `n` tokens appends their occurrences to url `u`. */
  lemma {:induction false} AddTokensPostings(idx: PositionIndex, u: string, toks: seq<string>, n: nat)
    requires n <= |toks|
    ensures WellFormed(idx) ==> WellFormed(AddTokens(idx, u, toks, n))
    ensures forall t, v :: Postings(AddTokens(idx, u, toks, n), t, v)
                           == Postings(idx, t, v) + (if v == u then Occurrences(toks[..n], t) else [])
  {
    if n > 0 {
      AddTokensPostings(idx, u, toks, n - 1);
      assert toks[..n][..n - 1] == toks[..n - 1];
      var prev := AddTokens(idx, u, toks, n - 1);
      var next := AddTokens(idx, u, toks, n);
      assert next == AddPosition(prev, toks[n - 1], u, n - 1);
      forall t, v ensures Postings(next, t, v) == Postings(idx, t, v) + (if v == u then Occurrences(toks[..n], t) else []) {
        var last: seq<nat> := if toks[n - 1] == t then [n - 1] else [];
        assert toks[..n][n - 1] == toks[n - 1];
        assert Occurrences(toks[..n], t) == Occurrences(toks[..n - 1], t) + last;
        PostingsAppend(Postings(next, t, v), Postings(prev, t, v), Postings(idx, t, v),
                       Occurrences(toks[..n - 1], t), last, v == u);
      }
    } else {
      assert toks[..0] == [];
    }
  }

  /** Appending to the positions of the url being added extends what it had gathered so far. */
  lemma PostingsAppend(next: seq<nat>, prev: seq<nat>, base: seq<nat>, gathered: seq<nat>, last: seq<nat>, isUrl: bool)
    requires prev == base + (if isUrl then gathered else [])
    requires next == prev + (if isUrl then last else [])
    ensures next == base + (if isUrl then gathered + last else [])
  {
    if isUrl {
      assert base + gathered + last == base + (gathered + last);
    } else {
      assert prev + [] == prev;
    }
  }

  /**
   * The positions the corpus gives to `(t, u)`: the occurrences of `t` in
   * each document with url `u`, concatenated in document order.
   */
  function Gathered(docs: seq<Document>, f: Field, t: string, u: string): seq<nat>
    decreases |docs|
  {
    if docs == [] then []
    else
      var d := docs[|docs| - 1];
      Gathered(docs[..|docs| - 1], f, t, u) + (if d.url == u then Occurrences(DocTokens(d, f), t) else [])
  }

  /** The position index stores `Gathered` for every term and url, and nothing empty. */
  lemma {:induction false} PositionIndexPostings(docs: seq<Document>, f: Field)
    ensures WellFormed(PositionIndexOf(docs, f))
    ensures forall t, u :: Postings(PositionIndexOf(docs, f), t, u) == Gathered(docs, f, t, u)
  {
    if docs != [] {
      var n := |docs| - 1;
      var d := docs[n];
      PositionIndexPostings(docs[..n], f);
      var toks := DocTokens(d, f);
      AddTokensPostings(PositionIndexOf(docs[..n], f), d.url, toks, |toks|);
      assert toks[..|toks|] == toks;
      EmptyTextNoTokens(d, f);
    }
  }

  /** Every position stems from an occurrence in some document with that url. */
  lemma {:induction false} GatheredSound(docs: seq<Document>, f: Field, t: string, u: string, p: int)
    requires p in Gathered(docs, f, t, u)
    ensures exists k :: 0 <= k < |docs| && docs[k].url == u && 0 <= p < |DocTokens(docs[k], f)| && DocTokens(docs[k], f)[p] == t
  {
    var n := |docs| - 1;
    var d := docs[n];
    if p in Gathered(docs[..n], f, t, u) {
      GatheredSound(docs[..n], f, t, u, p);
      var k :| 0 <= k < n && docs[..n][k].url == u && 0 <= p < |DocTokens(docs[..n][k], f)| && DocTokens(docs[..n][k], f)[p] == t;
      assert docs[k] == docs[..n][k];
    } else {
      OccurrencesExact(DocTokens(d, f), t);
      assert docs[n].url == u;
    }
  }

  /** A url whose documents contribute no tokens gets no positions. */
  lemma {:induction false} GatheredNone(docs: seq<Document>, f: Field, t: string, u: string)
    requires forall k :: 0 <= k < |docs| && docs[k].url == u ==> DocTokens(docs[k], f) == []
    ensures Gathered(docs, f, t, u) == []
  {
    if docs != [] {
      var n := |docs| - 1;
      assert forall k :: 0 <= k < n ==> docs[..n][k] == docs[k];
      GatheredNone(docs[..n], f, t, u);
    }
  }

  /** With unique urls, a url's positions are exactly those of its document. */
  lemma {:induction false} GatheredUnique(docs: seq<Document>, f: Field, t: string, k: int)
    requires UniqueUrls(docs) && 0 <= k < |docs|
    ensures Gathered(docs, f, t, docs[k].url) == Occurrences(DocTokens(docs[k], f), t)
  {
    var n := |docs| - 1;
    var prefix := docs[..n];
    assert forall j :: 0 <= j < n ==> prefix[j] == docs[j];
    if k == n {
      GatheredNone(prefix, f, t, docs[k].url);
    } else {
      assert UniqueUrls(prefix);
      GatheredUnique(prefix, f, t, k);
    }
  }

  /**
   * Round trip of the position index: every stored position `p` of term
   * `t` for url `u` satisfies `tokens(doc(u))[p] == t`, for some document
   * with url `u`.
   */
  lemma PositionsAreOccurrences(docs: seq<Document>, f: Field)
    ensures forall t, u, p: int ::
              t in PositionIndexOf(docs, f) && u in PositionIndexOf(docs, f)[t] && p in PositionIndexOf(docs, f)[t][u] ==>
                exists k :: 0 <= k < |docs| && docs[k].url == u && 0 <= p < |DocTokens(docs[k], f)| && DocTokens(docs[k], f)[p] == t
  {
    var idx := PositionIndexOf(docs, f);
    PositionIndexPostings(docs, f);
    forall t, u, p: int | t in idx && u in idx[t] && p in idx[t][u]
      ensures exists k :: 0 <= k < |docs| && docs[k].url == u && 0 <= p < |DocTokens(docs[k], f)| && DocTokens(docs[k], f)[p] == t
    {
      assert Postings(idx, t, u) == idx[t][u];
      GatheredSound(docs, f, t, u, p);
    }
  }

  /**
   * With unique urls the position index is exact for every document: a
   * term has an entry for the url iff it is one of the document's tokens;
   * the stored positions are exactly the positions of that token, strictly
   * increasing, non-empty and one per occurrence (so the list lengths for a
   * url add up to its number of tokens).
   */
  lemma PositionIndexExact(docs: seq<Document>, f: Field, k: int)
    requires UniqueUrls(docs) && 0 <= k < |docs|
    ensures var idx := PositionIndexOf(docs, f);
            var u := docs[k].url;
            var toks := DocTokens(docs[k], f);
            && (forall t :: t in idx && u in idx[t] <==> t in toks)
            && (forall t, p: int :: t in idx && u in idx[t] ==> (p in idx[t][u] <==> 0 <= p < |toks| && toks[p] == t))
            && (forall t :: t in idx && u in idx[t] ==> idx[t][u] != [] && Increasing(idx[t][u]))
            && (forall t :: t in idx && u in idx[t] ==> |idx[t][u]| == multiset(toks)[t])
  {
    var idx := PositionIndexOf(docs, f);
    var u := docs[k].url;
    var toks := DocTokens(docs[k], f);
    PositionIndexPostings(docs, f);
    forall t
      ensures t in idx && u in idx[t] <==> t in toks
      ensures t in idx && u in idx[t] ==> forall p: int :: p in idx[t][u] <==> 0 <= p < |toks| && toks[p] == t
      ensures t in idx && u in idx[t] ==> idx[t][u] != [] && Increasing(idx[t][u])
      ensures t in idx && u in idx[t] ==> |idx[t][u]| == multiset(toks)[t]
    {
      GatheredUnique(docs, f, t, k);
      PostingsExact(Postings(idx, t, u), t in idx && u in idx[t], toks, t);
      if t in idx && u in idx[t] {
        assert Postings(idx, t, u) == idx[t][u];
      }
    }
  }

  /**
   * The positions stored for one term and url, when they are the term's
   * occurrences: present iff the term is a token, and then exactly its
   * positions, increasing, non-empty and one per occurrence.
   */
  lemma PostingsExact(ps: seq<nat>, present: bool, toks: seq<string>, t: string)
    requires ps == Occurrences(toks, t)
    requires present <==> ps != []
    ensures present <==> t in toks
    ensures forall p: int :: p in ps <==> 0 <= p < |toks| && toks[p] == t
    ensures Increasing(ps)
    ensures |ps| == multiset(toks)[t]
  {
    OccurrencesExact(toks, t);
    if t in toks {
      var p :| 0 <= p < |toks| && toks[p] == t;
      assert p in ps;
    }
  }

  /** Documents whose field is empty (or missing) put their url in no entry. */
  lemma EmptyFieldNoPositions(docs: seq<Document>, f: Field, u: string)
    requires forall k :: 0 <= k < |docs| && docs[k].url == u ==> FieldText(docs[k], f) == ""
    ensures forall t :: !(t in PositionIndexOf(docs, f) && u in PositionIndexOf(docs, f)[t])
  {
    PositionIndexPostings(docs, f);
    forall k | 0 <= k < |docs| && docs[k].url == u ensures DocTokens(docs[k], f) == [] {
      EmptyTextNoTokens(docs[k], f);
    }
    forall t ensures !(t in PositionIndexOf(docs, f) && u in PositionIndexOf(docs, f)[t]) {
      GatheredNone(docs, f, t, u);
    }
  }

  // ---------------------------------------------------------------------
  // Url sets and their sorted form (shared by the simple and feature indexes)

  /** key -> set of urls, the `defaultdict(set)` being filled. */
  type UrlSets = map<string, set<string>>

  /** `index[key].add(u)`. */
  function AddUrl(m: UrlSets, key: string, u: string): UrlSets {
    m[key := (if key in m then m[key] else {}) + {u}]
  }

  /** `for key in keys[..n]: index[key].add(u)`. */
  function AddKeys(m: UrlSets, u: string, keys: seq<string>, n: nat): UrlSets
    requires n <= |keys|
    decreases n
  {
    if n == 0 then m else AddUrl(AddKeys(m, u, keys, n - 1), keys[n - 1], u)
  }

  /** The urls under `key`, empty when there is no entry. */
  function UrlsOf(m: UrlSets, key: string): set<string> {
    if key in m then m[key] else {}
  }

  /**
   * After `AddKeys`, the keys are the old keys and the first `n` keys, and
   * `u` has joined the urls of exactly those first `n` keys.
   */
  lemma {:induction false} AddKeysMembers(m: UrlSets, u: string, keys: seq<string>, n: nat)
    requires n <= |keys|
    ensures forall key :: key in AddKeys(m, u, keys, n) <==> key in m || key in keys[..n]
    ensures forall key :: UrlsOf(AddKeys(m, u, keys, n), key) == UrlsOf(m, key) + (if key in keys[..n] then {u} else {})
  {
    if n != 0 {
      AddKeysMembers(m, u, keys, n - 1);
      assert keys[..n] == keys[..n - 1] + [keys[n - 1]];
    }
  }

  /** `result[key] = sorted(list(urls))` for every key: the frozen form of `m`. */
  ghost predicate Frozen(r: map<string, seq<string>>, m: UrlSets) {
    && r.Keys == m.Keys
    && forall key :: key in r ==> StrictlySorted(r[key]) && Elems(r[key]) == m[key]
  }

  /** The frozen form of a map of sets is unique. */
  lemma FrozenUnique(a: map<string, seq<string>>, b: map<string, seq<string>>, m: UrlSets)
    requires Frozen(a, m) && Frozen(b, m)
    ensures a == b
  {
    forall key | key in a ensures a[key] == b[key] {
      SortedListUnique(a[key], b[key]);
    }
  }

  /** The final loop of the simple and feature index builders. */
  method SortedLists(m: UrlSets) returns (r: map<string, seq<string>>)
    ensures Frozen(r, m)
  {
    r := map[];
    var rest := m.Keys;
    while rest != {}
      invariant rest <= m.Keys
      invariant r.Keys == m.Keys - rest
      invariant forall key :: key in r ==> StrictlySorted(r[key]) && Elems(r[key]) == m[key]
      decreases rest
    {
      var key :| key in rest;
      var urls := SortedList(m[key]);
      r := r[key := urls];
      rest := rest - {key};
    }
  }

  // ---------------------------------------------------------------------
  // Simple index

  /** The set form of the simple index, document by document. */
  function SimpleSets(docs: seq<Document>, f: Field): UrlSets
    decreases |docs|
  {
    if docs == [] then map[]
    else
      var prev := SimpleSets(docs[..|docs| - 1], f);
      var d := docs[|docs| - 1];
      if FieldText(d, f) == "" then prev
      else
        var toks := IndexTokens(FieldText(d, f));
        AddKeys(prev, d.url, toks, |toks|)
  }

  /** `create_inverted_index_simple(documents, field)`. */
  method CreateSimpleIndex(docs: seq<Document>, f: Field) returns (r: map<string, seq<string>>)
    ensures Frozen(r, SimpleSets(docs, f))
  {
    var m: UrlSets := map[];
    for i := 0 to |docs|
      invariant m == SimpleSets(docs[..i], f)
    {
      assert docs[..i + 1][..i] == docs[..i];
      var d := docs[i];
      var text := FieldText(d, f);
      if text != "" {
        var toks := IndexTokens(text);
        ghost var before := m;
        for p := 0 to |toks|
          invariant m == AddKeys(before, d.url, toks, p)
        {
          m := AddUrl(m, toks[p], d.url);
        }
      }
    }
    assert docs[..|docs|] == docs;
    r := SortedLists(m);
  }

  /** Some document with url `u` has `t` among the tokens of field `f`. */
  ghost predicate Mentions(docs: seq<Document>, f: Field, t: string, u: string) {
    exists k :: 0 <= k < |docs| && docs[k].url == u && t in DocTokens(docs[k], f)
  }

  lemma MentionsStep(docs: seq<Document>, f: Field, t: string, u: string)
    requires docs != []
    ensures Mentions(docs, f, t, u) <==>
              Mentions(docs[..|docs| - 1], f, t, u) || (docs[|docs| - 1].url == u && t in DocTokens(docs[|docs| - 1], f))
  {
    var n := |docs| - 1;
    var init := docs[..n];
    assert docs == init + [docs[n]];
    if Mentions(docs, f, t, u) {
      var k :| 0 <= k < |docs| && docs[k].url == u && t in DocTokens(docs[k], f);
      if k < n {
        assert init[k] == docs[k];
        assert Mentions(init, f, t, u);
      }
    }
    if Mentions(init, f, t, u) {
      var k :| 0 <= k < n && init[k].url == u && t in DocTokens(init[k], f);
      assert docs[k] == init[k];
    }
  }

  /**
   * The simple index holds url `u` under term `t` iff `t` is a token of the
   * field of some document with url `u`; a term is a key iff it has a url.
   */
  lemma {:induction false} SimpleSetsMembers(docs: seq<Document>, f: Field)
    ensures forall t :: t in SimpleSets(docs, f) <==> UrlsOf(SimpleSets(docs, f), t) != {}
    ensures forall t, u :: u in UrlsOf(SimpleSets(docs, f), t) <==> Mentions(docs, f, t, u)
  {
    if docs != [] {
      var n := |docs| - 1;
      var d := docs[n];
      var prev := SimpleSets(docs[..n], f);
      SimpleSetsMembers(docs[..n], f);
      EmptyTextNoTokens(d, f);
      var toks := DocTokens(d, f);
      AddKeysMembers(prev, d.url, toks, |toks|);
      assert toks[..|toks|] == toks;
      var s := SimpleSets(docs, f);
      assert s == if FieldText(d, f) == "" then prev else AddKeys(prev, d.url, toks, |toks|);
      forall t, u ensures u in UrlsOf(s, t) <==> Mentions(docs, f, t, u) {
        MentionsStep(docs, f, t, u);
      }
    }
  }

  /** Documents whose field is empty (or missing) put their url in no entry of the simple index. */
  lemma EmptyFieldNotListed(docs: seq<Document>, f: Field, u: string)
    requires forall k :: 0 <= k < |docs| && docs[k].url == u ==> FieldText(docs[k], f) == ""
    ensures forall t :: u !in UrlsOf(SimpleSets(docs, f), t)
  {
    SimpleSetsMembers(docs, f);
    forall t ensures !Mentions(docs, f, t, u) {
      forall k | 0 <= k < |docs| && docs[k].url == u ensures t !in DocTokens(docs[k], f) {
        EmptyTextNoTokens(docs[k], f);
      }
    }
  }

  /** The position index has url `u` under `t` iff some document with url `u` has the token `t`. */
  lemma PositionKeysMentions(docs: seq<Document>, f: Field)
    ensures forall t, u :: (t in PositionIndexOf(docs, f) && u in PositionIndexOf(docs, f)[t]) <==> Mentions(docs, f, t, u)
  {
    PositionIndexPostings(docs, f);
    var idx := PositionIndexOf(docs, f);
    forall t, u ensures (t in idx && u in idx[t]) <==> Mentions(docs, f, t, u) {
      if t in idx && u in idx[t] {
        assert Postings(idx, t, u) == idx[t][u] != [];
        GatheredSound(docs, f, t, u, idx[t][u][0]);
        var k :| 0 <= k < |docs| && docs[k].url == u && 0 <= idx[t][u][0] < |DocTokens(docs[k], f)| && DocTokens(docs[k], f)[idx[t][u][0]] == t;
        assert t in DocTokens(docs[k], f);
      }
      if Mentions(docs, f, t, u) {
        var k :| 0 <= k < |docs| && docs[k].url == u && t in DocTokens(docs[k], f);
        GatheredContains(docs, f, t, k);
        assert Postings(idx, t, u) != [];
      }
    }
  }

  /** The simple index has the position index's terms, each with the position index's urls. */
  lemma SimpleMatchesPositions(docs: seq<Document>, f: Field)
    ensures forall t, u :: u in UrlsOf(SimpleSets(docs, f), t) <==>
                           (t in PositionIndexOf(docs, f) && u in PositionIndexOf(docs, f)[t])
  {
    SimpleSetsMembers(docs, f);
    PositionKeysMentions(docs, f);
  }

  /** A document holding `t` gives its url a position under `t`. */
  lemma {:induction false} GatheredContains(docs: seq<Document>, f: Field, t: string, k: int)
    requires 0 <= k < |docs| && t in DocTokens(docs[k], f)
    ensures Gathered(docs, f, t, docs[k].url) != []
  {
    var n := |docs| - 1;
    if k == n {
      var toks := DocTokens(docs[k], f);
      OccurrencesExact(toks, t);
      var p :| 0 <= p < |toks| && toks[p] == t;
      assert p in Occurrences(toks, t);
      assert Gathered(docs, f, t, docs[k].url) == Gathered(docs[..n], f, t, docs[k].url) + Occurrences(toks, t);
    } else {
      assert docs[..n][k] == docs[k];
      GatheredContains(docs[..n], f, t, k);
    }
  }
}
