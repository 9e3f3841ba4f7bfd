/**
 * The query side of the search engine: its own tokenizer (with the NLTK
 * English stopword list), synonym expansion, the "any" and "all" filters
 * over the title and description position indexes, term frequencies and
 * the positional exact-phrase check.
 */
module Query {
  import opened Options
  import opened Text
  import opened Tokenizer
  import opened Ordering
  import opened Indexer

  /** The NLTK English stopwords that the indexer's set lacks (160 words). */
  const ExtraStopwords: set<string> := {
    "about", "above", "after", "again", "against", "ain", "all", "am", "any", "aren", "aren't",
    "because", "been", "before", "being", "below", "between", "both", "couldn", "couldn't", "d",
    "did", "didn", "didn't", "do", "does", "doesn", "doesn't", "doing", "don", "don't", "down",
    "during", "each", "few", "further", "had", "hadn", "hadn't", "hasn", "hasn't", "haven",
    "haven't", "having", "he'd", "he'll", "her", "here", "hers", "herself", "he's", "him",
    "himself", "his", "how", "i", "i'd", "i'll", "i'm", "into", "isn", "isn't", "it'd", "it'll",
    "it's", "itself", "i've", "just", "ll", "m", "ma", "me", "mightn", "mightn't", "more", "most",
    "mustn", "mustn't", "my", "myself", "needn", "needn't", "no", "nor", "now", "o", "off", "once",
    "only", "other", "ours", "ourselves", "out", "over", "own", "re", "s", "same", "shan", "shan't",
    "she", "she'd", "she'll", "she's", "should", "shouldn", "shouldn't", "should've", "so", "some",
    "such", "t", "than", "that'll", "their", "theirs", "them", "themselves", "then", "there",
    "they'd", "they'll", "they're", "they've", "through", "too", "under", "until", "up", "ve",
    "very", "wasn", "wasn't", "we'd", "we'll", "we're", "were", "weren", "weren't", "we've", "what",
    "when", "where", "which", "while", "who", "whom", "why", "won", "won't", "wouldn", "wouldn't",
    "y", "you'd", "you'll", "you're", "yours", "yourself", "yourselves", "you've"
  }

  /**
   * The search engine's stopword set, the 198 NLTK English stopwords,
   * written as the indexer's 38 plus the 160 others.
   */
  const QueryStopwords: set<string> := Stopwords + ExtraStopwords

  /** `tokenize` of the search engine. */
  function QueryTokens(text: string): seq<string> {
    Tokenize(text, QueryStopwords)
  }

  /**
   * The two tokenizers differ only in their stopword sets: the query tokens
   * of a text are its index tokens without the extra stopwords, so a
   * subsequence of them.
   */
  lemma QueryTokensRefineIndexTokens(text: string)
    ensures QueryTokens(text) == DropStopwords(IndexTokens(text), QueryStopwords)
    ensures Subsequence(QueryTokens(text), IndexTokens(text))
  {
    TokenizeMonotone(text, Stopwords, QueryStopwords);
  }

  // ---------------------------------------------------------------------
  // Synonym expansion

  /**
   * The synonym dictionary as its items in insertion order: a key and its
   * list of synonyms. A dictionary has each key once; the functions below
   * are defined for any table and agree with the dictionary on such tables.
   */
  type SynonymTable = seq<(string, seq<string>)>

  /** `synonyms[token]` if `token in synonyms`: the list of the first item with that key. */
  function Lookup(syn: SynonymTable, token: string): Option<seq<string>> {
    if syn == [] then None
    else if syn[0].0 == token then Some(syn[0].1)
    else Lookup(syn[1..], token)
  }

  /** `Lookup` finds the first item with that key, and `None` means there is none. */
  lemma {:induction false} LookupFirst(syn: SynonymTable, token: string)
    ensures Lookup(syn, token).None? <==> forall i :: 0 <= i < |syn| ==> syn[i].0 != token
    ensures Lookup(syn, token).Some? ==>
              exists i :: 0 <= i < |syn| && syn[i] == (token, Lookup(syn, token).value) &&
                          forall j :: 0 <= j < i ==> syn[j].0 != token
  {
    if syn != [] {
      LookupFirst(syn[1..], token);
      if syn[0].0 != token {
        assert forall i :: 1 <= i < |syn| ==> syn[i] == syn[1..][i - 1];
        if Lookup(syn, token).Some? {
          var i :| 0 <= i < |syn[1..]| && syn[1..][i] == (token, Lookup(syn, token).value) &&
                   forall j :: 0 <= j < i ==> syn[1..][j].0 != token;
          assert syn[i + 1] == syn[1..][i];
          assert forall j :: 1 <= j < i + 1 ==> syn[j] == syn[1..][j - 1];
        }
      } else {
        assert syn[0] == (token, Lookup(syn, token).value);
      }
    }
  }

  /** The synonyms a token brings in as a key: `synonyms[token]`, or none. */
  function Forward(syn: SynonymTable, token: string): seq<string> {
    match Lookup(syn, token)
    case Some(list) => list
    case None => []
  }

  /**
   * The reverse lookup for one token over the first `n` items: every key
   * whose list holds the token is appended, unless already present.
   */
  function ReverseKeys(e: seq<string>, token: string, syn: SynonymTable, n: nat): seq<string>
    requires n <= |syn|
    decreases n
  {
    if n == 0 then e
    else
      var prev := ReverseKeys(e, token, syn, n - 1);
      if token in syn[n - 1].1 && syn[n - 1].0 !in prev then prev + [syn[n - 1].0] else prev
  }

  /** One iteration of the token loop of `expand_query_with_synonyms`. */
  function ExpandStep(e: seq<string>, token: string, syn: SynonymTable): seq<string> {
    ReverseKeys(e + Forward(syn, token), token, syn, |syn|)
  }

  /** The expansion after the first `n` tokens, starting from `e`. */
  function ExpandFrom(e: seq<string>, tokens: seq<string>, syn: SynonymTable, n: nat): seq<string>
    requires n <= |tokens|
    decreases n
  {
    if n == 0 then e else ExpandStep(ExpandFrom(e, tokens, syn, n - 1), tokens[n - 1], syn)
  }

  /** `expand_query_with_synonyms(tokens, synonyms)`. */
  function Expanded(tokens: seq<string>, syn: SynonymTable): seq<string> {
    ExpandFrom(tokens, tokens, syn, |tokens|)
  }

  /** `expand_query_with_synonyms`, with its two nested loops. */
  method ExpandQuery(tokens: seq<string>, syn: SynonymTable) returns (expanded: seq<string>)
    ensures expanded == Expanded(tokens, syn)
  {
    expanded := tokens;
    for j := 0 to |tokens|
      invariant expanded == ExpandFrom(tokens, tokens, syn, j)
    {
      var token := tokens[j];
      var found := Lookup(syn, token);
      if found.Some? {
        expanded := expanded + found.value;
      } else {
        assert expanded + Forward(syn, token) == expanded;
      }
      ghost var before := expanded;
      assert before == ExpandFrom(tokens, tokens, syn, j) + Forward(syn, token);
      for i := 0 to |syn|
        invariant expanded == ReverseKeys(before, token, syn, i)
      {
        var (key, list) := syn[i];
        if token in list && key !in expanded {
          expanded := expanded + [key];
        }
      }
    }
  }

  /** Some item among the first `n` has key `w` and lists `token`. */
  ghost predicate ReverseHit(syn: SynonymTable, n: int, token: string, w: string) {
    exists i :: 0 <= i < n && i < |syn| && syn[i].0 == w && token in syn[i].1
  }

  /**
   * The reverse lookup only appends, and appends exactly the keys whose
   * list holds the token (those not already there).
   */
  lemma {:induction false} ReverseKeysMembers(e: seq<string>, token: string, syn: SynonymTable, n: nat)
    requires n <= |syn|
    ensures e <= ReverseKeys(e, token, syn, n)
    ensures forall w :: w in ReverseKeys(e, token, syn, n) <==> w in e || ReverseHit(syn, n, token, w)
  {
    if n > 0 {
      ReverseKeysMembers(e, token, syn, n - 1);
      var prev := ReverseKeys(e, token, syn, n - 1);
      var key := syn[n - 1].0;
      forall w ensures ReverseHit(syn, n, token, w) <==> ReverseHit(syn, n - 1, token, w) || (w == key && token in syn[n - 1].1) {
        if ReverseHit(syn, n, token, w) {
          var i :| 0 <= i < n && i < |syn| && syn[i].0 == w && token in syn[i].1;
          if i < n - 1 {
            assert ReverseHit(syn, n - 1, token, w);
          }
        }
        if w == key && token in syn[n - 1].1 {
          assert syn[n - 1].0 == w;
        }
      }
    }
  }

  /** The keys the reverse lookup appends are new and appended once each. */
  lemma {:induction false} ReverseKeysFresh(e: seq<string>, token: string, syn: SynonymTable, n: nat)
    requires n <= |syn|
    ensures |e| <= |ReverseKeys(e, token, syn, n)|
    ensures Distinct(ReverseKeys(e, token, syn, n)[|e|..])
    ensures forall i :: |e| <= i < |ReverseKeys(e, token, syn, n)| ==> ReverseKeys(e, token, syn, n)[i] !in e
  {
    ReverseKeysMembers(e, token, syn, n);
    if n > 0 {
      ReverseKeysFresh(e, token, syn, n - 1);
      var prev := ReverseKeys(e, token, syn, n - 1);
      ReverseKeysMembers(e, token, syn, n - 1);
      var key := syn[n - 1].0;
      if token in syn[n - 1].1 && key !in prev {
        var r := prev + [key];
        assert r[|e|..] == prev[|e|..] + [key];
        assert key !in prev[|e|..];
        assert key !in e;
      }
    }
  }

  /** `w` is brought in by `t`: one of its synonyms, or a key that lists it. */
  ghost predicate Related(syn: SynonymTable, t: string, w: string) {
    w in Forward(syn, t) || ReverseHit(syn, |syn|, t, w)
  }

  lemma {:induction false} ExpandFromMembers(e: seq<string>, tokens: seq<string>, syn: SynonymTable, n: nat)
    requires n <= |tokens|
    ensures e <= ExpandFrom(e, tokens, syn, n)
    ensures forall w :: w in ExpandFrom(e, tokens, syn, n) <==>
                        w in e || exists j :: 0 <= j < n && Related(syn, tokens[j], w)
  {
    if n > 0 {
      ExpandFromMembers(e, tokens, syn, n - 1);
      var prev := ExpandFrom(e, tokens, syn, n - 1);
      var t := tokens[n - 1];
      ReverseKeysMembers(prev + Forward(syn, t), t, syn, |syn|);
      assert forall w :: w in prev + Forward(syn, t) <==> w in prev || w in Forward(syn, t);
      forall w ensures (exists j :: 0 <= j < n && Related(syn, tokens[j], w)) <==>
                       (exists j :: 0 <= j < n - 1 && Related(syn, tokens[j], w)) || Related(syn, t, w) {
        if exists j :: 0 <= j < n && Related(syn, tokens[j], w) {
          var j :| 0 <= j < n && Related(syn, tokens[j], w);
          if j < n - 1 {
            assert exists j :: 0 <= j < n - 1 && Related(syn, tokens[j], w);
          }
        }
      }
    }
  }

  /**
   * The expansion keeps the query's tokens as its prefix, and holds
   * exactly the tokens, the synonyms of tokens that are keys, and the keys
   * whose synonym list holds a token.
   */
  lemma ExpandedMembers(tokens: seq<string>, syn: SynonymTable)
    ensures tokens <= Expanded(tokens, syn)
    ensures forall w :: w in Expanded(tokens, syn) <==> w in tokens || exists t :: t in tokens && Related(syn, t, w)
  {
    ExpandFromMembers(tokens, tokens, syn, |tokens|);
    forall w, t | t in tokens && Related(syn, t, w) ensures exists j :: 0 <= j < |tokens| && Related(syn, tokens[j], w) {
      var j :| 0 <= j < |tokens| && tokens[j] == t;
    }
  }

  lemma {:induction false} ExpandFromNoTable(e: seq<string>, tokens: seq<string>, n: nat)
    requires n <= |tokens|
    ensures ExpandFrom(e, tokens, [], n) == e
  {
    if n > 0 {
      ExpandFromNoTable(e, tokens, n - 1);
      assert e + [] == e;
    }
  }

  /** An empty synonym dictionary leaves the query unchanged. */
  lemma ExpandedNoTable(tokens: seq<string>)
    ensures Expanded(tokens, []) == tokens
  {
    ExpandFromNoTable(tokens, tokens, |tokens|);
  }

  // ---------------------------------------------------------------------
  // Filters

  /** The urls of term `t` in a position index (its keys). */
  function UrlsFor(idx: PositionIndex, t: string): set<string> {
    if t in idx then idx[t].Keys else {}
  }

  /** The urls whose title or description holds `t`. */
  function Matching(ti: PositionIndex, di: PositionIndex, t: string): set<string> {
    UrlsFor(ti, t) + UrlsFor(di, t)
  }

  /** `filter_documents_any_token`: the union over the tokens. */
  function AnyMatch(tokens: seq<string>, ti: PositionIndex, di: PositionIndex): set<string>
    decreases |tokens|
  {
    if tokens == [] then {}
    else AnyMatch(tokens[..|tokens| - 1], ti, di) + Matching(ti, di, tokens[|tokens| - 1])
  }

  /** `filter_documents_all_tokens`: the intersection over the tokens; no token, no url. */
  function AllMatch(tokens: seq<string>, ti: PositionIndex, di: PositionIndex): set<string>
    decreases |tokens|
  {
    if tokens == [] then {}
    else if |tokens| == 1 then Matching(ti, di, tokens[0])
    else AllMatch(tokens[..|tokens| - 1], ti, di) * Matching(ti, di, tokens[|tokens| - 1])
  }

  method FilterAny(tokens: seq<string>, ti: PositionIndex, di: PositionIndex) returns (urls: set<string>)
    ensures urls == AnyMatch(tokens, ti, di)
  {
    urls := {};
    for j := 0 to |tokens|
      invariant urls == AnyMatch(tokens[..j], ti, di)
    {
      assert tokens[..j + 1][..j] == tokens[..j];
      var token := tokens[j];
      if token in ti {
        urls := urls + ti[token].Keys;
      }
      if token in di {
        urls := urls + di[token].Keys;
      }
    }
    assert tokens[..|tokens|] == tokens;
  }

  method FilterAll(tokens: seq<string>, ti: PositionIndex, di: PositionIndex) returns (urls: set<string>)
    ensures urls == AllMatch(tokens, ti, di)
  {
    if tokens == [] {
      return {};
    }
    var first := tokens[0];
    urls := {};
    if first in ti {
      urls := urls + ti[first].Keys;
    }
    if first in di {
      urls := urls + di[first].Keys;
    }
    assert tokens[..1] == [first];
    for j := 1 to |tokens|
      invariant urls == AllMatch(tokens[..j], ti, di)
    {
      assert tokens[..j + 1][..j] == tokens[..j];
      var token := tokens[j];
      var tokenUrls := {};
      if token in ti {
        tokenUrls := tokenUrls + ti[token].Keys;
      }
      if token in di {
        tokenUrls := tokenUrls + di[token].Keys;
      }
      urls := urls * tokenUrls;
    }
    assert tokens[..|tokens|] == tokens;
  }

  /** A url passes the "any" filter iff some token matches it. */
  lemma {:induction false} AnyMatchMembers(tokens: seq<string>, ti: PositionIndex, di: PositionIndex)
    ensures forall u :: u in AnyMatch(tokens, ti, di) <==> exists t :: t in tokens && u in Matching(ti, di, t)
  {
    if tokens != [] {
      var n := |tokens| - 1;
      AnyMatchMembers(tokens[..n], ti, di);
      assert tokens == tokens[..n] + [tokens[n]];
      assert forall t :: t in tokens <==> t in tokens[..n] || t == tokens[n];
    }
  }

  /** A url passes the "all" filter iff every token matches it; an empty query passes nothing. */
  lemma {:induction false} AllMatchMembers(tokens: seq<string>, ti: PositionIndex, di: PositionIndex)
    ensures tokens == [] ==> AllMatch(tokens, ti, di) == {}
    ensures tokens != [] ==> forall u :: u in AllMatch(tokens, ti, di) <==> forall t :: t in tokens ==> u in Matching(ti, di, t)
  {
    if |tokens| == 1 {
      assert forall t :: t in tokens <==> t == tokens[0];
    } else if |tokens| > 1 {
      var n := |tokens| - 1;
      AllMatchMembers(tokens[..n], ti, di);
      assert tokens == tokens[..n] + [tokens[n]];
      assert forall t :: t in tokens <==> t in tokens[..n] || t == tokens[n];
    }
  }

  /** Every url of the "all" filter passes the "any" filter. */
  lemma AllWithinAny(tokens: seq<string>, ti: PositionIndex, di: PositionIndex)
    ensures AllMatch(tokens, ti, di) <= AnyMatch(tokens, ti, di)
  {
    AllMatchMembers(tokens, ti, di);
    AnyMatchMembers(tokens, ti, di);
    if tokens != [] {
      assert tokens[0] in tokens;
    }
  }

  /** Synonym expansion only widens the "any" filter. */
  lemma ExpansionWidens(tokens: seq<string>, syn: SynonymTable, ti: PositionIndex, di: PositionIndex)
    ensures AnyMatch(tokens, ti, di) <= AnyMatch(Expanded(tokens, syn), ti, di)
  {
    ExpandedMembers(tokens, syn);
    AnyMatchMembers(tokens, ti, di);
    AnyMatchMembers(Expanded(tokens, syn), ti, di);
  }

  /**
   * On the indexes the indexer builds, a url matches a token iff some
   * document with that url has the token in its title or its description.
   */
  lemma MatchingMentions(docs: seq<Document>, t: string, u: string)
    ensures u in Matching(PositionIndexOf(docs, Title), PositionIndexOf(docs, Description), t) <==>
            Mentions(docs, Title, t, u) || Mentions(docs, Description, t, u)
  {
    PositionKeysMentions(docs, Title);
    PositionKeysMentions(docs, Description);
  }

  // ---------------------------------------------------------------------
  // Term frequency and exact match

  /** `calculate_term_frequency`: the position counts in title and description. */
  function TermFrequency(t: string, u: string, ti: PositionIndex, di: PositionIndex): (nat, nat) {
    (|Postings(ti, t, u)|, |Postings(di, t, u)|)
  }

  /**
   * On the indexes built from a corpus with unique urls, the term
   * frequencies are the numbers of occurrences of the term among the
   * document's title and description tokens.
   */
  lemma TermFrequencyCounts(docs: seq<Document>, k: int, t: string)
    requires UniqueUrls(docs) && 0 <= k < |docs|
    ensures TermFrequency(t, docs[k].url, PositionIndexOf(docs, Title), PositionIndexOf(docs, Description))
            == (multiset(DocTokens(docs[k], Title))[t], multiset(DocTokens(docs[k], Description))[t])
  {
    PositionIndexPostings(docs, Title);
    PositionIndexPostings(docs, Description);
    GatheredUnique(docs, Title, t, k);
    GatheredUnique(docs, Description, t, k);
    OccurrencesExact(DocTokens(docs[k], Title), t);
    OccurrencesExact(DocTokens(docs[k], Description), t);
  }

  /** Every later query token is stored for `u` at its offset from `s`. */
  predicate PhraseAt(idx: PositionIndex, q: seq<string>, u: string, s: int) {
    forall i :: 1 <= i < |q| ==> s + i in Postings(idx, q[i], u)
  }

  /** The exact-match test of one field, as `check_exact_match` computes it. */
  predicate FieldMatch(idx: PositionIndex, q: seq<string>, u: string) {
    if q == [] then false
    else if |q| == 1 then q[0] in idx && u in idx[q[0]]
    else exists s: nat :: s in Postings(idx, q[0], u) && PhraseAt(idx, q, u, s)
  }

  /** The scan of one field: try each start position of the first token. */
  method MatchInField(idx: PositionIndex, q: seq<string>, u: string) returns (found: bool)
    ensures found == FieldMatch(idx, q, u)
  {
    if q == [] {
      return false;
    }
    if |q| == 1 {
      return q[0] in idx && u in idx[q[0]];
    }
    var first := q[0];
    if !(first in idx && u in idx[first]) {
      assert Postings(idx, first, u) == [];
      return false;
    }
    var positions := idx[first][u];
    for j := 0 to |positions|
      invariant forall m :: 0 <= m < j ==> !PhraseAt(idx, q, u, positions[m])
    {
      var start := positions[j];
      var matched := true;
      var i := 1;
      while i < |q|
        invariant 1 <= i <= |q|
        invariant matched
        invariant forall m :: 1 <= m < i ==> start + m in Postings(idx, q[m], u)
      {
        var token := q[i];
        if !(token in idx && u in idx[token]) {
          assert Postings(idx, token, u) == [];
          assert !PhraseAt(idx, q, u, start);
          matched := false;
          break;
        }
        if start + i !in idx[token][u] {
          assert !PhraseAt(idx, q, u, start);
          matched := false;
          break;
        }
        i := i + 1;
      }
      if matched {
        assert PhraseAt(idx, q, u, start);
        return true;
      }
    }
    assert forall s: nat :: s in positions ==> !PhraseAt(idx, q, u, s);
    return false;
  }

  /** `check_exact_match`: the exact-match test of the title and of the description. */
  method CheckExactMatch(q: seq<string>, u: string, ti: PositionIndex, di: PositionIndex)
    returns (titleMatch: bool, descriptionMatch: bool)
    ensures titleMatch == FieldMatch(ti, q, u)
    ensures descriptionMatch == FieldMatch(di, q, u)
  {
    if q == [] {
      return false, false;
    }
    titleMatch := MatchInField(ti, q, u);
    descriptionMatch := MatchInField(di, q, u);
  }

  /** `q` is the run of tokens starting at `s`. */
  predicate PhraseOccursAt(toks: seq<string>, q: seq<string>, s: int) {
    0 <= s && s + |q| <= |toks| && forall i :: 0 <= i < |q| ==> toks[s + i] == q[i]
  }

  /** The postings of `u` are exactly the positions of each term in `toks`. */
  ghost predicate ExactFor(idx: PositionIndex, u: string, toks: seq<string>) {
    forall t, p: int :: p in Postings(idx, t, u) <==> 0 <= p < |toks| && toks[p] == t
  }

  lemma ExactAt(idx: PositionIndex, u: string, toks: seq<string>, t: string, p: int)
    requires ExactFor(idx, u, toks)
    ensures p in Postings(idx, t, u) <==> 0 <= p < |toks| && toks[p] == t
  {
  }

  lemma PhraseAtSlice(idx: PositionIndex, u: string, toks: seq<string>, q: seq<string>, s: nat)
    requires ExactFor(idx, u, toks)
    requires q != [] && s < |toks| && toks[s] == q[0]
    ensures PhraseAt(idx, q, u, s) <==> PhraseOccursAt(toks, q, s)
  {
    if PhraseAt(idx, q, u, s) {
      if |q| > 1 {
        assert s + (|q| - 1) in Postings(idx, q[|q| - 1], u);
      }
      forall i | 1 <= i < |q| ensures s + i < |toks| && toks[s + i] == q[i] {
        assert s + i in Postings(idx, q[i], u);
        ExactAt(idx, u, toks, q[i], s + i);
      }
    }
  }

  /** With exact postings, the exact-match test is a search for a run of tokens. */
  lemma FieldMatchExact(idx: PositionIndex, u: string, toks: seq<string>, q: seq<string>)
    requires WellFormed(idx) && ExactFor(idx, u, toks)
    ensures FieldMatch(idx, q, u) <==> q != [] && exists s :: PhraseOccursAt(toks, q, s)
  {
    if q != [] {
      if exists s :: PhraseOccursAt(toks, q, s) {
        var s :| PhraseOccursAt(toks, q, s);
        assert toks[s + 0] == q[0];
        assert s in Postings(idx, q[0], u);
        PhraseAtSlice(idx, u, toks, q, s);
      }
      if FieldMatch(idx, q, u) {
        if |q| == 1 {
          assert Postings(idx, q[0], u) == idx[q[0]][u] != [];
          var s := idx[q[0]][u][0];
          ExactAt(idx, u, toks, q[0], s);
          assert PhraseOccursAt(toks, q, s);
        } else {
          var s: nat :| s in Postings(idx, q[0], u) && PhraseAt(idx, q, u, s);
          ExactAt(idx, u, toks, q[0], s);
          PhraseAtSlice(idx, u, toks, q, s);
        }
      }
    }
  }

  /** The index built from a corpus with unique urls has exact postings for each document. */
  lemma BuiltIndexExact(docs: seq<Document>, f: Field, k: int)
    requires UniqueUrls(docs) && 0 <= k < |docs|
    ensures WellFormed(PositionIndexOf(docs, f))
    ensures ExactFor(PositionIndexOf(docs, f), docs[k].url, DocTokens(docs[k], f))
  {
    var idx := PositionIndexOf(docs, f);
    var u := docs[k].url;
    var toks := DocTokens(docs[k], f);
    PositionIndexPostings(docs, f);
    forall t ensures forall p: int :: p in Postings(idx, t, u) <==> 0 <= p < |toks| && toks[p] == t {
      GatheredUnique(docs, f, t, k);
      OccurrencesExact(toks, t);
    }
  }

  /**
   * On the index built from a corpus with unique urls, the exact-match
   * test of a field holds iff the query is non-empty and occurs as a run of
   * consecutive tokens of that field of the document.
   */
  lemma FieldMatchIsPhrase(docs: seq<Document>, f: Field, k: int, q: seq<string>)
    requires UniqueUrls(docs) && 0 <= k < |docs|
    ensures FieldMatch(PositionIndexOf(docs, f), q, docs[k].url) <==>
            q != [] && exists s :: PhraseOccursAt(DocTokens(docs[k], f), q, s)
  {
    BuiltIndexExact(docs, f, k);
    FieldMatchExact(PositionIndexOf(docs, f), docs[k].url, DocTokens(docs[k], f), q);
  }
}
