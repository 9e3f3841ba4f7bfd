/**
 * The two ranking functions of the search engine: BM25 over the title and
 * description position indexes, and the linear combination of signals.
 * Python's `math.log` is the parameter `ln`; every other step is exact
 * arithmetic on real numbers.
 */
module Scoring {
  import opened Text
  import opened Tokenizer
  import opened Ordering
  import opened Indexer
  import opened Reviews
  import opened Query

  /** Term-frequency saturation `k1`. */
  const K1: real := 1.2
  /** Length normalisation `b`. */
  const B: real := 0.75
  /** The fixed approximation of the average document length. */
  const AvgDocLength: real := 50.0

  /** The occurrences of `t` for `u` in title and description together. */
  function Tf(t: string, u: string, ti: PositionIndex, di: PositionIndex): nat {
    TermFrequency(t, u, ti, di).0 + TermFrequency(t, u, ti, di).1
  }

  ghost function Pick(s: set<string>): string
    requires s != {}
  {
    var x :| x in s; x
  }

  /** The sum of `Tf` over a set of terms, in no particular order. */
  ghost function TfSum(s: set<string>, u: string, ti: PositionIndex, di: PositionIndex): nat
    decreases s
  {
    if s == {} then 0
    else
      var t := Pick(s);
      Tf(t, u, ti, di) + TfSum(s - {t}, u, ti, di)
  }

  /** Any element can be taken out of the sum first. */
  lemma {:induction false} TfSumRemove(s: set<string>, x: string, u: string, ti: PositionIndex, di: PositionIndex)
    requires x in s
    ensures TfSum(s, u, ti, di) == Tf(x, u, ti, di) + TfSum(s - {x}, u, ti, di)
    decreases s
  {
    var y := Pick(s);
    if y != x {
      TfSumRemove(s - {y}, x, u, ti, di);
      TfSumRemove(s - {x}, y, u, ti, di);
      assert s - {y} - {x} == s - {x} - {y};
    }
  }

  /** The document length of BM25: the occurrences of each distinct query token. */
  ghost function DocLength(q: seq<string>, u: string, ti: PositionIndex, di: PositionIndex): nat {
    TfSum(Elems(q), u, ti, di)
  }

  /** The two ways of counting the documents that hold a term. */
  datatype DfCount = FieldSum | DistinctUrls

  /**
   * `len(title_index[token]) + len(description_index[token])`, the count
   * the source uses (`FieldSum`), or the number of distinct urls holding
   * the term in either field (`DistinctUrls`).
   */
  function DocFrequency(mode: DfCount, t: string, ti: PositionIndex, di: PositionIndex): nat {
    match mode
    case FieldSum => |UrlsFor(ti, t)| + |UrlsFor(di, t)|
    case DistinctUrls => |Matching(ti, di, t)|
  }

  /** The argument of the logarithm of the inverse document frequency. */
  function IdfArgument(n: int, df: nat): real {
    ((n - df) as real + 0.5) / (df as real + 0.5) + 1.0
  }

  /** The BM25 length normaliser; it is at least `K1 * (1 - B)`, so positive. */
  function LengthNorm(docLength: nat): (r: real)
    ensures r >= K1 * (1.0 - B)
  {
    K1 * (1.0 - B + B * (docLength as real / AvgDocLength))
  }

  /** `numerator / denominator` for term frequency `tf`. */
  function Saturation(tf: nat, docLength: nat): real {
    (tf as real * (K1 + 1.0)) / (tf as real + LengthNorm(docLength))
  }

  /** The contribution of one query token; a token no document holds adds nothing. */
  function TermScore(df: nat, tf: nat, n: int, docLength: nat, ln: real -> real): real {
    if df == 0 then 0.0 else ln(IdfArgument(n, df)) * Saturation(tf, docLength)
  }

  /** The token loop of `calculate_bm25_score` over the first tokens. */
  function ScoreSum(mode: DfCount, q: seq<string>, u: string, ti: PositionIndex, di: PositionIndex,
                    n: int, docLength: nat, ln: real -> real): real
    decreases |q|
  {
    if q == [] then 0.0
    else
      var t := q[|q| - 1];
      ScoreSum(mode, q[..|q| - 1], u, ti, di, n, docLength, ln)
      + TermScore(DocFrequency(mode, t, ti, di), Tf(t, u, ti, di), n, docLength, ln)
  }

  /** `calculate_bm25_score` as written: the document frequency is `FieldSum`. */
  ghost function Bm25AsWritten(q: seq<string>, u: string, ti: PositionIndex, di: PositionIndex,
                               n: int, ln: real -> real): real {
    ScoreSum(FieldSum, q, u, ti, di, n, DocLength(q, u, ti, di), ln)
  }

  /** BM25 with the document frequency counting each document once. */
  ghost function Bm25(q: seq<string>, u: string, ti: PositionIndex, di: PositionIndex,
                      n: int, ln: real -> real): real {
    ScoreSum(DistinctUrls, q, u, ti, di, n, DocLength(q, u, ti, di), ln)
  }

  /** The first loop of `calculate_bm25_score`: the occurrences of each distinct query token. */
  method DocLengthOf(q: seq<string>, u: string, ti: PositionIndex, di: PositionIndex) returns (docLength: nat)
    ensures docLength == DocLength(q, u, ti, di)
  {
    docLength := 0;
    var rest := Elems(q);
    ghost var done: set<string> := {};
    while rest != {}
      invariant rest + done == Elems(q) && rest !! done
      invariant docLength == TfSum(done, u, ti, di)
      decreases rest
    {
      var token :| token in rest;
      if token in ti && u in ti[token] {
        docLength := docLength + |ti[token][u]|;
      }
      if token in di && u in di[token] {
        docLength := docLength + |di[token][u]|;
      }
      TfSumRemove(done + {token}, token, u, ti, di);
      assert done + {token} - {token} == done;
      rest := rest - {token};
      done := done + {token};
    }
    assert done == Elems(q);
  }

  lemma ScoreSumStep(mode: DfCount, q: seq<string>, j: nat, u: string, ti: PositionIndex, di: PositionIndex,
                     n: int, docLength: nat, ln: real -> real)
    requires j < |q|
    ensures ScoreSum(mode, q[..j + 1], u, ti, di, n, docLength, ln)
            == ScoreSum(mode, q[..j], u, ti, di, n, docLength, ln)
               + TermScore(DocFrequency(mode, q[j], ti, di), Tf(q[j], u, ti, di), n, docLength, ln)
  {
    assert q[..j + 1][..j] == q[..j];
  }

  /**
   * `calculate_bm25_score`, with the document frequency counted as `mode`
   * says: `FieldSum` is the source as written, `DistinctUrls` the corrected
   * count.
   */
  method Bm25Score(mode: DfCount, q: seq<string>, u: string, ti: PositionIndex, di: PositionIndex,
                   totalDocs: nat, ln: real -> real) returns (score: real)
    ensures mode == FieldSum ==> score == Bm25AsWritten(q, u, ti, di, totalDocs, ln)
    ensures mode == DistinctUrls ==> score == Bm25(q, u, ti, di, totalDocs, ln)
  {
    score := 0.0;
    var docLength := DocLengthOf(q, u, ti, di);
    for j := 0 to |q|
      invariant score == ScoreSum(mode, q[..j], u, ti, di, totalDocs, docLength, ln)
    {
      ScoreSumStep(mode, q, j, u, ti, di, totalDocs, docLength, ln);
      var termScore := TermScoreOf(mode, q[j], u, ti, di, totalDocs, docLength, ln);
      score := score + termScore;
    }
    assert q[..|q|] == q;
  }

  /**
   * The body of the token loop of `calculate_bm25_score`: the document
   * frequency (`len(title_index[token]) + len(description_index[token])` for
   * `FieldSum`), then the term's contribution; a token no document holds is
   * skipped.
   */
  method TermScoreOf(mode: DfCount, token: string, u: string, ti: PositionIndex, di: PositionIndex,
                     totalDocs: nat, docLength: nat, ln: real -> real) returns (termScore: real)
    ensures termScore == TermScore(DocFrequency(mode, token, ti, di), Tf(token, u, ti, di), totalDocs, docLength, ln)
  {
    var df := DocFrequencyOf(mode, token, ti, di);
    if df == 0 {
      return 0.0;
    }
    var frequencies := TermFrequency(token, u, ti, di);
    var tf := frequencies.0 + frequencies.1;
    assert tf == Tf(token, u, ti, di);
    // idf * (numerator / denominator)
    termScore := TermScore(df, tf, totalDocs, docLength, ln);
  }

  /** The document frequency of `token`, counted as `mode` says. */
  method DocFrequencyOf(mode: DfCount, token: string, ti: PositionIndex, di: PositionIndex) returns (df: nat)
    ensures df == DocFrequency(mode, token, ti, di)
  {
    if mode == FieldSum {
      df := 0;
      if token in ti {
        df := df + |ti[token]|;
      }
      if token in di {
        df := df + |di[token]|;
      }
    } else {
      var titleUrls := if token in ti then ti[token].Keys else {};
      var descriptionUrls := if token in di then di[token].Keys else {};
      df := |titleUrls + descriptionUrls|;
    }
  }

  /**
   * The logarithm's argument is `(n + 1) / (df + 0.5)`: positive for every
   * corpus size, and above 1 (a positive logarithm) exactly when the
   * document frequency is at most the number of documents.
   */
  lemma IdfArgumentRange(n: nat, df: nat)
    ensures IdfArgument(n, df) == (n as real + 1.0) / (df as real + 0.5)
    ensures IdfArgument(n, df) > 0.0
    ensures IdfArgument(n, df) > 1.0 <==> df <= n
    ensures IdfArgument(n, df) < 1.0 <==> df > n
  {
    var d := df as real + 0.5;
    DivPlusOne((n - df) as real + 0.5, d);
    DivAboveOne(n as real + 1.0, d);
  }

  lemma DivPlusOne(x: real, d: real)
    requires d > 0.0
    ensures x / d + 1.0 == (x + d) / d
  {
    var r := x / d;
    var s := (x + d) / d;
    assert r * d == x;
    assert s * d == x + d;
    var e := r + 1.0 - s;
    assert e * d == 0.0;
    assert e == 0.0;
  }

  lemma DivLess(a: real, d: real, c: real)
    requires d > 0.0 && a < c * d
    ensures a / d < c
  {
    var r := a / d;
    assert r * d == a;
    if r >= c {
      assert r * d >= c * d;
    }
  }

  lemma DivAboveOne(a: real, d: real)
    requires d > 0.0 && a > 0.0
    ensures a / d > 0.0
    ensures a / d > 1.0 <==> a > d
    ensures a / d < 1.0 <==> a < d
  {
    assert a / d * d == a;
    if a / d < 1.0 {
      assert a / d * d < 1.0 * d;
    }
    if a < d {
      DivLess(a, d, 1.0);
    }
    if a / d > 1.0 {
      assert a / d * d > 1.0 * d;
    }
    if a > d {
      assert a / d * d > d;
    }
  }

  /** The saturated term frequency lies in `[0, k1 + 1)` and is 0 only for an absent term. */
  lemma SaturationRange(tf: nat, docLength: nat)
    ensures 0.0 <= Saturation(tf, docLength) < K1 + 1.0
    ensures Saturation(tf, docLength) == 0.0 <==> tf == 0
  {
    var num := tf as real * (K1 + 1.0);
    var den := tf as real + LengthNorm(docLength);
    assert den > 0.0;
    assert num < (K1 + 1.0) * den;
    DivBetween(num, den, 0.0, K1 + 1.0);
    DivLess(num, den, K1 + 1.0);
    if tf > 0 {
      assert num > 0.0;
      DivAboveOne(num, den);
    }
  }

  /** The set of urls of a corpus. */
  function UrlSet(docs: seq<Document>): set<string>
    decreases |docs|
  {
    if docs == [] then {} else UrlSet(docs[..|docs| - 1]) + {docs[|docs| - 1].url}
  }

  lemma {:induction false} UrlSetMembers(docs: seq<Document>)
    ensures forall u :: u in UrlSet(docs) <==> exists k :: 0 <= k < |docs| && docs[k].url == u
  {
    if docs != [] {
      var n := |docs| - 1;
      UrlSetMembers(docs[..n]);
      forall u ensures u in UrlSet(docs) <==> exists k :: 0 <= k < |docs| && docs[k].url == u {
        if u in UrlSet(docs[..n]) {
          var k :| 0 <= k < n && docs[..n][k].url == u;
          assert docs[k] == docs[..n][k];
        }
        if exists k :: 0 <= k < |docs| && docs[k].url == u {
          var k :| 0 <= k < |docs| && docs[k].url == u;
          if k < n {
            assert docs[..n][k] == docs[k];
          }
        }
      }
    }
  }

  lemma {:induction false} UrlSetCard(docs: seq<Document>)
    ensures |UrlSet(docs)| <= |docs|
  {
    if docs != [] {
      UrlSetCard(docs[..|docs| - 1]);
    }
  }

  lemma {:induction false} UrlSetDistinct(docs: seq<Document>)
    requires UniqueUrls(docs)
    ensures |UrlSet(docs)| == |docs|
  {
    if docs != [] {
      var n := |docs| - 1;
      assert UniqueUrls(docs[..n]);
      UrlSetDistinct(docs[..n]);
      UrlSetMembers(docs[..n]);
      assert docs[n].url !in UrlSet(docs[..n]);
    }
  }

  /** The urls of a term in a built index are urls of the corpus. */
  lemma BuiltUrlsFromCorpus(docs: seq<Document>, f: Field, t: string)
    ensures UrlsFor(PositionIndexOf(docs, f), t) <= UrlSet(docs)
  {
    PositionKeysMentions(docs, f);
    UrlSetMembers(docs);
    forall u | u in UrlsFor(PositionIndexOf(docs, f), t) ensures u in UrlSet(docs) {
      assert Mentions(docs, f, t, u);
    }
  }

  lemma SubsetCard(a: set<string>, b: set<string>)
    requires a <= b
    ensures |a| <= |b|
  {
    assert b == a + (b - a);
  }

  /**
   * With per-document counting, a term of the built indexes is held by at
   * most as many documents as the corpus has, so its idf argument is above 1.
   */
  lemma DistinctDfBounded(docs: seq<Document>, t: string)
    ensures DocFrequency(DistinctUrls, t, PositionIndexOf(docs, Title), PositionIndexOf(docs, Description)) <= |docs|
    ensures IdfArgument(|docs|, DocFrequency(DistinctUrls, t, PositionIndexOf(docs, Title), PositionIndexOf(docs, Description))) > 1.0
  {
    BuiltUrlsFromCorpus(docs, Title, t);
    BuiltUrlsFromCorpus(docs, Description, t);
    UrlSetCard(docs);
    var m := Matching(PositionIndexOf(docs, Title), PositionIndexOf(docs, Description), t);
    assert m <= UrlSet(docs);
    SubsetCard(m, UrlSet(docs));
    IdfArgumentRange(|docs|, |m|);
  }

  /** The source's count adds the documents with the term in both fields twice. */
  lemma FieldSumOvercounts(t: string, ti: PositionIndex, di: PositionIndex)
    ensures DocFrequency(FieldSum, t, ti, di)
            == DocFrequency(DistinctUrls, t, ti, di) + |UrlsFor(ti, t) * UrlsFor(di, t)|
  {
  }

  /**
   * Counterexample: one document whose title and description both index
   * "shoe". The source's count is 2 for a corpus of 1, which makes the
   * logarithm's argument 0.8, so the idf of a term held by the only
   * document is negative; counting urls gives 1 and an argument of 4/3.
   */
  lemma DoubleCountExample()
    ensures var ti: PositionIndex := map["shoe" := map["u" := [0]]];
            && DocFrequency(FieldSum, "shoe", ti, ti) == 2
            && IdfArgument(1, DocFrequency(FieldSum, "shoe", ti, ti)) == 0.8
            && DocFrequency(DistinctUrls, "shoe", ti, ti) == 1
            && IdfArgument(1, DocFrequency(DistinctUrls, "shoe", ti, ti)) > 1.0
  {
    var ti: PositionIndex := map["shoe" := map["u" := [0]]];
    assert UrlsFor(ti, "shoe") == {"u"};
    assert Matching(ti, ti, "shoe") == {"u"};
  }

  /**
   * The same corpus scored end to end: for a logarithm that is negative
   * below 1 and positive above 1, the source's BM25 gives the only
   * document, which holds the query term in both fields, a negative score,
   * while counting each document once gives it a positive one.
   */
  lemma AsWrittenScoresNegative(ln: real -> real)
    requires forall x: real :: 0.0 < x < 1.0 ==> ln(x) < 0.0
    requires forall x: real :: x > 1.0 ==> ln(x) > 0.0
    ensures var ti: PositionIndex := map["shoe" := map["u" := [0]]];
            && Bm25AsWritten(["shoe"], "u", ti, ti, 1, ln) < 0.0
            && Bm25(["shoe"], "u", ti, ti, 1, ln) > 0.0
  {
    var ti: PositionIndex := map["shoe" := map["u" := [0]]];
    ShoeScores(ti, ln);
    IdfArgumentRange(1, 2);
    IdfArgumentRange(1, 1);
    TermScoreSign(2, 2, 1, 2, ln);
    TermScoreSign(1, 2, 1, 2, ln);
  }

  /** Both scores of the one-document corpus, each down to its single term. */
  lemma ShoeScores(ti: PositionIndex, ln: real -> real)
    requires ti == map["shoe" := map["u" := [0]]]
    ensures Bm25AsWritten(["shoe"], "u", ti, ti, 1, ln) == TermScore(2, 2, 1, 2, ln)
    ensures Bm25(["shoe"], "u", ti, ti, 1, ln) == TermScore(1, 2, 1, 2, ln)
  {
    DoubleCountExample();
    TfSumRemove({"shoe"}, "shoe", "u", ti, ti);
    assert Elems(["shoe"]) == {"shoe"};
    assert Tf("shoe", "u", ti, ti) == 2;
    assert DocLength(["shoe"], "u", ti, ti) == 2;
    assert ["shoe"][..0] == [];
  }

  /** A term present in the document contributes with the sign of its idf. */
  lemma TermScoreSign(df: nat, tf: nat, n: int, docLength: nat, ln: real -> real)
    requires df > 0 && tf > 0
    ensures ln(IdfArgument(n, df)) < 0.0 ==> TermScore(df, tf, n, docLength, ln) < 0.0
    ensures ln(IdfArgument(n, df)) > 0.0 ==> TermScore(df, tf, n, docLength, ln) > 0.0
  {
    SaturationRange(tf, docLength);
    ProductSign(ln(IdfArgument(n, df)), Saturation(tf, docLength));
  }

  /** A product with a positive factor has the sign of the other factor. */
  lemma ProductSign(a: real, b: real)
    requires b > 0.0
    ensures a < 0.0 ==> a * b < 0.0
    ensures a > 0.0 ==> a * b > 0.0
  {
  }

  /** When every document holds `t` in field `f`, its urls are all urls. */
  lemma AllHold(docs: seq<Document>, f: Field, t: string)
    requires forall k :: 0 <= k < |docs| ==> t in DocTokens(docs[k], f)
    ensures UrlsFor(PositionIndexOf(docs, f), t) == UrlSet(docs)
  {
    BuiltUrlsFromCorpus(docs, f, t);
    PositionKeysMentions(docs, f);
    UrlSetMembers(docs);
    forall u | u in UrlSet(docs) ensures u in UrlsFor(PositionIndexOf(docs, f), t) {
      var k :| 0 <= k < |docs| && docs[k].url == u;
      assert Mentions(docs, f, t, u);
    }
  }

  /** Every document has `t` among its title tokens and among its description tokens. */
  ghost predicate InBothFields(docs: seq<Document>, t: string) {
    forall k :: 0 <= k < |docs| ==> t in DocTokens(docs[k], Title) && t in DocTokens(docs[k], Description)
  }

  /**
   * On built indexes, a term that every document holds in both its title
   * and its description gets the source's count `2 * |docs|`; by
   * `IdfArgumentRange` its idf argument is then below 1, so the
   * best-matching term of the corpus gets a negative weight.
   */
  lemma FieldSumDoubles(docs: seq<Document>, t: string)
    requires UniqueUrls(docs) && InBothFields(docs, t)
    ensures DocFrequency(FieldSum, t, PositionIndexOf(docs, Title), PositionIndexOf(docs, Description)) == 2 * |docs|
  {
    BothFieldsAllUrls(docs, t);
    UrlSetDistinct(docs);
    FieldSumOfUrls(t, PositionIndexOf(docs, Title), PositionIndexOf(docs, Description), UrlSet(docs));
  }

  lemma FieldSumOfUrls(t: string, ti: PositionIndex, di: PositionIndex, urls: set<string>)
    requires UrlsFor(ti, t) == urls && UrlsFor(di, t) == urls
    ensures DocFrequency(FieldSum, t, ti, di) == 2 * |urls|
  {
  }

  lemma BothFieldsAllUrls(docs: seq<Document>, t: string)
    requires InBothFields(docs, t)
    ensures UrlsFor(PositionIndexOf(docs, Title), t) == UrlSet(docs)
    ensures UrlsFor(PositionIndexOf(docs, Description), t) == UrlSet(docs)
  {
    assert forall k :: 0 <= k < |docs| ==> t in DocTokens(docs[k], Title);
    AllHold(docs, Title, t);
    assert forall k :: 0 <= k < |docs| ==> t in DocTokens(docs[k], Description);
    AllHold(docs, Description, t);
  }

  /** A repeated token is scored again, while the document length stays the same. */
  lemma RepeatedTokenScoredTwice(q: seq<string>, t: string, u: string, ti: PositionIndex, di: PositionIndex,
                                 n: int, ln: real -> real)
    requires t in q
    ensures DocLength(q + [t], u, ti, di) == DocLength(q, u, ti, di)
    ensures Bm25(q + [t], u, ti, di, n, ln)
            == Bm25(q, u, ti, di, n, ln)
               + TermScore(DocFrequency(DistinctUrls, t, ti, di), Tf(t, u, ti, di), n, DocLength(q, u, ti, di), ln)
  {
    assert Elems(q + [t]) == Elems(q);
    assert (q + [t])[..|q|] == q;
  }

  /** A token that neither index holds changes nothing. */
  lemma UnknownTokenIgnored(q: seq<string>, t: string, u: string, ti: PositionIndex, di: PositionIndex,
                            n: int, ln: real -> real)
    requires t !in ti && t !in di
    ensures Bm25(q + [t], u, ti, di, n, ln) == Bm25(q, u, ti, di, n, ln)
  {
    assert Tf(t, u, ti, di) == 0;
    if t !in q {
      TfSumRemove(Elems(q + [t]), t, u, ti, di);
      assert Elems(q + [t]) - {t} == Elems(q);
    } else {
      assert Elems(q + [t]) == Elems(q);
    }
    var docLength := DocLength(q, u, ti, di);
    assert DocLength(q + [t], u, ti, di) == docLength;
    assert (q + [t])[..|q|] == q;
    assert DocFrequency(DistinctUrls, t, ti, di) == 0;
    assert ScoreSum(DistinctUrls, q + [t], u, ti, di, n, docLength, ln)
           == ScoreSum(DistinctUrls, q, u, ti, di, n, docLength, ln);
  }

  // ---------------------------------------------------------------------
  // Linear score

  /** `weights.get(name, default)`. */
  function Weight(w: map<string, real>, name: string, default: real): real {
    if name in w then w[name] else default
  }

  /** `min(positions)`. */
  function MinPosition(ps: seq<nat>): (m: nat)
    requires ps != []
    ensures m in ps && forall p :: p in ps ==> m <= p
  {
    if |ps| == 1 then ps[0]
    else
      var rest := MinPosition(ps[1..]);
      assert forall p :: p in ps ==> p == ps[0] || p in ps[1..];
      if ps[0] <= rest then ps[0] else rest
  }

  /** The title occurrences of the first `n` query tokens. */
  function TitleTfTotal(q: seq<string>, u: string, ti: PositionIndex, di: PositionIndex, n: nat): nat
    requires n <= |q|
  {
    if n == 0 then 0 else TitleTfTotal(q, u, ti, di, n - 1) + TermFrequency(q[n - 1], u, ti, di).0
  }

  /** The description occurrences of the first `n` query tokens. */
  function DescriptionTfTotal(q: seq<string>, u: string, ti: PositionIndex, di: PositionIndex, n: nat): nat
    requires n <= |q|
  {
    if n == 0 then 0 else DescriptionTfTotal(q, u, ti, di, n - 1) + TermFrequency(q[n - 1], u, ti, di).1
  }

  /** The bonus of one token for its earliest title position. */
  function EarlyBonus(t: string, u: string, ti: PositionIndex, w: map<string, real>): real {
    if t in ti && u in ti[t] && ti[t][u] != [] then
      Weight(w, "early_position", 1.0) * (1.0 / (MinPosition(ti[t][u]) + 1) as real)
    else 0.0
  }

  /** The early-position bonuses of the first `n` query tokens. */
  function PositionBonus(q: seq<string>, u: string, ti: PositionIndex, w: map<string, real>, n: nat): real
    requires n <= |q|
  {
    if n == 0 then 0.0 else PositionBonus(q, u, ti, w, n - 1) + EarlyBonus(q[n - 1], u, ti, w)
  }

  /** The review signal: the mean mark and the logarithm of the count plus one. */
  function ReviewBonus(u: string, reviews: map<string, ReviewStats>, w: map<string, real>, ln: real -> real): real {
    if u in reviews && reviews[u].totalReviews > 0 then
      Weight(w, "review_score", 1.0) * reviews[u].meanMark
      + Weight(w, "review_count", 0.5) * ln((reviews[u].totalReviews + 1) as real)
    else 0.0
  }

  /** `documents_map.get(url, {})`: a missing document reads as empty fields. */
  function DocOf(documents: map<string, Document>, u: string): Document {
    if u in documents then documents[u] else Document("", "", "", map[], [], [])
  }

  /** `product_features.get('brand', '').lower()`. */
  function Brand(d: Document): string {
    if "brand" in d.features then Lower(d.features["brand"]) else ""
  }

  /** The brand signal: the document's brand occurs in the space-joined query tokens. */
  function BrandBonus(q: seq<string>, d: Document, w: map<string, real>): real {
    var brand := Brand(d);
    if brand != "" && Contains(Join(q, " "), brand) then Weight(w, "brand_match", 5.0) else 0.0
  }

  /** Fewer than 10 search-engine tokens in title and description together. */
  predicate ShortDocument(d: Document) {
    |QueryTokens(d.title + " " + d.description)| < 10
  }

  /** A weight times a count of occurrences. */
  function TfSignal(weight: real, total: nat): real {
    weight * total as real
  }

  /** The sum of the signals before the length penalty. */
  function RawLinearScore(q: seq<string>, u: string, ti: PositionIndex, di: PositionIndex,
                          reviews: map<string, ReviewStats>, docData: Document,
                          w: map<string, real>, ln: real -> real): real {
    TfSignal(Weight(w, "title_tf", 3.0), TitleTfTotal(q, u, ti, di, |q|))
    + TfSignal(Weight(w, "description_tf", 1.0), DescriptionTfTotal(q, u, ti, di, |q|))
    + (if FieldMatch(ti, q, u) then Weight(w, "title_exact_match", 10.0) else 0.0)
    + (if FieldMatch(di, q, u) then Weight(w, "description_exact_match", 5.0) else 0.0)
    + ReviewBonus(u, reviews, w, ln)
    + PositionBonus(q, u, ti, w, |q|)
    + BrandBonus(q, docData, w)
  }

  /** `calculate_linear_score`: the signals, scaled by 0.7 for a short document. */
  function LinearScore(q: seq<string>, u: string, ti: PositionIndex, di: PositionIndex,
                       reviews: map<string, ReviewStats>, documents: map<string, Document>,
                       w: map<string, real>, ln: real -> real): real {
    var raw := RawLinearScore(q, u, ti, di, reviews, DocOf(documents, u), w, ln);
    if ShortDocument(DocOf(documents, u)) then raw * 0.7 else raw
  }

  /** The first two loops of `calculate_linear_score`: title and description occurrences. */
  method TfTotals(q: seq<string>, u: string, ti: PositionIndex, di: PositionIndex)
    returns (titleTfTotal: nat, descriptionTfTotal: nat)
    ensures titleTfTotal == TitleTfTotal(q, u, ti, di, |q|)
    ensures descriptionTfTotal == DescriptionTfTotal(q, u, ti, di, |q|)
  {
    titleTfTotal := 0;
    for j := 0 to |q|
      invariant titleTfTotal == TitleTfTotal(q, u, ti, di, j)
    {
      var frequencies := TermFrequency(q[j], u, ti, di);
      titleTfTotal := titleTfTotal + frequencies.0;
    }
    descriptionTfTotal := 0;
    for j := 0 to |q|
      invariant descriptionTfTotal == DescriptionTfTotal(q, u, ti, di, j)
    {
      var frequencies := TermFrequency(q[j], u, ti, di);
      descriptionTfTotal := descriptionTfTotal + frequencies.1;
    }
  }

  /** The early-position loop of `calculate_linear_score`. */
  method PositionBonusOf(q: seq<string>, u: string, ti: PositionIndex, w: map<string, real>)
    returns (bonus: real)
    ensures bonus == PositionBonus(q, u, ti, w, |q|)
  {
    bonus := 0.0;
    for j := 0 to |q|
      invariant bonus == PositionBonus(q, u, ti, w, j)
    {
      var token := q[j];
      if token in ti && u in ti[token] {
        var positions := ti[token][u];
        if positions != [] {
          var minPosition := MinPosition(positions);
          bonus := bonus + Weight(w, "early_position", 1.0) * (1.0 / (minPosition + 1) as real);
        }
      }
    }
  }

  /** Signals 1 to 6 of `calculate_linear_score`. */
  method RawLinearScoreOf(q: seq<string>, u: string, ti: PositionIndex, di: PositionIndex,
                          reviews: map<string, ReviewStats>, docData: Document,
                          w: map<string, real>, ln: real -> real) returns (score: real)
    ensures score == RawLinearScore(q, u, ti, di, reviews, docData, w, ln)
  {
    var titleTfTotal, descriptionTfTotal := TfTotals(q, u, ti, di);
    var titleExact, descriptionExact := CheckExactMatch(q, u, ti, di);
    var exact := (if titleExact then Weight(w, "title_exact_match", 10.0) else 0.0)
                 + (if descriptionExact then Weight(w, "description_exact_match", 5.0) else 0.0);
    var review := ReviewBonus(u, reviews, w, ln);
    var position := PositionBonusOf(q, u, ti, w);
    var brand := BrandBonus(q, docData, w);
    score := TfSignal(Weight(w, "title_tf", 3.0), titleTfTotal)
             + TfSignal(Weight(w, "description_tf", 1.0), descriptionTfTotal)
             + exact + review + position + brand;
  }

  /** `calculate_linear_score`: the six signals, then the length penalty. */
  method LinearScoreOf(q: seq<string>, u: string, ti: PositionIndex, di: PositionIndex,
                       reviews: map<string, ReviewStats>, documents: map<string, Document>,
                       w: map<string, real>, ln: real -> real) returns (score: real)
    ensures score == LinearScore(q, u, ti, di, reviews, documents, w, ln)
  {
    var docData := DocOf(documents, u);
    score := RawLinearScoreOf(q, u, ti, di, reviews, docData, w, ln);
    var docLength := |QueryTokens(docData.title + " " + docData.description)|;
    if docLength < 10 {
      score := score * 0.7;
    }
  }

  // ---------------------------------------------------------------------
  // Properties of the scores

  lemma MulNonNegative(a: real, b: real)
    requires a >= 0.0 && b >= 0.0
    ensures a * b >= 0.0
  {
  }

  /** A token's BM25 contribution is non-negative once its document frequency is at most the corpus size. */
  lemma TermScoreNonNegative(df: nat, tf: nat, n: nat, docLength: nat, ln: real -> real)
    requires df <= n
    requires forall x: real :: x > 1.0 ==> ln(x) > 0.0
    ensures TermScore(df, tf, n, docLength, ln) >= 0.0
  {
    if df != 0 {
      IdfArgumentRange(n, df);
      SaturationRange(tf, docLength);
      MulNonNegative(ln(IdfArgument(n, df)), Saturation(tf, docLength));
    }
  }

  lemma {:induction false} ScoreSumNonNegative(docs: seq<Document>, q: seq<string>, u: string, docLength: nat, ln: real -> real)
    requires forall x: real :: x > 1.0 ==> ln(x) > 0.0
    ensures ScoreSum(DistinctUrls, q, u, PositionIndexOf(docs, Title), PositionIndexOf(docs, Description), |docs|, docLength, ln) >= 0.0
  {
    if q != [] {
      ScoreSumNonNegative(docs, q[..|q| - 1], u, docLength, ln);
      var t := q[|q| - 1];
      var ti := PositionIndexOf(docs, Title);
      var di := PositionIndexOf(docs, Description);
      DistinctDfBounded(docs, t);
      TermScoreNonNegative(DocFrequency(DistinctUrls, t, ti, di), Tf(t, u, ti, di), |docs|, docLength, ln);
    }
  }

  /**
   * With documents counted once, the BM25 score over the built indexes is
   * never negative (for a logarithm that is positive above 1); the count
   * the source uses loses this, see `FieldSumDoubles`.
   */
  lemma Bm25NonNegative(docs: seq<Document>, q: seq<string>, u: string, ln: real -> real)
    requires forall x: real :: x > 1.0 ==> ln(x) > 0.0
    ensures Bm25(q, u, PositionIndexOf(docs, Title), PositionIndexOf(docs, Description), |docs|, ln) >= 0.0
  {
    var ti := PositionIndexOf(docs, Title);
    var di := PositionIndexOf(docs, Description);
    ScoreSumNonNegative(docs, q, u, DocLength(q, u, ti, di), ln);
  }

  /** The bonus of a token whose earliest title position is `m` is `weight / (m + 1)`; earlier is larger. */
  lemma EarlierIsBetter(t1: string, t2: string, u: string, ti: PositionIndex, w: map<string, real>)
    requires Weight(w, "early_position", 1.0) > 0.0
    requires t1 in ti && u in ti[t1] && ti[t1][u] != []
    requires t2 in ti && u in ti[t2] && ti[t2][u] != []
    requires MinPosition(ti[t1][u]) < MinPosition(ti[t2][u])
    ensures EarlyBonus(t2, u, ti, w) < EarlyBonus(t1, u, ti, w) <= Weight(w, "early_position", 1.0)
  {
    var c := Weight(w, "early_position", 1.0);
    var a := (MinPosition(ti[t1][u]) + 1) as real;
    var b := (MinPosition(ti[t2][u]) + 1) as real;
    ReciprocalOrder(a, b, c);
  }

  lemma ReciprocalOrder(a: real, b: real, c: real)
    requires 1.0 <= a < b && c > 0.0
    ensures c * (1.0 / b) < c * (1.0 / a) <= c
  {
    assert 1.0 / a * a == 1.0;
    assert 1.0 / b * b == 1.0;
  }

  /**
   * On the title index built from a corpus with unique urls, the position
   * that earns a token its bonus is the index of its first occurrence in
   * the document's title tokens.
   */
  lemma MinPositionIsFirstOccurrence(docs: seq<Document>, k: int, t: string)
    requires UniqueUrls(docs) && 0 <= k < |docs|
    requires t in DocTokens(docs[k], Title)
    ensures var idx := PositionIndexOf(docs, Title);
            var u := docs[k].url;
            var toks := DocTokens(docs[k], Title);
            && t in idx && u in idx[t] && idx[t][u] != []
            && var m := MinPosition(idx[t][u]);
               m < |toks| && toks[m] == t && forall i :: 0 <= i < m ==> toks[i] != t
  {
    var idx := PositionIndexOf(docs, Title);
    var u := docs[k].url;
    var toks := DocTokens(docs[k], Title);
    BuiltIndexExact(docs, Title, k);
    var p :| 0 <= p < |toks| && toks[p] == t;
    ExactAt(idx, u, toks, t, p);
    var ps := Postings(idx, t, u);
    assert ps == idx[t][u];
    var m := MinPosition(ps);
    ExactAt(idx, u, toks, t, m);
    forall i | 0 <= i < m ensures toks[i] != t {
      ExactAt(idx, u, toks, t, i);
    }
  }

  /** Every weight the source looks up is non-negative. */
  ghost predicate NonNegativeWeights(w: map<string, real>) {
    forall name :: name in w ==> w[name] >= 0.0
  }

  lemma {:induction false} PositionBonusNonNegative(q: seq<string>, u: string, ti: PositionIndex, w: map<string, real>, n: nat)
    requires n <= |q| && NonNegativeWeights(w)
    ensures PositionBonus(q, u, ti, w, n) >= 0.0
  {
    if n > 0 {
      PositionBonusNonNegative(q, u, ti, w, n - 1);
      var t := q[n - 1];
      if t in ti && u in ti[t] && ti[t][u] != [] {
        var d := (MinPosition(ti[t][u]) + 1) as real;
        assert 1.0 / d * d == 1.0;
        assert 1.0 / d > 0.0;
        MulNonNegative(Weight(w, "early_position", 1.0), 1.0 / d);
      }
    }
  }

  lemma TfSignalNonNegative(weight: real, total: nat)
    requires weight >= 0.0
    ensures TfSignal(weight, total) >= 0.0
  {
    MulNonNegative(weight, total as real);
  }

  lemma ReviewBonusNonNegative(u: string, reviews: map<string, ReviewStats>, w: map<string, real>, ln: real -> real)
    requires NonNegativeWeights(w)
    requires forall v :: v in reviews ==> reviews[v].meanMark >= 0.0
    requires forall x: real :: x >= 1.0 ==> ln(x) >= 0.0
    ensures ReviewBonus(u, reviews, w, ln) >= 0.0
  {
    if u in reviews && reviews[u].totalReviews > 0 {
      MulNonNegative(Weight(w, "review_score", 1.0), reviews[u].meanMark);
      MulNonNegative(Weight(w, "review_count", 0.5), ln((reviews[u].totalReviews + 1) as real));
    }
  }

  /**
   * With non-negative weights, non-negative mean marks and a logarithm
   * that is non-negative from 1 on, the linear score is non-negative.
   */
  lemma LinearScoreNonNegative(q: seq<string>, u: string, ti: PositionIndex, di: PositionIndex,
                               reviews: map<string, ReviewStats>, documents: map<string, Document>,
                               w: map<string, real>, ln: real -> real)
    requires NonNegativeWeights(w)
    requires forall v :: v in reviews ==> reviews[v].meanMark >= 0.0
    requires forall x: real :: x >= 1.0 ==> ln(x) >= 0.0
    ensures LinearScore(q, u, ti, di, reviews, documents, w, ln) >= 0.0
  {
    TfSignalNonNegative(Weight(w, "title_tf", 3.0), TitleTfTotal(q, u, ti, di, |q|));
    TfSignalNonNegative(Weight(w, "description_tf", 1.0), DescriptionTfTotal(q, u, ti, di, |q|));
    ReviewBonusNonNegative(u, reviews, w, ln);
    PositionBonusNonNegative(q, u, ti, w, |q|);
    assert RawLinearScore(q, u, ti, di, reviews, DocOf(documents, u), w, ln) >= 0.0;
  }

  lemma {:induction false} NoPostingsNoTotals(q: seq<string>, u: string, ti: PositionIndex, di: PositionIndex,
                                              w: map<string, real>, n: nat)
    requires n <= |q|
    requires forall t :: t in q ==> u !in Matching(ti, di, t)
    ensures TitleTfTotal(q, u, ti, di, n) == 0 && DescriptionTfTotal(q, u, ti, di, n) == 0
    ensures PositionBonus(q, u, ti, w, n) == 0.0
  {
    if n > 0 {
      NoPostingsNoTotals(q, u, ti, di, w, n - 1);
      assert q[n - 1] in q;
    }
  }

  /** A url absent from a field's postings of the first query token has no exact match there. */
  lemma NoPostingsNoExactMatch(idx: PositionIndex, q: seq<string>, u: string)
    requires q != [] ==> Postings(idx, q[0], u) == [] && !(q[0] in idx && u in idx[q[0]])
    ensures !FieldMatch(idx, q, u)
  {
  }

  lemma NoSignalNoRawScore(q: seq<string>, u: string, ti: PositionIndex, di: PositionIndex,
                           reviews: map<string, ReviewStats>, documents: map<string, Document>,
                           w: map<string, real>, ln: real -> real)
    requires forall t :: t in q ==> u !in Matching(ti, di, t)
    requires u !in reviews
    requires Brand(DocOf(documents, u)) == ""
    ensures RawLinearScore(q, u, ti, di, reviews, DocOf(documents, u), w, ln) == 0.0
  {
    NoPostingsNoTotals(q, u, ti, di, w, |q|);
    if q != [] {
      assert q[0] in q;
    }
    NoPostingsNoExactMatch(ti, q, u);
    NoPostingsNoExactMatch(di, q, u);
  }

  /**
   * A url that no query token reaches in either index, that has no review
   * entry and whose document has no brand scores 0.
   */
  lemma NoSignalNoScore(q: seq<string>, u: string, ti: PositionIndex, di: PositionIndex,
                        reviews: map<string, ReviewStats>, documents: map<string, Document>,
                        w: map<string, real>, ln: real -> real)
    requires forall t :: t in q ==> u !in Matching(ti, di, t)
    requires u !in reviews
    requires Brand(DocOf(documents, u)) == ""
    ensures LinearScore(q, u, ti, di, reviews, documents, w, ln) == 0.0
  {
    NoSignalNoRawScore(q, u, ti, di, reviews, documents, w, ln);
  }
}
