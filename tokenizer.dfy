/**
 * The tokenizer shared by the indexer and the search engine: lower-case the
 * text, delete punctuation, split on whitespace, drop stopwords. The two
 * programs use the same steps but different stopword sets, so the stopword
 * set is a parameter here.
 */
module Tokenizer {
  import opened Text

  /** `[t for t in ws if t not in stop]`. */
  function DropStopwords(ws: seq<string>, stop: set<string>): seq<string> {
    if ws == [] then []
    else if ws[0] in stop then DropStopwords(ws[1..], stop)
    else [ws[0]] + DropStopwords(ws[1..], stop)
  }

  /** The kept words are exactly the words of `ws` that are not stopwords. */
  lemma {:induction false} DropStopwordsKeeps(ws: seq<string>, stop: set<string>)
    ensures |DropStopwords(ws, stop)| <= |ws|
    ensures forall w :: w in DropStopwords(ws, stop) <==> w in ws && w !in stop
  {
    if ws != [] {
      DropStopwordsKeeps(ws[1..], stop);
      assert forall w :: w in ws <==> w == ws[0] || w in ws[1..];
    }
  }

  /** Lower-case, then strip punctuation (the order the source applies them). */
  function Normalize(text: string): string {
    StripPunct(Lower(text))
  }

  /** A non-empty word without whitespace, punctuation or upper case. */
  ghost predicate CleanWord(w: string) {
    && w != []
    && forall j :: 0 <= j < |w| ==> !IsSpace(w[j]) && !IsPunct(w[j]) && !IsUpper(w[j])
  }

  /** What every token satisfies. */
  ghost predicate IsToken(w: string, stop: set<string>) {
    CleanWord(w) && w !in stop
  }

  /** Characters of the normalised text are neither punctuation nor upper case. */
  lemma NormalizedChar(text: string, c: char)
    requires c in Normalize(text)
    ensures !IsPunct(c) && !IsUpper(c)
  {
    StripPunctChars(Lower(text));
    assert c in Lower(text);
    var i :| 0 <= i < |Lower(text)| && Lower(text)[i] == c;
    assert c == LowerChar(text[i]);
  }

  /** The words of the normalised text are clean. */
  lemma WordsClean(text: string)
    ensures forall i :: 0 <= i < |Split(Normalize(text))| ==> CleanWord(Split(Normalize(text))[i])
  {
    var n := Normalize(text);
    var words := Split(n);
    SplitWords(n);
    forall i | 0 <= i < |words| ensures CleanWord(words[i]) {
      forall j | 0 <= j < |words[i]| ensures !IsSpace(words[i][j]) && !IsPunct(words[i][j]) && !IsUpper(words[i][j]) {
        assert CharsFrom(words[i], n);
        NormalizedChar(text, words[i][j]);
      }
    }
  }

  lemma PunctNotUpper(c: char)
    ensures IsPunct(c) ==> !IsUpper(c)
  {
  }

  /** Text made only of whitespace and punctuation normalises to whitespace. */
  lemma BlankNormalizesBlank(text: string)
    ensures (forall i :: 0 <= i < |text| ==> IsSpace(text[i]) || IsPunct(text[i])) ==>
              forall i :: 0 <= i < |Normalize(text)| ==> IsSpace(Normalize(text)[i])
  {
    var n := Normalize(text);
    StripPunctChars(Lower(text));
    if forall i :: 0 <= i < |text| ==> IsSpace(text[i]) || IsPunct(text[i]) {
      forall i | 0 <= i < |n| ensures IsSpace(n[i]) {
        assert n[i] in Lower(text);
        var k :| 0 <= k < |Lower(text)| && Lower(text)[k] == n[i];
        assert n[i] == LowerChar(text[k]);
        assert IsSpace(text[k]) || IsPunct(text[k]);
        PunctNotUpper(text[k]);
        assert n[i] == text[k];
      }
    }
  }

  /** `tokenize(text)`: normalise, split on whitespace, drop stopwords. */
  function Tokenize(text: string, stop: set<string>): seq<string> {
    DropStopwords(Split(Normalize(text)), stop)
  }

  /**
   * Every token is non-empty, holds no whitespace, no ASCII punctuation and
   * no upper-case ASCII letter, and is not a stopword; text made only of
   * whitespace and punctuation (the empty text included) gives no token.
   */
  lemma TokenizeClean(text: string, stop: set<string>)
    ensures forall i :: 0 <= i < |Tokenize(text, stop)| ==> IsToken(Tokenize(text, stop)[i], stop)
    ensures (forall i :: 0 <= i < |text| ==> IsSpace(text[i]) || IsPunct(text[i])) ==> Tokenize(text, stop) == []
  {
    var words := Split(Normalize(text));
    WordsClean(text);
    BlankNormalizesBlank(text);
    SplitWords(Normalize(text));
    DropStopwordsKeeps(words, stop);
    var r := Tokenize(text, stop);
    forall i | 0 <= i < |r| ensures IsToken(r[i], stop) {
      assert r[i] in r;
      var k :| 0 <= k < |words| && words[k] == r[i];
    }
    if forall i :: 0 <= i < |text| ==> IsSpace(text[i]) || IsPunct(text[i]) {
      assert words == [];
    }
  }

  /** `xs` is obtained from `ys` by deleting elements. */
  predicate Subsequence<T(==)>(xs: seq<T>, ys: seq<T>) {
    if xs == [] then true
    else if ys == [] then false
    else if xs[0] == ys[0] then Subsequence(xs[1..], ys[1..])
    else Subsequence(xs, ys[1..])
  }

  lemma {:induction false} DropStopwordsSubsequence(ws: seq<string>, stop: set<string>)
    ensures Subsequence(DropStopwords(ws, stop), ws)
  {
    if ws != [] {
      DropStopwordsSubsequence(ws[1..], stop);
      DropStopwordsKeeps(ws[1..], stop);
      var r := DropStopwords(ws[1..], stop);
      assert r != [] ==> r[0] in r;
    }
  }

  /** Dropping a smaller stopword set first changes nothing. */
  lemma {:induction false} DropStopwordsTwice(ws: seq<string>, small: set<string>, big: set<string>)
    requires small <= big
    ensures DropStopwords(DropStopwords(ws, small), big) == DropStopwords(ws, big)
  {
    if ws != [] {
      DropStopwordsTwice(ws[1..], small, big);
    }
  }

  /**
   * Tokenizing with a larger stopword set gives the tokens of the smaller
   * set with the extra stopwords removed, so a subsequence of them.
   */
  lemma TokenizeMonotone(text: string, small: set<string>, big: set<string>)
    requires small <= big
    ensures Tokenize(text, big) == DropStopwords(Tokenize(text, small), big)
    ensures Subsequence(Tokenize(text, big), Tokenize(text, small))
  {
    DropStopwordsTwice(Split(Normalize(text)), small, big);
    DropStopwordsSubsequence(Tokenize(text, small), big);
  }
}
