/**
 * Character classes and string helpers shared by the tokenizer, the feature
 * index and the crawler. Only ASCII case mapping and ASCII whitespace are
 * modelled; every other character passes through unchanged.
 */
module Text {

  /** ASCII upper-case letter. */
  predicate IsUpper(c: char) {
    'A' <= c <= 'Z'
  }

  /** Lower-case mapping of one character (ASCII letters only). */
  function LowerChar(c: char): (r: char)
    ensures !IsUpper(r)
    ensures IsUpper(c) ==> r as int == c as int + 32
    ensures !IsUpper(c) ==> r == c
  {
    if IsUpper(c) then (c as int + 32) as char else c
  }

  /** `str.lower()` restricted to ASCII. */
  function Lower(s: string): (r: string)
    ensures |r| == |s|
    ensures forall i :: 0 <= i < |s| ==> r[i] == LowerChar(s[i])
  {
    seq(|s|, i requires 0 <= i < |s| => LowerChar(s[i]))
  }

  /** The 32 characters of Python's `string.punctuation`. */
  const Punctuation: string := "!\"#$%&'()*+,-./:;<=>?@[\\]^_`{|}~"

  /** Membership in `Punctuation`, written as its four ASCII ranges. */
  predicate IsPunct(c: char) {
    ('!' <= c <= '/') || (':' <= c <= '@') || ('[' <= c <= '`') || ('{' <= c <= '~')
  }

  /** `IsPunct` is exactly membership in `Punctuation`. */
  lemma PunctuationRanges(c: char)
    ensures IsPunct(c) <==> c in Punctuation
  {
  }

  /**
   * The ASCII characters that `str.split()` and the regular-expression class
   * `\s` treat as whitespace: space, tab, line feed, vertical tab, form feed,
   * carriage return and the four separators 0x1C-0x1F.
   */
  predicate IsSpace(c: char) {
    c == ' ' || (9 <= c as int <= 13) || (28 <= c as int <= 31)
  }

  /** `text.translate(str.maketrans('', '', string.punctuation))`. */
  function StripPunct(s: string): string {
    if s == [] then []
    else if IsPunct(s[0]) then StripPunct(s[1..])
    else [s[0]] + StripPunct(s[1..])
  }

  /** `StripPunct` keeps exactly the non-punctuation characters. */
  lemma {:induction false} StripPunctChars(s: string)
    ensures forall i :: 0 <= i < |StripPunct(s)| ==> !IsPunct(StripPunct(s)[i]) && StripPunct(s)[i] in s
    ensures forall i :: 0 <= i < |s| && !IsPunct(s[i]) ==> s[i] in StripPunct(s)
  {
    if s != [] {
      StripPunctChars(s[1..]);
      var r := StripPunct(s);
      forall i | 0 <= i < |r| ensures !IsPunct(r[i]) && r[i] in s {
        if !IsPunct(s[0]) && i == 0 {
        } else {
          var j := if IsPunct(s[0]) then i else i - 1;
          assert r[i] == StripPunct(s[1..])[j];
          assert r[i] in s[1..];
        }
      }
      forall i | 0 <= i < |s| && !IsPunct(s[i]) ensures s[i] in r {
        if i > 0 {
          assert s[i] == s[1..][i - 1];
        }
      }
    }
  }

  /** The longest prefix of `s` that holds no whitespace. */
  function Word(s: string): string {
    if s == [] || IsSpace(s[0]) then [] else [s[0]] + Word(s[1..])
  }

  /** `Word(s)` is a whitespace-free prefix of `s` followed by whitespace or the end. */
  lemma {:induction false} WordPrefix(s: string)
    ensures |Word(s)| <= |s| && Word(s) == s[..|Word(s)|]
    ensures forall i :: 0 <= i < |Word(s)| ==> !IsSpace(Word(s)[i])
    ensures |Word(s)| < |s| ==> IsSpace(s[|Word(s)|])
  {
    if s != [] && !IsSpace(s[0]) {
      WordPrefix(s[1..]);
      var w := Word(s);
      forall i | 0 <= i < |w| ensures !IsSpace(w[i]) {
        if i > 0 {
          assert w[i] == Word(s[1..])[i - 1];
        }
      }
    }
  }

  /** All of `w`'s characters occur in `s`. */
  ghost predicate CharsFrom(w: string, s: string) {
    forall j :: 0 <= j < |w| ==> w[j] in s
  }

  /**
   * `str.split()` with no argument: the maximal runs of non-whitespace
   * characters, in order.
   */
  function Split(s: string): seq<string>
    decreases |s|
  {
    if s == [] then []
    else if IsSpace(s[0]) then Split(s[1..])
    else
      var w := Word(s);
      WordPrefix(s);
      [w] + Split(s[|w|..])
  }

  /**
   * The words of `Split(s)` are non-empty, hold no whitespace and are made
   * of characters of `s`; an all-whitespace `s` has no word.
   */
  lemma {:induction false} SplitWords(s: string)
    ensures forall i :: 0 <= i < |Split(s)| ==> Split(s)[i] != []
    ensures forall i :: 0 <= i < |Split(s)| ==> forall j :: 0 <= j < |Split(s)[i]| ==> !IsSpace(Split(s)[i][j])
    ensures forall i :: 0 <= i < |Split(s)| ==> CharsFrom(Split(s)[i], s)
    ensures (forall i :: 0 <= i < |s| ==> IsSpace(s[i])) ==> Split(s) == []
    decreases |s|
  {
    if s == [] {
    } else if IsSpace(s[0]) {
      SplitWords(s[1..]);
      var rest := Split(s[1..]);
      forall i, j | 0 <= i < |rest| && 0 <= j < |rest[i]| ensures rest[i][j] in s {
        assert rest[i][j] in s[1..];
      }
      if forall i :: 0 <= i < |s| ==> IsSpace(s[i]) {
        assert forall i :: 0 <= i < |s[1..]| ==> IsSpace(s[1..][i]) by {
          forall i | 0 <= i < |s[1..]| ensures IsSpace(s[1..][i]) {
            assert s[1..][i] == s[i + 1];
          }
        }
      }
    } else {
      WordPrefix(s);
      var w := Word(s);
      SplitWords(s[|w|..]);
      var rest := Split(s[|w|..]);
      assert Split(s) == [w] + rest;
      forall i, j | 0 <= i < |rest| && 0 <= j < |rest[i]| ensures rest[i][j] in s {
        assert rest[i][j] in s[|w|..];
      }
      forall j | 0 <= j < |w| ensures w[j] in s {
        assert w[j] == s[j];
      }
      assert w != [] by { assert !IsSpace(s[0]); }
    }
  }

  /** `''.join(ws)`. */
  function Concat(ws: seq<string>): (r: string)
    ensures (exists i :: 0 <= i < |ws| && ws[i] != []) ==> r != []
  {
    if ws == [] then [] else ws[0] + Concat(ws[1..])
  }

  /** `sep.join(ws)`. */
  function Join(ws: seq<string>, sep: string): (r: string)
    ensures |ws| > 1 ==> |r| >= |sep|
    ensures |ws| > 0 && ws[0] != [] ==> r != []
  {
    if ws == [] then []
    else if |ws| == 1 then ws[0]
    else ws[0] + sep + Join(ws[1..], sep)
  }

  /** A non-empty word without whitespace. */
  predicate SpaceFree(w: string) {
    w != [] && forall j :: 0 <= j < |w| ==> !IsSpace(w[j])
  }

  /** The word at the start of `w + rest` is `w` when `rest` starts with whitespace or is empty. */
  lemma {:induction false} WordOfAppend(w: string, rest: string)
    requires forall j :: 0 <= j < |w| ==> !IsSpace(w[j])
    requires rest == [] || IsSpace(rest[0])
    ensures Word(w + rest) == w
  {
    if w != [] {
      assert (w + rest)[1..] == w[1..] + rest;
      WordOfAppend(w[1..], rest);
      assert w == [w[0]] + w[1..];
    } else {
      assert w + rest == rest;
    }
  }

  /** Splitting words joined by single spaces gives the words back. */
  lemma {:induction false} SplitJoin(ws: seq<string>)
    requires forall i :: 0 <= i < |ws| ==> SpaceFree(ws[i])
    ensures Split(Join(ws, " ")) == ws
  {
    if |ws| == 1 {
      var w := ws[0];
      WordOfAppend(w, []);
      assert w + [] == w;
      assert w[|w|..] == [];
    } else if |ws| > 1 {
      var w := ws[0];
      var rest := Join(ws[1..], " ");
      SplitJoin(ws[1..]);
      var s := w + " " + rest;
      assert s == w + (" " + rest);
      WordOfAppend(w, " " + rest);
      assert s[0] == w[0];
      assert s[|w|..] == " " + rest;
      assert (" " + rest)[1..] == rest;
      assert ws == [w] + ws[1..];
    }
  }

  /** `pat` is a prefix of `s`. */
  predicate StartsWith(s: string, pat: string) {
    |pat| <= |s| && s[..|pat|] == pat
  }

  /** `pat` occurs in `s` starting at index `i`. */
  predicate OccursAt(s: string, pat: string, i: int) {
    0 <= i && i + |pat| <= |s| && s[i..i + |pat|] == pat
  }

  /** Python's `pat in s` on strings, by a left-to-right scan. */
  function Contains(s: string, pat: string): (r: bool)
    ensures r <==> exists i :: OccursAt(s, pat, i)
  {
    if StartsWith(s, pat) then
      assert OccursAt(s, pat, 0);
      true
    else if s == [] then
      false
    else
      var r := Contains(s[1..], pat);
      assert r ==> exists i :: OccursAt(s, pat, i) by {
        if r {
          var i :| OccursAt(s[1..], pat, i);
          assert s[i + 1..i + 1 + |pat|] == s[1..][i..i + |pat|];
          assert OccursAt(s, pat, i + 1);
        }
      }
      assert (exists i :: OccursAt(s, pat, i)) ==> r by {
        if i :| OccursAt(s, pat, i) {
          assert i != 0;
          assert s[1..][i - 1..i - 1 + |pat|] == s[i..i + |pat|];
          assert OccursAt(s[1..], pat, i - 1);
        }
      }
      r
  }
}
