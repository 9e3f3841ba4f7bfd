/**
 * The feature indexes of the indexer (feature value -> sorted urls) and the
 * list of all feature names. A feature is looked up under its aliases; the
 * multi-valued features (colors, sizes, flavors) are split on the
 * separators "and", "or" and "," before tokenizing, every other feature
 * value becomes one key made of its concatenated tokens.
 */
module Features {
  import opened Text
  import opened Tokenizer
  import opened Ordering
  import opened Indexer

  /** `feature_mappings.get(feature_name, [feature_name])`. */
  function Aliases(name: string): seq<string> {
    if name == "origin" then ["made in"]
    else if name == "sizes" then ["sizes", "size"]
    else if name == "flavors" then ["flavors", "flavor"]
    else if name == "care_instructions" then ["care_instructions", "care instructions"]
    else [name]
  }

  /**
   * The value under the first alias present in `features`, even when that
   * value is empty; the empty string when no alias is present.
   */
  function FirstPresent(features: map<string, string>, keys: seq<string>): (v: string)
    ensures (forall i :: 0 <= i < |keys| ==> keys[i] !in features) ==> v == ""
    ensures forall i :: 0 <= i < |keys| && keys[i] in features && (forall j :: 0 <= j < i ==> keys[j] !in features) ==>
                          v == features[keys[i]]
  {
    if keys == [] then ""
    else if keys[0] in features then features[keys[0]]
    else
      var v := FirstPresent(features, keys[1..]);
      assert forall i :: 1 <= i < |keys| ==> keys[1..][i - 1] == keys[i];
      v
  }

  /** The features whose value lists several values. */
  predicate IsMultiValue(name: string) {
    name == "colors" || name == "sizes" || name == "flavors"
  }

  // ---------------------------------------------------------------------
  // Splitting multi-valued features: `re.split(r'\s+and\s+|\s+or\s+|,\s*', v)`

  /** The length of the whitespace run at the start of `s`. */
  function SpaceRun(s: string): (n: nat)
    ensures n <= |s|
  {
    if s != [] && IsSpace(s[0]) then 1 + SpaceRun(s[1..]) else 0
  }

  /** `SpaceRun` is the whole run: whitespace up to it, none right after it. */
  lemma {:induction false} SpaceRunMaximal(s: string)
    ensures forall i :: 0 <= i < SpaceRun(s) ==> IsSpace(s[i])
    ensures SpaceRun(s) < |s| ==> !IsSpace(s[SpaceRun(s)])
  {
    if s != [] && IsSpace(s[0]) {
      SpaceRunMaximal(s[1..]);
      assert forall i :: 1 <= i < SpaceRun(s) ==> s[i] == s[1..][i - 1];
    }
  }

  /**
   * The length of the separator match at the start of `s`, or 0. A comma
   * takes the whitespace after it; a whitespace run counts only when "and"
   * or "or" and a second whitespace run follow it. Each run is taken whole,
   * as the regular expression must: the letters or the comma that follow a
   * run cannot be whitespace. A comma and whitespace cannot both start `s`,
   * so the order of the alternatives does not matter.
   */
  function SeparatorLength(s: string): (n: nat)
    ensures n <= |s|
  {
    if s == [] then 0
    else if s[0] == ',' then 1 + SpaceRun(s[1..])
    else if IsSpace(s[0]) then
      var a := SpaceRun(s);
      var t := s[a..];
      if |t| >= 3 && t[0] == 'a' && t[1] == 'n' && t[2] == 'd' && SpaceRun(t[3..]) > 0 then a + 3 + SpaceRun(t[3..])
      else if |t| >= 2 && t[0] == 'o' && t[1] == 'r' && SpaceRun(t[2..]) > 0 then a + 2 + SpaceRun(t[2..])
      else 0
    else 0
  }

  /**
   * The pieces between separator matches, scanning left to right; like
   * `re.split` it keeps empty pieces, so there is always at least one.
   */
  function SplitPieces(s: string): (ps: seq<string>)
    ensures |ps| >= 1
    decreases |s|
  {
    if s == [] then [""]
    else
      var n := SeparatorLength(s);
      if n > 0 then [""] + SplitPieces(s[n..])
      else
        var rest := SplitPieces(s[1..]);
        [[s[0]] + rest[0]] + rest[1..]
  }

  /** No piece holds a comma: every comma starts a separator. */
  lemma {:induction false} PiecesHaveNoComma(s: string)
    ensures forall i, j :: 0 <= i < |SplitPieces(s)| && 0 <= j < |SplitPieces(s)[i]| ==> SplitPieces(s)[i][j] != ','
    decreases |s|
  {
    if s != [] {
      var n := SeparatorLength(s);
      if n > 0 {
        PiecesHaveNoComma(s[n..]);
        var rest := SplitPieces(s[n..]);
        assert SplitPieces(s) == [""] + rest;
        assert forall i :: 1 <= i < |SplitPieces(s)| ==> SplitPieces(s)[i] == rest[i - 1];
      } else {
        PiecesHaveNoComma(s[1..]);
        var rest := SplitPieces(s[1..]);
        var ps := SplitPieces(s);
        assert ps == [[s[0]] + rest[0]] + rest[1..];
        forall i, j | 0 <= i < |ps| && 0 <= j < |ps[i]| ensures ps[i][j] != ',' {
          if i == 0 {
            if j > 0 {
              assert ps[0][j] == rest[0][j - 1];
            }
          } else {
            assert ps[i] == rest[i];
          }
        }
      }
    }
  }

  /** Text without any separator match is one piece. */
  lemma {:induction false} NoSeparatorOnePiece(s: string)
    requires forall i :: 0 <= i < |s| ==> SeparatorLength(s[i..]) == 0
    ensures SplitPieces(s) == [s]
    decreases |s|
  {
    if s != [] {
      assert s[0..] == s;
      forall i | 0 <= i < |s[1..]| ensures SeparatorLength(s[1..][i..]) == 0 {
        assert s[1..][i..] == s[i + 1..];
      }
      NoSeparatorOnePiece(s[1..]);
      assert s == [s[0]] + s[1..];
    }
  }

  /** A character that can start no separator. */
  predicate Plain(c: char) {
    !IsSpace(c) && c != ','
  }

  /** A piece goes on while no separator starts, and a plain character starts none. */
  lemma PlainExtendsPiece(s: string)
    requires s != [] && Plain(s[0])
    ensures SplitPieces(s) == [[s[0]] + SplitPieces(s[1..])[0]] + SplitPieces(s[1..])[1..]
  {
  }

  /** A run of plain characters is the start of the first piece. */
  lemma PlainRun(a: string, rest: string)
    requires forall i :: 0 <= i < |a| ==> Plain(a[i])
    ensures SplitPieces(a + rest) == [a + SplitPieces(rest)[0]] + SplitPieces(rest)[1..]
  {
    var s := a + rest;
    PlainPrefix(s, |a|);
    assert s[..|a|] == a && s[|a|..] == rest;
  }

  /** The first `n` characters of `s`, all plain, start its first piece. */
  lemma {:induction false} PlainPrefix(s: string, n: nat)
    requires n <= |s| && forall i :: 0 <= i < n ==> Plain(s[i])
    ensures SplitPieces(s) == [s[..n] + SplitPieces(s[n..])[0]] + SplitPieces(s[n..])[1..]
  {
    if n == 0 {
      assert s[..0] == [] && s[0..] == s;
      var ps := SplitPieces(s);
      assert [] + ps[0] == ps[0];
      assert [ps[0]] + ps[1..] == ps;
    } else {
      var t := s[1..];
      PlainPrefix(t, n - 1);
      assert t[n - 1..] == s[n..];
      PlainExtendsPiece(s);
      var ps := SplitPieces(s[n..]);
      GlueHead(s[0], t[..n - 1], SplitPieces(t), ps);
      assert [s[0]] + t[..n - 1] == s[..n];
    }
  }

  /** Putting `c` before the first piece of `[tail + ps[0]] + ps[1..]`. */
  lemma GlueHead(c: char, tail: string, qs: seq<string>, ps: seq<string>)
    requires |ps| >= 1 && qs == [tail + ps[0]] + ps[1..]
    ensures [[c] + qs[0]] + qs[1..] == [[c] + tail + ps[0]] + ps[1..]
  {
    assert [c] + (tail + ps[0]) == [c] + tail + ps[0];
  }

  /** Pieces joined by ", " start with a plain character or a comma. */
  lemma JoinedStart(ws: seq<string>)
    requires forall i, j :: 0 <= i < |ws| && 0 <= j < |ws[i]| ==> Plain(ws[i][j])
    ensures Join(ws, ", ") == [] || !IsSpace(Join(ws, ", ")[0])
  {
    if |ws| > 1 && ws[0] == [] {
      assert Join(ws, ", ")[0] == ',';
    }
  }

  /** ", " before text that does not start with whitespace is one separator. */
  lemma CommaSeparator(j: string)
    requires j == [] || !IsSpace(j[0])
    ensures SplitPieces(", " + j) == [""] + SplitPieces(j)
  {
    var tail := ", " + j;
    assert tail[1..] == " " + j;
    assert SpaceRun(" " + j) == 1 by {
      assert (" " + j)[1..] == j;
    }
    assert SeparatorLength(tail) == 2;
    assert tail[2..] == j;
  }

  lemma JoinCons(w: string, rest: seq<string>, sep: string)
    requires rest != []
    ensures Join([w] + rest, sep) == w + (sep + Join(rest, sep))
  {
    assert ([w] + rest)[1..] == rest;
  }

  /** One more value in front of a list that already round-trips. */
  lemma JoinPiecesStep(w: string, rest: seq<string>)
    requires forall j :: 0 <= j < |w| ==> Plain(w[j])
    requires rest != [] && SplitPieces(Join(rest, ", ")) == rest
    requires Join(rest, ", ") == [] || !IsSpace(Join(rest, ", ")[0])
    ensures SplitPieces(Join([w] + rest, ", ")) == [w] + rest
  {
    var j := Join(rest, ", ");
    var tail := ", " + j;
    CommaSeparator(j);
    PlainRun(w, tail);
    JoinCons(w, rest, ", ");
    var p := SplitPieces(tail);
    assert p == [""] + rest;
    assert p[0] == "" && p[1..] == rest;
    assert w + "" == w;
  }

  /**
   * Round trip: values free of whitespace and commas, joined by ", ", split
   * back into the same values (empty values included).
   */
  lemma {:induction false} SplitJoinPieces(ws: seq<string>)
    requires ws != []
    requires forall i, j :: 0 <= i < |ws| && 0 <= j < |ws[i]| ==> Plain(ws[i][j])
    ensures SplitPieces(Join(ws, ", ")) == ws
  {
    var w := ws[0];
    assert forall j :: 0 <= j < |w| ==> Plain(w[j]);
    if |ws| == 1 {
      PlainRun(w, []);
      assert SplitPieces([]) == [""];
      assert w + [] == w && w + "" == w;
    } else {
      var rest := ws[1..];
      assert forall i, j :: 0 <= i < |rest| && 0 <= j < |rest[i]| ==> Plain(rest[i][j]) by {
        forall i, j | 0 <= i < |rest| && 0 <= j < |rest[i]| ensures Plain(rest[i][j]) {
          assert rest[i] == ws[i + 1];
        }
      }
      SplitJoinPieces(rest);
      JoinedStart(rest);
      assert [w] + rest == ws;
      JoinPiecesStep(w, rest);
    }
  }

  /** " and " before text that does not start with whitespace is one separator. */
  lemma AndSeparator(j: string)
    requires j == [] || !IsSpace(j[0])
    ensures SplitPieces(" and " + j) == [""] + SplitPieces(j)
  {
    var tail := " and " + j;
    assert SpaceRun(tail) == 1 by {
      assert tail[1..] == "and " + j;
    }
    var t := tail[1..];
    assert t == "and " + j;
    assert t[3..] == " " + j;
    assert SpaceRun(" " + j) == 1 by {
      assert (" " + j)[1..] == j;
    }
    assert SeparatorLength(tail) == 5;
    assert tail[5..] == j;
  }

  /** Two plain values joined by " and " split into the two values: "red and blue". */
  lemma SplitOnAnd(a: string, b: string)
    requires forall i :: 0 <= i < |a| ==> Plain(a[i])
    requires b != [] && forall i :: 0 <= i < |b| ==> Plain(b[i])
    ensures SplitPieces(a + " and " + b) == [a, b]
  {
    PlainRun(b, []);
    assert b + [] == b;
    assert SplitPieces(b) == [b + ""] + [""][1..];
    assert b + "" == b;
    AndSeparator(b);
    PlainRun(a, " and " + b);
    assert a + " and " + b == a + (" and " + b);
    assert a + "" == a;
  }

  // ---------------------------------------------------------------------
  // Keys

  /** Up to two tokens are glued together, longer values keep their spaces. */
  function ValueKey(vt: seq<string>): string {
    if |vt| <= 2 then Concat(vt) else Join(vt, " ")
  }

  /** The key a piece contributes, if any. */
  function PieceKey(piece: string): seq<string> {
    var vt := IndexTokens(piece);
    if vt != [] && ValueKey(vt) != "" then [ValueKey(vt)] else []
  }

  /** The keys of a list of pieces, in order. */
  function PieceKeys(ps: seq<string>): seq<string>
    decreases |ps|
  {
    if ps == [] then [] else PieceKeys(ps[..|ps| - 1]) + PieceKey(ps[|ps| - 1])
  }

  /**
   * The keys one document contributes to the index of feature `name`. The
   * source has separate branches for brand/origin and for the remaining
   * single-valued features, but both concatenate the tokens.
   */
  function DocKeys(d: Document, name: string): seq<string> {
    var v := FirstPresent(d.features, Aliases(name));
    if v == "" then []
    else if IsMultiValue(name) then PieceKeys(SplitPieces(Lower(v)))
    else
      var key := Concat(IndexTokens(v));
      if key != "" then [key] else []
  }

  /** `AddKeys` over a whole key list. */
  function AddAll(m: UrlSets, u: string, keys: seq<string>): UrlSets {
    AddKeys(m, u, keys, |keys|)
  }

  /** `AddKeys` only reads the keys it is told to add. */
  lemma {:induction false} AddKeysPrefix(m: UrlSets, u: string, a: seq<string>, b: seq<string>, n: nat)
    requires n <= |a| && n <= |b| && a[..n] == b[..n]
    ensures AddKeys(m, u, a, n) == AddKeys(m, u, b, n)
  {
    if n > 0 {
      assert a[..n - 1] == a[..n][..n - 1] == b[..n][..n - 1] == b[..n - 1];
      assert a[n - 1] == a[..n][n - 1] == b[..n][n - 1] == b[n - 1];
      AddKeysPrefix(m, u, a, b, n - 1);
    }
  }

  /** Adding one more key is one more `AddUrl`. */
  lemma AddAllSnoc(m: UrlSets, u: string, keys: seq<string>, k: string)
    ensures AddAll(m, u, keys + [k]) == AddUrl(AddAll(m, u, keys), k, u)
  {
    AddKeysPrefix(m, u, keys + [k], keys, |keys|);
  }

  /** The set form of the index of feature `name`, document by document. */
  function FeatureSets(docs: seq<Document>, name: string): UrlSets
    decreases |docs|
  {
    if docs == [] then map[]
    else
      var d := docs[|docs| - 1];
      AddAll(FeatureSets(docs[..|docs| - 1], name), d.url, DocKeys(d, name))
  }

  /** The alias loop of `create_feature_index`: stop at the first alias present. */
  method LookUpValue(features: map<string, string>, aliases: seq<string>) returns (value: string)
    ensures value == FirstPresent(features, aliases)
  {
    value := "";
    var a := 0;
    while a < |aliases|
      invariant 0 <= a <= |aliases| && value == ""
      invariant forall j :: 0 <= j < a ==> aliases[j] !in features
    {
      if aliases[a] in features {
        value := features[aliases[a]];
        return;
      }
      a := a + 1;
    }
  }

  /** The piece loop of `create_feature_index` for a multi-valued feature. */
  method AddPieces(m0: UrlSets, url: string, values: seq<string>) returns (m: UrlSets)
    ensures m == AddAll(m0, url, PieceKeys(values))
  {
    m := m0;
    for j := 0 to |values|
      invariant m == AddAll(m0, url, PieceKeys(values[..j]))
    {
      assert values[..j + 1][..j] == values[..j];
      var ks := PieceKeys(values[..j]);
      assert PieceKeys(values[..j + 1]) == ks + PieceKey(values[j]);
      var vt := IndexTokens(values[j]);
      if vt != [] && ValueKey(vt) != "" {
        var key := ValueKey(vt);
        AddAllSnoc(m0, url, ks, key);
        m := AddUrl(m, key, url);
      } else {
        assert ks + PieceKey(values[j]) == ks;
      }
    }
    assert values[..|values|] == values;
  }

  /** `create_feature_index(documents, feature_name)`. */
  method CreateFeatureIndex(docs: seq<Document>, name: string) returns (r: map<string, seq<string>>)
    ensures Frozen(r, FeatureSets(docs, name))
  {
    var m: UrlSets := map[];
    var aliases := Aliases(name);
    for i := 0 to |docs|
      invariant m == FeatureSets(docs[..i], name)
    {
      assert docs[..i + 1][..i] == docs[..i];
      var d := docs[i];
      var value := LookUpValue(d.features, aliases);
      if value != "" {
        if IsMultiValue(name) {
          var values := SplitPieces(Lower(value));
          m := AddPieces(m, d.url, values);
        } else {
          var key := Concat(IndexTokens(value));
          if key != "" {
            AddAllSnoc(m, d.url, [], key);
            m := AddUrl(m, key, d.url);
          }
        }
      }
    }
    assert docs[..|docs|] == docs;
    r := SortedLists(m);
  }

  // ---------------------------------------------------------------------
  // What the feature index contains

  /** Some document with url `u` contributes `key` to the index of feature `name`. */
  ghost predicate Lists(docs: seq<Document>, name: string, key: string, u: string) {
    exists k :: 0 <= k < |docs| && docs[k].url == u && key in DocKeys(docs[k], name)
  }

  lemma ListsStep(docs: seq<Document>, name: string, key: string, u: string)
    requires docs != []
    ensures Lists(docs, name, key, u) <==>
              Lists(docs[..|docs| - 1], name, key, u) || (docs[|docs| - 1].url == u && key in DocKeys(docs[|docs| - 1], name))
  {
    var n := |docs| - 1;
    var init := docs[..n];
    assert docs == init + [docs[n]];
    if Lists(docs, name, key, u) {
      var k :| 0 <= k < |docs| && docs[k].url == u && key in DocKeys(docs[k], name);
      if k < n {
        assert init[k] == docs[k];
        assert Lists(init, name, key, u);
      }
    }
    if Lists(init, name, key, u) {
      var k :| 0 <= k < n && init[k].url == u && key in DocKeys(init[k], name);
      assert docs[k] == init[k];
    }
  }

  /**
   * The index of feature `name` holds url `u` under `key` iff some document
   * with url `u` contributes `key`; a key is present iff it has a url.
   */
  lemma {:induction false} FeatureSetsMembers(docs: seq<Document>, name: string)
    ensures forall key :: key in FeatureSets(docs, name) <==> UrlsOf(FeatureSets(docs, name), key) != {}
    ensures forall key, u :: u in UrlsOf(FeatureSets(docs, name), key) <==> Lists(docs, name, key, u)
  {
    if docs != [] {
      var n := |docs| - 1;
      var d := docs[n];
      var prev := FeatureSets(docs[..n], name);
      FeatureSetsMembers(docs[..n], name);
      var keys := DocKeys(d, name);
      AddKeysMembers(prev, d.url, keys, |keys|);
      assert keys[..|keys|] == keys;
      var s := FeatureSets(docs, name);
      forall key, u ensures u in UrlsOf(s, key) <==> Lists(docs, name, key, u) {
        ListsStep(docs, name, key, u);
      }
    }
  }

  lemma {:induction false} PieceKeysNonEmpty(ps: seq<string>)
    ensures "" !in PieceKeys(ps)
  {
    if ps != [] {
      PieceKeysNonEmpty(ps[..|ps| - 1]);
    }
  }

  /** The empty string is never a key of a feature index. */
  lemma NoEmptyKey(docs: seq<Document>, name: string)
    ensures "" !in FeatureSets(docs, name)
  {
    FeatureSetsMembers(docs, name);
    if "" in FeatureSets(docs, name) {
      var u :| u in UrlsOf(FeatureSets(docs, name), "");
      var k :| 0 <= k < |docs| && docs[k].url == u && "" in DocKeys(docs[k], name);
      DocKeysNonEmpty(docs[k], name);
    }
  }

  /** No document contributes the empty key. */
  lemma DocKeysNonEmpty(d: Document, name: string)
    ensures "" !in DocKeys(d, name)
  {
    var v := FirstPresent(d.features, Aliases(name));
    if v != "" && IsMultiValue(name) {
      PieceKeysNonEmpty(SplitPieces(Lower(v)));
    }
  }

  /** Gluing clean words together gives a clean word. */
  lemma {:induction false} ConcatClean(ws: seq<string>)
    requires ws != [] && forall i :: 0 <= i < |ws| ==> CleanWord(ws[i])
    ensures CleanWord(Concat(ws))
  {
    if |ws| > 1 {
      ConcatClean(ws[1..]);
      var a := ws[0];
      var b := Concat(ws[1..]);
      assert Concat(ws) == a + b;
      forall j | 0 <= j < |a + b| ensures !IsSpace((a + b)[j]) && !IsPunct((a + b)[j]) && !IsUpper((a + b)[j]) {
        if j >= |a| {
          assert (a + b)[j] == b[j - |a|];
        }
      }
    } else {
      assert Concat(ws) == ws[0] + [];
      assert ws[0] + [] == ws[0];
    }
  }

  /**
   * A single-valued feature (brand, origin, material, ...) gives at most one
   * key, and that key is one clean word: the value's tokens glued together.
   */
  lemma SingleValueKey(d: Document, name: string)
    requires !IsMultiValue(name)
    ensures |DocKeys(d, name)| <= 1
    ensures forall key :: key in DocKeys(d, name) ==> CleanWord(key)
  {
    var v := FirstPresent(d.features, Aliases(name));
    var toks := IndexTokens(v);
    TokenizeClean(v, Stopwords);
    if toks != [] {
      ConcatClean(toks);
    }
  }

  /**
   * A key of a multi-valued feature is one clean word (from up to two
   * tokens) or the tokens of its piece joined by single spaces, which
   * splitting the key gives back.
   */
  ghost predicate MultiKeyShape(key: string) {
    CleanWord(key) ||
    (|Split(key)| > 2 && Join(Split(key), " ") == key && forall i :: 0 <= i < |Split(key)| ==> CleanWord(Split(key)[i]))
  }

  lemma ValueKeyShape(vt: seq<string>)
    requires vt != [] && forall i :: 0 <= i < |vt| ==> CleanWord(vt[i])
    ensures MultiKeyShape(ValueKey(vt))
  {
    if |vt| <= 2 {
      ConcatClean(vt);
    } else {
      SplitJoin(vt);
    }
  }

  lemma {:induction false} PieceKeysShape(ps: seq<string>)
    ensures forall key :: key in PieceKeys(ps) ==> MultiKeyShape(key)
  {
    if ps != [] {
      var p := ps[|ps| - 1];
      PieceKeysShape(ps[..|ps| - 1]);
      TokenizeClean(p, Stopwords);
      if IndexTokens(p) != [] {
        ValueKeyShape(IndexTokens(p));
      }
    }
  }

  /** Every key a multi-valued feature (colors, sizes, flavors) gives has that shape. */
  lemma MultiValueKeys(d: Document, name: string)
    requires IsMultiValue(name)
    ensures forall key :: key in DocKeys(d, name) ==> MultiKeyShape(key)
  {
    var v := FirstPresent(d.features, Aliases(name));
    PieceKeysShape(SplitPieces(Lower(v)));
  }

  lemma LowerItaly()
    ensures Lower("Italy") == "italy"
  {
    var low := Lower("Italy");
    assert |low| == 5;
    assert low[0] == 'i' && low[1] == 't' && low[2] == 'a' && low[3] == 'l' && low[4] == 'y';
  }

  lemma StripItaly()
    ensures StripPunct("italy") == "italy"
  {
    assert "italy"[1..] == "taly" && "taly"[1..] == "aly" && "aly"[1..] == "ly" && "ly"[1..] == "y" && "y"[1..] == "";
  }

  lemma SplitItaly()
    ensures Split("italy") == ["italy"]
  {
    var w := ["italy"];
    assert SpaceFree(w[0]);
    SplitJoin(w);
  }

  lemma TokensItaly()
    ensures IndexTokens("Italy") == ["italy"]
  {
    LowerItaly();
    StripItaly();
    SplitItaly();
    assert "italy" !in Stopwords;
  }

  /** The origin index reads the "made in" feature. */
  lemma OriginExample(u: string)
    ensures DocKeys(Document(u, "", "", map["made in" := "Italy"], [], []), "origin") == ["italy"]
  {
    var d := Document(u, "", "", map["made in" := "Italy"], [], []);
    assert Aliases("origin") == ["made in"];
    assert "made in" in d.features;
    assert FirstPresent(d.features, ["made in"]) == "Italy";
    assert !IsMultiValue("origin");
    TokensItaly();
    assert Concat(["italy"]) == "italy" + Concat([]);
    assert "italy" + [] == "italy";
  }

  // ---------------------------------------------------------------------
  // Feature names

  /** The feature names of the first documents, as a set. */
  function FeatureNames(docs: seq<Document>): set<string>
    decreases |docs|
  {
    if docs == [] then {} else FeatureNames(docs[..|docs| - 1]) + docs[|docs| - 1].features.Keys
  }

  /** A name is collected iff some document has a feature by that name. */
  lemma {:induction false} FeatureNamesMembers(docs: seq<Document>)
    ensures forall k :: k in FeatureNames(docs) <==> exists i :: 0 <= i < |docs| && k in docs[i].features
  {
    if docs != [] {
      var n := |docs| - 1;
      FeatureNamesMembers(docs[..n]);
      forall k ensures k in FeatureNames(docs) <==> exists i :: 0 <= i < |docs| && k in docs[i].features {
        if k in FeatureNames(docs[..n]) {
          var i :| 0 <= i < n && k in docs[..n][i].features;
          assert docs[i] == docs[..n][i];
        }
        if i :| 0 <= i < |docs| && k in docs[i].features {
          if i < n {
            assert docs[..n][i] == docs[i];
          }
        }
      }
    }
  }

  /**
   * `extract_all_features(documents)`: every feature name used by some
   * document, once each, in sorted order.
   */
  method ExtractAllFeatures(docs: seq<Document>) returns (names: seq<string>)
    ensures StrictlySorted(names)
    ensures forall k :: k in names <==> exists i :: 0 <= i < |docs| && k in docs[i].features
  {
    var features: set<string> := {};
    for i := 0 to |docs|
      invariant features == FeatureNames(docs[..i])
    {
      assert docs[..i + 1][..i] == docs[..i];
      features := features + docs[i].features.Keys;
    }
    assert docs[..|docs|] == docs;
    FeatureNamesMembers(docs);
    names := SortedList(features);
    assert forall k :: k in names <==> k in Elems(names);
  }
}
