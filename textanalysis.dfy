/** The two text heuristics of the AI bridge: keyword extraction from a
    prompt and keyword-based language detection of a code snippet. */
module TextAnalysis {
  import opened Strings

  /** `\w` of a non-Unicode regular expression: ASCII letters, digits, `_`. */
  predicate IsWordChar(c: char) {
    'a' <= c <= 'z' || 'A' <= c <= 'Z' || '0' <= c <= '9' || c == '_'
  }

  predicate AllWordChars(s: string) {
    forall i :: 0 <= i < |s| ==> IsWordChar(s[i])
  }

  /** The longest prefix of `s` made of word characters. */
  function WordPrefix(s: string): (w: string)
    ensures w <= s && AllWordChars(w)
    ensures |w| < |s| ==> !IsWordChar(s[|w|])
  {
    if |s| == 0 || !IsWordChar(s[0]) then [] else [s[0]] + WordPrefix(s[1..])
  }

  /** `s` without its leading run of non-word characters. */
  function DropSeparators(s: string): (r: string)
    ensures |r| <= |s| && r == s[|s| - |r|..]
    ensures |s| > 0 && !IsWordChar(s[0]) ==> |r| < |s|
    ensures |r| > 0 ==> IsWordChar(r[0])
  {
    if |s| == 0 || IsWordChar(s[0]) then s else DropSeparators(s[1..])
  }

  /** `s.split(/\W+/)`: the text between maximal runs of non-word
      characters, including the empty piece before a leading run and after
      a trailing one. */
  function SplitWords(s: string): (pieces: seq<string>)
    ensures |pieces| > 0
    ensures forall i :: 0 <= i < |pieces| ==> AllWordChars(pieces[i])
    decreases |s|
  {
    var w := WordPrefix(s);
    if |w| == |s| then [w] else [w] + SplitWords(DropSeparators(s[|w|..]))
  }

  /** Splitting a string that has no separator gives it back whole. */
  lemma SplitWordOnly(s: string)
    requires AllWordChars(s)
    ensures SplitWords(s) == [s]
  {
    assert WordPrefix(s) == s by {
      WordPrefixOfWordOnly(s);
    }
  }

  lemma {:induction false} WordPrefixOfWordOnly(s: string)
    requires AllWordChars(s)
    ensures WordPrefix(s) == s
    decreases |s|
  {
    if |s| > 0 {
      WordPrefixOfWordOnly(s[1..]);
    }
  }

  /** Splitting undoes joining: non-empty words glued with single spaces
      split back into the same words. */
  lemma {:induction false} SplitJoinRoundTrip(words: seq<string>)
    requires |words| > 0
    requires forall i :: 0 <= i < |words| ==> |words[i]| > 0 && AllWordChars(words[i])
    ensures SplitWords(Join(words, " ")) == words
    decreases |words|
  {
    if |words| == 1 {
      SplitWordOnly(words[0]);
    } else {
      var rest := Join(words[1..], " ");
      JoinStartsWithWord(words[1..]);
      SplitAfterWord(words[0], rest);
      SplitJoinRoundTrip(words[1..]);
    }
  }

  /** One step of the round trip: a word, a space, then text starting
      with a word character. */
  lemma SplitAfterWord(w: string, rest: string)
    requires |w| > 0 && AllWordChars(w)
    requires |rest| > 0 && IsWordChar(rest[0])
    ensures SplitWords(w + " " + rest) == [w] + SplitWords(rest)
  {
    var s := w + " " + rest;
    WordPrefixThenSeparator(w, " " + rest);
    assert s == w + (" " + rest);
    assert s[|w|..] == " " + rest;
    assert (" " + rest)[1..] == rest;
    assert DropSeparators(" " + rest) == rest;
  }

  lemma {:induction false} WordPrefixThenSeparator(w: string, t: string)
    requires AllWordChars(w) && |t| > 0 && !IsWordChar(t[0])
    ensures WordPrefix(w + t) == w
    decreases |w|
  {
    if |w| > 0 {
      assert (w + t)[1..] == w[1..] + t;
      WordPrefixThenSeparator(w[1..], t);
    }
  }

  lemma JoinStartsWithWord(words: seq<string>)
    requires |words| > 0 && |words[0]| > 0 && AllWordChars(words[0])
    ensures |Join(words, " ")| > 0 && IsWordChar(Join(words, " ")[0])
  {
    if |words| > 1 {
      assert Join(words, " ") == words[0] + " " + Join(words[1..], " ");
    }
  }

  function Stopwords(): seq<string>
  {
    ["the", "and", "or", "in", "on", "at", "to", "a", "an", "for", "with", "by"]
  }

  predicate IsKeyword(w: string) {
    |w| > 2 && w !in Stopwords()
  }

  /** The pieces that qualify as keywords, in order. */
  function Qualifying(words: seq<string>): (r: seq<string>)
    ensures |r| <= |words|
    ensures forall w :: w in r <==> w in words && IsKeyword(w)
  {
    if |words| == 0 then []
    else if IsKeyword(words[0]) then [words[0]] + Qualifying(words[1..])
    else Qualifying(words[1..])
  }

  /** `extractKeywords`: lower-case, split on non-word runs, drop short
      words and stopwords, keep the first five. */
  function ExtractKeywords(text: string): (r: seq<string>)
    ensures |r| <= 5
    ensures forall w :: w in r ==> IsKeyword(w)
  {
    var q := Qualifying(SplitWords(ToLower(text)));
    if |q| <= 5 then q else q[..5]
  }

  /** At most five keywords, each a lower-case run of word characters longer
      than two and not a stopword; they are the first qualifying words of
      the text in their order, and all of them when there are at most five. */
  lemma ExtractKeywordsSpec(text: string)
    ensures var r := ExtractKeywords(text);
      var q := Qualifying(SplitWords(ToLower(text)));
      && |r| == (if |q| <= 5 then |q| else 5)
      && r <= q
      && (|q| <= 5 ==> r == q)
      && (forall w :: w in r ==>
            |w| > 2 && w !in Stopwords() && IsLowerCase(w) && AllWordChars(w))
  {
    KeywordsArePieces(text);
  }

  /** Every keyword is a lower-case run of word characters. */
  lemma KeywordsArePieces(text: string)
    ensures forall w :: w in ExtractKeywords(text) ==> IsLowerCase(w) && AllWordChars(w)
  {
    var lower := ToLower(text);
    var words := SplitWords(lower);
    SplitPiecesLowerCase(lower);
    forall w | w in ExtractKeywords(text)
      ensures IsLowerCase(w) && AllWordChars(w)
    {
      assert w in Qualifying(words);
      var i :| 0 <= i < |words| && words[i] == w;
    }
  }

  /** The pieces of a lower-case string are lower-case. */
  lemma {:induction false} SplitPiecesLowerCase(s: string)
    requires IsLowerCase(s)
    ensures forall i :: 0 <= i < |SplitWords(s)| ==> IsLowerCase(SplitWords(s)[i])
    decreases |s|
  {
    var w := WordPrefix(s);
    if |w| < |s| {
      var t := DropSeparators(s[|w|..]);
      assert IsLowerCase(t);
      SplitPiecesLowerCase(t);
    }
  }

  // ---------------------------------------------------------------------
  // detectCodeLanguage

  /** The languages in the order their tests are tried. */
  function Languages(): seq<string>
  {
    ["javascript", "python", "java", "c", "go"]
  }

  /** The test for language number `k` of `Languages()`. */
  predicate Signals(k: nat, code: string)
    requires k < |Languages()|
  {
    match k
    case 0 => Contains(code, "import React") || (Contains(code, "function") && Contains(code, "return"))
    case 1 => Contains(code, "def ") && Contains(code, ":")
    case 2 => Contains(code, "class ") && Contains(code, "{") && Contains(code, "public")
    case 3 => Contains(code, "#include") && Contains(code, "int main")
    case _ => Contains(code, "func ") && Contains(code, "package main")
  }

  /** `detectCodeLanguage`, as the chain of guarded returns it is. */
  function DetectCodeLanguage(code: string): (r: string)
    ensures r in Languages() || r == "unknown"
  {
    if Contains(code, "import React") || (Contains(code, "function") && Contains(code, "return")) then "javascript"
    else if Contains(code, "def ") && Contains(code, ":") then "python"
    else if Contains(code, "class ") && Contains(code, "{") && Contains(code, "public") then "java"
    else if Contains(code, "#include") && Contains(code, "int main") then "c"
    else if Contains(code, "func ") && Contains(code, "package main") then "go"
    else "unknown"
  }

  /** The chain names the first language, in table order, whose test the
      code passes, and "unknown" exactly when it passes none. */
  lemma DetectIsFirstSignal(code: string)
    ensures var r := DetectCodeLanguage(code);
      && (r == "unknown" <==> forall k :: 0 <= k < |Languages()| ==> !Signals(k, code))
      && (r != "unknown" ==>
            exists k :: (0 <= k < |Languages()| && Languages()[k] == r && Signals(k, code)
                         && forall j :: 0 <= j < k ==> !Signals(j, code)))
  {
    var r := DetectCodeLanguage(code);
    var langs := Languages();
    if Signals(0, code) {
      assert r == langs[0];
    } else if Signals(1, code) {
      assert r == langs[1];
    } else if Signals(2, code) {
      assert r == langs[2];
    } else if Signals(3, code) {
      assert r == langs[3];
    } else if Signals(4, code) {
      assert r == langs[4];
    } else {
      forall k | 0 <= k < |langs| ensures !Signals(k, code) {
        assert k == 0 || k == 1 || k == 2 || k == 3 || k == 4;
      }
    }
  }
}
