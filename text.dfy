/**
 * The string operations the application relies on, with JavaScript's meaning:
 * `\s` and `trim`, `toLowerCase`, `startsWith`, `endsWith`, `includes`,
 * `split(/\s+/)` and `join(" ")`.
 */
module Text {

  /** The characters `\s` matches in a JavaScript regular expression; `trim` strips the same set. */
  predicate IsSpace(c: char) {
    c == ' ' || c == '\t' || c == '\n' || c == '\r' || c == '\U{B}' || c == '\U{C}'
    || c == '\U{A0}' || c == '\U{1680}' || ('\U{2000}' <= c <= '\U{200A}')
    || c == '\U{2028}' || c == '\U{2029}' || c == '\U{202F}' || c == '\U{205F}'
    || c == '\U{3000}' || c == '\U{FEFF}'
  }

  predicate HasNoSpace(s: string) {
    forall i :: 0 <= i < |s| ==> !IsSpace(s[i])
  }

  predicate AllSpace(s: string) {
    forall i :: 0 <= i < |s| ==> IsSpace(s[i])
  }

  // ---------------------------------------------------------------- case

  /** `toLowerCase` on one character; only the ASCII and Latin-1 capitals are mapped. */
  function LowerChar(c: char): (r: char)
    ensures IsSpace(r) == IsSpace(c)
    ensures r == c || ('a' <= r <= 'z') || ('\U{E0}' <= r <= '\U{FE}')
  {
    if 'A' <= c <= 'Z' || ('\U{C0}' <= c <= '\U{DE}' && c != '\U{D7}') then (c as int + 32) as char else c
  }

  lemma LowerCharIdempotent(c: char)
    ensures LowerChar(LowerChar(c)) == LowerChar(c)
  {
  }

  /** `s.toLowerCase()`. */
  function Lower(s: string): (r: string)
    ensures |r| == |s|
    ensures forall i :: 0 <= i < |s| ==> r[i] == LowerChar(s[i])
  {
    seq(|s|, i requires 0 <= i < |s| => LowerChar(s[i]))
  }

  predicate IsLowerCase(s: string) {
    Lower(s) == s
  }

  lemma LowerIdempotent(s: string)
    ensures IsLowerCase(Lower(s))
  {
    forall i | 0 <= i < |s| ensures Lower(Lower(s))[i] == Lower(s)[i] {
      LowerCharIdempotent(s[i]);
    }
  }

  lemma LowerConcat(a: string, b: string)
    ensures Lower(a + b) == Lower(a) + Lower(b)
  {
  }

  lemma LowerSlices(s: string, k: nat)
    requires k <= |s|
    ensures Lower(s)[..k] == Lower(s[..k]) && Lower(s)[k..] == Lower(s[k..])
  {
  }

  /** Lower-casing keeps words free of whitespace. */
  lemma LowerKeepsNoSpace(s: string)
    requires HasNoSpace(s)
    ensures HasNoSpace(Lower(s))
  {
  }

  // ---------------------------------------------------------------- prefixes and substrings

  /** `s.startsWith(p)`. */
  predicate StartsWith(s: string, p: string) {
    |p| <= |s| && s[..|p|] == p
  }

  /** `s.endsWith(p)`. */
  predicate EndsWith(s: string, p: string) {
    |p| <= |s| && s[|s| - |p|..] == p
  }

  /** `s.includes(q)`: `q` occurs in `s` at some position. */
  predicate Contains(s: string, q: string)
    decreases |s|
  {
    StartsWith(s, q) || (s != [] && Contains(s[1..], q))
  }

  /** A string that contains `q` followed by `c` contains `q`. */
  lemma {:induction false} ContainsShorter(s: string, q: string, c: char)
    requires Contains(s, q + [c])
    ensures Contains(s, q)
    decreases |s|
  {
    if StartsWith(s, q + [c]) {
      assert s[..|q|] == s[..|q| + 1][..|q|] == (q + [c])[..|q|] == q;
    } else {
      ContainsShorter(s[1..], q, c);
    }
  }

  /** `includes` survives lower-casing both sides. */
  lemma {:induction false} ContainsLower(s: string, q: string)
    requires Contains(s, q)
    ensures Contains(Lower(s), Lower(q))
    decreases |s|
  {
    if StartsWith(s, q) {
      LowerSlices(s, |q|);
    } else {
      ContainsLower(s[1..], q);
      LowerSlices(s, 1);
    }
  }

  // ---------------------------------------------------------------- trim

  /** Drops leading whitespace. */
  function TrimStart(s: string): (r: string)
    ensures |r| <= |s| && r == s[|s| - |r|..]
    ensures r == [] || !IsSpace(r[0])
    ensures forall i :: 0 <= i < |s| - |r| ==> IsSpace(s[i])
    decreases |s|
  {
    if s != [] && IsSpace(s[0]) then TrimStart(s[1..]) else s
  }

  /** Drops trailing whitespace. */
  function TrimEnd(s: string): (r: string)
    ensures |r| <= |s| && r == s[..|r|]
    ensures r == [] || !IsSpace(r[|r| - 1])
    ensures forall i :: |r| <= i < |s| ==> IsSpace(s[i])
    decreases |s|
  {
    if s != [] && IsSpace(s[|s| - 1]) then TrimEnd(s[..|s| - 1]) else s
  }

  /** `s.trim()`. */
  function Trim(s: string): (r: string) {
    TrimEnd(TrimStart(s))
  }

  /** A string that neither starts nor ends with whitespace is its own trim. */
  lemma TrimOfTrimmed(s: string)
    requires s == [] || (!IsSpace(s[0]) && !IsSpace(s[|s| - 1]))
    ensures Trim(s) == s
  {
  }

  /** `trim` removes whitespace only at the two ends, and nothing is left to remove. */
  lemma TrimShape(s: string)
    ensures |Trim(s)| <= |s|
    ensures Trim(s) == [] || (!IsSpace(Trim(s)[0]) && !IsSpace(Trim(s)[|Trim(s)| - 1]))
  {
  }

  /** Trimming twice is trimming once. */
  lemma TrimIdempotent(s: string)
    ensures Trim(Trim(s)) == Trim(s)
  {
    TrimShape(s);
    TrimOfTrimmed(Trim(s));
  }

  /** A field is empty after `trim` exactly when it held only whitespace. */
  lemma {:induction false} TrimEmptyIffBlank(s: string)
    ensures Trim(s) == [] <==> AllSpace(s)
  {
    var a := TrimStart(s);
    if a != [] {
      assert !IsSpace(a[0]);
      assert !IsSpace(s[|s| - |a|]);
    }
  }

  // ---------------------------------------------------------------- split and join

  function Flush(word: string): seq<string> {
    if word == [] then [] else [word]
  }

  /**
   * The words of `s`, where `word` holds the characters of the word being read. This is
   * `s.split(/\s+/)` without the empty strings that JavaScript's split yields before a leading
   * and after a trailing run of whitespace; every caller discards those empty strings anyway.
   */
  function SplitFrom(s: string, word: string): (r: seq<string>)
    requires HasNoSpace(word)
    ensures forall i :: 0 <= i < |r| ==> r[i] != [] && HasNoSpace(r[i])
    decreases |s|
  {
    if s == [] then Flush(word)
    else if IsSpace(s[0]) then Flush(word) + SplitFrom(s[1..], [])
    else SplitFrom(s[1..], word + [s[0]])
  }

  /** The maximal runs of non-whitespace characters of `s`, in order. */
  function Words(s: string): (r: seq<string>)
    ensures forall i :: 0 <= i < |r| ==> r[i] != [] && HasNoSpace(r[i])
  {
    SplitFrom(s, [])
  }

  /** `ws.join(" ")`. */
  function JoinWords(ws: seq<string>): (r: string)
    decreases |ws|
  {
    if ws == [] then []
    else if |ws| == 1 then ws[0]
    else ws[0] + " " + JoinWords(ws[1..])
  }

  /** Splitting at a whitespace character splits the two sides independently. */
  lemma {:induction false} SplitAcrossSpace(a: string, c: char, b: string, word: string)
    requires IsSpace(c) && HasNoSpace(word)
    ensures SplitFrom(a + [c] + b, word) == SplitFrom(a, word) + Words(b)
    decreases |a|
  {
    if a == [] {
      assert a + [c] + b == [c] + b;
      assert ([c] + b)[1..] == b;
    } else {
      assert (a + [c] + b)[1..] == a[1..] + [c] + b;
      if IsSpace(a[0]) {
        SplitAcrossSpace(a[1..], c, b, []);
      } else {
        SplitAcrossSpace(a[1..], c, b, word + [a[0]]);
      }
    }
  }

  /** A run of non-whitespace characters is one word. */
  lemma {:induction false} SplitOneWord(w: string, word: string)
    requires HasNoSpace(w) && HasNoSpace(word) && word + w != []
    ensures SplitFrom(w, word) == [word + w]
    decreases |w|
  {
    if w != [] {
      assert !IsSpace(w[0]);
      SplitOneWord(w[1..], word + [w[0]]);
      assert w == [w[0]] + w[1..];
      assert (word + [w[0]]) + w[1..] == word + w;
    } else {
      assert word + w == word;
    }
  }

  /** `split` undoes `join(" ")` on non-empty words without whitespace. */
  lemma {:induction false} WordsOfJoin(ws: seq<string>)
    requires forall i :: 0 <= i < |ws| ==> ws[i] != [] && HasNoSpace(ws[i])
    ensures Words(JoinWords(ws)) == ws
    decreases |ws|
  {
    if |ws| == 1 {
      SplitOneWord(ws[0], []);
      assert [] + ws[0] == ws[0];
    } else if |ws| > 1 {
      SplitAcrossSpace(ws[0], ' ', JoinWords(ws[1..]), []);
      assert ws[0] + " " + JoinWords(ws[1..]) == ws[0] + [' '] + JoinWords(ws[1..]);
      SplitOneWord(ws[0], []);
      assert [] + ws[0] == ws[0];
      WordsOfJoin(ws[1..]);
      assert [ws[0]] + ws[1..] == ws;
    }
  }

  /** The joined string starts with the first word and ends with the last one. */
  lemma {:induction false} JoinWordsEnds(ws: seq<string>)
    requires forall i :: 0 <= i < |ws| ==> ws[i] != []
    ensures ws == [] <==> JoinWords(ws) == []
    ensures ws != [] ==> JoinWords(ws)[0] == ws[0][0]
    ensures ws != [] ==> JoinWords(ws)[|JoinWords(ws)| - 1] == ws[|ws| - 1][|ws[|ws| - 1]| - 1]
    decreases |ws|
  {
    if |ws| > 1 {
      JoinWordsEnds(ws[1..]);
    }
  }
}
