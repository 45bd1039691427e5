/**
 * The parts of Rust's `str` that mnemonic intake relies on: `char::is_whitespace`,
 * `trim` and `split_whitespace`, and the decimal rendering of a count.
 */
module Text {

  /** `char::is_whitespace`: the characters with the Unicode White_Space property. */
  const WHITE_SPACE: set<char> := {
    '\t', '\n', '\U{B}', '\U{C}', '\r', ' ', '\U{85}', '\U{A0}', '\U{1680}',
    '\U{2000}', '\U{2001}', '\U{2002}', '\U{2003}', '\U{2004}', '\U{2005}',
    '\U{2006}', '\U{2007}', '\U{2008}', '\U{2009}', '\U{200A}',
    '\U{2028}', '\U{2029}', '\U{202F}', '\U{205F}', '\U{3000}'
  }

  predicate IsWhitespace(c: char) {
    c in WHITE_SPACE
  }

  predicate AllWhitespace(s: string) {
    forall i :: 0 <= i < |s| ==> IsWhitespace(s[i])
  }

  predicate NoWhitespace(s: string) {
    forall i :: 0 <= i < |s| ==> !IsWhitespace(s[i])
  }

  /** `str::trim_start`: a suffix of `s` that does not start with white space. */
  function TrimStart(s: string): (r: string)
    ensures |r| <= |s| && r == s[|s| - |r|..]
    ensures r == [] || !IsWhitespace(r[0])
  {
    if |s| > 0 && IsWhitespace(s[0]) then TrimStart(s[1..]) else s
  }

  /** `str::trim_end`: a prefix of `s` that does not end with white space. */
  function TrimEnd(s: string): (r: string)
    ensures |r| <= |s| && r == s[..|r|]
    ensures r == [] || !IsWhitespace(r[|r| - 1])
  {
    if |s| > 0 && IsWhitespace(s[|s| - 1]) then TrimEnd(s[..|s| - 1]) else s
  }

  /**
   * `str::trim`: `s` with the white space at both ends removed, so that what
   * remains neither starts nor ends with white space.
   */
  function Trim(s: string): (r: string)
    ensures r == [] || (!IsWhitespace(r[0]) && !IsWhitespace(r[|r| - 1]))
    ensures exists i, j :: 0 <= i <= j <= |s| && r == s[i..j] && AllWhitespace(s[..i]) && AllWhitespace(s[j..])
  {
    var t := TrimStart(s);
    var r := TrimEnd(t);
    TrimStartDropsWhitespace(s);
    TrimEndDropsWhitespace(t);
    var i := |s| - |t|;
    assert r == s[i..i + |r|] && s[i + |r|..] == t[|r|..];
    r
  }

  /** `trim_start` drops white space only. */
  lemma {:induction false} TrimStartDropsWhitespace(s: string)
    ensures AllWhitespace(s[..|s| - |TrimStart(s)|])
  {
    if |s| > 0 && IsWhitespace(s[0]) {
      TrimStartDropsWhitespace(s[1..]);
      var k := |s| - |TrimStart(s)|;
      forall i | 0 <= i < k ensures IsWhitespace(s[..k][i]) {
        if i > 0 {
          assert s[..k][i] == s[1..][..k - 1][i - 1];
        }
      }
    }
  }

  /** `trim_end` drops white space only. */
  lemma {:induction false} TrimEndDropsWhitespace(s: string)
    ensures AllWhitespace(s[|TrimEnd(s)|..])
  {
    if |s| > 0 && IsWhitespace(s[|s| - 1]) {
      var p := s[..|s| - 1];
      TrimEndDropsWhitespace(p);
      assert s[|TrimEnd(s)|..] == p[|TrimEnd(p)|..] + [s[|s| - 1]];
    }
  }

  /** The length of the run of non-white-space characters that starts `s`. */
  function WordLength(s: string): (n: nat)
    ensures n <= |s|
    ensures NoWhitespace(s[..n])
    ensures n < |s| ==> IsWhitespace(s[n])
  {
    if s == [] || IsWhitespace(s[0]) then 0 else 1 + WordLength(s[1..])
  }

  /** `str::split_whitespace`: the maximal runs of non-white-space characters, in order. */
  function Words(s: string): (ws: seq<string>)
    decreases |s|
  {
    if s == [] then []
    else if IsWhitespace(s[0]) then Words(s[1..])
    else
      var n := WordLength(s);
      [s[..n]] + Words(s[n..])
  }

  /** Every word is non-empty and holds no white space. */
  lemma {:induction false} WordsAreWords(s: string)
    ensures ValidWords(Words(s))
    decreases |s|
  {
    if s == [] {
    } else if IsWhitespace(s[0]) {
      WordsAreWords(s[1..]);
    } else {
      WordsAreWords(s[WordLength(s)..]);
    }
  }

  /** A run that ends before the end of `a` is not lengthened by what follows `a`. */
  lemma {:induction false} WordLengthAppend(a: string, b: string)
    requires WordLength(a) < |a| || b == [] || IsWhitespace(b[0])
    ensures WordLength(a + b) == WordLength(a)
  {
    if a == [] {
    } else if IsWhitespace(a[0]) {
      assert (a + b)[0] == a[0];
    } else {
      assert (a + b)[1..] == a[1..] + b;
      WordLengthAppend(a[1..], b);
    }
  }

  /**
   * White space at the seam of a concatenation separates the words of the two
   * parts: no word is split across it or joined over it.
   */
  lemma {:induction false} WordsAppend(a: string, b: string)
    requires a == [] || b == [] || IsWhitespace(a[|a| - 1]) || IsWhitespace(b[0])
    ensures Words(a + b) == Words(a) + Words(b)
    decreases |a|, 1
  {
    if a == [] {
      assert a + b == b;
    } else if IsWhitespace(a[0]) {
      WordsAppendAfterSpace(a, b);
    } else {
      WordsAppendAfterWord(a, b);
    }
  }

  /** The case of `WordsAppend` where `a` starts with white space. */
  lemma {:induction false} WordsAppendAfterSpace(a: string, b: string)
    requires a != [] && IsWhitespace(a[0])
    requires b == [] || IsWhitespace(a[|a| - 1]) || IsWhitespace(b[0])
    ensures Words(a + b) == Words(a) + Words(b)
    decreases |a|, 0
  {
    assert (a + b)[0] == a[0];
    assert (a + b)[1..] == a[1..] + b;
    WordsAppend(a[1..], b);
  }

  /** The case of `WordsAppend` where `a` starts with a word. */
  lemma {:induction false} WordsAppendAfterWord(a: string, b: string)
    requires a != [] && !IsWhitespace(a[0])
    requires b == [] || IsWhitespace(a[|a| - 1]) || IsWhitespace(b[0])
    ensures Words(a + b) == Words(a) + Words(b)
    decreases |a|, 0
  {
    var n := WordLength(a);
    if n == |a| {
      assert !IsWhitespace(a[..n][n - 1]);
    }
    WordLengthAppend(a, b);
    assert (a + b)[0] == a[0];
    assert (a + b)[..n] == a[..n];
    assert (a + b)[n..] == a[n..] + b;
    if n < |a| {
      assert a[n..][|a[n..]| - 1] == a[|a| - 1];
    }
    WordsAppend(a[n..], b);
  }

  /** White space alone holds no words. */
  lemma {:induction false} WordsOfWhitespace(s: string)
    requires AllWhitespace(s)
    ensures Words(s) == []
  {
    if s != [] {
      WordsOfWhitespace(s[1..]);
    }
  }

  /** A single run without white space is one word. */
  lemma WordsOfWord(w: string)
    requires w != [] && NoWhitespace(w)
    ensures Words(w) == [w]
  {
    var n := WordLength(w);
    assert n == |w|;
    assert w[..n] == w;
    assert w[n..] == [];
  }

  /** Leading white space holds no words. */
  lemma {:induction false} WordsTrimStart(s: string)
    ensures Words(TrimStart(s)) == Words(s)
  {
    if |s| > 0 && IsWhitespace(s[0]) {
      WordsTrimStart(s[1..]);
    }
  }

  /** Trailing white space holds no words. */
  lemma {:induction false} WordsTrimEnd(s: string)
    ensures Words(TrimEnd(s)) == Words(s)
  {
    if |s| > 0 && IsWhitespace(s[|s| - 1]) {
      var p := s[..|s| - 1];
      WordsTrimEnd(p);
      assert s == p + [s[|s| - 1]];
      WordsAppend(p, [s[|s| - 1]]);
      WordsOfWhitespace([s[|s| - 1]]);
    }
  }

  /** Trimming a text does not change its words. */
  lemma WordsIgnoreTrim(s: string)
    ensures Words(Trim(s)) == Words(s)
  {
    WordsTrimStart(s);
    WordsTrimEnd(TrimStart(s));
  }

  /**
   * Words laid out with white space: `gaps[0] + ws[0] + gaps[1] + ... + ws[n-1] + gaps[n]`.
   */
  function Layout(ws: seq<string>, gaps: seq<string>): string
    requires |gaps| == |ws| + 1
  {
    if ws == [] then gaps[0] else gaps[0] + ws[0] + Layout(ws[1..], gaps[1..])
  }

  /** Gaps that may be empty at both ends and are non-empty white space between words. */
  predicate ValidGaps(ws: seq<string>, gaps: seq<string>) {
    |gaps| == |ws| + 1
    && (forall i :: 0 <= i < |gaps| ==> AllWhitespace(gaps[i]))
    && (forall i :: 0 < i < |ws| ==> gaps[i] != [])
  }

  predicate ValidWords(ws: seq<string>) {
    forall i :: 0 <= i < |ws| ==> ws[i] != [] && NoWhitespace(ws[i])
  }

  /**
   * `split_whitespace` recovers the words of any layout, however long the runs of
   * white space between them and whatever white space surrounds them.
   */
  lemma {:induction false} WordsOfLayout(ws: seq<string>, gaps: seq<string>)
    requires ValidWords(ws) && ValidGaps(ws, gaps)
    ensures Words(Layout(ws, gaps)) == ws
  {
    if ws == [] {
      WordsOfWhitespace(gaps[0]);
    } else {
      var rest := Layout(ws[1..], gaps[1..]);
      assert ValidGaps(ws[1..], gaps[1..]);
      WordsOfLayout(ws[1..], gaps[1..]);
      LayoutStartsWithGap(ws[1..], gaps[1..]);
      assert rest == [] || IsWhitespace(rest[0]) by {
        if rest != [] && gaps[1] != [] {
          assert rest[0] == gaps[1][0];
        }
      }
      WordsOfGapAndWord(gaps[0], ws[0], rest);
    }
  }

  /** White space, then a word, then text that starts with white space. */
  lemma WordsOfGapAndWord(gap: string, w: string, rest: string)
    requires AllWhitespace(gap) && w != [] && NoWhitespace(w)
    requires rest == [] || IsWhitespace(rest[0])
    ensures Words(gap + w + rest) == [w] + Words(rest)
  {
    WordsAppend(w, rest);
    WordsOfWord(w);
    WordsAppend(gap, w + rest);
    WordsOfWhitespace(gap);
    assert gap + w + rest == gap + (w + rest);
  }

  /** A layout begins with its first gap. */
  lemma LayoutStartsWithGap(ws: seq<string>, gaps: seq<string>)
    requires |gaps| == |ws| + 1
    ensures gaps[0] <= Layout(ws, gaps)
  {
  }

  /** `sub` occurs somewhere in `s`. */
  predicate Contains(s: string, sub: string) {
    exists i :: 0 <= i <= |s| && sub <= s[i..]
  }

  predicate IsDigit(c: char) {
    '0' <= c <= '9'
  }

  /**
   * `format!("{}", n)` for an unsigned integer: decimal digits, most significant
   * first, with no leading zero except in `0` itself.
   */
  function Decimal(n: nat): (r: string)
    ensures r != [] && (r[0] == '0' ==> r == "0")
    ensures forall i :: 0 <= i < |r| ==> IsDigit(r[i])
  {
    if n < 10 then [('0' as int + n) as char] else Decimal(n / 10) + [('0' as int + n % 10) as char]
  }

  /** The number a string of decimal digits denotes. */
  function DecimalValue(s: string): nat {
    if s == [] then 0
    else
      var d := s[|s| - 1] as int - '0' as int;
      DecimalValue(s[..|s| - 1]) * 10 + (if 0 <= d then d else 0)
  }

  /** The decimal text of a number reads back as that number. */
  lemma {:induction false} DecimalRoundTrip(n: nat)
    ensures DecimalValue(Decimal(n)) == n
  {
    if n >= 10 {
      var d := Decimal(n);
      assert d[..|d| - 1] == Decimal(n / 10);
      DecimalRoundTrip(n / 10);
    }
  }

  /** Among ASCII characters, the white space is the space and tab to carriage return. */
  lemma AsciiWhitespace(c: char)
    requires c < '\U{80}'
    ensures IsWhitespace(c) <==> c == ' ' || '\t' <= c <= '\r'
  {
  }
}
