/** The Python `str` built-ins the scripts rely on: the whitespace class
    (`str.isspace`, also what the regex class `\s` matches on `str`),
    `str.strip()` and the argument-less `str.split()`. */
module Strings {
  import opened Seqs

  /** A character Python treats as whitespace: the ASCII controls TAB to CR,
      the four information separators U+001C..U+001F, SPACE, NEL, NO-BREAK
      SPACE, OGHAM SPACE MARK, the spaces U+2000..U+200A, LINE and PARAGRAPH
      SEPARATOR, NARROW NO-BREAK SPACE, MEDIUM MATHEMATICAL SPACE and
      IDEOGRAPHIC SPACE. */
  predicate IsSpace(c: char)
  {
    || ('\t' <= c <= '\r')
    || ('\U{1C}' <= c <= '\U{1F}')
    || c == ' '
    || c == '\U{85}'
    || c == '\U{A0}'
    || c == '\U{1680}'
    || ('\U{2000}' <= c <= '\U{200A}')
    || c == '\U{2028}'
    || c == '\U{2029}'
    || c == '\U{202F}'
    || c == '\U{205F}'
    || c == '\U{3000}'
  }

  predicate NotSpace(c: char)
  {
    !IsSpace(c)
  }

  /** A token of `str.split()`: non-empty and free of whitespace. */
  predicate IsToken(t: string)
  {
    |t| > 0 && forall i :: 0 <= i < |t| ==> !IsSpace(t[i])
  }

  /** `s.lstrip()`: the suffix left after dropping the leading whitespace. */
  function TrimStart(s: string): (r: string)
    ensures |r| <= |s| && r == s[|s| - |r|..]
    ensures forall i :: 0 <= i < |s| - |r| ==> IsSpace(s[i])
    ensures |r| > 0 ==> !IsSpace(r[0])
  {
    if |s| == 0 || !IsSpace(s[0]) then s else TrimStart(s[1..])
  }

  /** `s.rstrip()`: the prefix left after dropping the trailing whitespace. */
  function TrimEnd(s: string): (r: string)
    ensures |r| <= |s| && r == s[..|r|]
    ensures forall i :: |r| <= i < |s| ==> IsSpace(s[i])
    ensures |r| > 0 ==> !IsSpace(r[|r| - 1])
  {
    if |s| == 0 || !IsSpace(s[|s| - 1]) then s else TrimEnd(s[..|s| - 1])
  }

  /** `s.strip()`: `s` without its leading and trailing whitespace (see
      `StripIsSlice`). */
  function Strip(s: string): (r: string)
    ensures |r| > 0 ==> !IsSpace(r[0]) && !IsSpace(r[|r| - 1])
  {
    TrimEnd(TrimStart(s))
  }

  /** `s.strip()` is a slice of `s` starting where the leading whitespace
      ends. */
  lemma StripIsSlice(s: string)
    ensures |s| - |TrimStart(s)| + |Strip(s)| <= |s|
    ensures forall i :: 0 <= i < |Strip(s)| ==> Strip(s)[i] == s[|s| - |TrimStart(s)| + i]
  {
    var t := TrimStart(s);
    var r := TrimEnd(t);
    assert Strip(s) == r;
    assert t == s[|s| - |t|..] && r == t[..|r|];
    PrefixOfSuffix(s, t, r);
  }

  /** A prefix `r` of the suffix `t` of `s` is found in `s` at the offset
      where `t` starts. */
  lemma PrefixOfSuffix<T>(s: seq<T>, t: seq<T>, r: seq<T>)
    requires |t| <= |s| && t == s[|s| - |t|..]
    requires |r| <= |t| && r == t[..|r|]
    ensures |s| - |t| + |r| <= |s|
    ensures forall i :: 0 <= i < |r| ==> r[i] == s[|s| - |t| + i]
  {
  }

  /** Everything `s.strip()` cuts away, on either side, is whitespace. */
  lemma StripCutsWhitespace(s: string)
    ensures forall i :: 0 <= i < |s| - |TrimStart(s)| ==> IsSpace(s[i])
    ensures forall i :: |s| - |TrimStart(s)| + |Strip(s)| <= i < |s| ==> IsSpace(s[i])
  {
    var t := TrimStart(s);
    var r := TrimEnd(t);
    assert Strip(s) == r;
    assert t == s[|s| - |t|..] && r == t[..|r|];
    var k := |s| - |t|;
    forall i | k + |r| <= i < |s| ensures IsSpace(s[i]) {
      assert s[i] == t[i - k];
    }
  }

  /** `s.strip()` is empty, that is falsy, exactly when `s` consists of
      whitespace only (the empty string included). */
  lemma StripEmptyIff(s: string)
    ensures Strip(s) == [] <==> forall i :: 0 <= i < |s| ==> IsSpace(s[i])
  {
    var t := TrimStart(s);
    if Strip(s) == [] {
      assert |t| == 0;
    } else {
      var r := Strip(s);
      assert r[0] == t[0] == s[|s| - |t|];
    }
  }

  /** Length of the leading run of non-whitespace characters of `s`. */
  function RunLength(s: string): (n: nat)
    ensures n <= |s|
    ensures forall i :: 0 <= i < n ==> !IsSpace(s[i])
    ensures n < |s| ==> IsSpace(s[n])
  {
    if |s| == 0 || IsSpace(s[0]) then 0 else 1 + RunLength(s[1..])
  }

  /** `s.split()`: the maximal runs of non-whitespace characters, in order;
      leading, trailing and repeated whitespace yield no empty tokens. */
  function SplitWhitespace(s: string): (r: seq<string>)
    ensures forall i :: 0 <= i < |r| ==> IsToken(r[i])
    ensures forall i, j :: 0 <= i < |r| && 0 <= j < |r[i]| ==> r[i][j] in s
    decreases |s|
  {
    if |s| == 0 then []
    else if IsSpace(s[0]) then SplitWhitespace(s[1..])
    else
      var n := RunLength(s);
      [s[..n]] + SplitWhitespace(s[n..])
  }

  /** Tokenising loses no character except whitespace: the tokens, glued
      back together, are `s` with every whitespace character removed. */
  lemma {:induction false} SplitWhitespaceKeepsText(s: string)
    ensures Flatten(SplitWhitespace(s)) == Filter(s, NotSpace)
    decreases |s|
  {
    if |s| > 0 {
      if IsSpace(s[0]) {
        SplitWhitespaceKeepsText(s[1..]);
      } else {
        var n := RunLength(s);
        SplitWhitespaceKeepsText(s[n..]);
        assert s == s[..n] + s[n..];
        FilterAppend(s[..n], s[n..], NotSpace);
        FilterFixpoint(s[..n], NotSpace);
        var r := SplitWhitespace(s);
        assert r == [s[..n]] + SplitWhitespace(s[n..]);
        assert r[1..] == SplitWhitespace(s[n..]);
      }
    }
  }

  /** The leading run of a token followed by whitespace (or nothing) is the
      whole token. */
  lemma {:induction false} RunLengthOfToken(t: string, rest: string)
    requires IsToken(t)
    requires |rest| == 0 || IsSpace(rest[0])
    ensures RunLength(t + rest) == |t|
  {
    assert (t + rest)[0] == t[0];
    assert (t + rest)[1..] == t[1..] + rest;
    if |t| > 1 {
      assert IsToken(t[1..]) by {
        forall i | 0 <= i < |t[1..]| ensures !IsSpace(t[1..][i]) {
          assert t[1..][i] == t[i + 1];
        }
      }
      RunLengthOfToken(t[1..], rest);
    } else {
      assert t[1..] + rest == rest;
    }
  }

  /** A single token splits into itself. */
  lemma SplitWhitespaceOfToken(t: string)
    requires IsToken(t)
    ensures SplitWhitespace(t) == [t]
  {
    RunLengthOfToken(t, "");
    assert t + "" == t;
    assert t[..|t|] == t;
    assert t[|t|..] == "";
  }

  /** The leading run of `a + [c] + b`, for a whitespace `c`, is the leading
      run of `a`: it ends inside `a` or at `c`. */
  lemma RunLengthBeforeSpace(a: string, c: char, b: string)
    requires IsSpace(c)
    ensures RunLength(a + [c] + b) == RunLength(a)
  {
    var s := a + [c] + b;
    var m := RunLength(a);
    var n := RunLength(s);
    assert IsSpace(s[m]);
  }

  /** Every whitespace character separates tokens: splitting `a`, a
      whitespace character, `b` gives the tokens of `a` followed by the
      tokens of `b`. */
  lemma {:induction false} SplitWhitespaceAppend(a: string, c: char, b: string)
    requires IsSpace(c)
    ensures SplitWhitespace(a + [c] + b) == SplitWhitespace(a) + SplitWhitespace(b)
    decreases |a|
  {
    var s := a + [c] + b;
    if |a| == 0 {
      assert s[0] == c && s[1..] == b;
    } else if IsSpace(a[0]) {
      assert s[0] == a[0] && s[1..] == a[1..] + [c] + b;
      SplitWhitespaceAppend(a[1..], c, b);
    } else {
      assert s[0] == a[0];
      var m := RunLength(a);
      RunLengthBeforeSpace(a, c, b);
      assert s[..m] == a[..m];
      assert s[m..] == a[m..] + [c] + b;
      SplitWhitespaceAppend(a[m..], c, b);
      PrependPiece(a[..m], SplitWhitespace(a[m..]), SplitWhitespace(b));
    }
  }

  /** Tokenising the tokens joined by single spaces gives the tokens back. */
  lemma {:induction false} SplitJoinRoundTrip(ts: seq<string>)
    requires forall i :: 0 <= i < |ts| ==> IsToken(ts[i])
    ensures SplitWhitespace(Join(ts, " ")) == ts
  {
    if |ts| == 1 {
      SplitWhitespaceOfToken(ts[0]);
    } else if |ts| > 1 {
      var t := ts[0];
      var rest := Join(ts[1..], " ");
      var j := Join(ts, " ");
      assert j == t + (" " + rest);
      RunLengthOfToken(t, " " + rest);
      assert j[..|t|] == t;
      assert j[|t|..] == " " + rest;
      assert (" " + rest)[1..] == rest;
      SplitJoinRoundTrip(ts[1..]);
      assert ts == [t] + ts[1..];
    }
  }
}
