/**
 * The part of JavaScript's string semantics the todo form relies on:
 * `String.prototype.trim`, which removes leading and trailing white space
 * and line terminators (the WhiteSpace and LineTerminator productions of
 * ECMAScript 2023, sections 12.2 and 12.3).
 */
module JsString {

  /** ECMAScript WhiteSpace (TAB, VT, FF, ZWNBSP and the Unicode category Zs)
      together with the four LineTerminator code points. */
  predicate IsWhiteSpace(c: char)
  {
    || c == '\t' || c == '\U{B}' || c == '\U{C}' || c == ' ' || c == '\U{A0}'
    || c == '\U{FEFF}' || c == '\U{1680}' || ('\U{2000}' <= c <= '\U{200A}')
    || c == '\U{202F}' || c == '\U{205F}' || c == '\U{3000}'
    || c == '\n' || c == '\r' || c == '\U{2028}' || c == '\U{2029}'
  }

  /** True when every character of `s` is white space (vacuously for ""). */
  predicate AllWhiteSpace(s: string)
  {
    forall i :: 0 <= i < |s| ==> IsWhiteSpace(s[i])
  }

  /** True when `s` neither starts nor ends with white space. */
  predicate IsTrimmed(s: string)
  {
    s != [] ==> !IsWhiteSpace(s[0]) && !IsWhiteSpace(s[|s| - 1])
  }

  /** `s` with its leading white space removed (TrimStartIsSuffix says
      which suffix of `s` this is). */
  function TrimStart(s: string): (r: string)
    ensures |r| <= |s|
  {
    if |s| > 0 && IsWhiteSpace(s[0]) then TrimStart(s[1..]) else s
  }

  /** `s` with its trailing white space removed (TrimEndIsPrefix says which
      prefix of `s` this is). */
  function TrimEnd(s: string): (r: string)
    ensures |r| <= |s|
  {
    if |s| > 0 && IsWhiteSpace(s[|s| - 1]) then TrimEnd(s[..|s| - 1]) else s
  }

  /** Removing leading white space leaves the longest suffix of `s` that
      does not start with white space. */
  lemma {:induction false} TrimStartIsSuffix(s: string)
    ensures var r := TrimStart(s);
      && r == s[|s| - |r|..]
      && AllWhiteSpace(s[..|s| - |r|])
      && (r != [] ==> !IsWhiteSpace(r[0]))
  {
    if |s| > 0 && IsWhiteSpace(s[0]) {
      var rest := s[1..];
      var r := TrimStart(rest);
      TrimStartIsSuffix(rest);
      assert r == s[|s| - |r|..];
      assert s[..|s| - |r|] == [s[0]] + rest[..|rest| - |r|];
      AllWhiteSpaceAppend([s[0]], rest[..|rest| - |r|]);
    }
  }

  /** Removing trailing white space leaves the longest prefix of `s` that
      does not end with white space. */
  lemma {:induction false} TrimEndIsPrefix(s: string)
    ensures var r := TrimEnd(s);
      && r == s[..|r|]
      && AllWhiteSpace(s[|r|..])
      && (r != [] ==> !IsWhiteSpace(r[|r| - 1]))
  {
    if |s| > 0 && IsWhiteSpace(s[|s| - 1]) {
      var rest := s[..|s| - 1];
      var r := TrimEnd(rest);
      TrimEndIsPrefix(rest);
      assert r == s[..|r|];
      assert s[|r|..] == rest[|r|..] + [s[|s| - 1]];
      AllWhiteSpaceAppend(rest[|r|..], [s[|s| - 1]]);
    }
  }

  /** `String.prototype.trim`. The result has no white space at either end,
      and it is empty exactly when `s` is all white space; TrimIsSlice shows
      that it is the piece of `s` between its leading and trailing white
      space. */
  function Trim(s: string): (r: string)
    ensures |r| <= |s|
    ensures IsTrimmed(r)
    ensures r == [] <==> AllWhiteSpace(s)
  {
    var front := TrimStart(s);
    var r := TrimEnd(front);
    TrimStartIsSuffix(s);
    TrimEndIsPrefix(front);
    assert r != [] ==> r[0] == front[0];
    TrimEmptyIff(s);
    r
  }

  /** `r` is the piece of `s` that starts at `a`, with only white space
      before it and after it. */
  predicate TrimmedAt(s: string, r: string, a: nat)
  {
    a + |r| <= |s| && r == s[a..a + |r|]
    && AllWhiteSpace(s[..a]) && AllWhiteSpace(s[a + |r|..])
  }

  /** What trimming keeps is the piece of `s` between its leading and its
      trailing white space. */
  lemma TrimIsSlice(s: string)
    ensures TrimmedAt(s, Trim(s), |s| - |TrimStart(s)|)
  {
    var front := TrimStart(s);
    var r := TrimEnd(front);
    TrimStartIsSuffix(s);
    TrimEndIsPrefix(front);
    assert Trim(s) == r;
    SuffixThenPrefix(s, front, r);
  }

  /** A prefix `r` of a suffix `front` of `s`, each cut off only white space,
      is the piece of `s` between them. */
  lemma SuffixThenPrefix(s: string, front: string, r: string)
    requires |front| <= |s| && front == s[|s| - |front|..]
    requires AllWhiteSpace(s[..|s| - |front|])
    requires |r| <= |front| && r == front[..|r|]
    requires AllWhiteSpace(front[|r|..])
    ensures TrimmedAt(s, r, |s| - |front|)
  {
    var a, n := |s| - |front|, |r|;
    assert r == s[a..a + n] by {
      forall k | 0 <= k < n ensures r[k] == s[a + k] {
        assert r[k] == front[k];
      }
    }
    assert s[a + n..] == front[n..];
  }

  /** Trimming leaves nothing exactly when the string is all white space. */
  lemma TrimEmptyIff(s: string)
    ensures TrimEnd(TrimStart(s)) == [] <==> AllWhiteSpace(s)
  {
    var front := TrimStart(s);
    TrimStartIsSuffix(s);
    TrimEndIsPrefix(front);
    var k := |s| - |front|;
    assert s == s[..k] + front;
    assert TrimEnd(front) == [] ==> front[0..] == front;
    AllWhiteSpaceAppend(s[..k], front);
  }

  lemma AllWhiteSpaceAppend(a: string, b: string)
    ensures AllWhiteSpace(a + b) <==> AllWhiteSpace(a) && AllWhiteSpace(b)
  {
    if AllWhiteSpace(a + b) {
      forall i | 0 <= i < |a| ensures IsWhiteSpace(a[i]) {
        assert (a + b)[i] == a[i];
      }
      forall i | 0 <= i < |b| ensures IsWhiteSpace(b[i]) {
        assert (a + b)[|a| + i] == b[i];
      }
    }
    if AllWhiteSpace(a) && AllWhiteSpace(b) {
      forall i | 0 <= i < |a + b| ensures IsWhiteSpace((a + b)[i]) {
        if i >= |a| {
          assert (a + b)[i] == b[i - |a|];
        }
      }
    }
  }

  /** A string without white space at its ends is left as it is. */
  lemma TrimOfTrimmed(s: string)
    requires IsTrimmed(s)
    ensures Trim(s) == s
  {
  }

  /** Trimming twice is the same as trimming once. */
  lemma TrimIdempotent(s: string)
    ensures Trim(Trim(s)) == Trim(s)
  {
    TrimOfTrimmed(Trim(s));
  }
}
