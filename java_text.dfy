/**
 * The parts of java.lang.String, java.lang.Character and the project's Util class
 * that the generator relies on, stated over Dafny strings (sequences of Unicode
 * scalar values).
 */
module JavaText {

  // ---------------------------------------------------------------------------
  // Whitespace, trimming, hasText
  // ---------------------------------------------------------------------------

  /** Character.isWhitespace: the ASCII separators, U+001C..U+001F and the Unicode
      space, line and paragraph separators other than the non-breaking ones. */
  predicate IsWhitespace(c: char) {
    || c == ' ' || c == '\t' || c == '\n' || c == '\r'
    || c == '\U{000B}' || c == '\U{000C}'
    || ('\U{001C}' <= c <= '\U{001F}')
    || c == '\U{1680}'
    || ('\U{2000}' <= c <= '\U{2006}')
    || ('\U{2008}' <= c <= '\U{200A}')
    || c == '\U{2028}' || c == '\U{2029}' || c == '\U{205F}' || c == '\U{3000}'
  }

  /** Util.hasText: the string holds at least one non-whitespace character. */
  predicate HasText(s: string) {
    exists i :: 0 <= i < |s| && !IsWhitespace(s[i])
  }

  predicate AllWhitespace(s: string) {
    forall i :: 0 <= i < |s| ==> IsWhitespace(s[i])
  }

  /** The number of whitespace characters at the start of s. */
  function LeadingWhitespace(s: string): (n: nat)
    ensures n <= |s|
    ensures AllWhitespace(s[..n])
    ensures n < |s| ==> !IsWhitespace(s[n])
  {
    if |s| == 0 || !IsWhitespace(s[0]) then 0 else 1 + LeadingWhitespace(s[1..])
  }

  /** The number of whitespace characters at the end of s. */
  function TrailingWhitespace(s: string): (n: nat)
    ensures n <= |s|
    ensures AllWhitespace(s[|s| - n..])
    ensures n < |s| ==> !IsWhitespace(s[|s| - n - 1])
  {
    if |s| == 0 || !IsWhitespace(s[|s| - 1]) then 0
    else
      var k := TrailingWhitespace(s[..|s| - 1]);
      assert s[..|s| - 1][|s| - 1 - k..] == s[|s| - 1 - k..|s| - 1];
      1 + k
  }

  /** Util.trimWhitespace: s without its leading and trailing whitespace. The
      result is a slice of s with only whitespace around it, and it is empty
      exactly when s has no text. */
  function TrimWhitespace(s: string): (r: string)
    ensures HasText(s) <==> |r| > 0
    ensures |r| > 0 ==> !IsWhitespace(r[0]) && !IsWhitespace(r[|r| - 1])
    ensures exists i :: 0 <= i <= |s| - |r| && PaddedAt(r, s, i)
  {
    var a := LeadingWhitespace(s);
    var r := s[a..][..|s[a..]| - TrailingWhitespace(s[a..])];
    TrimmedSlice(s);
    r
  }

  /** The facts TrimWhitespace promises, about the slice it returns. */
  lemma TrimmedSlice(s: string)
    ensures var a := LeadingWhitespace(s);
      var r := s[a..][..|s[a..]| - TrailingWhitespace(s[a..])];
      (HasText(s) <==> |r| > 0)
      && (|r| > 0 ==> !IsWhitespace(r[0]) && !IsWhitespace(r[|r| - 1]))
      && a <= |s| - |r| && PaddedAt(r, s, a)
  {
    var a := LeadingWhitespace(s);
    var rest := s[a..];
    var b := TrailingWhitespace(rest);
    TrimmedText(s, a, rest, b);
    TrimmedEnds(s, a, rest, b);
    TrimmedPadded(s, a, rest, b);
  }

  lemma TrimmedText(s: string, a: nat, rest: string, b: nat)
    requires a == LeadingWhitespace(s) && rest == s[a..] && b == TrailingWhitespace(rest)
    ensures HasText(s) <==> |rest| - b > 0
  {
    if HasText(s) {
      var w :| 0 <= w < |s| && !IsWhitespace(s[w]);
      assert a <= w;
      assert rest[w - a] == s[w];
    } else {
      assert a == |s|;
    }
  }

  lemma TrimmedEnds(s: string, a: nat, rest: string, b: nat)
    requires a == LeadingWhitespace(s) && rest == s[a..] && b == TrailingWhitespace(rest)
    ensures var r := rest[..|rest| - b]; |r| > 0 ==> !IsWhitespace(r[0]) && !IsWhitespace(r[|r| - 1])
  {
    var r := rest[..|rest| - b];
    if |r| > 0 {
      assert r[0] == s[a];
      assert r[|r| - 1] == rest[|rest| - b - 1];
    }
  }

  lemma TrimmedPadded(s: string, a: nat, rest: string, b: nat)
    requires a <= |s| && rest == s[a..] && b <= |rest|
    requires AllWhitespace(s[..a]) && AllWhitespace(rest[|rest| - b..])
    ensures a <= |s| - (|rest| - b) && PaddedAt(rest[..|rest| - b], s, a)
  {
    assert rest[..|rest| - b] == s[a..|s| - b];
    assert rest[|rest| - b..] == s[|s| - b..];
    PaddedSlice(s, a, b);
  }

  /** The slice between whitespace margins of a and b characters is padded. */
  lemma PaddedSlice(s: string, a: nat, b: nat)
    requires a + b <= |s| && AllWhitespace(s[..a]) && AllWhitespace(s[|s| - b..])
    ensures PaddedAt(s[a..|s| - b], s, a)
  {
  }

  /** t sits in s at index i with nothing but whitespace before and after it. */
  predicate PaddedAt(t: string, s: string, i: int) {
    0 <= i && i + |t| <= |s| && s[i..i + |t|] == t
    && AllWhitespace(s[..i]) && AllWhitespace(s[i + |t|..])
  }

  /** Trimming is idempotent. */
  lemma {:induction false} TrimWhitespaceIdempotent(s: string)
    ensures TrimWhitespace(TrimWhitespace(s)) == TrimWhitespace(s)
  {
    var t := TrimWhitespace(s);
    if |t| > 0 {
      assert LeadingWhitespace(t) == 0;
      assert t[0..] == t;
      assert TrailingWhitespace(t) == 0;
      assert t[..|t| - 0] == t;
    } else {
      assert t == [];
    }
  }

  /** `s.trim().isEmpty()`: String.trim drops every character up to U+0020 at both
      ends, so nothing is left exactly when every character is at most U+0020. */
  predicate TrimIsEmpty(s: string) {
    forall i :: 0 <= i < |s| ==> s[i] <= ' '
  }

  // ---------------------------------------------------------------------------
  // Prefixes, searching
  // ---------------------------------------------------------------------------

  /** String.startsWith. */
  predicate StartsWith(s: string, prefix: string) {
    |prefix| <= |s| && s[..|prefix|] == prefix
  }

  /** String.indexOf(char): the first index of c, or -1. */
  function IndexOf(s: string, c: char): (r: int)
    ensures -1 <= r < |s|
    ensures r == -1 <==> c !in s
    ensures r >= 0 ==> s[r] == c && c !in s[..r]
  {
    if |s| == 0 then -1
    else if s[0] == c then 0
    else
      var k := IndexOf(s[1..], c);
      if k == -1 then -1
      else
        assert s[..k + 1] == [s[0]] + s[1..][..k];
        k + 1
  }

  /** String.lastIndexOf(char): the last index of c, or -1. */
  function LastIndexOf(s: string, c: char): (r: int)
    ensures -1 <= r < |s|
    ensures r == -1 <==> c !in s
    ensures r >= 0 ==> s[r] == c && c !in s[r + 1..]
  {
    if |s| == 0 then -1
    else if s[|s| - 1] == c then |s| - 1
    else
      var k := LastIndexOf(s[..|s| - 1], c);
      if k == -1 then
        assert s == s[..|s| - 1] + [s[|s| - 1]];
        -1
      else
        assert s[k + 1..] == s[..|s| - 1][k + 1..] + [s[|s| - 1]];
        k
  }

  // ---------------------------------------------------------------------------
  // Case
  // ---------------------------------------------------------------------------

  function ToUpperAscii(c: char): (u: char)
  {
    if 'a' <= c <= 'z' then (c as int - 32) as char else c
  }

  function ToLowerAscii(c: char): (l: char)
  {
    if 'A' <= c <= 'Z' then (c as int + 32) as char else c
  }

  /** String.toUpperCase on the ASCII letters. */
  function ToUpperCase(s: string): (r: string)
    ensures |r| == |s|
    ensures forall i :: 0 <= i < |s| ==> r[i] == ToUpperAscii(s[i])
  {
    if |s| == 0 then [] else [ToUpperAscii(s[0])] + ToUpperCase(s[1..])
  }

  /** String.equalsIgnoreCase on the ASCII letters. */
  predicate EqualsIgnoreCase(a: string, b: string) {
    |a| == |b| && forall i :: 0 <= i < |a| ==> ToUpperAscii(a[i]) == ToUpperAscii(b[i])
  }

  /** Util.uncapitalize: the first character in lower case, the rest unchanged. */
  function Uncapitalize(s: string): (r: string)
    ensures |r| == |s|
    ensures |s| > 0 ==> r[0] == ToLowerAscii(s[0]) && r[1..] == s[1..]
  {
    if |s| == 0 then s else [ToLowerAscii(s[0])] + s[1..]
  }

  /** The inverse direction (a JavaBeans property name to its accessor suffix). */
  function Capitalize(s: string): (r: string)
    ensures |r| == |s|
    ensures |s| > 0 ==> r[0] == ToUpperAscii(s[0]) && r[1..] == s[1..]
  {
    if |s| == 0 then s else [ToUpperAscii(s[0])] + s[1..]
  }

  /** Capitalizing and uncapitalizing a name that starts with a lower-case ASCII
      letter gives the name back. */
  lemma UncapitalizeCapitalize(s: string)
    requires |s| > 0 && 'a' <= s[0] <= 'z'
    ensures Uncapitalize(Capitalize(s)) == s
  {
    assert Capitalize(s)[1..] == s[1..];
  }

  // ---------------------------------------------------------------------------
  // The rewrites applied to the generated text
  // ---------------------------------------------------------------------------

  /** String.replace(char, char): every `from` becomes `to`. */
  function ReplaceChar(s: string, from: char, to: char): (r: string)
    ensures |r| == |s|
    ensures forall i :: 0 <= i < |s| ==> r[i] == (if s[i] == from then to else s[i])
  {
    if |s| == 0 then [] else [if s[0] == from then to else s[0]] + ReplaceChar(s[1..], from, to)
  }

  /** After replacing `from` by a different character none is left, and every
      character other than `from` was kept. */
  lemma ReplaceCharRemoves(s: string, from: char, to: char)
    requires from != to
    ensures from !in ReplaceChar(s, from, to)
    ensures forall i :: 0 <= i < |s| && s[i] != from ==> ReplaceChar(s, from, to)[i] == s[i]
  {
    var r := ReplaceChar(s, from, to);
    forall i | 0 <= i < |r| ensures r[i] != from { }
  }

  /** `s.replaceAll("\r?\n", sep)`: scanning from the left, every CR LF pair and
      every LF on its own becomes sep; a CR not followed by LF is kept. */
  function ReplaceLineBreaks(s: string, sep: string): (r: string)
    decreases |s|
  {
    if |s| == 0 then []
    else if |s| >= 2 && s[0] == '\r' && s[1] == '\n' then sep + ReplaceLineBreaks(s[2..], sep)
    else if s[0] == '\n' then sep + ReplaceLineBreaks(s[1..], sep)
    else [s[0]] + ReplaceLineBreaks(s[1..], sep)
  }

  /** Text without any LF is left alone. */
  lemma {:induction false} ReplaceLineBreaksNoBreak(s: string, sep: string)
    requires '\n' !in s
    ensures ReplaceLineBreaks(s, sep) == s
  {
    if |s| > 0 {
      assert s[0] != '\n';
      assert s[1..] == s[1..];
      assert '\n' !in s[1..] by {
        forall i | 0 <= i < |s| - 1 ensures s[1..][i] != '\n' { assert s[1..][i] == s[i + 1]; }
      }
      ReplaceLineBreaksNoBreak(s[1..], sep);
      assert s == [s[0]] + s[1..];
    }
  }

  /** What a character other than the CR of a CR LF pair is rewritten to. */
  function LineBreakHead(c: char, sep: string): string {
    if c == '\n' then sep else [c]
  }

  /** One step of the rewrite, when s does not start with CR LF. */
  lemma ReplaceLineBreaksUnfold(s: string, sep: string)
    requires |s| > 0 && !(|s| >= 2 && s[0] == '\r' && s[1] == '\n')
    ensures ReplaceLineBreaks(s, sep) == LineBreakHead(s[0], sep) + ReplaceLineBreaks(s[1..], sep)
  {
  }

  /** The rewrite distributes over a concatenation that does not split a CR LF pair. */
  lemma {:induction false} ReplaceLineBreaksAppend(a: string, b: string, sep: string)
    requires !(|a| > 0 && a[|a| - 1] == '\r' && |b| > 0 && b[0] == '\n')
    ensures ReplaceLineBreaks(a + b, sep) == ReplaceLineBreaks(a, sep) + ReplaceLineBreaks(b, sep)
    decreases |a|, 1
  {
    if |a| == 0 {
      assert a + b == b;
    } else if |a| >= 2 && a[0] == '\r' && a[1] == '\n' {
      ReplaceLineBreaksAppendPair(a, b, sep);
    } else {
      ReplaceLineBreaksAppendSingle(a, b, sep);
    }
  }

  /** ReplaceLineBreaksAppend when a starts with CR LF. */
  lemma {:induction false} ReplaceLineBreaksAppendPair(a: string, b: string, sep: string)
    requires |a| >= 2 && a[0] == '\r' && a[1] == '\n'
    requires !(a[|a| - 1] == '\r' && |b| > 0 && b[0] == '\n')
    ensures ReplaceLineBreaks(a + b, sep) == ReplaceLineBreaks(a, sep) + ReplaceLineBreaks(b, sep)
    decreases |a|, 0
  {
    var ab := a + b;
    assert ab[0] == '\r' && ab[1] == '\n';
    assert ab[2..] == a[2..] + b;
    ReplaceLineBreaksAppend(a[2..], b, sep);
  }

  /** ReplaceLineBreaksAppend when a is not empty and does not start with CR LF. */
  lemma {:induction false} ReplaceLineBreaksAppendSingle(a: string, b: string, sep: string)
    requires |a| > 0 && !(|a| >= 2 && a[0] == '\r' && a[1] == '\n')
    requires !(a[|a| - 1] == '\r' && |b| > 0 && b[0] == '\n')
    ensures ReplaceLineBreaks(a + b, sep) == ReplaceLineBreaks(a, sep) + ReplaceLineBreaks(b, sep)
    decreases |a|, 0
  {
    var ab := a + b;
    assert ab[0] == a[0] && ab[1..] == a[1..] + b;
    assert !(|ab| >= 2 && ab[0] == '\r' && ab[1] == '\n') by {
      if |a| >= 2 { assert ab[1] == a[1]; } else { assert |b| > 0 ==> ab[1] == b[0]; }
    }
    calc {
      ReplaceLineBreaks(ab, sep);
      == { ReplaceLineBreaksUnfold(ab, sep); }
      LineBreakHead(a[0], sep) + ReplaceLineBreaks(a[1..] + b, sep);
      == { ReplaceLineBreaksAppend(a[1..], b, sep); }
      LineBreakHead(a[0], sep) + (ReplaceLineBreaks(a[1..], sep) + ReplaceLineBreaks(b, sep));
      == { ReplaceLineBreaksUnfold(a, sep); }
      ReplaceLineBreaks(a, sep) + ReplaceLineBreaks(b, sep);
    }
  }

  /** With a separator that holds no LF, no LF is left. */
  lemma {:induction false} ReplaceLineBreaksRemovesLf(s: string, sep: string)
    requires '\n' !in sep
    ensures '\n' !in ReplaceLineBreaks(s, sep)
    decreases |s|
  {
    if |s| == 0 {
    } else if |s| >= 2 && s[0] == '\r' && s[1] == '\n' {
      ReplaceLineBreaksRemovesLf(s[2..], sep);
    } else {
      ReplaceLineBreaksRemovesLf(s[1..], sep);
    }
  }

  /** Every LF is preceded by CR. */
  predicate OnlyCrLf(s: string) {
    forall i :: 0 <= i < |s| && s[i] == '\n' ==> i > 0 && s[i - 1] == '\r'
  }

  /** With CR LF as the separator every LF in the result is part of a CR LF pair. */
  lemma {:induction false} ReplaceLineBreaksCrLf(s: string)
    ensures OnlyCrLf(ReplaceLineBreaks(s, "\r\n"))
    decreases |s|
  {
    var r := ReplaceLineBreaks(s, "\r\n");
    if |s| == 0 {
    } else if |s| >= 2 && s[0] == '\r' && s[1] == '\n' {
      ReplaceLineBreaksCrLf(s[2..]);
      OnlyCrLfAppend("\r\n", ReplaceLineBreaks(s[2..], "\r\n"));
    } else if s[0] == '\n' {
      ReplaceLineBreaksCrLf(s[1..]);
      OnlyCrLfAppend("\r\n", ReplaceLineBreaks(s[1..], "\r\n"));
    } else {
      ReplaceLineBreaksCrLf(s[1..]);
      OnlyCrLfAppend([s[0]], ReplaceLineBreaks(s[1..], "\r\n"));
    }
  }

  lemma OnlyCrLfAppend(a: string, b: string)
    requires OnlyCrLf(a) && OnlyCrLf(b)
    requires |b| > 0 && b[0] == '\n' ==> |a| > 0 && a[|a| - 1] == '\r'
    ensures OnlyCrLf(a + b)
  {
    var ab := a + b;
    forall i | 0 <= i < |ab| && ab[i] == '\n' ensures i > 0 && ab[i - 1] == '\r' {
      if i >= |a| {
        assert ab[i] == b[i - |a|];
        if i > |a| { assert ab[i - 1] == b[i - |a| - 1]; }
      }
    }
  }

  /** Normalising to CR LF twice is the same as once. */
  lemma {:induction false} ReplaceLineBreaksCrLfIdempotent(s: string)
    ensures ReplaceLineBreaks(ReplaceLineBreaks(s, "\r\n"), "\r\n") == ReplaceLineBreaks(s, "\r\n")
    decreases |s|
  {
    var crlf := "\r\n";
    if |s| == 0 {
    } else if |s| >= 2 && s[0] == '\r' && s[1] == '\n' {
      var t := ReplaceLineBreaks(s[2..], crlf);
      ReplaceLineBreaksCrLfIdempotent(s[2..]);
      assert (crlf + t)[2..] == t;
    } else if s[0] == '\n' {
      var t := ReplaceLineBreaks(s[1..], crlf);
      ReplaceLineBreaksCrLfIdempotent(s[1..]);
      assert (crlf + t)[2..] == t;
    } else {
      var t := ReplaceLineBreaks(s[1..], crlf);
      ReplaceLineBreaksCrLfIdempotent(s[1..]);
      ReplaceLineBreaksCrLf(s[1..]);
      if s[0] == '\r' && |t| > 0 && t[0] == '\n' {
        assert false;
      }
      ReplaceLineBreaksAppend([s[0]], t, crlf);
      assert ReplaceLineBreaks([s[0]], crlf) == [s[0]] + ReplaceLineBreaks([], crlf);
    }
  }

  /** Replacing a character that does not occur changes nothing. */
  lemma ReplaceCharAbsent(s: string, from: char, to: char)
    requires from !in s
    ensures ReplaceChar(s, from, to) == s
  {
    var r := ReplaceChar(s, from, to);
    assert forall i :: 0 <= i < |s| ==> r[i] == s[i];
  }

  /** The character replacement distributes over a concatenation. */
  lemma {:induction false} ReplaceCharAppend(a: string, b: string, from: char, to: char)
    ensures ReplaceChar(a + b, from, to) == ReplaceChar(a, from, to) + ReplaceChar(b, from, to)
  {
    var ab := a + b;
    var r := ReplaceChar(ab, from, to);
    var ra := ReplaceChar(a, from, to);
    var rb := ReplaceChar(b, from, to);
    var t := ra + rb;
    forall i | 0 <= i < |r| ensures r[i] == t[i] {
      if i >= |a| {
        assert ab[i] == b[i - |a|] && t[i] == rb[i - |a|];
      } else {
        assert ab[i] == a[i] && t[i] == ra[i];
      }
    }
  }

  /** A character that is neither a line break nor in the separator stays out
      of the text. */
  lemma {:induction false} ReplaceLineBreaksKeepsOut(s: string, sep: string, c: char)
    requires c !in s && c !in sep
    ensures c !in ReplaceLineBreaks(s, sep)
    decreases |s|
  {
    if |s| == 0 {
    } else if |s| >= 2 && s[0] == '\r' && s[1] == '\n' {
      assert c !in s[2..] by { assert forall x :: x in s[2..] ==> x in s; }
      ReplaceLineBreaksKeepsOut(s[2..], sep, c);
    } else {
      assert c !in s[1..] by { assert forall x :: x in s[1..] ==> x in s; }
      ReplaceLineBreaksKeepsOut(s[1..], sep, c);
    }
  }
}
