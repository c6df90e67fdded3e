/**
  * The string operations of the JavaScript runtime that the form and the mail relay rely on:
  * `String.prototype.trim`, `startsWith`, the decimal rendering of a non-negative integer in a
  * template literal, and `Array.prototype.join` together with its inverse, splitting on a separator.
  */
module Text {

  /** A character removed by `trim`: the ECMAScript WhiteSpace and LineTerminator code points. */
  predicate IsJsWhitespace(c: char)
  {
    || c == '\t' || c == '\n' || c == '\U{000B}' || c == '\U{000C}' || c == '\r' || c == ' '
    || c == '\U{00A0}' || c == '\U{1680}' || ('\U{2000}' <= c <= '\U{200A}')
    || c == '\U{2028}' || c == '\U{2029}' || c == '\U{202F}' || c == '\U{205F}'
    || c == '\U{3000}' || c == '\U{FEFF}'
  }

  /** Every character of `s` is whitespace (true of the empty string). */
  predicate AllWhitespace(s: string)
  {
    forall i :: 0 <= i < |s| ==> IsJsWhitespace(s[i])
  }

  /** `s` with its leading whitespace removed: a suffix of `s` preceded only by whitespace. */
  function TrimStart(s: string): (r: string)
    ensures |r| <= |s| && r == s[|s| - |r|..]
    ensures AllWhitespace(s[..|s| - |r|])
    ensures r == [] || !IsJsWhitespace(r[0])
  {
    if |s| > 0 && IsJsWhitespace(s[0]) then
      var r := TrimStart(s[1..]);
      assert s[..|s| - |r|] == [s[0]] + s[1..][..|s| - 1 - |r|];
      r
    else
      s
  }

  /** `s` with its trailing whitespace removed: a prefix of `s` followed only by whitespace. */
  function TrimEnd(s: string): (r: string)
    ensures |r| <= |s| && r == s[..|r|]
    ensures AllWhitespace(s[|r|..])
    ensures r == [] || !IsJsWhitespace(r[|r| - 1])
  {
    if |s| > 0 && IsJsWhitespace(s[|s| - 1]) then
      var r := TrimEnd(s[..|s| - 1]);
      assert s[|r|..] == s[..|s| - 1][|r|..] + [s[|s| - 1]];
      r
    else
      s
  }

  /** Trimming the end keeps every character up to the last non-whitespace one. */
  lemma {:induction false} TrimEndKeeps(s: string, k: nat)
    requires k < |s| && !IsJsWhitespace(s[k])
    ensures k < |TrimEnd(s)|
    decreases |s|
  {
    if IsJsWhitespace(s[|s| - 1]) {
      assert s[..|s| - 1][k] == s[k];
      TrimEndKeeps(s[..|s| - 1], k);
    }
  }

  /**
    * JavaScript's `s.trim()`: the part of `s` between its leading and its trailing whitespace.
    * It is empty exactly when `s` holds nothing but whitespace, it neither starts nor ends with
    * whitespace, and it keeps no character that is not in `s`; `TrimIsSlice` states that it is
    * the slice of `s` with only whitespace before and after it.
    */
  function Trim(s: string): (r: string)
    ensures r == [] || (!IsJsWhitespace(r[0]) && !IsJsWhitespace(r[|r| - 1]))
    ensures r == [] <==> AllWhitespace(s)
    ensures forall c :: c in r ==> c in s
  {
    var t := TrimStart(s);
    var r := TrimEnd(t);
    TrimBlank(s, t, r);
    TrimKeepsChars(s, t, r);
    r
  }

  /** `r` occurs in `s` with nothing but whitespace before it and after it. */
  predicate IsPaddedSlice(s: string, r: string)
  {
    exists i :: 0 <= i <= |s| - |r| && r == s[i..i + |r|] && AllWhitespace(s[..i]) && AllWhitespace(s[i + |r|..])
  }

  /**
    * `trim` removes exactly the leading and the trailing whitespace: its result is a slice of `s`
    * with nothing but whitespace before it and after it.
    */
  lemma TrimIsSlice(s: string)
    ensures IsPaddedSlice(s, Trim(s))
  {
    var t := TrimStart(s);
    assert Trim(s) == TrimEnd(t);
    InnerSlice(s, t, TrimEnd(t));
  }

  /**
    * A prefix `r` of the suffix `t` of `s`, with only whitespace before `t` and after `r`, is a
    * slice of `s` with only whitespace around it.
    */
  lemma InnerSlice(s: string, t: string, r: string)
    requires |t| <= |s| && t == s[|s| - |t|..] && AllWhitespace(s[..|s| - |t|])
    requires |r| <= |t| && r == t[..|r|] && AllWhitespace(t[|r|..])
    ensures IsPaddedSlice(s, r)
  {
    var i := |s| - |t|;
    assert s[i + |r|..] == t[|r|..];
    assert r == s[i..i + |r|];
  }

  /** The two halves of `Trim` leave nothing exactly when `s` is all whitespace. */
  lemma TrimBlank(s: string, t: string, r: string)
    requires t == TrimStart(s) && r == TrimEnd(t)
    ensures r == [] <==> AllWhitespace(s)
  {
    if r == [] {
      TrimmedToNothing(s, t);
    } else {
      var i := |s| - |t|;
      assert t[0] == r[0];
      assert s[i] == t[0];
    }
  }

  /** When trimming the end leaves nothing, `s` was whitespace before and after its leading run. */
  lemma TrimmedToNothing(s: string, t: string)
    requires t == TrimStart(s) && TrimEnd(t) == []
    ensures AllWhitespace(s)
  {
    var i := |s| - |t|;
    var lead := s[..i];
    var tail := t[|TrimEnd(t)|..];
    assert AllWhitespace(lead) && AllWhitespace(tail);
    forall k | 0 <= k < |s| ensures IsJsWhitespace(s[k]) {
      if k < i {
        assert s[k] == lead[k];
      } else {
        assert s[k] == t[k - i] == tail[k - i];
      }
    }
  }

  /** The two halves of `Trim` keep a slice of `s`. */
  lemma TrimKeepsChars(s: string, t: string, r: string)
    requires t == TrimStart(s) && r == TrimEnd(t)
    ensures forall c :: c in r ==> c in s
  {
    var i := |s| - |t|;
    forall c | c in r ensures c in s {
      var k :| 0 <= k < |r| && r[k] == c;
      assert t[k] == c && s[i + k] == c;
    }
  }

  /**
    * A prefix that neither starts nor ends with whitespace survives `trim`: only whitespace around
    * it could go, and there is none before it.
    */
  lemma TrimKeepsPrefix(s: string, p: string)
    requires StartsWith(s, p) && p != []
    requires !IsJsWhitespace(p[0]) && !IsJsWhitespace(p[|p| - 1])
    ensures StartsWith(Trim(s), p)
  {
    assert s[0] == p[0] && s[|p| - 1] == p[|p| - 1] by {
      assert s[..|p|] == p;
    }
    assert TrimStart(s) == s;
    TrimEndKeeps(s, |p| - 1);
    var r := TrimEnd(s);
    assert r[..|p|] == s[..|p|];
  }

  /** `prefix` is a prefix of `s` (JavaScript's `s.startsWith(prefix)`). */
  predicate StartsWith(s: string, prefix: string)
  {
    |prefix| <= |s| && s[..|prefix|] == prefix
  }

  /** `startsWith` compares the prefix character by character. */
  lemma StartsWithPointwise(s: string, prefix: string)
    ensures StartsWith(s, prefix) <==> |prefix| <= |s| && forall i :: 0 <= i < |prefix| ==> s[i] == prefix[i]
  {
    if |prefix| <= |s| && forall i :: 0 <= i < |prefix| ==> s[i] == prefix[i] {
      assert s[..|prefix|] == prefix;
    }
  }

  /** A prefix of a prefix is a prefix. */
  lemma StartsWithTrans(s: string, p: string, q: string)
    requires StartsWith(s, p) && StartsWith(p, q)
    ensures StartsWith(s, q)
  {
    assert s[..|q|] == s[..|p|][..|q|];
  }

  /** Putting the same text in front of a string and of its prefix keeps it a prefix. */
  lemma StartsWithPrepend(a: string, s: string, q: string)
    requires StartsWith(s, q)
    ensures StartsWith(a + s, a + q)
  {
    assert (a + s)[..|a + q|] == a + s[..|q|];
  }

  /** The decimal digit character for `d`. */
  function DigitChar(d: nat): (c: char)
    requires d < 10
    ensures '0' <= c <= '9' && c as int - '0' as int == d
  {
    ('0' as int + d) as char
  }

  predicate AllDigits(s: string)
  {
    forall i :: 0 <= i < |s| ==> '0' <= s[i] <= '9'
  }

  /** The decimal rendering of `n`, as a template literal `${n}` gives it: non-empty, digits only,
    * and with a leading zero only for zero itself. */
  function NatToString(n: nat): (r: string)
    ensures |r| >= 1 && AllDigits(r)
    ensures r[0] == '0' ==> n == 0
  {
    if n < 10 then [DigitChar(n)] else NatToString(n / 10) + [DigitChar(n % 10)]
  }

  /** The number a string of decimal digits denotes; the reference reading of `NatToString`. */
  function DecimalValue(s: string): nat
    requires AllDigits(s)
  {
    if s == [] then 0 else DecimalValue(s[..|s| - 1]) * 10 + (s[|s| - 1] as int - '0' as int)
  }

  /** Reading back the rendering of `n` yields `n`, so distinct numbers render differently. */
  lemma {:induction false} DecimalRoundTrip(n: nat)
    ensures DecimalValue(NatToString(n)) == n
  {
    if n >= 10 {
      var s := NatToString(n);
      assert s[..|s| - 1] == NatToString(n / 10);
      DecimalRoundTrip(n / 10);
    }
  }

  /** `Array.prototype.join(sep)` over a non-empty list of strings. */
  function Join(parts: seq<string>, sep: char): (r: string)
    requires |parts| >= 1
    ensures StartsWith(r, parts[0])
    ensures |parts| > 1 ==> sep in r
    decreases |parts|
  {
    if |parts| == 1 then parts[0] else parts[0] + [sep] + Join(parts[1..], sep)
  }

  /** Joining lines whose second one is blank puts two separators after the first line. */
  lemma JoinBlankSecond(lines: seq<string>, sep: char, p: string)
    requires |lines| >= 3 && lines[1] == [] && StartsWith(Join(lines[2..], sep), p)
    ensures StartsWith(Join(lines, sep), lines[0] + [sep, sep] + p)
  {
    var rest := Join(lines[2..], sep);
    assert lines[1..][1..] == lines[2..];
    assert Join(lines[1..], sep) == [sep] + rest;
    assert Join(lines, sep) == (lines[0] + [sep]) + ([sep] + rest);
    StartsWithPrepend([sep], rest, p);
    StartsWithPrepend(lines[0] + [sep], [sep] + rest, [sep] + p);
    assert (lines[0] + [sep]) + ([sep] + p) == lines[0] + [sep, sep] + p;
  }

  /** `String.prototype.split(sep)`: the pieces between occurrences of `sep`; never empty. */
  function Split(s: string, sep: char): (r: seq<string>)
    ensures |r| >= 1
  {
    if s == [] then [""]
    else if s[0] == sep then [""] + Split(s[1..], sep)
    else
      var rest := Split(s[1..], sep);
      [[s[0]] + rest[0]] + rest[1..]
  }

  /** Splitting `piece + sep + rest` yields `piece` first when `piece` holds no separator. */
  lemma {:induction false} SplitAfterPiece(piece: string, sep: char, rest: string)
    requires sep !in piece
    ensures Split(piece + [sep] + rest, sep) == [piece] + Split(rest, sep)
  {
    if piece == [] {
      assert piece + [sep] + rest == [sep] + rest;
      assert ([sep] + rest)[1..] == rest;
    } else {
      var s := piece + [sep] + rest;
      assert s[0] == piece[0] && s[0] != sep;
      assert s[1..] == piece[1..] + [sep] + rest;
      SplitAfterPiece(piece[1..], sep, rest);
      assert [piece[0]] + piece[1..] == piece;
    }
  }

  /** A piece without separators splits to itself. */
  lemma {:induction false} SplitPlain(piece: string, sep: char)
    requires sep !in piece
    ensures Split(piece, sep) == [piece]
  {
    if piece != [] {
      SplitPlain(piece[1..], sep);
      assert [piece[0]] + piece[1..] == piece;
    }
  }

  /** `join` and `split` are inverse when no part contains the separator. */
  lemma {:induction false} SplitJoin(parts: seq<string>, sep: char)
    requires |parts| >= 1
    requires forall i :: 0 <= i < |parts| ==> sep !in parts[i]
    ensures Split(Join(parts, sep), sep) == parts
    decreases |parts|
  {
    if |parts| == 1 {
      SplitPlain(parts[0], sep);
    } else {
      SplitAfterPiece(parts[0], sep, Join(parts[1..], sep));
      SplitJoin(parts[1..], sep);
      assert [parts[0]] + parts[1..] == parts;
    }
  }
}
