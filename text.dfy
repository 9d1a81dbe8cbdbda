/**
 * The string helpers the plugin relies on: `str.strip()`, `str.split(" ")`,
 * `str.isdigit()` and `int(...)` on a digit string, over ASCII.
 */
module Text {

  /** The ASCII characters for which Python's `str.isspace()` holds. */
  predicate IsSpace(c: char)
  {
    c == ' ' || c == '\t' || c == '\n' || c == '\r' || c == '\U{B}' || c == '\U{C}'
    || ('\U{1C}' <= c <= '\U{1F}')
  }

  predicate AllSpace(s: string)
  {
    forall k :: 0 <= k < |s| ==> IsSpace(s[k])
  }

  /** `s.lstrip()`: drops the leading whitespace and nothing else. */
  function StripStart(s: string): (r: string)
    ensures |r| <= |s| && r == s[|s| - |r|..]
    ensures AllSpace(s[..|s| - |r|])
    ensures r != [] ==> !IsSpace(r[0])
  {
    if s != [] && IsSpace(s[0]) then
      var r := StripStart(s[1..]);
      DropFirst(s, |s| - 1 - |r|);
      AllSpaceCons(s[0], s[1..][..|s| - 1 - |r|]);
      r
    else s
  }

  /** `s.rstrip()`: drops the trailing whitespace and nothing else. */
  function StripEnd(s: string): (r: string)
    ensures |r| <= |s| && r == s[..|r|]
    ensures AllSpace(s[|r|..])
    ensures r != [] ==> !IsSpace(r[|r| - 1])
  {
    if s != [] && IsSpace(s[|s| - 1]) then
      var r := StripEnd(s[..|s| - 1]);
      DropLast(s, |r|);
      AllSpaceSnoc(s[..|s| - 1][|r|..], s[|s| - 1]);
      r
    else s
  }

  /** Slicing `s` after its first character. */
  lemma DropFirst(s: string, n: nat)
    requires n < |s|
    ensures s[..n + 1] == [s[0]] + s[1..][..n] && s[1..][n..] == s[n + 1..]
  {
  }

  /** Slicing `s` before its last character. */
  lemma DropLast(s: string, n: nat)
    requires n < |s|
    ensures s[..|s| - 1][..n] == s[..n] && s[n..] == s[..|s| - 1][n..] + [s[|s| - 1]]
  {
  }

  lemma AllSpaceCons(c: char, u: string)
    requires IsSpace(c) && AllSpace(u)
    ensures AllSpace([c] + u)
  {
  }

  lemma AllSpaceSnoc(u: string, c: char)
    requires AllSpace(u) && IsSpace(c)
    ensures AllSpace(u + [c])
  {
  }

  /** Where `s.strip()` starts: the length of the leading whitespace. */
  function StripLo(s: string): (i: nat)
    ensures i <= |s|
  {
    |s| - |StripStart(s)|
  }

  /**
   * `r` is `s` with its leading and trailing whitespace removed: the slice
   * `s[i..i+|r|]`, everything cut off on either side is whitespace, and `r`
   * neither starts nor ends with whitespace.
   */
  predicate TrimmedSliceOf(s: string, i: nat, r: string)
  {
    i + |r| <= |s| && r == s[i..i + |r|] &&
    AllSpace(s[..i]) && AllSpace(s[i + |r|..]) &&
    (r != [] ==> !IsSpace(r[0]) && !IsSpace(r[|r| - 1]))
  }

  /** `s.strip()`: `s` without its leading and its trailing whitespace. */
  function Strip(s: string): (r: string)
  {
    StripEnd(StripStart(s))
  }

  /** What `strip()` promises: the result is the trimmed slice of `s` after its leading whitespace. */
  lemma StripIsTrimmedSlice(s: string)
    ensures TrimmedSliceOf(s, StripLo(s), Strip(s))
  {
    var t := StripStart(s);
    TrimmedSlice(s, t, StripEnd(t), |s| - |t|);
  }

  /** A right-trimmed prefix of a left-trimmed suffix is a trimmed slice. */
  lemma TrimmedSlice(s: string, t: string, r: string, i: nat)
    requires i <= |s| && t == s[i..] && AllSpace(s[..i]) && (t != [] ==> !IsSpace(t[0]))
    requires |r| <= |t| && r == t[..|r|] && AllSpace(t[|r|..]) && (r != [] ==> !IsSpace(r[|r| - 1]))
    ensures TrimmedSliceOf(s, i, r)
  {
    assert s[i + |r|..] == t[|r|..];
    if r != [] {
      assert r[0] == t[0];
    }
  }

  /** Stripping twice is stripping once. */
  lemma StripIdempotent(s: string)
    ensures Strip(Strip(s)) == Strip(s)
  {
    var r := Strip(s);
    var t := StripStart(s);
    if r != [] {
      assert !IsSpace(r[0]) by {
        assert r == t[..|r|];
        assert r[0] == t[0];
      }
      assert StripStart(r) == r;
    }
  }

  /** A string strips to nothing exactly when it is all whitespace. */
  lemma StripEmptyIffAllSpace(s: string)
    ensures Strip(s) == [] <==> AllSpace(s)
  {
    var t := StripStart(s);
    if Strip(s) == [] {
      assert AllSpace(t[|StripEnd(t)|..]);
      assert t == t[|StripEnd(t)|..];
      assert t == [];
      assert s[..|s| - |t|] == s;
    } else {
      var r := Strip(s);
      assert !IsSpace(r[0]);
      assert r[0] == t[0];
      assert t == s[|s| - |t|..];
      assert s[|s| - |t|] == t[0];
    }
  }

  /** Concatenation of `parts` with `sep` between consecutive parts (`sep.join(parts)`). */
  function Join(parts: seq<string>, sep: string): (r: string)
    requires |parts| >= 1
  {
    if |parts| == 1 then parts[0] else parts[0] + sep + Join(parts[1..], sep)
  }

  /** `s.split(" ")`: the pieces between single spaces, empty pieces included. */
  function SplitOnSpace(s: string): (r: seq<string>)
    ensures |r| >= 1
  {
    if s == [] then [""]
    else
      var rest := SplitOnSpace(s[1..]);
      if s[0] == ' ' then [""] + rest
      else [[s[0]] + rest[0]] + rest[1..]
  }

  /** No piece of `split(" ")` contains a space. */
  lemma {:induction false} SplitPiecesHaveNoSpace(s: string)
    ensures forall k :: 0 <= k < |SplitOnSpace(s)| ==> ' ' !in SplitOnSpace(s)[k]
  {
    if s != [] {
      SplitPiecesHaveNoSpace(s[1..]);
      var rest := SplitOnSpace(s[1..]);
      var parts := SplitStep(s);
      forall k | 0 <= k < |parts| ensures ' ' !in parts[k] {
        if s[0] == ' ' {
          if k > 0 {
            assert parts[k] == rest[k - 1];
          }
        } else if k == 0 {
          assert parts[0] == [s[0]] + rest[0];
        } else {
          assert parts[k] == rest[k];
        }
      }
    }
  }

  /** Splitting on " " and joining with " " gives the string back. */
  lemma {:induction false} SplitJoinRoundTrip(s: string)
    ensures Join(SplitOnSpace(s), " ") == s
  {
    if s != [] {
      var rest := SplitOnSpace(s[1..]);
      SplitJoinRoundTrip(s[1..]);
      if s[0] == ' ' {
        assert SplitOnSpace(s)[1..] == rest;
      } else {
        var r := SplitOnSpace(s);
        assert r[1..] == rest[1..];
        if |rest| == 1 {
          assert r == [[s[0]] + rest[0]];
        } else {
          assert Join(rest, " ") == rest[0] + " " + Join(rest[1..], " ");
          assert Join(r, " ") == [s[0]] + rest[0] + " " + Join(rest[1..], " ");
        }
      }
    }
  }

  /** The last piece of `s.split(" ")`. */
  function LastToken(s: string): (r: string)
  {
    var parts := SplitOnSpace(s);
    parts[|parts| - 1]
  }

  /** The last piece is the space-free tail of `s` after its last space (all of `s` if it has none). */
  lemma {:induction false} LastTokenIsTail(s: string)
    ensures |LastToken(s)| <= |s| && LastToken(s) == s[|s| - |LastToken(s)|..]
    ensures ' ' !in LastToken(s)
    ensures |LastToken(s)| < |s| ==> s[|s| - |LastToken(s)| - 1] == ' '
    ensures |SplitOnSpace(s)| == 1 <==> LastToken(s) == s
  {
    if s != [] {
      var tail := s[1..];
      LastTokenIsTail(tail);
      var lt := LastToken(tail);
      if s[0] == ' ' {
        LastTokenSpaceStep(s);
      } else {
        LastTokenCharStep(s);
      }
      if s[0] != ' ' && |SplitOnSpace(tail)| == 1 {
        assert LastToken(s) == [s[0]] + tail == s;
      } else {
        assert LastToken(s) == lt;
        assert s[|s| - |lt|..] == tail[|tail| - |lt|..];
        if |lt| < |tail| {
          assert s[|s| - |lt| - 1] == tail[|tail| - |lt| - 1];
        }
      }
    }
  }

  /** A leading space starts a new piece and leaves the last piece alone. */
  lemma LastTokenSpaceStep(s: string)
    requires s != [] && s[0] == ' '
    ensures |SplitOnSpace(s)| == |SplitOnSpace(s[1..])| + 1
    ensures LastToken(s) == LastToken(s[1..])
  {
    var rest := SplitOnSpace(s[1..]);
    var parts := SplitStep(s);
    assert parts[|parts| - 1] == rest[|rest| - 1];
  }

  /** Any other leading character joins the first piece; it reaches the last piece only if that is the only one. */
  lemma LastTokenCharStep(s: string)
    requires s != [] && s[0] != ' '
    ensures |SplitOnSpace(s)| == |SplitOnSpace(s[1..])|
    ensures |SplitOnSpace(s)| == 1 ==> LastToken(s) == [s[0]] + LastToken(s[1..])
    ensures |SplitOnSpace(s)| > 1 ==> LastToken(s) == LastToken(s[1..])
  {
    var rest := SplitOnSpace(s[1..]);
    var parts := SplitStep(s);
    if |rest| > 1 {
      assert parts[|parts| - 1] == rest[1..][|rest| - 2];
    }
  }

  /** `split(" ")` unfolded once, without its contract in view. */
  lemma SplitStep(s: string) returns (parts: seq<string>)
    requires s != []
    ensures parts == SplitOnSpace(s)
    ensures var rest := SplitOnSpace(s[1..]);
      parts == if s[0] == ' ' then [""] + rest else [[s[0]] + rest[0]] + rest[1..]
  {
    parts := SplitOnSpace(s);
  }



  predicate IsDigit(c: char)
  {
    '0' <= c <= '9'
  }

  /** `s.isdigit()` on ASCII: non-empty and every character a decimal digit. */
  predicate IsDigits(s: string)
  {
    |s| > 0 && forall k :: 0 <= k < |s| ==> IsDigit(s[k])
  }

  function DigitValue(c: char): (d: nat)
    requires IsDigit(c)
    ensures d < 10
  {
    (c as int) - ('0' as int)
  }

  function DigitChar(d: nat): (c: char)
    requires d < 10
    ensures IsDigit(c) && DigitValue(c) == d
  {
    (('0' as int) + d) as char
  }

  /** `int(s)` for a digit string: its base-10 value (leading zeros allowed). */
  function ParseDecimal(s: string): (n: nat)
    requires forall k :: 0 <= k < |s| ==> IsDigit(s[k])
  {
    if s == [] then 0
    else ParseDecimal(s[..|s| - 1]) * 10 + DigitValue(s[|s| - 1])
  }

  /** `str(n)`: the base-10 digits of `n` without leading zeros. */
  function ShowDecimal(n: nat): (s: string)
    ensures IsDigits(s)
    ensures |s| > 1 ==> s[0] != '0'
  {
    if n < 10 then [DigitChar(n)] else ShowDecimal(n / 10) + [DigitChar(n % 10)]
  }

  /** Parsing the printed form of a number gives the number back. */
  lemma {:induction false} ParseShowRoundTrip(n: nat)
    ensures ParseDecimal(ShowDecimal(n)) == n
  {
    if n >= 10 {
      var s := ShowDecimal(n);
      assert s[..|s| - 1] == ShowDecimal(n / 10);
      ParseShowRoundTrip(n / 10);
    }
  }

  /** A leading zero does not change the value: `int("007") == 7`. */
  lemma {:induction false} LeadingZeroIgnored(s: string)
    requires forall k :: 0 <= k < |s| ==> IsDigit(s[k])
    ensures ParseDecimal("0" + s) == ParseDecimal(s)
  {
    if s != [] {
      var t := "0" + s;
      assert t[..|t| - 1] == "0" + s[..|s| - 1];
      LeadingZeroIgnored(s[..|s| - 1]);
    }
  }
}
