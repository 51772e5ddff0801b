/** The Python `str` operations the dashboard relies on, on `seq<char>`:
    `isspace`, `strip`, `splitlines`, `"\n".join`, slicing `s[:n]` and `str(int)`. */
module PyStr {

  /** `c.isspace()`: the characters Python treats as whitespace. */
  predicate IsSpace(c: char) {
    || c == ' '
    || '\t' <= c <= '\r'
    || '\U{1c}' <= c <= '\U{1f}'
    || c == '\U{85}' || c == '\U{a0}' || c == '\U{1680}'
    || '\U{2000}' <= c <= '\U{200a}'
    || c == '\U{2028}' || c == '\U{2029}' || c == '\U{202f}' || c == '\U{205f}' || c == '\U{3000}'
  }

  /** The characters at which `str.splitlines` ends a line ("\r\n" ends one line, not two). */
  predicate IsLineBreak(c: char) {
    || c == '\n' || c == '\r' || c == '\U{b}' || c == '\U{c}'
    || '\U{1c}' <= c <= '\U{1e}'
    || c == '\U{85}' || c == '\U{2028}' || c == '\U{2029}'
  }

  predicate NoLineBreak(s: string) {
    forall i :: 0 <= i < |s| ==> !IsLineBreak(s[i])
  }

  lemma NoLineBreakConcat(a: string, b: string)
    requires NoLineBreak(a) && NoLineBreak(b)
    ensures NoLineBreak(a + b)
  {
    assert forall i :: 0 <= i < |a + b| ==> (a + b)[i] == if i < |a| then a[i] else b[i - |a|];
  }

  predicate AllSpace(s: string) {
    forall i :: 0 <= i < |s| ==> IsSpace(s[i])
  }

  /** `s.lstrip()`: drops the leading whitespace. */
  function StripLeft(s: string): (r: string)
    ensures |r| <= |s|
    ensures r == [] || !IsSpace(r[0])
  {
    if s != [] && IsSpace(s[0]) then StripLeft(s[1..]) else s
  }

  /** `lstrip()` keeps a suffix and drops whitespace only. */
  lemma {:induction false} StripLeftDropsSpace(s: string)
    ensures StripLeft(s) == s[|s| - |StripLeft(s)|..]
    ensures AllSpace(s[..|s| - |StripLeft(s)|])
  {
    if s != [] && IsSpace(s[0]) {
      StripLeftDropsSpace(s[1..]);
      assert s[1..][..|s| - 1 - |StripLeft(s)|] == s[1..|s| - |StripLeft(s)|];
    }
  }

  /** `s.rstrip()`: drops the trailing whitespace. */
  function StripRight(s: string): (r: string)
    ensures |r| <= |s|
    ensures r == [] || !IsSpace(r[|r| - 1])
  {
    if s != [] && IsSpace(s[|s| - 1]) then StripRight(s[..|s| - 1]) else s
  }

  /** `rstrip()` keeps a prefix and drops whitespace only. */
  lemma {:induction false} StripRightDropsSpace(s: string)
    ensures StripRight(s) == s[..|StripRight(s)|]
    ensures AllSpace(s[|StripRight(s)|..])
  {
    if s != [] && IsSpace(s[|s| - 1]) {
      StripRightDropsSpace(s[..|s| - 1]);
      assert s[..|s| - 1][|StripRight(s)|..] == s[|StripRight(s)|..|s| - 1];
    }
  }

  /** `s.strip()`: the part of `s` between its leading whitespace (the part `lstrip()` drops)
      and its trailing whitespace. The
      result neither starts nor ends with whitespace, and it is empty exactly when `s` is
      all whitespace. */
  function Strip(s: string): (r: string)
    ensures |r| <= |s|
    ensures r == [] || (!IsSpace(r[0]) && !IsSpace(r[|r| - 1]))
    ensures r == [] <==> AllSpace(s)
    ensures var i := |s| - |StripLeft(s)|;
            i + |r| <= |s| && r == s[i..i + |r|] && AllSpace(s[..i]) && AllSpace(s[i + |r|..])
  {
    StripParts(s);
    StripRight(StripLeft(s))
  }

  /** Where the stripped text sits in `s`: after the `|s| - |lstrip(s)|` leading blanks. */
  lemma StripParts(s: string)
    ensures var l := StripLeft(s); var r := StripRight(l); var i := |s| - |l|;
            && i + |r| <= |s| && r == s[i..i + |r|]
            && AllSpace(s[..i]) && AllSpace(s[i + |r|..])
            && (r == [] || (!IsSpace(r[0]) && !IsSpace(r[|r| - 1])))
            && (r == [] <==> AllSpace(s))
  {
    StripSlice(s);
    StripEmpty(s);
  }

  lemma StripSlice(s: string)
    ensures var l := StripLeft(s); var r := StripRight(l); var i := |s| - |l|;
            && i + |r| <= |s| && r == s[i..i + |r|]
            && AllSpace(s[..i]) && AllSpace(s[i + |r|..])
  {
    var l := StripLeft(s);
    StripLeftDropsSpace(s);
    StripRightDropsSpace(l);
    InfixOfSuffix(s, l, StripRight(l));
  }

  lemma StripEmpty(s: string)
    ensures var r := StripRight(StripLeft(s));
            && (r == [] || (!IsSpace(r[0]) && !IsSpace(r[|r| - 1])))
            && (r == [] <==> AllSpace(s))
  {
    var l := StripLeft(s);
    var r := StripRight(l);
    var i := |s| - |l|;
    StripLeftDropsSpace(s);
    StripRightDropsSpace(l);
    if r == [] {
      assert AllSpace(s) by {
        assert l[|r|..] == l;
        AllSpaceConcat(s[..i], l);
        assert s[..i] + l == s;
      }
    } else {
      assert r[0] == l[0] == s[i];
    }
  }

  /** A prefix of a suffix of `s` is a slice of `s`, and what follows it is a suffix of `s`. */
  lemma InfixOfSuffix(s: string, l: string, r: string)
    requires |l| <= |s| && l == s[|s| - |l|..]
    requires |r| <= |l| && r == l[..|r|]
    ensures var i := |s| - |l|; r == s[i..i + |r|] && s[i + |r|..] == l[|r|..]
  {
  }

  lemma AllSpaceConcat(a: string, b: string)
    requires AllSpace(a) && AllSpace(b)
    ensures AllSpace(a + b)
  {
    assert forall k :: 0 <= k < |a + b| ==> (a + b)[k] == if k < |a| then a[k] else b[k - |a|];
  }

  /** A string that starts and ends with non-whitespace is its own `strip()`. */
  lemma StripOfTrimmed(s: string)
    requires s != [] && !IsSpace(s[0]) && !IsSpace(s[|s| - 1])
    ensures Strip(s) == s
  {
  }

  /** `strip()` is idempotent. */
  lemma StripIdempotent(s: string)
    ensures Strip(Strip(s)) == Strip(s)
  {
    if Strip(s) != [] {
      StripOfTrimmed(Strip(s));
    }
  }

  /** Trailing whitespace is all `rstrip()` drops: appending text that is not all whitespace
      keeps everything before it. */
  lemma {:induction false} StripRightAppend(a: string, b: string)
    requires !AllSpace(b)
    ensures StripRight(a + b) == a + StripRight(b)
  {
    if IsSpace(b[|b| - 1]) {
      assert (a + b)[..|a + b| - 1] == a + b[..|b| - 1];
      assert !AllSpace(b[..|b| - 1]) by {
        var k :| 0 <= k < |b| && !IsSpace(b[k]);
        assert b[..|b| - 1][k] == b[k];
      }
      StripRightAppend(a, b[..|b| - 1]);
    }
  }

  /** Appending whitespace to a text that ends in non-whitespace is undone by `rstrip()`. */
  lemma {:induction false} StripRightSpaceTail(a: string, b: string)
    requires a != [] && !IsSpace(a[|a| - 1]) && AllSpace(b)
    ensures StripRight(a + b) == a
  {
    if b == [] {
      assert a + b == a;
    } else {
      assert (a + b)[..|a + b| - 1] == a + b[..|b| - 1];
      var init := b[..|b| - 1];
      assert AllSpace(init) by {
        forall k | 0 <= k < |init| ensures IsSpace(init[k]) {
          assert init[k] == b[k];
        }
      }
      StripRightSpaceTail(a, b[..|b| - 1]);
    }
  }

  /** A text that starts with non-whitespace loses only its trailing whitespace to `strip()`. */
  lemma StripOfHead(s: string)
    requires s != [] && !IsSpace(s[0])
    ensures Strip(s) == StripRight(s)
  {
  }

  /** Leading whitespace does not survive `strip()`. */
  lemma StripAfterSpace(c: char, s: string)
    requires IsSpace(c)
    ensures Strip([c] + s) == Strip(s)
  {
    assert ([c] + s)[1..] == s;
  }

  /** `s.startswith(p)`. */
  predicate StartsWith(s: string, p: string) {
    |p| <= |s| && s[..|p|] == p
  }

  /** `s[:n]`: the first `n` characters, or all of `s` when it is shorter. */
  function Take(s: string, n: nat): (r: string)
    ensures |r| <= n && StartsWith(s, r)
    ensures |s| <= n ==> r == s
    ensures n <= |s| ==> |r| == n
  {
    if |s| <= n then s else s[..n]
  }

  /** The first index at which `p` holds, or `|s|` when it holds nowhere. */
  function IndexWhere(s: string, p: char -> bool): (k: nat)
    ensures k <= |s|
    ensures k < |s| ==> p(s[k])
    ensures forall i :: 0 <= i < k ==> !p(s[i])
  {
    if s == [] then 0
    else if p(s[0]) then 0
    else 1 + IndexWhere(s[1..], p)
  }

  /** `s.splitlines()`: the lines of `s` without their terminators; no empty last line
      for a terminated text, and no lines at all for the empty text. The first line is the
      text up to the first line break. */
  function SplitLines(s: string): (r: seq<string>)
    ensures s != [] <==> r != []
    ensures forall i :: 0 <= i < |r| ==> NoLineBreak(r[i])
    ensures r != [] ==> StartsWith(s, r[0]) && (|r[0]| == |s| || IsLineBreak(s[|r[0]|]))
    decreases |s|
  {
    if s == [] then []
    else
      var i := IndexWhere(s, IsLineBreak);
      if i == |s| then [s]
      else
        var w := if s[i] == '\r' && i + 1 < |s| && s[i + 1] == '\n' then 2 else 1;
        [s[..i]] + SplitLines(s[i + w..])
  }

  /** A non-empty text without line breaks is one line. */
  lemma SplitLinesOne(s: string)
    requires s != [] && NoLineBreak(s)
    ensures SplitLines(s) == [s]
  {
    assert IndexWhere(s, IsLineBreak) == |s|;
  }

  /** The terminators `splitlines` recognises before `rest`: "\r\n", or one line-break
      character ("\r" only when `rest` does not start with "\n"). */
  predicate EndsLine(t: string, rest: string) {
    || t == "\r\n"
    || (|t| == 1 && IsLineBreak(t[0]) && !(t[0] == '\r' && rest != [] && rest[0] == '\n'))
  }

  /** A line followed by its terminator contributes exactly that line. */
  lemma SplitLinesCons(a: string, t: string, b: string)
    requires NoLineBreak(a) && EndsLine(t, b)
    ensures SplitLines(a + t + b) == [a] + SplitLines(b)
  {
    var s := a + t + b;
    assert s[|a|] == t[0] && IsLineBreak(s[|a|]);
    assert forall i :: 0 <= i < |a| ==> s[i] == a[i];
    assert IndexWhere(s, IsLineBreak) == |a|;
    assert s[..|a|] == a;
    assert |a| + 1 < |s| ==> s[|a| + 1] == (t + b)[1];
    assert s[|a| + |t|..] == b;
  }

  /** `"\n".join(lines)`. */
  function JoinLines(lines: seq<string>): (r: string)
    ensures lines == [] ==> r == []
    ensures |lines| == 1 ==> r == lines[0]
  {
    if lines == [] then ""
    else if |lines| == 1 then lines[0]
    else lines[0] + "\n" + JoinLines(lines[1..])
  }

  /** Joining lines with "\n" and splitting the result gives the lines back, as long as no
      line holds a line break and the last one is not empty. */
  lemma {:induction false} SplitJoin(lines: seq<string>)
    requires lines != [] && lines[|lines| - 1] != ""
    requires forall i :: 0 <= i < |lines| ==> NoLineBreak(lines[i])
    ensures SplitLines(JoinLines(lines)) == lines
    decreases |lines|
  {
    if |lines| == 1 {
      SplitLinesOne(lines[0]);
    } else {
      var tail := lines[1..];
      assert tail[|tail| - 1] == lines[|lines| - 1];
      assert forall i :: 0 <= i < |tail| ==> NoLineBreak(tail[i]) by {
        forall i | 0 <= i < |tail| ensures NoLineBreak(tail[i]) {
          assert tail[i] == lines[i + 1];
        }
      }
      SplitJoin(tail);
      assert lines == [lines[0]] + tail;
      SplitJoinStep(lines[0], tail);
    }
  }

  /** The step of `SplitJoin`: one more break-free line in front. */
  lemma SplitJoinStep(a: string, rest: seq<string>)
    requires NoLineBreak(a) && rest != []
    requires SplitLines(JoinLines(rest)) == rest
    ensures SplitLines(JoinLines([a] + rest)) == [a] + rest
  {
    assert JoinLines([a] + rest) == a + "\n" + JoinLines(rest) by {
      assert ([a] + rest)[1..] == rest;
    }
    SplitLinesCons(a, "\n", JoinLines(rest));
  }

  function DigitChar(d: nat): (c: char)
    requires d < 10
    ensures '0' <= c <= '9' && c as int - '0' as int == d
  {
    ('0' as int + d) as char
  }

  /** `str(n)` for a natural number: decimal digits only, never empty. */
  function NatToString(n: nat): (r: string)
    ensures r != []
    ensures forall i :: 0 <= i < |r| ==> '0' <= r[i] <= '9'
  {
    if n < 10 then [DigitChar(n)] else NatToString(n / 10) + [DigitChar(n % 10)]
  }

  /** Distinct naturals print differently. */
  lemma {:induction false} NatToStringInjective(a: nat, b: nat)
    requires NatToString(a) == NatToString(b)
    ensures a == b
  {
    var ra, rb := NatToString(a), NatToString(b);
    assert (a < 10) == (|ra| == 1);
    assert (b < 10) == (|rb| == 1);
    if a < 10 {
      assert DigitChar(a) == ra[0] == rb[0] == DigitChar(b);
    } else {
      assert DigitChar(a % 10) == ra[|ra| - 1] == rb[|rb| - 1] == DigitChar(b % 10);
      assert NatToString(a / 10) == ra[..|ra| - 1] == rb[..|rb| - 1] == NatToString(b / 10);
      NatToStringInjective(a / 10, b / 10);
    }
  }

  /** `str(i)` for an integer: an optional minus sign followed by decimal digits. */
  function IntToString(i: int): (r: string)
    ensures r != []
    ensures forall k :: 0 <= k < |r| ==> r[k] == '-' || '0' <= r[k] <= '9'
  {
    if i < 0 then "-" + NatToString(-i) else NatToString(i)
  }

  /** Distinct integers print differently. */
  lemma IntToStringInjective(a: int, b: int)
    requires IntToString(a) == IntToString(b)
    ensures a == b
  {
    var r := IntToString(a);
    assert (a < 0) == (r[0] == '-');
    assert (b < 0) == (r[0] == '-');
    if a < 0 {
      assert NatToString(-a) == r[1..] == NatToString(-b);
      NatToStringInjective(-a, -b);
    } else {
      NatToStringInjective(a, b);
    }
  }

  /** The first position of `c` in `s`, or `|s|` when `c` does not occur. */
  function IndexOf(s: string, c: char): (k: nat)
    ensures k <= |s|
    ensures k < |s| ==> s[k] == c
    ensures c !in s[..k]
  {
    if s == [] then 0
    else if s[0] == c then 0
    else
      var k := 1 + IndexOf(s[1..], c);
      assert s[..k] == [s[0]] + s[1..][..k - 1];
      k
  }

  /** The pieces of `s` between occurrences of `c` (Python's `s.split(c)` for a one-character
      separator); never empty. */
  function SplitOn(s: string, c: char): (r: seq<string>)
    ensures r != []
    decreases |s|
  {
    var i := IndexOf(s, c);
    if i == |s| then [s] else [s[..i]] + SplitOn(s[i + 1..], c)
  }

  /** A piece free of the separator, followed by the separator, splits off as one piece. */
  lemma SplitOnCons(a: string, c: char, b: string)
    requires c !in a
    ensures SplitOn(a + [c] + b, c) == [a] + SplitOn(b, c)
  {
    var s := a + [c] + b;
    assert s[|a|] == c;
    assert s[..|a|] == a;
    assert IndexOf(s, c) == |a|;
    assert s[|a| + 1..] == b;
  }

  /** A string free of the separator is a single piece. */
  lemma SplitOnOne(s: string, c: char)
    requires c !in s
    ensures SplitOn(s, c) == [s]
  {
    assert s[..|s|] == s;
  }

  /** Splitting distributes over a separator placed between two texts. */
  lemma {:induction false} SplitOnAppend(a: string, c: char, b: string)
    ensures SplitOn(a + [c] + b, c) == SplitOn(a, c) + SplitOn(b, c)
    decreases |a|
  {
    if c !in a {
      SplitOnOne(a, c);
      SplitOnCons(a, c, b);
    } else {
      var i := FirstIndexOf(a, c);
      var head, tail := a[..i], a[i + 1..];
      assert a == head + [c] + tail;
      SplitOnAppend(tail, c, b);
      SplitOnAppendStep(head, c, tail, b);
    }
  }

  /** The inductive step of `SplitOnAppend`: a first piece free of the separator. */
  lemma SplitOnAppendStep(head: string, c: char, tail: string, b: string)
    requires c !in head
    requires SplitOn(tail + [c] + b, c) == SplitOn(tail, c) + SplitOn(b, c)
    ensures SplitOn(head + [c] + tail + [c] + b, c) == SplitOn(head + [c] + tail, c) + SplitOn(b, c)
  {
    SplitOnHead(head, c, tail + [c] + b);
    Regroup(head, [c], tail, b);
    SplitOnCons(head, c, tail);
    ConsAppend(head, SplitOn(tail, c), SplitOn(b, c));
  }

  /** `SplitOnCons` for a text whose end is written as one concatenation. */
  lemma SplitOnHead(head: string, c: char, rest: string)
    requires c !in head
    ensures SplitOn(head + [c] + rest, c) == [head] + SplitOn(rest, c)
  {
    SplitOnCons(head, c, rest);
  }

  lemma ConsAppend<T>(h: T, x: seq<T>, y: seq<T>)
    ensures [h] + (x + y) == [h] + x + y
  {
  }

  lemma Regroup(h: string, c: string, t: string, b: string)
    ensures h + c + t + c + b == h + c + (t + c + b)
  {
  }

  /** The first position of `c` in a text that contains it. */
  lemma FirstIndexOf(a: string, c: char) returns (i: nat)
    requires c in a
    ensures i < |a| && a[i] == c && c !in a[..i]
  {
    i := IndexOf(a, c);
    assert a[..|a|] == a;
  }
}
