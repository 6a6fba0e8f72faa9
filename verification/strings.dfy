/** The Python 2 `str` operations the deployment scripts use, on `seq<char>`,
    with the facts about them that the other modules need. */
module PyStrings {

  /** `s.split(c)` for a one-character separator: always at least one part. */
  function Split(s: string, c: char): (r: seq<string>)
    ensures |r| >= 1
    decreases |s|
  {
    if |s| == 0 then [""]
    else
      var rest := Split(s[1..], c);
      if s[0] == c then [""] + rest
      else [[s[0]] + rest[0]] + rest[1..]
  }

  /** `sep.join(xs)`. */
  function Join(xs: seq<string>, sep: string): string
    decreases |xs|
  {
    if |xs| == 0 then ""
    else if |xs| == 1 then xs[0]
    else xs[0] + sep + Join(xs[1..], sep)
  }

  /** `''.join(xs)`, folded from the right end so that loops appending at the end match it. */
  function Concat(xs: seq<string>): string
    decreases |xs|
  {
    if |xs| == 0 then "" else Concat(xs[..|xs| - 1]) + xs[|xs| - 1]
  }

  /** Number of occurrences of `c` in `s`. */
  function Count(s: string, c: char): nat
    decreases |s|
  {
    if |s| == 0 then 0 else (if s[0] == c then 1 else 0) + Count(s[1..], c)
  }

  predicate StartsWith(s: string, p: string) {
    |p| <= |s| && s[..|p|] == p
  }

  lemma StartsWithAppend(a: string, b: string)
    ensures StartsWith(a + b, a)
  {
    assert (a + b)[..|a|] == a;
  }

  /** `sub in s`. */
  predicate Contains(s: string, sub: string)
    decreases |s|
  {
    StartsWith(s, sub) || (|s| > 0 && Contains(s[1..], sub))
  }

  /** The characters Python 2's `str.strip()` removes. */
  predicate IsSpace(ch: char) {
    ch == ' ' || ch == '\t' || ch == '\n' || ch == '\r' || ch == '\U{000B}' || ch == '\U{000C}'
  }

  function LStrip(s: string): (r: string)
    ensures |r| <= |s| && r == s[|s| - |r|..]
    ensures forall k :: 0 <= k < |s| - |r| ==> IsSpace(s[k])
    ensures |r| > 0 ==> !IsSpace(r[0])
    decreases |s|
  {
    if |s| > 0 && IsSpace(s[0]) then
      var r := LStrip(s[1..]);
      assert s[1..][|s| - 1 - |r|..] == s[|s| - |r|..];
      assert forall k :: 1 <= k < |s| - |r| ==> s[k] == s[1..][k - 1];
      r
    else s
  }

  function RStrip(s: string): (r: string)
    ensures |r| <= |s| && r == s[..|r|]
    ensures forall k :: |r| <= k < |s| ==> IsSpace(s[k])
    ensures |r| > 0 ==> !IsSpace(r[|r| - 1])
    decreases |s|
  {
    if |s| > 0 && IsSpace(s[|s| - 1]) then RStrip(s[..|s| - 1]) else s
  }

  /** `s.strip()`: a slice of `s` with no whitespace at either end. */
  function Strip(s: string): (r: string)
    ensures |r| <= |s|
    ensures |r| > 0 ==> !IsSpace(r[0]) && !IsSpace(r[|r| - 1])
  {
    RStrip(LStrip(s))
  }

  /** `s.rstrip(c)` for a single character. */
  function RStripChar(s: string, c: char): (r: string)
    ensures |r| <= |s| && r == s[..|r|]
    ensures forall k :: |r| <= k < |s| ==> s[k] == c
    ensures |r| > 0 ==> r[|r| - 1] != c
    decreases |s|
  {
    if |s| > 0 && s[|s| - 1] == c then RStripChar(s[..|s| - 1], c) else s
  }

  /** A string that does not end in `c` is left alone. */
  lemma RStripCharIdle(s: string, c: char)
    requires |s| > 0 && s[|s| - 1] != c
    ensures RStripChar(s, c) == s
  {
  }

  function LowerChar(ch: char): char {
    if 'A' <= ch <= 'Z' then (ch as int + 32) as char else ch
  }

  /** `s.lower()` on a Python 2 byte string: ASCII letters only. */
  function Lower(s: string): (r: string)
    ensures |r| == |s|
    ensures forall k :: 0 <= k < |s| ==> r[k] == LowerChar(s[k])
  {
    seq(|s|, k requires 0 <= k < |s| => LowerChar(s[k]))
  }

  function DigitChar(d: nat): char
    requires d < 10
  {
    "0123456789"[d]
  }

  /** `str(n)` for a natural number. */
  function NatText(n: nat): (r: string)
    ensures |r| >= 1
    ensures n >= 10 ==> |r| >= 2
    decreases n
  {
    if n < 10 then [DigitChar(n)] else NatText(n / 10) + [DigitChar(n % 10)]
  }

  /** `str(i)` for an integer. */
  function IntText(i: int): string {
    if i < 0 then "-" + NatText(-i) else NatText(i)
  }

  /** `s.replace(c, r)` for a one-character pattern. */
  function ReplaceChar(s: string, c: char, r: string): string
    decreases |s|
  {
    if |s| == 0 then "" else (if s[0] == c then r else [s[0]]) + ReplaceChar(s[1..], c, r)
  }

  /** Index of the first line break (`\n` or `\r`) in `s`, or `|s|`. */
  function LineEnd(s: string): (i: nat)
    ensures i <= |s|
    ensures i < |s| ==> s[i] == '\n' || s[i] == '\r'
    ensures forall k :: 0 <= k < i ==> s[k] != '\n' && s[k] != '\r'
    decreases |s|
  {
    if |s| == 0 || s[0] == '\n' || s[0] == '\r' then 0 else 1 + LineEnd(s[1..])
  }

  /** A line: it holds neither `\n` nor `\r`. */
  predicate BreakFree(x: string) {
    '\n' !in x && '\r' !in x
  }

  /** Where the line after the first break starts: past `\r\n`, `\n` or `\r`,
      or `|s|` when there is no break. */
  function NextStart(s: string): (next: nat)
    ensures LineEnd(s) < next <= |s| || (LineEnd(s) == |s| && next == |s|)
  {
    var i := LineEnd(s);
    if i == |s| then |s|
    else if s[i] == '\r' && i + 1 < |s| && s[i + 1] == '\n' then i + 2
    else i + 1
  }

  /** `s.splitlines()` on a Python 2 byte string: breaks at `\n`, `\r` and `\r\n`,
      and a final break does not start an empty line. */
  function SplitLines(s: string): (r: seq<string>)
    ensures |s| == 0 <==> |r| == 0
    ensures forall k :: 0 <= k < |r| ==> BreakFree(r[k])
    decreases |s|
  {
    if |s| == 0 then []
    else
      [s[..LineEnd(s)]] + SplitLines(s[NextStart(s)..])
  }

  // ---------------------------------------------------------------------
  // Facts

  lemma ConcatAppend(xs: seq<string>, x: string)
    ensures Concat(xs + [x]) == Concat(xs) + x
  {
    assert (xs + [x])[..|xs|] == xs;
  }

  lemma {:induction false} ConcatSplit(xs: seq<string>, ys: seq<string>)
    ensures Concat(xs + ys) == Concat(xs) + Concat(ys)
    decreases |ys|
  {
    if |ys| == 0 {
      assert xs + ys == xs;
    } else {
      var ys' := ys[..|ys| - 1];
      assert xs + ys == (xs + ys') + [ys[|ys| - 1]];
      ConcatAppend(xs + ys', ys[|ys| - 1]);
      ConcatSplit(xs, ys');
    }
  }

  lemma {:induction false} SplitPartsAreSeparatorFree(s: string, c: char)
    ensures forall k :: 0 <= k < |Split(s, c)| ==> c !in Split(s, c)[k]
    decreases |s|
  {
    if |s| > 0 {
      SplitPartsAreSeparatorFree(s[1..], c);
    }
  }

  lemma {:induction false} SplitLength(s: string, c: char)
    ensures |Split(s, c)| == Count(s, c) + 1
    decreases |s|
  {
    if |s| > 0 {
      SplitLength(s[1..], c);
    }
  }

  /** Joining the parts of a split with the separator gives the string back. */
  lemma {:induction false} JoinSplit(s: string, c: char)
    ensures Join(Split(s, c), [c]) == s
    decreases |s|
  {
    if |s| > 0 {
      var rest := Split(s[1..], c);
      JoinSplit(s[1..], c);
      if s[0] == c {
        assert Split(s, c) == [""] + rest;
        assert ([""] + rest)[1..] == rest;
      } else {
        var r := Split(s, c);
        assert r == [[s[0]] + rest[0]] + rest[1..];
        if |rest| == 1 {
          assert Join(rest, [c]) == rest[0];
        } else {
          assert Join(rest, [c]) == rest[0] + [c] + Join(rest[1..], [c]);
          assert r[1..] == rest[1..];
        }
      }
    }
  }

  lemma {:induction false} SplitSeparatorFree(x: string, c: char)
    requires c !in x
    ensures Split(x, c) == [x]
    decreases |x|
  {
    if |x| > 0 {
      SplitSeparatorFree(x[1..], c);
      assert [x[0]] + x[1..] == x;
    }
  }

  lemma {:induction false} SplitAfterPart(x: string, c: char, t: string)
    requires c !in x
    ensures Split(x + [c] + t, c) == [x] + Split(t, c)
    decreases |x|
  {
    if |x| == 0 {
      assert x + [c] + t == [c] + t;
      assert ([c] + t)[1..] == t;
    } else {
      var s := x + [c] + t;
      assert s[0] == x[0];
      assert s[1..] == x[1..] + [c] + t;
      SplitAfterPart(x[1..], c, t);
      assert [x[0]] + x[1..] == x;
    }
  }

  /** Two separator-free parts in front of the rest. */
  lemma SplitAfterTwo(a: string, b: string, c: char, q: string)
    requires c !in a && c !in b
    ensures Split(a + [c] + (b + [c] + q), c) == [a, b] + Split(q, c)
  {
    SplitAfterPart(b, c, q);
    SplitAfterPart(a, c, b + [c] + q);
    assert [a] + ([b] + Split(q, c)) == [a, b] + Split(q, c);
  }

  /** Splitting a join of separator-free parts gives the parts back. */
  lemma {:induction false} SplitJoin(xs: seq<string>, c: char)
    requires |xs| >= 1
    requires forall k :: 0 <= k < |xs| ==> c !in xs[k]
    ensures Split(Join(xs, [c]), c) == xs
    decreases |xs|
  {
    if |xs| == 1 {
      SplitSeparatorFree(xs[0], c);
    } else {
      SplitJoin(xs[1..], c);
      SplitAfterPart(xs[0], c, Join(xs[1..], [c]));
      assert [xs[0]] + xs[1..] == xs;
    }
  }

  /** At a `\n` break: the first line, then the lines of the rest. */
  lemma SplitLinesAtBreak(s: string, i: nat)
    requires i == LineEnd(s) && i < |s| && s[i] == '\n'
    ensures SplitLines(s) == [s[..i]] + SplitLines(s[i + 1..])
  {
    assert NextStart(s) == i + 1;
  }

  lemma SplitAround(s: string, i: nat)
    requires i < |s| && s[i] == '\n'
    ensures s == s[..i] + "\n" + s[i + 1..]
  {
    assert s == s[..i] + [s[i]] + s[i + 1..];
  }

  /** Text without a break is one line. */
  lemma SplitLinesOneLine(s: string)
    requires |s| > 0 && LineEnd(s) == |s|
    ensures SplitLines(s) == [s]
  {
    assert s[..|s|] == s;
  }

  lemma JoinCons(x: string, ys: seq<string>, sep: string)
    requires |ys| >= 1
    ensures Join([x] + ys, sep) == x + sep + Join(ys, sep)
  {
    assert ([x] + ys)[1..] == ys;
  }

  /** On `\n`-separated text, joining the lines with `\n` gives the text back,
      less the one final break when there is one: every character is kept. */
  lemma {:induction false} SplitLinesJoin(s: string)
    requires '\r' !in s
    ensures |s| > 0 && s[|s| - 1] == '\n' ==> Join(SplitLines(s), "\n") + "\n" == s
    ensures (|s| == 0 || s[|s| - 1] != '\n') ==> Join(SplitLines(s), "\n") == s
    decreases |s|
  {
    if |s| > 0 {
      var i := LineEnd(s);
      if i == |s| {
        SplitLinesOneLine(s);
      } else {
        assert s[i] != '\r';
        SplitLinesAtBreak(s, i);
        SplitAround(s, i);
        var rest := s[i + 1..];
        if |rest| > 0 {
          assert rest[|rest| - 1] == s[|s| - 1];
          SplitLinesJoin(rest);
          JoinCons(s[..i], SplitLines(rest), "\n");
        }
      }
    }
  }

  lemma {:induction false} CountAppend(x: string, y: string, c: char)
    ensures Count(x + y, c) == Count(x, c) + Count(y, c)
    decreases |x|
  {
    if |x| == 0 {
      assert x + y == y;
    } else {
      assert (x + y)[1..] == x[1..] + y;
      CountAppend(x[1..], y, c);
    }
  }

  lemma {:induction false} CountAbsent(s: string, c: char)
    requires forall k :: 0 <= k < |s| ==> s[k] != c
    ensures Count(s, c) == 0
    decreases |s|
  {
    if |s| > 0 {
      CountAbsent(s[1..], c);
    }
  }

  lemma CountDropSpaces(s: string, m: nat, c: char)
    requires m <= |s| && !IsSpace(c)
    requires forall k :: 0 <= k < m ==> IsSpace(s[k])
    ensures Count(s[m..], c) == Count(s, c)
  {
    assert s == s[..m] + s[m..];
    CountAppend(s[..m], s[m..], c);
    CountAbsent(s[..m], c);
  }

  lemma CountTakeSpaces(s: string, m: nat, c: char)
    requires m <= |s| && !IsSpace(c)
    requires forall k :: m <= k < |s| ==> IsSpace(s[k])
    ensures Count(s[..m], c) == Count(s, c)
  {
    assert s == s[..m] + s[m..];
    CountAppend(s[..m], s[m..], c);
    CountAbsent(s[m..], c);
  }

  /** Stripping whitespace keeps every non-whitespace character. */
  lemma StripKeepsCount(s: string, c: char)
    requires !IsSpace(c)
    ensures Count(Strip(s), c) == Count(s, c)
  {
    var l := LStrip(s);
    CountDropSpaces(s, |s| - |l|, c);
    CountTakeSpaces(l, |RStrip(l)|, c);
  }

  lemma StripKeepsAbsence(s: string, c: char)
    requires c !in s
    ensures c !in Strip(s)
  {
    var l := LStrip(s);
    var r := RStrip(l);
    assert forall k :: 0 <= k < |r| ==> r[k] == s[|s| - |l| + k];
  }

  lemma {:induction false} LStripIdle(s: string)
    requires |s| == 0 || !IsSpace(s[0])
    ensures LStrip(s) == s
  {
  }

  /** `strip()` is idempotent. */
  lemma StripIdempotent(s: string)
    ensures Strip(Strip(s)) == Strip(s)
  {
    var t := Strip(s);
    var l := LStrip(s);
    if |t| > 0 {
      assert t == l[..|t|];
      assert !IsSpace(t[0]);
    }
    LStripIdle(t);
  }

  lemma NatTextDigits(n: nat)
    ensures NatText(n)[|NatText(n)| - 1] == DigitChar(n % 10)
  {
  }

  lemma DigitCharInjective(a: nat, b: nat)
    requires a < 10 && b < 10 && DigitChar(a) == DigitChar(b)
    ensures a == b
  {
  }

  /** Distinct numbers have distinct decimal texts. */
  lemma {:induction false} NatTextInjective(a: nat, b: nat)
    requires NatText(a) == NatText(b)
    ensures a == b
    decreases a + b
  {
    var ta, tb := NatText(a), NatText(b);
    NatTextDigits(a);
    NatTextDigits(b);
    DigitCharInjective(a % 10, b % 10);
    if a >= 10 && b >= 10 {
      assert NatText(a / 10) == ta[..|ta| - 1];
      assert NatText(b / 10) == tb[..|tb| - 1];
      NatTextInjective(a / 10, b / 10);
    }
  }
}
