/** The handful of Python string operations the job queue relies on, written
    out over `seq<char>`: `strip`, `in`, whitespace `split`, `" ".join`,
    `splitlines`, `split(c, 1)`, and the `os.path` name helpers. */
module Text {

  /** The characters Python's `str.isspace()` accepts; `strip()` and the
      argument-less `split()` cut on these. */
  const PySpace: set<char> := {
    ' ', '\t', '\n', '\r', '\U{B}', '\U{C}', '\U{1C}', '\U{1D}', '\U{1E}', '\U{1F}',
    '\U{85}', '\U{A0}', '\U{1680}',
    '\U{2000}', '\U{2001}', '\U{2002}', '\U{2003}', '\U{2004}', '\U{2005}',
    '\U{2006}', '\U{2007}', '\U{2008}', '\U{2009}', '\U{200A}',
    '\U{2028}', '\U{2029}', '\U{202F}', '\U{205F}', '\U{3000}'
  }

  /** The characters `str.splitlines()` treats as line boundaries. */
  const LineBreaks: set<char> := {
    '\n', '\r', '\U{B}', '\U{C}', '\U{1C}', '\U{1D}', '\U{1E}', '\U{85}', '\U{2028}', '\U{2029}'
  }

  /** The whitespace of `shlex.split` in POSIX mode. */
  const ShlexSpace: set<char> := {' ', '\t', '\r', '\n'}

  predicate NoneIn(s: string, cs: set<char>) {
    forall i :: 0 <= i < |s| ==> s[i] !in cs
  }

  /** A string `strip()` leaves alone. */
  predicate IsStripped(s: string) {
    s == [] || (s[0] !in PySpace && s[|s| - 1] !in PySpace)
  }

  predicate IsPrefix(p: string, s: string) {
    |p| <= |s| && s[..|p|] == p
  }

  /** Python's `t in s` for strings. */
  predicate Contains(s: string, t: string)
    decreases |s|
  {
    IsPrefix(t, s) || (s != [] && Contains(s[1..], t))
  }

  lemma {:induction false} ContainsAt(s: string, t: string, i: nat)
    requires i + |t| <= |s| && s[i..i + |t|] == t
    ensures Contains(s, t)
    decreases i
  {
    if i > 0 {
      assert s[1..][i - 1..i - 1 + |t|] == s[i..i + |t|];
      ContainsAt(s[1..], t, i - 1);
    }
  }

  /** Anything found inside `t` is also found inside any `s` that holds `t`. */
  lemma {:induction false} ContainsChar(s: string, t: string, c: char)
    requires Contains(s, t) && c in t
    ensures c in s
    decreases |s|
  {
    if IsPrefix(t, s) {
      var k :| 0 <= k < |t| && t[k] == c;
      assert s[k] == c;
    } else {
      ContainsChar(s[1..], t, c);
    }
  }

  lemma {:induction false} ContainsExtend(s: string, t: string, a: string, b: string)
    requires Contains(s, t)
    ensures Contains(a + s + b, t)
    decreases |s|
  {
    if IsPrefix(t, s) {
      assert (a + s + b)[|a|..|a| + |t|] == t;
      ContainsAt(a + s + b, t, |a|);
    } else {
      ContainsExtend(s[1..], t, a + [s[0]], b);
      assert a + [s[0]] + s[1..] + b == a + s + b;
    }
  }

  lemma NoneInConcat(a: string, b: string, cs: set<char>)
    ensures NoneIn(a + b, cs) <==> NoneIn(a, cs) && NoneIn(b, cs)
  {
    if NoneIn(a, cs) && NoneIn(b, cs) {
      forall i | 0 <= i < |a + b| ensures (a + b)[i] !in cs {
        if i >= |a| { assert (a + b)[i] == b[i - |a|]; }
      }
    }
    if NoneIn(a + b, cs) {
      forall i | 0 <= i < |b| ensures b[i] !in cs {
        assert (a + b)[|a| + i] == b[i];
      }
      forall i | 0 <= i < |a| ensures a[i] !in cs {
        assert (a + b)[i] == a[i];
      }
    }
  }

  /** Printable ASCII: no such character breaks a line. */
  predicate Printable(s: string) {
    forall i :: 0 <= i < |s| ==> ' ' <= s[i] <= '~'
  }

  lemma PrintableHasNoBreak(s: string)
    requires Printable(s)
    ensures NoneIn(s, LineBreaks)
  {
  }

  lemma ContainsSelf(t: string)
    ensures Contains(t, t)
  {
    assert IsPrefix(t, t);
  }

  /** Length of the longest prefix of `s` holding none of `cs`. */
  function RunLength(s: string, cs: set<char>): (n: nat)
    ensures n <= |s|
    ensures forall i :: 0 <= i < n ==> s[i] !in cs
    ensures n == |s| || s[n] in cs
  {
    if s == [] || s[0] in cs then 0 else 1 + RunLength(s[1..], cs)
  }

  lemma {:induction false} RunLengthAppend(t: string, rest: string, cs: set<char>)
    requires NoneIn(t, cs) && rest != [] && rest[0] in cs
    ensures RunLength(t + rest, cs) == |t|
    decreases |t|
  {
    if t != [] {
      assert (t + rest)[1..] == t[1..] + rest;
      RunLengthAppend(t[1..], rest, cs);
    }
  }

  /** How many whitespace characters `s` starts with. */
  function LeadSpace(s: string): (i: nat)
    ensures i <= |s| && (i == |s| || s[i] !in PySpace)
    ensures forall k :: 0 <= k < i ==> s[k] in PySpace
  {
    if s == [] || s[0] !in PySpace then 0 else 1 + LeadSpace(s[1..])
  }

  /** Where the whitespace that `s` ends with begins. */
  function TrailSpace(s: string): (j: nat)
    ensures j <= |s| && (j == 0 || s[j - 1] !in PySpace)
    ensures forall k :: j <= k < |s| ==> s[k] in PySpace
  {
    if s == [] || s[|s| - 1] !in PySpace then |s| else TrailSpace(s[..|s| - 1])
  }

  /** `s.strip()` */
  function Strip(s: string): string
  {
    var i := LeadSpace(s);
    if i == |s| then [] else s[i..TrailSpace(s)]
  }

  /** `strip()` keeps exactly the slice between leading and trailing
      whitespace: any slice with whitespace only before and after it, which
      is empty or starts and ends with a non-space character, is the result. */
  lemma StripUnique(s: string, i: nat, j: nat)
    requires i <= j <= |s|
    requires forall k :: 0 <= k < i ==> s[k] in PySpace
    requires forall k :: j <= k < |s| ==> s[k] in PySpace
    requires i == j || (s[i] !in PySpace && s[j - 1] !in PySpace)
    ensures Strip(s) == s[i..j]
  {
    var a, b := LeadSpace(s), TrailSpace(s);
    if i == j {
      assert forall k :: 0 <= k < |s| ==> s[k] in PySpace by {
        forall k | 0 <= k < |s| ensures s[k] in PySpace {
          if k >= i { assert k >= j; }
        }
      }
      assert a == |s|;
    } else {
      assert a == i;
      assert b == j;
    }
  }

  /** `strip()` removes only whitespace, from both ends, and what it keeps
      starts and ends with a non-space character. */
  lemma StripShape(s: string)
    ensures IsStripped(Strip(s))
    ensures exists i, j :: (0 <= i <= j <= |s| && Strip(s) == s[i..j]
      && (forall k :: 0 <= k < i ==> s[k] in PySpace)
      && (forall k :: j <= k < |s| ==> s[k] in PySpace))
  {
    var i, j := LeadSpace(s), TrailSpace(s);
    if i == |s| {
      assert Strip(s) == s[|s|..|s|];
    } else {
      assert Strip(s) == s[i..j];
    }
  }

  /** A stripped string is its own `strip()`, and `strip()` is idempotent. */
  lemma StripFixed(s: string)
    requires IsStripped(s)
    ensures Strip(s) == s
  {
    StripUnique(s, 0, |s|);
  }

  lemma StripIdempotent(s: string)
    ensures Strip(Strip(s)) == Strip(s)
  {
    StripShape(s);
    StripFixed(Strip(s));
  }

  /** Leading whitespace never survives `strip()`. */
  lemma StripLeadingSpace(w: string, s: string)
    requires forall k :: 0 <= k < |w| ==> w[k] in PySpace
    ensures Strip(w + s) == Strip(s)
  {
    var i, j := LeadSpace(s), TrailSpace(s);
    var t := w + s;
    if i == |s| {
      assert t[|t|..|t|] == [];
      StripUnique(t, |t|, |t|);
    } else {
      assert t[|w| + i..|w| + j] == s[i..j];
      StripUnique(t, |w| + i, |w| + j);
    }
  }

  /** Python's `s.split()` (with `cs == PySpace`) and the whitespace step of
      `shlex.split` (with `cs == ShlexSpace`): the maximal runs of characters
      outside `cs`, in order. */
  function Tokens(s: string, cs: set<char>): (r: seq<string>)
    ensures forall k :: 0 <= k < |r| ==> r[k] != [] && NoneIn(r[k], cs)
    decreases |s|
  {
    if s == [] then []
    else if s[0] in cs then Tokens(s[1..], cs)
    else
      var n := RunLength(s, cs);
      [s[..n]] + Tokens(s[n..], cs)
  }

  /** Python's `sep.join(parts)`. */
  function Join(parts: seq<string>, sep: string): string
  {
    if parts == [] then []
    else if |parts| == 1 then parts[0]
    else parts[0] + sep + Join(parts[1..], sep)
  }

  /** Splitting `sep.join(ts)` on whitespace gives `ts` back when no token is
      empty or holds whitespace. */
  lemma {:induction false} TokensOfJoin(ts: seq<string>, c: char, cs: set<char>)
    requires c in cs
    requires forall k :: 0 <= k < |ts| ==> ts[k] != [] && NoneIn(ts[k], cs)
    ensures Tokens(Join(ts, [c]), cs) == ts
    decreases |ts|
  {
    if |ts| == 1 {
      var t := ts[0];
      RunLengthNone(t, cs);
      assert t[..|t|] == t;
      assert t[|t|..] == [];
    } else if |ts| > 1 {
      var t, rest := ts[0], Join(ts[1..], [c]);
      var s := t + [c] + rest;
      assert Join(ts, [c]) == s;
      RunLengthAppend(t, [c] + rest, cs);
      assert s == t + ([c] + rest);
      assert s[..|t|] == t;
      assert s[|t|..] == [c] + rest;
      assert ([c] + rest)[1..] == rest;
      TokensOfJoin(ts[1..], c, cs);
    }
  }

  lemma RunLengthNone(t: string, cs: set<char>)
    requires NoneIn(t, cs)
    ensures RunLength(t, cs) == |t|
  {
    if t != [] {
      assert t == t + [];
    }
  }

  /** Python's `s.splitlines()`: lines without their terminators, `\r\n`
      counted as one terminator and no empty line after a final terminator. */
  function SplitLines(s: string): seq<string>
    decreases |s|
  {
    if s == [] then []
    else
      var i := RunLength(s, LineBreaks);
      if i == |s| then [s]
      else
        var skip := if s[i] == '\r' && i + 1 < |s| && s[i + 1] == '\n' then 2 else 1;
        [s[..i]] + SplitLines(s[i + skip..])
  }

  /** The text a sequence of `echo` calls leaves in a file: each line and a
      newline. */
  function Unlines(ls: seq<string>): string
  {
    if ls == [] then [] else ls[0] + "\n" + Unlines(ls[1..])
  }

  lemma {:induction false} UnlinesAppend(a: seq<string>, b: seq<string>)
    ensures Unlines(a + b) == Unlines(a) + Unlines(b)
    decreases |a|
  {
    if a != [] {
      assert (a + b)[1..] == a[1..] + b;
      UnlinesAppend(a[1..], b);
      calc {
        Unlines(a + b);
        a[0] + "\n" + Unlines(a[1..] + b);
        a[0] + "\n" + (Unlines(a[1..]) + Unlines(b));
        (a[0] + "\n" + Unlines(a[1..])) + Unlines(b);
      }
    } else {
      assert a + b == b;
    }
  }

  /** One line and its `\n`, then the rest: `splitlines()` yields the line
      and goes on with the rest. */
  lemma SplitLinesStep(l: string, rest: string)
    requires NoneIn(l, LineBreaks)
    ensures SplitLines(l + "\n" + rest) == [l] + SplitLines(rest)
  {
    var s := l + "\n" + rest;
    assert s == l + ("\n" + rest);
    RunLengthAppend(l, "\n" + rest, LineBreaks);
    assert s[|l|] == '\n';
    assert s[..|l|] == l;
    assert s[|l| + 1..] == rest;
  }

  /** `splitlines()` recovers the lines written one `echo` at a time. */
  lemma {:induction false} SplitUnlines(ls: seq<string>)
    requires forall k :: 0 <= k < |ls| ==> NoneIn(ls[k], LineBreaks)
    ensures SplitLines(Unlines(ls)) == ls
    decreases |ls|
  {
    if ls != [] {
      SplitLinesStep(ls[0], Unlines(ls[1..]));
      SplitUnlines(ls[1..]);
    }
  }

  /** `splitlines()` of `"\n".join(ls)` gives `ls` back when no line holds a
      break and the last one is not empty. */
  lemma {:induction false} SplitJoinedLines(ls: seq<string>)
    requires ls != [] && ls[|ls| - 1] != []
    requires forall k :: 0 <= k < |ls| ==> NoneIn(ls[k], LineBreaks)
    ensures SplitLines(Join(ls, "\n")) == ls
    decreases |ls|
  {
    if |ls| == 1 {
      RunLengthNone(ls[0], LineBreaks);
    } else {
      SplitLinesStep(ls[0], Join(ls[1..], "\n"));
      SplitJoinedLines(ls[1..]);
    }
  }


  /** The part of `s` after its first `c`: `s.split(c, 1)[1]`. */
  function AfterFirst(s: string, c: char): (r: string)
    requires c in s
    ensures |r| < |s| && r == s[|s| - |r|..] && s[|s| - |r| - 1] == c
    ensures NoneIn(s[..|s| - |r| - 1], {c})
  {
    var i := RunLength(s, {c});
    s[i + 1..]
  }

  /** Cutting `t + [c] + rest` at its first `c` gives `t` and `rest`. */
  lemma CutAtFirst(t: string, c: char, rest: string)
    requires NoneIn(t, {c})
    ensures c in t + [c] + rest
    ensures AfterFirst(t + [c] + rest, c) == rest
    ensures BeforeFirst(t + [c] + rest, c) == t
  {
    var s := t + [c] + rest;
    assert s == t + ([c] + rest);
    RunLengthAppend(t, [c] + rest, {c});
    assert s[|t|] == c;
    assert s[..|t|] == t;
    assert s[|t| + 1..] == rest;
  }

  /** A string holding `c` is what comes before its first `c`, that `c`, and
      what comes after it. */
  lemma CutShape(s: string, c: char)
    requires c in s
    ensures s == BeforeFirst(s, c) + [c] + AfterFirst(s, c)
  {
    var i := RunLength(s, {c});
    assert i < |s|;
    assert s == s[..i] + [s[i]] + s[i + 1..];
  }

  /** Everything before the first `c`, or all of `s`: `s.split(c)[0]`. */
  function BeforeFirst(s: string, c: char): (r: string)
    ensures IsPrefix(r, s) && NoneIn(r, {c})
    ensures |r| == |s| || s[|r|] == c
  {
    s[..RunLength(s, {c})]
  }

  /** Index just past the last `/` of `p`, 0 if there is none:
      `p.rfind('/') + 1`. */
  function SlashEnd(p: string): (i: nat)
    ensures i <= |p| && (i > 0 ==> p[i - 1] == '/')
    ensures NoneIn(p[i..], {'/'})
  {
    if p == [] || p[|p| - 1] == '/' then |p| else SlashEnd(p[..|p| - 1])
  }

  /** The last `/` of a path that ends in a slash-free tail is the one
      just before the tail. */
  lemma {:induction false} SlashEndOfTail(head: string, tail: string)
    requires head != [] && head[|head| - 1] == '/' && NoneIn(tail, {'/'})
    ensures SlashEnd(head + tail) == |head|
    decreases |tail|
  {
    if tail == [] {
      assert head + tail == head;
    } else {
      var p := head + tail;
      assert p[..|p| - 1] == head + tail[..|tail| - 1];
      SlashEndOfTail(head, tail[..|tail| - 1]);
    }
  }

  /** `os.path.basename(p)` for POSIX paths. */
  function Basename(p: string): string
  {
    p[SlashEnd(p)..]
  }

  /** `os.path.dirname(p)` for POSIX paths: the head before the last `/`,
      with its trailing slashes removed unless it is made of slashes only. */
  function Dirname(p: string): string
  {
    var head := p[..SlashEnd(p)];
    if head != [] && exists k :: 0 <= k < |head| && head[k] != '/' then TrimSlashes(head) else head
  }

  function TrimSlashes(s: string): (r: string)
    ensures IsPrefix(r, s)
  {
    if s != [] && s[|s| - 1] == '/' then TrimSlashes(s[..|s| - 1]) else s
  }

  /** Python's `s.split(c, n)`: at most `n` cuts at `c`, from the left. */
  function SplitN(s: string, c: char, n: nat): (r: seq<string>)
    ensures |r| >= 1
  {
    if n == 0 || c !in s then [s]
    else [BeforeFirst(s, c)] + SplitN(AfterFirst(s, c), c, n - 1)
  }

  /** One cut of `split(c, n)`: a piece free of `c`, then the rest split
      one time fewer. */
  lemma SplitNStep(t: string, c: char, rest: string, n: nat)
    requires NoneIn(t, {c}) && n > 0
    ensures SplitN(t + [c] + rest, c, n) == [t] + SplitN(rest, c, n - 1)
  {
    CutAtFirst(t, c, rest);
  }

  lemma Display2<T>(a: T, b: T)
    ensures [] + [a] + [b] == [a, b]
  {
  }

  lemma Display3<T>(a: T, b: T, c: T)
    ensures [a, b] + [c] + [] == [a, b, c]
  {
  }

  lemma Display4<T>(a: T, b: T, c: T, d: T)
    ensures [a, b, c] + [d] + [] == [a, b, c, d]
  {
  }

  /** Joining two or more parts: the first part, the separator, and the
      join of the rest. */
  lemma JoinCons(ts: seq<string>, c: char)
    requires |ts| > 1
    ensures Join(ts, [c]) == ts[0] + [c] + Join(ts[1..], [c])
  {
  }

  /** Cutting the join of tokens `ts` by `c` at its first `n` separators
      gives the first `n` tokens and the join of the rest. */
  lemma {:induction false} SplitNJoin(ts: seq<string>, n: nat, c: char)
    requires n < |ts|
    requires forall k :: 0 <= k < n ==> NoneIn(ts[k], {c})
    ensures SplitN(Join(ts, [c]), c, n) == ts[..n] + [Join(ts[n..], [c])]
  {
    if n > 0 {
      var rest := ts[1..];
      forall k | 0 <= k < n - 1 ensures NoneIn(rest[k], {c}) {
        assert rest[k] == ts[k + 1];
      }
      SplitNJoin(rest, n - 1, c);
      SplitNJoinStep(ts, n, c);
    } else {
      assert ts[n..] == ts && ts[..n] == [];
    }
  }

  /** The inductive step of `SplitNJoin`: its statement for the tokens
      after the first gives it for all of them. */
  lemma SplitNJoinStep(ts: seq<string>, n: nat, c: char)
    requires 0 < n < |ts| && NoneIn(ts[0], {c})
    requires SplitN(Join(ts[1..], [c]), c, n - 1) == ts[1..][..n - 1] + [Join(ts[1..][n - 1..], [c])]
    ensures SplitN(Join(ts, [c]), c, n) == ts[..n] + [Join(ts[n..], [c])]
  {
    SplitNCons(ts, n, c);
    HeadAndTail(ts, n);
    ConsAppend(ts[0], ts[1..][..n - 1], Join(ts[n..], [c]));
  }

  /** Cutting a join at `n > 0` separators cuts off the first token, then
      cuts the join of the rest at one separator fewer. */
  lemma SplitNCons(ts: seq<string>, n: nat, c: char)
    requires 0 < n < |ts| && NoneIn(ts[0], {c})
    ensures SplitN(Join(ts, [c]), c, n) == [ts[0]] + SplitN(Join(ts[1..], [c]), c, n - 1)
  {
    JoinCons(ts, c);
    SplitNStep(ts[0], c, Join(ts[1..], [c]), n);
  }

  lemma ConsAppend<T>(a: T, b: seq<T>, x: T)
    ensures [a] + (b + [x]) == ([a] + b) + [x]
  {
  }

  lemma HeadAndTail<T>(ts: seq<T>, n: nat)
    requires 0 < n <= |ts|
    ensures ts[..n] == [ts[0]] + ts[1..][..n - 1]
    ensures ts[1..][n - 1..] == ts[n..]
  {
  }

  /** `split(" ", n)` of a single-space join of space-free tokens: the first
      `n` tokens and the rest of the line. */
  lemma SplitNJoinPrefix(ts: seq<string>, n: nat)
    requires n < |ts|
    requires forall k :: 0 <= k < n ==> NoneIn(ts[k], {' '})
    ensures SplitN(Join(ts, " "), ' ', n) == ts[..n] + [Join(ts[n..], " ")]
  {
    SplitNJoin(ts, n, ' ');
  }

  /** With at most `n` tokens, `split(" ", n)` gives no more pieces than
      tokens. */
  lemma SplitNJoinFew(ts: seq<string>, n: nat)
    requires |ts| <= n
    requires forall k :: 0 <= k < |ts| ==> NoneIn(ts[k], {' '})
    ensures |SplitN(Join(ts, " "), ' ', n)| <= if ts == [] then 1 else |ts|
  {
    SplitNCount(Join(ts, " "), n);
    SpacesInJoin(ts);
  }

  lemma NoneInSubset(s: string, small: set<char>, big: set<char>)
    requires NoneIn(s, big) && small <= big
    ensures NoneIn(s, small)
  {
  }

  /** `split(c, n)` yields one more piece than the number of cuts made. */
  lemma {:induction false} SplitNCount(s: string, n: nat)
    ensures |SplitN(s, ' ', n)| <= 1 + Count(s, ' ')
    decreases n
  {
    if n > 0 && ' ' in s {
      var b, rest := BeforeFirst(s, ' '), AfterFirst(s, ' ');
      CutShape(s, ' ');
      CountAppend(b + [' '], rest, ' ');
      CountAppend(b, [' '], ' ');
      CountNone(b, ' ');
      assert Count([' '], ' ') == 1 by {
        assert [' '][1..] == [];
      }
      SplitNCount(rest, n - 1);
    }
  }

  function Count(s: string, c: char): nat {
    if s == [] then 0 else (if s[0] == c then 1 else 0) + Count(s[1..], c)
  }

  lemma {:induction false} CountAppend(a: string, b: string, c: char)
    ensures Count(a + b, c) == Count(a, c) + Count(b, c)
    decreases |a|
  {
    if a != [] {
      assert (a + b)[1..] == a[1..] + b;
      CountAppend(a[1..], b, c);
    } else {
      assert a + b == b;
    }
  }

  lemma {:induction false} CountNone(a: string, c: char)
    requires NoneIn(a, {c})
    ensures Count(a, c) == 0
    decreases |a|
  {
    if a != [] {
      CountNone(a[1..], c);
    }
  }

  /** Joining `k` space-free tokens puts `k - 1` spaces in the line. */
  lemma {:induction false} SpacesInJoin(ts: seq<string>)
    requires forall k :: 0 <= k < |ts| ==> NoneIn(ts[k], {' '})
    ensures Count(Join(ts, " "), ' ') == if ts == [] then 0 else |ts| - 1
    decreases |ts|
  {
    if |ts| == 1 {
      CountNone(ts[0], ' ');
    } else if |ts| > 1 {
      SpacesInJoin(ts[1..]);
      CountAppend(ts[0] + " ", Join(ts[1..], " "), ' ');
      CountAppend(ts[0], " ", ' ');
      CountNone(ts[0], ' ');
    }
  }
}
