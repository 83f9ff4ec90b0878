/**
 * The Python string built-ins the term builders rely on, with Python's own
 * semantics: `str.find` (returns -1 when absent), slicing with a possibly
 * negative bound, `str.replace` (left to right, non-overlapping), `str.split`
 * on one character, `str.join`, and `str` of an integer.
 */
module PyStrings {

  /** `s.find(c)`: the index of the first `c` in `s`, or -1 when there is none. */
  function Find(s: string, c: char): (k: int)
    ensures -1 <= k < |s|
    ensures k == -1 <==> c !in s
    ensures 0 <= k ==> s[k] == c && c !in s[..k]
  {
    if s == [] then -1
    else if s[0] == c then 0
    else
      var k := Find(s[1..], c);
      if k == -1 then -1
      else
        assert s[..k + 1] == [s[0]] + s[1..][..k];
        k + 1
  }

  /** Any index at which the first `c` stands is what `find` returns. */
  lemma FindIsFirst(s: string, c: char, k: int)
    requires 0 <= k < |s| && s[k] == c && c !in s[..k]
    ensures Find(s, c) == k
  {
  }

  /** The position a Python slice bound `i` denotes in a string of length `n`:
      a negative bound counts from the end, and both ends are clamped. */
  function SliceBound(n: nat, i: int): (j: nat)
    ensures j <= n
    ensures 0 <= i <= n ==> j == i
    ensures -(n as int) <= i < 0 ==> j == n + i
  {
    if i < 0 then (if n + i < 0 then 0 else n + i)
    else if i > n then n
    else i
  }

  /** `s[:i]`. */
  function Take(s: string, i: int): string
  {
    s[..SliceBound(|s|, i)]
  }

  /** `s[i:]`. */
  function Drop(s: string, i: int): string
  {
    s[SliceBound(|s|, i)..]
  }

  /** `s.replace(pat, rep)` for a non-empty `pat`: every occurrence found
      scanning left to right, without overlaps, is replaced. */
  function ReplaceAll(s: string, pat: string, rep: string): string
    requires pat != []
    decreases |s|
  {
    if |s| < |pat| then s
    else if s[..|pat|] == pat then rep + ReplaceAll(s[|pat|..], pat, rep)
    else [s[0]] + ReplaceAll(s[1..], pat, rep)
  }

  /** A stretch that cannot start an occurrence is copied verbatim. */
  lemma {:induction false} ReplaceSkipsPrefix(x: string, y: string, pat: string, rep: string)
    requires pat != [] && pat[0] !in x
    ensures ReplaceAll(x + y, pat, rep) == x + ReplaceAll(y, pat, rep)
    decreases |x|
  {
    if x != [] {
      if |x + y| >= |pat| {
        assert (x + y)[..|pat|][0] == x[0];
        assert (x + y)[1..] == x[1..] + y;
        ReplaceSkipsPrefix(x[1..], y, pat, rep);
        assert [x[0]] + x[1..] == x;
      }
    } else {
      assert x + y == y;
    }
  }

  /** A string in which the pattern's first character never occurs is left unchanged. */
  lemma ReplaceAbsent(s: string, pat: string, rep: string)
    requires pat != [] && pat[0] !in s
    ensures ReplaceAll(s, pat, rep) == s
  {
    ReplaceSkipsPrefix(s, [], pat, rep);
    assert s + [] == s;
  }

  /** An occurrence at the front is replaced and the scan continues after it. */
  lemma ReplaceAtOccurrence(y: string, pat: string, rep: string)
    requires pat != []
    ensures ReplaceAll(pat + y, pat, rep) == rep + ReplaceAll(y, pat, rep)
  {
    assert (pat + y)[..|pat|] == pat;
    assert (pat + y)[|pat|..] == y;
  }

  /** Replacing a single character distributes over concatenation. */
  lemma {:induction false} ReplaceCharConcat(x: string, y: string, c: char, rep: string)
    ensures ReplaceAll(x + y, [c], rep) == ReplaceAll(x, [c], rep) + ReplaceAll(y, [c], rep)
    decreases |x|
  {
    if x == [] {
      assert x + y == y;
    } else {
      assert (x + y)[..1] == x[..1];
      assert (x + y)[1..] == x[1..] + y;
      ReplaceCharConcat(x[1..], y, c, rep);
    }
  }

  /** After replacing a character by text without it, the character is gone. */
  lemma {:induction false} ReplaceCharRemoves(s: string, c: char, rep: string)
    requires c !in rep
    ensures c !in ReplaceAll(s, [c], rep)
    decreases |s|
  {
    if s != [] {
      ReplaceCharRemoves(s[1..], c, rep);
    }
  }

  /** A character absent from the input and from the replacement stays absent. */
  lemma {:induction false} ReplaceKeepsAbsent(s: string, pat: string, rep: string, d: char)
    requires pat != [] && d !in s && d !in rep
    ensures d !in ReplaceAll(s, pat, rep)
    decreases |s|
  {
    if |s| >= |pat| {
      if s[..|pat|] == pat {
        ReplaceKeepsAbsent(s[|pat|..], pat, rep, d);
      } else {
        ReplaceKeepsAbsent(s[1..], pat, rep, d);
      }
    }
  }

  /** `sep.join(parts)`. */
  function Join(parts: seq<string>, sep: string): string
  {
    if parts == [] then ""
    else if |parts| == 1 then parts[0]
    else parts[0] + sep + Join(parts[1..], sep)
  }

  /** Joining a piece in front of at least one other puts a separator between. */
  lemma JoinCons(head: string, rest: seq<string>, sep: string)
    requires |rest| >= 1
    ensures Join([head] + rest, sep) == head + sep + Join(rest, sep)
  {
    assert ([head] + rest)[1..] == rest;
  }

  /** Every piece with `pat` replaced. */
  function ReplaceEach(parts: seq<string>, pat: string, rep: string): (r: seq<string>)
    requires pat != []
    ensures |r| == |parts|
    ensures forall i :: 0 <= i < |parts| ==> r[i] == ReplaceAll(parts[i], pat, rep)
  {
    seq(|parts|, i requires 0 <= i < |parts| => ReplaceAll(parts[i], pat, rep))
  }

  /** Replacing a character that the separator lacks acts piece by piece. */
  lemma {:induction false} ReplaceCharInJoin(parts: seq<string>, sep: string, c: char, rep: string)
    requires c !in sep
    ensures ReplaceAll(Join(parts, sep), [c], rep) == Join(ReplaceEach(parts, [c], rep), sep)
    decreases |parts|
  {
    if |parts| == 1 {
      assert ReplaceEach(parts, [c], rep) == [ReplaceAll(parts[0], [c], rep)];
    } else if |parts| > 1 {
      var head, rest := parts[0], parts[1..];
      assert [head] + rest == parts;
      JoinCons(head, rest, sep);
      ReplaceCharConcat(head + sep, Join(rest, sep), c, rep);
      ReplaceCharConcat(head, sep, c, rep);
      ReplaceAbsent(sep, [c], rep);
      ReplaceCharInJoin(rest, sep, c, rep);
      var replaced := ReplaceEach(parts, [c], rep);
      assert replaced == [replaced[0]] + ReplaceEach(rest, [c], rep);
      JoinCons(replaced[0], ReplaceEach(rest, [c], rep), sep);
    }
  }

  /** Pieces joined by the pattern itself: every separator is replaced and
      nothing else, so the result joins the same pieces with the replacement. */
  lemma {:induction false} ReplaceSeparator(parts: seq<string>, pat: string, rep: string)
    requires pat != []
    requires forall i :: 0 <= i < |parts| ==> pat[0] !in parts[i]
    ensures ReplaceAll(Join(parts, pat), pat, rep) == Join(parts, rep)
    decreases |parts|
  {
    if |parts| == 1 {
      ReplaceAbsent(parts[0], pat, rep);
    } else if |parts| > 1 {
      var head, rest := parts[0], parts[1..];
      assert [head] + rest == parts;
      JoinCons(head, rest, pat);
      JoinCons(head, rest, rep);
      ReplaceAfterPiece(head, pat, Join(rest, pat), rep);
      ReplaceSeparator(rest, pat, rep);
    }
  }

  /** A piece free of the pattern's first character, then an occurrence:
      the piece is kept, the occurrence replaced, and the scan goes on. */
  lemma ReplaceAfterPiece(head: string, pat: string, tail: string, rep: string)
    requires pat != [] && pat[0] !in head
    ensures ReplaceAll(head + pat + tail, pat, rep) == head + rep + ReplaceAll(tail, pat, rep)
  {
    assert head + pat + tail == head + (pat + tail);
    ReplaceSkipsPrefix(head, pat + tail, pat, rep);
    ReplaceAtOccurrence(tail, pat, rep);
    assert head + (rep + ReplaceAll(tail, pat, rep)) == head + rep + ReplaceAll(tail, pat, rep);
  }

  /** `s.split(c)`: the pieces between the occurrences of `c`, at least one. */
  function Split(s: string, c: char): (parts: seq<string>)
    ensures |parts| >= 1
    ensures forall i :: 0 <= i < |parts| ==> c !in parts[i]
    decreases |s|
  {
    var k := Find(s, c);
    if k == -1 then [s] else [s[..k]] + Split(s[k + 1..], c)
  }

  /** Splitting at the first separator: the piece before it, then the split of the rest. */
  lemma SplitAtFirst(s: string, c: char)
    requires c in s
    ensures Split(s, c) == [s[..Find(s, c)]] + Split(s[Find(s, c) + 1..], c)
    ensures s == s[..Find(s, c)] + [c] + s[Find(s, c) + 1..]
  {
    var k := Find(s, c);
    SplitAround(s, k);
  }

  /** A string is the part before index `k`, the character there and the part after. */
  lemma SplitAround<T>(s: seq<T>, k: nat)
    requires k < |s|
    ensures s == s[..k] + [s[k]] + s[k + 1..]
  {
    assert s[..k] + [s[k]] == s[..k + 1];
  }

  /** Splitting text that starts with a separator-free piece and a separator. */
  lemma SplitAfterPiece(head: string, c: char, tail: string)
    requires c !in head
    ensures Split(head + [c] + tail, c) == [head] + Split(tail, c)
  {
    var s := head + [c] + tail;
    assert s[..|head|] == head;
    assert s[|head|] == c;
    FindIsFirst(s, c, |head|);
    assert s[|head| + 1..] == tail;
  }

  /** Joining the pieces back with the separator gives the original string. */
  lemma {:induction false} JoinSplit(s: string, c: char)
    ensures Join(Split(s, c), [c]) == s
    decreases |s|
  {
    if c in s {
      var k := Find(s, c);
      var head, tail := s[..k], s[k + 1..];
      SplitAtFirst(s, c);
      JoinSplit(tail, c);
      JoinCons(head, Split(tail, c), [c]);
    }
  }

  /** Splitting a join of separator-free pieces gives the pieces back. */
  lemma {:induction false} SplitJoin(parts: seq<string>, c: char)
    requires |parts| >= 1
    requires forall i :: 0 <= i < |parts| ==> c !in parts[i]
    ensures Split(Join(parts, [c]), c) == parts
    decreases |parts|
  {
    if |parts| > 1 {
      var head, rest := parts[0], parts[1..];
      assert [head] + rest == parts;
      JoinCons(head, rest, [c]);
      assert c !in head;
      SplitAfterPiece(head, c, Join(rest, [c]));
      SplitJoin(rest, c);
    }
  }

  /** The decimal digit of `d`. */
  function Digit(d: nat): char
    requires d < 10
  {
    (('0' as int) + d) as char
  }

  /** `str(n)` for a non-negative `n`: its decimal digits, most significant first. */
  function NatToString(n: nat): (s: string)
    ensures |s| >= 1
    ensures forall i :: 0 <= i < |s| ==> '0' <= s[i] <= '9'
  {
    if n < 10 then [Digit(n)] else NatToString(n / 10) + [Digit(n % 10)]
  }

  /** Distinct numbers print differently. */
  lemma {:induction false} NatToStringInjective(n: nat, m: nat)
    requires NatToString(n) == NatToString(m)
    ensures n == m
  {
    var s, t := NatToString(n), NatToString(m);
    if n >= 10 && m >= 10 {
      assert s[|s| - 1] == Digit(n % 10) && t[|t| - 1] == Digit(m % 10);
      assert s[..|s| - 1] == NatToString(n / 10);
      assert t[..|t| - 1] == NatToString(m / 10);
      NatToStringInjective(n / 10, m / 10);
    }
  }

  /** `str(i)` for any integer `i`. */
  function IntToString(i: int): string
  {
    if i < 0 then "-" + NatToString(-i) else NatToString(i)
  }
}
