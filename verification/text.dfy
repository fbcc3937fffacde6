/**
 String primitives with the meaning of the Rust `str` methods the report
 formatter and the share-message parser use: `lines`, `trim`, `starts_with`,
 `replace(p, "")`, `trim_start_matches` and `trim_end_matches`, plus decimal
 rendering of a part number.
 */
module Text {

  /** Rust's `char::is_whitespace`, the characters `trim` removes: the
      Unicode White_Space property, tab through carriage return, space, and
      the non-ASCII spaces and separators. */
  predicate IsSpace(c: char) {
    ('\t' <= c <= '\r') || c == ' ' || c == '\U{0085}' || c == '\U{00A0}' || c == '\U{1680}'
    || ('\U{2000}' <= c <= '\U{200A}') || c == '\U{2028}' || c == '\U{2029}' || c == '\U{202F}'
    || c == '\U{205F}' || c == '\U{3000}'
  }

  predicate StartsWith(s: string, p: string) {
    |p| <= |s| && s[..|p|] == p
  }

  predicate EndsWith(s: string, p: string) {
    |p| <= |s| && s[|s| - |p|..] == p
  }

  /** `p` occurs in `s` at some position. */
  predicate Contains(s: string, p: string)
    decreases |s|
  {
    StartsWith(s, p) || (|s| > 0 && Contains(s[1..], p))
  }

  /** A pattern whose first character does not occur in `s` does not occur in `s`. */
  lemma {:induction false} AbsentFirstChar(s: string, p: string)
    requires |p| > 0 && p[0] !in s
    ensures !Contains(s, p)
    decreases |s|
  {
    if |s| > 0 {
      assert s[0] != p[0];
      AbsentFirstChar(s[1..], p);
    }
  }

  /** Concatenation regrouped; stated once for any element type so that the
      solver does not have to rediscover it for nested sequences. */
  lemma ConcatAssoc<T>(x: seq<T>, y: seq<T>, z: seq<T>)
    ensures x + (y + z) == (x + y) + z
  {
  }

  // ---------------------------------------------------------------------
  // replace(p, "")

  /** `s.replace(p, "")`: one left-to-right pass that deletes every
      non-overlapping occurrence of `p`. An empty pattern changes nothing. */
  function RemoveAll(s: string, p: string): (r: string)
    ensures |r| <= |s|
    ensures !Contains(s, p) ==> r == s
    decreases |s|
  {
    if |p| == 0 || |s| == 0 then s
    else if StartsWith(s, p) then RemoveAll(s[|p|..], p)
    else [s[0]] + RemoveAll(s[1..], p)
  }

  /** A leading occurrence is deleted and the scan resumes after it. */
  lemma {:induction false} RemoveAllLeading(p: string, s: string)
    requires |p| > 0
    ensures RemoveAll(p + s, p) == RemoveAll(s, p)
  {
    assert StartsWith(p + s, p);
    assert (p + s)[|p|..] == s;
  }

  /** `p` occurs in `s` at index `j`. */
  predicate MatchAt(s: string, p: string, j: nat) {
    j + |p| <= |s| && s[j..j + |p|] == p
  }

  /** The scan keeps everything before the leftmost occurrence of `p`,
      deletes that occurrence and resumes right after it. */
  lemma {:induction false} RemoveAllFirst(s: string, p: string, i: nat)
    requires |p| > 0 && MatchAt(s, p, i)
    requires forall j: nat :: j < i ==> !MatchAt(s, p, j)
    ensures RemoveAll(s, p) == s[..i] + RemoveAll(s[i + |p|..], p)
  {
    NoMatchBeforeOf(s, p, i);
    RemoveAllAt(s, p, i);
    assert StartsWith(s[i..], p) by {
      assert s[i..][..|p|] == s[i..i + |p|];
    }
    assert s[i..][|p|..] == s[i + |p|..];
  }

  /** No occurrence of `p` starts among the first `i` characters of `s`. */
  predicate NoMatchBefore(s: string, p: string, i: nat)
    decreases i
  {
    i == 0 || (|s| > 0 && !StartsWith(s, p) && NoMatchBefore(s[1..], p, i - 1))
  }

  lemma {:induction false} NoMatchBeforeOf(s: string, p: string, i: nat)
    requires i <= |s|
    requires forall j: nat :: j < i ==> !MatchAt(s, p, j)
    ensures NoMatchBefore(s, p, i)
    decreases i
  {
    if i > 0 {
      assert !MatchAt(s, p, 0);
      if |p| <= |s| {
        assert s[..|p|] == s[0..|p|];
      }
      forall j: nat | j < i - 1
        ensures !MatchAt(s[1..], p, j)
      {
        assert !MatchAt(s, p, j + 1);
        assert j + |p| <= |s| - 1 ==> s[1..][j..j + |p|] == s[j + 1..j + 1 + |p|];
      }
      NoMatchBeforeOf(s[1..], p, i - 1);
    }
  }

  /** Before the first occurrence the scan copies the text unchanged. */
  lemma {:induction false} RemoveAllAt(s: string, p: string, i: nat)
    requires |p| > 0 && i <= |s| && NoMatchBefore(s, p, i)
    ensures RemoveAll(s, p) == s[..i] + RemoveAll(s[i..], p)
    decreases i
  {
    if i > 0 {
      RemoveAllAt(s[1..], p, i - 1);
      RemoveAllSkip(s, p);
      assert s[1..][i - 1..] == s[i..];
      ConcatAssoc([s[0]], s[1..][..i - 1], RemoveAll(s[i..], p));
      HeadAndPrefix(s, i);
    }
  }

  /** At a position where `p` does not start, the scan keeps the character. */
  lemma {:induction false} RemoveAllSkip(s: string, p: string)
    requires |p| > 0 && |s| > 0 && !StartsWith(s, p)
    ensures RemoveAll(s, p) == [s[0]] + RemoveAll(s[1..], p)
  {
  }

  lemma {:induction false} HeadAndPrefix(s: string, i: nat)
    requires 0 < i <= |s|
    ensures [s[0]] + s[1..][..i - 1] == s[..i]
  {
    assert forall k :: 0 <= k < i ==> ([s[0]] + s[1..][..i - 1])[k] == s[..i][k];
  }

  /** When the first character of `p` is absent from `s`, the only
      occurrence of `p` in `s + p` is the trailing one, and it is deleted. */
  lemma {:induction false} RemoveAllTrailing(s: string, p: string)
    requires |p| > 0 && p[0] !in s
    ensures RemoveAll(s + p, p) == s
    decreases |s|
  {
    if s == [] {
      assert s + p == p + [];
      RemoveAllLeading(p, []);
    } else {
      assert (s + p)[0] == s[0] != p[0];
      assert (s + p)[1..] == s[1..] + p;
      RemoveAllTrailing(s[1..], p);
      assert [s[0]] + s[1..] == s;
    }
  }

  /** The lines of `ls` that start with `p`, in order. */
  function Select(ls: seq<string>, p: string): (r: seq<string>)
    ensures |r| <= |ls|
  {
    if ls == [] then []
    else (if StartsWith(ls[0], p) then [ls[0]] else []) + Select(ls[1..], p)
  }

  /** `Select` keeps exactly the lines that start with `p`: every selected
      line does, and a line of `ls` that does is selected. */
  lemma {:induction false} SelectSpec(ls: seq<string>, p: string)
    ensures forall i :: 0 <= i < |Select(ls, p)| ==> StartsWith(Select(ls, p)[i], p)
    ensures forall i :: 0 <= i < |ls| && StartsWith(ls[i], p) ==> ls[i] in Select(ls, p)
    decreases |ls|
  {
    if ls != [] {
      SelectSpec(ls[1..], p);
      assert forall i :: 1 <= i < |ls| ==> ls[i] == ls[1..][i - 1];
    }
  }

  lemma {:induction false} SelectAppend(a: seq<string>, b: seq<string>, p: string)
    ensures Select(a + b, p) == Select(a, p) + Select(b, p)
  {
    if a == [] {
      assert a + b == b;
    } else {
      assert (a + b)[1..] == a[1..] + b;
      assert (a + b)[0] == a[0];
      SelectAppend(a[1..], b, p);
      ConcatAssoc((if StartsWith(a[0], p) then [a[0]] else []), Select(a[1..], p), Select(b, p));
    }
  }

  /** A string that differs from `p` at some position of both does not start with `p`. */
  lemma {:induction false} DiffersAt(x: string, p: string, i: nat)
    requires i < |x| && i < |p| && x[i] != p[i]
    ensures !StartsWith(x, p)
  {
  }

  lemma {:induction false} SelectCons(x: string, ls: seq<string>, p: string)
    ensures Select([x] + ls, p) == (if StartsWith(x, p) then [x] else []) + Select(ls, p)
  {
    assert ([x] + ls)[1..] == ls;
  }

  // ---------------------------------------------------------------------
  // trim_start_matches / trim_end_matches

  /** `s.trim_start_matches(p)`: strips `p` from the front as often as it occurs there. */
  function TrimStartMatches(s: string, p: string): (r: string)
    ensures EndsWith(s, r)
    ensures |p| > 0 ==> !StartsWith(r, p)
    ensures !StartsWith(s, p) ==> r == s
    decreases |s|
  {
    if |p| > 0 && StartsWith(s, p) then TrimStartMatches(s[|p|..], p) else s
  }

  /** `s.trim_end_matches(p)`: strips `p` from the back as often as it occurs there. */
  function TrimEndMatches(s: string, p: string): (r: string)
    ensures StartsWith(s, r)
    ensures |p| > 0 ==> !EndsWith(r, p)
    ensures !EndsWith(s, p) ==> r == s
    decreases |s|
  {
    if |p| > 0 && EndsWith(s, p) then TrimEndMatches(s[..|s| - |p|], p) else s
  }

  /** `k` copies of `p`, back to back. */
  function Repeat(p: string, k: nat): string {
    if k == 0 then [] else p + Repeat(p, k - 1)
  }

  lemma {:induction false} RepeatSnoc(p: string, k: nat)
    ensures Repeat(p, k) + p == Repeat(p, k + 1)
  {
    if k > 0 {
      RepeatSnoc(p, k - 1);
      ConcatAssoc(p, Repeat(p, k - 1), p);
    }
  }

  /** What `TrimStartMatches` drops is exactly a run of copies of `p`. */
  lemma {:induction false} TrimStartMatchesCopies(s: string, p: string)
    ensures exists k: nat :: s == Repeat(p, k) + TrimStartMatches(s, p)
    decreases |s|
  {
    if |p| > 0 && StartsWith(s, p) {
      var rest := s[|p|..];
      TrimStartMatchesCopies(rest, p);
      var k: nat :| rest == Repeat(p, k) + TrimStartMatches(rest, p);
      assert s == p + rest;
      ConcatAssoc(p, Repeat(p, k), TrimStartMatches(rest, p));
      assert s == Repeat(p, k + 1) + TrimStartMatches(s, p);
    } else {
      assert s == Repeat(p, 0) + TrimStartMatches(s, p);
    }
  }

  /** What `TrimEndMatches` drops is exactly a run of copies of `p`. */
  lemma {:induction false} TrimEndMatchesCopies(s: string, p: string)
    ensures exists k: nat :: s == TrimEndMatches(s, p) + Repeat(p, k)
    decreases |s|
  {
    if |p| > 0 && EndsWith(s, p) {
      var rest := s[..|s| - |p|];
      TrimEndMatchesCopies(rest, p);
      var k: nat :| rest == TrimEndMatches(rest, p) + Repeat(p, k);
      assert s == rest + p;
      RepeatSnoc(p, k);
      ConcatAssoc(TrimEndMatches(rest, p), Repeat(p, k), p);
      assert s == TrimEndMatches(s, p) + Repeat(p, k + 1);
    } else {
      assert s == TrimEndMatches(s, p) + Repeat(p, 0);
    }
  }

  // ---------------------------------------------------------------------
  // trim

  /** `str::trim_start`: drops the leading whitespace. */
  function TrimStart(s: string): string
    decreases |s|
  {
    if s != [] && IsSpace(s[0]) then TrimStart(s[1..]) else s
  }

  /** `str::trim_end`: drops the trailing whitespace. */
  function TrimEnd(s: string): string
    decreases |s|
  {
    if s != [] && IsSpace(s[|s| - 1]) then TrimEnd(s[..|s| - 1]) else s
  }

  /** `TrimStart` removes exactly the leading whitespace: what it drops is
      whitespace and what it keeps starts with a non-whitespace character. */
  lemma {:induction false} TrimStartSpec(s: string)
    ensures |TrimStart(s)| <= |s| && TrimStart(s) == s[|s| - |TrimStart(s)|..]
    ensures forall i :: 0 <= i < |s| - |TrimStart(s)| ==> IsSpace(s[i])
    ensures TrimStart(s) != [] ==> !IsSpace(TrimStart(s)[0])
    decreases |s|
  {
    if s != [] && IsSpace(s[0]) {
      TrimStartSpec(s[1..]);
    }
  }

  /** `TrimEnd` removes exactly the trailing whitespace. */
  lemma {:induction false} TrimEndSpec(s: string)
    ensures |TrimEnd(s)| <= |s| && TrimEnd(s) == s[..|TrimEnd(s)|]
    ensures forall i :: |TrimEnd(s)| <= i < |s| ==> IsSpace(s[i])
    ensures TrimEnd(s) != [] ==> !IsSpace(TrimEnd(s)[|TrimEnd(s)| - 1])
    decreases |s|
  {
    if s != [] && IsSpace(s[|s| - 1]) {
      TrimEndSpec(s[..|s| - 1]);
    }
  }

  /** A string that `trim` leaves unchanged. */
  predicate Trimmed(s: string) {
    s == [] || (!IsSpace(s[0]) && !IsSpace(s[|s| - 1]))
  }

  /** `str::trim`. */
  function Trim(s: string): string {
    TrimEnd(TrimStart(s))
  }

  /** The trim of a string has no surrounding whitespace, a string without
      surrounding whitespace is its own trim, and all-whitespace trims to empty. */
  lemma {:induction false} TrimSpec(s: string)
    ensures Trimmed(Trim(s))
    ensures |Trim(s)| <= |s|
    ensures Trimmed(s) ==> Trim(s) == s
    ensures (forall i :: 0 <= i < |s| ==> IsSpace(s[i])) ==> Trim(s) == []
  {
    TrimStartSpec(s);
    TrimEndSpec(TrimStart(s));
    var u := TrimStart(s);
    if u != [] && !IsSpace(u[0]) {
      assert TrimEnd(u) == u[..|TrimEnd(u)|];
      if TrimEnd(u) != [] {
        assert TrimEnd(u)[0] == u[0];
      }
    }
  }

  // ---------------------------------------------------------------------
  // lines

  /** Index of the first newline in `s`, or `|s|` when there is none. */
  function LineEnd(s: string): (k: nat)
    ensures k <= |s|
    decreases |s|
  {
    if s == [] || s[0] == '\n' then 0 else 1 + LineEnd(s[1..])
  }

  /** `LineEnd` is the first newline: none before it, and one at it unless
      it is the end of the text. */
  lemma {:induction false} LineEndSpec(s: string)
    ensures forall i :: 0 <= i < LineEnd(s) ==> s[i] != '\n'
    ensures LineEnd(s) < |s| ==> s[LineEnd(s)] == '\n'
    decreases |s|
  {
    if s != [] && s[0] != '\n' {
      LineEndSpec(s[1..]);
    }
  }

  /** A text cut at its first newline. */
  lemma {:induction false} CutAtLineEnd(s: string)
    requires LineEnd(s) < |s|
    ensures s == (s[..LineEnd(s)] + "\n") + s[LineEnd(s) + 1..]
    ensures Lines(s) == [s[..LineEnd(s)]] + Lines(s[LineEnd(s) + 1..])
  {
    var k := LineEnd(s);
    LineEndSpec(s);
    assert s[k..] == [s[k]] + s[k + 1..];
    assert s == s[..k] + s[k..];
  }

  /** `str::lines`: the pieces between newlines, without a final empty piece
      after a trailing newline. Rust also drops a `\r` before each newline;
      every caller here trims the lines, which removes it just the same. */
  function Lines(s: string): (r: seq<string>)
    ensures r == [] <==> s == []
    ensures |r| <= |s|
    decreases |s|
  {
    if s == [] then []
    else
      var k := LineEnd(s);
      if k == |s| then [s] else [s[..k]] + Lines(s[k + 1..])
  }

  /** No line contains a newline. */
  lemma {:induction false} LinesNoNewline(s: string)
    ensures forall i :: 0 <= i < |Lines(s)| ==> '\n' !in Lines(s)[i]
    decreases |s|
  {
    if s != [] {
      var k := LineEnd(s);
      LineEndSpec(s);
      if k < |s| {
        LinesNoNewline(s[k + 1..]);
        var r := Lines(s);
        assert forall i :: 1 <= i < |r| ==> r[i] == Lines(s[k + 1..])[i - 1];
      }
    }
  }

  /** The text that writes every line of `ls` followed by a newline. */
  function JoinLines(ls: seq<string>): string
  {
    if ls == [] then "" else ls[0] + "\n" + JoinLines(ls[1..])
  }

  lemma {:induction false} JoinLinesAppend(a: seq<string>, b: seq<string>)
    ensures JoinLines(a + b) == JoinLines(a) + JoinLines(b)
  {
    if a != [] {
      assert (a + b)[1..] == a[1..] + b;
      assert (a + b)[0] == a[0];
      JoinLinesAppend(a[1..], b);
      ConcatAssoc(a[0] + "\n", JoinLines(a[1..]), JoinLines(b));
    } else {
      assert a + b == b;
    }
  }

  /** Splitting newline-terminated lines gives the lines back. */
  lemma {:induction false} LinesOfJoinLines(ls: seq<string>)
    requires forall i :: 0 <= i < |ls| ==> '\n' !in ls[i]
    ensures Lines(JoinLines(ls)) == ls
  {
    if ls != [] {
      var s := JoinLines(ls);
      var a := ls[0];
      assert s == a + ("\n" + JoinLines(ls[1..]));
      assert s[|a|] == '\n';
      assert forall i :: 0 <= i < |a| ==> s[i] == a[i];
      var k := LineEnd(s);
      LineEndSpec(s);
      assert k == |a|;
      assert s[..k] == a;
      assert s[k + 1..] == JoinLines(ls[1..]);
      LinesOfJoinLines(ls[1..]);
    }
  }

  lemma {:induction false} JoinLinesCons(head: string, ls: seq<string>)
    ensures JoinLines([head] + ls) == head + "\n" + JoinLines(ls)
  {
    assert ([head] + ls)[1..] == ls;
  }

  /** Joining the lines of a text gives the text back, with a newline added
      when it did not end in one. */
  lemma {:induction false} JoinLinesOfLines(s: string)
    ensures JoinLines(Lines(s)) == s || JoinLines(Lines(s)) == s + "\n"
    decreases |s|
  {
    if s != [] {
      var k := LineEnd(s);
      if k < |s| {
        var head, tail := s[..k], s[k + 1..];
        CutAtLineEnd(s);
        JoinLinesOfLines(tail);
        JoinLinesCons(head, Lines(tail));
        if JoinLines(Lines(tail)) != tail {
          ConcatAssoc(head + "\n", tail, "\n");
        }
      } else {
        JoinLinesCons(s, []);
      }
    }
  }

  // ---------------------------------------------------------------------
  // decimal rendering

  function Digit(d: nat): (c: char)
    requires d < 10
  {
    "0123456789"[d]
  }

  predicate IsDigit(c: char) {
    '0' <= c <= '9'
  }

  /** Decimal rendering of `n`, as Rust's `{}` prints a `usize`. */
  function NatToString(n: nat): (r: string)
    ensures |r| > 0
    ensures forall i :: 0 <= i < |r| ==> IsDigit(r[i])
    ensures r[0] == '0' ==> n == 0
  {
    if n < 10 then [Digit(n)] else NatToString(n / 10) + [Digit(n % 10)]
  }

  function DigitValue(c: char): nat
    requires IsDigit(c)
  {
    c as int - '0' as int
  }

  /** The number a string of decimal digits denotes. */
  function DecimalValue(s: string): nat
    requires forall i :: 0 <= i < |s| ==> IsDigit(s[i])
  {
    if s == [] then 0 else 10 * DecimalValue(s[..|s| - 1]) + DigitValue(s[|s| - 1])
  }

  /** Reading the rendered digits back gives the number, and the text is the
    * canonical one: only zero itself starts with the digit `0`. */
  lemma {:induction false} NatToStringValue(n: nat)
    ensures DecimalValue(NatToString(n)) == n
    ensures NatToString(n)[0] == '0' <==> n == 0
  {
    var r := NatToString(n);
    if n >= 10 {
      NatToStringValue(n / 10);
      assert r[..|r| - 1] == NatToString(n / 10);
    }
  }
}
