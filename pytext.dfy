/**
 * The few Python string operations the core relies on, over `seq<char>`, with
 * the character classes restricted to ASCII: `str.isspace` and the regex `\s`,
 * the regex `\w`, `str.lower`, `str.strip`, `str.split()`, `re.findall`,
 * `in` on strings, `str.endswith` and `str.join`.
 */
module PyText {

  /** `\s` and `str.isspace` on ASCII: tab, newline, vertical tab, form feed,
      carriage return, the four separators 0x1C..0x1F, and space. */
  predicate IsSpace(c: char) {
    c == ' ' || (9 <= c as int <= 13) || (28 <= c as int <= 31)
  }

  predicate IsNonSpace(c: char) {
    !IsSpace(c)
  }

  /** `\w` on ASCII: letters, digits and underscore. */
  predicate IsWordChar(c: char) {
    ('a' <= c <= 'z') || ('A' <= c <= 'Z') || ('0' <= c <= '9') || c == '_'
  }

  function LowerChar(c: char): (r: char)
    ensures IsWordChar(r) <==> IsWordChar(c)
    ensures IsSpace(r) <==> IsSpace(c)
  {
    if 'A' <= c <= 'Z' then (c as int - 'A' as int + 'a' as int) as char else c
  }

  /** `str.lower` */
  function Lower(s: string): (r: string)
    ensures |r| == |s|
    ensures forall i :: 0 <= i < |s| ==> r[i] == LowerChar(s[i])
  {
    seq(|s|, i requires 0 <= i < |s| => LowerChar(s[i]))
  }

  /** Length of the longest prefix of `s` whose characters all satisfy `p`. */
  function RunLength(s: string, p: char -> bool): (n: nat)
    ensures n <= |s|
    ensures forall i :: 0 <= i < n ==> p(s[i])
    ensures n < |s| ==> !p(s[n])
  {
    if s == [] || !p(s[0]) then 0 else 1 + RunLength(s[1..], p)
  }

  /** The maximal runs of characters satisfying `p`, left to right:
      `re.findall(r'\w+', s)` is `Runs(s, IsWordChar)`, `s.split()` is `Runs(s, IsNonSpace)`. */
  function Runs(s: string, p: char -> bool): (r: seq<string>)
    ensures forall k :: 0 <= k < |r| ==> r[k] != []
    ensures forall k, i :: 0 <= k < |r| && 0 <= i < |r[k]| ==> p(r[k][i])
    decreases |s|
  {
    if s == [] then []
    else if !p(s[0]) then Runs(s[1..], p)
    else
      var n := RunLength(s, p);
      [s[..n]] + Runs(s[n..], p)
  }

  /** The characters of `s` that satisfy `p`, in order. */
  function Filter(s: string, p: char -> bool): (r: string)
    ensures |r| <= |s|
  {
    if s == [] then [] else (if p(s[0]) then [s[0]] else []) + Filter(s[1..], p)
  }

  lemma {:induction false} FilterAppend(a: string, b: string, p: char -> bool)
    ensures Filter(a + b, p) == Filter(a, p) + Filter(b, p)
  {
    if a == [] {
      assert a + b == b;
    } else {
      var head := if p(a[0]) then [a[0]] else [];
      assert (a + b)[0] == a[0];
      assert (a + b)[1..] == a[1..] + b;
      assert Filter(a + b, p) == head + Filter(a[1..] + b, p);
      FilterAppend(a[1..], b, p);
      assert head + (Filter(a[1..], p) + Filter(b, p)) == (head + Filter(a[1..], p)) + Filter(b, p);
    }
  }

  lemma {:induction false} FilterNone(s: string, p: char -> bool)
    requires forall i :: 0 <= i < |s| ==> !p(s[i])
    ensures Filter(s, p) == []
  {
    if s != [] {
      FilterNone(s[1..], p);
    }
  }

  lemma {:induction false} FilterAll(s: string, p: char -> bool)
    requires forall i :: 0 <= i < |s| ==> p(s[i])
    ensures Filter(s, p) == s
  {
    if s != [] {
      FilterAll(s[1..], p);
    }
  }

  /** There is no run exactly when no character satisfies `p`. */
  lemma {:induction false} RunsEmptyIff(s: string, p: char -> bool)
    ensures Runs(s, p) == [] <==> forall i :: 0 <= i < |s| ==> !p(s[i])
    decreases |s|
  {
    if s != [] && !p(s[0]) {
      RunsEmptyIff(s[1..], p);
      assert forall i :: 1 <= i < |s| ==> s[i] == s[1..][i - 1];
    }
  }

  /** Characters that fail `p` at the front add no run. */
  lemma {:induction false} RunsSkip(s: string, p: char -> bool, n: nat)
    requires n <= |s|
    requires forall i :: 0 <= i < n ==> !p(s[i])
    ensures Runs(s, p) == Runs(s[n..], p)
  {
    if n > 0 {
      RunsSkip(s[1..], p, n - 1);
      assert s[1..][n - 1..] == s[n..];
    }
  }

  /** A text that starts with a `p` character has its first run in front. */
  lemma RunsFirst(s: string, p: char -> bool)
    requires s != [] && p(s[0])
    ensures Runs(s, p) == [s[..RunLength(s, p)]] + Runs(s[RunLength(s, p)..], p)
  {
  }

  /** Appending text that does not start with a `p` character leaves the first run alone. */
  lemma {:induction false} RunLengthAppend(r: string, t: string, p: char -> bool)
    requires t == [] || !p(t[0])
    ensures RunLength(r + t, p) == RunLength(r, p)
  {
    if r == [] {
      assert r + t == t;
    } else {
      assert (r + t)[0] == r[0];
      if p(r[0]) {
        assert (r + t)[1..] == r[1..] + t;
        RunLengthAppend(r[1..], t, p);
      }
    }
  }

  /** A whole run followed by text that does not start with a `p` character. */
  lemma RunsWordThen(w: string, t: string, p: char -> bool)
    requires w != [] && forall i :: 0 <= i < |w| ==> p(w[i])
    requires t == [] || !p(t[0])
    ensures Runs(w + t, p) == [w] + Runs(t, p)
  {
    RunLengthAppend(w, t, p);
    var n := RunLength(w, p);
    assert n == |w|;
    assert (w + t)[0] == w[0];
    assert (w + t)[..n] == w;
    assert (w + t)[n..] == t;
  }

  /** Trailing characters that fail `p` add no run. */
  lemma {:induction false} RunsTrailing(r: string, t: string, p: char -> bool)
    requires forall i :: 0 <= i < |t| ==> !p(t[i])
    ensures Runs(r + t, p) == Runs(r, p)
    decreases |r|
  {
    if r == [] {
      assert r + t == t;
      RunsEmptyIff(t, p);
    } else if !p(r[0]) {
      assert (r + t)[0] == r[0];
      assert (r + t)[1..] == r[1..] + t;
      RunsTrailing(r[1..], t, p);
    } else {
      assert (r + t)[0] == r[0];
      RunLengthAppend(r, t, p);
      var n := RunLength(r, p);
      assert (r + t)[..n] == r[..n];
      assert (r + t)[n..] == r[n..] + t;
      RunsTrailing(r[n..], t, p);
    }
  }

  /** `str.lstrip()` */
  function StripLeft(s: string): (r: string)
    ensures |r| <= |s| && r == s[|s| - |r|..]
    ensures forall i :: 0 <= i < |s| - |r| ==> IsSpace(s[i])
    ensures r == [] || !IsSpace(r[0])
  {
    if s != [] && IsSpace(s[0]) then StripLeft(s[1..]) else s
  }

  /** `str.rstrip()` */
  function StripRight(s: string): (r: string)
    ensures |r| <= |s| && r == s[..|r|]
    ensures forall i :: |r| <= i < |s| ==> IsSpace(s[i])
    ensures r == [] || !IsSpace(r[|r| - 1])
  {
    if s != [] && IsSpace(s[|s| - 1]) then StripRight(s[..|s| - 1]) else s
  }

  /** `str.strip()`: the result is the piece of `s` that starts at `|s| - |StripLeft(s)|`,
      it has no whitespace at either end, and everything removed was whitespace. */
  function Strip(s: string): (r: string)
    ensures r == [] || (!IsSpace(r[0]) && !IsSpace(r[|r| - 1]))
    ensures var i := |s| - |StripLeft(s)|;
      i + |r| <= |s| && r == s[i..i + |r|] &&
      (forall k :: 0 <= k < i ==> IsSpace(s[k])) &&
      (forall k :: i + |r| <= k < |s| ==> IsSpace(s[k]))
  {
    StripRight(StripLeft(s))
  }

  /** `needle in hay` */
  predicate Contains(hay: string, needle: string)
    decreases |hay|
  {
    needle <= hay || (hay != [] && Contains(hay[1..], needle))
  }

  /** `s.endswith(suffix)` */
  predicate EndsWith(s: string, suffix: string) {
    |suffix| <= |s| && s[|s| - |suffix|..] == suffix
  }

  /** `sep.join(parts)` */
  function Join(parts: seq<string>, sep: string): (r: string)
    ensures |parts| == 1 ==> r == parts[0]
  {
    if parts == [] then ""
    else if |parts| == 1 then parts[0]
    else parts[0] + sep + Join(parts[1..], sep)
  }

  /** Joining a leading part puts the separator between it and the rest. */
  lemma JoinCons(p: string, rest: seq<string>, sep: string)
    ensures Join([p] + rest, sep) == if rest == [] then p else p + sep + Join(rest, sep)
  {
    assert ([p] + rest)[0] == p;
    assert ([p] + rest)[1..] == rest;
  }

  /** Joining one more part appends the separator and the part. */
  lemma {:induction false} JoinSnoc(parts: seq<string>, p: string, sep: string)
    ensures Join(parts + [p], sep) == if parts == [] then p else Join(parts, sep) + sep + p
    decreases |parts|
  {
    if |parts| == 1 {
      assert parts + [p] == [parts[0], p];
      assert [parts[0], p][1..] == [p];
    } else if |parts| > 1 {
      assert (parts + [p])[1..] == parts[1..] + [p];
      JoinSnoc(parts[1..], p, sep);
    }
  }
}
