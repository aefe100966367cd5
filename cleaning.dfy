/**
 * The two string cleaners of the LinkedIn cleaning script: whitespace
 * canonicalisation (`re.sub(r'\s+', ' ', text).strip()`) and tracking-parameter
 * stripping (`url.split("?")[0]`). A missing value (`None`) is `Option.None`.
 */
module Cleaning {
  import opened Wrappers
  import opened PyText

  /** Every whitespace character is a plain space. */
  predicate OnlyPlainSpaces(s: string) {
    forall i :: 0 <= i < |s| && IsSpace(s[i]) ==> s[i] == ' '
  }

  /** No two neighbouring characters are both whitespace. */
  predicate NoDoubleSpace(s: string) {
    forall i :: 0 <= i < |s| - 1 ==> !(IsSpace(s[i]) && IsSpace(s[i + 1]))
  }

  /** The shape of a canonical text: single plain spaces between runs of
      non-whitespace, and nothing at either end. */
  predicate Canonical(s: string) {
    && (s == [] || (!IsSpace(s[0]) && !IsSpace(s[|s| - 1])))
    && OnlyPlainSpaces(s)
    && NoDoubleSpace(s)
  }

  /** `re.sub(r'\s+', ' ', s)`: every maximal run of whitespace becomes one space. */
  function Collapse(s: string): (r: string)
    ensures OnlyPlainSpaces(r)
    ensures NoDoubleSpace(r)
    ensures (r != [] && IsSpace(r[0])) <==> (s != [] && IsSpace(s[0]))
    decreases |s|
  {
    if s == [] then []
    else if IsSpace(s[0]) then
      var n := RunLength(s, IsSpace);
      [' '] + Collapse(s[n..])
    else
      var n := RunLength(s, IsNonSpace);
      s[..n] + Collapse(s[n..])
  }

  /** `normalize_whitespace` */
  function NormalizeWhitespace(text: Option<string>): string {
    if text == None || text == Some("") then ""
    else Strip(Collapse(text.value))
  }

  /** Collapsing keeps the non-whitespace characters exactly and in order. */
  lemma {:induction false} CollapseKeepsText(s: string)
    ensures Filter(Collapse(s), IsNonSpace) == Filter(s, IsNonSpace)
    decreases |s|
  {
    if s != [] {
      if IsSpace(s[0]) {
        var n := RunLength(s, IsSpace);
        assert s == s[..n] + s[n..];
        FilterAppend(s[..n], s[n..], IsNonSpace);
        FilterNone(s[..n], IsNonSpace);
        CollapseKeepsText(s[n..]);
        FilterAppend([' '], Collapse(s[n..]), IsNonSpace);
      } else {
        var n := RunLength(s, IsNonSpace);
        assert s == s[..n] + s[n..];
        FilterAppend(s[..n], s[n..], IsNonSpace);
        FilterAll(s[..n], IsNonSpace);
        CollapseKeepsText(s[n..]);
        FilterAppend(s[..n], Collapse(s[n..]), IsNonSpace);
      }
    }
  }

  /** A contiguous piece of a text keeps its two whitespace shape properties. */
  lemma SliceKeepsShape(s: string, i: nat, j: nat)
    requires i <= j <= |s|
    requires OnlyPlainSpaces(s) && NoDoubleSpace(s)
    ensures OnlyPlainSpaces(s[i..j]) && NoDoubleSpace(s[i..j])
  {
    var r := s[i..j];
    forall k | 0 <= k < |r| ensures r[k] == s[i + k] {
    }
  }

  /** A text whose whitespace is already single plain spaces is left alone by collapsing. */
  lemma {:induction false} CollapseFixesCanonical(s: string)
    requires OnlyPlainSpaces(s) && NoDoubleSpace(s)
    ensures Collapse(s) == s
    decreases |s|
  {
    if s != [] {
      var n := if IsSpace(s[0]) then RunLength(s, IsSpace) else RunLength(s, IsNonSpace);
      if IsSpace(s[0]) {
        assert n == 1 by {
          if |s| > 1 { assert !(IsSpace(s[0]) && IsSpace(s[1])); }
        }
      }
      SliceKeepsShape(s, n, |s|);
      assert s[n..|s|] == s[n..];
      CollapseFixesCanonical(s[n..]);
      assert s == s[..n] + s[n..];
    }
  }

  /** Stripping keeps the two shape properties, since it returns a contiguous piece. */
  lemma StripKeepsShape(s: string)
    requires OnlyPlainSpaces(s) && NoDoubleSpace(s)
    ensures Canonical(Strip(s))
  {
    var r := Strip(s);
    var i := |s| - |StripLeft(s)|;
    SliceKeepsShape(s, i, i + |r|);
  }

  /** `lstrip` removes only whitespace. */
  lemma {:induction false} StripLeftKeepsText(s: string)
    ensures Filter(StripLeft(s), IsNonSpace) == Filter(s, IsNonSpace)
    decreases |s|
  {
    if s != [] && IsSpace(s[0]) {
      StripLeftKeepsText(s[1..]);
    }
  }

  /** `rstrip` removes only whitespace. */
  lemma {:induction false} StripRightKeepsText(s: string)
    ensures Filter(StripRight(s), IsNonSpace) == Filter(s, IsNonSpace)
    decreases |s|
  {
    if s != [] && IsSpace(s[|s| - 1]) {
      var m := |s| - 1;
      StripRightKeepsText(s[..m]);
      assert s == s[..m] + [s[m]];
      FilterAppend(s[..m], [s[m]], IsNonSpace);
      assert Filter([s[m]], IsNonSpace) == [] by {
        assert [s[m]][1..] == [];
      }
      assert Filter(s[..m], IsNonSpace) + [] == Filter(s[..m], IsNonSpace);
    }
  }

  /** Stripping removes only whitespace, so it keeps the non-whitespace characters. */
  lemma StripKeepsText(s: string)
    ensures Filter(Strip(s), IsNonSpace) == Filter(s, IsNonSpace)
  {
    StripLeftKeepsText(s);
    StripRightKeepsText(StripLeft(s));
  }

  /** A text without whitespace at either end is left alone by stripping. */
  lemma StripFixesTrimmed(s: string)
    requires s == [] || (!IsSpace(s[0]) && !IsSpace(s[|s| - 1]))
    ensures Strip(s) == s
  {
  }

  /** The output has no whitespace at either end, no two adjacent whitespace
      characters and no whitespace other than a plain space; it keeps the
      non-whitespace characters of the input exactly and in order; and a missing
      or empty input gives the empty string. */
  lemma NormalizeWhitespaceSpec(text: Option<string>)
    ensures Canonical(NormalizeWhitespace(text))
    ensures Filter(NormalizeWhitespace(text), IsNonSpace) == Filter(text.GetOr(""), IsNonSpace)
    ensures text == None || text == Some("") ==> NormalizeWhitespace(text) == ""
  {
    if text.Some? && text.value != "" {
      var c := Collapse(text.value);
      StripKeepsShape(c);
      StripKeepsText(c);
      CollapseKeepsText(text.value);
    }
  }

  /** A canonical text is left alone by normalising. */
  lemma NormalizeFixesCanonical(t: string)
    requires Canonical(t)
    ensures NormalizeWhitespace(Some(t)) == t
  {
    if t != "" {
      CollapseFixesCanonical(t);
      StripFixesTrimmed(t);
    }
  }

  /** Normalising twice gives the same text as normalising once. */
  lemma NormalizeWhitespaceIdempotent(text: Option<string>)
    ensures NormalizeWhitespace(Some(NormalizeWhitespace(text))) == NormalizeWhitespace(text)
  {
    NormalizeWhitespaceSpec(text);
    NormalizeFixesCanonical(NormalizeWhitespace(text));
  }

  /** Collapsing keeps the words (`s.split()`) of the text. */
  lemma {:induction false} CollapseKeepsWords(s: string)
    ensures Runs(Collapse(s), IsNonSpace) == Runs(s, IsNonSpace)
    decreases |s|
  {
    if s != [] {
      if IsSpace(s[0]) {
        var n := RunLength(s, IsSpace);
        CollapseKeepsWords(s[n..]);
        RunsSkip(s, IsNonSpace, n);
        RunsSkip(Collapse(s), IsNonSpace, 1);
        assert Collapse(s)[1..] == Collapse(s[n..]);
      } else {
        var n := RunLength(s, IsNonSpace);
        CollapseKeepsWords(s[n..]);
        RunsWordThen(s[..n], Collapse(s[n..]), IsNonSpace);
      }
    }
  }

  /** `lstrip` keeps the words of the text. */
  lemma {:induction false} StripLeftKeepsWords(s: string)
    ensures Runs(StripLeft(s), IsNonSpace) == Runs(s, IsNonSpace)
    decreases |s|
  {
    if s != [] && IsSpace(s[0]) {
      StripLeftKeepsWords(s[1..]);
    }
  }

  /** `rstrip` keeps the words of the text. */
  lemma {:induction false} StripRightKeepsWords(s: string)
    ensures Runs(StripRight(s), IsNonSpace) == Runs(s, IsNonSpace)
    decreases |s|
  {
    if s != [] && IsSpace(s[|s| - 1]) {
      var m := |s| - 1;
      StripRightKeepsWords(s[..m]);
      assert s == s[..m] + [s[m]];
      RunsTrailing(s[..m], [s[m]], IsNonSpace);
    }
  }

  /** Stripping keeps the words of the text. */
  lemma StripKeepsWords(s: string)
    ensures Runs(Strip(s), IsNonSpace) == Runs(s, IsNonSpace)
  {
    StripLeftKeepsWords(s);
    StripRightKeepsWords(StripLeft(s));
  }

  /** In a canonical text the first word, when it is not all of the text, is
      followed by one plain space and a canonical remainder. */
  lemma CanonicalTail(t: string, n: nat)
    requires Canonical(t) && t != []
    requires n == RunLength(t, IsNonSpace) && n < |t|
    ensures t[n] == ' ' && n + 1 < |t|
    ensures Canonical(t[n + 1..])
  {
    assert !IsSpace(t[n + 1]) by {
      assert !(IsSpace(t[n]) && IsSpace(t[n + 1]));
    }
    var rest := t[n + 1..];
    forall k | 0 <= k < |rest| - 1 ensures !(IsSpace(rest[k]) && IsSpace(rest[k + 1])) {
      assert rest[k] == t[n + 1 + k] && rest[k + 1] == t[n + 2 + k];
    }
    assert rest[|rest| - 1] == t[|t| - 1];
  }

  /** The words after the first one are the (nonempty) words of the remainder. */
  lemma WordsAfterFirst(t: string, n: nat)
    requires n < |t| && t[n] == ' ' && n + 1 < |t| && !IsSpace(t[n + 1])
    ensures Runs(t[n..], IsNonSpace) == Runs(t[n + 1..], IsNonSpace) != []
  {
    RunsSkip(t[n..], IsNonSpace, 1);
    assert t[n..][1..] == t[n + 1..];
    RunsEmptyIff(t[n + 1..], IsNonSpace);
    assert t[n + 1..][0] == t[n + 1];
  }

  /** A text made of a first word, one space and a joined remainder is the
      join of all the words. */
  lemma JoinStep(t: string, n: nat, words: seq<string>)
    requires n < |t| && t[n] == ' '
    requires words != [] && t[n + 1..] == Join(words, " ")
    ensures t == Join([t[..n]] + words, " ")
  {
    JoinCons(t[..n], words, " ");
    assert t == t[..n] + " " + t[n + 1..];
  }

  /** A canonical text is its own words joined by single spaces. */
  lemma {:induction false} CanonicalIsJoinedWords(t: string)
    requires Canonical(t)
    ensures t == Join(Runs(t, IsNonSpace), " ")
    decreases |t|
  {
    if t != [] {
      var n := RunLength(t, IsNonSpace);
      RunsFirst(t, IsNonSpace);
      if n == |t| {
        assert t[n..] == [] && t[..n] == t;
      } else {
        CanonicalTail(t, n);
        CanonicalIsJoinedWords(t[n + 1..]);
        WordsAfterFirst(t, n);
        JoinStep(t, n, Runs(t[n + 1..], IsNonSpace));
      }
    }
  }

  /** Normalising is `" ".join(text.split())`: the words of the text, in order,
      separated by single spaces. */
  lemma NormalizeWhitespaceIsJoinedWords(text: Option<string>)
    ensures NormalizeWhitespace(text) == Join(Runs(text.GetOr(""), IsNonSpace), " ")
  {
    NormalizeWhitespaceSpec(text);
    if text.Some? && text.value != "" {
      var c := Collapse(text.value);
      CollapseKeepsWords(text.value);
      StripKeepsWords(c);
      CanonicalIsJoinedWords(Strip(c));
    }
  }

  /** `s.split(c)[0]`: everything before the first `c`, or all of `s` when there is none. */
  function PrefixBefore(s: string, c: char): (r: string)
    ensures r <= s
    ensures c !in r
    ensures |r| < |s| ==> s[|r|] == c
  {
    if s == [] || s[0] == c then [] else [s[0]] + PrefixBefore(s[1..], c)
  }

  /** `strip_tracking_params` */
  function StripTrackingParams(url: Option<string>): string {
    if url == None || url == Some("") then ""
    else PrefixBefore(url.value, '?')
  }

  /** The result is a prefix of the URL without `?`, and it is cut exactly at the
      first `?`; a missing or empty URL gives the empty string. */
  lemma StripTrackingParamsSpec(url: Option<string>)
    ensures var r := StripTrackingParams(url); var u := url.GetOr("");
      r <= u && '?' !in r && (|r| < |u| ==> u[|r|] == '?')
    ensures url == None || url == Some("") ==> StripTrackingParams(url) == ""
  {
  }

  /** A URL without `?` comes back unchanged, and stripping twice is stripping once. */
  lemma StripTrackingParamsStable(url: Option<string>)
    ensures url.Some? && '?' !in url.value ==> StripTrackingParams(url) == url.value
    ensures StripTrackingParams(Some(StripTrackingParams(url))) == StripTrackingParams(url)
  {
  }
}
