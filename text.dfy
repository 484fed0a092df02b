/** String operations the validators and the search filter rely on:
    Python's str.isspace, str.strip, str.split() and " ".join, the
    whitespace collapsing built from them, ASCII case folding and
    substring search. */
module Text {

  /** The characters Python's str.isspace() (and the regex class \s on
      str patterns) accepts. */
  predicate IsSpace(c: char)
  {
    c == ' ' || ('\t' <= c <= '\r') || ('\U{1C}' <= c <= '\U{1F}')
    || c == '\U{85}' || c == '\U{A0}' || c == '\U{1680}'
    || ('\U{2000}' <= c <= '\U{200A}') || c == '\U{2028}' || c == '\U{2029}'
    || c == '\U{202F}' || c == '\U{205F}' || c == '\U{3000}'
  }

  predicate AllSpace(s: string)
  {
    forall i :: 0 <= i < |s| ==> IsSpace(s[i])
  }

  /** A word of str.split(): non-empty and free of whitespace. */
  predicate IsWord(w: string)
  {
    w != [] && forall i :: 0 <= i < |w| ==> !IsSpace(w[i])
  }

  predicate AllWords(ws: seq<string>)
  {
    forall k :: 0 <= k < |ws| ==> IsWord(ws[k])
  }

  // ---------------------------------------------------------------
  // str.strip()
  // ---------------------------------------------------------------

  function TrimStart(s: string): (r: string)
    ensures |r| <= |s| && r == s[|s| - |r|..]
    ensures r == [] || !IsSpace(r[0])
    ensures AllSpace(s[..|s| - |r|])
  {
    if s != [] && IsSpace(s[0]) then
      var r := TrimStart(s[1..]);
      TrimmedAfterFirst(s, r);
      r
    else s
  }

  /** A leading whitespace character joins the whitespace trimmed from
      the rest. */
  lemma TrimmedAfterFirst(s: string, r: string)
    requires s != [] && IsSpace(s[0])
    requires |r| <= |s| - 1 && r == s[1..][|s| - 1 - |r|..] && AllSpace(s[1..][..|s| - 1 - |r|])
    ensures r == s[|s| - |r|..] && AllSpace(s[..|s| - |r|])
  {
    var n := |s| - |r|;
    assert s[1..][n - 1..] == s[n..];
    assert s[..n] == [s[0]] + s[1..][..n - 1];
    AllSpaceConcat([s[0]], s[1..][..n - 1]);
  }

  function TrimEnd(s: string): (r: string)
    ensures |r| <= |s| && r == s[..|r|]
    ensures r == [] || !IsSpace(r[|r| - 1])
    ensures AllSpace(s[|r|..])
  {
    if s != [] && IsSpace(s[|s| - 1]) then
      var r := TrimEnd(s[..|s| - 1]);
      TrimmedBeforeLast(s, r);
      r
    else s
  }

  /** A trailing whitespace character joins the whitespace trimmed from
      the rest. */
  lemma TrimmedBeforeLast(s: string, r: string)
    requires s != [] && IsSpace(s[|s| - 1])
    requires |r| <= |s| - 1 && r == s[..|s| - 1][..|r|] && AllSpace(s[..|s| - 1][|r|..])
    ensures r == s[..|r|] && AllSpace(s[|r|..])
  {
    assert s[..|s| - 1][..|r|] == s[..|r|];
    assert s[|r|..] == s[..|s| - 1][|r|..] + [s[|s| - 1]];
    AllSpaceConcat(s[..|s| - 1][|r|..], [s[|s| - 1]]);
  }

  /** The two trims leave the middle slice of s, with whitespace on
      either side of it. */
  lemma TrimmedSlice(s: string, t: string, r: string)
    requires |t| <= |s| && t == s[|s| - |t|..] && AllSpace(s[..|s| - |t|])
    requires |r| <= |t| && r == t[..|r|] && AllSpace(t[|r|..])
    ensures exists i, j :: 0 <= i <= j <= |s| && r == s[i..j] && AllSpace(s[..i]) && AllSpace(s[j..])
  {
    var i := |s| - |t|;
    assert t == s[i..];
    assert r == t[..|r|] == s[i..][..|r|];
    assert s[i..][..|r|] == s[i..i + |r|];
    assert s[i + |r|..] == t[|r|..];
    assert r == s[i..i + |r|] && AllSpace(s[..i]) && AllSpace(s[i + |r|..]);
  }

  lemma AllSpaceConcat(a: string, b: string)
    requires AllSpace(a) && AllSpace(b)
    ensures AllSpace(a + b)
  {
    forall k | 0 <= k < |a + b|
      ensures IsSpace((a + b)[k])
    {
      if k >= |a| {
        assert (a + b)[k] == b[k - |a|];
      }
    }
  }

  /** Both trims leave nothing exactly when the input is all whitespace. */
  lemma TrimmedEmpty(s: string, t: string, r: string)
    requires |t| <= |s| && t == s[|s| - |t|..] && AllSpace(s[..|s| - |t|])
    requires t == [] || !IsSpace(t[0])
    requires |r| <= |t| && r == t[..|r|] && AllSpace(t[|r|..])
    ensures r == [] || !IsSpace(r[0])
    ensures r == [] <==> AllSpace(s)
  {
    var i := |s| - |t|;
    if r == [] {
      assert t[|r|..] == t;
      assert s == s[..i] + t;
      AllSpaceConcat(s[..i], t);
    } else {
      assert r[0] == t[0] == s[i];
      assert !AllSpace(s) by {
        assert !IsSpace(s[i]);
      }
    }
  }

  /** str.strip(): the input without leading and trailing whitespace. */
  function Strip(s: string): (r: string)
    ensures r == [] || (!IsSpace(r[0]) && !IsSpace(r[|r| - 1]))
    ensures r == [] <==> AllSpace(s)
    ensures exists i, j :: 0 <= i <= j <= |s| && r == s[i..j] && AllSpace(s[..i]) && AllSpace(s[j..])
  {
    var t := TrimStart(s);
    var r := TrimEnd(t);
    TrimmedSlice(s, t, r);
    TrimmedEmpty(s, t, r);
    r
  }

  // ---------------------------------------------------------------
  // str.split() and " ".join(...)
  // ---------------------------------------------------------------

  /** Length of the leading run of non-whitespace characters. */
  function WordLength(s: string): (n: nat)
    ensures n <= |s|
    ensures forall i :: 0 <= i < n ==> !IsSpace(s[i])
    ensures n < |s| ==> IsSpace(s[n])
  {
    if s == [] || IsSpace(s[0]) then 0 else 1 + WordLength(s[1..])
  }

  /** str.split() with no separator: the maximal runs of non-whitespace. */
  function Words(s: string): (ws: seq<string>)
    ensures AllWords(ws)
    decreases |s|
  {
    if s == [] then []
    else if IsSpace(s[0]) then Words(s[1..])
    else
      var n := WordLength(s);
      [s[..n]] + Words(s[n..])
  }

  /** " ".join(ws) */
  function Join(ws: seq<string>): string
  {
    if ws == [] then ""
    else if |ws| == 1 then ws[0]
    else ws[0] + " " + Join(ws[1..])
  }

  /** " ".join(s.strip().split()): words kept, every separating run of
      whitespace replaced by one space, the ends trimmed. */
  function Collapse(s: string): (r: string)
    ensures r == [] || (!IsSpace(r[0]) && !IsSpace(r[|r| - 1]))
  {
    JoinEnds(Words(Strip(s)));
    Join(Words(Strip(s)))
  }

  lemma {:induction false} WordLengthOfWord(w: string, rest: string)
    requires IsWord(w) || w == []
    requires rest == [] || IsSpace(rest[0])
    ensures WordLength(w + rest) == |w|
    decreases |w|
  {
    if w != [] {
      assert (w + rest)[1..] == w[1..] + rest;
      WordLengthOfWord(w[1..], rest);
    } else {
      assert w + rest == rest;
    }
  }

  lemma {:induction false} WordsOfWordThen(w: string, rest: string)
    requires IsWord(w)
    requires rest == [] || IsSpace(rest[0])
    ensures Words(w + rest) == [w] + Words(rest)
  {
    WordLengthOfWord(w, rest);
    var s := w + rest;
    assert s[..|w|] == w;
    assert s[|w|..] == rest;
  }

  /** Splitting a joined list of words gives the words back. */
  lemma {:induction false} WordsOfJoin(ws: seq<string>)
    requires AllWords(ws)
    ensures Words(Join(ws)) == ws
  {
    if ws == [] {
    } else if |ws| == 1 {
      WordsOfWordThen(ws[0], []);
      assert ws[0] + [] == ws[0];
    } else {
      var j := Join(ws[1..]);
      WordsOfJoin(ws[1..]);
      assert Join(ws) == ws[0] + (" " + j);
      WordsOfWordThen(ws[0], " " + j);
      assert (" " + j)[1..] == j;
    }
  }

  /** A joined list of words starts and ends with a non-space and is
      empty only when the list is. */
  lemma {:induction false} JoinEnds(ws: seq<string>)
    requires AllWords(ws)
    ensures Join(ws) == [] <==> ws == []
    ensures ws != [] ==> !IsSpace(Join(ws)[0]) && !IsSpace(Join(ws)[|Join(ws)| - 1])
  {
    if |ws| >= 2 {
      JoinEnds(ws[1..]);
      var j := Join(ws[1..]);
      assert Join(ws) == ws[0] + " " + j;
      assert Join(ws)[0] == ws[0][0];
      assert Join(ws)[|Join(ws)| - 1] == j[|j| - 1];
    }
  }

  lemma StripOfTrimmed(s: string)
    requires s == [] || (!IsSpace(s[0]) && !IsSpace(s[|s| - 1]))
    ensures Strip(s) == s
  {
  }

  /** Stripping twice is stripping once. */
  lemma StripIdempotent(s: string)
    ensures Strip(Strip(s)) == Strip(s)
  {
    StripOfTrimmed(Strip(s));
  }

  lemma {:induction false} WordsOfAllSpace(s: string)
    ensures Words(s) == [] <==> AllSpace(s)
    decreases |s|
  {
    if s != [] {
      WordsOfAllSpace(s[1..]);
      if IsSpace(s[0]) {
        assert AllSpace(s) <==> AllSpace(s[1..]);
      }
    }
  }

  /** Collapsing is empty exactly for all-whitespace input. */
  lemma CollapseEmpty(s: string)
    ensures Collapse(s) == [] <==> AllSpace(s)
  {
    var t := Strip(s);
    JoinEnds(Words(t));
    WordsOfAllSpace(t);
    assert AllSpace(t) <==> t == [] by {
      if t != [] { assert !IsSpace(t[0]); }
    }
  }

  /** Collapsing keeps the words of the stripped input and nothing else. */
  lemma CollapseKeepsWords(s: string)
    ensures Words(Collapse(s)) == Words(Strip(s))
  {
    WordsOfJoin(Words(Strip(s)));
  }

  /** Collapsing an already collapsed string changes nothing. */
  lemma CollapseIdempotent(s: string)
    ensures Collapse(Collapse(s)) == Collapse(s)
  {
    var c := Collapse(s);
    JoinEnds(Words(Strip(s)));
    StripOfTrimmed(c);
    WordsOfJoin(Words(Strip(s)));
  }

  // ---------------------------------------------------------------
  // Case folding and substring search
  // ---------------------------------------------------------------

  function LowerChar(c: char): char
  {
    if 'A' <= c <= 'Z' then (c as int + 32) as char else c
  }

  function Lower(s: string): (r: string)
    ensures |r| == |s|
    ensures forall i :: 0 <= i < |s| ==> r[i] == LowerChar(s[i])
  {
    if s == [] then [] else [LowerChar(s[0])] + Lower(s[1..])
  }

  /** p occurs in s as a contiguous block, tried at every offset. */
  predicate IsSubstring(p: string, s: string)
    decreases |s|
  {
    p <= s || (s != [] && IsSubstring(p, s[1..]))
  }

  predicate OccursAt(p: string, s: string, i: int)
  {
    0 <= i && i + |p| <= |s| && s[i..i + |p|] == p
  }

  /** p occurs in s at some offset. */
  predicate OccursIn(p: string, s: string)
  {
    exists i :: 0 <= i <= |s| && OccursAt(p, s, i)
  }

  /** An occurrence at offset 0 is a prefix. */
  lemma OccursAtStart(p: string, s: string)
    ensures OccursAt(p, s, 0) <==> p <= s
  {
    if |p| <= |s| {
      assert s[0..|p|] == s[..|p|];
    }
  }

  /** An occurrence past offset 0 is one in the tail, one place earlier. */
  lemma OccursInTail(p: string, s: string, i: int)
    requires s != [] && 1 <= i
    ensures OccursAt(p, s[1..], i - 1) <==> OccursAt(p, s, i)
  {
    if i + |p| <= |s| {
      assert s[1..][i - 1..i - 1 + |p|] == s[i..i + |p|];
    }
  }

  /** The recursive search finds p exactly when some offset holds it. */
  lemma {:induction false} IsSubstringIffOccurs(p: string, s: string)
    ensures IsSubstring(p, s) <==> exists i :: OccursAt(p, s, i)
    decreases |s|
  {
    if p <= s {
      assert OccursAt(p, s, 0);
    } else if s == [] {
      assert forall i :: !OccursAt(p, s, i);
    } else {
      IsSubstringIffOccurs(p, s[1..]);
      if exists i :: OccursAt(p, s[1..], i) {
        var i :| OccursAt(p, s[1..], i);
        OccursInTail(p, s, i + 1);
      }
      if exists i :: OccursAt(p, s, i) {
        var i :| OccursAt(p, s, i);
        OccursAtStart(p, s);
        OccursInTail(p, s, i);
      }
    }
  }

  /** Case-insensitive containment, as an ILIKE '%term%' match. */
  predicate ContainsIgnoringCase(s: string, term: string)
  {
    IsSubstring(Lower(term), Lower(s))
  }
}
