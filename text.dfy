/**
 * The string operations the readers are built from: Python's whitespace
 * class, the three `re.split` shapes they use (a single separator
 * character, the `\s` class one character at a time, and runs of `\s`),
 * `str.strip`, `str.replace`, `str.join` and ASCII `str.lower`.
 */
module Text {
  import opened Wrappers

  /** The ASCII characters for which `str.isspace()` holds; `\s` and `str.strip()` use the same class. */
  const WHITESPACE: set<char> :=
    {' ', '\t', '\n', '\r', '\U{0B}', '\U{0C}', '\U{1C}', '\U{1D}', '\U{1E}', '\U{1F}'}

  const TAB: set<char> := {'\t'}

  predicate IsSpace(c: char)
  {
    c in WHITESPACE
  }

  /** No character of `s` is in `cs`. */
  predicate Avoids(s: string, cs: set<char>)
  {
    forall i :: 0 <= i < |s| ==> s[i] !in cs
  }

  /** Every character of `s` is in `cs`. */
  predicate Within(s: string, cs: set<char>)
  {
    forall i :: 0 <= i < |s| ==> s[i] in cs
  }

  /** `s` with every character of `cs` deleted. */
  function Remove(s: string, cs: set<char>): string
  {
    if s == [] then [] else (if s[0] in cs then [] else [s[0]]) + Remove(s[1..], cs)
  }

  /** How many characters of `s` are in `cs`. */
  function Count(s: string, cs: set<char>): nat
  {
    if s == [] then 0 else (if s[0] in cs then 1 else 0) + Count(s[1..], cs)
  }

  /** `''.join(ss)` */
  function Concat(ss: seq<string>): string
  {
    if ss == [] then [] else ss[0] + Concat(ss[1..])
  }

  /** `sep.join(ss)` */
  function JoinWith(ss: seq<string>, sep: string): string
  {
    if ss == [] then [] else if |ss| == 1 then ss[0] else ss[0] + sep + JoinWith(ss[1..], sep)
  }

  /** The characters of `s` as one-character strings: what iterating over a string yields. */
  function Chars(s: string): (r: seq<string>)
    ensures |r| == |s| && forall i :: 0 <= i < |s| ==> r[i] == [s[i]]
  {
    seq(|s|, i requires 0 <= i < |s| => [s[i]])
  }

  /** The elements of `ss` that are not the empty string, in order. */
  function NonEmpty(ss: seq<string>): seq<string>
  {
    if ss == [] then [] else (if ss[0] == [] then [] else [ss[0]]) + NonEmpty(ss[1..])
  }

  /** `min(a, b)` */
  function Min(a: int, b: int): int
  {
    if a < b then a else b
  }

  /** `max(a, b)` */
  function Max(a: int, b: int): int
  {
    if a < b then b else a
  }

  /** `s[i]` with Python's negative indexing, or None where Python raises IndexError. */
  function PyIndex<T>(s: seq<T>, i: int): (r: Option<T>)
    ensures r.Some? <==> -|s| <= i < |s|
    ensures 0 <= i < |s| ==> r == Some(s[i])
    ensures -|s| <= i < 0 ==> r == Some(s[|s| + i])
  {
    if 0 <= i < |s| then Some(s[i]) else if -|s| <= i < 0 then Some(s[|s| + i]) else None
  }

  /**
   * `s[:k]` with Python's slice semantics for a possibly negative stop: a
   * prefix of `s`, of `min(k, len(s))` elements, or for a negative `k` all but
   * the last `-k` (none when `-k >= len(s)`).
   */
  function PySliceTo<T>(s: seq<T>, k: int): (r: seq<T>)
    ensures r <= s
    ensures |r| == if 0 <= k then Min(k, |s|) else Max(0, |s| + k)
  {
    if 0 <= k then s[..if k < |s| then k else |s|]
    else s[..if |s| + k < 0 then 0 else |s| + k]
  }

  // ---------------------------------------------------------------------------
  // re.split with a one-character pattern: "\t" or "\s"
  // ---------------------------------------------------------------------------

  /**
   * `re.split(p, s)` where `p` matches exactly one character of `seps`:
   * every separator ends a piece, so adjacent separators give empty pieces.
   */
  function SplitOn(s: string, seps: set<char>): (r: seq<string>)
    ensures |r| >= 1
  {
    if s == [] then [[]]
    else
      var rest := SplitOn(s[1..], seps);
      if s[0] in seps then [[]] + rest else [[s[0]] + rest[0]] + rest[1..]
  }

  lemma {:induction false} SplitOnAvoids(s: string, seps: set<char>)
    ensures forall i :: 0 <= i < |SplitOn(s, seps)| ==> Avoids(SplitOn(s, seps)[i], seps)
  {
    if s != [] {
      SplitOnAvoids(s[1..], seps);
    }
  }

  /** There is one more piece than there are separators. */
  lemma {:induction false} SplitOnCount(s: string, seps: set<char>)
    ensures |SplitOn(s, seps)| == Count(s, seps) + 1
  {
    if s != [] {
      SplitOnCount(s[1..], seps);
    }
  }

  /** Splitting at a single separator character and joining with it again gives the string back. */
  lemma {:induction false} SplitOnJoin(s: string, c: char)
    ensures JoinWith(SplitOn(s, {c}), [c]) == s
  {
    if s != [] {
      var rest := SplitOn(s[1..], {c});
      SplitOnJoin(s[1..], c);
      if s[0] == c {
        assert SplitOn(s, {c}) == [[]] + rest;
        assert ([[]] + rest)[1..] == rest;
      } else {
        assert SplitOn(s, {c}) == [[s[0]] + rest[0]] + rest[1..];
        if |rest| > 1 {
          assert ([[s[0]] + rest[0]] + rest[1..])[1..] == rest[1..];
        }
      }
    }
  }

  /** A string that ends in a separator ends in an empty piece. */
  lemma {:induction false} SplitOnLastEmpty(s: string, seps: set<char>)
    requires s != [] && s[|s| - 1] in seps
    ensures SplitOn(s, seps)[|SplitOn(s, seps)| - 1] == []
  {
    var rest := SplitOn(s[1..], seps);
    if |s| == 1 {
      assert rest == [[]];
    } else {
      SplitOnLastEmpty(s[1..], seps);
    }
    var r := SplitOn(s, seps);
    assert r[|r| - 1] == rest[|rest| - 1];
  }

  /** A string without separators is a single piece, itself. */
  lemma {:induction false} SplitOnNoSeparator(s: string, seps: set<char>)
    requires Avoids(s, seps)
    ensures SplitOn(s, seps) == [s]
  {
    if s != [] {
      SplitOnNoSeparator(s[1..], seps);
      assert [s[0]] + s[1..] == s;
    }
  }

  // ---------------------------------------------------------------------------
  // re.split("\s+", s): split at maximal runs of whitespace
  // ---------------------------------------------------------------------------

  /**
   * `re.split("\s+", s)` (and `re.split("[\t\s]+", s)`, the same class):
   * leading or trailing whitespace gives an empty first or last piece.
   */
  function SplitRuns(s: string): (r: seq<string>)
    ensures |r| >= 1
  {
    if s == [] then [[]]
    else
      var rest := SplitRuns(s[1..]);
      if IsSpace(s[0]) then
        (if |s| > 1 && IsSpace(s[1]) then rest else [[]] + rest)
      else [[s[0]] + rest[0]] + rest[1..]
  }

  lemma {:induction false} SplitRunsAvoids(s: string)
    ensures forall i :: 0 <= i < |SplitRuns(s)| ==> Avoids(SplitRuns(s)[i], WHITESPACE)
  {
    if s != [] {
      SplitRunsAvoids(s[1..]);
    }
  }

  /** The pieces hold exactly the non-whitespace characters of `s`, in order. */
  lemma {:induction false} SplitRunsConcat(s: string)
    ensures Concat(SplitRuns(s)) == Remove(s, WHITESPACE)
  {
    if s != [] {
      var rest := SplitRuns(s[1..]);
      SplitRunsConcat(s[1..]);
      if !IsSpace(s[0]) {
        var r := [[s[0]] + rest[0]] + rest[1..];
        assert r[1..] == rest[1..];
        assert Concat(rest) == rest[0] + Concat(rest[1..]);
      }
    }
  }

  // ---------------------------------------------------------------------------
  // str.strip()
  // ---------------------------------------------------------------------------

  /** `s.lstrip()` */
  function StripLeft(s: string): string
  {
    if s != [] && IsSpace(s[0]) then StripLeft(s[1..]) else s
  }

  /** `s.rstrip()` */
  function StripRight(s: string): string
  {
    if s != [] && IsSpace(s[|s| - 1]) then StripRight(s[..|s| - 1]) else s
  }

  /** `s.strip()` */
  function Strip(s: string): string
  {
    StripRight(StripLeft(s))
  }

  /** `lstrip()` drops the leading whitespace and nothing else. */
  lemma {:induction false} StripLeftShape(s: string)
    ensures |StripLeft(s)| <= |s| && StripLeft(s) == s[|s| - |StripLeft(s)|..]
    ensures StripLeft(s) == [] || !IsSpace(StripLeft(s)[0])
    ensures forall i :: 0 <= i < |s| - |StripLeft(s)| ==> IsSpace(s[i])
  {
    if s != [] && IsSpace(s[0]) {
      StripLeftShape(s[1..]);
      forall i | 0 <= i < |s| - |StripLeft(s)|
        ensures IsSpace(s[i])
      {
        if i > 0 {
          assert s[i] == s[1..][i - 1];
        }
      }
    }
  }

  /** `rstrip()` drops the trailing whitespace and nothing else. */
  lemma {:induction false} StripRightShape(s: string)
    ensures |StripRight(s)| <= |s| && StripRight(s) == s[..|StripRight(s)|]
    ensures StripRight(s) == [] || !IsSpace(StripRight(s)[|StripRight(s)| - 1])
    ensures forall i :: |StripRight(s)| <= i < |s| ==> IsSpace(s[i])
  {
    if s != [] && IsSpace(s[|s| - 1]) {
      StripRightShape(s[..|s| - 1]);
      forall i | |StripRight(s)| <= i < |s|
        ensures IsSpace(s[i])
      {
        if i < |s| - 1 {
          assert s[i] == s[..|s| - 1][i];
        }
      }
    }
  }

  /** Neither end of `s.strip()` is whitespace. */
  lemma StripEnds(s: string)
    ensures Strip(s) == [] || (!IsSpace(Strip(s)[0]) && !IsSpace(Strip(s)[|Strip(s)| - 1]))
  {
    var l := StripLeft(s);
    StripLeftShape(s);
    StripRightShape(l);
    var r := StripRight(l);
    assert Strip(s) == r;
    if r != [] {
      assert r[0] == l[0];
      assert !IsSpace(r[0]) && !IsSpace(r[|r| - 1]);
    }
  }

  /** `strip()` keeps a contiguous part of `s` and removes only whitespace around it. */
  lemma StripBounds(s: string)
    ensures |StripLeft(s)| <= |s|
    ensures var a := |s| - |StripLeft(s)|;
            && a + |Strip(s)| <= |s|
            && Strip(s) == s[a..a + |Strip(s)|]
            && (forall i :: 0 <= i < a ==> IsSpace(s[i]))
            && (forall i :: a + |Strip(s)| <= i < |s| ==> IsSpace(s[i]))
  {
    var l := StripLeft(s);
    var a := |s| - |l|;
    var r := StripRight(l);
    StripLeftShape(s);
    StripRightShape(l);
    assert Strip(s) == r;
    assert r == l[..|r|];
    assert l == s[a..];
    assert r == s[a..a + |r|];
    assert forall i :: 0 <= i < a ==> IsSpace(s[i]);
    forall i | a + |r| <= i < |s|
      ensures IsSpace(s[i])
    {
      assert s[i] == l[i - a];
      assert IsSpace(l[i - a]);
    }
  }

  /** A string without whitespace is its own strip. */
  lemma StripAvoiding(s: string)
    requires Avoids(s, WHITESPACE)
    ensures Strip(s) == s
  {
    if s != [] {
      assert !IsSpace(s[0]) && !IsSpace(s[|s| - 1]);
      StripRightShape(s);
    }
  }

  /** `s.strip() == ''` exactly when `s` is all whitespace. */
  lemma StripEmpty(s: string)
    ensures Strip(s) == [] <==> Within(s, WHITESPACE)
  {
    StripBounds(s);
    StripEnds(s);
    var a := |s| - |StripLeft(s)|;
    if Strip(s) != [] {
      assert s[a] == Strip(s)[0];
      assert !IsSpace(s[a]);
    }
  }

  // ---------------------------------------------------------------------------
  // str.replace and str.lower
  // ---------------------------------------------------------------------------

  /** `s.replace(pat, rep)`: non-overlapping occurrences, scanned left to right. */
  function Replace(s: string, pat: string, rep: string): string
    requires pat != []
    decreases |s|
  {
    if s == [] then []
    else if pat <= s then rep + Replace(s[|pat|..], pat, rep)
    else [s[0]] + Replace(s[1..], pat, rep)
  }

  function LowerChar(c: char): char
  {
    if 'A' <= c <= 'Z' then (c as int + 32) as char else c
  }

  /** `s.lower()` on ASCII letters. */
  function Lower(s: string): (r: string)
    ensures |r| == |s| && forall i :: 0 <= i < |s| ==> r[i] == LowerChar(s[i])
  {
    seq(|s|, i requires 0 <= i < |s| => LowerChar(s[i]))
  }

  // ---------------------------------------------------------------------------
  // Facts about the helpers above
  // ---------------------------------------------------------------------------

  lemma {:induction false} RemoveAppend(a: string, b: string, cs: set<char>)
    ensures Remove(a + b, cs) == Remove(a, cs) + Remove(b, cs)
  {
    if a != [] {
      assert (a + b)[0] == a[0];
      assert (a + b)[1..] == a[1..] + b;
      RemoveAppend(a[1..], b, cs);
      assert Remove(a + b, cs) == (if a[0] in cs then [] else [a[0]]) + Remove(a[1..] + b, cs);
    } else {
      assert a + b == b;
    }
  }

  /** A run of whitespace inside a string within `cs`, whose only whitespace is the space, is a run of spaces. */
  lemma SpaceRun(s: string, cs: set<char>, lo: nat, hi: nat)
    requires Within(s, cs) && lo <= hi <= |s|
    requires forall c :: c in cs && IsSpace(c) ==> c == ' '
    requires forall i :: lo <= i < hi ==> IsSpace(s[i])
    ensures Within(s[lo..hi], {' '})
  {
    forall i | 0 <= i < hi - lo
      ensures s[lo..hi][i] in {' '}
    {
      assert s[lo..hi][i] == s[lo + i];
    }
  }

  /** When the only whitespace `s` can hold is the space, `strip()` removes spaces only. */
  lemma StripSpaces(s: string, cs: set<char>)
    requires Within(s, cs)
    requires forall c :: c in cs && IsSpace(c) ==> c == ' '
    ensures Within(Strip(s), cs)
    ensures Remove(Strip(s), {' '}) == Remove(s, {' '})
  {
    StripBounds(s);
    var a := |s| - |StripLeft(s)|;
    var b := a + |Strip(s)|;
    var left, mid, right := s[..a], s[a..b], s[b..];
    SpaceRun(s, cs, 0, a);
    assert s[0..a] == left;
    SpaceRun(s, cs, b, |s|);
    assert s[b..|s|] == right;
    WithinSlice(s, cs, a, b);
    assert Strip(s) == mid;
    RemoveWithin(left, {' '});
    RemoveWithin(right, {' '});
    assert s == left + (mid + right);
    RemoveAppend(left, mid + right, {' '});
    RemoveAppend(mid, right, {' '});
  }

  /** A slice of a string within `cs` is within `cs`. */
  lemma WithinSlice(s: string, cs: set<char>, lo: nat, hi: nat)
    requires Within(s, cs) && lo <= hi <= |s|
    ensures Within(s[lo..hi], cs)
  {
    forall i | 0 <= i < hi - lo
      ensures s[lo..hi][i] in cs
    {
      assert s[lo..hi][i] == s[lo + i];
    }
  }

  lemma {:induction false} RemoveWithin(s: string, cs: set<char>)
    requires Within(s, cs)
    ensures Remove(s, cs) == []
  {
    if s != [] {
      RemoveWithin(s[1..], cs);
    }
  }

  lemma {:induction false} RemoveAvoiding(s: string, cs: set<char>)
    requires Avoids(s, cs)
    ensures Remove(s, cs) == s
  {
    if s != [] {
      RemoveAvoiding(s[1..], cs);
    }
  }

  lemma {:induction false} ConcatAppend(a: seq<string>, b: seq<string>)
    ensures Concat(a + b) == Concat(a) + Concat(b)
  {
    if a != [] {
      assert (a + b)[0] == a[0];
      assert (a + b)[1..] == a[1..] + b;
      ConcatAppend(a[1..], b);
      assert Concat(a + b) == a[0] + Concat(a[1..] + b);
    } else {
      assert a + b == b;
    }
  }

  /** Dropping empty strings does not change the concatenation. */
  lemma {:induction false} NonEmptyConcat(ss: seq<string>)
    ensures Concat(NonEmpty(ss)) == Concat(ss)
  {
    if ss != [] {
      NonEmptyConcat(ss[1..]);
      ConcatAppend(if ss[0] == [] then [] else [ss[0]], NonEmpty(ss[1..]));
    }
  }

  /** Every element kept by NonEmpty is a non-empty element of the input. */
  lemma {:induction false} NonEmptyElements(ss: seq<string>)
    ensures forall i :: 0 <= i < |NonEmpty(ss)| ==> NonEmpty(ss)[i] != [] && NonEmpty(ss)[i] in ss
  {
    if ss != [] {
      NonEmptyElements(ss[1..]);
    }
  }

  /** Replacing a pattern by a text with the same characters outside `cs` leaves those characters alone. */
  lemma {:induction false} ReplaceRemove(s: string, pat: string, rep: string, cs: set<char>)
    requires pat != [] && Remove(pat, cs) == Remove(rep, cs)
    ensures Remove(Replace(s, pat, rep), cs) == Remove(s, cs)
    decreases |s|
  {
    if s != [] {
      if pat <= s {
        ReplaceRemove(s[|pat|..], pat, rep, cs);
        RemoveAppend(rep, Replace(s[|pat|..], pat, rep), cs);
        assert s == pat + s[|pat|..];
        RemoveAppend(pat, s[|pat|..], cs);
      } else {
        ReplaceRemove(s[1..], pat, rep, cs);
      }
    }
  }

  /** Replacement keeps a string inside a character set that contains the replacement text. */
  lemma {:induction false} ReplaceWithin(s: string, pat: string, rep: string, cs: set<char>)
    requires pat != [] && Within(s, cs) && Within(rep, cs)
    ensures Within(Replace(s, pat, rep), cs)
    decreases |s|
  {
    if s != [] {
      if pat <= s {
        ReplaceWithin(s[|pat|..], pat, rep, cs);
      } else {
        ReplaceWithin(s[1..], pat, rep, cs);
      }
    }
  }

  /** Joining with a separator made of characters of `cs` adds nothing outside `cs`. */
  lemma {:induction false} JoinRemove(ss: seq<string>, sep: string, cs: set<char>)
    requires Within(sep, cs)
    ensures Remove(JoinWith(ss, sep), cs) == Remove(Concat(ss), cs)
  {
    if |ss| > 1 {
      JoinRemove(ss[1..], sep, cs);
      RemoveAppend(ss[0] + sep, JoinWith(ss[1..], sep), cs);
      RemoveAppend(ss[0], sep, cs);
      RemoveWithin(sep, cs);
      RemoveAppend(ss[0], Concat(ss[1..]), cs);
    } else if |ss| == 1 {
      assert Concat(ss[1..]) == [];
      assert Concat(ss) == ss[0];
    }
  }

  /** The one-character strings of `s`, put back together, are `s`. */
  lemma {:induction false} ConcatChars(s: string)
    ensures Concat(Chars(s)) == s
  {
    if s != [] {
      assert Chars(s)[1..] == Chars(s[1..]);
      ConcatChars(s[1..]);
    }
  }

  /** Lower-casing twice is lower-casing once, and characters other than `A`-`Z` are kept. */
  lemma LowerIdempotent(s: string)
    ensures Lower(Lower(s)) == Lower(s)
    ensures forall i :: 0 <= i < |s| && !('A' <= s[i] <= 'Z') ==> Lower(s)[i] == s[i]
    ensures forall i :: 0 <= i < |s| ==> !('A' <= Lower(s)[i] <= 'Z')
  {
  }

  lemma LowerAppend(a: string, b: string)
    ensures Lower(a + b) == Lower(a) + Lower(b)
  {
  }

  /** What is left after removing `cs` holds nothing of `cs`. */
  lemma {:induction false} RemoveAvoids(s: string, cs: set<char>)
    ensures Avoids(Remove(s, cs), cs)
  {
    if s != [] {
      RemoveAvoids(s[1..], cs);
    }
  }
}
