/** The operations of Python's `str` and `list` that the pipeline relies on.

    Characters are Unicode code points (`char`). Only ASCII letters, ASCII
    digits and the Hangul syllable block count as alphanumeric; case
    folding is ASCII-only. Whitespace is Python's full set. */
module Text {
  import opened Wrappers

  function Min(a: int, b: int): int { if a <= b then a else b }

  function Max(a: int, b: int): int { if a >= b then a else b }

  predicate IsDigit(c: char) { '0' <= c <= '9' }

  /** `str.isalnum()` on ASCII letters and digits and on Hangul syllables. */
  predicate IsAlnum(c: char) {
    IsDigit(c) || ('a' <= c <= 'z') || ('A' <= c <= 'Z') || ('\U{AC00}' <= c <= '\U{D7A3}')
  }

  /** The characters `str.isspace()` accepts and `str.strip()` removes:
      ASCII whitespace, the separators U+001C-U+001F, U+0085, U+00A0,
      U+1680, U+2000-U+200A, U+2028, U+2029, U+202F, U+205F and the
      ideographic space U+3000. */
  const SpaceRanges: seq<(char, char)> := [
    ('\t', '\r'), ('\U{1C}', ' '), ('\U{85}', '\U{85}'), ('\U{A0}', '\U{A0}'), ('\U{1680}', '\U{1680}'),
    ('\U{2000}', '\U{200A}'), ('\U{2028}', '\U{2029}'), ('\U{202F}', '\U{202F}'), ('\U{205F}', '\U{205F}'),
    ('\U{3000}', '\U{3000}')
  ]

  /** Whether `c` lies in one of the inclusive ranges. */
  predicate InRanges(c: char, ranges: seq<(char, char)>) {
    ranges != [] && (ranges[0].0 <= c <= ranges[0].1 || InRanges(c, ranges[1..]))
  }

  predicate IsSpace(c: char) { InRanges(c, SpaceRanges) }

  predicate AllSpace(s: string) { forall k :: 0 <= k < |s| ==> IsSpace(s[k]) }

  predicate StartsWith(s: string, p: string) { |p| <= |s| && s[..|p|] == p }

  predicate EndsWith(s: string, p: string) { |p| <= |s| && s[|s| - |p|..] == p }

  /** `sub` occurs in `s` starting at position `i`. */
  predicate OccursAt(s: string, sub: string, i: int) {
    0 <= i <= |s| - |sub| && s[i..i + |sub|] == sub
  }

  /** Python's `sub in s` for strings. */
  predicate Contains(s: string, sub: string) {
    exists i :: 0 <= i <= |s| && OccursAt(s, sub, i)
  }

  /** Python's slice `s[:n]`; a negative `n` counts from the end. */
  function Prefix<T>(s: seq<T>, n: int): (r: seq<T>)
    ensures |r| == if n >= 0 then Min(n, |s|) else Max(0, |s| + n)
    ensures r == s[..|r|]
  {
    if n >= 0 then (if n <= |s| then s[..n] else s)
    else if |s| + n >= 0 then s[..|s| + n] else []
  }

  /** Python's `s.lstrip()`. */
  function LStrip(s: string): (r: string)
    ensures |r| <= |s| && r == s[|s| - |r|..]
    ensures AllSpace(s[..|s| - |r|])
    ensures r == [] || !IsSpace(r[0])
  {
    if |s| > 0 && IsSpace(s[0]) then
      var r := LStrip(s[1..]);
      assert s[..|s| - |r|] == [s[0]] + s[1..][..|s| - 1 - |r|];
      assert s[|s| - |r|..] == s[1..][|s| - 1 - |r|..];
      r
    else s
  }

  /** Python's `s.rstrip()`. */
  function RStrip(s: string): (r: string)
    ensures |r| <= |s| && r == s[..|r|]
    ensures AllSpace(s[|r|..])
    ensures r == [] || !IsSpace(r[|r| - 1])
  {
    if |s| > 0 && IsSpace(s[|s| - 1]) then
      var r := RStrip(s[..|s| - 1]);
      assert s[..|r|] == s[..|s| - 1][..|r|];
      assert s[|r|..] == s[..|s| - 1][|r|..] + [s[|s| - 1]];
      r
    else s
  }

  /** Python's `s.rstrip(c)` for one character `c`. */
  function RStripChar(s: string, c: char): (r: string)
    ensures |r| <= |s| && r == s[..|r|]
    ensures forall k :: |r| <= k < |s| ==> s[k] == c
    ensures r == [] || r[|r| - 1] != c
  {
    if |s| > 0 && s[|s| - 1] == c then RStripChar(s[..|s| - 1], c) else s
  }

  /** Python's `s.strip()`: the result has no outer whitespace, and it is
      empty exactly when `s` is all whitespace. */
  function Strip(s: string): (r: string)
    ensures |r| <= |s|
    ensures r == [] || (!IsSpace(r[0]) && !IsSpace(r[|r| - 1]))
    ensures r == [] <==> AllSpace(s)
  {
    var l := LStrip(s);
    var r := RStrip(l);
    if r == [] then
      assert l[|r|..] == l;
      assert l == [];
      assert s[..|s| - |l|] == s;
      r
    else
      assert l != [] && r[0] == l[0];
      assert !IsSpace(l[0]);
      assert !AllSpace(s) by {
        assert l[0] == s[|s| - |l|];
      }
      r
  }

  /** Python's `s.split(c)` for a one-character separator `c`. */
  function Split(s: string, c: char): (r: seq<string>)
    ensures |r| >= 1
    ensures forall k :: 0 <= k < |r| ==> c !in r[k]
  {
    if |s| == 0 then [[]]
    else
      var rest := Split(s[1..], c);
      if s[0] == c then [[]] + rest
      else [[s[0]] + rest[0]] + rest[1..]
  }

  /** Python's `sep.join(parts)`. */
  function Join(parts: seq<string>, sep: string): string {
    if |parts| == 0 then []
    else if |parts| == 1 then parts[0]
    else parts[0] + sep + Join(parts[1..], sep)
  }

  /** Joining the pieces of a split with the separator gives the string back. */
  lemma {:induction false} JoinSplit(s: string, c: char)
    ensures Join(Split(s, c), [c]) == s
  {
    if |s| > 0 {
      var rest := Split(s[1..], c);
      JoinSplit(s[1..], c);
      if s[0] == c {
        assert Split(s, c) == [[]] + rest;
        assert ([[]] + rest)[1..] == rest;
        assert s == [c] + s[1..];
      } else {
        var r := Split(s, c);
        assert r == [[s[0]] + rest[0]] + rest[1..];
        if |rest| == 1 {
          assert s == [s[0]] + s[1..];
        } else {
          assert r[1..] == rest[1..];
          assert Join(rest, [c]) == rest[0] + [c] + Join(rest[1..], [c]);
          assert s == [s[0]] + s[1..];
        }
      }
    }
  }

  /** Splitting a join of pieces without the separator gives the pieces back. */
  lemma {:induction false} SplitJoin(parts: seq<string>, c: char)
    requires |parts| >= 1
    requires forall k :: 0 <= k < |parts| ==> c !in parts[k]
    ensures Split(Join(parts, [c]), c) == parts
    decreases |parts|, |parts[0]|
  {
    if |parts[0]| > 0 {
      var head := parts[0];
      var shorter := [head[1..]] + parts[1..];
      assert forall k :: 0 <= k < |shorter| ==> c !in shorter[k] by {
        assert forall k :: 1 <= k < |shorter| ==> shorter[k] == parts[k];
      }
      SplitJoin(shorter, c);
      var j := Join(parts, [c]);
      if |parts| == 1 {
        assert j == head;
        assert Join(shorter, [c]) == head[1..];
      } else {
        var tail := [c] + Join(parts[1..], [c]);
        assert j == head + tail;
        assert shorter[1..] == parts[1..];
        assert Join(shorter, [c]) == head[1..] + tail;
        assert j[1..] == head[1..] + tail;
      }
      assert j[0] == head[0] && j[1..] == Join(shorter, [c]);
      assert head[0] != c;
      assert Split(j, c) == [[head[0]] + shorter[0]] + shorter[1..];
      assert head == [head[0]] + head[1..];
    } else if |parts| > 1 {
      SplitJoin(parts[1..], c);
      assert Join(parts, [c]) == [c] + Join(parts[1..], [c]);
      assert parts == [[]] + parts[1..];
    }
  }

  /** Each character of `s`, with every non-alphanumeric one replaced by `_`. */
  function Sanitize(s: string): (r: string)
    ensures |r| == |s|
    ensures forall k :: 0 <= k < |s| ==> r[k] == (if IsAlnum(s[k]) then s[k] else '_')
  {
    seq(|s|, k requires 0 <= k < |s| => if IsAlnum(s[k]) then s[k] else '_')
  }

  /** `"".join(c if c.isalnum() else "_" for c in s)[:n]`, the file-name
      sanitiser used throughout the pipeline. */
  function SafeName(s: string, n: nat): (r: string)
    ensures |r| == Min(n, |s|)
    ensures forall k :: 0 <= k < |r| ==> IsAlnum(r[k]) || r[k] == '_'
    ensures forall k :: 0 <= k < |r| ==> IsAlnum(s[k]) ==> r[k] == s[k]
  {
    Prefix(Sanitize(s), n)
  }

  function LowerChar(c: char): char {
    if 'A' <= c <= 'Z' then (c as int + 32) as char else c
  }

  /** Python's `s.lower()`, ASCII letters only. */
  function Lower(s: string): (r: string)
    ensures |r| == |s|
    ensures forall k :: 0 <= k < |s| ==> r[k] == LowerChar(s[k])
  {
    seq(|s|, k requires 0 <= k < |s| => LowerChar(s[k]))
  }

  /** A duplicate-free list with the elements of `s`: the first occurrences,
      in order. It stands for Python's `list(set(s))`, whose order is
      unspecified; no contract in this model depends on that order. */
  function Dedup<T(==)>(s: seq<T>): (r: seq<T>)
    ensures |r| <= |s|
    ensures forall k :: 0 <= k < |s| ==> s[k] in r
    ensures forall k :: 0 <= k < |r| ==> r[k] in s
    ensures forall i, j :: 0 <= i < j < |r| ==> r[i] != r[j]
  {
    if |s| == 0 then []
    else
      var r := Dedup(s[..|s| - 1]);
      assert s == s[..|s| - 1] + [s[|s| - 1]];
      if s[|s| - 1] in r then r else r + [s[|s| - 1]]
  }

  /** The text after the last `c` in `s`, as in `s.rsplit(c, 1)[-1]` when
      the split has two parts; None when `c` does not occur. */
  function AfterLast(s: string, c: char): (r: Option<string>)
    ensures r.None? <==> c !in s
    ensures r.Some? ==> c !in r.value
  {
    if |s| == 0 then None
    else
      var init := s[..|s| - 1];
      assert s == init + [s[|s| - 1]];
      if s[|s| - 1] == c then Some([])
      else match AfterLast(init, c)
        case None => None
        case Some(t) => Some(t + [s[|s| - 1]])
  }

  /** What `AfterLast` finds is the whole text after a `c` that ends `s`. */
  lemma {:induction false} AfterLastIsSuffix(s: string, c: char)
    requires c in s
    ensures EndsWith(s, [c] + AfterLast(s, c).value)
    decreases |s|
  {
    var init := s[..|s| - 1];
    assert s == init + [s[|s| - 1]];
    if s[|s| - 1] != c {
      AfterLastIsSuffix(init, c);
      var t := AfterLast(init, c).value;
      assert init[|init| - |[c] + t|..] == [c] + t;
      assert s[|s| - |[c] + t + [s[|s| - 1]]|..] == [c] + t + [s[|s| - 1]];
    }
  }

  /** The text after the last `c` of `a + [c] + b` is `b` when `b` has no `c`. */
  lemma {:induction false} AfterLastOfJoin(a: string, b: string, c: char)
    requires c !in b
    ensures AfterLast(a + [c] + b, c) == Some(b)
    decreases |b|
  {
    var s := a + [c] + b;
    if |b| == 0 {
      assert s[|s| - 1] == c;
    } else {
      var front := b[..|b| - 1];
      var init := s[..|s| - 1];
      assert init == a + [c] + front;
      assert c !in front by {
        assert forall k :: 0 <= k < |front| ==> front[k] == b[k];
      }
      AfterLastOfJoin(a, front, c);
      assert AfterLast(init, c) == Some(front);
      assert s[|s| - 1] == b[|b| - 1] != c;
      assert AfterLast(s, c) == Some(front + [b[|b| - 1]]);
      assert front + [b[|b| - 1]] == b;
    }
  }

  /** Python's `s.replace(pat, "")`: removes the non-overlapping occurrences
      of `pat`, scanning left to right. */
  function RemoveAll(s: string, pat: string): (r: string)
    requires |pat| > 0
    ensures |r| <= |s|
    decreases |s|
  {
    if |s| < |pat| then s
    else if s[..|pat|] == pat then RemoveAll(s[|pat|..], pat)
    else [s[0]] + RemoveAll(s[1..], pat)
  }

  /** A string that never contains the first character of `pat` keeps
      `pat` as its only occurrence when `pat` is appended, and removing
      `pat` gives it back. */
  lemma {:induction false} RemoveAllSuffix(h: string, pat: string)
    requires |pat| > 0 && pat[0] !in h
    ensures RemoveAll(h + pat, pat) == h
    ensures RemoveAll(h, pat) == h
    decreases |h|
  {
    if |h| > 0 {
      assert (h + pat)[0] == h[0] != pat[0];
      assert (h + pat)[1..] == h[1..] + pat;
      RemoveAllSuffix(h[1..], pat);
      assert h == [h[0]] + h[1..];
      if |h| >= |pat| {
        assert h[..|pat|][0] == h[0];
      }
    } else {
      assert h + pat == pat;
      assert pat[|pat|..] == [];
    }
  }

  function DigitChar(d: nat): char
    requires d < 10
  {
    "0123456789"[d]
  }

  /** Python's `str(n)` for a natural number. */
  function NatToString(n: nat): (r: string)
    ensures |r| >= 1
    ensures forall k :: 0 <= k < |r| ==> IsDigit(r[k])
    decreases n
  {
    if n < 10 then [DigitChar(n)] else NatToString(n / 10) + [DigitChar(n % 10)]
  }

  /** The position of the last `c` in `s`, as Python's `s.rfind(c)`
      (`-1` when there is none). */
  function RFind(s: string, c: char): (r: int)
    ensures -1 <= r < |s|
    ensures r >= 0 ==> s[r] == c && forall k :: r < k < |s| ==> s[k] != c
    ensures r == -1 ==> c !in s
  {
    if |s| == 0 then -1
    else if s[|s| - 1] == c then |s| - 1
    else RFind(s[..|s| - 1], c)
  }

  /** `pathlib.PurePath(name).suffix`: from the last dot on, when that dot
      is neither the first nor the last character; otherwise empty. */
  function Suffix(name: string): (r: string)
    ensures r == [] || (r[0] == '.' && EndsWith(name, r) && '.' !in r[1..] && |r| < |name|)
  {
    var i := RFind(name, '.');
    if 0 < i < |name| - 1 then
      assert name[i..][1..] == name[i + 1..];
      name[i..]
    else []
  }

  /** `pathlib.PurePath(name).stem`: the name without its suffix. */
  function Stem(name: string): (r: string)
    ensures r + Suffix(name) == name
  {
    var i := RFind(name, '.');
    if 0 < i < |name| - 1 then name[..i] else name
  }

  /** Python's `[x for x in xs if p(x)]`. */
  function Filter<T>(xs: seq<T>, p: T -> bool): (r: seq<T>)
    ensures |r| <= |xs|
    ensures forall k :: 0 <= k < |r| ==> p(r[k]) && r[k] in xs
    ensures forall k :: 0 <= k < |xs| && p(xs[k]) ==> xs[k] in r
  {
    if |xs| == 0 then []
    else
      var init := xs[..|xs| - 1];
      assert xs == init + [xs[|xs| - 1]];
      if p(xs[|xs| - 1]) then Filter(init, p) + [xs[|xs| - 1]] else Filter(init, p)
  }

  /** Filtering keeps the order: it distributes over concatenation, and it
      keeps a list whose elements all pass. */
  lemma {:induction false} FilterAppend<T>(a: seq<T>, b: seq<T>, p: T -> bool)
    ensures Filter(a + b, p) == Filter(a, p) + Filter(b, p)
    decreases |b|
  {
    if |b| == 0 {
      assert a + b == a;
    } else {
      var init := b[..|b| - 1];
      assert (a + b)[..|a + b| - 1] == a + init;
      assert (a + b)[|a + b| - 1] == b[|b| - 1];
      FilterAppend(a, init, p);
    }
  }

  /** Filtering one more element appends it exactly when it passes. */
  lemma FilterSnoc<T>(xs: seq<T>, i: nat, p: T -> bool)
    requires i < |xs|
    ensures Filter(xs[..i + 1], p) == Filter(xs[..i], p) + (if p(xs[i]) then [xs[i]] else [])
  {
    assert xs[..i + 1][..i] == xs[..i];
  }

  lemma {:induction false} FilterAll<T>(xs: seq<T>, p: T -> bool)
    requires forall k :: 0 <= k < |xs| ==> p(xs[k])
    ensures Filter(xs, p) == xs
    decreases |xs|
  {
    if |xs| > 0 {
      var init := xs[..|xs| - 1];
      assert xs == init + [xs[|xs| - 1]];
      FilterAll(init, p);
    }
  }
}
