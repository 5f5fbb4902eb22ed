/** The small part of Python's `str` API that the branding rules use:
    `split` on one character, `strip`, `lower`, `replace(ch, "")`,
    `startswith`, and `split` on a multi-character separator (only its
    second piece is ever read). Strings are sequences of characters. */
module Text {

  /* ---------------------------------------------------------------- split */

  /** Python's `s.split(c)` for a one-character separator: every occurrence
      splits, empty pieces are kept, and the result is never empty. */
  function Split(s: string, c: char): (parts: seq<string>)
    ensures |parts| >= 1
    ensures forall k :: 0 <= k < |parts| ==> c !in parts[k]
    decreases |s|
  {
    if |s| == 0 then [""]
    else if s[0] == c then [""] + Split(s[1..], c)
    else
      var rest := Split(s[1..], c);
      [[s[0]] + rest[0]] + rest[1..]
  }

  /** Python's `c.join(parts)` for a one-character separator. */
  function Join(parts: seq<string>, c: char): string
    decreases |parts|
  {
    if |parts| == 0 then ""
    else if |parts| == 1 then parts[0]
    else parts[0] + [c] + Join(parts[1..], c)
  }

  /** Joining the pieces of a split gives back the original string. */
  lemma {:induction false} SplitJoin(s: string, c: char)
    ensures Join(Split(s, c), c) == s
    decreases |s|
  {
    if |s| > 0 {
      SplitJoin(s[1..], c);
      if s[0] == c {
        SplitJoinSeparator(s, c);
      } else {
        SplitJoinOther(s, c);
      }
    }
  }

  /** The step of `SplitJoin` for a string that starts with the separator. */
  lemma SplitJoinSeparator(s: string, c: char)
    requires |s| > 0 && s[0] == c
    requires Join(Split(s[1..], c), c) == s[1..]
    ensures Join(Split(s, c), c) == s
  {
    var rest := Split(s[1..], c);
    assert Split(s, c) == [""] + rest;
    assert ([""] + rest)[1..] == rest;
    assert Join([""] + rest, c) == "" + [c] + Join(rest, c);
    assert [s[0]] + s[1..] == s;
  }

  /** The step of `SplitJoin` for a string that starts with another character. */
  lemma SplitJoinOther(s: string, c: char)
    requires |s| > 0 && s[0] != c
    requires Join(Split(s[1..], c), c) == s[1..]
    ensures Join(Split(s, c), c) == s
  {
    var rest := Split(s[1..], c);
    assert Split(s, c) == [[s[0]] + rest[0]] + rest[1..];
    JoinExtendFirst(s[0], rest, c);
    assert [s[0]] + s[1..] == s;
  }

  /** Prefixing the first piece with a character prefixes the joined string with it. */
  lemma JoinExtendFirst(x: char, rest: seq<string>, c: char)
    requires |rest| >= 1
    ensures Join([[x] + rest[0]] + rest[1..], c) == [x] + Join(rest, c)
  {
    var parts := [[x] + rest[0]] + rest[1..];
    assert parts[0] == [x] + rest[0];
    if |rest| > 1 {
      assert parts[1..] == rest[1..];
      assert Join(parts, c) == ([x] + rest[0]) + [c] + Join(rest[1..], c);
    }
  }

  /** A piece free of the separator splits to itself alone. */
  lemma {:induction false} SplitNoSeparator(a: string, c: char)
    requires c !in a
    ensures Split(a, c) == [a]
    decreases |a|
  {
    if |a| > 0 {
      SplitNoSeparator(a[1..], c);
      assert [a[0]] + a[1..] == a;
    }
  }

  /** Splitting `a + c + b`, with `a` free of `c`, yields `a` followed by the pieces of `b`. */
  lemma {:induction false} SplitCons(a: string, b: string, c: char)
    requires c !in a
    ensures Split(a + [c] + b, c) == [a] + Split(b, c)
    decreases |a|
  {
    if |a| == 0 {
      assert a + [c] + b == [c] + b;
      assert ([c] + b)[1..] == b;
    } else {
      var s := a + [c] + b;
      assert s[0] == a[0];
      assert s[1..] == a[1..] + [c] + b;
      SplitCons(a[1..], b, c);
      assert [a[0]] + a[1..] == a;
    }
  }

  /** Appending a separator and a separator-free piece appends that piece to the split. */
  lemma {:induction false} SplitSnoc(a: string, b: string, c: char)
    requires c !in b
    ensures Split(a + [c] + b, c) == Split(a, c) + [b]
    decreases |a|
  {
    var s := a + [c] + b;
    if |a| == 0 {
      assert s == [c] + b;
      assert s[1..] == b;
      SplitNoSeparator(b, c);
    } else {
      assert s[0] == a[0];
      assert s[1..] == a[1..] + [c] + b;
      SplitSnoc(a[1..], b, c);
      if a[0] == c {
        assert Split(s, c) == [""] + Split(a[1..], c) + [b];
      } else {
        var rest := Split(a[1..], c);
        assert Split(s[1..], c) == rest + [b];
        assert (rest + [b])[0] == rest[0];
        assert (rest + [b])[1..] == rest[1..] + [b];
      }
    }
  }

  /** The first piece of `a + c + b` is `a` when `a` has no `c`. */
  lemma FirstSegmentBefore(a: string, b: string, c: char)
    requires c !in a
    ensures FirstSegment(a + [c] + b, c) == a
  {
    SplitCons(a, b, c);
  }

  /** The last `.`-piece of `a + "." + b` is `b` when `b` has no dot. */
  lemma LastSegmentAfter(a: string, b: string, c: char)
    requires c !in b
    ensures LastSegment(a + [c] + b, c) == b
  {
    SplitSnoc(a, b, c);
  }

  /** Splitting a join of separator-free pieces gives the pieces back. */
  lemma {:induction false} JoinSplit(parts: seq<string>, c: char)
    requires |parts| >= 1
    requires forall k :: 0 <= k < |parts| ==> c !in parts[k]
    ensures Split(Join(parts, c), c) == parts
    decreases |parts|
  {
    if |parts| == 1 {
      SplitNoSeparator(parts[0], c);
    } else {
      JoinSplit(parts[1..], c);
      SplitCons(parts[0], Join(parts[1..], c), c);
      assert [parts[0]] + parts[1..] == parts;
    }
  }

  /** The first piece of a join is a prefix of it; with two or more pieces the separator follows it. */
  lemma {:induction false} JoinHead(parts: seq<string>, c: char)
    requires |parts| >= 1
    ensures parts[0] <= Join(parts, c)
    ensures |parts| >= 2 ==> parts[0] + [c] <= Join(parts, c)
  {
    if |parts| >= 2 {
      assert Join(parts, c) == parts[0] + [c] + Join(parts[1..], c);
    }
  }

  /** The last piece of a join is a suffix of it; with two or more pieces the separator precedes it. */
  lemma {:induction false} JoinTail(parts: seq<string>, c: char)
    requires |parts| >= 1
    ensures var j := Join(parts, c); var t := parts[|parts| - 1];
      |t| <= |j| && j[|j| - |t|..] == t
      && (|parts| >= 2 ==> |t| < |j| && j[|j| - |t| - 1] == c)
    decreases |parts|
  {
    if |parts| >= 2 {
      JoinTail(parts[1..], c);
      var j := Join(parts, c);
      var rest := Join(parts[1..], c);
      assert j == (parts[0] + [c]) + rest;
      assert parts[1..][|parts[1..]| - 1] == parts[|parts| - 1];
    }
  }

  /** Python's `s.split(c)[0]`: the text before the first separator. */
  function FirstSegment(s: string, c: char): (r: string)
    ensures c !in r
    ensures r <= s
    ensures c !in s ==> r == s
    ensures c in s ==> r + [c] <= s
  {
    var parts := Split(s, c);
    SplitJoin(s, c);
    JoinHead(parts, c);
    if c !in s then
      SplitNoSeparator(s, c);
      parts[0]
    else
      parts[0]
  }

  /** Python's `s.split(c)[-1]`: the text after the last separator. */
  function LastSegment(s: string, c: char): (r: string)
    ensures c !in r
    ensures |r| <= |s| && s[|s| - |r|..] == r
    ensures c !in s ==> r == s
    ensures c in s ==> |r| < |s| && s[|s| - |r| - 1] == c
  {
    var parts := Split(s, c);
    SplitJoin(s, c);
    JoinTail(parts, c);
    parts[|parts| - 1]
  }

  /** Python's `s.endswith(suffix)`. */
  predicate EndsWith(s: string, suffix: string) {
    |suffix| <= |s| && s[|s| - |suffix|..] == suffix
  }

  /** A string built by prefixing `suffix` twice still ends with `suffix`. */
  lemma EndsWithNested(a: string, b: string, suffix: string)
    ensures EndsWith(a + (b + suffix), suffix)
  {
    assert (a + (b + suffix))[|a| + |b|..] == suffix;
  }

  /* ---------------------------------------------------------------- strip */

  /** The characters `str.strip()` removes, restricted to those below U+0100. */
  predicate IsSpace(ch: char) {
    ch == ' ' || ('\t' <= ch <= '\r') || ('\U{001C}' <= ch <= '\U{001F}')
    || ch == '\U{0085}' || ch == '\U{00A0}'
  }

  /** Drops leading whitespace. */
  function LStrip(s: string): (r: string)
    ensures |r| <= |s| && r == s[|s| - |r|..]
    ensures forall k :: 0 <= k < |s| - |r| ==> IsSpace(s[k])
    ensures |r| > 0 ==> !IsSpace(r[0])
    decreases |s|
  {
    if |s| > 0 && IsSpace(s[0]) then LStrip(s[1..]) else s
  }

  /** Drops trailing whitespace. */
  function RStrip(s: string): (r: string)
    ensures r <= s
    ensures forall k :: |r| <= k < |s| ==> IsSpace(s[k])
    ensures |r| > 0 ==> !IsSpace(r[|r| - 1])
    decreases |s|
  {
    if |s| > 0 && IsSpace(s[|s| - 1]) then RStrip(s[..|s| - 1]) else s
  }

  /** A prefix of a suffix of `s` sits inside `s` where the suffix starts. */
  lemma InfixOfSuffix(s: string, l: string, r: string)
    requires |l| <= |s| && l == s[|s| - |l|..] && r <= l
    ensures s[|s| - |l|..|s| - |l| + |r|] == r
  {
  }

  /** Python's `s.strip()`: the longest middle part with no whitespace at either end. */
  function Strip(s: string): (r: string)
    ensures |r| == 0 || (!IsSpace(r[0]) && !IsSpace(r[|r| - 1]))
    ensures Contains(s, r)
  {
    var l := LStrip(s);
    var r := RStrip(l);
    assert |r| > 0 ==> r[0] == l[0];
    InfixOfSuffix(s, l, r);
    assert OccursAt(s, r, |s| - |l|);
    r
  }

  /** A string with no whitespace at its ends is left alone by `strip`. */
  lemma StripTrimmed(s: string)
    requires |s| == 0 || (!IsSpace(s[0]) && !IsSpace(s[|s| - 1]))
    ensures Strip(s) == s
  {
  }

  /** Stripping twice is stripping once. */
  lemma StripIdempotent(s: string)
    ensures Strip(Strip(s)) == Strip(s)
  {
    StripTrimmed(Strip(s));
  }

  /* ---------------------------------------------------------------- lower */

  /** `lower()` on one character, for the ASCII letters. */
  function LowerChar(ch: char): char {
    if 'A' <= ch <= 'Z' then (ch as int - 'A' as int + 'a' as int) as char else ch
  }

  /** Python's `s.lower()`, for ASCII letters. */
  function Lower(s: string): (r: string)
    ensures |r| == |s|
    ensures forall k :: 0 <= k < |s| ==> r[k] == LowerChar(s[k])
  {
    seq(|s|, k requires 0 <= k < |s| => LowerChar(s[k]))
  }

  /** `Lower` keeps separators: it never creates nor removes a `c` that is not an upper-case letter. */
  lemma LowerKeeps(s: string, c: char)
    requires !('A' <= c <= 'Z') && !('a' <= c <= 'z')
    ensures c in Lower(s) <==> c in s
  {
    if c in s {
      var k :| 0 <= k < |s| && s[k] == c;
      assert Lower(s)[k] == c;
    }
    if c in Lower(s) {
      var k :| 0 <= k < |s| && Lower(s)[k] == c;
      assert s[k] == c;
    }
  }

  /* --------------------------------------------------------------- remove */

  /** Python's `s.replace(c, "")`: every `c` deleted, all else kept in order. */
  function RemoveChar(s: string, c: char): (r: string)
    ensures c !in r
    ensures |r| <= |s|
    ensures forall ch :: ch != c ==> (ch in r <==> ch in s)
    decreases |s|
  {
    if |s| == 0 then ""
    else if s[0] == c then RemoveChar(s[1..], c)
    else [s[0]] + RemoveChar(s[1..], c)
  }

  /** Deleting a character that does not occur changes nothing. */
  lemma {:induction false} RemoveAbsent(s: string, c: char)
    requires c !in s
    ensures RemoveChar(s, c) == s
    decreases |s|
  {
    if |s| > 0 {
      RemoveAbsent(s[1..], c);
      assert [s[0]] + s[1..] == s;
    }
  }

  /** Deleting a character piecewise is deleting it from the whole. */
  lemma {:induction false} RemoveCharConcat(a: string, b: string, c: char)
    ensures RemoveChar(a + b, c) == RemoveChar(a, c) + RemoveChar(b, c)
    decreases |a|
  {
    if |a| > 0 {
      assert (a + b)[1..] == a[1..] + b;
      RemoveCharConcat(a[1..], b, c);
    } else {
      assert a + b == b;
    }
  }

  /* -------------------------------------------------- multi-character split */

  /** `pat` occurs in `s` at offset `i`. */
  predicate OccursAt(s: string, pat: string, i: int) {
    0 <= i && i + |pat| <= |s| && s[i..i + |pat|] == pat
  }

  /** `pat in s` for a non-empty `pat`. */
  predicate Contains(s: string, pat: string) {
    exists i | 0 <= i <= |s| :: OccursAt(s, pat, i)
  }

  /** The text of `s` before the first occurrence of `pat`, or all of `s`:
      the first piece of Python's `s.split(pat)`. No `pat` starts inside the
      result, and one starts right after it unless the result is all of `s`. */
  function BeforeFirst(s: string, pat: string): (r: string)
    requires |pat| > 0
    ensures r <= s
    ensures forall i :: 0 <= i < |r| ==> !OccursAt(s, pat, i)
    ensures r == s || OccursAt(s, pat, |r|)
    ensures !Contains(r, pat)
    decreases |s|
  {
    if |s| < |pat| then
      assert !Contains(s, pat);
      s
    else if s[..|pat|] == pat then
      assert !Contains("", pat);
      ""
    else
      var rest := BeforeFirst(s[1..], pat);
      var r := [s[0]] + rest;
      BeforeFirstStep(s, pat, rest);
      r
  }

  /** The step of `BeforeFirst` past a first character that does not start `pat`. */
  lemma BeforeFirstStep(s: string, pat: string, rest: string)
    requires |pat| > 0 && |s| >= |pat| && s[..|pat|] != pat
    requires rest <= s[1..]
    requires forall i :: 0 <= i < |rest| ==> !OccursAt(s[1..], pat, i)
    requires rest == s[1..] || OccursAt(s[1..], pat, |rest|)
    requires !Contains(rest, pat)
    ensures [s[0]] + rest <= s
    ensures forall i :: 0 <= i < |rest| + 1 ==> !OccursAt(s, pat, i)
    ensures [s[0]] + rest == s || OccursAt(s, pat, |rest| + 1)
    ensures !Contains([s[0]] + rest, pat)
  {
    var r := [s[0]] + rest;
    assert s == [s[0]] + s[1..];
    forall i | 0 <= i < |rest| + 1 ensures !OccursAt(s, pat, i) {
      if i == 0 {
        assert s[0..|pat|] == s[..|pat|];
      } else if i + |pat| <= |s| {
        assert s[i..i + |pat|] == s[1..][i - 1..i - 1 + |pat|];
        assert !OccursAt(s[1..], pat, i - 1);
      }
    }
    if rest != s[1..] {
      assert s[|rest| + 1..|rest| + 1 + |pat|] == s[1..][|rest|..|rest| + |pat|];
    }
    forall i | 0 <= i && i + |pat| <= |r| ensures !OccursAt(r, pat, i) {
      assert r[i..i + |pat|] == s[i..i + |pat|];
      assert i < |rest| + 1;
      assert !OccursAt(s, pat, i);
    }
  }

  /** A string found inside `s` is no longer than `s` and uses only characters of `s`. */
  lemma InfixChars(s: string, r: string)
    requires Contains(s, r)
    ensures |r| <= |s|
    ensures forall ch :: ch in r ==> ch in s
  {
    var i :| 0 <= i <= |s| && OccursAt(s, r, i);
    forall k | 0 <= k < |r| ensures r[k] in s {
      assert s[i + k] == r[k];
    }
  }

  /** No `pat` starts in `a + pat` before the copy at its end: cutting `a + pat + t` at its
      first `pat` leaves `a`, whatever `t` is. */
  predicate FirstMatchAtEnd(a: string, pat: string) {
    forall i :: 0 <= i < |a| ==> !OccursAt(a + pat, pat, i)
  }

  /** A string without `pat`'s first character has no earlier match. */
  lemma FirstMatchAtEndAbsent(a: string, pat: string)
    requires |pat| > 0 && pat[0] !in a
    ensures FirstMatchAtEnd(a, pat)
  {
    forall i | 0 <= i < |a| ensures !OccursAt(a + pat, pat, i) {
      assert (a + pat)[i] == a[i];
    }
  }

  /** A prefix without `pat`'s first character adds no earlier match. */
  lemma FirstMatchAtEndPrefix(p: string, a: string, pat: string)
    requires |pat| > 0 && pat[0] !in p && FirstMatchAtEnd(a, pat)
    ensures FirstMatchAtEnd(p + a, pat)
  {
    forall i | 0 <= i < |p + a| ensures !OccursAt(p + a + pat, pat, i) {
      if i < |p| {
        assert (p + a + pat)[i] == p[i];
        assert p[i] in p;
      } else if i + |pat| <= |p + a + pat| {
        assert (p + a + pat)[i..i + |pat|] == (a + pat)[i - |p|..i - |p| + |pat|];
        assert !OccursAt(a + pat, pat, i - |p|);
      }
    }
  }

  /** When `pat` first occurs in `a + pat + t` right after `a`, the piece before it is `a`. */
  lemma BeforeFirstDelimited(a: string, pat: string, t: string)
    requires |pat| > 0 && FirstMatchAtEnd(a, pat)
    ensures BeforeFirst(a + pat + t, pat) == a
  {
    var s := a + pat + t;
    var r := BeforeFirst(s, pat);
    assert OccursAt(s, pat, |a|) by {
      assert s[|a|..|a| + |pat|] == pat;
    }
    if |r| < |a| {
      assert r != s;
      assert OccursAt(s, pat, |r|);
      assert s[|r|..|r| + |pat|] == (a + pat)[|r|..|r| + |pat|];
      assert OccursAt(a + pat, pat, |r|);
    }
    assert |r| == |a|;
    assert r == s[..|a|] == a;
  }
}
