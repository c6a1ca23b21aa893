/** The Python `str` operations the scraper relies on: `in`, `find`,
    `split(sep)`, `join`, `strip()`, `lower()` and `replace(c, '')`. */
module PyStrings {
  import opened Wrappers

  /** `t` occurs in `s` starting at index `j`. */
  predicate OccursAt(s: string, t: string, j: nat) {
    j + |t| <= |s| && s[j..j + |t|] == t
  }

  /** Index of the leftmost occurrence of `t` in `s` (Python `s.find(t)`,
      with `None` for -1). That it is the leftmost is `FindFirstIsFirst`. */
  function FindFirst(s: string, t: string): (r: Option<nat>)
    ensures r.Some? ==> OccursAt(s, t, r.value)
    decreases |s|
  {
    if |t| > |s| then None
    else if s[..|t|] == t then Some(0)
    else
      match FindFirst(s[1..], t)
      case None => None
      case Some(i) =>
        assert s[1..][i..i + |t|] == s[i + 1..i + 1 + |t|];
        Some(i + 1)
  }

  /** Every occurrence is found, and none is missed to its left: the search
      reports an occurrence at or before any given one. */
  lemma {:induction false} FindFirstIsFirst(s: string, t: string, j: nat)
    requires OccursAt(s, t, j)
    ensures FindFirst(s, t).Some? && FindFirst(s, t).value <= j
    decreases |s|
  {
    if s[..|t|] != t {
      assert j > 0;
      assert s[1..][j - 1..j - 1 + |t|] == s[j..j + |t|];
      FindFirstIsFirst(s[1..], t, j - 1);
    }
  }

  /** Python `t in s`. */
  predicate Contains(s: string, t: string) {
    FindFirst(s, t).Some?
  }

  /** Index of the first occurrence of a separator known to be present. */
  function IndexOf(s: string, t: string): (i: nat)
    requires Contains(s, t)
    ensures i + |t| <= |s|
  {
    FindFirst(s, t).value
  }

  /** The text after the first occurrence of `t`. */
  function After(s: string, t: string): (r: string)
    requires Contains(s, t)
    ensures |r| < |s| || |t| == 0
  {
    s[IndexOf(s, t) + |t|..]
  }

  /** Python `s.split(sep)` for a non-empty separator: the pieces between
      successive non-overlapping occurrences, scanning left to right. */
  function Split(s: string, sep: string): (parts: seq<string>)
    requires |sep| > 0
    ensures |parts| >= 1
    ensures |parts| >= 2 <==> Contains(s, sep)
    decreases |s|
  {
    match FindFirst(s, sep)
    case None => [s]
    case Some(i) => [s[..i]] + Split(s[i + |sep|..], sep)
  }

  /** Python `sep.join(parts)`. */
  function Join(parts: seq<string>, sep: string): string {
    if |parts| == 0 then ""
    else if |parts| == 1 then parts[0]
    else parts[0] + sep + Join(parts[1..], sep)
  }

  /** Python `s.split(sep)[0]`: never fails. */
  function Before(s: string, sep: string): (r: string)
    requires |sep| > 0
    ensures !Contains(s, sep) ==> r == s
    ensures Contains(s, sep) ==> r == s[..IndexOf(s, sep)]
  {
    Split(s, sep)[0]
  }

  /** Python `s.split(sep)[k]`, with `None` standing for IndexError. */
  function Segment(s: string, sep: string, k: nat): Option<string>
    requires |sep| > 0
  {
    var parts := Split(s, sep);
    if k < |parts| then Some(parts[k]) else None
  }

  lemma {:induction false} OccursShift(s: string, m: string, t: string, a: nat, b: nat)
    requires OccursAt(s, m, a) && OccursAt(m, t, b)
    ensures OccursAt(s, t, a + b)
  {
    forall k | 0 <= k < |t| ensures s[a + b + k] == t[k] {
      assert m[b + k] == s[a..a + |m|][b + k];
      assert t[k] == m[b..b + |t|][k];
    }
    assert s[a + b..a + b + |t|] == t;
  }

  /** Text that occurs inside `s` contains nothing that `s` does not. */
  lemma {:induction false} NotContainsInfix(s: string, m: string, a: nat, t: string)
    requires OccursAt(s, m, a) && !Contains(s, t)
    ensures !Contains(m, t)
  {
    if Contains(m, t) {
      OccursShift(s, m, t, a, IndexOf(m, t));
      FindFirstIsFirst(s, t, a + IndexOf(m, t));
    }
  }

  /** The piece before the first separator holds no separator. */
  lemma {:induction false} PrefixBeforeFirstHasNone(s: string, t: string)
    requires |t| > 0 && Contains(s, t)
    ensures !Contains(s[..IndexOf(s, t)], t)
  {
    var i := IndexOf(s, t);
    if Contains(s[..i], t) {
      var j := IndexOf(s[..i], t);
      assert s[..i][j..j + |t|] == s[j..j + |t|];
      FindFirstIsFirst(s, t, j);
    }
  }

  /** `split(sep)[0]` never contains the separator. */
  lemma {:induction false} BeforeHasNoSeparator(s: string, sep: string)
    requires |sep| > 0
    ensures !Contains(Before(s, sep), sep)
  {
    if Contains(s, sep) { PrefixBeforeFirstHasNone(s, sep); }
  }

  /** `split(sep)[k + 1]` is `split(sep)[k]` of the text after the first
      separator, and fails when there is no separator at all. */
  lemma {:induction false} SegmentSucc(s: string, sep: string, k: nat)
    requires |sep| > 0
    ensures Segment(s, sep, k + 1) ==
      if Contains(s, sep) then Segment(After(s, sep), sep, k) else None
  {
  }

  /** No piece of `s.split(sep)` contains `sep`. */
  lemma {:induction false} SplitPartsHaveNoSeparator(s: string, sep: string, k: nat)
    requires |sep| > 0 && k < |Split(s, sep)|
    ensures !Contains(Split(s, sep)[k], sep)
    decreases |s|
  {
    if k == 0 {
      assert Split(s, sep)[0] == Before(s, sep);
      BeforeHasNoSeparator(s, sep);
    } else {
      assert Contains(s, sep);
      SplitUnfold(s, sep);
      TailIndex(s[..IndexOf(s, sep)], Split(After(s, sep), sep), k);
      SplitPartsHaveNoSeparator(After(s, sep), sep, k - 1);
    }
  }

  lemma {:induction false} TailIndex<T>(x: T, xs: seq<T>, k: nat)
    requires 1 <= k <= |xs|
    ensures ([x] + xs)[k] == xs[k - 1]
  {
  }

  /** Joining the pieces of a split with the same separator gives back the
      original text: `sep.join(s.split(sep)) == s`. */
  lemma {:induction false} JoinSplit(s: string, sep: string)
    requires |sep| > 0
    ensures Join(Split(s, sep), sep) == s
    decreases |s|
  {
    if Contains(s, sep) {
      var parts := Split(s, sep);
      var i := IndexOf(s, sep);
      var rest := After(s, sep);
      JoinSplit(rest, sep);
      SplitUnfold(s, sep);
      assert parts[0] == s[..i] && parts[1..] == Split(rest, sep);
      assert Join(parts, sep) == parts[0] + sep + Join(parts[1..], sep);
      AroundOccurrence(s, sep, i);
    }
  }

  /** Text is what precedes an occurrence, the occurrence, and what follows. */
  lemma {:induction false} AroundOccurrence(s: string, t: string, i: nat)
    requires OccursAt(s, t, i)
    ensures s[..i] + t + s[i + |t|..] == s
  {
    assert s[..i] + s[i..i + |t|] == s[..i + |t|];
  }

  /** Splitting text that holds the separator peels off the first piece. */
  lemma {:induction false} SplitUnfold(s: string, sep: string)
    requires |sep| > 0 && Contains(s, sep)
    ensures Split(s, sep) == [s[..IndexOf(s, sep)]] + Split(After(s, sep), sep)
  {
  }

  /** Where piece `k` of `s.split(sep)` starts inside `s`. */
  function PieceStart(s: string, sep: string, k: nat): nat
    requires |sep| > 0 && k < |Split(s, sep)|
    decreases |s|
  {
    if k == 0 then 0
    else IndexOf(s, sep) + |sep| + PieceStart(After(s, sep), sep, k - 1)
  }

  /** Every piece of `s.split(sep)` is a piece of the text `s`. */
  lemma {:induction false} SplitPartOccurs(s: string, sep: string, k: nat)
    requires |sep| > 0 && k < |Split(s, sep)|
    ensures OccursAt(s, Split(s, sep)[k], PieceStart(s, sep, k))
    decreases |s|
  {
    if k == 0 {
      assert Split(s, sep)[0] == Before(s, sep);
      assert s[..|Before(s, sep)|] == Before(s, sep);
    } else {
      var rest := After(s, sep);
      var at := IndexOf(s, sep) + |sep|;
      assert Contains(s, sep);
      SplitUnfold(s, sep);
      var piece := Split(rest, sep)[k - 1];
      TailIndex(s[..IndexOf(s, sep)], Split(rest, sep), k);
      SplitPartOccurs(rest, sep, k - 1);
      var lo := PieceStart(rest, sep, k - 1);
      assert PieceStart(s, sep, k) == at + lo;
      assert rest == s[at..];
      SuffixOccurs(s, at);
      OccursShift(s, rest, piece, at, lo);
    }
  }

  /** A suffix occurs where it starts. */
  lemma {:induction false} SuffixOccurs(s: string, at: nat)
    requires at <= |s|
    ensures OccursAt(s, s[at..], at)
  {
    assert s[at..at + |s[at..]|] == s[at..];
  }

  /** The empty string is in every string (Python `'' in s`). */
  lemma {:induction false} ContainsEmpty(s: string)
    ensures Contains(s, "")
  {
    FindFirstIsFirst(s, "", 0);
  }

  /** Substring containment is transitive. */
  lemma {:induction false} ContainsTransitive(s: string, m: string, t: string)
    requires Contains(s, m) && Contains(m, t)
    ensures Contains(s, t)
  {
    OccursShift(s, m, t, IndexOf(s, m), IndexOf(m, t));
    FindFirstIsFirst(s, t, IndexOf(s, m) + IndexOf(m, t));
  }

  /** A one-character separator is present exactly when that character is. */
  lemma {:induction false} ContainsChar(s: string, c: char)
    ensures Contains(s, [c]) <==> exists i :: 0 <= i < |s| && s[i] == c
  {
    if exists i :: 0 <= i < |s| && s[i] == c {
      var i :| 0 <= i < |s| && s[i] == c;
      assert s[i..i + 1] == [c];
      FindFirstIsFirst(s, [c], i);
    }
    if Contains(s, [c]) {
      var i := IndexOf(s, [c]);
      assert s[i..i + 1] == [c];
      assert s[i] == c;
    }
  }

  /** The first occurrence of a one-character separator `c` in `x + [c] + y`
      is the one right after `x` when `x` holds no `c`. */
  lemma {:induction false} FirstCharAfterFreePrefix(x: string, c: char, y: string)
    requires !Contains(x, [c])
    ensures Contains(x + [c] + y, [c]) && IndexOf(x + [c] + y, [c]) == |x|
  {
    var s := x + [c] + y;
    ContainsChar(x, c);
    assert s[|x|..|x| + 1] == [c];
    FindFirstIsFirst(s, [c], |x|);
    var k := IndexOf(s, [c]);
    assert s[k..k + 1] == [c];
    assert s[k] == c;
  }

  /** A character is in `a + b` exactly when it is in `a` or in `b`. */
  lemma {:induction false} ContainsCharAppend(a: string, b: string, c: char)
    ensures Contains(a + b, [c]) <==> Contains(a, [c]) || Contains(b, [c])
  {
    ContainsChar(a + b, c);
    ContainsChar(a, c);
    ContainsChar(b, c);
    if Contains(a + b, [c]) {
      var i :| 0 <= i < |a + b| && (a + b)[i] == c;
      if i < |a| {
        assert a[i] == c;
      } else {
        assert b[i - |a|] == c;
      }
    }
    if Contains(a, [c]) {
      var i :| 0 <= i < |a| && a[i] == c;
      assert (a + b)[i] == c;
    }
    if Contains(b, [c]) {
      var i :| 0 <= i < |b| && b[i] == c;
      assert (a + b)[|a| + i] == c;
    }
  }

  // ---------------------------------------------------------------------
  // Where a search can stop in text built from fixed anchors and free parts

  /** No occurrence of `t` can begin inside `lit`: wherever the first
      character of `t` appears in `lit`, the next character of `lit` is
      there and differs from the second character of `t`. */
  predicate NoStartIn(lit: string, t: string)
    requires |t| > 0
  {
    forall j :: 0 <= j < |lit| && lit[j] == t[0] ==>
      j + 1 < |lit| && 1 < |t| && lit[j + 1] != t[1]
  }

  /** No occurrence of `t` that begins before `lit` can run into it:
      wherever the first character of `lit` appears in `t` after its start,
      the next characters of `t` and of `lit` are there and differ. Only the
      first two characters of `lit` matter. */
  predicate NoRunInto(t: string, lit: string)
    requires |lit| > 0
  {
    forall m :: 0 < m < |t| && t[m] == lit[0] ==>
      m + 1 < |t| && 1 < |lit| && t[m + 1] != lit[1]
  }

  /** `t` cannot begin in an anchor that lacks its first character. */
  lemma {:induction false} NoStartInByChar(lit: string, t: string)
    requires |t| > 0 && t[0] !in lit
    ensures NoStartIn(lit, t)
  {
  }

  /** `t` cannot run into an anchor whose first character it holds only at
      its own start, if at all. */
  lemma {:induction false} NoRunIntoByChar(t: string, lit: string)
    requires |t| > 0 && |lit| > 0 && lit[0] !in t[1..]
    ensures NoRunInto(t, lit)
  {
    forall m | 0 < m < |t|
      ensures t[m] != lit[0]
    {
      assert t[m] == t[1..][m - 1];
    }
  }

  /** A text lacking the first character of `t` does not contain `t`. */
  lemma {:induction false} LacksHead(s: string, t: string)
    requires |t| > 0 && t[0] !in s
    ensures !Contains(s, t)
  {
    forall j: nat | j < |s|
      ensures !OccursAt(s, t, j)
    {
      assert s[j] in s;
      if j + |t| <= |s| {
        assert s[j..j + |t|][0] == s[j];
      }
    }
  }

  /** What `t` cannot run into, it cannot run into followed by anything. */
  lemma {:induction false} NoRunIntoExtend(t: string, lit: string, y: string)
    requires |lit| > 0 && NoRunInto(t, lit)
    ensures NoRunInto(t, lit + y)
  {
    assert (lit + y)[0] == lit[0];
    if 1 < |lit| {
      assert (lit + y)[1] == lit[1];
    }
  }

  /** What `t` cannot run into, it cannot run into as the head of a longer
      text. */
  lemma {:induction false} NoRunIntoPiece(t: string, lit: string, v: string, z: string)
    requires |lit| > 0 && NoRunInto(t, lit)
    ensures NoRunInto(t, lit + v + z)
  {
    NoRunIntoExtend(t, lit, v);
    NoRunIntoExtend(t, lit + v, z);
  }

  /** In `w + z`, `t` cannot occur at an index inside a `t`-free `w`. */
  lemma {:induction false} NoStraddle(w: string, z: string, t: string, j: nat)
    requires |t| > 0 && |z| > 0 && j < |w|
    requires !Contains(w, t) && NoRunInto(t, z)
    ensures !OccursAt(w + z, t, j)
  {
    var s := w + z;
    if j + |t| <= |w| {
      assert s[j..j + |t|] == w[j..j + |t|];
      if OccursAt(w, t, j) {
        FindFirstIsFirst(w, t, j);
      }
    } else {
      assert s[|w|] == z[0];
      if 1 < |z| {
        assert s[|w| + 1] == z[1];
      }
    }
  }

  /** In `lit + y`, `t` cannot occur at an index inside `lit`. */
  lemma {:induction false} NoOccurrenceInside(lit: string, y: string, t: string, j: nat)
    requires |t| > 0 && j < |lit| && NoStartIn(lit, t)
    ensures !OccursAt(lit + y, t, j)
  {
    var s := lit + y;
    assert s[j] == lit[j];
    if j + 1 < |lit| {
      assert s[j + 1] == lit[j + 1];
    }
  }

  /** An occurrence in `z` is one in `w + z`, shifted by `|w|`. */
  lemma {:induction false} OccursAfterPrefix(w: string, z: string, t: string, k: nat)
    ensures OccursAt(w + z, t, |w| + k) <==> OccursAt(z, t, k)
  {
    if k + |t| <= |z| {
      assert (w + z)[|w| + k..|w| + k + |t|] == z[k..k + |t|];
    }
  }

  /** An anchor `t` cannot begin in, followed by a `t`-free part, holds no `t`. */
  lemma {:induction false} FreeJoin(lit: string, v: string, t: string)
    requires |t| > 0 && NoStartIn(lit, t) && !Contains(v, t)
    ensures !Contains(lit + v, t)
  {
    if Contains(lit + v, t) {
      var i := IndexOf(lit + v, t);
      if i < |lit| {
        NoOccurrenceInside(lit, v, t, i);
      } else {
        OccursAfterPrefix(lit, v, t, i - |lit|);
        FindFirstIsFirst(v, t, i - |lit|);
      }
    }
  }

  /** A search for `t` passes over a `t`-free `w` whose successor `t` cannot
      run into: its first hit in `w + z` is its first hit in `z`, shifted. */
  lemma {:induction false} SkipFreeIndex(w: string, z: string, t: string)
    requires |t| > 0 && |z| > 0 && !Contains(w, t) && NoRunInto(t, z)
    ensures Contains(w + z, t) <==> Contains(z, t)
    ensures Contains(z, t) ==> IndexOf(w + z, t) == |w| + IndexOf(z, t)
  {
    var s := w + z;
    if Contains(z, t) {
      var k := IndexOf(z, t);
      OccursAfterPrefix(w, z, t, k);
      FindFirstIsFirst(s, t, |w| + k);
    }
    if Contains(s, t) {
      var i := IndexOf(s, t);
      if i < |w| {
        NoStraddle(w, z, t, i);
      } else {
        OccursAfterPrefix(w, z, t, i - |w|);
        FindFirstIsFirst(z, t, i - |w|);
      }
    }
  }

  /** Cutting `w + z` at its first `t` cuts `z` at its first `t`; what
      follows that `t` is the same in both. */
  lemma {:induction false} SkipFree(w: string, z: string, t: string)
    requires |t| > 0 && |z| > 0 && !Contains(w, t) && NoRunInto(t, z)
    ensures Contains(w + z, t) <==> Contains(z, t)
    ensures Before(w + z, t) == w + Before(z, t)
    ensures Contains(z, t) ==> After(w + z, t) == After(z, t)
  {
    SkipFreeIndex(w, z, t);
    if Contains(z, t) {
      var k := IndexOf(z, t);
      assert (w + z)[..|w| + k] == w + z[..k];
      assert (w + z)[|w| + k + |t|..] == z[k + |t|..];
    }
  }

  /** A text that starts with `t` has its first `t` at the start. */
  lemma {:induction false} CutAtStart(s: string, t: string)
    requires 0 < |t| <= |s| && s[..|t|] == t
    ensures Contains(s, t) && Before(s, t) == [] && After(s, t) == s[|t|..]
  {
    FindFirstIsFirst(s, t, 0);
  }

  /** Cutting at `t` a text that starts with an anchor `t` cannot begin in
      keeps that anchor whole. */
  lemma {:induction false} HeadKept(lit: string, y: string, t: string)
    requires |t| > 0 && NoStartIn(lit, t)
    ensures |lit| <= |Before(lit + y, t)| && Before(lit + y, t)[..|lit|] == lit
  {
    if Contains(lit + y, t) {
      var i := IndexOf(lit + y, t);
      if i < |lit| {
        NoOccurrenceInside(lit, y, t, i);
      }
      assert (lit + y)[..i][..|lit|] == lit;
    }
  }

  /** The first `t` in `x + t + y` is the one after `x` when `x` holds no
      `t` and `t` cannot overlap itself: the text splits into `x` and `y`. */
  lemma {:induction false} FirstAtAnchor(x: string, t: string, y: string)
    requires |t| > 0 && !Contains(x, t) && NoRunInto(t, t)
    ensures Contains(x + t + y, t)
    ensures Before(x + t + y, t) == x && After(x + t + y, t) == y
  {
    NoRunIntoExtend(t, t, y);
    assert x + t + y == x + (t + y);
    SkipFree(x, t + y, t);
    CutAtStart(t + y, t);
    assert (t + y)[|t|..] == y;
  }

  // ---------------------------------------------------------------------
  // strip() and lower()

  /** Python `str.isspace()` for a single code point. */
  predicate IsSpace(c: char) {
    var n := c as int;
    (9 <= n <= 13) || (28 <= n <= 32) || n == 0x85 || n == 0xA0 || n == 0x1680 ||
    (0x2000 <= n <= 0x200A) || n == 0x2028 || n == 0x2029 || n == 0x202F ||
    n == 0x205F || n == 0x3000
  }

  predicate AllSpace(s: string) {
    forall i :: 0 <= i < |s| ==> IsSpace(s[i])
  }

  /** Neither end is whitespace. */
  predicate IsTrimmed(s: string) {
    s == [] || (!IsSpace(s[0]) && !IsSpace(s[|s| - 1]))
  }

  function LStrip(s: string): (r: string)
    ensures |r| <= |s|
    ensures r == [] || !IsSpace(r[0])
    ensures s == [] || !IsSpace(s[0]) ==> r == s
  {
    if s != [] && IsSpace(s[0]) then LStrip(s[1..]) else s
  }

  /** `lstrip` removes a prefix made of whitespace only. */
  lemma {:induction false} LStripShape(s: string)
    ensures LStrip(s) == s[|s| - |LStrip(s)|..]
    ensures AllSpace(s[..|s| - |LStrip(s)|])
  {
    if s != [] && IsSpace(s[0]) {
      var r := LStrip(s[1..]);
      LStripShape(s[1..]);
      assert s[1..][..|s| - 1 - |r|] == s[1..|s| - |r|];
    }
  }

  function RStrip(s: string): (r: string)
    ensures |r| <= |s|
    ensures r == [] || !IsSpace(r[|r| - 1])
    ensures s == [] || !IsSpace(s[|s| - 1]) ==> r == s
  {
    if s != [] && IsSpace(s[|s| - 1]) then RStrip(s[..|s| - 1]) else s
  }

  /** `rstrip` removes a suffix made of whitespace only. */
  lemma {:induction false} RStripShape(s: string)
    ensures RStrip(s) == s[..|RStrip(s)|]
    ensures AllSpace(s[|RStrip(s)|..])
  {
    if s != [] && IsSpace(s[|s| - 1]) {
      var r := RStrip(s[..|s| - 1]);
      RStripShape(s[..|s| - 1]);
      assert s[..|s| - 1][|r|..] + [s[|s| - 1]] == s[|r|..];
    }
  }

  /** Python `s.strip()`: `s` with leading and trailing whitespace removed. */
  function Strip(s: string): string {
    RStrip(LStrip(s))
  }

  /** Where the stripped text starts inside `s`. */
  function StripOffset(s: string): nat {
    |s| - |LStrip(s)|
  }

  /** `s.strip()` is trimmed and is `s` with only whitespace removed from
      either end. */
  lemma {:induction false} StripShape(s: string)
    ensures IsTrimmed(Strip(s))
    ensures OccursAt(s, Strip(s), StripOffset(s))
    ensures AllSpace(s[..StripOffset(s)]) && AllSpace(s[StripOffset(s) + |Strip(s)|..])
  {
    StripEnds(s);
    StripPosition(s);
    LStripShape(s);
  }

  lemma {:induction false} StripEnds(s: string)
    ensures IsTrimmed(Strip(s))
  {
    var l := LStrip(s);
    var r := RStrip(l);
    RStripShape(l);
    if r != [] {
      assert r[0] == l[0];
    }
  }

  lemma {:induction false} StripPosition(s: string)
    ensures OccursAt(s, Strip(s), StripOffset(s))
    ensures AllSpace(s[StripOffset(s) + |Strip(s)|..])
  {
    var l := LStrip(s);
    var r := RStrip(l);
    LStripShape(s);
    RStripShape(l);
    PrefixOfSuffix(s, l, r);
  }

  /** A prefix `r` of a suffix `l` of `s` occurs in `s` where `l` starts, and
      what follows it in `s` is what follows it in `l`. */
  lemma {:induction false} PrefixOfSuffix(s: string, l: string, r: string)
    requires |l| <= |s| && l == s[|s| - |l|..]
    requires |r| <= |l| && r == l[..|r|]
    ensures OccursAt(s, r, |s| - |l|)
    ensures s[|s| - |l| + |r|..] == l[|r|..]
  {
    var lo := |s| - |l|;
    assert s[lo..lo + |r|] == l[..|r|];
  }

  /** Stripping text that is already trimmed changes nothing. */
  lemma {:induction false} StripTrimmed(s: string)
    requires IsTrimmed(s)
    ensures Strip(s) == s
  {
  }

  /** Stripping never introduces a substring. */
  lemma {:induction false} StripKeepsOut(s: string, t: string)
    requires !Contains(s, t)
    ensures !Contains(Strip(s), t)
  {
    StripShape(s);
    NotContainsInfix(s, Strip(s), StripOffset(s), t);
  }

  /** Python `lower()` on one character; only ASCII letters are folded. */
  function LowerChar(c: char): char {
    if 'A' <= c <= 'Z' then (c as int - 'A' as int + 'a' as int) as char else c
  }

  /** Python `s.lower()`, restricted to ASCII case folding. */
  function Lower(s: string): (r: string)
    ensures |r| == |s|
  {
    if s == [] then [] else [LowerChar(s[0])] + Lower(s[1..])
  }

  /** `lower()` folds each character on its own. */
  lemma {:induction false} LowerPointwise(s: string)
    ensures forall i :: 0 <= i < |s| ==> Lower(s)[i] == LowerChar(s[i])
  {
    if s != [] {
      LowerPointwise(s[1..]);
    }
  }

  /** Python `s.replace(c, '')`. */
  function RemoveChar(s: string, c: char): (r: string)
    ensures |r| <= |s|
  {
    if s == [] then []
    else (if s[0] == c then [] else [s[0]]) + RemoveChar(s[1..], c)
  }

  /** Removing a character that is absent changes nothing. */
  lemma {:induction false} RemoveCharAbsent(s: string, c: char)
    requires !Contains(s, [c])
    ensures RemoveChar(s, c) == s
  {
    ContainsChar(s, c);
    RemoveCharUnchanged(s, c);
  }

  lemma {:induction false} RemoveCharUnchanged(s: string, c: char)
    requires forall i :: 0 <= i < |s| ==> s[i] != c
    ensures RemoveChar(s, c) == s
  {
    if s != [] {
      RemoveCharUnchanged(s[1..], c);
    }
  }

  /** After `replace(c, '')` no `c` is left. */
  lemma {:induction false} RemoveCharRemoves(s: string, c: char)
    ensures !Contains(RemoveChar(s, c), [c])
  {
    if s != [] {
      RemoveCharRemoves(s[1..], c);
      ContainsCharAppend(if s[0] == c then [] else [s[0]], RemoveChar(s[1..], c), c);
      ContainsChar(if s[0] == c then [] else [s[0]], c);
    } else {
      ContainsChar([], c);
    }
  }

  /** `replace(c, '')` deletes each `c`: it leaves nothing in its place and
      closes the gap around it. */
  lemma {:induction false} RemoveCharDeletes(x: string, c: char, y: string)
    ensures RemoveChar(x + [c] + y, c) == RemoveChar(x, c) + RemoveChar(y, c)
  {
    RemoveCharAppend(x + [c], y, c);
    RemoveCharAppend(x, [c], c);
    assert [c][1..] == [];
  }

  /** `replace(c, '')` keeps every other character, as often as it occurs,
      and no `c`. */
  lemma {:induction false} RemoveCharCount(s: string, c: char)
    ensures multiset(RemoveChar(s, c)) == multiset(s)[c := 0]
    ensures |RemoveChar(s, c)| == |s| - multiset(s)[c]
  {
    if s != [] {
      RemoveCharCount(s[1..], c);
      assert s == [s[0]] + s[1..];
      assert multiset(s) == multiset([s[0]]) + multiset(s[1..]);
    }
  }

  /** `replace` works piecewise: `(a + b).replace(c, '')` is
      `a.replace(c, '') + b.replace(c, '')`. */
  lemma {:induction false} RemoveCharAppend(a: string, b: string, c: char)
    ensures RemoveChar(a + b, c) == RemoveChar(a, c) + RemoveChar(b, c)
  {
    if a == [] {
      assert a + b == b;
    } else {
      assert (a + b)[0] == a[0];
      assert (a + b)[1..] == a[1..] + b;
      RemoveCharAppend(a[1..], b, c);
    }
  }
}
