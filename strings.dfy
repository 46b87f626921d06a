/**
 * The JavaScript string operations the application relies on, stated on
 * `seq<char>`: `trim`, the `\s` and `\d` character classes, `split` on a
 * character, `join`, `indexOf`, `startsWith`, ASCII `toLowerCase`, and the
 * decimal rendering of a number inside a template literal.
 */
module Strings {
  import opened Wrappers

  /** ECMAScript WhiteSpace and LineTerminator code points: the set that
      `String.prototype.trim` removes and the regular-expression class `\s` matches. */
  predicate IsSpace(c: char) {
    || c == ' ' || c == '\t' || c == '\n' || c == '\r' || c == '\U{000B}' || c == '\U{000C}'
    || c == '\U{00A0}' || c == '\U{1680}' || ('\U{2000}' <= c <= '\U{200A}')
    || c == '\U{2028}' || c == '\U{2029}' || c == '\U{202F}' || c == '\U{205F}'
    || c == '\U{3000}' || c == '\U{FEFF}'
  }

  /** The regular-expression class `\d`: ASCII digits only. */
  predicate IsDigit(c: char) {
    '0' <= c <= '9'
  }

  predicate IsNewline(c: char) {
    c == '\n'
  }

  predicate IsEqualsSign(c: char) {
    c == '='
  }

  predicate AllSpace(s: string) {
    forall i :: 0 <= i < |s| ==> IsSpace(s[i])
  }

  /** Neither end of `s` is white space: what `trim` leaves. */
  predicate Trimmed(s: string) {
    s == [] || (!IsSpace(s[0]) && !IsSpace(s[|s| - 1]))
  }

  predicate StartsWith(s: string, prefix: string) {
    |prefix| <= |s| && s[..|prefix|] == prefix
  }

  predicate EndsWith(s: string, suffix: string) {
    |suffix| <= |s| && s[|s| - |suffix|..] == suffix
  }

  lemma StartsWithAppend(a: string, b: string)
    ensures StartsWith(a + b, a)
    ensures (a + b)[|a|..] == b
  {
    assert (a + b)[..|a|] == a;
  }

  lemma EndsWithAppend(a: string, b: string)
    ensures EndsWith(a + b, b)
  {
    assert (a + b)[|a + b| - |b|..] == b;
  }

  lemma StartsWithTrans(s: string, a: string, b: string)
    requires StartsWith(s, a) && StartsWith(a, b)
    ensures StartsWith(s, b)
  {
    assert s[..|a|][..|b|] == s[..|b|];
  }

  /** In a text that starts with `a + (b + c)`, `b` follows `a`. */
  lemma InfixOfPrefix(s: string, a: string, b: string, c: string)
    requires StartsWith(s, a + (b + c))
    ensures StartsWith(s, a)
    ensures s[|a|..][..|b|] == b
  {
    assert s[..|a|] == (a + (b + c))[..|a|];
    assert s[|a|..][..|b|] == (a + (b + c))[|a|..|a| + |b|];
  }

  /** Two prefixes that differ at some index cannot both start `s`. */
  lemma StartsWithDiffer(s: string, p: string, q: string, i: nat)
    requires StartsWith(s, q) && i < |p| && i < |q| && p[i] != q[i]
    ensures !StartsWith(s, p)
  {
    assert s[..|q|][i] == s[i];
  }

  /** `pat` occurs in `s` starting at index `k`. */
  predicate OccursAt(s: string, pat: string, k: nat) {
    k + |pat| <= |s| && s[k..k + |pat|] == pat
  }

  predicate Contains(s: string, pat: string) {
    exists k: nat | k <= |s| :: OccursAt(s, pat, k)
  }

  /** The first index at or after `from` whose character fails `p`
      (a greedy `p*` match starting at `from`). */
  function SkipWhile(s: string, p: char -> bool, from: nat): (k: nat)
    requires from <= |s|
    ensures from <= k <= |s|
    ensures forall i :: from <= i < k ==> p(s[i])
    ensures k < |s| ==> !p(s[k])
    decreases |s| - from
  {
    if from < |s| && p(s[from]) then SkipWhile(s, p, from + 1) else from
  }

  /** Length of `s` once its trailing white space is dropped. */
  function TrimEndLength(s: string): (n: nat)
    ensures n <= |s|
    ensures forall i :: n <= i < |s| ==> IsSpace(s[i])
    ensures n > 0 ==> !IsSpace(s[n - 1])
  {
    if |s| > 0 && IsSpace(s[|s| - 1]) then TrimEndLength(s[..|s| - 1]) else |s|
  }

  /** `String.prototype.trimStart`. */
  function TrimStart(s: string): (r: string)
    ensures r == [] || !IsSpace(r[0])
    ensures exists i :: 0 <= i <= |s| && AllSpace(s[..i]) && r == s[i..]
  {
    var i := SkipWhile(s, IsSpace, 0);
    assert AllSpace(s[..i]);
    s[i..]
  }

  /** `String.prototype.trim`: `s` without its leading and trailing white space. */
  function Trim(s: string): (r: string)
    ensures Trimmed(r)
  {
    var i := SkipWhile(s, IsSpace, 0);
    s[i..][..TrimEndLength(s[i..])]
  }

  /** What `trim` keeps is an infix of `s`, and what it drops is white space. */
  lemma TrimIsInfix(s: string)
    ensures exists i, j :: 0 <= i <= j <= |s| && AllSpace(s[..i]) && AllSpace(s[j..]) && Trim(s) == s[i..j]
  {
    var i := SkipWhile(s, IsSpace, 0);
    var n := TrimEndLength(s[i..]);
    assert AllSpace(s[..i]);
    assert s[i + n..] == s[i..][n..];
    assert s[i..][..n] == s[i..i + n];
  }

  /** A string trims to nothing exactly when it is all white space. */
  lemma TrimEmptyIff(s: string)
    ensures Trim(s) == [] <==> AllSpace(s)
  {
    var i := SkipWhile(s, IsSpace, 0);
    if AllSpace(s) {
      assert i == |s|;
    } else {
      assert i < |s|;
      assert TrimEndLength(s[i..]) > 0;
    }
  }

  /** Trimming a string that has no white space at its ends changes nothing. */
  lemma TrimOfTrimmed(s: string)
    requires Trimmed(s)
    ensures Trim(s) == s
  {
    if s != [] {
      assert SkipWhile(s, IsSpace, 0) == 0;
      assert s[0..] == s;
    }
  }

  lemma TrimIdempotent(s: string)
    ensures Trim(Trim(s)) == Trim(s)
  {
    TrimOfTrimmed(Trim(s));
  }

  /** Skipping from an offset inside a suffix is skipping in the suffix, shifted. */
  lemma {:induction false} SkipWhileShift(s: string, p: char -> bool, from: nat, k: nat)
    requires from + k <= |s|
    ensures SkipWhile(s[from..], p, k) + from == SkipWhile(s, p, from + k)
    decreases |s| - from - k
  {
    if from + k < |s| && p(s[from + k]) {
      assert s[from..][k] == s[from + k];
      SkipWhileShift(s, p, from, k + 1);
    }
  }

  /** Starting the skip earlier, over characters that satisfy `p`, ends at the same place. */
  lemma {:induction false} SkipWhileOver(s: string, p: char -> bool, k: nat, from: nat)
    requires k <= from <= |s|
    requires forall i :: k <= i < from ==> p(s[i])
    ensures SkipWhile(s, p, k) == SkipWhile(s, p, from)
    decreases from - k
  {
    if k < from {
      SkipWhileOver(s, p, k + 1, from);
    }
  }

  /** A range of white-space characters is an all-white-space slice. */
  lemma AllSpaceSlice(s: string, a: nat, b: nat)
    requires a <= b <= |s|
    requires forall i :: a <= i < b ==> IsSpace(s[i])
    ensures AllSpace(s[a..b])
  {
  }

  /** Leading white space does not change what `trim` returns. */
  lemma TrimAfterSkip(s: string, from: nat)
    requires from <= |s|
    requires AllSpace(s[..from])
    ensures Trim(s[from..]) == Trim(s)
  {
    var t := s[from..];
    assert forall i :: 0 <= i < from ==> s[..from][i] == s[i];
    SkipWhileOver(s, IsSpace, 0, from);
    SkipWhileShift(s, IsSpace, from, 0);
    var i := SkipWhile(s, IsSpace, 0);
    var j := SkipWhile(t, IsSpace, 0);
    assert t[j..] == s[i..];
  }

  /** White space at the front of an infix does not change what `trim` returns. */
  lemma TrimInfixAfterSkip(s: string, start: nat, j: nat, k: nat)
    requires start <= j <= k <= |s|
    requires forall q :: start <= q < j ==> IsSpace(s[q])
    ensures Trim(s[j..k]) == Trim(s[start..k])
  {
    var t := s[start..k];
    AllSpaceSlice(s, start, j);
    assert t[..j - start] == s[start..j];
    TrimAfterSkip(t, j - start);
    assert t[j - start..] == s[j..k];
  }

  /** White space skipped at the front of a suffix does not change what `trim` returns. */
  lemma TrimSuffixAfterSkip(s: string, start: nat, j: nat)
    requires start <= j <= |s|
    requires forall q :: start <= q < j ==> IsSpace(s[q])
    ensures Trim(s[j..]) == Trim(s[start..])
  {
    TrimInfixAfterSkip(s, start, j, |s|);
    assert s[j..|s|] == s[j..] && s[start..|s|] == s[start..];
  }

  /** One white-space character in front of a trimmed text is dropped by `trim`. */
  lemma TrimSpacePrefixed(c: char, s: string)
    requires IsSpace(c) && Trimmed(s)
    ensures Trim([c] + s) == s
  {
    var t := [c] + s;
    assert t[..1] == [c];
    TrimAfterSkip(t, 1);
    assert t[1..] == s;
    TrimOfTrimmed(s);
  }

  /** Trailing white space does not change the trimmed length of a string
      that ends in a non-white-space character. */
  lemma {:induction false} TrimEndLengthPadded(n: string, b: string)
    requires n != [] && !IsSpace(n[|n| - 1])
    requires AllSpace(b)
    ensures TrimEndLength(n + b) == |n|
    decreases |b|
  {
    if b == [] {
      assert n + b == n;
    } else {
      assert (n + b)[..|n + b| - 1] == n + b[..|b| - 1];
      assert (n + b)[|n + b| - 1] == b[|b| - 1];
      TrimEndLengthPadded(n, b[..|b| - 1]);
    }
  }

  /** A trimmed text surrounded by white space trims back to itself. */
  lemma TrimPadded(a: string, n: string, b: string)
    requires AllSpace(a) && AllSpace(b) && Trimmed(n)
    ensures Trim(a + n + b) == n
  {
    AppendAssoc(a, n, b);
    TrimLeading(a, n + b);
    TrimTrailing(n, b);
  }

  lemma AppendAssoc(a: string, n: string, b: string)
    ensures a + n + b == a + (n + b)
  {
  }

  /** Leading white space in front of any text is dropped by `trim`. */
  lemma TrimLeading(a: string, t: string)
    requires AllSpace(a)
    ensures Trim(a + t) == Trim(t)
  {
    var s := a + t;
    assert s[..|a|] == a;
    TrimAfterSkip(s, |a|);
    assert s[|a|..] == t;
  }

  /** Trailing white space after a trimmed text is dropped by `trim`. */
  lemma TrimTrailing(n: string, b: string)
    requires AllSpace(b) && Trimmed(n)
    ensures Trim(n + b) == n
  {
    var t := n + b;
    if n == [] {
      assert t == b;
      TrimEmptyIff(b);
    } else {
      assert t[0] == n[0];
      assert SkipWhile(t, IsSpace, 0) == 0;
      TrimEndLengthPadded(n, b);
      assert t[0..] == t;
      assert t[..|n|] == n;
    }
  }

  /** White space on both sides of any text is dropped by `trim`. */
  lemma TrimSurrounded(a: string, s: string, b: string)
    requires AllSpace(a) && AllSpace(b)
    ensures Trim(a + s + b) == Trim(s)
  {
    var i, k := TrimBounds(s);
    AllSpaceAppend(a, s[..i]);
    AllSpaceAppend(s[k..], b);
    Regroup(a, s, b, i, k);
    TrimPadded(a + s[..i], s[i..k], s[k..] + b);
  }

  /** Where `trim` cuts: white space before `i` and from `k` on. */
  lemma TrimBounds(s: string) returns (i: nat, k: nat)
    ensures i <= k <= |s| && AllSpace(s[..i]) && AllSpace(s[k..]) && Trim(s) == s[i..k]
  {
    i := SkipWhile(s, IsSpace, 0);
    k := i + TrimEndLength(s[i..]);
    assert s[i..][..k - i] == s[i..k];
    assert forall q :: k <= q < |s| ==> s[q] == s[i..][q - i];
  }

  lemma AllSpaceAppend(x: string, y: string)
    requires AllSpace(x) && AllSpace(y)
    ensures AllSpace(x + y)
  {
    assert forall q :: |x| <= q < |x + y| ==> (x + y)[q] == y[q - |x|];
  }

  lemma Regroup(a: string, s: string, b: string, i: nat, k: nat)
    requires i <= k <= |s|
    ensures a + s + b == (a + s[..i]) + s[i..k] + (s[k..] + b)
  {
    assert s == s[..i] + s[i..k] + s[k..];
  }

  /** `String.prototype.toLowerCase` on ASCII letters; every other character is kept. */
  function LowerChar(c: char): char {
    if 'A' <= c <= 'Z' then (c as int + 32) as char else c
  }

  function ToLower(s: string): (r: string)
    ensures |r| == |s|
    ensures forall i :: 0 <= i < |s| ==> r[i] == LowerChar(s[i])
  {
    seq(|s|, i requires 0 <= i < |s| => LowerChar(s[i]))
  }

  lemma ToLowerIdempotent(s: string)
    ensures ToLower(ToLower(s)) == ToLower(s)
  {
  }

  /** Lower-casing keeps white space where it is, so it commutes with `trim`. */
  lemma ToLowerKeepsSpace(c: char)
    ensures IsSpace(LowerChar(c)) <==> IsSpace(c)
  {
  }

  /** Lower-casing keeps white space where it is, so it skips the same prefix. */
  lemma {:induction false} SkipWhileLower(s: string, from: nat)
    requires from <= |s|
    ensures SkipWhile(ToLower(s), IsSpace, from) == SkipWhile(s, IsSpace, from)
    decreases |s| - from
  {
    if from < |s| {
      ToLowerKeepsSpace(s[from]);
      if IsSpace(s[from]) {
        SkipWhileLower(s, from + 1);
      }
    }
  }

  /** Lower-casing keeps the trailing white space, too. */
  lemma {:induction false} TrimEndLengthLower(t: string)
    ensures TrimEndLength(ToLower(t)) == TrimEndLength(t)
    decreases |t|
  {
    if |t| > 0 {
      ToLowerKeepsSpace(t[|t| - 1]);
      assert ToLower(t)[..|t| - 1] == ToLower(t[..|t| - 1]);
      TrimEndLengthLower(t[..|t| - 1]);
    }
  }

  /** `s.toLowerCase().trim()` is `s.trim().toLowerCase()`. */
  lemma TrimLower(s: string)
    ensures Trim(ToLower(s)) == ToLower(Trim(s))
  {
    var i := SkipWhile(s, IsSpace, 0);
    SkipWhileLower(s, 0);
    assert ToLower(s)[i..] == ToLower(s[i..]);
    TrimEndLengthLower(s[i..]);
    var n := TrimEndLength(s[i..]);
    assert ToLower(s[i..])[..n] == ToLower(s[i..][..n]);
  }

  /** `s.split(c)` for a separator character: the pieces between separators,
      at least one, possibly empty. */
  function SplitWhere(s: string, isSep: char -> bool): (r: seq<string>)
    ensures |r| >= 1
  {
    if s == [] then [""]
    else
      var rest := SplitWhere(s[1..], isSep);
      if isSep(s[0]) then [""] + rest else [[s[0]] + rest[0]] + rest[1..]
  }

  /** No piece of a split contains a separator. */
  lemma {:induction false} SplitPiecesHaveNoSeparator(s: string, isSep: char -> bool, k: nat, i: nat)
    requires k < |SplitWhere(s, isSep)| && i < |SplitWhere(s, isSep)[k]|
    ensures !isSep(SplitWhere(s, isSep)[k][i])
  {
    if s != [] {
      var rest := SplitWhere(s[1..], isSep);
      if isSep(s[0]) {
        if k > 0 { SplitPiecesHaveNoSeparator(s[1..], isSep, k - 1, i); }
      } else if k == 0 {
        if i > 0 { SplitPiecesHaveNoSeparator(s[1..], isSep, 0, i - 1); }
      } else {
        SplitPiecesHaveNoSeparator(s[1..], isSep, k, i);
      }
    }
  }

  /** Splitting at a separator character splits both halves independently. */
  lemma {:induction false} SplitAppend(a: string, c: char, b: string, isSep: char -> bool)
    requires isSep(c)
    ensures SplitWhere(a + [c] + b, isSep) == SplitWhere(a, isSep) + SplitWhere(b, isSep)
  {
    if a == [] {
      assert a + [c] + b == [c] + b;
      assert ([c] + b)[1..] == b;
    } else {
      assert (a + [c] + b)[0] == a[0];
      assert (a + [c] + b)[1..] == a[1..] + [c] + b;
      SplitAppend(a[1..], c, b, isSep);
    }
  }

  /** A string without separators is a single piece. */
  lemma {:induction false} SplitNoSeparator(s: string, isSep: char -> bool)
    requires forall i :: 0 <= i < |s| ==> !isSep(s[i])
    ensures SplitWhere(s, isSep) == [s]
  {
    if s != [] {
      SplitNoSeparator(s[1..], isSep);
      assert [s[0]] + s[1..] == s;
    }
  }

  /** At the first separator, index `i`, the first piece is `s[..i]` and the
      remaining pieces are those of `s[i + 1..]`. */
  lemma {:induction false} SplitAtFirst(s: string, isSep: char -> bool, i: nat)
    requires i < |s| && isSep(s[i])
    requires forall k :: 0 <= k < i ==> !isSep(s[k])
    ensures SplitWhere(s, isSep) == [s[..i]] + SplitWhere(s[i + 1..], isSep)
  {
    var head, tail := s[..i], s[i + 1..];
    assert forall k :: 0 <= k < |head| ==> !isSep(head[k]);
    SplitNoSeparator(head, isSep);
    assert s == head + [s[i]] + tail;
    SplitAppend(head, s[i], tail, isSep);
  }

  /** `parts.join(sep)`. */
  function Join(parts: seq<string>, sep: string): (r: string)
  {
    if |parts| == 0 then ""
    else if |parts| == 1 then parts[0]
    else parts[0] + sep + Join(parts[1..], sep)
  }

  /** `s.split(c).join(c)` gives back `s`. */
  lemma {:induction false} JoinSplit(s: string, c: char, isSep: char -> bool)
    requires forall x :: isSep(x) <==> x == c
    ensures Join(SplitWhere(s, isSep), [c]) == s
  {
    if s != [] {
      JoinSplit(s[1..], c, isSep);
      if s[0] == c {
        JoinSplitSeparator(s, c, isSep);
      } else {
        JoinSplitOther(s, c, isSep);
      }
    }
  }

  /** A leading separator opens an empty first piece. */
  lemma JoinSplitSeparator(s: string, c: char, isSep: char -> bool)
    requires s != [] && s[0] == c && isSep(s[0])
    requires Join(SplitWhere(s[1..], isSep), [c]) == s[1..]
    ensures Join(SplitWhere(s, isSep), [c]) == s
  {
    var rest := SplitWhere(s[1..], isSep);
    assert SplitWhere(s, isSep) == [""] + rest;
    JoinCons("", rest, [c]);
    assert s == [c] + s[1..];
  }

  /** A leading non-separator starts the first piece. */
  lemma JoinSplitOther(s: string, c: char, isSep: char -> bool)
    requires s != [] && !isSep(s[0])
    requires Join(SplitWhere(s[1..], isSep), [c]) == s[1..]
    ensures Join(SplitWhere(s, isSep), [c]) == s
  {
    var rest := SplitWhere(s[1..], isSep);
    assert SplitWhere(s, isSep) == [[s[0]] + rest[0]] + rest[1..];
    JoinPrepend(s[0], rest, [c]);
    assert [s[0]] + s[1..] == s;
  }

  /** Prepending a character to the first part prepends it to the join. */
  lemma JoinPrepend(x: char, parts: seq<string>, sep: string)
    requires parts != []
    ensures Join([[x] + parts[0]] + parts[1..], sep) == [x] + Join(parts, sep)
  {
    if |parts| > 1 {
      JoinCons([x] + parts[0], parts[1..], sep);
      JoinCons(parts[0], parts[1..], sep);
      assert parts == [parts[0]] + parts[1..];
    }
  }

  /** Joining a part in front of a non-empty list puts the separator after it. */
  lemma JoinCons(part: string, parts: seq<string>, sep: string)
    requires parts != []
    ensures Join([part] + parts, sep) == part + sep + Join(parts, sep)
  {
    assert ([part] + parts)[1..] == parts;
  }

  /** A join starts with its first part. */
  lemma JoinStartsWithFirst(parts: seq<string>, sep: string)
    requires parts != []
    ensures StartsWith(Join(parts, sep), parts[0])
  {
    if |parts| > 1 {
      assert (parts[0] + sep + Join(parts[1..], sep))[..|parts[0]|] == parts[0];
    }
  }

  /** Splitting the join of separator-free lines gives back the lines. */
  lemma {:induction false} SplitJoin(lines: seq<string>, c: char, isSep: char -> bool)
    requires forall x :: isSep(x) <==> x == c
    requires |lines| >= 1
    requires forall k, i :: 0 <= k < |lines| && 0 <= i < |lines[k]| ==> lines[k][i] != c
    ensures SplitWhere(Join(lines, [c]), isSep) == lines
    decreases |lines|
  {
    SplitNoSeparator(lines[0], isSep);
    if |lines| > 1 {
      SplitJoin(lines[1..], c, isSep);
      SplitAppend(lines[0], c, Join(lines[1..], [c]), isSep);
      assert lines == [lines[0]] + lines[1..];
    }
  }

  /** The pieces that are not empty: `.filter(Boolean)` on a split. */
  function NonEmpty(parts: seq<string>): (r: seq<string>)
    ensures |r| <= |parts|
    ensures forall k :: 0 <= k < |r| ==> r[k] != []
  {
    if parts == [] then []
    else (if parts[0] == [] then [] else [parts[0]]) + NonEmpty(parts[1..])
  }

  lemma {:induction false} NonEmptyAppend(a: seq<string>, b: seq<string>)
    ensures NonEmpty(a + b) == NonEmpty(a) + NonEmpty(b)
  {
    if a == [] {
      assert a + b == b;
    } else {
      assert (a + b)[0] == a[0];
      assert (a + b)[1..] == a[1..] + b;
      NonEmptyAppend(a[1..], b);
      var head := if a[0] == [] then [] else [a[0]];
      assert NonEmpty(a + b) == head + NonEmpty(a[1..] + b);
      assert NonEmpty(a) == head + NonEmpty(a[1..]);
    }
  }

  /** `s.split(/\s+/).filter(Boolean)`: the maximal runs of non-white-space. */
  function Words(s: string): seq<string>
  {
    NonEmpty(SplitWhere(s, IsSpace))
  }

  /** A white-space character between two texts separates their words. */
  lemma WordsAppend(a: string, c: char, b: string)
    requires IsSpace(c)
    ensures Words(a + [c] + b) == Words(a) + Words(b)
  {
    SplitAppend(a, c, b, IsSpace);
    NonEmptyAppend(SplitWhere(a, IsSpace), SplitWhere(b, IsSpace));
  }

  /** Text made only of white space has no words. */
  lemma {:induction false} WordsOfSpace(s: string)
    requires AllSpace(s)
    ensures Words(s) == []
  {
    if s != [] {
      WordsOfSpace(s[1..]);
      var rest := SplitWhere(s[1..], IsSpace);
      assert SplitWhere(s, IsSpace) == [""] + rest;
      assert ([""] + rest)[1..] == rest;
    }
  }

  /** `s.replace(/c/g, by)`. */
  function ReplaceAll(s: string, c: char, rep: string): (r: string)
    ensures |rep| > 0 ==> |r| >= |s|
  {
    if s == [] then ""
    else (if s[0] == c then rep else [s[0]]) + ReplaceAll(s[1..], c, rep)
  }

  /** Replacing every `c` by text free of `c` leaves no `c` behind. */
  lemma {:induction false} ReplaceAllRemoves(s: string, c: char, rep: string)
    requires forall i :: 0 <= i < |rep| ==> rep[i] != c
    ensures forall i :: 0 <= i < |ReplaceAll(s, c, rep)| ==> ReplaceAll(s, c, rep)[i] != c
  {
    if s != [] { ReplaceAllRemoves(s[1..], c, rep); }
  }

  /** The first index at or after `from` where `pat` occurs, like `indexOf`. */
  function Find(s: string, pat: string, from: nat): (r: Option<nat>)
    ensures r.Some? ==> from <= r.value && OccursAt(s, pat, r.value)
    ensures r.Some? ==> forall k :: from <= k < r.value ==> !OccursAt(s, pat, k)
    ensures r.None? ==> forall k: nat :: from <= k ==> !OccursAt(s, pat, k)
    decreases |s| - from
  {
    if from + |pat| > |s| then None
    else if s[from..from + |pat|] == pat then Some(from)
    else Find(s, pat, from + 1)
  }

  /** `Find` returns the first occurrence, whatever the search found it by. */
  lemma FindFirst(s: string, pat: string, from: nat, i: nat)
    requires from <= i && OccursAt(s, pat, i)
    requires forall k :: from <= k < i ==> !OccursAt(s, pat, k)
    ensures Find(s, pat, from) == Some(i)
  {
  }

  /** The character of a decimal digit value. */
  function DigitChar(d: nat): (c: char)
    requires d < 10
    ensures IsDigit(c)
  {
    ('0' as int + d) as char
  }

  /** Decimal rendering of a natural number, as `${n}` produces it. */
  function NatToString(n: nat): (r: string)
    ensures |r| >= 1
    ensures forall i :: 0 <= i < |r| ==> IsDigit(r[i])
    decreases n
  {
    if n < 10 then [DigitChar(n)] else NatToString(n / 10) + [DigitChar(n % 10)]
  }

  /** The number a string of decimal digits denotes. */
  function DigitsValue(s: string): nat
    requires forall i :: 0 <= i < |s| ==> IsDigit(s[i])
  {
    if s == [] then 0
    else
      assert IsDigit(s[|s| - 1]);
      10 * DigitsValue(s[..|s| - 1]) + (s[|s| - 1] as int - '0' as int)
  }

  /** Reading back the rendering of `n` gives `n`. */
  lemma {:induction false} NatToStringRoundTrip(n: nat)
    ensures DigitsValue(NatToString(n)) == n
  {
    if n >= 10 {
      NatToStringRoundTrip(n / 10);
      var r := NatToString(n);
      assert r[..|r| - 1] == NatToString(n / 10);
    }
  }

  /** Different numbers render differently. */
  lemma NatToStringInjective(m: nat, n: nat)
    requires NatToString(m) == NatToString(n)
    ensures m == n
  {
    NatToStringRoundTrip(m);
    NatToStringRoundTrip(n);
  }
}
