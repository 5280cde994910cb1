/** The few JavaScript string primitives the core relies on: `trim`, `\s`, `.`,
    `split` on one character, `join`, `startsWith`/`endsWith`/`includes`, and the
    decimal digit runs that `\d+` and `Number()` deal with. */
module Strings {

  /** The code points JavaScript counts as white space (WhiteSpace and LineTerminator):
      the ones `String.prototype.trim` removes and `\s` matches. */
  predicate IsWhitespace(c: char) {
    var n := c as int;
    || n == 0x09 || n == 0x0A || n == 0x0B || n == 0x0C || n == 0x0D || n == 0x20
    || n == 0xA0 || n == 0x1680 || (0x2000 <= n <= 0x200A)
    || n == 0x2028 || n == 0x2029 || n == 0x202F || n == 0x205F || n == 0x3000 || n == 0xFEFF
  }

  /** The code points a regular expression `.` does not match (no `s` flag). */
  predicate IsLineTerminator(c: char) {
    var n := c as int;
    n == 0x0A || n == 0x0D || n == 0x2028 || n == 0x2029
  }

  predicate NoLineTerminator(s: string) {
    forall i :: 0 <= i < |s| ==> !IsLineTerminator(s[i])
  }

  predicate IsTrimmed(s: string) {
    s == [] || (!IsWhitespace(s[0]) && !IsWhitespace(s[|s| - 1]))
  }

  /** The number of white-space characters at the start of `s`. */
  function LeadingBlanks(s: string): (n: nat)
    ensures n <= |s|
    ensures forall i :: 0 <= i < n ==> IsWhitespace(s[i])
    ensures n < |s| ==> !IsWhitespace(s[n])
  {
    if s != [] && IsWhitespace(s[0]) then LeadingBlanks(s[1..]) + 1 else 0
  }

  /** The length of `s` without its trailing white space. */
  function TrailingCut(s: string): (n: nat)
    ensures n <= |s|
    ensures forall i :: n <= i < |s| ==> IsWhitespace(s[i])
    ensures n > 0 ==> !IsWhitespace(s[n - 1])
  {
    if s != [] && IsWhitespace(s[|s| - 1]) then TrailingCut(s[..|s| - 1]) else |s|
  }

  /** `trim`: the slice of `s` between its leading and its trailing white space. */
  function Trim(s: string): (r: string)
    ensures IsTrimmed(r)
    ensures var a := LeadingBlanks(s);
      && a + |r| <= |s| && r == s[a..a + |r|]
      && (forall i :: 0 <= i < a ==> IsWhitespace(s[i]))
      && (forall i :: a + |r| <= i < |s| ==> IsWhitespace(s[i]))
  {
    var a := LeadingBlanks(s);
    var n := TrailingCut(s[a..]);
    TrimmedSlice(s, a, n);
    s[a..a + n]
  }

  lemma TrimmedSlice(s: string, a: nat, n: nat)
    requires a + n <= |s|
    requires a < |s| ==> !IsWhitespace(s[a])
    requires n > 0 ==> !IsWhitespace(s[a..][n - 1])
    requires forall i :: n <= i < |s| - a ==> IsWhitespace(s[a..][i])
    ensures IsTrimmed(s[a..a + n])
    ensures forall i :: a + n <= i < |s| ==> IsWhitespace(s[i])
  {
    var t, r := s[a..], s[a..a + n];
    if n > 0 {
      assert r[0] == s[a] && r[n - 1] == t[n - 1];
    }
    forall i | a + n <= i < |s| ensures IsWhitespace(s[i]) {
      assert s[i] == t[i - a];
    }
  }

  lemma TrimOfTrimmed(s: string)
    requires IsTrimmed(s)
    ensures Trim(s) == s
  {
    if s != [] {
      assert LeadingBlanks(s) == 0;
      assert TrailingCut(s) == |s|;
    }
  }

  /** A string that starts with a non-blank character loses only trailing white space. */
  lemma TrimKeepsFrom(s: string, j: nat)
    requires j < |s| && !IsWhitespace(s[0]) && !IsWhitespace(s[j])
    ensures |Trim(s)| > j && Trim(s) == s[..|Trim(s)|]
  {
    assert LeadingBlanks(s) == 0;
  }

  predicate AllWhitespace(s: string) {
    forall i :: 0 <= i < |s| ==> IsWhitespace(s[i])
  }

  lemma {:induction false} LeadingBlanksOfBlanks(x: string, t: string)
    requires AllWhitespace(x)
    ensures LeadingBlanks(x + t) == |x| + LeadingBlanks(t)
  {
    if x != [] {
      assert (x + t)[1..] == x[1..] + t;
      LeadingBlanksOfBlanks(x[1..], t);
    } else {
      assert x + t == t;
    }
  }

  lemma {:induction false} TrailingCutOfBlanks(t: string, y: string)
    requires AllWhitespace(y)
    ensures TrailingCut(t + y) == TrailingCut(t)
  {
    if y != [] {
      var s := t + y;
      assert s[..|s| - 1] == t + y[..|y| - 1];
      TrailingCutOfBlanks(t, y[..|y| - 1]);
    } else {
      assert t + y == t;
    }
  }

  /** A trimmed text between white space is what trimming gives back. */
  lemma TrimUnique(x: string, r: string, y: string)
    requires AllWhitespace(x) && AllWhitespace(y) && IsTrimmed(r)
    ensures Trim(x + r + y) == r
  {
    if r == [] {
      assert x + r + y == x + y;
      TrimOfBlanks(x, y);
    } else {
      TrimOfFramed(x, r, y);
    }
  }

  lemma TrimOfBlanks(x: string, y: string)
    requires AllWhitespace(x) && AllWhitespace(y)
    ensures Trim(x + y) == []
  {
    LeadingBlanksOfBlanks(x, y);
    LeadingBlanksOfBlanks(y, []);
    assert y + [] == y;
  }

  lemma TrimOfFramed(x: string, r: string, y: string)
    requires AllWhitespace(x) && AllWhitespace(y) && IsTrimmed(r) && r != []
    ensures Trim(x + r + y) == r
  {
    var s := x + r + y;
    assert s == x + (r + y);
    LeadingBlanksOfBlanks(x, r + y);
    assert (r + y)[0] == r[0];
    assert s[|x|..] == r + y;
    TrailingCutOfBlanks(r, y);
    assert s[|x|..|x| + |r|] == r;
  }

  lemma BlanksConcat(a: string, b: string)
    requires AllWhitespace(a) && AllWhitespace(b)
    ensures AllWhitespace(a + b)
  {
    assert forall i :: |a| <= i < |a + b| ==> (a + b)[i] == b[i - |a|];
  }

  /** A text is its trimmed form between two runs of white space. */
  lemma TrimParts(s: string) returns (x: string, y: string)
    ensures s == x + Trim(s) + y && AllWhitespace(x) && AllWhitespace(y)
  {
    var a := LeadingBlanks(s);
    var r := Trim(s);
    x, y := s[..a], s[a + |r|..];
    assert s == x + r + y;
  }

  /** White space around a text does not change its trimmed form. */
  lemma TrimOfBlankPadding(w1: string, s: string, w2: string)
    requires AllWhitespace(w1) && AllWhitespace(w2)
    ensures Trim(w1 + s + w2) == Trim(s)
  {
    var r := Trim(s);
    var x, y := TrimParts(s);
    BlanksConcat(w1, x);
    BlanksConcat(y, w2);
    assert w1 + s + w2 == (w1 + x) + r + (y + w2);
    TrimUnique(w1 + x, r, y + w2);
  }

  predicate StartsWith(s: string, prefix: string) {
    |prefix| <= |s| && s[..|prefix|] == prefix
  }

  predicate EndsWith(s: string, suffix: string) {
    |suffix| <= |s| && s[|s| - |suffix|..] == suffix
  }

  lemma PrefixOfConcat(a: string, b: string)
    ensures StartsWith(a + b, a)
  {
    assert (a + b)[..|a|] == a;
  }

  lemma SuffixOfConcat(a: string, b: string)
    ensures EndsWith(a + b, b)
  {
    assert (a + b)[|a|..] == b;
  }

  /** `includes`: `needle` occurs somewhere in `s`. */
  predicate Contains(s: string, needle: string) {
    exists i :: 0 <= i <= |s| && StartsWith(s[i..], needle)
  }

  /** `indexOf` for one character, with `|s|` standing for "absent". */
  function FirstIndexOf(s: string, c: char): (r: nat)
    ensures r <= |s|
    ensures c !in s[..r]
    ensures r < |s| ==> s[r] == c
    ensures r == |s| <==> c !in s
  {
    if s == [] then 0
    else if s[0] == c then 0
    else
      var k := FirstIndexOf(s[1..], c);
      assert s[..k + 1] == [s[0]] + s[1..][..k];
      k + 1
  }

  /** `Array.prototype.join`. */
  function Join(xs: seq<string>, sep: string): string
  {
    if |xs| == 0 then "" else if |xs| == 1 then xs[0] else xs[0] + sep + Join(xs[1..], sep)
  }

  /** `String.prototype.split` with a one-character separator. */
  function SplitOn(s: string, c: char): (r: seq<string>)
    ensures |r| >= 1
    ensures forall k :: 0 <= k < |r| ==> c !in r[k]
    decreases |s|
  {
    var i := FirstIndexOf(s, c);
    if i == |s| then [s] else [s[..i]] + SplitOn(s[i + 1..], c)
  }

  /** Splitting and joining again with the same separator gives back the string. */
  lemma {:induction false} JoinSplitOn(s: string, c: char)
    ensures Join(SplitOn(s, c), [c]) == s
    decreases |s|
  {
    var i := FirstIndexOf(s, c);
    if i < |s| {
      var head, rest := s[..i], s[i + 1..];
      var ys := SplitOn(rest, c);
      var xs := [head] + ys;
      assert SplitOn(s, c) == xs;
      JoinSplitOn(rest, c);
      assert xs[0] == head && xs[1..] == ys && |xs| >= 2;
      assert Join(xs, [c]) == head + [c] + Join(ys, [c]);
      assert s[i] == c;
      assert s == head + [c] + rest;
    }
  }

  /** Joining pieces free of the separator and splitting again gives back the pieces. */
  lemma {:induction false} SplitOnJoin(xs: seq<string>, c: char)
    requires |xs| >= 1
    requires forall k :: 0 <= k < |xs| ==> c !in xs[k]
    ensures SplitOn(Join(xs, [c]), c) == xs
  {
    if |xs| == 1 {
      assert FirstIndexOf(xs[0], c) == |xs[0]|;
    } else {
      var s := Join(xs, [c]);
      var tail := Join(xs[1..], [c]);
      assert s == xs[0] + [c] + tail;
      FirstIndexOfAfter(xs[0], c, tail);
      assert s[..|xs[0]|] == xs[0];
      assert s[|xs[0]| + 1..] == tail;
      SplitOnJoin(xs[1..], c);
    }
  }

  lemma FirstIndexOfAfter(a: string, c: char, b: string)
    requires c !in a
    ensures FirstIndexOf(a + [c] + b, c) == |a|
  {
    var s := a + [c] + b;
    assert s[|a|] == c;
    assert s[..|a|] == a;
  }

  /** `filter(Boolean)` on strings: keeps the non-empty ones, in order. */
  function NonEmpty(xs: seq<string>): (r: seq<string>)
    ensures |r| <= |xs|
    ensures forall k :: 0 <= k < |r| ==> r[k] != []
    ensures forall x :: x in r <==> x in xs && x != []
  {
    if xs == [] then [] else (if xs[0] == [] then [] else [xs[0]]) + NonEmpty(xs[1..])
  }

  /** `filter` keeps exactly a one-element list when its element is non-empty. */
  lemma NonEmptyOfOne(x: string)
    ensures NonEmpty([x]) == if x == [] then [] else [x]
  {
    assert [x][1..] == [];
  }

  /** `filter` keeps the order and every copy: filtering a concatenation is
      concatenating the filtered parts. */
  lemma {:induction false} NonEmptyAppend(a: seq<string>, b: seq<string>)
    ensures NonEmpty(a + b) == NonEmpty(a) + NonEmpty(b)
  {
    if a == [] {
      assert a + b == b;
    } else {
      assert (a + b)[0] == a[0];
      assert (a + b)[1..] == a[1..] + b;
      NonEmptyAppend(a[1..], b);
    }
  }

  /** `idx` lists, in increasing order, positions of `xs` at which `kept` is found, and
      every non-empty string of `xs` is at one of them. */
  predicate KeptAt(xs: seq<string>, kept: seq<string>, idx: seq<nat>) {
    && |idx| == |kept|
    && (forall k :: 0 <= k < |idx| ==> idx[k] < |xs| && kept[k] == xs[idx[k]])
    && (forall k, l :: 0 <= k < l < |idx| ==> idx[k] < idx[l])
    && (forall j :: 0 <= j < |xs| && xs[j] != [] ==> j in idx)
  }

  /** The kept strings are the non-empty ones, taken at increasing positions of the
      input; every position that is skipped holds the empty string. */
  lemma {:induction false} NonEmptyPositions(xs: seq<string>) returns (idx: seq<nat>)
    ensures KeptAt(xs, NonEmpty(xs), idx)
  {
    if xs == [] {
      return [];
    }
    var rest := NonEmptyPositions(xs[1..]);
    var shifted := ShiftedPositions(xs, rest);
    if xs[0] == [] {
      assert NonEmpty(xs) == NonEmpty(xs[1..]);
      idx := shifted;
    } else {
      assert NonEmpty(xs) == [xs[0]] + NonEmpty(xs[1..]);
      ConsPositions(xs, NonEmpty(xs[1..]), shifted);
      idx := [0] + shifted;
    }
  }

  /** The positions of the kept strings of `xs[1..]`, moved to positions in `xs`. */
  lemma ShiftedPositions(xs: seq<string>, rest: seq<nat>) returns (shifted: seq<nat>)
    requires xs != [] && KeptAt(xs[1..], NonEmpty(xs[1..]), rest)
    ensures |shifted| == |NonEmpty(xs[1..])|
    ensures forall k :: 0 <= k < |shifted| ==> 1 <= shifted[k] < |xs| && NonEmpty(xs[1..])[k] == xs[shifted[k]]
    ensures forall k, l :: 0 <= k < l < |shifted| ==> shifted[k] < shifted[l]
    ensures forall j :: 1 <= j < |xs| && xs[j] != [] ==> j in shifted
  {
    var tail := xs[1..];
    shifted := seq(|rest|, k requires 0 <= k < |rest| => rest[k] + 1);
    forall k | 0 <= k < |shifted| ensures NonEmpty(tail)[k] == xs[shifted[k]] {
      assert tail[rest[k]] == xs[rest[k] + 1];
    }
    forall j | 1 <= j < |xs| && xs[j] != [] ensures j in shifted {
      assert tail[j - 1] == xs[j];
      var k :| 0 <= k < |rest| && rest[k] == j - 1;
      assert shifted[k] == j;
    }
  }

  /** A non-empty first string is kept at position 0, ahead of the kept rest. */
  lemma ConsPositions(xs: seq<string>, kept: seq<string>, shifted: seq<nat>)
    requires xs != [] && xs[0] != []
    requires |shifted| == |kept|
    requires forall k :: 0 <= k < |shifted| ==> 1 <= shifted[k] < |xs| && kept[k] == xs[shifted[k]]
    requires forall k, l :: 0 <= k < l < |shifted| ==> shifted[k] < shifted[l]
    requires forall j :: 1 <= j < |xs| && xs[j] != [] ==> j in shifted
    ensures KeptAt(xs, [xs[0]] + kept, [0] + shifted)
  {
    var idx := [0] + shifted;
    assert forall k :: 1 <= k < |idx| ==> idx[k] == shifted[k - 1];
  }

  /** The case folding of a regular expression's `i` flag without the `u` flag: only
      the ASCII letters have a different case. */
  function AsciiLower(c: char): (r: char)
    ensures 'A' <= c <= 'Z' ==> r as int == c as int + 32
    ensures !('A' <= c <= 'Z') ==> r == c
  {
    if 'A' <= c <= 'Z' then (c as int + 32) as char else c
  }

  predicate IsAsciiLetter(c: char) {
    ('a' <= c <= 'z') || ('A' <= c <= 'Z')
  }

  predicate IsDigit(c: char) {
    '0' <= c <= '9'
  }

  predicate AllDigits(s: string) {
    forall i :: 0 <= i < |s| ==> IsDigit(s[i])
  }

  function DigitValue(c: char): nat
    requires IsDigit(c)
  {
    c as int - '0' as int
  }

  function DigitChar(d: nat): (c: char)
    requires d < 10
    ensures IsDigit(c) && DigitValue(c) == d
  {
    ('0' as int + d) as char
  }

  /** The decimal rendering of a natural number, as a template literal prints it. */
  function NatToString(n: nat): (r: string)
    ensures r != [] && AllDigits(r)
    decreases n
  {
    if n < 10 then [DigitChar(n)] else NatToString(n / 10) + [DigitChar(n % 10)]
  }

  /** The decimal rendering of an integer. */
  function IntToString(n: int): (r: string)
    ensures r != []
    ensures n < 0 <==> r[0] == '-'
  {
    if n < 0 then "-" + NatToString(-n) else NatToString(n)
  }

  /** `Number()` applied to a run of decimal digits (exactly, without float rounding). */
  function DigitsValue(s: string): nat
    requires AllDigits(s)
  {
    if s == [] then 0 else DigitsValue(s[..|s| - 1]) * 10 + DigitValue(s[|s| - 1])
  }

  /** Reading back a rendered number gives the number. */
  lemma {:induction false} DigitsValueOfNatToString(n: nat)
    ensures DigitsValue(NatToString(n)) == n
    decreases n
  {
    if n >= 10 {
      var s := NatToString(n);
      DigitsValueOfNatToString(n / 10);
      assert s[..|s| - 1] == NatToString(n / 10);
    }
  }

  /** The length of the longest run of digits at the start of `s`: what `\d+` consumes. */
  function DigitRun(s: string): (n: nat)
    ensures n <= |s|
    ensures AllDigits(s[..n])
    ensures n < |s| ==> !IsDigit(s[n])
  {
    if s != [] && IsDigit(s[0]) then
      var k := DigitRun(s[1..]);
      assert s[..k + 1] == [s[0]] + s[1..][..k];
      k + 1
    else 0
  }

  lemma {:induction false} DigitRunOfConcat(d: string, t: string)
    requires AllDigits(d)
    requires t == [] || !IsDigit(t[0])
    ensures DigitRun(d + t) == |d|
  {
    if d != [] {
      assert (d + t)[1..] == d[1..] + t;
      DigitRunOfConcat(d[1..], t);
    }
  }
}
