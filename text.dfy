/** The handful of Rust `str` operations the proxy relies on, over `string`
    (a sequence of Unicode scalar values, as Rust's `char`). */
module Text {
  import opened Wrappers

  /** Rust's `char::is_whitespace`: the Unicode White_Space property. */
  predicate IsWhitespace(c: char)
  {
    || c == ' '
    || ('\t' <= c <= '\r')
    || c == '\U{85}' || c == '\U{A0}' || c == '\U{1680}'
    || ('\U{2000}' <= c <= '\U{200A}')
    || c == '\U{2028}' || c == '\U{2029}' || c == '\U{202F}' || c == '\U{205F}' || c == '\U{3000}'
  }

  predicate AllWhitespace(s: string)
  {
    forall i | 0 <= i < |s| :: IsWhitespace(s[i])
  }

  /** Number of whitespace characters at the start of `s`. */
  function LeadingWhitespace(s: string): (k: nat)
    ensures k <= |s|
    ensures AllWhitespace(s[..k])
    ensures k == |s| || !IsWhitespace(s[k])
  {
    if |s| > 0 && IsWhitespace(s[0]) then
      var k := 1 + LeadingWhitespace(s[1..]);
      assert forall i | 1 <= i < k :: s[..k][i] == s[1..][..k - 1][i - 1];
      k
    else 0
  }

  /** Number of whitespace characters at the end of `s`. */
  function TrailingWhitespace(s: string): (k: nat)
    ensures k <= |s|
    ensures AllWhitespace(s[|s| - k..])
    ensures k == |s| || !IsWhitespace(s[|s| - 1 - k])
  {
    if |s| > 0 && IsWhitespace(s[|s| - 1]) then
      var k := 1 + TrailingWhitespace(s[..|s| - 1]);
      assert s[|s| - k..] == s[..|s| - 1][|s| - k..] + [s[|s| - 1]];
      k
    else 0
  }

  /** `str::trim`: `s` without its leading and trailing whitespace. */
  function Trim(s: string): (r: string)
    ensures |r| <= |s|
    ensures r == [] <==> AllWhitespace(s)
    ensures r != [] ==> !IsWhitespace(r[0]) && !IsWhitespace(r[|r| - 1])
    ensures exists i :: 0 <= i <= |s| - |r| && r == s[i..i + |r|]
                        && AllWhitespace(s[..i]) && AllWhitespace(s[i + |r|..])
  {
    var a := LeadingWhitespace(s);
    var b := TrailingWhitespace(s[a..]);
    assert s[|s| - b..] == s[a..][|s| - a - b..];
    assert b < |s| - a ==> s[|s| - 1 - b] == s[a..][|s| - a - 1 - b];
    TrimBounds(s, a, b);
    s[a..|s| - b]
  }

  lemma TrimBounds(s: string, a: nat, b: nat)
    requires a <= |s| && AllWhitespace(s[..a]) && (a == |s| || !IsWhitespace(s[a]))
    requires b <= |s| - a && AllWhitespace(s[|s| - b..])
    requires b == |s| - a || !IsWhitespace(s[|s| - 1 - b])
    ensures s[a..|s| - b] == [] <==> AllWhitespace(s)
  {
    if a == |s| {
      assert s[..a] == s;
    }
  }

  /** Trimming a line indented by one space gives back its text when that
      text neither starts nor ends with whitespace. */
  lemma TrimIndented(s: string)
    requires s != [] && !IsWhitespace(s[0]) && !IsWhitespace(s[|s| - 1])
    ensures Trim(" " + s) == s
  {
    var line := " " + s;
    assert line[1..] == s;
    assert LeadingWhitespace(line) == 1;
    assert TrailingWhitespace(line[1..]) == 0;
  }

  /** `str::ends_with`. */
  predicate EndsWith(s: string, suffix: string)
  {
    |suffix| <= |s| && s[|s| - |suffix|..] == suffix
  }

  /** `needle` occurs in `s` at position `p`. */
  predicate OccursAt(s: string, needle: string, p: nat)
  {
    p + |needle| <= |s| && s[p..p + |needle|] == needle
  }

  /** `str::contains` for a string pattern. */
  function Contains(s: string, needle: string): (r: bool)
    ensures r <==> exists p: nat :: OccursAt(s, needle, p)
  {
    if needle <= s then
      assert OccursAt(s, needle, 0);
      true
    else if |s| == 0 then
      false
    else
      var r := Contains(s[1..], needle);
      assert forall p: nat :: OccursAt(s[1..], needle, p) <==> OccursAt(s, needle, p + 1) by {
        forall p: nat ensures OccursAt(s[1..], needle, p) <==> OccursAt(s, needle, p + 1) {
          if p + |needle| <= |s[1..]| { assert s[1..][p..p + |needle|] == s[p + 1..p + 1 + |needle|]; }
        }
      }
      assert !OccursAt(s, needle, 0);
      assert forall p: nat :: OccursAt(s, needle, p) ==> p >= 1 && OccursAt(s[1..], needle, p - 1);
      r
  }

  /** `str::rfind`: the last position at which `needle` occurs in `s`. */
  function LastIndexOf(s: string, needle: string): (r: Option<nat>)
    ensures r.Some? ==> OccursAt(s, needle, r.value)
    ensures r.Some? ==> forall q: nat | r.value < q :: !OccursAt(s, needle, q)
    ensures r.None? ==> forall q: nat :: !OccursAt(s, needle, q)
    decreases |s|
  {
    if |s| < |needle| then
      None
    else if s[|s| - |needle|..] == needle then
      Some(|s| - |needle|)
    else
      var shorter := s[..|s| - 1];
      assert forall q: nat :: OccursAt(s, needle, q) ==> q + |needle| < |s| by {
        forall q: nat | OccursAt(s, needle, q) ensures q + |needle| < |s| {
        }
      }
      assert forall q: nat | q + |needle| < |s| :: OccursAt(s, needle, q) <==> OccursAt(shorter, needle, q) by {
        forall q: nat | q + |needle| < |s| ensures OccursAt(s, needle, q) <==> OccursAt(shorter, needle, q) {
          assert shorter[q..q + |needle|] == s[q..q + |needle|];
        }
      }
      LastIndexOf(shorter, needle)
  }

  /** The first position of `c` in `s`. */
  function IndexOf(s: string, c: char): (r: Option<nat>)
    ensures r.Some? ==> r.value < |s| && s[r.value] == c && c !in s[..r.value]
    ensures r.None? <==> c !in s
  {
    if |s| == 0 then None
    else if s[0] == c then Some(0)
    else
      match IndexOf(s[1..], c)
      case None => None
      case Some(i) =>
        assert s[..i + 1] == [s[0]] + s[1..][..i];
        Some(i + 1)
  }

  /** `str::split_once` on a character: the text before and after the first `c`. */
  function SplitOnce(s: string, c: char): (r: Option<(string, string)>)
    ensures r.None? <==> c !in s
    ensures r.Some? ==> s == r.value.0 + [c] + r.value.1 && c !in r.value.0
  {
    match IndexOf(s, c)
    case None => None
    case Some(i) =>
      assert s == s[..i] + [c] + s[i + 1..];
      Some((s[..i], s[i + 1..]))
  }

  /** The split around the first `c` is the only one whose left part has no `c`. */
  lemma SplitOnceOfJoin(a: string, c: char, b: string)
    requires c !in a
    ensures SplitOnce(a + [c] + b, c) == Some((a, b))
  {
    var s := a + [c] + b;
    assert s[|a|] == c;
    var r := SplitOnce(s, c);
    var x, y := r.value.0, r.value.1;
    assert x == s[..|x|];
    assert x == a;
    assert y == s[|a| + 1..] == b;
  }

  /** Joins `parts`, putting `c` between neighbours (`[_]::join`). */
  function JoinWith(parts: seq<string>, c: char): string
  {
    if parts == [] then []
    else if |parts| == 1 then parts[0]
    else parts[0] + [c] + JoinWith(parts[1..], c)
  }

  /** `str::split` on a character: the maximal `c`-free pieces, empty ones included. */
  function Split(s: string, c: char): (r: seq<string>)
    ensures |r| >= 1
    ensures forall i | 0 <= i < |r| :: c !in r[i]
    ensures JoinWith(r, c) == s
    decreases |s|
  {
    match SplitOnce(s, c)
    case None => [s]
    case Some((a, b)) =>
      var rest := Split(b, c);
      assert ([a] + rest)[1..] == rest;
      [a] + rest
  }

  /** Splitting a join gives back the parts. */
  lemma {:induction false} SplitJoin(parts: seq<string>, c: char)
    requires |parts| >= 1
    requires forall i | 0 <= i < |parts| :: c !in parts[i]
    ensures Split(JoinWith(parts, c), c) == parts
  {
    if |parts| > 1 {
      SplitOnceOfJoin(parts[0], c, JoinWith(parts[1..], c));
      SplitJoin(parts[1..], c);
    } else {
      assert c !in parts[0];
    }
  }

  /** Splitting distributes over a separator placed between two strings. */
  lemma SplitAround(a: string, c: char, b: string)
    ensures Split(a + [c] + b, c) == Split(a, c) + Split(b, c)
  {
    var pa, pb := Split(a, c), Split(b, c);
    JoinAppend(pa, pb, c);
    SplitJoin(pa + pb, c);
  }

  lemma {:induction false} JoinAppend(p: seq<string>, q: seq<string>, c: char)
    requires |p| >= 1 && |q| >= 1
    ensures JoinWith(p + q, c) == JoinWith(p, c) + [c] + JoinWith(q, c)
  {
    if |p| > 1 {
      assert (p + q)[1..] == p[1..] + q;
      JoinAppend(p[1..], q, c);
    } else {
      assert (p + q)[1..] == q;
    }
  }

  /** `.filter(|s| !s.is_empty())`: the non-empty elements, in order. */
  function NonEmpty(parts: seq<string>): (r: seq<string>)
    ensures |r| <= |parts|
    ensures forall i | 0 <= i < |r| :: r[i] != [] && r[i] in parts
    ensures forall x | x in parts && x != [] :: x in r
  {
    if parts == [] then []
    else if parts[0] == [] then NonEmpty(parts[1..])
    else [parts[0]] + NonEmpty(parts[1..])
  }

  /** All the strings of `parts`, one after the other. */
  function Concat(parts: seq<string>): string
  {
    if parts == [] then [] else parts[0] + Concat(parts[1..])
  }

  /** `s` with every `c` removed. */
  function Without(s: string, c: char): string
  {
    if s == [] then [] else (if s[0] == c then [] else [s[0]]) + Without(s[1..], c)
  }

  lemma {:induction false} WithoutAppend(a: string, b: string, c: char)
    ensures Without(a + b, c) == Without(a, c) + Without(b, c)
  {
    if a != [] {
      assert (a + b)[1..] == a[1..] + b;
      WithoutAppend(a[1..], b, c);
    } else {
      assert a + b == b;
    }
  }

  lemma {:induction false} WithoutAbsent(a: string, c: char)
    requires c !in a
    ensures Without(a, c) == a
  {
    if a != [] { WithoutAbsent(a[1..], c); }
  }

  lemma {:induction false} ConcatNonEmpty(parts: seq<string>)
    ensures Concat(NonEmpty(parts)) == Concat(parts)
  {
    if parts != [] { ConcatNonEmpty(parts[1..]); }
  }

  /** The pieces of a split, put back together, are the text without its separators. */
  lemma {:induction false} ConcatSplit(s: string, c: char)
    ensures Concat(Split(s, c)) == Without(s, c)
    decreases |s|
  {
    match SplitOnce(s, c)
    case None =>
      assert Split(s, c) == [s];
      WithoutAbsent(s, c);
    case Some((a, b)) =>
      var rest := Split(b, c);
      assert Split(s, c) == [a] + rest;
      ConcatSplit(b, c);
      ConcatCons(a, rest);
      WithoutSeparated(a, c, b);
  }

  lemma ConcatCons(x: string, rest: seq<string>)
    ensures Concat([x] + rest) == x + Concat(rest)
  {
    assert ([x] + rest)[1..] == rest;
  }

  lemma WithoutSeparated(a: string, c: char, b: string)
    requires c !in a
    ensures Without(a + [c] + b, c) == a + Without(b, c)
  {
    var tail := [c] + b;
    assert a + [c] + b == a + tail;
    WithoutAppend(a, tail, c);
    WithoutAbsent(a, c);
    assert tail[0] == c && tail[1..] == b;
    assert Without(tail, c) == Without(b, c);
  }

  /** Splitting on `c` and dropping empty pieces keeps every other character, in order. */
  lemma SplitNonEmptyKeepsText(s: string, c: char)
    ensures Concat(NonEmpty(Split(s, c))) == Without(s, c)
  {
    ConcatNonEmpty(Split(s, c));
    ConcatSplit(s, c);
  }
}
