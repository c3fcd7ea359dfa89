/** String operations the modelled code takes from Rust's standard library
    (`trim`, `split`, `contains`, `starts_with`, `trim_start_matches`,
    `to_ascii_lowercase`, `replace`, `join`, integer `Display`) and the
    case conversion of the `convert_case` crate, which stays uninterpreted. */
module Text {

  import opened Wrappers

  /** `to_case(Case::Pascal)` and `to_case(Case::Camel)` of `convert_case`: not
      re-implemented; every property below holds for any pair of functions. */
  datatype Casing = Casing(pascal: string -> string, camel: string -> string)

  /** The Unicode White_Space property: what `str::trim` removes and what `\s`
      matches in the `regex` crate. */
  predicate IsWhitespace(c: char) {
    || ('\U{9}' <= c <= '\U{D}') || c == ' ' || c == '\U{85}' || c == '\U{A0}'
    || c == '\U{1680}' || ('\U{2000}' <= c <= '\U{200A}') || c == '\U{2028}'
    || c == '\U{2029}' || c == '\U{202F}' || c == '\U{205F}' || c == '\U{3000}'
  }

  /** `s.trim().is_empty()`. */
  predicate IsBlank(s: string) {
    forall i :: 0 <= i < |s| ==> IsWhitespace(s[i])
  }

  predicate IsAsciiDigit(c: char) { '0' <= c <= '9' }

  predicate IsAsciiLower(c: char) { 'a' <= c <= 'z' }

  predicate IsAsciiUpper(c: char) { 'A' <= c <= 'Z' }

  predicate AllDigits(s: string) {
    forall i :: 0 <= i < |s| ==> IsAsciiDigit(s[i])
  }

  function DigitChar(d: nat): (c: char)
    requires d < 10
    ensures IsAsciiDigit(c) && c as int - '0' as int == d
  {
    ('0' as int + d) as char
  }

  /** Decimal text of a natural number, as `{}` formats an unsigned integer. */
  function NatToString(n: nat): string
    decreases n
  {
    if n < 10 then [DigitChar(n)] else NatToString(n / 10) + [DigitChar(n % 10)]
  }

  /** Decimal text of an integer, with a leading '-' when negative. */
  function IntToString(i: int): string {
    if i < 0 then "-" + NatToString(-i) else NatToString(i)
  }

  /** The number a run of ASCII digits denotes. */
  function DigitsValue(s: string): nat
    requires AllDigits(s)
    decreases |s|
  {
    if s == [] then 0
    else DigitsValue(s[..|s| - 1]) * 10 + (s[|s| - 1] as int - '0' as int)
  }

  /** Rendering a natural number gives a non-empty run of digits that reads back as it. */
  lemma {:induction false} NatToStringRoundTrip(n: nat)
    ensures |NatToString(n)| >= 1 && AllDigits(NatToString(n))
    ensures DigitsValue(NatToString(n)) == n
    decreases n
  {
    if n >= 10 {
      NatToStringRoundTrip(n / 10);
      var s := NatToString(n);
      assert s[..|s| - 1] == NatToString(n / 10);
    }
  }

  /** `parts.join(sep)`. */
  function Join(parts: seq<string>, sep: string): string
    decreases |parts|
  {
    if |parts| == 0 then ""
    else if |parts| == 1 then parts[0]
    else parts[0] + sep + Join(parts[1..], sep)
  }

  predicate StartsWith(s: string, prefix: string) {
    |prefix| <= |s| && s[..|prefix|] == prefix
  }

  predicate EndsWith(s: string, suffix: string) {
    |suffix| <= |s| && s[|s| - |suffix|..] == suffix
  }

  lemma PrefixOfConcat(a: string, b: string)
    ensures StartsWith(a + b, a)
  {
    assert (a + b)[..|a|] == a;
  }

  /** Text written between a head and a tail starts with the head and ends with the tail. */
  lemma Bracketed(h: string, m: string, t: string)
    ensures StartsWith(h + m + t, h) && EndsWith(h + m + t, t) && EndsWith(h + m + t, m + t)
  {
    var s := h + m + t;
    assert s[..|h|] == h;
    assert s[|s| - |t|..] == t;
    assert s[|h|..] == m + t;
  }

  /** A prefix of a prefix is a prefix. */
  lemma StartsWithPart(s: string, p: string, q: string)
    requires StartsWith(s, p + q)
    ensures StartsWith(s, p)
  {
    assert s[..|p|] == (p + q)[..|p|] == p;
  }

  lemma SuffixOfConcat(a: string, b: string)
    ensures EndsWith(a + b, b)
  {
    assert (a + b)[|a|..] == b;
  }

  /** A prefix stays a prefix when text is added after it, or the same text before both. */
  lemma StartsWithExtend(s: string, p: string, t: string)
    requires StartsWith(s, p)
    ensures StartsWith(s + t, p) && StartsWith(t + s, t + p)
  {
    assert (s + t)[..|p|] == s[..|p|];
    assert (t + s)[..|t + p|] == t + s[..|p|];
  }

  /** A suffix stays a suffix when text is added before it, or the same text after both. */
  lemma EndsWithExtend(s: string, q: string, t: string)
    requires EndsWith(s, q)
    ensures EndsWith(t + s, q) && EndsWith(s + t, q + t)
  {
    assert (t + s)[|t + s| - |q|..] == s[|s| - |q|..];
    assert (s + t)[|s + t| - |q + t|..] == s[|s| - |q|..] + t;
  }

  lemma MiddleOfConcat(a: string, b: string, c: string)
    ensures MatchAt(a + b + c, b, |a|) && Contains(a + b + c, b)
  {
    var s := a + b + c;
    assert s[|a|..|a| + |b|] == b;
    assert MatchAt(s, b, |a|);
  }

  /** Of five pieces put together, the first is a prefix, the middle one
      occurs inside and the last is a suffix. */
  lemma Framed(h: string, a: string, m: string, b: string, t: string)
    ensures StartsWith(h + a + m + b + t, h)
    ensures Contains(h + a + m + b + t, m)
    ensures EndsWith(h + a + m + b + t, t)
  {
    var s := h + a + m + b + t;
    assert s[..|h|] == h;
    assert s[|h| + |a|..|h| + |a| + |m|] == m;
    assert MatchAt(s, m, |h| + |a|);
    assert s[|s| - |t|..] == t;
  }

  /** `s.contains(t)`: t occurs in s as a contiguous piece. */
  predicate Contains(s: string, t: string) {
    exists k | 0 <= k <= |s| - |t| :: MatchAt(s, t, k)
  }

  /** t occurs in s starting at position k. */
  predicate MatchAt(s: string, t: string, k: int) {
    0 <= k && k + |t| <= |s| && s[k..k + |t|] == t
  }

  /** `s.to_ascii_lowercase()`: only 'A'..'Z' change. */
  function AsciiLower(s: string): (r: string)
    ensures |r| == |s|
    ensures forall i :: 0 <= i < |s| ==> r[i] == if IsAsciiUpper(s[i]) then (s[i] as int + 32) as char else s[i]
  {
    seq(|s|, i requires 0 <= i < |s| => if IsAsciiUpper(s[i]) then (s[i] as int + 32) as char else s[i])
  }

  /** `s.replace(c, "")` for a one-character pattern. */
  function RemoveChar(s: string, c: char): string
    decreases |s|
  {
    if s == [] then []
    else (if s[0] == c then [] else [s[0]]) + RemoveChar(s[1..], c)
  }

  lemma {:induction false} RemoveCharRemoves(s: string, c: char)
    ensures c !in RemoveChar(s, c)
    ensures |RemoveChar(s, c)| <= |s|
    decreases |s|
  {
    if s != [] {
      RemoveCharRemoves(s[1..], c);
    }
  }

  /** `s.trim_start_matches(c)`: every leading c removed, and nothing else. */
  function TrimStartChar(s: string, c: char): (r: string)
    ensures |r| <= |s| && s[|s| - |r|..] == r
    ensures r == [] || r[0] != c
    ensures forall i :: 0 <= i < |s| - |r| ==> s[i] == c
    decreases |s|
  {
    if s != [] && s[0] == c then TrimStartChar(s[1..], c) else s
  }

  /** The first position of a non-empty pattern in s, at or after `from`. */
  function FindFrom(s: string, d: string, from: nat): (r: Option<nat>)
    requires |d| > 0
    ensures r.Some? ==> from <= r.value && MatchAt(s, d, r.value)
    ensures r.Some? ==> forall k :: from <= k < r.value ==> !MatchAt(s, d, k)
    ensures r.None? ==> forall k :: from <= k ==> !MatchAt(s, d, k)
    decreases |s| - from
  {
    if from + |d| > |s| then None
    else if s[from..from + |d|] == d then Some(from)
    else FindFrom(s, d, from + 1)
  }

  /** `s.split(d)` for a non-empty string pattern: the pieces between the
      leftmost non-overlapping occurrences of d. */
  function Split(s: string, d: string): (r: seq<string>)
    requires |d| > 0
    ensures |r| >= 1
    decreases |s|
  {
    match FindFrom(s, d, 0)
    case None => [s]
    case Some(k) => [s[..k]] + Split(s[k + |d|..], d)
  }

  /** Number of leftmost non-overlapping occurrences of d, counted by a scan. */
  function CountOccurrences(s: string, d: string): nat
    requires |d| > 0
    decreases |s|
  {
    if |s| < |d| then 0
    else if s[..|d|] == d then 1 + CountOccurrences(s[|d|..], d)
    else CountOccurrences(s[1..], d)
  }

  lemma {:induction false} CountSkipsNonMatches(s: string, d: string, k: nat)
    requires |d| > 0 && k <= |s|
    requires forall j :: 0 <= j < k ==> !MatchAt(s, d, j)
    ensures CountOccurrences(s, d) == CountOccurrences(s[k..], d)
    decreases k
  {
    if k > 0 {
      if |s| < |d| {
        CountShortIsZero(s[k..], d);
      } else {
        assert !MatchAt(s, d, 0);
        assert s[..|d|] == s[0..0 + |d|];
        forall j | 0 <= j < k - 1
          ensures !MatchAt(s[1..], d, j)
        {
          MatchAtShift(s, d, j);
        }
        CountSkipsNonMatches(s[1..], d, k - 1);
        assert s[1..][k - 1..] == s[k..];
      }
    }
  }

  /** A match in the tail is a match one position further in the whole. */
  lemma MatchAtShift(s: string, d: string, j: nat)
    requires |s| > 0
    ensures MatchAt(s[1..], d, j) <==> MatchAt(s, d, j + 1)
  {
    if j + |d| <= |s| - 1 {
      assert s[1..][j..j + |d|] == s[j + 1..j + 1 + |d|];
    }
  }

  lemma CountShortIsZero(s: string, d: string)
    requires |d| > 0 && |s| < |d|
    ensures CountOccurrences(s, d) == 0
  {
  }

  /** Splitting yields one more piece than there are occurrences of the pattern. */
  lemma {:induction false} SplitCount(s: string, d: string)
    requires |d| > 0
    ensures |Split(s, d)| == CountOccurrences(s, d) + 1
    decreases |s|
  {
    match FindFrom(s, d, 0)
    case None =>
      CountSkipsNonMatches(s, d, |s|);
      CountShortIsZero(s[|s|..], d);
    case Some(k) =>
      CountSkipsNonMatches(s, d, k);
      assert s[k..][..|d|] == s[k..k + |d|] == d;
      assert s[k..][|d|..] == s[k + |d|..];
      SplitCount(s[k + |d|..], d);
  }

  /** Joining the pieces with the pattern restores the text. */
  lemma {:induction false} JoinSplit(s: string, d: string)
    requires |d| > 0
    ensures Join(Split(s, d), d) == s
    decreases |s|
  {
    match FindFrom(s, d, 0)
    case None =>
    case Some(k) =>
      JoinSplit(s[k + |d|..], d);
      var rest := Split(s[k + |d|..], d);
      assert Split(s, d) == [s[..k]] + rest;
      assert |[s[..k]] + rest| >= 2;
      assert ([s[..k]] + rest)[1..] == rest;
      assert s == s[..k] + d + s[k + |d|..];
  }

  /** Splitting at a single-character separator cuts at its first occurrence. */
  lemma SplitAtFirst(a: string, b: string, c: char)
    requires c !in a
    ensures Split(a + [c] + b, [c]) == [a] + Split(b, [c])
  {
    var s := a + [c] + b;
    assert MatchAt(s, [c], |a|) by { assert s[|a|..|a| + 1] == [c]; }
    forall k | 0 <= k < |a| ensures !MatchAt(s, [c], k) {
      assert s[k..k + 1] == [a[k]];
    }
    var f := FindFrom(s, [c], 0);
    assert f == Some(|a|);
    assert s[..|a|] == a;
    assert s[|a| + 1..] == b;
  }

  /** Splitting the pieces joined by a single-character separator, with one
      more separator at the end, gives the pieces back and an empty tail, as
      long as no piece holds the separator. */
  lemma {:induction false} SplitJoinTerminated(parts: seq<string>, c: char)
    requires |parts| >= 1
    requires forall i | 0 <= i < |parts| :: c !in parts[i]
    ensures Split(Join(parts, [c]) + [c], [c]) == parts + [""]
    decreases |parts|
  {
    if |parts| == 1 {
      SplitTerminatedOne(parts[0], c);
      assert parts == [parts[0]];
    } else {
      var rest := parts[1..];
      var tail := Join(rest, [c]) + [c];
      AppendAssoc(parts[0] + [c], Join(rest, [c]), [c]);
      SplitAtFirst(parts[0], tail, c);
      forall i | 0 <= i < |rest| ensures c !in rest[i] {
        assert rest[i] == parts[i + 1];
      }
      SplitJoinTerminated(rest, c);
      assert parts == [parts[0]] + rest;
      AppendAssoc([parts[0]], rest, [""]);
    }
  }

  lemma SplitTerminatedOne(a: string, c: char)
    requires c !in a
    ensures Split(a + [c], [c]) == [a, ""]
  {
    assert a + [c] == a + [c] + "";
    SplitAtFirst(a, "", c);
    assert FindFrom("", [c], 0) == None;
  }

  lemma AppendAssoc<T>(a: seq<T>, b: seq<T>, t: seq<T>)
    ensures (a + b) + t == a + (b + t)
  {
  }

  /** One line per item, in order. */
  function Lines<T>(xs: seq<T>, line: T --> string): string
    requires forall i | 0 <= i < |xs| :: line.requires(xs[i])
    decreases |xs|
  {
    if xs == [] then "" else Lines(xs[..|xs| - 1], line) + line(xs[|xs| - 1])
  }

  /** The lines of two runs of items are those of the first, then those of the second. */
  lemma {:induction false} LinesAppend<T>(a: seq<T>, b: seq<T>, line: T --> string)
    requires forall i | 0 <= i < |a| :: line.requires(a[i])
    requires forall i | 0 <= i < |b| :: line.requires(b[i])
    ensures forall i | 0 <= i < |a + b| :: line.requires((a + b)[i])
    ensures Lines(a + b, line) == Lines(a, line) + Lines(b, line)
    decreases |b|
  {
    assert forall i | 0 <= i < |a + b| :: (a + b)[i] == if i < |a| then a[i] else b[i - |a|];
    if b == [] {
      assert a + b == a;
    } else {
      var b' := b[..|b| - 1];
      assert forall i | 0 <= i < |b'| :: b'[i] == b[i];
      LinesAppend(a, b', line);
      assert (a + b)[..|a + b| - 1] == a + b';
      assert (a + b)[|a + b| - 1] == b[|b| - 1];
    }
  }

  /** Extending the items by one adds that item's line. */
  lemma LinesSnoc<T>(xs: seq<T>, n: nat, line: T --> string)
    requires n < |xs|
    requires forall i | 0 <= i < |xs| :: line.requires(xs[i])
    ensures Lines(xs[..n + 1], line) == Lines(xs[..n], line) + line(xs[n])
  {
    assert xs[..n + 1][..n] == xs[..n];
  }

  /** Concatenation of a list of strings. */
  function Concat(parts: seq<string>): string
    decreases |parts|
  {
    if parts == [] then "" else parts[0] + Concat(parts[1..])
  }

  /** f applied to each element, in order. */
  function MapSeq<T, U>(xs: seq<T>, f: T -> U): seq<U>
    decreases |xs|
  {
    if xs == [] then [] else MapSeq(xs[..|xs| - 1], f) + [f(xs[|xs| - 1])]
  }

  /** The i-th result is f of the i-th element. */
  lemma {:induction false} MapSeqAt<T, U>(xs: seq<T>, f: T -> U)
    ensures |MapSeq(xs, f)| == |xs|
    ensures forall i | 0 <= i < |xs| :: MapSeq(xs, f)[i] == f(xs[i])
    decreases |xs|
  {
    if xs != [] {
      var init := xs[..|xs| - 1];
      MapSeqAt(init, f);
      forall i | 0 <= i < |xs|
        ensures MapSeq(xs, f)[i] == f(xs[i])
      {
        if i < |init| {
          assert xs[i] == init[i];
        }
      }
    }
  }

  /** Extending the elements by one appends f of it. */
  lemma MapSeqSnoc<T, U>(xs: seq<T>, n: nat, f: T -> U)
    requires n < |xs|
    ensures MapSeq(xs[..n + 1], f) == MapSeq(xs[..n], f) + [f(xs[n])]
  {
    assert xs[..n + 1][..n] == xs[..n];
  }

  /** The concatenation of what f gives for each element, in order. */
  function ConcatMap<T, U>(xs: seq<T>, f: T -> seq<U>): seq<U>
    decreases |xs|
  {
    if xs == [] then [] else ConcatMap(xs[..|xs| - 1], f) + f(xs[|xs| - 1])
  }

  /** Everything in a concatenation comes from some element. */
  lemma {:induction false} ConcatMapSound<T, U>(xs: seq<T>, f: T -> seq<U>, y: U)
    requires y in ConcatMap(xs, f)
    ensures exists i | 0 <= i < |xs| :: y in f(xs[i])
    decreases |xs|
  {
    var init := xs[..|xs| - 1];
    if y in ConcatMap(init, f) {
      ConcatMapSound(init, f, y);
      var i :| 0 <= i < |init| && y in f(init[i]);
      assert xs[i] == init[i];
    } else {
      assert y in f(xs[|init|]);
    }
  }

  /** What any element gives is in the concatenation. */
  lemma {:induction false} ConcatMapComplete<T, U>(xs: seq<T>, f: T -> seq<U>, y: U, i: nat)
    requires i < |xs| && y in f(xs[i])
    ensures y in ConcatMap(xs, f)
    decreases |xs|
  {
    var init := xs[..|xs| - 1];
    if i < |init| {
      assert init[i] == xs[i];
      ConcatMapComplete(init, f, y, i);
    }
    InEither(ConcatMap(init, f), f(xs[|init|]), y);
  }

  /** An element of either part is an element of the concatenation. */
  lemma InEither<T>(a: seq<T>, b: seq<T>, x: T)
    requires x in a || x in b
    ensures x in a + b
  {
    if x in a {
      var j :| 0 <= j < |a| && a[j] == x;
      assert (a + b)[j] == x;
    } else {
      var j :| 0 <= j < |b| && b[j] == x;
      assert (a + b)[|a| + j] == x;
    }
  }
}
