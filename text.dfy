/**
 * The String operations the service relies on, over sequences of Unicode
 * scalar values: prefix/suffix/substring tests, `prefix(while:)`,
 * `lastIndex(of:)`, `split(separator:)`, `joined(separator:)`,
 * `replacingOccurrences(of:with:)`, ordering and `%d` formatting.
 */
module Text {
  import opened Wrappers

  /** `s.hasPrefix(p)`. */
  predicate HasPrefix(s: string, p: string) {
    |p| <= |s| && s[..|p|] == p
  }

  /** `s.hasSuffix(p)`. */
  predicate HasSuffix(s: string, p: string) {
    |p| <= |s| && s[|s| - |p|..] == p
  }

  /** `p` occurs in `s` starting at index `i`. */
  predicate OccursAt(s: string, p: string, i: int) {
    0 <= i <= |s| - |p| && s[i..i + |p|] == p
  }

  /** `s.contains(p)` for a string argument: `p` is a contiguous part of `s`. */
  predicate Contains(s: string, p: string) {
    exists i | 0 <= i <= |s| - |p| :: OccursAt(s, p, i)
  }

  /** A string cannot contain a pattern one of whose characters it lacks. */
  lemma AbsentCharNotContained(s: string, p: string, c: char)
    requires c in p && c !in s
    ensures !Contains(s, p)
  {
    var k :| 0 <= k < |p| && p[k] == c;
    forall i | 0 <= i <= |s| - |p|
      ensures !OccursAt(s, p, i)
    {
      assert s[i..i + |p|][k] == s[i + k] != c;
    }
  }

  /** If two strings both begin a third, the shorter begins the longer. */
  lemma PrefixesComparable(s: string, p: string, q: string)
    requires HasPrefix(s, p) && HasPrefix(s, q) && |p| <= |q|
    ensures HasPrefix(q, p)
  {
    assert q[..|p|] == s[..|q|][..|p|] == s[..|p|];
  }

  /** Strings that differ at a common index begin neither one the other. */
  lemma DivergeAt(p: string, q: string, i: nat)
    requires i < |p| && i < |q| && p[i] != q[i]
    ensures !HasPrefix(p, q) && !HasPrefix(q, p)
  {
    if |q| <= |p| {
      assert p[..|q|][i] == p[i] != q[i];
    }
    if |p| <= |q| {
      assert q[..|p|][i] == q[i] != p[i];
    }
  }

  /** `s.prefix(while: { $0 != c })`: the longest prefix of `s` free of `c`. */
  function TakeUntil(s: string, c: char): (r: string)
    ensures HasPrefix(s, r)
    ensures c !in r
    ensures |r| == |s| || s[|r|] == c
  {
    if s == [] || s[0] == c then [] else [s[0]] + TakeUntil(s[1..], c)
  }

  lemma {:induction false} TakeUntilAbsent(s: string, c: char)
    requires c !in s
    ensures TakeUntil(s, c) == s
  {
    if s != [] {
      TakeUntilAbsent(s[1..], c);
    }
  }

  lemma {:induction false} TakeUntilStopsAt(a: string, c: char, b: string)
    requires c !in a
    ensures TakeUntil(a + [c] + b, c) == a
  {
    if a != [] {
      assert (a + [c] + b)[1..] == a[1..] + [c] + b;
      TakeUntilStopsAt(a[1..], c, b);
    }
  }

  /** `s.lastIndex(of: c)`. */
  function LastIndexOf(s: string, c: char): (r: Option<nat>)
    ensures r.None? <==> c !in s
    ensures r.Some? ==> r.value < |s| && s[r.value] == c && c !in s[r.value + 1..]
  {
    if s == [] then None
    else if s[|s| - 1] == c then Some(|s| - 1)
    else
      var r := LastIndexOf(s[..|s| - 1], c);
      assert s == s[..|s| - 1] + [s[|s| - 1]];
      r
  }

  /** An occurrence of `c` with none after it is the last one. */
  lemma LastIndexOfIsLast(s: string, c: char, k: nat)
    requires k < |s| && s[k] == c && c !in s[k + 1..]
    ensures LastIndexOf(s, c) == Some(k)
  {
    assert s[k] in s;
    var r := LastIndexOf(s, c).value;
    forall j | r < j < |s|
      ensures s[j] != c
    {
      assert s[j] == s[r + 1..][j - r - 1];
    }
    forall j | k < j < |s|
      ensures s[j] != c
    {
      assert s[j] == s[k + 1..][j - k - 1];
    }
  }

  /** `parts.joined(separator: sep)`. */
  function Join(parts: seq<string>, sep: string): string {
    if |parts| == 0 then []
    else if |parts| == 1 then parts[0]
    else parts[0] + sep + Join(parts[1..], sep)
  }

  /**
   * `s.split(separator: sep)` with Swift's defaults: the maximal runs of
   * characters other than `sep`, in order; empty runs are omitted.
   */
  function Split(s: string, sep: char): (parts: seq<string>)
    ensures forall i :: 0 <= i < |parts| ==> parts[i] != [] && sep !in parts[i]
    decreases |s|
  {
    if s == [] then []
    else if s[0] == sep then Split(s[1..], sep)
    else
      var word := TakeUntil(s, sep);
      [word] + Split(s[|word|..], sep)
  }

  /** Splitting introduces no character: one absent from `s` is absent from every piece. */
  lemma {:induction false} SplitKeepsCharacters(s: string, sep: char, c: char)
    requires c !in s
    ensures forall i :: 0 <= i < |Split(s, sep)| ==> c !in Split(s, sep)[i]
    decreases |s|
  {
    if s != [] {
      if s[0] == sep {
        assert forall j :: 0 <= j < |s[1..]| ==> s[1..][j] == s[j + 1];
        SplitKeepsCharacters(s[1..], sep, c);
      } else {
        var word := TakeUntil(s, sep);
        assert word == s[..|word|];
        assert forall j :: 0 <= j < |s[|word|..]| ==> s[|word|..][j] == s[|word| + j];
        SplitKeepsCharacters(s[|word|..], sep, c);
      }
    }
  }

  /** A first piece free of the separator, then the separator, splits off as one piece. */
  lemma SplitFirstPiece(first: string, sep: char, rest: string)
    requires first != [] && sep !in first
    ensures Split(first + [sep] + rest, sep) == [first] + Split(rest, sep)
  {
    var s := first + [sep] + rest;
    assert s == first + ([sep] + rest);
    TakeUntilStopsAt(first, sep, rest);
    assert s[|first|..] == [sep] + rest;
    assert ([sep] + rest)[1..] == rest;
  }

  /** Splitting undoes joining, for non-empty pieces free of the separator. */
  lemma {:induction false} SplitJoin(parts: seq<string>, sep: char)
    requires forall i :: 0 <= i < |parts| ==> parts[i] != [] && sep !in parts[i]
    ensures Split(Join(parts, [sep]), sep) == parts
  {
    if |parts| == 1 {
      TakeUntilAbsent(parts[0], sep);
      assert Join(parts, [sep])[|parts[0]|..] == [];
    } else if |parts| > 1 {
      SplitFirstPiece(parts[0], sep, Join(parts[1..], [sep]));
      SplitJoin(parts[1..], sep);
      assert parts == [parts[0]] + parts[1..];
    }
  }

  /**
   * Joining undoes splitting when `s` has no empty run: it neither begins
   * nor ends with `sep` and never repeats it.
   */
  lemma {:induction false} JoinSplit(s: string, sep: char)
    requires s == [] || (s[0] != sep && s[|s| - 1] != sep)
    requires forall i :: 0 <= i < |s| - 1 ==> !(s[i] == sep && s[i + 1] == sep)
    ensures Join(Split(s, sep), [sep]) == s
    decreases |s|
  {
    if s != [] {
      var word := TakeUntil(s, sep);
      if |word| == |s| {
        assert s[|word|..] == [];
        assert word == s;
      } else {
        var rest := s[|word| + 1..];
        assert s[|word|..] == [sep] + rest;
        assert ([sep] + rest)[1..] == rest;
        assert |word| + 1 < |s|;
        assert rest[0] == s[|word| + 1] != sep;
        forall i | 0 <= i < |rest| - 1
          ensures !(rest[i] == sep && rest[i + 1] == sep)
        {
          assert rest[i] == s[|word| + 1 + i] && rest[i + 1] == s[|word| + 2 + i];
        }
        JoinSplit(rest, sep);
        var tail := Split(rest, sep);
        assert tail != [] by {
          assert rest[0] != sep;
        }
        assert Split(s, sep) == [word] + tail;
        assert s == word + [sep] + rest;
      }
    }
  }

  /** Swift's `<` on strings: lexicographic by character code. */
  predicate Less(a: string, b: string) {
    |b| > 0 && (|a| == 0 || a[0] < b[0] || (a[0] == b[0] && Less(a[1..], b[1..])))
  }

  lemma {:induction false} LessIrreflexive(a: string)
    ensures !Less(a, a)
  {
    if |a| > 0 {
      LessIrreflexive(a[1..]);
    }
  }

  lemma {:induction false} LessTransitive(a: string, b: string, c: string)
    requires Less(a, b) && Less(b, c)
    ensures Less(a, c)
  {
    if |a| > 0 && a[0] == b[0] && b[0] == c[0] {
      LessTransitive(a[1..], b[1..], c[1..]);
    }
  }

  lemma {:induction false} LessTotal(a: string, b: string)
    requires a != b
    ensures Less(a, b) || Less(b, a)
  {
    if |a| > 0 && |b| > 0 && a[0] == b[0] {
      assert a == [a[0]] + a[1..] && b == [b[0]] + b[1..];
      LessTotal(a[1..], b[1..]);
    }
  }

  lemma LessIsStrictTotalOrder()
    ensures forall a :: !Less(a, a)
    ensures forall a, b, c :: Less(a, b) && Less(b, c) ==> Less(a, c)
    ensures forall a, b :: a != b ==> Less(a, b) || Less(b, a)
  {
    forall a ensures !Less(a, a) {
      LessIrreflexive(a);
    }
    forall a, b, c | Less(a, b) && Less(b, c) ensures Less(a, c) {
      LessTransitive(a, b, c);
    }
    forall a, b | a != b ensures Less(a, b) || Less(b, a) {
      LessTotal(a, b);
    }
  }

  /** Two strings agreeing up to index `k`, where `a` has the smaller character, are ordered. */
  lemma {:induction false} LessAtFirstDifference(a: string, b: string, k: nat)
    requires k < |a| && k < |b| && a[..k] == b[..k] && a[k] < b[k]
    ensures Less(a, b)
  {
    if k > 0 {
      assert a[0] == a[..k][0] == b[..k][0] == b[0];
      assert a[1..][..k - 1] == a[..k][1..] == b[..k][1..] == b[1..][..k - 1];
      LessAtFirstDifference(a[1..], b[1..], k - 1);
    }
  }

  /** `prefix(1).uppercased()`, for ASCII letters; every other character is kept. */
  function ToUpper(c: char): char {
    if 'a' <= c <= 'z' then (c as int - 32) as char else c
  }

  /** `w.prefix(1).uppercased() + w.dropFirst()`. */
  function Capitalize(w: string): (r: string)
    ensures |r| == |w|
    ensures |w| > 0 ==> r[0] == ToUpper(w[0]) && r[1..] == w[1..]
  {
    if w == [] then [] else [ToUpper(w[0])] + w[1..]
  }

  /**
   * `s.replacingOccurrences(of: pat, with: rep)`: every occurrence of `pat`,
   * found left to right without overlap, becomes `rep`.
   */
  function ReplaceAll(s: string, pat: string, rep: string): string
    requires pat != []
    decreases |s|
  {
    if |s| < |pat| then s
    else if HasPrefix(s, pat) then rep + ReplaceAll(s[|pat|..], pat, rep)
    else [s[0]] + ReplaceAll(s[1..], pat, rep)
  }

  /** No occurrence can start inside a part that lacks the pattern's first character. */
  lemma {:induction false} ReplaceAllSkips(a: string, b: string, pat: string, rep: string)
    requires pat != [] && pat[0] !in a
    ensures ReplaceAll(a + b, pat, rep) == a + ReplaceAll(b, pat, rep)
  {
    if a != [] {
      var s := a + b;
      assert s[1..] == a[1..] + b;
      ReplaceAllSkips(a[1..], b, pat, rep);
      assert a == [a[0]] + a[1..];
      if |s| >= |pat| {
        assert s[..|pat|][0] == a[0] != pat[0];
        calc {
          ReplaceAll(s, pat, rep);
          [a[0]] + ReplaceAll(a[1..] + b, pat, rep);
          [a[0]] + (a[1..] + ReplaceAll(b, pat, rep));
          a + ReplaceAll(b, pat, rep);
        }
      } else {
        assert ReplaceAll(s, pat, rep) == s;
        assert ReplaceAll(b, pat, rep) == b;
      }
    } else {
      assert a + b == b;
    }
  }

  /** A string holding no occurrence is left unchanged. */
  lemma ReplaceAllShort(s: string, pat: string, rep: string)
    requires pat != [] && |s| < |pat|
    ensures ReplaceAll(s, pat, rep) == s
  {
  }

  function DigitChar(d: nat): char
    requires d < 10
  {
    ('0' as int + d) as char
  }

  /** The decimal digits of `n`, most significant first, without leading zeros. */
  function NaturalString(n: nat): (r: string)
    ensures |r| > 0
    ensures forall i :: 0 <= i < |r| ==> '0' <= r[i] <= '9'
    ensures n >= 10 ==> r[0] != '0'
  {
    if n < 10 then [DigitChar(n)] else NaturalString(n / 10) + [DigitChar(n % 10)]
  }

  /** `String(format: "%d", n)`. */
  function DecimalString(n: int): string {
    if n < 0 then "-" + NaturalString(-n) else NaturalString(n)
  }

  /** The number a string of decimal digits denotes. */
  function DigitsValue(s: string): int {
    if s == [] then 0 else 10 * DigitsValue(s[..|s| - 1]) + (s[|s| - 1] as int - '0' as int)
  }

  /** Formatting a natural number loses nothing: reading its digits back gives it again. */
  lemma {:induction false} NaturalStringRoundTrip(n: nat)
    ensures DigitsValue(NaturalString(n)) == n
  {
    if n >= 10 {
      var r := NaturalString(n);
      assert r[..|r| - 1] == NaturalString(n / 10);
      NaturalStringRoundTrip(n / 10);
    }
  }
}
