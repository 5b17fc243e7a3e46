/** The string operations of JavaScript that the report generator relies on:
    `join`, `split`, `startsWith`, `endsWith`, `includes` and decimal rendering of numbers. */
module Strings {

  predicate StartsWith(s: string, prefix: string) {
    |prefix| <= |s| && s[..|prefix|] == prefix
  }

  /** Text added after a prefix leaves it a prefix. */
  lemma StartsWithExtend(s: string, prefix: string, t: string)
    requires StartsWith(s, prefix)
    ensures StartsWith(s + t, prefix)
  {
    assert (s + t)[..|prefix|] == s[..|prefix|];
  }

  predicate EndsWith(s: string, suffix: string) {
    |suffix| <= |s| && s[|s| - |suffix|..] == suffix
  }

  /** `sub` occurs in `s` starting at index `i`. */
  predicate OccursAt(s: string, sub: string, i: int) {
    0 <= i && i + |sub| <= |s| && s[i..i + |sub|] == sub
  }

  /** `s.includes(sub)` */
  predicate Contains(s: string, sub: string) {
    exists i :: 0 <= i <= |s| && OccursAt(s, sub, i)
  }

  /** `parts.join(sep)` */
  function Join(parts: seq<string>, sep: string): string {
    if |parts| == 0 then ""
    else if |parts| == 1 then parts[0]
    else Join(parts[..|parts| - 1], sep) + sep + parts[|parts| - 1]
  }

  /** Joining two non-empty lists puts one separator between their joins. */
  lemma {:induction false} JoinConcat(a: seq<string>, b: seq<string>, sep: string)
    requires |a| > 0 && |b| > 0
    ensures Join(a + b, sep) == Join(a, sep) + sep + Join(b, sep)
    decreases |b|
  {
    if |b| == 1 {
      assert (a + b)[..|a + b| - 1] == a;
    } else {
      var b' := b[..|b| - 1];
      assert (a + b)[..|a + b| - 1] == a + b';
      JoinConcat(a, b', sep);
    }
  }

  /** A join ends with the last part, so it is at least as long. */
  lemma JoinEndsWithLast(parts: seq<string>, sep: string)
    requires |parts| > 0
    ensures EndsWith(Join(parts, sep), parts[|parts| - 1])
  {
  }

  /** The join starts with the first part. */
  lemma {:induction false} JoinStartsWithFirst(parts: seq<string>, sep: string)
    requires |parts| > 0
    ensures StartsWith(Join(parts, sep), parts[0])
    decreases |parts|
  {
    if |parts| > 1 {
      var init := parts[..|parts| - 1];
      JoinStartsWithFirst(init, sep);
      var j := Join(init, sep);
      assert Join(parts, sep) == j + sep + parts[|parts| - 1];
      assert (j + sep + parts[|parts| - 1])[..|init[0]|] == j[..|init[0]|];
    }
  }

  /** Prefixing the first part prefixes the whole join. */
  lemma {:induction false} JoinPrefixFirst(p: string, parts: seq<string>, sep: string)
    requires |parts| > 0
    ensures Join([p + parts[0]] + parts[1..], sep) == p + Join(parts, sep)
    decreases |parts|
  {
    if |parts| > 1 {
      var init := parts[..|parts| - 1];
      JoinPrefixFirst(p, init, sep);
      assert ([p + parts[0]] + parts[1..])[..|parts| - 1] == [p + init[0]] + init[1..];
    }
  }

  /** `s.split(c)` for a one-character separator: the pieces between separators. */
  function Split(s: string, c: char): (r: seq<string>)
    ensures |r| >= 1
    ensures forall i :: 0 <= i < |r| ==> c !in r[i]
    decreases |s|
  {
    if |s| == 0 then [""]
    else if s[|s| - 1] == c then Split(s[..|s| - 1], c) + [""]
    else
      var r := Split(s[..|s| - 1], c);
      r[..|r| - 1] + [r[|r| - 1] + [s[|s| - 1]]]
  }

  /** Splitting and joining back with the same separator gives the original text. */
  lemma {:induction false} JoinSplit(s: string, c: char)
    ensures Join(Split(s, c), [c]) == s
    decreases |s|
  {
    if |s| > 0 {
      var s', last := s[..|s| - 1], s[|s| - 1];
      assert s == s' + [last];
      JoinSplit(s', c);
      var r := Split(s', c);
      if last == c {
        SplitAfterSeparator(s', c);
        JoinAppendEmpty(r, [c]);
      } else {
        SplitAppendChar(s', last, c);
        JoinExtendLast(r, [last], [c]);
      }
    }
  }

  /** Extending the last part extends the join by the same text. */
  lemma JoinExtendLast(r: seq<string>, t: string, sep: string)
    requires |r| > 0
    ensures Join(r[..|r| - 1] + [r[|r| - 1] + t], sep) == Join(r, sep) + t
  {
    var r' := r[..|r| - 1] + [r[|r| - 1] + t];
    if |r| > 1 {
      assert r'[..|r'| - 1] == r[..|r| - 1];
      var j := Join(r[..|r| - 1], sep);
      assert j + sep + (r[|r| - 1] + t) == (j + sep + r[|r| - 1]) + t;
    }
  }

  /** A new empty last part adds one separator to the join. */
  lemma JoinAppendEmpty(r: seq<string>, sep: string)
    requires |r| > 0
    ensures Join(r + [""], sep) == Join(r, sep) + sep
  {
    assert (r + [""])[..|r|] == r;
  }

  /** Text without the separator is a single piece. */
  lemma {:induction false} SplitNoSeparator(s: string, c: char)
    requires c !in s
    ensures Split(s, c) == [s]
    decreases |s|
  {
    if |s| > 0 {
      SplitNoSeparator(s[..|s| - 1], c);
      assert s == s[..|s| - 1] + [s[|s| - 1]];
    }
  }

  /** Appending separator-free text extends the last piece. */
  lemma {:induction false} SplitAppendPlain(x: string, b: string, c: char)
    requires c !in b
    ensures var r := Split(x, c);
            Split(x + b, c) == r[..|r| - 1] + [r[|r| - 1] + b]
    decreases |b|
  {
    var r := Split(x, c);
    if |b| == 0 {
      assert b == [];
      assert x + b == x;
      assert r[|r| - 1] + b == r[|r| - 1];
      assert r == r[..|r| - 1] + [r[|r| - 1]];
    } else {
      var b', last := b[..|b| - 1], b[|b| - 1];
      assert b == b' + [last];
      SplitAppendPlain(x, b', c);
      assert x + b == (x + b') + [last];
      SplitAppendChar(x + b', last, c);
      ExtendLastTwice(r, b', [last]);
    }
  }

  /** Extending the last piece twice is extending it once by both texts. */
  lemma ExtendLastTwice(r: seq<string>, t: string, u: string)
    requires |r| > 0
    ensures var r2 := r[..|r| - 1] + [r[|r| - 1] + t];
            r2[..|r2| - 1] + [r2[|r2| - 1] + u] == r[..|r| - 1] + [r[|r| - 1] + (t + u)]
  {
    var r2 := r[..|r| - 1] + [r[|r| - 1] + t];
    assert r2[..|r2| - 1] == r[..|r| - 1];
    assert r2[|r2| - 1] + u == r[|r| - 1] + (t + u);
  }

  /** Appending one character other than the separator extends the last piece. */
  lemma SplitAppendChar(y: string, ch: char, c: char)
    requires ch != c
    ensures var r := Split(y, c);
            Split(y + [ch], c) == r[..|r| - 1] + [r[|r| - 1] + [ch]]
  {
    assert (y + [ch])[..|y + [ch]| - 1] == y;
  }

  /** A trailing separator starts a new, empty piece. */
  lemma SplitAfterSeparator(x: string, c: char)
    ensures Split(x + [c], c) == Split(x, c) + [""]
  {
    assert (x + [c])[..|x + [c]| - 1] == x;
  }

  /** Joining separator-free lines and splitting again gives the lines back. */
  lemma {:induction false} SplitJoin(lines: seq<string>, c: char)
    requires |lines| > 0
    requires forall i :: 0 <= i < |lines| ==> c !in lines[i]
    ensures Split(Join(lines, [c]), c) == lines
    decreases |lines|
  {
    if |lines| == 1 {
      SplitNoSeparator(lines[0], c);
    } else {
      var init := lines[..|lines| - 1];
      var last := lines[|lines| - 1];
      assert lines == init + [last];
      assert Join(lines, [c]) == Join(init, [c]) + [c] + last;
      SplitJoin(init, c);
      SplitAppendPiece(Join(init, [c]), last, c);
    }
  }

  /** A separator followed by separator-free text adds that text as a new last piece. */
  lemma SplitAppendPiece(x: string, last: string, c: char)
    requires c !in last
    ensures Split(x + [c] + last, c) == Split(x, c) + [last]
  {
    SplitAfterSeparator(x, c);
    SplitAppendPlain(x + [c], last, c);
    ExtendEmptyLast(Split(x, c), last);
  }

  lemma ExtendEmptyLast(init: seq<string>, last: string)
    ensures var r := init + [""];
            r[..|r| - 1] + [r[|r| - 1] + last] == init + [last]
  {
    var r := init + [""];
    assert r[..|r| - 1] == init;
    assert r[|r| - 1] + last == last;
  }

  predicate IsDigit(c: char) {
    '0' <= c <= '9'
  }

  function DigitChar(d: nat): (c: char)
    requires d < 10
    ensures IsDigit(c)
  {
    (48 + d) as char
  }

  /** Decimal rendering of a natural number, as JavaScript renders an integral number. */
  function NatToString(n: nat): (s: string)
    ensures |s| >= 1
    ensures forall i :: 0 <= i < |s| ==> IsDigit(s[i])
    ensures s[0] == '0' <==> n == 0
  {
    if n < 10 then [DigitChar(n)] else NatToString(n / 10) + [DigitChar(n % 10)]
  }

  /** Decimal rendering of an integer, with a leading `-` when negative. */
  function IntToString(i: int): string {
    if i < 0 then "-" + NatToString(-i) else NatToString(i)
  }

  /** Reads a string of decimal digits back as a number. */
  function ParseNat(s: string): nat
    requires forall i :: 0 <= i < |s| ==> IsDigit(s[i])
  {
    if |s| == 0 then 0 else 10 * ParseNat(s[..|s| - 1]) + DigitValue(s[|s| - 1])
  }

  function DigitValue(c: char): nat
    requires IsDigit(c)
  {
    c as int - '0' as int
  }

  /** Rendering a number in decimal loses nothing: it can be read back. */
  lemma {:induction false} ParseNatToString(n: nat)
    ensures ParseNat(NatToString(n)) == n
  {
    if n >= 10 {
      ParseNatToString(n / 10);
      var s := NatToString(n);
      assert s[..|s| - 1] == NatToString(n / 10);
    }
  }
}
