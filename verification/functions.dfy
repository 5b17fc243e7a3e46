/** The text utilities of the report generator: spacing pascal-case identifiers, formatting a
    signed duration, and resolving an id to a display name. */
module Functions {
  import opened Strings

  // ---------------------------------------------------------------------------------------
  // spacePascalCase: `s.replace(/([a-z])(?=[A-Z0-9])/g, '$1 ')`
  // ---------------------------------------------------------------------------------------

  predicate IsLower(c: char) {
    'a' <= c <= 'z'
  }

  predicate IsUpperOrDigit(c: char) {
    'A' <= c <= 'Z' || '0' <= c <= '9'
  }

  /** The pattern matches at index `i`: a lowercase letter directly followed by an uppercase
      letter or a digit. */
  predicate BreakAt(s: string, i: int) {
    0 <= i && i + 1 < |s| && IsLower(s[i]) && IsUpperOrDigit(s[i + 1])
  }

  /** The number of matches at indices below `i`. */
  function BreaksBefore(s: string, i: nat): nat
    requires i <= |s|
  {
    if i == 0 then 0 else BreaksBefore(s, i - 1) + (if BreakAt(s, i - 1) then 1 else 0)
  }

  /** `spacePascalCase(str: string)`: one space after every matched lowercase letter. */
  function SpacePascalCase(s: string): (r: string)
    ensures |r| >= |s|
    ensures |s| > 0 ==> r[0] == s[0]
  {
    if |s| == 0 then ""
    else if BreakAt(s, 0) then [s[0], ' '] + SpacePascalCase(s[1..])
    else [s[0]] + SpacePascalCase(s[1..])
  }

  /** `spacePascalCase(str: string[])`: the single-string form applied to each element. */
  function SpacePascalCaseAll(ss: seq<string>): (r: seq<string>)
    ensures |r| == |ss|
    ensures forall i :: 0 <= i < |ss| ==> r[i] == SpacePascalCase(ss[i])
  {
    if |ss| == 0 then [] else [SpacePascalCase(ss[0])] + SpacePascalCaseAll(ss[1..])
  }

  lemma {:induction false} BreaksShift(s: string, i: nat)
    requires 1 <= i <= |s|
    ensures BreaksBefore(s, i) == (if BreakAt(s, 0) then 1 else 0) + BreaksBefore(s[1..], i - 1)
  {
    if i > 1 {
      BreaksShift(s, i - 1);
      assert BreakAt(s, i - 1) == BreakAt(s[1..], i - 2);
    }
  }

  lemma {:induction false} BreaksMonotone(s: string, i: nat, j: nat)
    requires i <= j <= |s|
    ensures BreaksBefore(s, i) <= BreaksBefore(s, j)
    decreases j
  {
    if i < j {
      BreaksMonotone(s, i, j - 1);
    }
  }

  /** The spaced text is as long as the input plus one per match. */
  lemma {:induction false} SpacePascalCaseLength(s: string)
    ensures |SpacePascalCase(s)| == |s| + BreaksBefore(s, |s|)
  {
    if |s| > 0 {
      SpacePascalCaseLength(s[1..]);
      BreaksShift(s, |s|);
    }
  }

  /** The character at input index `i` lands at `i` plus the number of earlier matches, and a
      space follows it when it is a match. */
  lemma {:induction false} SpacePascalCaseAt(s: string, i: nat)
    requires i < |s|
    ensures i + BreaksBefore(s, i) < |SpacePascalCase(s)|
    ensures SpacePascalCase(s)[i + BreaksBefore(s, i)] == s[i]
    ensures BreakAt(s, i) ==>
              i + BreaksBefore(s, i) + 1 < |SpacePascalCase(s)| &&
              SpacePascalCase(s)[i + BreaksBefore(s, i) + 1] == ' '
  {
    var t := s[1..];
    var r := SpacePascalCase(s);
    var r' := SpacePascalCase(t);
    var k := if BreakAt(s, 0) then 2 else 1;
    assert r == (if BreakAt(s, 0) then [s[0], ' '] else [s[0]]) + r';
    if i > 0 {
      SpacePascalCaseAt(t, i - 1);
      BreaksShift(s, i);
      assert BreakAt(s, i) == BreakAt(t, i - 1);
      assert i + BreaksBefore(s, i) == k + (i - 1) + BreaksBefore(t, i - 1);
    }
  }

  /** The result is the input with exactly one space inserted after every match: the
      character at input index `i` lands at `i` plus the number of earlier matches, a space
      follows it when it is a match, and nothing else is added. */
  lemma SpacePascalCasePlacement(s: string)
    ensures |SpacePascalCase(s)| == |s| + BreaksBefore(s, |s|)
    ensures forall i :: 0 <= i < |s| ==>
              i + BreaksBefore(s, i) < |SpacePascalCase(s)| &&
              SpacePascalCase(s)[i + BreaksBefore(s, i)] == s[i]
    ensures forall i :: 0 <= i < |s| && BreakAt(s, i) ==>
              i + BreaksBefore(s, i) + 1 < |SpacePascalCase(s)| &&
              SpacePascalCase(s)[i + BreaksBefore(s, i) + 1] == ' '
  {
    SpacePascalCaseLength(s);
    forall i | 0 <= i < |s|
      ensures i + BreaksBefore(s, i) < |SpacePascalCase(s)| &&
              SpacePascalCase(s)[i + BreaksBefore(s, i)] == s[i]
      ensures BreakAt(s, i) ==>
                i + BreaksBefore(s, i) + 1 < |SpacePascalCase(s)| &&
                SpacePascalCase(s)[i + BreaksBefore(s, i) + 1] == ' '
    {
      SpacePascalCaseAt(s, i);
    }
  }

  /** After spacing, no lowercase letter directly precedes an uppercase letter or digit. */
  lemma {:induction false} SpacedHasNoBreaks(s: string)
    ensures forall i :: !BreakAt(SpacePascalCase(s), i)
  {
    if |s| > 0 {
      var t := s[1..];
      var r := SpacePascalCase(s);
      var r' := SpacePascalCase(t);
      SpacedHasNoBreaks(t);
      if BreakAt(s, 0) {
        assert r == [s[0], ' '] + r';
        forall i ensures !BreakAt(r, i) {
          if i >= 2 {
            assert BreakAt(r, i) == BreakAt(r', i - 2);
          }
        }
      } else {
        assert r == [s[0]] + r';
        forall i ensures !BreakAt(r, i) {
          if i >= 1 {
            assert BreakAt(r, i) == BreakAt(r', i - 1);
          } else if i == 0 && |r| > 1 {
            assert |t| > 0 && r[1] == t[0] == s[1];
          }
        }
      }
    }
  }

  /** Text without matches is left unchanged. */
  lemma {:induction false} SpacePascalCaseFixed(s: string)
    requires forall i :: !BreakAt(s, i)
    ensures SpacePascalCase(s) == s
  {
    if |s| > 0 {
      var t := s[1..];
      forall i ensures !BreakAt(t, i) {
        assert BreakAt(t, i) == BreakAt(s, i + 1);
      }
      SpacePascalCaseFixed(t);
      assert !BreakAt(s, 0);
    }
  }

  /** Spacing is idempotent: a second application changes nothing. */
  lemma SpacePascalCaseIdempotent(s: string)
    ensures SpacePascalCase(SpacePascalCase(s)) == SpacePascalCase(s)
  {
    SpacedHasNoBreaks(s);
    SpacePascalCaseFixed(SpacePascalCase(s));
  }

  /** Spacing a concatenation spaces each part, with one space at the junction exactly when
      the pattern matches across it. */
  lemma {:induction false} SpacePascalCaseConcat(a: string, b: string)
    requires |a| > 0 && |b| > 0
    ensures SpacePascalCase(a + b) ==
            SpacePascalCase(a) + (if IsLower(a[|a| - 1]) && IsUpperOrDigit(b[0]) then " " else "") +
            SpacePascalCase(b)
    decreases |a|
  {
    var ab, a' := a + b, a[1..];
    var mid := if IsLower(a[|a| - 1]) && IsUpperOrDigit(b[0]) then " " else "";
    assert ab[1..] == a' + b;
    if |a| == 1 {
      assert BreakAt(ab, 0) == (mid == " ");
      assert SpacePascalCase(a) == [a[0]] by { assert a' == []; }
    } else {
      var head := if BreakAt(a, 0) then [a[0], ' '] else [a[0]];
      assert BreakAt(ab, 0) == BreakAt(a, 0);
      assert a'[|a'| - 1] == a[|a| - 1];
      SpacePascalCaseConcat(a', b);
      ConcatHead(head, SpacePascalCase(a'), mid, SpacePascalCase(b));
    }
  }

  lemma ConcatHead(head: string, x: string, mid: string, y: string)
    ensures head + (x + mid + y) == (head + x) + mid + y
  {
  }

  /** A word whose letters after the first are all lowercase is left unchanged. */
  lemma CapitalizedWord(w: string)
    requires forall i :: 0 < i < |w| ==> IsLower(w[i])
    ensures SpacePascalCase(w) == w
  {
    forall i ensures !BreakAt(w, i) {
      if 0 <= i && i + 1 < |w| {
        assert IsLower(w[i + 1]);
      }
    }
    SpacePascalCaseFixed(w);
  }

  // ---------------------------------------------------------------------------------------
  // timeDelta
  // ---------------------------------------------------------------------------------------

  datatype Unit = Unit(name: string, ms: nat)

  /** The unit table of `timeDelta`, largest first: a year is 365 days, a month a twelfth of
      a year. */
  const Units: seq<Unit> := [
    Unit("y", 31536000000), Unit("mo", 2628000000), Unit("d", 86400000),
    Unit("h", 3600000), Unit("m", 60000), Unit("s", 1000), Unit("ms", 1)]

  /** One computed component: its place in the unit table, its count and the unit name. */
  datatype Component = Component(rank: nat, value: nat, unit: string)

  function ComponentText(c: Component): string {
    NatToString(c.value) + c.unit
  }

  function Texts(cs: seq<Component>): (r: seq<string>)
    ensures |r| == |cs|
    ensures forall i :: 0 <= i < |cs| ==> r[i] == ComponentText(cs[i])
  {
    if |cs| == 0 then [] else [ComponentText(cs[0])] + Texts(cs[1..])
  }

  /** The components of a duration of `a` milliseconds: the whole years, then for each later
      unit the remainder by the previous unit divided by this one. */
  function Components(a: nat): (cs: seq<Component>)
    ensures |cs| == |Units|
  {
    [ Component(0, a / 31536000000, "y"),
      Component(1, a % 31536000000 / 2628000000, "mo"),
      Component(2, a % 2628000000 / 86400000, "d"),
      Component(3, a % 86400000 / 3600000, "h"),
      Component(4, a % 3600000 / 60000, "m"),
      Component(5, a % 60000 / 1000, "s"),
      Component(6, a % 1000 / 1, "ms") ]
  }

  /** Component `i` is the count of unit `i` of the table, in table order. */
  lemma ComponentsTable(a: nat)
    ensures var cs := Components(a);
            forall i :: 0 <= i < |cs| ==> cs[i].rank == i && cs[i].unit == Units[i].name
  {
  }

  /** Component 0 counts the whole years of the table's first unit, and each later one the
      remainder by the previous unit divided by its own unit. */
  lemma ComponentFromTable(a: nat, i: nat)
    requires i < |Units| - 1
    ensures Units[i + 1].ms > 0
    ensures Components(a)[0] == Component(0, a / Units[0].ms, Units[0].name)
    ensures Components(a)[i + 1] == Component(i + 1, a % Units[i].ms / Units[i + 1].ms, Units[i + 1].name)
  {
  }

  /** Every count below the years is less than the number of its units in the previous one. */
  lemma ComponentBounds(a: nat)
    ensures var cs := Components(a);
            cs[1].value <= 11 && cs[2].value <= 30 && cs[3].value <= 23 &&
            cs[4].value <= 59 && cs[5].value <= 59 && cs[6].value <= 999
  {
  }

  predicate Ascending(cs: seq<Component>) {
    forall i, j :: 0 <= i < j < |cs| ==> cs[i].rank < cs[j].rank
  }

  /** Drops the zero-valued components, keeping the others in order. */
  function NonZero(cs: seq<Component>): seq<Component> {
    if |cs| == 0 then []
    else (if cs[0].value > 0 then [cs[0]] else []) + NonZero(cs[1..])
  }

  /** A component survives the filter exactly when it is present with a non-zero count. */
  lemma {:induction false} NonZeroMembers(cs: seq<Component>)
    ensures forall c :: c in NonZero(cs) <==> c in cs && c.value > 0
  {
    if |cs| > 0 {
      NonZeroMembers(cs[1..]);
      assert cs == [cs[0]] + cs[1..];
    }
  }

  /** Dropping components keeps the survivors in unit order. */
  lemma {:induction false} NonZeroAscending(cs: seq<Component>)
    requires Ascending(cs)
    ensures Ascending(NonZero(cs))
  {
    if |cs| > 0 {
      var rest := NonZero(cs[1..]);
      NonZeroAscending(cs[1..]);
      NonZeroMembers(cs[1..]);
      forall c | c in rest ensures cs[0].rank < c.rank {
        var k :| 0 <= k < |cs[1..]| && cs[1..][k] == c;
        assert cs[k + 1] == c;
      }
    }
  }

  /** `arr.filter(g => !g.startsWith('0'))` */
  function DropLeadingZeros(arr: seq<string>): seq<string> {
    if |arr| == 0 then []
    else (if StartsWith(arr[0], "0") then [] else [arr[0]]) + DropLeadingZeros(arr[1..])
  }

  /** `.filter(str => str)` on strings: keeps the non-empty ones. */
  function NonEmpty(ss: seq<string>): seq<string> {
    if |ss| == 0 then []
    else (if ss[0] != "" then [ss[0]] else []) + NonEmpty(ss[1..])
  }

  /** All but the last item joined by ", ", then the last attached with " and ". */
  function Phrase(items: seq<string>): string {
    if |items| == 0 then ""
    else if |items| == 1 then items[0]
    else Join(items[..|items| - 1], ", ") + " and " + items[|items| - 1]
  }

  function Abs(t: int): nat {
    if t < 0 then -t else t
  }


  /** The text of a non-zero duration of `a` milliseconds: its non-zero components, as
      "<count><unit>", joined into a phrase. */
  function DurationText(a: nat): string {
    Phrase(Texts(NonZero(Components(a))))
  }

  /** What `timeDelta` returns for an integral number of milliseconds. */
  function TimeDeltaText(t: int): string {
    if t == 0 then "0ms" else DurationText(Abs(t)) + (if t < 0 then " ago" else "")
  }

  lemma TextsConcat(a: seq<Component>, b: seq<Component>)
    ensures Texts(a + b) == Texts(a) + Texts(b)
  {
  }

  lemma TextsSnoc(cs: seq<Component>, k: nat)
    requires k < |cs|
    ensures Texts(cs[..k + 1]) == Texts(cs[..k]) + [ComponentText(cs[k])]
  {
    assert cs[..k + 1] == cs[..k] + [cs[k]];
    TextsConcat(cs[..k], [cs[k]]);
  }

  /** A component's text starts with "0" exactly when its count is zero. */
  lemma ComponentTextLeadingZero(c: Component)
    ensures StartsWith(ComponentText(c), "0") <==> c.value == 0
  {
    var t := ComponentText(c);
    assert t[0] == NatToString(c.value)[0];
  }

  /** Filtering the texts on a leading "0" keeps exactly the non-zero components. */
  lemma {:induction false} DropLeadingZerosTexts(cs: seq<Component>)
    ensures DropLeadingZeros(Texts(cs)) == Texts(NonZero(cs))
  {
    if |cs| > 0 {
      var ts := Texts(cs);
      var rest := NonZero(cs[1..]);
      DropLeadingZerosTexts(cs[1..]);
      assert ts[1..] == Texts(cs[1..]);
      ComponentTextLeadingZero(cs[0]);
      var pre: seq<Component> := if cs[0].value > 0 then [cs[0]] else [];
      assert NonZero(cs) == pre + rest;
      TextsConcat(pre, rest);
      assert Texts(pre) == if cs[0].value > 0 then [ts[0]] else [];
      assert DropLeadingZeros(ts) == (if StartsWith(ts[0], "0") then [] else [ts[0]]) + DropLeadingZeros(ts[1..]);
    }
  }

  lemma {:induction false} JoinFirstChar(parts: seq<string>, sep: string)
    requires |parts| > 0 && parts[0] != ""
    ensures |Join(parts, sep)| > 0 && Join(parts, sep)[0] == parts[0][0]
  {
    if |parts| > 1 {
      JoinFirstChar(parts[..|parts| - 1], sep);
    }
  }

  /** A phrase starts with the first character of its first item. */
  lemma PhraseFirst(items: seq<string>)
    requires |items| > 0 && items[0] != ""
    ensures |Phrase(items)| > 0 && Phrase(items)[0] == items[0][0]
  {
    if |items| > 1 {
      JoinFirstChar(items[..|items| - 1], ", ");
    }
  }

  /** A phrase ends with its last item. */
  lemma PhraseLast(items: seq<string>)
    requires |items| > 0
    ensures EndsWith(Phrase(items), items[|items| - 1])
  {
  }

  /** The filter-and-join of the source builds the phrase: with one item there is no
      " and ", with more the last one is attached with " and ". */
  lemma PhraseByFilter(items: seq<string>, init: seq<string>, last: string)
    requires forall i :: 0 <= i < |items| ==> items[i] != ""
    requires |items| > 0 ==> init == items[..|items| - 1] && last == items[|items| - 1]
    requires |items| == 0 ==> init == [] && last == ""
    ensures Join(NonEmpty([Join(init, ", "), last]), " and ") == Phrase(items)
  {
    var pair := [Join(init, ", "), last];
    assert pair[1..] == [last] && [last][1..] == [];
    assert NonEmpty([last]) == if last != "" then [last] else [];
    assert NonEmpty(pair) == (if pair[0] != "" then [pair[0]] else []) + NonEmpty([last]);
    if |items| > 1 {
      assert init[0] == items[0] != "";
      assert last != "";
      JoinFirstChar(init, ", ");
      assert NonEmpty(pair) == pair;
    } else if |items| == 1 {
      assert last == items[0] != "";
      assert Join(init, ", ") == "";
      assert NonEmpty(pair) == [last];
    }
  }

  /** The texts that survive the leading-zero filter, popped and joined as the source does,
      give the phrase of the non-zero components. */
  lemma FilteredPhrase(cs: seq<Component>, init: seq<string>, last: string)
    requires var items := DropLeadingZeros(Texts(cs));
             (|items| > 0 ==> init == items[..|items| - 1] && last == items[|items| - 1]) &&
             (|items| == 0 ==> init == [] && last == "")
    ensures Join(NonEmpty([Join(init, ", "), last]), " and ") == Phrase(Texts(NonZero(cs)))
  {
    DropLeadingZerosTexts(cs);
    var items := Texts(NonZero(cs));
    NonZeroMembers(cs);
    forall i | 0 <= i < |items| ensures items[i] != "" {
      assert NonZero(cs)[i] in NonZero(cs);
      ComponentTextLeadingZero(NonZero(cs)[i]);
    }
    PhraseByFilter(items, init, last);
  }

  /** `timeDelta(timestamp)` for an integral `timestamp`: the units are computed in a loop over
      the unit table, the zero ones filtered out, the last popped and attached with " and ". */
  method TimeDelta(timestamp: int) returns (r: string)
    ensures r == TimeDeltaText(timestamp)
  {
    var ms := timestamp;  // `Math.round` leaves an integral input unchanged
    if ms == 0 {
      return "0ms";
    }
    var absMS: nat := if ms < 0 then -ms else ms;
    ghost var cs := Components(absMS);
    ComponentFromTable(absMS, 0);
    var arr := [NatToString(absMS / Units[0].ms) + Units[0].name];
    for i := 0 to |Units| - 1
      invariant arr == Texts(cs[..i + 1])
    {
      ComponentFromTable(absMS, i);
      var count := absMS % Units[i].ms / Units[i + 1].ms;
      TextsSnoc(cs, i + 1);
      arr := arr + [NatToString(count) + Units[i + 1].name];
    }
    assert cs[..|Units|] == cs;
    var timeArray := DropLeadingZeros(arr);
    // `pop` on an empty array yields undefined, which the filter below drops just like ""
    var last := "";
    if |timeArray| > 0 {
      last := timeArray[|timeArray| - 1];
      timeArray := timeArray[..|timeArray| - 1];
    }
    FilteredPhrase(cs, timeArray, last);
    r := Join(NonEmpty([Join(timeArray, ", "), last]), " and ") + (if ms < 0 then " ago" else "");
  }

  /** Some component of a non-zero duration is non-zero. */
  lemma SomeComponentNonZero(a: nat)
    requires a > 0
    ensures |NonZero(Components(a))| > 0
  {
    var cs := Components(a);
    var k: nat;
    if a >= 31536000000 {
      k := 0;
    } else if a >= 2628000000 {
      k := 1;
    } else if a >= 86400000 {
      k := 2;
    } else if a >= 3600000 {
      k := 3;
    } else if a >= 60000 {
      k := 4;
    } else if a >= 1000 {
      k := 5;
    } else {
      k := 6;
    }
    assert cs[k].value > 0;
    NonZeroMembers(cs);
    assert cs[k] in NonZero(cs);
  }

  lemma {:induction false} NonZeroLength(cs: seq<Component>)
    ensures |NonZero(cs)| <= |cs|
  {
    if |cs| > 0 {
      NonZeroLength(cs[1..]);
    }
  }

  /** Each surviving component is non-zero, and they come in unit order. */
  lemma SurvivorsOrdered(a: nat)
    ensures var r := NonZero(Components(a));
            (forall c :: c in r ==> c.value > 0) && Ascending(r) && |r| <= |Units|
  {
    var cs := Components(a);
    ComponentsTable(a);
    NonZeroAscending(cs);
    NonZeroLength(cs);
    NonZeroMembers(cs);
  }

  predicate UnitName(u: string) {
    u in {"y", "mo", "d", "h", "m", "s", "ms"}
  }

  /** The text of a component never ends in "go": its unit is one of the table's names. */
  lemma ComponentEnding(c: Component)
    requires UnitName(c.unit)
    ensures var t := ComponentText(c);
            |t| >= 2 && t[|t| - 2..] != "go"
  {
    var t := ComponentText(c);
    assert t[|t| - 1] != 'o' || t[|t| - 2] != 'g';
  }

  lemma ComponentUnits(a: nat, c: Component)
    requires c in NonZero(Components(a))
    ensures UnitName(c.unit)
  {
    var cs := Components(a);
    ComponentsTable(a);
    NonZeroMembers(cs);
    var i :| 0 <= i < |cs| && cs[i] == c;
  }

  /** The text of a non-zero duration starts with a digit other than "0" and does not end in
      "go". */
  lemma DurationShape(a: nat)
    requires a > 0
    ensures var d := DurationText(a);
            |d| >= 2 && IsDigit(d[0]) && d[0] != '0' && d[|d| - 2..] != "go"
  {
    var cs := NonZero(Components(a));
    SomeComponentNonZero(a);
    var items := Texts(cs);
    NonZeroMembers(Components(a));
    assert cs[0] in cs;
    ComponentTextLeadingZero(cs[0]);
    PhraseFirst(items);
    var c := cs[|cs| - 1];
    assert c in cs;
    ComponentUnits(a, c);
    ComponentEnding(c);
    PhraseLast(items);
  }

  /** `timeDelta` returns exactly "0ms" for zero, and never an empty string. */
  lemma TimeDeltaZero(t: int)
    ensures TimeDeltaText(t) == "0ms" <==> t == 0
    ensures TimeDeltaText(t) != ""
  {
    if t != 0 {
      DurationShape(Abs(t));
      assert TimeDeltaText(t)[0] == DurationText(Abs(t))[0];
    }
  }

  /** The result ends in " ago" exactly when the duration is negative. */
  lemma TimeDeltaAgo(t: int)
    ensures EndsWith(TimeDeltaText(t), " ago") <==> t < 0
  {
    if t < 0 {
      var d := DurationText(-t);
      assert TimeDeltaText(t) == d + " ago";
      assert (d + " ago")[|d|..] == " ago";
    } else if t > 0 {
      var d := DurationText(t);
      assert TimeDeltaText(t) == d + "" == d;
      DurationShape(t);
      assert |d| < 4 || d[|d| - 4..][2..] == d[|d| - 2..];
    } else {
      assert !EndsWith("0ms", " ago");
    }
  }

  /** Negating a positive duration only appends " ago". */
  lemma TimeDeltaNegate(t: int)
    requires t > 0
    ensures TimeDeltaText(-t) == TimeDeltaText(t) + " ago"
  {
    var d := DurationText(t);
    assert Abs(-t) == Abs(t) == t;
    assert TimeDeltaText(-t) == d + " ago";
    assert TimeDeltaText(t) == d + "" == d;
  }

  lemma NonZeroStep(cs: seq<Component>, k: nat)
    requires k < |cs|
    ensures NonZero(cs[k..]) == (if cs[k].value > 0 then [cs[k]] else []) + NonZero(cs[k + 1..])
  {
    assert cs[k..][1..] == cs[k + 1..];
  }

  /** Leading zero components do not survive the filter. */
  lemma {:induction false} NonZeroSkipZeros(cs: seq<Component>, k: nat)
    requires k <= |cs|
    requires forall i :: 0 <= i < k ==> cs[i].value == 0
    ensures NonZero(cs) == NonZero(cs[k..])
  {
    if k > 0 {
      NonZeroSkipZeros(cs, k - 1);
      NonZeroStep(cs, k - 1);
    } else {
      assert cs[0..] == cs;
    }
  }

  /** The phrase of two items joins them with " and ". */
  lemma PhraseOfTwo(c: Component, d: Component)
    ensures Phrase(Texts([c, d])) == ComponentText(c) + " and " + ComponentText(d)
  {
    var ts := Texts([c, d]);
    assert ts[..1] == [ComponentText(c)];
  }

  lemma MinutesSecondsValues(m: nat, s: nat)
    requires 0 < m < 60 && 0 < s < 60
    ensures var cs := Components(m * 60000 + s * 1000);
            cs[0].value == 0 && cs[1].value == 0 && cs[2].value == 0 && cs[3].value == 0 &&
            cs[4] == Component(4, m, "m") && cs[5] == Component(5, s, "s") && cs[6].value == 0
  {
  }

  /** Below an hour, only the minutes and the seconds survive the filter. */
  lemma MinutesSecondsComponents(m: nat, s: nat)
    requires 0 < m < 60 && 0 < s < 60
    ensures NonZero(Components(m * 60000 + s * 1000)) == [Component(4, m, "m"), Component(5, s, "s")]
  {
    var cs := Components(m * 60000 + s * 1000);
    MinutesSecondsValues(m, s);
    NonZeroSkipZeros(cs, 4);
    NonZeroStep(cs, 4);
    NonZeroStep(cs, 5);
    NonZeroStep(cs, 6);
    assert cs[7..] == [];
  }

  lemma MinutesSecondsText(x: string, y: string)
    ensures x + "m" + " and " + (y + "s") == x + "m and " + y + "s"
  {
  }

  /** Minutes and seconds below an hour read as "<m>m and <s>s". */
  lemma MinutesAndSeconds(m: nat, s: nat)
    requires 0 < m < 60 && 0 < s < 60
    ensures DurationText(m * 60000 + s * 1000) == NatToString(m) + "m and " + NatToString(s) + "s"
  {
    MinutesSecondsComponents(m, s);
    PhraseOfTwo(Component(4, m, "m"), Component(5, s, "s"));
    MinutesSecondsText(NatToString(m), NatToString(s));
  }

  /** A duration below a second reads as "<a>ms". */
  lemma BelowASecond(a: nat)
    requires 0 < a < 1000
    ensures DurationText(a) == NatToString(a) + "ms"
  {
    var cs := Components(a);
    assert cs[0].value == 0 && cs[1].value == 0 && cs[2].value == 0 && cs[3].value == 0;
    assert cs[4].value == 0 && cs[5].value == 0 && cs[6] == Component(6, a, "ms");
    NonZeroSkipZeros(cs, 6);
    NonZeroStep(cs, 6);
    assert cs[7..] == [];
  }

  /** Worked example: ninety seconds read as a minute and thirty seconds. */
  lemma TimeDeltaNinetySeconds()
    ensures TimeDeltaText(90000) == "1m and 30s"
  {
    var d := 1 * 60000 + 30 * 1000;
    MinutesAndSeconds(1, 30);
    TimeDeltaPositive(d);
    ThirtyText(NatToString(1), NatToString(30));
  }

  lemma TimeDeltaPositive(t: int)
    requires t > 0
    ensures TimeDeltaText(t) == DurationText(t)
  {
  }

  lemma ThirtyText(x: string, y: string)
    requires x == NatToString(1) && y == NatToString(30)
    ensures x + "m and " + y + "s" == "1m and 30s"
  {
    assert y == NatToString(3) + [DigitChar(0)];
  }

  /** Worked example: five seconds in the past. */
  lemma TimeDeltaFiveSecondsAgo()
    ensures TimeDeltaText(-5000) == "5s ago"
  {
    assert TimeDeltaText(-5000) == DurationText(5000) + " ago";
  }

  // ---------------------------------------------------------------------------------------
  // resolveName
  // ---------------------------------------------------------------------------------------

  /** The JavaScript value handed to `resolveName`: `null`, `undefined`, an id string, or an
      object without an `id` (what `extra?.id ?? extra` yields for such a payload). */
  datatype Ref = Null | Undefined | Id(id: string) | Object

  /** The key looked up in the name table: `id ?? ''`, an object converted to its string. */
  function Key(ref: Ref): string {
    match ref
    case Null => ""
    case Undefined => ""
    case Id(id) => id
    case Object => "[object Object]"
  }

  /** How a template literal renders the value. */
  function RefText(ref: Ref): string {
    match ref
    case Null => "null"
    case Undefined => "undefined"
    case Id(id) => id
    case Object => "[object Object]"
  }

  /** The table gives a truthy (non-empty) name for the value's key. */
  predicate HasName(names: map<string, string>, ref: Ref) {
    Key(ref) in names && names[Key(ref)] != ""
  }

  function Quoted(s: string): string {
    "`" + s + "`"
  }

  /** `resolveName(id)`: the quoted name followed by the quoted id in parentheses when the
      table names the id, the quoted id alone otherwise. */
  function ResolveName(names: map<string, string>, ref: Ref): (r: string)
    ensures StartsWith(r, "`")
    ensures HasName(names, ref) ==>
              StartsWith(r, Quoted(names[Key(ref)]) + " (") &&
              EndsWith(r, " (" + Quoted(RefText(ref)) + ")") &&
              |r| == |names[Key(ref)]| + |RefText(ref)| + 7
  {
    if HasName(names, ref) then Quoted(names[Key(ref)]) + " (" + Quoted(RefText(ref)) + ")"
    else Quoted(RefText(ref))
  }

  /** The fallback form is produced exactly when the table has no name for the id. */
  lemma ResolveNameFallback(names: map<string, string>, ref: Ref)
    ensures ResolveName(names, ref) == Quoted(RefText(ref)) <==> !HasName(names, ref)
  {
    if HasName(names, ref) {
      assert |ResolveName(names, ref)| > |Quoted(RefText(ref))|;
    }
  }
}
