/**
  The Python string built-ins the service relies on: substring occurrence
  (`needle in hay`), `str.strip()` and `str(n)` for a natural number.
 */
module Strings {
  import opened Lines

  /** `needle` occurs in `hay` starting at position `k`. */
  ghost predicate OccursAt(hay: string, needle: string, k: int) {
    0 <= k && k + |needle| <= |hay| && hay[k..k + |needle|] == needle
  }

  /** `needle in hay`. */
  ghost predicate Occurs(hay: string, needle: string) {
    exists k :: OccursAt(hay, needle, k)
  }

  /** A piece of text occurs inside any text built around it. */
  lemma OccursInside(a: string, b: string, c: string, needle: string, k: int)
    requires OccursAt(b, needle, k)
    ensures OccursAt(a + b + c, needle, |a| + k)
  {
    var s := a + b + c;
    assert s[|a| + k..|a| + k + |needle|] == b[k..k + |needle|];
  }

  /** A text starts with itself. */
  lemma OccursFront(needle: string, rest: string)
    ensures OccursAt(needle + rest, needle, 0)
  {
    assert (needle + rest)[..|needle|] == needle;
  }

  /** Text put in front shifts an occurrence by its length. */
  lemma OccursBehind(front: string, hay: string, needle: string, k: int)
    requires OccursAt(hay, needle, k)
    ensures OccursAt(front + hay, needle, |front| + k)
  {
    assert (front + hay)[|front| + k..|front| + k + |needle|] == hay[k..k + |needle|];
  }

  /** An occurrence inside an occurrence is an occurrence. */
  lemma OccursWithin(hay: string, mid: string, p: int, needle: string, k: int)
    requires OccursAt(hay, mid, p) && OccursAt(mid, needle, k)
    ensures OccursAt(hay, needle, p + k)
  {
    forall t | 0 <= t < |needle|
      ensures hay[p + k..p + k + |needle|][t] == needle[t]
    {
      assert hay[p..p + |mid|][k + t] == mid[k + t];
      assert mid[k..k + |needle|][t] == mid[k + t];
    }
  }

  /** A needle holding a character the text lacks does not occur in it. */
  lemma MissingChar(hay: string, needle: string, c: char)
    requires c in needle && c !in hay
    ensures !Occurs(hay, needle)
  {
    var j :| 0 <= j < |needle| && needle[j] == c;
    forall k | 0 <= k && k + |needle| <= |hay|
      ensures !OccursAt(hay, needle, k)
    {
      assert hay[k..k + |needle|][j] == hay[k + j] != c;
    }
  }

  /**
    Cutting text at a character the needle lacks: the needle occurs in the
    whole exactly when it occurs in one of the two sides.
   */
  lemma OccursAcross(a: string, c: char, b: string, needle: string)
    requires c !in needle
    ensures Occurs(a + [c] + b, needle) <==> Occurs(a, needle) || Occurs(b, needle)
  {
    var s := a + [c] + b;
    if Occurs(a, needle) {
      var k :| OccursAt(a, needle, k);
      OccursInside([], a, [c] + b, needle, k);
      assert [] + a + ([c] + b) == s;
    }
    if Occurs(b, needle) {
      var k :| OccursAt(b, needle, k);
      OccursInside(a + [c], b, [], needle, k);
      assert a + [c] + b + [] == s;
    }
    forall k | 0 <= k <= |a| < k + |needle| && k + |needle| <= |s|
      ensures !OccursAt(s, needle, k)
    {
      assert s[k..k + |needle|][|a| - k] == s[|a|] == c;
    }
    if Occurs(s, needle) {
      var k :| OccursAt(s, needle, k);
      if k + |needle| <= |a| {
        assert a[k..k + |needle|] == s[k..k + |needle|];
        assert OccursAt(a, needle, k);
      } else if k > |a| {
        assert b[k - |a| - 1..k - |a| - 1 + |needle|] == s[k..k + |needle|];
        assert OccursAt(b, needle, k - |a| - 1);
      }
    }
  }

  /** `needle` occurs in at least one of `ls`. */
  ghost predicate OccursInSome(ls: seq<string>, needle: string) {
    exists i :: 0 <= i < |ls| && Occurs(ls[i], needle)
  }

  /**
    A needle without a line separator occurs in joined lines exactly when it
    occurs in one of the lines.
   */
  lemma {:induction false} OccursInJoin(ls: seq<string>, needle: string)
    requires |needle| >= 1 && '\n' !in needle
    ensures Occurs(Join(ls), needle) <==> OccursInSome(ls, needle)
    decreases |ls|
  {
    if |ls| > 1 {
      OccursInJoin(ls[1..], needle);
      OccursAcross(ls[0], '\n', Join(ls[1..]), needle);
      assert ls[0] + "\n" + Join(ls[1..]) == ls[0] + ['\n'] + Join(ls[1..]);
      if OccursInSome(ls, needle) {
        var i :| 0 <= i < |ls| && Occurs(ls[i], needle);
        if i > 0 {
          assert ls[1..][i - 1] == ls[i];
        }
      }
      if OccursInSome(ls[1..], needle) {
        var i :| 0 <= i < |ls[1..]| && Occurs(ls[1..][i], needle);
        assert ls[1..][i] == ls[i + 1];
      }
    }
  }

  lemma JoinStartsWithFirst(ls: seq<string>)
    requires |ls| >= 1
    ensures OccursAt(Join(ls), ls[0], 0)
  {
    if |ls| > 1 {
      OccursInside([], ls[0], "\n" + Join(ls[1..]), ls[0], 0);
      assert [] + ls[0] + ("\n" + Join(ls[1..])) == Join(ls);
    } else {
      OccursInside([], ls[0], [], ls[0], 0);
      assert [] + ls[0] + [] == ls[0];
    }
  }

  /**
    Line `i` of joined lines starts at the total cost of the lines before it,
    and ends before the next line starts: lines keep their order.
   */
  lemma LineStart(ls: seq<string>, i: nat)
    requires i < |ls|
    ensures OccursAt(Join(ls), ls[i], Cost(ls[..i]))
    ensures Cost(ls[..i]) + |ls[i]| < Cost(ls[..i + 1])
  {
    assert ls[..i + 1] == ls[..i] + [ls[i]];
    CostAppend(ls[..i], [ls[i]]);
    assert [ls[i]][1..] == [];
    JoinStartsWithFirst(ls[i..]);
    assert ls[i..][0] == ls[i];
    if i == 0 {
      assert ls[i..] == ls;
    } else {
      assert ls == ls[..i] + ls[i..];
      JoinAppend(ls[..i], ls[i..]);
      JoinCost(ls[..i]);
      OccursInside(Join(ls[..i]) + "\n", Join(ls[i..]), [], ls[i], 0);
      assert Join(ls[..i]) + "\n" + Join(ls[i..]) + [] == Join(ls);
    }
  }

  /** `str.isspace()` for one character: the characters Python 3 strips by default. */
  predicate IsSpace(c: char) {
    || c == ' ' || c == '\t' || c == '\n' || c == '\r' || c == '\U{000B}' || c == '\U{000C}'
    || ('\U{001C}' <= c <= '\U{001F}') || c == '\U{0085}' || c == '\U{00A0}' || c == '\U{1680}'
    || ('\U{2000}' <= c <= '\U{200A}') || c == '\U{2028}' || c == '\U{2029}' || c == '\U{202F}'
    || c == '\U{205F}' || c == '\U{3000}'
  }

  predicate AllSpace(s: string) {
    forall i :: 0 <= i < |s| ==> IsSpace(s[i])
  }

  /** Neither starts nor ends with whitespace. */
  predicate Trimmed(s: string) {
    s == [] || (!IsSpace(s[0]) && !IsSpace(s[|s| - 1]))
  }

  /**
    `r` is `s` with the whitespace at both ends dropped: a trimmed middle
    piece of `s` with only whitespace before and after it.
   */
  ghost predicate StripOf(r: string, s: string) {
    && Trimmed(r)
    && exists i :: 0 <= i <= |s| - |r| && r == s[i..i + |r|] && AllSpace(s[..i]) && AllSpace(s[i + |r|..])
  }

  /** `s.strip()`: whitespace is dropped from the front, then from the back, one character at a time. */
  function Strip(s: string): (r: string)
    ensures StripOf(r, s)
    decreases |s|
  {
    if s != [] && IsSpace(s[0]) then
      var r := Strip(s[1..]);
      StripOfFront(r, s);
      r
    else if s != [] && IsSpace(s[|s| - 1]) then
      var r := Strip(s[..|s| - 1]);
      StripOfBack(r, s);
      r
    else
      StripWitness(s, s, 0);
      s
  }

  /** Where the stripped text sits inside the original. */
  lemma StripIndex(r: string, s: string) returns (i: int)
    requires StripOf(r, s)
    ensures 0 <= i <= |s| - |r| && r == s[i..i + |r|] && AllSpace(s[..i]) && AllSpace(s[i + |r|..])
  {
    i :| 0 <= i <= |s| - |r| && r == s[i..i + |r|] && AllSpace(s[..i]) && AllSpace(s[i + |r|..]);
  }

  lemma StripWitness(r: string, s: string, i: int)
    requires 0 <= i <= |s| - |r| && r == s[i..i + |r|]
    requires AllSpace(s[..i]) && AllSpace(s[i + |r|..]) && Trimmed(r)
    ensures StripOf(r, s)
  {
  }

  /** A whitespace character in front of a text leaves what it strips to unchanged. */
  lemma StripOfFront(r: string, s: string)
    requires s != [] && IsSpace(s[0]) && StripOf(r, s[1..])
    ensures StripOf(r, s)
  {
    var t := s[1..];
    var i := StripIndex(r, t);
    FrontWitness(r, s, t, i);
    StripWitness(r, s, i + 1);
  }

  lemma FrontWitness(r: string, s: string, t: string, i: int)
    requires s != [] && IsSpace(s[0]) && t == s[1..]
    requires 0 <= i <= |t| - |r| && r == t[i..i + |r|] && AllSpace(t[..i]) && AllSpace(t[i + |r|..])
    ensures 0 <= i + 1 <= |s| - |r| && r == s[i + 1..i + 1 + |r|]
    ensures AllSpace(s[..i + 1]) && AllSpace(s[i + 1 + |r|..])
  {
    assert s[i + 1..i + 1 + |r|] == t[i..i + |r|];
    assert s[i + 1 + |r|..] == t[i + |r|..];
    HeadAndPrefix(s, i);
    AllSpaceCons(s[0], t[..i]);
  }

  /** A whitespace character behind a text leaves what it strips to unchanged. */
  lemma StripOfBack(r: string, s: string)
    requires s != [] && IsSpace(s[|s| - 1]) && StripOf(r, s[..|s| - 1])
    ensures StripOf(r, s)
  {
    var t := s[..|s| - 1];
    var i := StripIndex(r, t);
    BackWitness(r, s, t, i);
    StripWitness(r, s, i);
  }

  lemma BackWitness(r: string, s: string, t: string, i: int)
    requires s != [] && IsSpace(s[|s| - 1]) && t == s[..|s| - 1]
    requires 0 <= i <= |t| - |r| && r == t[i..i + |r|] && AllSpace(t[..i]) && AllSpace(t[i + |r|..])
    ensures 0 <= i <= |s| - |r| && r == s[i..i + |r|]
    ensures AllSpace(s[..i]) && AllSpace(s[i + |r|..])
  {
    InitAndSuffix(s, i, i + |r|);
    AllSpaceSnoc(t[i + |r|..], s[|s| - 1]);
  }

  lemma HeadAndPrefix<T>(s: seq<T>, i: nat)
    requires i < |s|
    ensures s[..i + 1] == [s[0]] + s[1..][..i]
  {
    assert s[..i + 1] == s[..1] + s[1..i + 1];
  }

  lemma InitAndSuffix<T>(s: seq<T>, i: nat, j: nat)
    requires i <= j < |s|
    ensures s[i..j] == s[..|s| - 1][i..j] && s[..i] == s[..|s| - 1][..i]
    ensures s[j..] == s[..|s| - 1][j..] + [s[|s| - 1]]
  {
    assert s[j..] == s[j..|s| - 1] + s[|s| - 1..];
  }

  lemma AllSpaceCons(c: char, t: string)
    requires IsSpace(c) && AllSpace(t)
    ensures AllSpace([c] + t)
  {
  }

  lemma AllSpaceSnoc(t: string, c: char)
    requires AllSpace(t) && IsSpace(c)
    ensures AllSpace(t + [c])
  {
  }

  /**
    Stripping is determined by the description above: whitespace around a
    trimmed middle strips to exactly that middle.
   */
  lemma {:induction false} StripSurrounded(a: string, m: string, b: string)
    requires AllSpace(a) && AllSpace(b) && Trimmed(m)
    ensures Strip(a + m + b) == m
    decreases |a|
  {
    var s := a + m + b;
    if a != [] {
      DropHead(a, m);
      DropHead(a + m, b);
      StripFront(s);
      StripSurrounded(a[1..], m, b);
    } else if m == [] {
      assert s == b;
      StripSpaces(b);
    } else {
      assert s == m + b;
      StripTrailing(m, b);
    }
  }

  /** Text made of whitespace only strips to the empty text. */
  lemma {:induction false} StripSpaces(b: string)
    requires AllSpace(b)
    ensures Strip(b) == []
    decreases |b|
  {
    if b != [] {
      StripFront(b);
      StripSpaces(b[1..]);
    }
  }

  /** Whitespace behind a trimmed, non-empty text is all that stripping removes. */
  lemma {:induction false} StripTrailing(m: string, b: string)
    requires m != [] && Trimmed(m) && AllSpace(b)
    ensures Strip(m + b) == m
    decreases |b|
  {
    if b != [] {
      DropLast(m, b);
      StripBack(m + b);
      StripTrailing(m, b[..|b| - 1]);
    }
  }

  lemma StripFront(s: string)
    requires s != [] && IsSpace(s[0])
    ensures Strip(s) == Strip(s[1..])
  {
  }

  lemma StripBack(s: string)
    requires s != [] && !IsSpace(s[0]) && IsSpace(s[|s| - 1])
    ensures Strip(s) == Strip(s[..|s| - 1])
  {
  }

  lemma DropHead<T>(a: seq<T>, b: seq<T>)
    requires a != []
    ensures (a + b)[0] == a[0] && (a + b)[1..] == a[1..] + b
  {
  }

  lemma DropLast<T>(a: seq<T>, b: seq<T>)
    requires b != []
    ensures (a + b)[|a + b| - 1] == b[|b| - 1] && (a + b)[..|a + b| - 1] == a + b[..|b| - 1]
  {
  }

  /** The description pins the stripped text down: there is only one. */
  lemma StripOfUnique(r: string, s: string)
    requires StripOf(r, s)
    ensures r == Strip(s)
  {
    var i := StripIndex(r, s);
    ThreeParts(s, i, i + |r|);
    StripSurrounded(s[..i], r, s[i + |r|..]);
  }

  /** Cutting a text twice and putting the three parts back together. */
  lemma ThreeParts(s: string, i: int, j: int)
    requires 0 <= i <= j <= |s|
    ensures s == s[..i] + s[i..j] + s[j..]
  {
    assert s[..j] == s[..i] + s[i..j];
    assert s == s[..j] + s[j..];
  }

  predicate IsDigit(c: char) {
    '0' <= c <= '9'
  }

  function DigitChar(d: nat): (c: char)
    requires d < 10
    ensures IsDigit(c)
  {
    ('0' as int + d) as char
  }

  /** `str(n)` for a natural number: decimal digits without leading zeros. */
  function Decimal(n: nat): (r: string)
    ensures |r| >= 1
    ensures forall i :: 0 <= i < |r| ==> IsDigit(r[i])
    ensures |r| > 1 ==> r[0] != '0'
    decreases n
  {
    if n < 10 then [DigitChar(n)] else Decimal(n / 10) + [DigitChar(n % 10)]
  }

  /** The number a string of decimal digits denotes. */
  function DigitsValue(s: string): nat
    requires forall i :: 0 <= i < |s| ==> IsDigit(s[i])
    decreases |s|
  {
    if s == [] then 0
    else
      assert IsDigit(s[|s| - 1]);
      DigitsValue(s[..|s| - 1]) * 10 + (s[|s| - 1] as int - '0' as int)
  }

  /** Reading back `str(n)` gives `n`. */
  lemma {:induction false} DecimalRoundTrip(n: nat)
    ensures DigitsValue(Decimal(n)) == n
    decreases n
  {
    if n >= 10 {
      DecimalRoundTrip(n / 10);
      var r := Decimal(n);
      assert r[..|r| - 1] == Decimal(n / 10);
    }
  }

  /** Distinct numbers render differently, so chunk labels are distinct. */
  lemma DecimalInjective(a: nat, b: nat)
    requires Decimal(a) == Decimal(b)
    ensures a == b
  {
    DecimalRoundTrip(a);
    DecimalRoundTrip(b);
  }

  /** The length of the run of decimal digits a text starts with. */
  function DigitRun(s: string): (n: nat)
    ensures n <= |s|
    ensures forall i :: 0 <= i < n ==> IsDigit(s[i])
    ensures n < |s| ==> !IsDigit(s[n])
    decreases |s|
  {
    if s != [] && IsDigit(s[0]) then 1 + DigitRun(s[1..]) else 0
  }

  /** Digits followed by a non-digit: the run is exactly the digits. */
  lemma DigitRunOf(d: string, rest: string)
    requires forall i :: 0 <= i < |d| ==> IsDigit(d[i])
    requires rest != [] && !IsDigit(rest[0])
    ensures DigitRun(d + rest) == |d|
  {
    assert (d + rest)[|d|] == rest[0];
  }
}
