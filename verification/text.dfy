/** String helpers the screens rely on: JavaScript's `toLowerCase` and
    `includes` (for searches), `String(n)` and `padStart(2, '0')` (for the
    "YYYY-MM" month key) and the default string ordering of `Array.sort`. */
module Text {

  /** Lower-casing restricted to ASCII letters; other characters are kept. */
  function LowerChar(c: char): char
  {
    if 'A' <= c <= 'Z' then (c as int + 32) as char else c
  }

  function Lower(s: string): (r: string)
    ensures |r| == |s|
    ensures forall i :: 0 <= i < |s| ==> r[i] == LowerChar(s[i])
  {
    seq(|s|, i requires 0 <= i < |s| => LowerChar(s[i]))
  }

  /** `sub` occurs in `s` at position `i`. */
  ghost predicate OccursAt(s: string, sub: string, i: int)
  {
    0 <= i && i + |sub| <= |s| && s[i..i + |sub|] == sub
  }

  /** JavaScript `s.includes(sub)`, computed by scanning the positions from
      left to right; the contract ties it to the positional definition. */
  function Includes(s: string, sub: string): (r: bool)
    ensures r <==> exists i :: OccursAt(s, sub, i)
    decreases |s|
  {
    if |sub| <= |s| && s[..|sub|] == sub then
      assert OccursAt(s, sub, 0);
      true
    else if |s| == 0 then
      assert forall i :: !OccursAt(s, sub, i);
      false
    else
      var rest := Includes(s[1..], sub);
      ShiftOccurrence(s, sub);
      rest
  }

  lemma ShiftOccurrence(s: string, sub: string)
    requires |s| > 0
    requires !(|sub| <= |s| && s[..|sub|] == sub)
    ensures (exists i :: OccursAt(s, sub, i)) <==> (exists i :: OccursAt(s[1..], sub, i))
  {
    if exists i :: OccursAt(s, sub, i) {
      var i :| OccursAt(s, sub, i);
      assert i != 0;
      assert s[1..][i - 1..i - 1 + |sub|] == s[i..i + |sub|];
      assert OccursAt(s[1..], sub, i - 1);
    }
    if exists i :: OccursAt(s[1..], sub, i) {
      var i :| OccursAt(s[1..], sub, i);
      assert s[i + 1..i + 1 + |sub|] == s[1..][i..i + |sub|];
      assert OccursAt(s, sub, i + 1);
    }
  }

  /** The empty query occurs in every string, so an empty search keeps
      everything. */
  lemma {:induction false} EmptyIncluded(s: string)
    ensures Includes(s, "")
  {
    assert OccursAt(s, "", 0);
  }

  /** `s.toLowerCase().includes(q.toLowerCase())`. */
  predicate IncludesIgnoringCase(s: string, q: string)
  {
    Includes(Lower(s), Lower(q))
  }

  // ---------------------------------------------------------------------
  // Decimal rendering and the month key

  function DigitChar(d: int): char
    requires 0 <= d < 10
  {
    ('0' as int + d) as char
  }

  predicate IsDigit(c: char)
  {
    '0' <= c <= '9'
  }

  function DigitValue(c: char): int
  {
    if IsDigit(c) then c as int - '0' as int else 0
  }

  /** `String(n)` for a non-negative integer: its decimal digits, without
      leading zeros. */
  function Decimal(n: nat): (r: string)
    ensures |r| >= 1
    ensures forall i :: 0 <= i < |r| ==> IsDigit(r[i])
    ensures n >= 10 ==> r[0] != '0'
  {
    if n < 10 then [DigitChar(n)] else Decimal(n / 10) + [DigitChar(n % 10)]
  }

  /** Reads a string of decimal digits back as a number. */
  function ParseDecimal(s: string): nat
  {
    if |s| == 0 then 0
    else ParseDecimal(s[..|s| - 1]) * 10 + (if IsDigit(s[|s| - 1]) then DigitValue(s[|s| - 1]) else 0)
  }

  lemma {:induction false} DecimalRoundTrip(n: nat)
    ensures ParseDecimal(Decimal(n)) == n
  {
    if n >= 10 {
      var s := Decimal(n);
      assert s[..|s| - 1] == Decimal(n / 10);
      DecimalRoundTrip(n / 10);
    }
  }

  lemma {:induction false} LeadingZeroIgnored(s: string)
    ensures ParseDecimal("0" + s) == ParseDecimal(s)
    decreases |s|
  {
    if |s| > 0 {
      var t := "0" + s;
      assert t[..|t| - 1] == "0" + s[..|s| - 1];
      LeadingZeroIgnored(s[..|s| - 1]);
    } else {
      assert ("0" + s)[..0] == "";
    }
  }

  /** `s.padStart(2, '0')`. */
  function PadTwo(s: string): (r: string)
    ensures |r| == if |s| < 2 then 2 else |s|
    ensures |s| <= |r| && r[|r| - |s|..] == s
    ensures forall i :: 0 <= i < |r| - |s| ==> r[i] == '0'
  {
    if |s| >= 2 then s else if |s| == 1 then "0" + s else "00"
  }

  /** The "YYYY-MM" bucket of a date: the year in decimal, a dash and the
      1-based month padded to two digits. */
  function MonthKey(year: nat, month: int): (r: string)
    requires 1 <= month <= 12
    ensures |r| == |Decimal(year)| + 3
    ensures r[|r| - 3] == '-'
    ensures r[..|r| - 3] == Decimal(year)
    ensures IsDigit(r[|r| - 2]) && IsDigit(r[|r| - 1])
  {
    Decimal(year) + "-" + PadTwo(Decimal(month))
  }

  /** Splits a month key back into (year, month). */
  function ParseMonthKey(k: string): (int, int)
    requires |k| >= 3
  {
    (ParseDecimal(k[..|k| - 3]), ParseDecimal(k[|k| - 2..]))
  }

  lemma {:induction false} MonthKeyRoundTrip(year: nat, month: int)
    requires 1 <= month <= 12
    ensures ParseMonthKey(MonthKey(year, month)) == (year, month)
  {
    var k := MonthKey(year, month);
    DecimalRoundTrip(year);
    DecimalRoundTrip(month);
    assert k[|k| - 2..] == PadTwo(Decimal(month));
    if month < 10 {
      LeadingZeroIgnored(Decimal(month));
    }
  }

  /** Two dates fall in the same bucket exactly when year and month agree. */
  lemma MonthKeyInjective(y1: nat, m1: int, y2: nat, m2: int)
    requires 1 <= m1 <= 12 && 1 <= m2 <= 12
    ensures MonthKey(y1, m1) == MonthKey(y2, m2) <==> y1 == y2 && m1 == m2
  {
    if MonthKey(y1, m1) == MonthKey(y2, m2) {
      MonthKeyRoundTrip(y1, m1);
      MonthKeyRoundTrip(y2, m2);
    }
  }

  // ---------------------------------------------------------------------
  // The default ordering of `Array.prototype.sort` on strings

  /** Lexicographic order by character code; a proper prefix comes first. */
  predicate StrLess(a: string, b: string): (r: bool)
    ensures r ==> a != b
    ensures |a| < |b| && a == b[..|a|] ==> r
    ensures |b| <= |a| && b == a[..|b|] ==> !r
    decreases |a|
  {
    if |a| == 0 then |b| > 0
    else if |b| == 0 then false
    else if a[0] < b[0] then true
    else a[0] == b[0] && StrLess(a[1..], b[1..])
  }

  lemma {:induction false} StrLessIrreflexive(a: string)
    ensures !StrLess(a, a)
    decreases |a|
  {
    if |a| > 0 {
      StrLessIrreflexive(a[1..]);
    }
  }

  lemma {:induction false} StrLessTransitive(a: string, b: string, c: string)
    requires StrLess(a, b) && StrLess(b, c)
    ensures StrLess(a, c)
    decreases |a|
  {
    if |a| > 0 && a[0] == b[0] && b[0] == c[0] {
      StrLessTransitive(a[1..], b[1..], c[1..]);
    }
  }

  lemma {:induction false} StrLessTotal(a: string, b: string)
    requires a != b
    ensures StrLess(a, b) || StrLess(b, a)
    decreases |a|
  {
    if |a| > 0 && |b| > 0 && a[0] == b[0] {
      assert a == [a[0]] + a[1..] && b == [b[0]] + b[1..];
      StrLessTotal(a[1..], b[1..]);
    }
  }

  lemma {:induction false} StrLessAsymmetric(a: string, b: string)
    requires StrLess(a, b)
    ensures !StrLess(b, a)
  {
    if StrLess(b, a) {
      StrLessTransitive(a, b, a);
      StrLessIrreflexive(a);
    }
  }
}
