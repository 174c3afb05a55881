/** The "YYYY-MM" period key of a sales record: Python's `f"{year}-{month:02d}"`,
    together with a parser that recovers the (year, month) pair from the key.
    The parser exists to state that the key loses nothing: distinct periods
    never share a key. */
module PeriodKey {
  import opened Options

  predicate IsDigit(c: char) {
    '0' <= c <= '9'
  }

  predicate AllDigits(s: string) {
    forall i :: 0 <= i < |s| ==> IsDigit(s[i])
  }

  function DigitChar(d: nat): (c: char)
    requires d < 10
    ensures IsDigit(c)
  {
    "0123456789"[d]
  }

  function DigitValue(c: char): (d: nat)
    requires IsDigit(c)
    ensures d < 10
  {
    (c as int - '0' as int) as nat
  }

  lemma DigitRoundTrip(d: nat)
    requires d < 10
    ensures DigitValue(DigitChar(d)) == d
  {
  }

  /** Decimal digits of a natural number, most significant first, no leading zero. */
  function NatToString(n: nat): (s: string)
    ensures |s| >= 1
    ensures AllDigits(s)
    ensures n < 10 ==> |s| == 1
    ensures 10 <= n < 100 ==> |s| == 2
  {
    if n < 10 then [DigitChar(n)] else NatToString(n / 10) + [DigitChar(n % 10)]
  }

  /** Python's `str(i)` for an integer: a minus sign before the digits of a negative number. */
  function IntToString(i: int): (s: string)
    ensures |s| >= 1
    ensures i >= 0 <==> IsDigit(s[0])
  {
    if i >= 0 then NatToString(i) else "-" + NatToString(-i)
  }

  /** Python's `f"{m:02d}"` for a non-negative m: at least two digits, zero-padded. */
  function Pad2(m: nat): (s: string)
    ensures |s| >= 2
    ensures AllDigits(s)
    ensures m < 100 ==> |s| == 2
  {
    if m < 10 then ['0', DigitChar(m)] else NatToString(m)
  }

  /** The period key `f"{year}-{month:02d}"`. */
  function Key(year: int, month: nat): string {
    IntToString(year) + "-" + Pad2(month)
  }

  /** Value of a string of decimal digits (the empty string reads as 0). */
  function ParseNat(s: string): nat
    requires AllDigits(s)
  {
    if |s| == 0 then 0 else 10 * ParseNat(s[..|s| - 1]) + DigitValue(s[|s| - 1])
  }

  /** Reads an optional minus sign followed by at least one digit. */
  function ParseInt(s: string): Option<int> {
    if |s| >= 2 && s[0] == '-' && AllDigits(s[1..]) then Some(0 - ParseNat(s[1..]) as int)
    else if |s| >= 1 && AllDigits(s) then Some(ParseNat(s))
    else None
  }

  /** Reads a key "<year>-<MM>" whose month part is exactly two digits. */
  function ParseKey(s: string): Option<(int, nat)> {
    if |s| >= 4 && s[|s| - 3] == '-' && AllDigits(s[|s| - 2..]) then
      match ParseInt(s[..|s| - 3])
      case Some(y) => Some((y, ParseNat(s[|s| - 2..])))
      case None => None
    else None
  }

  lemma {:induction false} NatRoundTrip(n: nat)
    ensures ParseNat(NatToString(n)) == n
    decreases n
  {
    var s := NatToString(n);
    if n < 10 {
      DigitRoundTrip(n);
    } else {
      NatRoundTrip(n / 10);
      assert s[..|s| - 1] == NatToString(n / 10);
      DigitRoundTrip(n % 10);
    }
  }

  lemma IntRoundTrip(i: int)
    ensures ParseInt(IntToString(i)) == Some(i)
  {
    if i >= 0 {
      NatRoundTrip(i);
    } else {
      var s := IntToString(i);
      assert s[1..] == NatToString(-i);
      NatRoundTrip(-i);
    }
  }

  lemma Pad2RoundTrip(m: nat)
    requires m < 100
    ensures ParseNat(Pad2(m)) == m
  {
    if m < 10 {
      var s := Pad2(m);
      assert s[..1] == ['0'];
      assert ParseNat(s[..1]) == 0 by {
        assert s[..1][..0] == [];
      }
      DigitRoundTrip(m);
    } else {
      NatRoundTrip(m);
    }
  }

  /** The key of a month-numbered period parses back to that period. */
  lemma KeyRoundTrip(year: int, month: nat)
    requires month < 100
    ensures ParseKey(Key(year, month)) == Some((year, month))
  {
    var s := Key(year, month);
    var y := IntToString(year);
    var p := Pad2(month);
    assert s[|s| - 3] == '-';
    assert s[|s| - 2..] == p;
    assert s[..|s| - 3] == y;
    IntRoundTrip(year);
    Pad2RoundTrip(month);
  }

  /** Two periods with months below 100 share a key only if they are the same period. */
  lemma KeyInjective(y1: int, m1: nat, y2: int, m2: nat)
    requires m1 < 100 && m2 < 100
    ensures Key(y1, m1) == Key(y2, m2) <==> y1 == y2 && m1 == m2
  {
    KeyRoundTrip(y1, m1);
    KeyRoundTrip(y2, m2);
  }

  /** The key of January 2015 as the source writes it. */
  lemma FirstKey()
    ensures Key(2015, 1) == "2015-01"
  {
  }
}
