/** Which texts are numbers, and what they stand for. */
module NumberLaws {
  import opened Numbers

  /** Digits of a base up to 16, of either case. */
  predicate AreDigits(s: string, base: nat) {
    s != "" && forall i :: 0 <= i < |s| ==> 0 <= Worth(s[i]) < base
  }

  /** What a digit is worth; -1 when it is none. */
  function Worth(c: char): int {
    if c == '0' then 0 else if c == '1' then 1 else if c == '2' then 2 else if c == '3' then 3
    else if c == '4' then 4 else if c == '5' then 5 else if c == '6' then 6 else if c == '7' then 7
    else if c == '8' then 8 else if c == '9' then 9
    else if c == 'a' || c == 'A' then 10 else if c == 'b' || c == 'B' then 11
    else if c == 'c' || c == 'C' then 12 else if c == 'd' || c == 'D' then 13
    else if c == 'e' || c == 'E' then 14 else if c == 'f' || c == 'F' then 15
    else -1
  }

  /** The value of the digits, the first being worth the most. */
  function Total(s: string, base: nat): int
    decreases |s|
  {
    if s == "" then 0 else Worth(s[0]) * Power(base, |s| - 1) + Total(s[1..], base)
  }

  lemma {:induction false} WorthIsValue(c: char)
    ensures Worth(c) >= 0 <==> IsHexDigit(c)
    ensures IsHexDigit(c) ==> DigitValue(c) == Worth(c)
  {
  }

  lemma {:induction false} DigitsAreDigits(s: string, base: nat)
    requires base <= 16 && s != ""
    ensures AreDigits(s, base) <==> AllDigits(base, s)
  {
    forall i | 0 <= i < |s|
      ensures s[i] in s && (0 <= Worth(s[i]) < base <==> IsHexDigit(s[i]) && DigitValue(s[i]) < base)
    {
      WorthIsValue(s[i]);
    }
  }

  lemma {:induction false} DenotesFirst(s: string, base: nat)
    requires AllDigits(base, s) && s != ""
    ensures AllDigits(base, s[1..]) && s[0] in s
    ensures Denotes(base, s) == DigitValue(s[0]) * Power(base, |s| - 1) + Denotes(base, s[1..])
    decreases |s|
  {
    var k := |s| - 1;
    assert AllDigits(base, s[1..]);
    if k == 0 {
      assert s[..0] == "" && s[1..] == "";
    } else {
      DenotesFirst(s[..k], base);
      assert s[..k][1..] == s[1..][..k - 1] && s[1..][k - 1] == s[k];
      var d, p, q := DigitValue(s[0]), Power(base, k - 1), Denotes(base, s[1..][..k - 1]);
      Distribute(base, d, p, q);
    }
  }

  lemma {:induction false} Distribute(base: int, d: int, p: int, q: int)
    ensures base * (d * p + q) == d * (base * p) + base * q
  {
  }

  lemma {:induction false} TotalIsDenoted(s: string, base: nat)
    requires AllDigits(base, s)
    ensures Total(s, base) == Denotes(base, s)
    decreases |s|
  {
    if s != "" {
      DenotesFirst(s, base);
      WorthIsValue(s[0]);
      TotalIsDenoted(s[1..], base);
    }
  }

  lemma {:induction false} DigitsAreScanned(s: string, base: nat)
    requires base <= 16
    ensures ScanDigits(base, s) == if AreDigits(s, base) then Some(Wrap(Total(s, base))) else None
  {
    if s != "" {
      DigitsAreDigits(s, base);
      if AllDigits(base, s) {
        AccumulateWraps(base, s);
        TotalIsDenoted(s, base);
      }
    }
  }

  /** Hexadecimal behind `$`, `0x` or `0X`, and binary behind `0b` or `0B`,
      modulo 2 to the 32. */
  lemma {:induction false} PrefixedNumbers(d: string)
    ensures Scan("$" + d) == if AreDigits(d, 16) then Some(Wrap(Total(d, 16))) else None
    ensures Scan("0x" + d) == Scan("$" + d) && Scan("0X" + d) == Scan("$" + d)
    ensures Scan("0b" + d) == if AreDigits(d, 2) then Some(Wrap(Total(d, 2))) else None
    ensures Scan("0B" + d) == Scan("0b" + d)
  {
    hide AreDigits, Total, ScanDigits;
    DigitsAreScanned(d, 16);
    DigitsAreScanned(d, 2);
    assert ("$" + d)[1..] == d;
    assert ("0x" + d)[2..] == d && ("0X" + d)[2..] == d;
    assert ("0b" + d)[2..] == d && ("0B" + d)[2..] == d;
  }

  /** Decimal without a leading zero; the empty text and `0` are 0. Nothing else
      is a number: no leading zero, no sign, no other character. */
  lemma {:induction false} OtherNumbers(d: string)
    ensures Scan("") == Some(0) && Scan("0") == Some(0)
    ensures d != "" && '1' <= d[0] <= '9' ==>
      Scan(d) == if AreDigits(d, 10) then Some(Wrap(Total(d, 10))) else None
    ensures d != "" && d[0] != '$' && !('0' <= d[0] <= '9') ==> Scan(d) == None
    ensures |d| > 1 && d[0] == '0' && d[1] !in "xXbB" ==> Scan(d) == None
  {
    hide AreDigits, Total, ScanDigits;
    DigitsAreScanned(d, 10);
    if d != "" && !('0' <= d[0] <= '9') {
      NoDigit(d);
    }
  }

  lemma {:induction false} NoDigit(d: string)
    requires d != "" && !('0' <= d[0] <= '9')
    ensures !AreDigits(d, 10)
  {
    assert Worth(d[0]) < 0 || Worth(d[0]) >= 10;
  }
}
