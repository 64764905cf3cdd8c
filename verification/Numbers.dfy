/** Numbers as the shell reads and writes them: scan_number with its wrapping
    32-bit accumulator, and the outputs of Evaluate. */
module Numbers {

  const WORD := 0x1_0000_0000
  const HALF := 0x8000_0000

  /** The 32-bit pattern of x, read as a signed number. */
  function Wrap(x: int): int {
    (x + HALF) % WORD - HALF
  }

  /** The 32-bit pattern of x, read as an unsigned number. */
  function Unsigned(x: int): nat {
    x % WORD
  }

  predicate IsInt32(x: int) {
    -HALF <= x < HALF
  }

  datatype Option<T> = None | Some(value: T)

  // ------------------------------------------------------------------ digits

  predicate IsDigit(c: char) {
    '0' <= c <= '9'
  }

  predicate IsHexDigit(c: char) {
    IsDigit(c) || 'a' <= c <= 'f' || 'A' <= c <= 'F'
  }

  predicate IsBit(c: char) {
    c == '0' || c == '1'
  }

  function DigitValue(c: char): (d: int)
    requires IsHexDigit(c)
    ensures 0 <= d < 16 && (IsDigit(c) ==> d < 10) && (IsBit(c) ==> d < 2)
  {
    if IsDigit(c) then (c - '0') as int
    else if 'a' <= c <= 'f' then (c - 'a') as int + 10
    else (c - 'A') as int + 10
  }

  predicate AllDigits(base: nat, s: string) {
    forall c | c in s :: IsHexDigit(c) && DigitValue(c) < base
  }

  /** Digits of a base accumulated with wrap-around, as the scanner does. */
  function Accumulate(base: nat, v: int, s: string): int
    requires AllDigits(base, s)
  {
    if s == "" then v
    else
      var k := |s| - 1;
      Wrap(base * Accumulate(base, v, s[..k]) + DigitValue(s[k]))
  }

  /** The number that the digits stand for. */
  function Denotes(base: nat, s: string): (n: nat)
    requires AllDigits(base, s)
  {
    if s == "" then 0
    else
      var k := |s| - 1;
      base * Denotes(base, s[..k]) + DigitValue(s[k])
  }

  // ------------------------------------------------------------- wrap-around

  lemma {:induction false} WrapShift(x: int, k: int)
    ensures Wrap(x + k * WORD) == Wrap(x)
    decreases if k < 0 then -k else k
  {
    if k > 0 {
      WrapShift(x, k - 1);
      assert (x + k * WORD + HALF) % WORD == (x + (k - 1) * WORD + HALF) % WORD;
    } else if k < 0 {
      WrapShift(x, k + 1);
      assert (x + k * WORD + HALF) % WORD == (x + (k + 1) * WORD + HALF) % WORD;
    }
  }

  /** Wrapping early or late makes no difference. */
  lemma {:induction false} WrapStep(base: int, v: int, d: int)
    ensures Wrap(base * Wrap(v) + d) == Wrap(base * v + d)
  {
    var k := (v + HALF) / WORD;
    assert Wrap(v) == v - k * WORD;
    assert base * (v - k * WORD) + d == base * v + d + (-(base * k)) * WORD;
    WrapShift(base * v + d, -(base * k));
  }

  lemma {:induction false} AccumulateWraps(base: nat, s: string)
    requires AllDigits(base, s)
    ensures Accumulate(base, 0, s) == Wrap(Denotes(base, s))
    decreases s
  {
    if s != "" {
      var k := |s| - 1;
      AccumulateWraps(base, s[..k]);
      WrapStep(base, Denotes(base, s[..k]), DigitValue(s[k]));
    }
  }

  lemma {:induction false} UnsignedWraps(x: int)
    ensures Wrap(Unsigned(x)) == Wrap(x)
    ensures IsInt32(x) ==> Wrap(x) == x
  {
    var k := x / WORD;
    WrapShift(x, -k);
    assert Unsigned(x) == x + (-k) * WORD;
  }

  // ------------------------------------------------------------------ reading

  /** The texts that scan_number takes for a number, and their value. */
  function Scan(s: string): Option<int> {
    if s == "" then Some(0)
    else if s == "0" then Some(0)
    else if s[0] == '$' then ScanDigits(16, s[1..])
    else if s[0] == '0' && |s| > 1 && (s[1] == 'x' || s[1] == 'X') then ScanDigits(16, s[2..])
    else if s[0] == '0' && |s| > 1 && (s[1] == 'b' || s[1] == 'B') then ScanDigits(2, s[2..])
    else if s[0] != '0' then ScanDigits(10, s)
    else None
  }

  function ScanDigits(base: nat, s: string): Option<int> {
    if s != "" && AllDigits(base, s) then Some(Accumulate(base, 0, s)) else None
  }

  // ------------------------------------------------------------------ writing

  function DigitChar(d: nat): (c: char)
    requires d < 16
    ensures IsHexDigit(c) && DigitValue(c) == d
  {
    if d < 10 then '0' + d as char else 'a' + (d - 10) as char
  }

  /** A given number of digits, with leading zeros. */
  function Padded(base: nat, n: nat, width: nat): (s: string)
    requires 2 <= base <= 16
    ensures |s| == width
    decreases width
  {
    if width == 0 then "" else Padded(base, n / base, width - 1) + [DigitChar(n % base)]
  }

  /** Decimal digits without leading zeros; nothing for 0. */
  function Digits(n: nat): (s: string)
    ensures n > 0 ==> s != "" && s[0] != '0'
  {
    if n == 0 then "" else Digits(n / 10) + [DigitChar(n % 10)]
  }

  /** std::to_string. */
  function ToString(n: int): string {
    if n == 0 then "0" else if n < 0 then "-" + Digits(-n) else Digits(n)
  }

  /** 0x%08x. */
  function HexText(i: int): string {
    "0x" + Padded(16, Unsigned(i), 8)
  }

  function BinaryText(i: int): string {
    "0b" + Padded(2, Unsigned(i), 32)
  }

  function Power(base: nat, k: nat): (p: nat)
    ensures base > 0 ==> p > 0
  {
    if k == 0 then 1 else base * Power(base, k - 1)
  }

  lemma {:induction false} AllDigitsSnoc(base: nat, s: string, c: char)
    requires AllDigits(base, s) && IsHexDigit(c) && DigitValue(c) < base
    ensures AllDigits(base, s + [c]) && Denotes(base, s + [c]) == base * Denotes(base, s) + DigitValue(c)
  {
    assert (s + [c])[..|s|] == s;
  }

  lemma {:induction false} PaddedDenotes(base: nat, n: nat, width: nat)
    requires 2 <= base <= 16 && n < Power(base, width)
    ensures AllDigits(base, Padded(base, n, width))
    ensures Denotes(base, Padded(base, n, width)) == n
    decreases width
  {
    if width > 0 {
      DivideBelow(base, n, Power(base, width - 1));
      PaddedDenotes(base, n / base, width - 1);
      PaddedStep(base, n, Padded(base, n / base, width - 1));
    }
  }

  lemma {:induction false} PaddedStep(base: nat, n: nat, s: string)
    requires 2 <= base <= 16 && AllDigits(base, s) && Denotes(base, s) == n / base
    ensures AllDigits(base, s + [DigitChar(n % base)])
    ensures Denotes(base, s + [DigitChar(n % base)]) == n
  {
    hide Denotes, AllDigits;
    AllDigitsSnoc(base, s, DigitChar(n % base));
  }

  lemma {:induction false} DivideBelow(base: nat, n: nat, p: nat)
    requires base > 0 && n < base * p
    ensures n / base < p
  {
    if p <= n / base {
      MultiplyKeepsOrder(base, p, n / base);
    }
  }

  lemma {:induction false} MultiplyKeepsOrder(base: nat, x: nat, y: nat)
    requires x <= y
    ensures base * x <= base * y
  {
    assert base * (y - x) >= 0;
  }

  lemma {:induction false} DigitsDenote(n: nat)
    ensures AllDigits(10, Digits(n))
    ensures Denotes(10, Digits(n)) == n
    decreases n
  {
    if n > 0 {
      DigitsDenote(n / 10);
      AllDigitsSnoc(10, Digits(n / 10), DigitChar(n % 10));
    }
  }

  /** What a decimal text with a sign stands for. */
  function FromString(s: string): int {
    if s != "" && s[0] == '-' && AllDigits(10, s[1..]) then -(Denotes(10, s[1..]) as int)
    else if AllDigits(10, s) then Denotes(10, s)
    else 0
  }

  lemma {:induction false} ToStringDenotes(n: int)
    ensures FromString(ToString(n)) == n
  {
    DigitsDenote(if n < 0 then -n else n);
    if n < 0 {
      assert ToString(n)[1..] == Digits(-n);
    } else if n == 0 {
      assert "0"[..0] == "";
    } else {
      assert IsHexDigit(Digits(n)[0]);
    }
  }

  /** Different numbers are written differently. */
  lemma {:induction false} ToStringIsInjective(a: int, b: int)
    requires ToString(a) == ToString(b)
    ensures a == b
  {
    ToStringDenotes(a);
    ToStringDenotes(b);
  }

  // -------------------------------------------------------------- round trips

  /** Every output of Evaluate in hexadecimal or in binary is read back as the
      same 32-bit number, a negative one through the wrap-around. */
  lemma {:induction false} HexRoundTrip(i: int)
    requires IsInt32(i)
    ensures Scan(HexText(i)) == Some(i)
  {
    var s := Padded(16, Unsigned(i), 8);
    assert Power(16, 8) == WORD;
    PaddedDenotes(16, Unsigned(i), 8);
    AccumulateWraps(16, s);
    UnsignedWraps(i);
    assert HexText(i)[2..] == s;
  }

  lemma {:induction false} BinaryRoundTrip(i: int)
    requires IsInt32(i)
    ensures Scan(BinaryText(i)) == Some(i)
  {
    hide Power, Padded, Denotes, Accumulate, AllDigits;
    var s := Padded(2, Unsigned(i), 32);
    Power32();
    PaddedDenotes(2, Unsigned(i), 32);
    AccumulateWraps(2, s);
    UnsignedWraps(i);
    assert BinaryText(i)[2..] == s;
  }

  lemma {:induction false} Power32()
    ensures Power(2, 8) == 0x100 && Power(2, 16) == 0x1_0000 && Power(2, 24) == 0x100_0000 && Power(2, 32) == WORD
  {
    assert Power(2, 4) == 16 && Power(2, 8) == 0x100;
    assert Power(2, 12) == 0x1000 && Power(2, 16) == 0x1_0000;
    assert Power(2, 20) == 0x10_0000 && Power(2, 24) == 0x100_0000;
    assert Power(2, 28) == 0x1000_0000 && Power(2, 32) == WORD;
  }

  /** Decimal output is read back exactly when it is not negative. */
  lemma {:induction false} DecimalRoundTrip(i: int)
    requires IsInt32(i)
    ensures Scan(ToString(i)) == Some(i) <==> i >= 0
  {
    if i > 0 {
      DigitsDenote(i);
      assert Digits(i)[0] in Digits(i) && !IsHexDigit('$');
      AccumulateWraps(10, Digits(i));
      UnsignedWraps(i);
    } else if i < 0 {
      assert ToString(i)[0] == '-' && ToString(i)[0] in ToString(i) && !IsHexDigit('-');
    }
  }

  // ------------------------------------------------------------ the programs

  /** builtin_evaluate with -b: the top bit, 32 times. */
  method WriteBinary(number: int) returns (tmp: string)
    requires IsInt32(number)
    ensures tmp == BinaryText(number)
  {
    tmp := "0b";
    var i := number;
    hide Wrap, Power, Padded;
    ghost var u := Unsigned(number);
    ghost var q: nat, p: nat, r: nat, s: nat := 0, WORD, u, 1;
    Power32();
    UnsignedWraps(number);
    NothingPadded();
    for j := 0 to 32
      invariant tmp == "0b" + Padded(2, q, j)
      invariant IsInt32(i) && i == Wrap(r * s)
      invariant p == Power(2, 32 - j) && p * s == WORD
      invariant r < p && u == q * p + r
    {
      var bit := if i < 0 then '1' else '0';
      ghost var half := Power(2, 31 - j);
      ghost var b := if i < 0 then 1 else 0;
      PowerStep(32 - j);
      HalfProduct(half, s);
      BitStep(q, half, r, s, i);
      PaddedBit(q, b, j);
      WrapRange(2 * i);
      q, r, p, s := 2 * q + b, r - b * half, half, 2 * s;
      tmp := tmp + [bit];
      i := Wrap(2 * i);
    }
    PowerStep(0);
  }

  lemma {:induction false} NothingPadded()
    ensures Padded(2, 0, 0) == ""
  {
  }

  lemma {:induction false} WrapRange(x: int)
    ensures IsInt32(Wrap(x))
  {
  }

  lemma {:induction false} PowerStep(k: nat)
    ensures Power(2, 0) == 1
    ensures k > 0 ==> Power(2, k) == 2 * Power(2, k - 1)
  {
  }

  lemma {:induction false} HalfProduct(half: nat, s: nat)
    requires (2 * half) * s == WORD
    ensures half * s == HALF && half * (2 * s) == WORD
  {
  }

  lemma {:induction false} SignIsTopBit(x: int)
    requires 0 <= x < WORD
    ensures Wrap(x) < 0 <==> x >= HALF
  {
  }

  lemma {:induction false} UpperHalf(half: nat, r: nat, s: nat)
    requires half * s == HALF && r < 2 * half
    ensures 0 <= r * s < WORD
    ensures r * s >= HALF <==> r >= half
  {
    MultiplyKeepsOrder(s, r + 1, 2 * half);
    assert (2 * half) * s == WORD;
    assert s > 0;
    if r < half {
      MultiplyKeepsOrder(s, r + 1, half);
    } else {
      MultiplyKeepsOrder(s, half, r);
    }
  }

  lemma {:induction false} Doubled(half: nat, r: nat, s: nat, b: int)
    requires half * s == HALF
    ensures (r - b * half) * (2 * s) == 2 * (r * s) + (-b) * WORD
  {
    assert (b * half) * (2 * s) == 2 * b * (half * s);
    assert (r - b * half) * (2 * s) == r * (2 * s) - (b * half) * (2 * s);
  }

  /** The top bit of r * s tells whether r is in the upper half. */
  lemma {:induction false} BitStep(q: nat, half: nat, r: nat, s: nat, i: int)
    requires half * s == HALF && r < 2 * half
    requires i == Wrap(r * s)
    ensures var b := if i < 0 then 1 else 0;
            && 0 <= r - b * half < half
            && (2 * q + b) * half + (r - b * half) == q * (2 * half) + r
            && Wrap(2 * i) == Wrap((r - b * half) * (2 * s))
  {
    hide Wrap;
    var b := if i < 0 then 1 else 0;
    UpperHalf(half, r, s);
    SignIsTopBit(r * s);
    WrapStep(2, r * s, 0);
    Doubled(half, r, s, b);
    WrapShift(2 * (r * s), -b);
    assert (2 * q + b) * half == q * (2 * half) + b * half;
  }

  /** One more bit is written. */
  lemma {:induction false} PaddedBit(q: nat, b: nat, j: nat)
    requires b < 2
    ensures Padded(2, 2 * q + b, j + 1) == Padded(2, q, j) + [DigitChar(b)]
  {
    assert (2 * q + b) / 2 == q && (2 * q + b) % 2 == b;
  }

  // ---------------------------------------------------- value: a lazy number

  /** The states of the scanner. */
  datatype ScanState = Start | Zero | NeedHex | InHex | NeedBinary | InBinary | InDecimal | Dead

  function Base(st: ScanState): (b: nat)
    ensures 2 <= b <= 16
  {
    if st.NeedHex? || st.InHex? then 16 else if st.NeedBinary? || st.InBinary? then 2 else 10
  }

  predicate TakesDigit(st: ScanState, c: char) {
    IsHexDigit(c) && DigitValue(c) < Base(st) &&
    (st.NeedHex? || st.InHex? || st.NeedBinary? || st.InBinary? || st.InDecimal? || (st.Start? && c != '0'))
  }

  function NextState(st: ScanState, c: char): ScanState {
    if TakesDigit(st, c) then
      if st.NeedHex? || st.InHex? then InHex
      else if st.NeedBinary? || st.InBinary? then InBinary
      else InDecimal
    else if st.Start? && c == '0' then Zero
    else if st.Start? && c == '$' then NeedHex
    else if st.Zero? && (c == 'x' || c == 'X') then NeedHex
    else if st.Zero? && (c == 'b' || c == 'B') then NeedBinary
    else Dead
  }

  predicate Accepts(st: ScanState) {
    st.Zero? || st.InHex? || st.InBinary? || st.InDecimal?
  }

  /** The scanner from some state on. */
  function ScanFrom(st: ScanState, v: int, s: string): Option<int>
    decreases s
  {
    if s == "" then if Accepts(st) then Some(v) else None
    else
      ScanFrom(NextState(st, s[0]),
               if TakesDigit(st, s[0]) then Wrap(Base(st) * v + DigitValue(s[0])) else v, s[1..])
  }

  lemma {:induction false} AccumulateFront(base: nat, v: int, s: string)
    requires s != "" && AllDigits(base, s)
    ensures AllDigits(base, s[1..])
    ensures Accumulate(base, v, s) == Accumulate(base, Wrap(base * v + DigitValue(s[0])), s[1..])
    decreases s
  {
    hide DigitValue;
    var k := |s| - 1;
    if k > 0 {
      AccumulateFront(base, v, s[..k]);
      assert s[..k][1..] == s[1..][..k - 1];
    } else {
      assert s[..0] == "" && s[1..] == "";
    }
  }

  lemma {:induction false} DeadScans(v: int, s: string)
    ensures ScanFrom(Dead, v, s) == None
    decreases s
  {
    if s != "" {
      DeadScans(v, s[1..]);
    }
  }

  lemma {:induction false} DigitsScan(st: ScanState, v: int, s: string)
    requires st.InHex? || st.InBinary? || st.InDecimal?
    ensures ScanFrom(st, v, s) == if AllDigits(Base(st), s) then Some(Accumulate(Base(st), v, s)) else None
    decreases s
  {
    if s != "" {
      assert s == [s[0]] + s[1..];
      if TakesDigit(st, s[0]) {
        DigitsScan(st, Wrap(Base(st) * v + DigitValue(s[0])), s[1..]);
        if AllDigits(Base(st), s) {
          AccumulateFront(Base(st), v, s);
        } else {
          assert !AllDigits(Base(st), s[1..]);
        }
      } else {
        assert s[0] in s;
        DeadScans(v, s[1..]);
      }
    }
  }

  /** The scanner's states read exactly the texts that are numbers. */
  lemma {:induction false} ScannerIsScan(s: string)
    requires s != ""
    ensures ScanFrom(Start, 0, s) == Scan(s)
  {
    if s[0] == '$' {
      PrefixScan(NeedHex, s[1..]);
    } else if s[0] == '0' {
      if |s| > 1 {
        assert s[1..][0] == s[1] && s[1..][1..] == s[2..];
        if s[1] == 'x' || s[1] == 'X' {
          PrefixScan(NeedHex, s[2..]);
        } else if s[1] == 'b' || s[1] == 'B' {
          PrefixScan(NeedBinary, s[2..]);
        } else {
          DeadScans(0, s[2..]);
        }
      }
    } else {
      PrefixScan(Start, s);
    }
  }

  /** The first digit of a number. */
  lemma {:induction false} PrefixScan(st: ScanState, s: string)
    requires st.NeedHex? || st.NeedBinary? || (st.Start? && s != "" && s[0] != '0' && s[0] != '$')
    ensures ScanFrom(st, 0, s) == ScanDigits(Base(st), s)
  {
    hide Accumulate, Wrap, DigitValue;
    if s != "" {
      assert s == [s[0]] + s[1..];
      if TakesDigit(st, s[0]) {
        DigitsScan(NextState(st, s[0]), Wrap(Base(st) * 0 + DigitValue(s[0])), s[1..]);
        if AllDigits(Base(st), s) {
          AccumulateFront(Base(st), 0, s);
        } else {
          assert !AllDigits(Base(st), s[1..]);
        }
      } else {
        assert s[0] in s;
        DeadScans(0, s[1..]);
      }
    }
  }

  datatype Status = Unknown | IsNumber | NoNumber

  /** value: a text with a number that is scanned on first use. One that was
      made from a number keeps it, also when its text does not scan. */
  class Value {
    const text: string
    ghost const origin: Option<int>
    var number: int
    var status: Status

    constructor FromText(s: string)
      ensures Valid() && text == s && Meaning() == Scan(s)
    {
      text, origin, number, status := s, None, 0, Unknown;
    }

    constructor FromNumber(n: int)
      ensures Valid() && text == ToString(n) && Meaning() == Some(n)
    {
      text, origin, number, status := ToString(n), Some(n), n, IsNumber;
    }

    ghost function Meaning(): Option<int> {
      if origin.Some? then origin else Scan(text)
    }

    ghost predicate Valid()
      reads this
    {
      match status
      case Unknown => origin.None?
      case IsNumber => Meaning() == Some(number)
      case NoNumber => Meaning() == None
    }

    method ScanNumber()
      requires Valid() && status.Unknown?
      modifies this
      ensures Valid() && !status.Unknown?
    {
      if text == "" {
        status, number := IsNumber, 0;
        return;
      }
      var st, v, i := Start, 0, 0;
      while i < |text|
        invariant i <= |text|
        invariant ScanFrom(st, v, text[i..]) == ScanFrom(Start, 0, text)
      {
        assert text[i..][1..] == text[i + 1..];
        if TakesDigit(st, text[i]) {
          v := Wrap(Base(st) * v + DigitValue(text[i]));
        }
        st := NextState(st, text[i]);
        i := i + 1;
      }
      ScannerIsScan(text);
      if Accepts(st) {
        status, number := IsNumber, v;
      } else {
        status := NoNumber;
      }
    }

    /** to_number: None stands for its exception. */
    method ToNumber() returns (r: Option<int>)
      requires Valid()
      modifies this
      ensures Valid() && r == Meaning()
    {
      if status.Unknown? {
        ScanNumber();
      }
      return if status.IsNumber? then Some(number) else None;
    }
  }
}
