/** The operations of the shell's expressions on its values, and reading back
    what Evaluate writes. */
module Arithmetic {
  import opened Expressions
  import opened ExpressionParsing
  import opened ExpressionEvaluation
  import opened EvalTokens
  import opened TokenLaws
  import N = Numbers
  import Q = Quoting
  import Variables

  /** A text, with its number if it has one. */
  datatype ShellValue = ShellValue(text: string, number: N.Option<int>)

  function FromText(s: string): ShellValue {
    ShellValue(s, N.Scan(s))
  }

  function FromNumber(n: int): ShellValue {
    ShellValue(N.ToString(n), N.Some(n))
  }

  function FromBool(b: bool): ShellValue {
    FromNumber(if b then 1 else 0)
  }

  /** to_number(1): what is not a number counts as true. */
  function NumberOr1(v: ShellValue): int {
    if v.number.Some? then v.number.value else 1
  }

  const NOT_A_NUMBER := -4
  const DIVIDE_BY_ZERO := -5

  /** The quotient of C, which truncates toward zero. */
  function Quotient(a: int, b: int): int
    requires b != 0
  {
    var q := Abs(a) / Abs(b);
    if (a < 0) == (b < 0) then q else -q
  }

  function Remainder(a: int, b: int): int
    requires b != 0
  {
    a - b * Quotient(a, b)
  }

  function Abs(x: int): nat {
    if x < 0 then -x else x
  }

  /** Equal texts; as a special case nothing equals "0". */
  predicate SameText(a: string, b: string) {
    a == b || (a == "" && b == "0") || (a == "0" && b == "")
  }

  predicate IsShift(op: Kind) {
    op.ShiftLeft? || op.ShiftRight?
  }

  /** Where C leaves the result open. */
  predicate IsUndefined(op: Kind, a: int, b: int) {
    || (IsShift(op) && !(0 <= b < 32))
    || ((op.Slash? || op.Percent?) && a == -N.HALF && b == -1)
  }

  /** The operators that need two numbers, on 32-bit numbers that wrap around. */
  function OnNumbers(op: Kind, a: int, b: int): int
    requires !IsUndefined(op, a, b)
    requires op.Slash? || op.Percent? ==> b != 0
  {
    match op
    case Star => N.Wrap(a * b)
    case Slash => N.Wrap(Quotient(a, b))
    case Percent => N.Wrap(Remainder(a, b))
    case Plus => N.Wrap(a + b)
    case Minus => N.Wrap(a - b)
    case ShiftRight => N.Wrap(a / N.Power(2, b))
    case ShiftLeft => N.Wrap(a * N.Power(2, b))
    case Less => if a < b then 1 else 0
    case LessEqual => if a <= b then 1 else 0
    case LessEqualSign => if a <= b then 1 else 0
    case Greater => if a > b then 1 else 0
    case GreaterEqual => if a >= b then 1 else 0
    case GreaterEqualSign => if a >= b then 1 else 0
    case BitAnd => N.Wrap((Bits(a) & Bits(b)) as int)
    case BitXor => N.Wrap((Bits(a) ^ Bits(b)) as int)
    case BitOr => N.Wrap((Bits(a) | Bits(b)) as int)
    case _ => 0
  }

  function Bits(a: int): bv32 {
    N.Unsigned(a) as bv32
  }

  /** What is outside: regular expressions, which may set variables, and the
      results that C leaves open. */
  datatype Outside<!E> = Outside(
    matches: (E, string, string) -> (E, Attempt<bool>),
    undefined: (Kind, int, int) -> int)

  /** eval, of two values. */
  function Binary<E>(out: Outside<E>, env: E, op: Kind, l: ShellValue, r: ShellValue): (E, Attempt<ShellValue>) {
    if op.Equal? then (env, Done(FromBool(SameText(l.text, r.text))))
    else if op.NotEqual? then (env, Done(FromBool(!SameText(l.text, r.text))))
    else if op.LogicalAnd? then (env, Done(FromBool(NumberOr1(l) != 0 && NumberOr1(r) != 0)))
    else if op.LogicalOr? then (env, Done(FromBool(NumberOr1(l) != 0 || NumberOr1(r) != 0)))
    else if op.Like? || op.NotLike? then
      var m := out.matches(env, l.text, r.text);
      (m.0, if m.1.Threw? then Threw(m.1.code) else Done(FromBool(m.1.value == op.Like?)))
    else if r.number.None? then (env, Threw(NOT_A_NUMBER))
    else if (op.Slash? || op.Percent?) && r.number.value == 0 then (env, Threw(DIVIDE_BY_ZERO))
    else if l.number.None? then (env, Threw(NOT_A_NUMBER))
    else if IsUndefined(op, l.number.value, r.number.value) then
      (env, Done(FromNumber(out.undefined(op, l.number.value, r.number.value))))
    else (env, Done(FromNumber(OnNumbers(op, l.number.value, r.number.value))))
  }

  /** The operators of `unary`; `+` does nothing. */
  function Unary<E>(env: E, op: Kind, v: ShellValue): (E, Attempt<ShellValue>) {
    if op.Not? then (env, Done(FromBool(NumberOr1(v) == 0)))
    else if v.number.None? then (env, Threw(NOT_A_NUMBER))
    else (env, Done(FromNumber(N.Wrap(if op.Minus? then -v.number.value else -v.number.value - 1))))
  }

  function Shell<E>(out: Outside<E>): Semantics<E, ShellValue> {
    Semantics(
      ShellValue("", N.Some(0)),
      FromText,
      Unary,
      (env, op, l, r) => Binary(out, env, op, l, r),
      NumberOr1)
  }

  // ------------------------------------------------------------------- laws

  /** Division truncates: the remainder is smaller than the divisor and has the
      sign of the dividend. */
  lemma {:induction false} DivisionTruncates(a: int, b: int)
    requires b != 0
    ensures b * Quotient(a, b) + Remainder(a, b) == a
    ensures Abs(Remainder(a, b)) < Abs(b)
    ensures Remainder(a, b) != 0 ==> (Remainder(a, b) < 0) == (a < 0)
  {
    var q, m := Abs(a) / Abs(b), Abs(a) % Abs(b);
    assert Abs(a) == Abs(b) * q + m;
    assert b * Quotient(a, b) == if a < 0 then -(Abs(b) * q) else Abs(b) * q by {
      if b < 0 {
        assert Abs(b) == -b;
      }
    }
  }

  /** The tokens of a number that Evaluate wrote. */
  function NumberTokens(n: int): seq<Token> {
    if n < 0 then [Token(Minus, "-"), Token(Text, N.ToString(-n))] else [Token(Text, N.ToString(n))]
  }

  lemma {:induction false} DigitsAreDigits(n: nat)
    ensures var s := N.ToString(n);
            s != "" && forall i :: 0 <= i < |s| ==> N.IsDigit(s[i])
  {
    N.DigitsDenote(n);
    var s := N.ToString(n);
    forall i | 0 <= i < |s| ensures N.IsDigit(s[i]) {
      if n > 0 {
        assert s[i] in N.Digits(n);
      }
    }
  }

  lemma {:induction false} DigitsArePlain(n: nat)
    ensures var s := N.ToString(n);
            IsPlainWord(s) && N.IsDigit(s[0]) && IsWritten(Token(Text, s))
  {
    DigitsAreDigits(n);
    hide N.ToString;
    var s := N.ToString(n);
    assert IsPlainWord(s) by {
      assert forall i :: 0 <= i < |s| ==> N.IsDigit(s[i]);
    }
    assert !IsOperatorText(s);
    assert Variables.Lower(s)[0] == s[0];
  }

  /** A minus before a plain word is an operator of its own. */
  lemma {:induction false} MinusIsRead(d: string)
    requires IsPlainWord(d)
    ensures Q.Tokens("-" + d, true, "", []) == Q.Some([Q.Operator("-"), Q.Text(d)])
  {
    var s := "-" + d;
    assert s[1..] == d && s[..1] == "-";
    assert Q.OperatorLength(s, true) == 1;
    PlainIsWord(d);
    WordIsLast(d, true);
    LastIsRead(Q.Text(d), true, [Q.Operator("-")]);
    assert Q.Push([], "") + [Q.Operator("-")] == [Q.Operator("-")];
    assert !Q.IsBlank(s[0]);
    hide Q.OperatorLength;
    assert Q.Tokens(s, true, "", []) == Q.Tokens(d, true, "", [Q.Operator("-")]);
    assert [Q.Operator("-")] + [Q.Text(d)] == [Q.Operator("-"), Q.Text(d)];
  }

  /** tokenize splits what Evaluate wrote into these tokens. */
  lemma {:induction false} NumberIsScanned(n: int)
    ensures Tokenize(N.ToString(n)) == Q.Some(NumberTokens(n))
  {
    if n >= 0 {
      DigitsArePlain(n);
      WrittenTokensAreRead(NumberTokens(n));
    } else {
      var d := N.ToString(-n);
      DigitsArePlain(-n);
      hide Q.Tokens, Q.Unquote, WordKind, Q.OperatorLength;
      MinusIsRead(d);
      PlainUnquotes(d);
      assert N.ToString(n) == "-" + d;
      var raw := [Q.Operator("-"), Q.Text(d)];
      assert Q.UnquoteAll(raw) == raw;
      assert AllTyped(raw) == [Typed(raw[0]), Typed(raw[1])];
      assert Raw(Token(Text, d)) == raw[1];
    }
  }

  function NumberTree(n: int): Expr {
    if n < 0 then Expr.Unary(Token(Minus, "-"), Leaf(Token(Text, N.ToString(-n))))
    else Leaf(Token(Text, N.ToString(n)))
  }

  /** Decimal output, scanned as an expression, is one for the number that was written, also when
      that is negative and its text alone is no number. */
  lemma {:induction false} DecimalOutputEvaluates<E>(out: Outside<E>, env: E, n: int)
    requires N.IsInt32(n)
    ensures Tokenize(N.ToString(n)) == Q.Some(NumberTokens(n))
    ensures ParseBinary(NumberTokens(n)) == Parsed(NumberTree(n), [])
    ensures NumberOf(Shell(out), Eval(Shell(out), NumberTree(n), env)) == (env, Answer.Value(n))
  {
    NumberIsScanned(n);
    hide N.Scan, N.ToString, N.Wrap, Tokenize;
    var t := NumberTree(n);
    if n < 0 {
      assert Yield(t.arg) == [t.arg.token] && Derives(t.arg, Eof);
      assert Yield(t) == [t.op] + [t.arg.token] == NumberTokens(n);
    }
    assert Derives(t, Eof);
    assert Yield(t) + [] == NumberTokens(n);
    LoopIsTheGrammar(NumberTokens(n), t, []);
    if n < 0 {
      NegatedNumber(n);
    } else {
      N.DecimalRoundTrip(n);
    }
  }

  lemma {:induction false} NegatedNumber(n: int)
    requires N.IsInt32(n) && n < 0
    ensures N.Scan(N.ToString(-n)).Some?
    ensures N.Wrap(-N.Scan(N.ToString(-n)).value) == n
  {
    hide N.Wrap, N.Scan;
    PositiveScans(-n);
    N.WrapStep(-1, -n, 0);
    N.UnsignedWraps(n);
    assert -1 * -n + 0 == n && -1 * N.Wrap(-n) + 0 == -N.Wrap(-n);
  }

  lemma {:induction false} PositiveScans(n: nat)
    requires n > 0
    ensures N.Scan(N.ToString(n)) == N.Some(N.Wrap(n))
  {
    N.DigitsDenote(n);
    var s := N.Digits(n);
    assert s[0] in s && !N.IsHexDigit('$');
    N.AccumulateWraps(10, s);
  }
}
