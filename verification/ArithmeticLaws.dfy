/** Arithmetic from text to number: what Evaluate makes of every operator. */
module ArithmeticLaws {
  import opened Expressions
  import opened ExpressionParsing
  import opened ExpressionEvaluation
  import opened EvalTokens
  import opened TokenLaws
  import opened Arithmetic
  import N = Numbers
  import Q = Quoting
  import QuotingLaws
  import Variables

  // ------------------------------------------------------------ the operators

  /** The binary operators, as they are written. */
  function BinaryKind(op: string): Kind {
    if op == "*" then Star
    else if op == [Q.DIVIDE] || Variables.Lower(op) == "div" then Slash
    else if op == "%" || Variables.Lower(op) == "mod" then Percent
    else if op == "+" then Plus
    else if op == "-" then Minus
    else if op == "<<" then ShiftLeft
    else if op == ">>" then ShiftRight
    else if op == "<" then Less
    else if op == "<=" || op == [Q.LESS_EQUAL] then LessEqual
    else if op == ">" then Greater
    else if op == ">=" then GreaterEqual
    else if op == [Q.GREATER_EQUAL] then GreaterEqualSign
    else if op == "==" then Equal
    else if op == "!=" || op == "<>" || op == [Q.NOT_EQUAL] then NotEqual
    else if op == "&" then BitAnd
    else if op == "^" then BitXor
    else if op == "|" then BitOr
    else if op == "&&" || Variables.Lower(op) == "and" then LogicalAnd
    else if op == "||" || Variables.Lower(op) == "or" then LogicalOr
    else Text
  }

  function UnaryKind(op: string): Kind {
    if op == "-" then Minus
    else if op == "+" then Plus
    else if op == "!" || op == [Q.NOT] || Variables.Lower(op) == "not" then Not
    else if op == "~" then Complement
    else Text
  }

  /** r is the 32-bit number that x wraps around to. */
  predicate Is32BitsOf(r: int, x: int) {
    -0x8000_0000 <= r < 0x8000_0000 && (x - r) % 0x1_0000_0000 == 0
  }

  function Truth(b: bool): int {
    if b then 1 else 0
  }

  function Size(x: int): nat {
    if x < 0 then -x else x
  }

  /** q and m are quotient and remainder, truncated toward zero. */
  predicate Divides(a: int, b: int, q: int, m: int) {
    a == b * q + m && Size(m) < Size(b) && (m == 0 || (m < 0 <==> a < 0))
  }

  /** r is the result of the operator on the 32-bit numbers a and b. */
  ghost predicate IsResult(k: Kind, a: int, b: int, r: int) {
    match k
    case Star => Is32BitsOf(r, a * b)
    case Slash => exists m :: Divides(a, b, r, m)
    case Percent => exists q :: Divides(a, b, q, r)
    case Plus => Is32BitsOf(r, a + b)
    case Minus => Is32BitsOf(r, a - b)
    case ShiftLeft => b >= 0 && Is32BitsOf(r, a * N.Power(2, b))
    case ShiftRight => b >= 0 && N.Power(2, b) * r <= a < N.Power(2, b) * r + N.Power(2, b)
    case Less => r == Truth(a < b)
    case LessEqual => r == Truth(a <= b)
    case Greater => r == Truth(a > b)
    case GreaterEqual => r == Truth(a >= b)
    case GreaterEqualSign => r == Truth(a >= b)
    case Equal => r == Truth(a == b)
    case NotEqual => r == Truth(a != b)
    case BitAnd => N.IsInt32(r) && Bits(r) == Bits(a) & Bits(b)
    case BitXor => N.IsInt32(r) && Bits(r) == Bits(a) ^ Bits(b)
    case BitOr => N.IsInt32(r) && Bits(r) == Bits(a) | Bits(b)
    case LogicalAnd => r == Truth(a != 0 && b != 0)
    case LogicalOr => r == Truth(a != 0 || b != 0)
    case _ => false
  }

  predicate IsUnaryResult(k: Kind, a: int, r: int) {
    match k
    case Minus => Is32BitsOf(r, -a)
    case Plus => r == a
    case Not => r == Truth(a == 0)
    case Complement => r == -1 - a
    case _ => false
  }

  // -------------------------------------------------------------- on numbers

  lemma {:induction false} WrapIs32Bits(x: int)
    ensures Is32BitsOf(N.Wrap(x), x)
  {
  }

  lemma {:induction false} WrapKeeps(x: int)
    requires N.IsInt32(x)
    ensures N.Wrap(x) == x
  {
  }

  lemma {:induction false} Scaled(x: int, y: int, p: int)
    requires x <= y && p >= 0
    ensures p * x <= p * y
  {
  }

  lemma {:induction false} QuotientSize(a: nat, b: nat, q: nat, m: nat)
    requires a == b * q + m && 0 < b
    ensures q <= a && (b > 1 && a > 0 ==> q < a)
  {
    Scaled(1, b, q);
    if b > 1 {
      Scaled(2, b, q);
    }
    assert q * b == b * q;
  }

  lemma {:induction false} Bounded(a: int, b: int, q: int, r: int)
    requires N.IsInt32(a) && N.IsInt32(b) && b != 0 && !(a == -N.HALF && b == -1)
    requires 0 <= q <= Abs(a) && (Abs(b) > 1 && a != 0 ==> q < Abs(a))
    requires r == if (a < 0) == (b < 0) then q else -q
    ensures N.IsInt32(r)
  {
  }

  lemma {:induction false} QuotientIsSmall(a: int, b: int)
    requires N.IsInt32(a) && N.IsInt32(b) && b != 0 && !(a == -N.HALF && b == -1)
    ensures N.IsInt32(Quotient(a, b))
  {
    WholeQuotient(Abs(a), Abs(b));
    Bounded(a, b, Abs(a) / Abs(b), Quotient(a, b));
  }

  lemma {:induction false} WholeQuotient(x: nat, y: nat)
    requires y > 0
    ensures 0 <= x / y <= x && (y > 1 && x > 0 ==> x / y < x)
  {
    var q, m := x / y, x % y;
    assert x == y * q + m;
    QuotientSize(x, y, q, m);
  }

  lemma {:induction false} RemainderIsSmall(a: int, b: int)
    requires N.IsInt32(a) && N.IsInt32(b) && b != 0
    ensures N.IsInt32(Remainder(a, b))
  {
    hide Remainder, Quotient;
    DivisionTruncates(a, b);
  }

  lemma {:induction false} ShiftIsSmall(a: int, p: int)
    requires N.IsInt32(a) && p > 0
    ensures p * (a / p) <= a < p * (a / p) + p && N.IsInt32(a / p)
  {
    FloorBound(a, p, a / p, a % p);
  }

  lemma {:induction false} Below(a: int, p: int, q: int)
    requires p > 0 && a < 0
    ensures q < a ==> p * q + p <= a
  {
    if q < a {
      Scaled(q + 1, a, p);
      Scaled(1, p, -a);
      assert -a * p == -(p * a);
    }
  }

  lemma {:induction false} FloorBound(a: int, p: int, q: int, m: int)
    requires p > 0 && a == p * q + m && 0 <= m < p
    ensures if a >= 0 then 0 <= q <= a else a <= q < 0
  {
    if q < 0 {
      Scaled(q, -1, p);
      Below(a, p, q);
    } else {
      Scaled(0, q, p);
      Scaled(1, p, q);
      assert q * p == p * q;
    }
  }

  lemma {:induction false} BitsRange(x: bv32)
    ensures 0 <= x as int < 0x1_0000_0000
    ensures (x as int) as bv32 == x
  {
  }

  lemma {:induction false} UnsignedWrap(i: int)
    requires 0 <= i < N.WORD
    ensures N.Unsigned(N.Wrap(i)) == i
  {
  }

  lemma {:induction false} BitsWrap(x: bv32)
    ensures Bits(N.Wrap(x as int)) == x
  {
    BitsRange(x);
    UnsignedWrap(x as int);
    hide N.Wrap, N.Unsigned;
  }

  /** Where C leaves the result open, and where the shell throws. */
  predicate IsDefined(k: Kind, a: int, b: int) {
    && (k.ShiftLeft? || k.ShiftRight? ==> 0 <= b < 32)
    && (k.Slash? || k.Percent? ==> b != 0 && !(a == -0x8000_0000 && b == -1))
  }

  /** A value that is the number n, as it is written. */
  predicate IsNumber(v: ShellValue, n: int) {
    v == ShellValue(N.ToString(n), N.Some(n))
  }

  lemma {:induction false} EqualTexts(a: int, b: int)
    ensures SameText(N.ToString(a), N.ToString(b)) <==> a == b
  {
    hide N.Digits;
    if N.ToString(a) == N.ToString(b) {
      N.ToStringIsInjective(a, b);
    }
    NotEmpty(a);
    NotEmpty(b);
  }

  lemma {:induction false} NotEmpty(n: int)
    ensures N.ToString(n) != ""
  {
    N.DigitsDenote(if n < 0 then -n else n);
  }

  lemma {:induction false} SumsGive(a: int, b: int)
    ensures IsResult(Star, a, b, OnNumbers(Star, a, b))
    ensures IsResult(Plus, a, b, OnNumbers(Plus, a, b))
    ensures IsResult(Minus, a, b, OnNumbers(Minus, a, b))
    ensures 0 <= b < 32 ==> IsResult(ShiftLeft, a, b, OnNumbers(ShiftLeft, a, b))
  {
    hide N.Wrap;
    WrapIs32Bits(a * b);
    WrapIs32Bits(a + b);
    WrapIs32Bits(a - b);
    if b >= 0 {
      WrapIs32Bits(a * N.Power(2, b));
    }
  }

  lemma {:induction false} ShiftGives(a: int, b: int)
    requires N.IsInt32(a) && 0 <= b < 32
    ensures IsResult(ShiftRight, a, b, OnNumbers(ShiftRight, a, b))
  {
    hide N.Wrap;
    ShiftIsSmall(a, N.Power(2, b));
    WrapKeeps(a / N.Power(2, b));
  }

  lemma {:induction false} BitsAreGiven(a: int, b: int)
    ensures IsResult(BitAnd, a, b, OnNumbers(BitAnd, a, b))
    ensures IsResult(BitXor, a, b, OnNumbers(BitXor, a, b))
    ensures IsResult(BitOr, a, b, OnNumbers(BitOr, a, b))
  {
    hide N.Wrap, Bits;
    BitsGive(Bits(a) & Bits(b));
    BitsGive(Bits(a) ^ Bits(b));
    BitsGive(Bits(a) | Bits(b));
  }

  predicate IsComparison(k: Kind) {
    k.Less? || k.LessEqual? || k.Greater? || k.GreaterEqual? || k.GreaterEqualSign?
  }

  lemma {:induction false} ComparisonsGive(k: Kind, a: int, b: int)
    requires IsComparison(k)
    ensures IsResult(k, a, b, OnNumbers(k, a, b))
  {
  }

  lemma {:induction false} QuotientsGive(a: int, b: int)
    requires N.IsInt32(a) && N.IsInt32(b) && b != 0 && !(a == -N.HALF && b == -1)
    ensures IsResult(Slash, a, b, OnNumbers(Slash, a, b))
    ensures IsResult(Percent, a, b, OnNumbers(Percent, a, b))
  {
    hide Quotient, Remainder, N.Wrap;
    DivisionGives(a, b);
  }

  lemma {:induction false} NumbersGive(k: Kind, a: int, b: int)
    requires N.IsInt32(a) && N.IsInt32(b) && Precedence(k) > 0 && IsDefined(k, a, b)
    requires !k.Equal? && !k.NotEqual? && !k.Like? && !k.NotLike? && !k.LogicalAnd? && !k.LogicalOr?
    requires !k.LessEqualSign?
    ensures !IsUndefined(k, a, b) && IsResult(k, a, b, OnNumbers(k, a, b))
  {
    hide OnNumbers, IsResult;
    SumsGive(a, b);
    BitsAreGiven(a, b);
    if IsComparison(k) {
      ComparisonsGive(k, a, b);
    } else if k.ShiftRight? {
      ShiftGives(a, b);
    } else if k.Slash? || k.Percent? {
      QuotientsGive(a, b);
    }
  }

  lemma {:induction false} DivisionGives(a: int, b: int)
    requires N.IsInt32(a) && N.IsInt32(b) && b != 0 && !(a == -N.HALF && b == -1)
    ensures N.Wrap(Quotient(a, b)) == Quotient(a, b) && N.Wrap(Remainder(a, b)) == Remainder(a, b)
    ensures Divides(a, b, Quotient(a, b), Remainder(a, b))
  {
    hide Quotient, Remainder, N.Wrap;
    DivisionTruncates(a, b);
    QuotientIsSmall(a, b);
    RemainderIsSmall(a, b);
    WrapKeeps(Quotient(a, b));
    WrapKeeps(Remainder(a, b));
  }

  lemma {:induction false} BitsGive(x: bv32)
    ensures N.IsInt32(N.Wrap(x as int)) && Bits(N.Wrap(x as int)) == x
  {
    BitsRange(x);
    BitsWrap(x);
  }

  /** Every operator, on two numbers. */
  lemma {:induction false} OperatorGives<E>(out: Outside<E>, env: E, k: Kind, a: int, b: int,
      l: ShellValue, r: ShellValue)
    requires N.IsInt32(a) && N.IsInt32(b) && IsNumber(l, a) && IsNumber(r, b)
    requires Precedence(k) > 0 && !k.Like? && !k.NotLike? && !k.LessEqualSign?
    ensures var x := Arithmetic.Binary(out, env, k, l, r);
            && x.0 == env
            && (IsDefined(k, a, b) ==> x.1.Done? && IsResult(k, a, b, NumberOr1(x.1.value)))
            && ((k.Slash? || k.Percent?) && b == 0 ==> x.1 == Threw(DIVIDE_BY_ZERO))
  {
    hide OnNumbers, IsResult, SameText, N.ToString;
    EqualTexts(a, b);
    if k.Equal? || k.NotEqual? || k.LogicalAnd? || k.LogicalOr? {
      TruthGives(k, a, b);
    } else if IsDefined(k, a, b) {
      NumbersGive(k, a, b);
    }
  }

  lemma {:induction false} TruthGives(k: Kind, a: int, b: int)
    ensures k.Equal? ==> IsResult(k, a, b, Truth(a == b))
    ensures k.NotEqual? ==> IsResult(k, a, b, Truth(a != b))
    ensures k.LogicalAnd? ==> IsResult(k, a, b, Truth(a != 0 && b != 0))
    ensures k.LogicalOr? ==> IsResult(k, a, b, Truth(a != 0 || b != 0))
  {
  }

  // --------------------------------------------------------------- from text

  predicate IsKeyword(op: string) {
    var l := Variables.Lower(op);
    l == "div" || l == "mod" || l == "and" || l == "or" || l == "not"
  }

  /** A keyword is a plain word, and no operator. */
  lemma {:induction false} KeywordIsPlain(op: string)
    requires IsKeyword(op)
    ensures IsPlainWord(op) && !IsOperatorText(op) && IsLetter(op[0])
  {
    var l := Variables.Lower(op);
    forall i | 0 <= i < |op| ensures QuotingLaws.IsPlain(op[i]) && IsLetter(op[i]) {
      assert l[i] == Variables.LowerChar(op[i]);
      assert 'a' <= l[i] <= 'z';
    }
    assert IsLetter(op[0]);
  }

  predicate IsLetter(c: char) {
    'a' <= c <= 'z' || 'A' <= c <= 'Z'
  }

  lemma {:induction false} SymbolIsWritten(op: string)
    requires IsOperatorText(op)
    ensures IsWritten(Token(OperatorKind(op), op))
  {
  }

  predicate IsOperation(op: string) {
    BinaryKind(op) != Text || UnaryKind(op) != Text
  }

  lemma {:induction false} OneByte(c: char)
    requires IsOperation([c])
    ensures Q.OperatorLength([c], true) == 1
    ensures BinaryKind([c]) != Text ==> OperatorKind([c]) == BinaryKind([c])
    ensures UnaryKind([c]) != Text ==> OperatorKind([c]) == UnaryKind([c])
  {
    assert |Variables.Lower([c])| == 1;
    hide Variables.Lower;
  }

  lemma {:induction false} TwoBytes(c: char, d: char)
    requires IsOperation([c, d]) && !IsKeyword([c, d])
    ensures Q.OperatorLength([c, d], true) == 2
    ensures BinaryKind([c, d]) != Text ==> OperatorKind([c, d]) == BinaryKind([c, d])
    ensures UnaryKind([c, d]) != Text ==> OperatorKind([c, d]) == UnaryKind([c, d])
  {
    assert |Variables.Lower([c, d])| == 2;
    hide Variables.Lower;
  }

  lemma {:induction false} OperationLength(op: string)
    requires IsOperation(op) && !IsKeyword(op)
    ensures 1 <= |op| <= 2
  {
    hide Variables.Lower;
  }

  /** The types of the symbols, as the scanner gives them. */
  lemma {:induction false} SymbolKinds(op: string)
    requires IsOperation(op) && !IsKeyword(op)
    ensures IsOperatorText(op)
    ensures BinaryKind(op) != Text ==> OperatorKind(op) == BinaryKind(op)
    ensures UnaryKind(op) != Text ==> OperatorKind(op) == UnaryKind(op)
  {
    hide BinaryKind, UnaryKind, OperatorKind, Q.OperatorLength, IsKeyword, IsOperation;
    OperationLength(op);
    if |op| == 1 {
      assert op == [op[0]];
      OneByte(op[0]);
    } else {
      assert op == [op[0], op[1]];
      TwoBytes(op[0], op[1]);
    }
  }

  lemma {:induction false} KeywordKinds(op: string)
    requires IsKeyword(op)
    ensures BinaryKind(op) != Text ==> WordKind(op) == BinaryKind(op)
    ensures UnaryKind(op) != Text ==> WordKind(op) == UnaryKind(op)
    ensures IsOperation(op)
  {
    KeywordIsPlain(op);
    assert !IsOperatorText(op);
    SymbolsAreNotLetters(op);
  }

  lemma {:induction false} SymbolsAreNotLetters(op: string)
    requires op != "" && IsLetter(op[0])
    ensures op[0] != '*' && op[0] != '%' && op[0] != '+' && op[0] != '-' && op[0] != '<' && op[0] != '>'
    ensures op[0] != '=' && op[0] != '!' && op[0] != '&' && op[0] != '|' && op[0] != '^' && op[0] != '~'
    ensures op[0] != Q.DIVIDE && op[0] != Q.LESS_EQUAL && op[0] != Q.GREATER_EQUAL && op[0] != Q.NOT_EQUAL
    ensures op[0] != Q.NOT
  {
  }

  /** The token of an operator. */
  function OperatorToken(op: string): Token {
    Token(if BinaryKind(op) != Text then BinaryKind(op) else UnaryKind(op), op)
  }

  lemma {:induction false} OperatorIsWritten(op: string)
    requires IsOperation(op)
    ensures IsWritten(Token(if IsKeyword(op) then WordKind(op) else OperatorKind(op), op))
    ensures BinaryKind(op) != Text ==> IsWritten(Token(BinaryKind(op), op))
    ensures UnaryKind(op) != Text ==> IsWritten(Token(UnaryKind(op), op))
  {
    hide BinaryKind, UnaryKind, OperatorKind, WordKind, IsOperatorText, IsPlainWord, Q.OperatorLength, IsKeyword;
    if IsKeyword(op) {
      KeywordIsPlain(op);
      KeywordKinds(op);
    } else {
      SymbolKinds(op);
    }
  }

  /** What the scanner yields for the text of a number. */
  function RawNumber(n: int): seq<Q.Token> {
    if n < 0 then [Q.Operator("-"), Q.Text(N.ToString(-n))] else [Q.Text(N.ToString(n))]
  }

  /** A number, and what is behind it. */
  lemma {:induction false} NumberIsRead(n: int, rest: string, tokens: seq<Q.Token>)
    ensures Q.Tokens(N.ToString(n), true, "", tokens) == Q.Some(tokens + RawNumber(n))
    ensures Q.Tokens(N.ToString(n) + " " + rest, true, "", tokens) == Q.Tokens(rest, true, "", tokens + RawNumber(n))
  {
    hide IsWritten, IsPlainWord, Q.Tokens, IsToken;
    var d := N.ToString(if n < 0 then -n else n);
    DigitsArePlain(if n < 0 then -n else n);
    RawIsToken(Token(Text, d));
    assert Raw(Token(Text, d)) == Q.Text(d) by { PlainIsRaw(d); }
    if n < 0 {
      var before := tokens + [Q.Operator("-")];
      MinusFirst(d, tokens);
      MinusFirst(d + " " + rest, tokens);
      LastIsRead(Q.Text(d), true, before);
      TokenIsRead(Q.Text(d), rest, true, before);
      assert before + [Q.Text(d)] == tokens + RawNumber(n);
      assert N.ToString(n) == "-" + d && "-" + d + " " + rest == "-" + (d + " " + rest);
    } else {
      LastIsRead(Q.Text(d), true, tokens);
      TokenIsRead(Q.Text(d), rest, true, tokens);
    }
  }

  lemma {:induction false} PlainIsRaw(d: string)
    requires IsPlainWord(d)
    ensures Raw(Token(Text, d)) == Q.Text(d)
  {
  }

  lemma {:induction false} MinusFirst(rest: string, tokens: seq<Q.Token>)
    requires rest != "" && N.IsDigit(rest[0])
    ensures Q.Tokens("-" + rest, true, "", tokens) == Q.Tokens(rest, true, "", tokens + [Q.Operator("-")])
  {
    var s := "-" + rest;
    assert s[1..] == rest && s[..1] == "-" && s[1] == rest[0];
    assert Q.OperatorLength(s, true) == 1;
    hide Q.OperatorLength;
  }

  /** The scanner splits an operation into its tokens. */
  lemma {:induction false} OperationIsScanned(a: int, op: string, b: int)
    requires BinaryKind(op) != Text
    ensures Tokenize(N.ToString(a) + " " + op + " " + N.ToString(b)) ==
      Q.Some(NumberTokens(a) + [Token(BinaryKind(op), op)] + NumberTokens(b))
  {
    hide Q.Tokens, BinaryKind, IsWritten, RawNumber, IsToken, Raw, N.ToString;
    var t := Token(BinaryKind(op), op);
    OperatorIsWritten(op);
    RawIsToken(t);
    assert Raw(t).text == op by { RawText(t); }
    var text := N.ToString(a) + " " + op + " " + N.ToString(b);
    assert text == N.ToString(a) + " " + (op + " " + N.ToString(b));
    NumberIsRead(a, op + " " + N.ToString(b), []);
    TokenIsRead(Raw(t), N.ToString(b), true, [] + RawNumber(a));
    NumberIsRead(b, "", RawNumber(a) + [Raw(t)]);
    assert [] + RawNumber(a) == RawNumber(a);
    TypedParts(a, t, b);
  }

  lemma {:induction false} RawText(t: Token)
    ensures Raw(t).text == t.text
  {
  }

  lemma {:induction false} UnquotedNumber(n: int)
    ensures AllTyped(Q.UnquoteAll(RawNumber(n))) == NumberTokens(n)
  {
    var m := if n < 0 then -n else n;
    DigitsArePlain(m);
    hide Q.Unquote, WordKind, Q.OperatorLength, N.ToString, IsPlainWord;
    PlainUnquotes(N.ToString(m));
    PlainIsRaw(N.ToString(m));
    assert Typed(Q.Operator("-")) == Token(Minus, "-");
  }

  lemma {:induction false} TypedConcat(a: seq<Q.Token>, b: seq<Q.Token>)
    ensures AllTyped(Q.UnquoteAll(a + b)) == AllTyped(Q.UnquoteAll(a)) + AllTyped(Q.UnquoteAll(b))
  {
    hide Q.Unquote, Typed;
  }

  lemma {:induction false} TypedParts(a: int, t: Token, b: int)
    requires IsWritten(t)
    ensures AllTyped(Q.UnquoteAll(RawNumber(a) + [Raw(t)] + RawNumber(b))) == NumberTokens(a) + [t] + NumberTokens(b)
  {
    TypedOne(t);
    hide IsWritten, RawNumber, Raw, AllTyped, Q.UnquoteAll, NumberTokens;
    TypedConcat(RawNumber(a) + [Raw(t)], RawNumber(b));
    TypedConcat(RawNumber(a), [Raw(t)]);
    UnquotedNumber(a);
    UnquotedNumber(b);
  }

  lemma {:induction false} TypedOne(t: Token)
    requires IsWritten(t)
    ensures AllTyped(Q.UnquoteAll([Raw(t)])) == [t]
  {
    RawIsTyped(t);
    hide IsWritten, Raw, Q.Unquote;
  }

  // ----------------------------------------------------------- the results

  lemma {:induction false} NumberDerives(n: int, next: Kind)
    ensures Derives(NumberTree(n), next) && !NumberTree(n).Binary?
    ensures Yield(NumberTree(n)) == NumberTokens(n)
  {
    hide N.ToString;
    var t := NumberTree(n);
    if n < 0 {
      assert Yield(t.arg) == [t.arg.token] && Derives(t.arg, next);
      assert [t.op] + [t.arg.token] == NumberTokens(n);
    }
  }

  lemma {:induction false} NumberValue<E>(out: Outside<E>, env: E, n: int)
    requires N.IsInt32(n)
    ensures var x := Eval(Shell(out), NumberTree(n), env);
            x.0 == env && x.1.Done? && IsNumber(x.1.value, n)
  {
    hide N.Scan, N.ToString, N.Wrap;
    if n < 0 {
      NegatedNumber(n);
    } else {
      N.DecimalRoundTrip(n);
    }
  }

  /** From text to number: two numbers with an operator between them, whichever it
      is and however it is written, are scanned, parsed and evaluated to the
      32-bit result of the operator; a division by zero throws. */
  lemma {:induction false} OperationsCompute<E>(out: Outside<E>, env: E, a: int, op: string, b: int)
    requires N.IsInt32(a) && N.IsInt32(b) && BinaryKind(op) != Text
    ensures var ts := Tokenize(N.ToString(a) + " " + op + " " + N.ToString(b));
            && ts.Some?
            && var p := ParseBinary(ts.value);
               && p.Parsed? && p.rest == []
               && var x := NumberOf(Shell(out), Eval(Shell(out), p.tree, env));
                  && x.0 == env
                  && (IsDefined(BinaryKind(op), a, b) ==>
                        x.1.Value? && IsResult(BinaryKind(op), a, b, x.1.value))
                  && ((BinaryKind(op).Slash? || BinaryKind(op).Percent?) && b == 0 ==>
                        x.1 == Answer.Raised(DIVIDE_BY_ZERO))
  {
    KindsBind(op);
    hide BinaryKind, Tokenize, NumberTokens, NumberTree, N.ToString, IsResult, IsDefined, Arithmetic.Binary,
      ParseBinary;
    var k := BinaryKind(op);
    var t := Token(k, op);
    OperationIsScanned(a, op, b);
    NumberDerives(a, k);
    NumberDerives(b, Eof);
    var e := Expr.Binary(t, NumberTree(a), NumberTree(b));
    assert Yield(e) == NumberTokens(a) + [t] + NumberTokens(b);
    assert Yield(e) + [] == Yield(e);
    LoopIsTheGrammar(Yield(e), e, []);
    NumberValue(out, env, a);
    NumberValue(out, env, b);
    var l := Eval(Shell(out), NumberTree(a), env).1.value;
    var r := Eval(Shell(out), NumberTree(b), env).1.value;
    OperatorGives(out, env, k, a, b, l, r);
  }

  lemma {:induction false} KindsBind(op: string)
    requires BinaryKind(op) != Text
    ensures var k := BinaryKind(op);
            Precedence(k) > 0 && !k.Like? && !k.NotLike? && !k.LessEqualSign?
  {
    hide Variables.Lower;
  }

  lemma {:induction false} UnaryIsScanned(op: string, a: int)
    requires UnaryKind(op) != Text
    ensures Tokenize(op + " " + N.ToString(a)) == Q.Some([Token(UnaryKind(op), op)] + NumberTokens(a))
  {
    hide Q.Tokens, UnaryKind, IsWritten, RawNumber, IsToken, Raw, N.ToString;
    var t := Token(UnaryKind(op), op);
    OperatorIsWritten(op);
    RawIsToken(t);
    assert Raw(t).text == op by { RawText(t); }
    TokenIsRead(Raw(t), N.ToString(a), true, []);
    NumberIsRead(a, "", [] + [Raw(t)]);
    assert [] + [Raw(t)] == [Raw(t)];
    TypedConcat([Raw(t)], RawNumber(a));
    TypedOne(t);
    UnquotedNumber(a);
  }

  lemma {:induction false} UnaryGives<E>(out: Outside<E>, env: E, k: Kind, a: int, v: ShellValue)
    requires N.IsInt32(a) && IsNumber(v, a) && IsUnary(k)
    ensures var x := ApplyUnary(Shell(out), env, k, Done(v));
            x.0 == env && x.1.Done? && IsUnaryResult(k, a, NumberOr1(x.1.value))
  {
    hide N.Wrap, N.ToString;
    WrapIs32Bits(-a);
    WrapIs32Bits(-a - 1);
    WrapKeeps(-a - 1);
  }

  /** The same for the unary operators. */
  lemma {:induction false} UnariesCompute<E>(out: Outside<E>, env: E, op: string, a: int)
    requires N.IsInt32(a) && UnaryKind(op) != Text
    ensures var ts := Tokenize(op + " " + N.ToString(a));
            && ts.Some?
            && var p := ParseBinary(ts.value);
               && p.Parsed? && p.rest == []
               && var x := NumberOf(Shell(out), Eval(Shell(out), p.tree, env));
                  x.0 == env && x.1.Value? && IsUnaryResult(UnaryKind(op), a, x.1.value)
  {
    KindIsUnary(op);
    hide UnaryKind, Tokenize, NumberTokens, NumberTree, N.ToString, IsUnaryResult, ParseBinary;
    var k := UnaryKind(op);
    var t := Token(k, op);
    UnaryIsScanned(op, a);
    NumberDerives(a, Eof);
    var e := Expr.Unary(t, NumberTree(a));
    assert Yield(e) == [t] + NumberTokens(a) && Yield(e) + [] == Yield(e);
    LoopIsTheGrammar(Yield(e), e, []);
    NumberValue(out, env, a);
    UnaryGives(out, env, k, a, Eval(Shell(out), NumberTree(a), env).1.value);
  }

  lemma {:induction false} KindIsUnary(op: string)
    requires UnaryKind(op) != Text
    ensures IsUnary(UnaryKind(op))
  {
    hide Variables.Lower;
  }

  // ------------------------------------------------- operands that are no numbers

  /** The operators on two numbers. */
  predicate NeedsNumbers(k: Kind) {
    Precedence(k) > 0
    && !k.Equal? && !k.NotEqual? && !k.Like? && !k.NotLike? && !k.LogicalAnd? && !k.LogicalOr?
  }

  /** An operand that is no number throws -4, unless the operator is logical,
      where it counts as true, or compares texts. An empty text and "0" are the
      same text; nothing else is the same as another. */
  lemma {:induction false} TextOperands<E>(out: Outside<E>, env: E, k: Kind, l: ShellValue, r: ShellValue)
    ensures var x := Arithmetic.Binary(out, env, k, l, r);
            && (NeedsNumbers(k) && r.number.None? ==> x == (env, Threw(-4)))
            && (NeedsNumbers(k) && r.number.Some? && l.number.None? ==>
                  x == (env, Threw(if (k.Slash? || k.Percent?) && r.number.value == 0 then -5 else -4)))
            && (k.LogicalAnd? && l.number.None? && r.number.None? ==> IsTruth(x, env, true))
            && (k.LogicalOr? && l.number.None? ==> IsTruth(x, env, true))
            && (k.LogicalAnd? && l.number == N.Some(0) ==> IsTruth(x, env, false))
            && (k.Equal? ==> IsTruth(x, env, l.text == r.text || {l.text, r.text} == {"", "0"}))
            && (k.NotEqual? ==> IsTruth(x, env, !(l.text == r.text || {l.text, r.text} == {"", "0"})))
  {
    OneAndZero();
    hide N.ToString, OnNumbers;
    if {l.text, r.text} == {"", "0"} {
      assert l.text in {"", "0"} && r.text in {"", "0"} && "" in {l.text, r.text} && "0" in {l.text, r.text};
    }
  }

  predicate IsTruth<E(==)>(x: (E, Attempt<ShellValue>), env: E, b: bool) {
    x == (env, Done(ShellValue(if b then "1" else "0", N.Some(if b then 1 else 0))))
  }

  /** The operators of regular expressions: what matching comes to, or not. */
  lemma {:induction false} Matching<E>(out: Outside<E>, env: E, l: ShellValue, r: ShellValue, env': E, matched: bool)
    requires out.matches(env, l.text, r.text) == (env', Done(matched))
    ensures IsTruth(Arithmetic.Binary(out, env, Like, l, r), env', matched)
    ensures IsTruth(Arithmetic.Binary(out, env, NotLike, l, r), env', !matched)
    ensures Typed(Q.Operator("=~")).kind == Like && Typed(Q.Operator("!~")).kind == NotLike
  {
    OneAndZero();
    hide N.ToString;
  }

  lemma {:induction false} OneAndZero()
    ensures N.ToString(1) == "1" && N.ToString(0) == "0"
  {
    assert N.Digits(0) == "" && N.Digits(1) == "" + "1" == "1";
  }

  /** A missing operand is the empty text, which is the number 0. */
  lemma {:induction false} MissingIsZero<E>(out: Outside<E>, env: E)
    ensures Eval(Shell(out), Missing, env) == (env, Done(FromText("")))
    ensures NumberOf(Shell(out), Eval(Shell(out), Missing, env)) == (env, Answer.Value(0))
  {
  }

  /** A text that is no number counts as 1. */
  lemma {:induction false} TextCountsAsOne<E>(out: Outside<E>, env: E, s: string)
    requires N.Scan(s).None?
    ensures NumberOf(Shell(out), Eval(Shell(out), Leaf(Token(Text, s)), env)) == (env, Answer.Value(1))
    ensures IsTruth(ApplyUnary(Shell(out), env, Not, Done(FromText(s))), env, false)
    ensures ApplyUnary(Shell(out), env, Minus, Done(FromText(s))) == (env, Threw(-4))
    ensures ApplyUnary(Shell(out), env, Complement, Done(FromText(s))) == (env, Threw(-4))
    ensures ApplyUnary(Shell(out), env, Plus, Done(FromText(s))) == (env, Done(FromText(s)))
  {
    OneAndZero();
    hide N.ToString;
  }

  predicate MeansNothing(op: string) {
    IsOperatorText(op) && Precedence(OperatorKind(op)) == 0
    && !BeginsOperand(OperatorKind(op)) && !EndsExpression(OperatorKind(op))
  }

  /** Assignments, and the redirections of MPW, are operators that mean nothing
      in an expression. */
  lemma {:induction false} OneByteMeansNothing(c: char)
    requires c == '=' || c == Q.SUM
    ensures MeansNothing([c])
  {
  }

  lemma {:induction false} TwoBytesMeanNothing(c: char, d: char)
    requires (d == '=' && (c == '+' || c == '-')) || (c == d && (c == Q.SUM || c == Q.GREATER_EQUAL))
    ensures MeansNothing([c, d])
  {
  }

  lemma {:induction false} Parentheses()
    ensures OperatorKind("(") == LParen && OperatorKind(")") == RParen
  {
  }
}
