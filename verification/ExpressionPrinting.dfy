/** Writing expressions with as few parentheses as the grammar allows. */
module ExpressionPrinting {
  import opened Expressions
  import opened ExpressionParsing

  const OPEN := Token(LParen, "(")
  const CLOSE := Token(RParen, ")")

  /** Every operand is there, every operator is one, and nothing is in
      parentheses: the shape of the tree alone says how to group. */
  predicate Whole(e: Expr) {
    match e
    case Leaf(t) => t.kind.Text?
    case Missing => false
    case Unary(op, a) => IsUnary(op.kind) && Whole(a)
    case Binary(op, l, r) => Precedence(op.kind) > 0 && Whole(l) && Whole(r)
    case Paren(_, _, _) => false
  }

  function Strip(e: Expr): Expr {
    match e
    case Leaf(_) => e
    case Missing => e
    case Unary(op, a) => Unary(op, Strip(a))
    case Binary(op, l, r) => Binary(op, Strip(l), Strip(r))
    case Paren(_, i, _) => Strip(i)
  }

  function Guard(e: Expr, needed: bool): Expr {
    if needed then Paren(OPEN, e, CLOSE) else e
  }

  /** Parentheses around an operand that would not bind tightly enough. */
  function Print(e: Expr): Expr {
    match e
    case Unary(op, a) => Unary(op, Guard(Print(a), a.Binary?))
    case Binary(op, l, r) =>
      Binary(op,
             Guard(Print(l), Level(l) > Precedence(op.kind)),
             Guard(Print(r), Level(r) >= Precedence(op.kind)))
    case _ => e
  }

  function Parens(e: Expr): nat {
    match e
    case Leaf(_) => 0
    case Missing => 0
    case Unary(_, a) => Parens(a)
    case Binary(_, l, r) => Parens(l) + Parens(r)
    case Paren(_, i, _) => 1 + Parens(i)
  }

  lemma {:induction false} PrintDerives(e: Expr, next: Kind)
    requires Whole(e)
    ensures Derives(Print(e), next)
    ensures Level(Print(e)) == Level(e) && Print(e).Binary? == e.Binary?
    ensures Strip(Print(e)) == e
    decreases e, 0
  {
    hide Precedence;
    match e
    case Leaf(_) =>
    case Unary(_, a) => GuardDerives(a, next, a.Binary?);
    case Binary(op, l, r) =>
      GuardDerives(l, op.kind, Level(l) > Precedence(op.kind));
      GuardDerives(r, next, Level(r) >= Precedence(op.kind));
  }

  lemma {:induction false} GuardDerives(e: Expr, next: Kind, needed: bool)
    requires Whole(e)
    ensures var g := Guard(Print(e), needed);
            && Derives(g, next) && Strip(g) == e
            && (if needed then g.Paren? else Level(g) == Level(e) && g.Binary? == e.Binary?)
    decreases e, 1
  {
    PrintDerives(e, if needed then RParen else next);
  }

  /** Printing and parsing gives back the tree, and uses up every token. */
  lemma {:induction false} PrintParseRoundTrip(e: Expr)
    requires Whole(e)
    ensures var p := ParseBinary(Yield(Print(e)));
            p.Parsed? && Strip(p.tree) == e && p.rest == []
  {
    PrintDerives(e, Eof);
    assert Yield(Print(e)) + [] == Yield(Print(e));
    LoopIsTheGrammar(Yield(Print(e)), Print(e), []);
  }

  /** No way of writing the same tree has fewer parentheses. */
  lemma {:induction false} PrintIsShortest(e: Expr, other: Expr, next: Kind)
    requires Whole(e)
    requires Derives(other, next) && Strip(other) == e
    ensures Parens(Print(e)) <= Parens(other)
    decreases other, 0
  {
    match other
    case Leaf(_) =>
    case Paren(_, i, _) => PrintIsShortest(e, i, RParen);
    case Unary(_, a) => OperandIsShortest(e.arg, a, next, e.arg.Binary?);
    case Binary(op, l, r) =>
      OperandIsShortest(e.left, l, op.kind, Level(e.left) > Precedence(op.kind));
      OperandIsShortest(e.right, r, next, Level(e.right) >= Precedence(op.kind));
  }

  lemma {:induction false} OperandIsShortest(e: Expr, other: Expr, next: Kind, needed: bool)
    requires Whole(e)
    requires Derives(other, next) && Strip(other) == e
    requires needed ==> other.Paren? || Level(other) != Level(e) || other.Binary? != e.Binary?
    ensures Parens(Guard(Print(e), needed)) <= Parens(other)
    decreases other, 1
  {
    if other.Paren? {
      PrintIsShortest(e, other.inner, RParen);
    } else {
      PrintIsShortest(e, other, next);
    }
  }
}
