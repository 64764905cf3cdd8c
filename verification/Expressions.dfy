/** The expressions of Evaluate and If: the tokens, the ten levels of binary
    operators, and the trees that their grammar gives to a token list. */
module Expressions {

  /** The token types that the tokenizer emits; `Other` is any type that means
      nothing in an expression, such as an assignment or a redirection. */
  datatype Kind =
    | Text | Eof
    | LParen | RParen
    | Not | Complement
    | Star | Percent | Slash
    | Plus | Minus
    | ShiftRight | ShiftLeft
    | Less | LessEqual | Greater | GreaterEqual | LessEqualSign | GreaterEqualSign
    | Equal | NotEqual | Like | NotLike
    | BitAnd | BitXor | BitOr
    | LogicalAnd | LogicalOr
    | Other(code: nat)

  datatype Token = Token(kind: Kind, text: string)

  const LOOSEST := 12

  function Precedence(k: Kind): (p: nat)
    ensures p <= LOOSEST
  {
    match k
    case Star => 3
    case Percent => 3
    case Slash => 3
    case Plus => 4
    case Minus => 4
    case ShiftRight => 5
    case ShiftLeft => 5
    case Less => 6
    case LessEqual => 6
    case Greater => 6
    case GreaterEqual => 6
    case LessEqualSign => 6
    case GreaterEqualSign => 6
    case Equal => 7
    case NotEqual => 7
    case Like => 7
    case NotLike => 7
    case BitAnd => 8
    case BitXor => 9
    case BitOr => 10
    case LogicalAnd => 11
    case LogicalOr => 12
    case _ => 0
  }

  const LEVELS := 10

  /** The ten levels of binary operators, from the tightest to the loosest. */
  predicate InLevel(k: Kind, i: nat) {
    if i == 0 then k.Star? || k.Percent? || k.Slash?
    else if i == 1 then k.Plus? || k.Minus?
    else if i == 2 then k.ShiftRight? || k.ShiftLeft?
    else if i == 3 then
      || k.Less? || k.LessEqual? || k.Greater? || k.GreaterEqual?
      || k.LessEqualSign? || k.GreaterEqualSign?
    else if i == 4 then k.Equal? || k.NotEqual? || k.Like? || k.NotLike?
    else if i == 5 then k.BitAnd?
    else if i == 6 then k.BitXor?
    else if i == 7 then k.BitOr?
    else if i == 8 then k.LogicalAnd?
    else i == 9 && k.LogicalOr?
  }

  /** The precedence of an operator is its level, counted from 3; whatever is in
      no level is no binary operator. */
  lemma {:induction false} PrecedenceIsLevel(k: Kind)
    ensures forall i: nat :: InLevel(k, i) <==> i < LEVELS && Precedence(k) == i + 3
    ensures Precedence(k) > 0 ==> InLevel(k, Precedence(k) - 3)
  {
  }

  predicate IsUnary(k: Kind) {
    k.Minus? || k.Plus? || k.Not? || k.Complement?
  }

  predicate BeginsOperand(k: Kind) {
    k.Text? || k.LParen? || IsUnary(k)
  }

  predicate EndsExpression(k: Kind) {
    k.Eof? || k.RParen?
  }

  /** The type of the next token; `Eof` at the end. */
  function Peek(ts: seq<Token>): Kind {
    if ts == [] then Eof else ts[0].kind
  }

  /** Expression trees. `Missing` is the empty value that stands in for an
      operand that is not there. */
  datatype Expr =
    | Leaf(token: Token)
    | Missing
    | Unary(op: Token, arg: Expr)
    | Binary(op: Token, left: Expr, right: Expr)
    | Paren(open: Token, inner: Expr, close: Token)

  /** The tokens of a tree, in reading order. */
  function Yield(e: Expr): seq<Token> {
    match e
    case Leaf(t) => [t]
    case Missing => []
    case Unary(op, a) => [op] + Yield(a)
    case Binary(op, l, r) => Yield(l) + [op] + Yield(r)
    case Paren(o, i, c) => [o] + Yield(i) + [c]
  }

  /** How loosely the outermost operator binds; 0 for an operand. */
  function Level(e: Expr): nat {
    if e.Binary? then Precedence(e.op.kind) else 0
  }

  /** The stratified grammar: the trees that are derived from their tokens when
      a token of type `next` follows. Binary operators associate to the left,
      a right operand binds strictly tighter, and an operand is missing only
      where none begins. */
  predicate Derives(e: Expr, next: Kind) {
    match e
    case Leaf(t) => t.kind.Text?
    case Missing => !BeginsOperand(next)
    case Unary(op, a) => IsUnary(op.kind) && !a.Binary? && Derives(a, next)
    case Binary(op, l, r) =>
      && Precedence(op.kind) > 0
      && Level(l) <= Precedence(op.kind) && Derives(l, op.kind)
      && Level(r) < Precedence(op.kind) && Derives(r, next)
    case Paren(o, i, c) => o.kind.LParen? && c.kind.RParen? && Derives(i, RParen)
  }
}
