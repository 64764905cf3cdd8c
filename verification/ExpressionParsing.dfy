/** The two-stack operator-precedence loop of expression_parser, on trees, and
    its agreement with the stratified grammar. */
module ExpressionParsing {
  import opened Expressions

  datatype Parse = Failed | Parsed(tree: Expr, rest: seq<Token>)

  // ------------------------------------------------------------- the stacks

  /** The operands and the operators of `binary` between two of its steps. */
  datatype Stacks = Stacks(output: seq<Expr>, operators: seq<Token>)

  predicate Balanced(s: Stacks) {
    |s.output| == |s.operators| + 1
  }

  function TopPrecedence(s: Stacks): nat
    requires s.operators != []
  {
    Precedence(s.operators[|s.operators| - 1].kind)
  }

  /** The top operator takes the two top operands. */
  function ReduceTop(s: Stacks): (s': Stacks)
    requires Balanced(s) && s.operators != []
    ensures Balanced(s')
  {
    var n := |s.operators|;
    Stacks(s.output[..n - 1] + [Binary(s.operators[n - 1], s.output[n - 1], s.output[n])], s.operators[..n - 1])
  }

  /** Every operator on top that does not bind looser than p is reduced. */
  function Collapse(s: Stacks, p: nat): (s': Stacks)
    requires Balanced(s)
    ensures Balanced(s')
    ensures |s'.operators| <= |s.operators|
    decreases |s.operators|
  {
    if s.operators != [] && TopPrecedence(s) <= p then Collapse(ReduceTop(s), p) else s
  }

  function PushOperand(s: Stacks, e: Expr): Stacks {
    s.(output := s.output + [e])
  }

  function PushOperator(s: Stacks, op: Token): Stacks {
    s.(operators := s.operators + [op])
  }

  // ------------------------------------------------------------- the parser

  function ParseTerminal(ts: seq<Token>): (p: Parse)
    ensures p.Parsed? ==> |p.rest| <= |ts|
    decreases |ts|, 0
  {
    if Peek(ts).Text? then Parsed(Leaf(ts[0]), ts[1..])
    else if Peek(ts).LParen? then
      match ParseBinary(ts[1..])
      case Failed => Failed
      case Parsed(i, rest) =>
        if Peek(rest).RParen? then Parsed(Paren(ts[0], i, rest[0]), rest[1..]) else Failed
    else Parsed(Missing, ts)
  }

  function ParseUnary(ts: seq<Token>): (p: Parse)
    ensures p.Parsed? ==> |p.rest| <= |ts|
    decreases |ts|, 1
  {
    if IsUnary(Peek(ts)) then
      match ParseUnary(ts[1..])
      case Failed => Failed
      case Parsed(a, rest) => Parsed(Unary(ts[0], a), rest)
    else ParseTerminal(ts)
  }

  /** The loop of `binary`, when it looks for an operator. */
  function ParseRest(s: Stacks, ts: seq<Token>): (p: Parse)
    requires Balanced(s)
    ensures p.Parsed? ==> |p.rest| <= |ts|
    decreases |ts|, 1
  {
    if EndsExpression(Peek(ts)) then Parsed(Collapse(s, LOOSEST + 1).output[0], ts)
    else if Precedence(Peek(ts)) == 0 then Failed
    else ParseOperand(PushOperator(Collapse(s, Precedence(Peek(ts))), ts[0]), ts[1..])
  }

  /** The loop of `binary`, when it is about to read an operand. */
  function ParseOperand(s: Stacks, ts: seq<Token>): (p: Parse)
    requires |s.output| == |s.operators|
    ensures p.Parsed? ==> |p.rest| <= |ts|
    decreases |ts|, 2
  {
    match ParseUnary(ts)
    case Failed => Failed
    case Parsed(e, rest) => ParseRest(PushOperand(s, e), rest)
  }

  const EMPTY := Stacks([], [])

  function ParseBinary(ts: seq<Token>): (p: Parse)
    ensures p.Parsed? ==> |p.rest| <= |ts|
    decreases |ts|, 3
  {
    ParseOperand(EMPTY, ts)
  }

  // -------------------------------------------------- invariants of the loop

  /** Operator precedences strictly tighten toward the top of the stack. */
  predicate Tightens(ops: seq<Token>) {
    forall i, j :: 0 <= i < j < |ops| ==> Precedence(ops[j].kind) < Precedence(ops[i].kind)
  }

  /** The token type after operand i: its operator, or what is read next. */
  function After(s: Stacks, next: Kind, i: nat): Kind {
    if i < |s.operators| then s.operators[i].kind else next
  }

  /** Operand i fits between the operators on its two sides. */
  predicate OperandOk(s: Stacks, next: Kind, i: nat)
    requires i < |s.output|
  {
    && Derives(s.output[i], After(s, next, i))
    && (i < |s.operators| ==> Level(s.output[i]) <= Precedence(s.operators[i].kind))
    && (0 < i <= |s.operators| ==> Level(s.output[i]) < Precedence(s.operators[i - 1].kind))
  }

  predicate Sound(s: Stacks, next: Kind) {
    && Tightens(s.operators)
    && (forall i :: 0 <= i < |s.operators| ==> Precedence(s.operators[i].kind) > 0)
    && (forall i :: 0 <= i < |s.output| ==> OperandOk(s, next, i))
  }

  /** The tokens that the stacks stand for. */
  function Consumed(s: Stacks): seq<Token>
    requires |s.operators| <= |s.output| <= |s.operators| + 1
    decreases |s.output| + |s.operators|
  {
    if |s.output| == |s.operators| then
      if s.output == [] then []
      else
        var n := |s.operators| - 1;
        Consumed(s.(operators := s.operators[..n])) + [s.operators[n]]
    else
      var n := |s.output| - 1;
      Consumed(s.(output := s.output[..n])) + Yield(s.output[n])
  }

  lemma {:induction false} ConsumedOperand(s: Stacks, e: Expr)
    requires |s.output| == |s.operators|
    ensures Consumed(PushOperand(s, e)) == Consumed(s) + Yield(e)
  {
    assert (s.output + [e])[..|s.output|] == s.output;
  }

  lemma {:induction false} ConsumedOperator(s: Stacks, op: Token)
    requires Balanced(s)
    ensures Consumed(PushOperator(s, op)) == Consumed(s) + [op]
  {
    assert (s.operators + [op])[..|s.operators|] == s.operators;
  }

  /** A reduce neither drops nor reorders tokens. */
  lemma {:induction false} ReduceKeepsTokens(s: Stacks)
    requires Balanced(s) && s.operators != []
    ensures Consumed(ReduceTop(s)) == Consumed(s)
  {
    hide Consumed;
    var n := |s.operators|;
    var below := Stacks(s.output[..n - 1], s.operators[..n - 1]);
    var l, op, r := s.output[n - 1], s.operators[n - 1], s.output[n];
    ConsumedOperand(below, l);
    ConsumedOperator(PushOperand(below, l), op);
    ConsumedOperand(PushOperator(PushOperand(below, l), op), r);
    ConsumedOperand(below, Binary(op, l, r));
    assert s.output == s.output[..n - 1] + [l] + [r] && s.operators == s.operators[..n - 1] + [op];
    assert s == PushOperand(PushOperator(PushOperand(below, l), op), r);
    assert Consumed(below) + Yield(l) + [op] + Yield(r) == Consumed(below) + (Yield(l) + [op] + Yield(r));
  }

  lemma {:induction false} ReduceKeepsSound(s: Stacks, next: Kind)
    requires Balanced(s) && s.operators != [] && Sound(s, next)
    ensures Sound(ReduceTop(s), next)
    ensures Level(ReduceTop(s).output[|s.operators| - 1]) == TopPrecedence(s)
  {
    hide Precedence;
    var n := |s.operators|;
    var s' := ReduceTop(s);
    assert OperandOk(s, next, n - 1) && OperandOk(s, next, n);
    forall i | 0 <= i < |s'.output| ensures OperandOk(s', next, i) {
      if i < n - 1 {
        assert OperandOk(s, next, i);
      } else {
        assert n > 1 ==> Precedence(s.operators[n - 1].kind) < Precedence(s.operators[n - 2].kind);
      }
    }
  }

  /** After a collapse the top operand may become the left operand of an
      operator of precedence p, and every operator left binds looser. */
  lemma {:induction false} CollapseKeeps(s: Stacks, p: nat, next: Kind)
    requires Balanced(s) && Sound(s, next)
    requires Level(s.output[|s.operators|]) <= p
    ensures var s' := Collapse(s, p);
            && Sound(s', next)
            && Consumed(s') == Consumed(s)
            && Level(s'.output[|s'.operators|]) <= p
            && (s'.operators != [] ==> TopPrecedence(s') > p)
    decreases |s.operators|
  {
    if s.operators != [] && TopPrecedence(s) <= p {
      ReduceKeepsSound(s, next);
      ReduceKeepsTokens(s);
      CollapseKeeps(ReduceTop(s), p, next);
    }
  }

  // -------------------------------------------------------------- soundness

  /** An operand that was just read goes on top. */
  lemma {:induction false} PushKeeps(s: Stacks, op: Token, e: Expr, next: Kind)
    requires Balanced(s) && Sound(s, op.kind)
    requires Precedence(op.kind) > 0
    requires Level(s.output[|s.operators|]) <= Precedence(op.kind)
    requires s.operators != [] ==> TopPrecedence(s) > Precedence(op.kind)
    requires Derives(e, next) && Level(e) == 0
    ensures Sound(PushOperand(PushOperator(s, op), e), next)
  {
    hide Precedence, Derives;
    var s' := PushOperand(PushOperator(s, op), e);
    var n := |s.operators|;
    forall i | 0 <= i < |s'.output| ensures OperandOk(s', next, i) {
      if i <= n {
        assert OperandOk(s, op.kind, i);
      }
    }
    forall i, j | 0 <= i < j < |s'.operators|
      ensures Precedence(s'.operators[j].kind) < Precedence(s'.operators[i].kind)
    {
      assert i < n - 1 ==> TopPrecedence(s) < Precedence(s.operators[i].kind);
    }
  }

  ghost predicate GoodParse(p: Parse, ts: seq<Token>) {
    p.Parsed? ==>
      && Derives(p.tree, Peek(p.rest))
      && Yield(p.tree) + p.rest == ts
  }

  lemma {:induction false} TerminalSound(ts: seq<Token>)
    requires !IsUnary(Peek(ts))
    ensures GoodParse(ParseTerminal(ts), ts)
    ensures ParseTerminal(ts).Parsed? ==> !ParseTerminal(ts).tree.Binary?
    decreases |ts|, 0
  {
    if Peek(ts).LParen? {
      BinarySound(ts[1..]);
    }
  }

  lemma {:induction false} UnarySound(ts: seq<Token>)
    ensures GoodParse(ParseUnary(ts), ts)
    ensures ParseUnary(ts).Parsed? ==> !ParseUnary(ts).tree.Binary?
    decreases |ts|, 1
  {
    if IsUnary(Peek(ts)) {
      UnarySound(ts[1..]);
    } else {
      TerminalSound(ts);
    }
  }

  /** At the end everything is reduced to one tree. */
  lemma {:induction false} CollapseAll(s: Stacks, next: Kind)
    requires Balanced(s) && Sound(s, next) && Level(s.output[|s.operators|]) == 0
    ensures var e := Collapse(s, LOOSEST + 1).output[0];
            Derives(e, next) && Yield(e) == Consumed(s)
  {
    CollapseKeeps(s, LOOSEST + 1, next);
    var s' := Collapse(s, LOOSEST + 1);
    assert OperandOk(s', next, 0);
    ConsumedOperand(EMPTY, s'.output[0]);
    assert s' == PushOperand(EMPTY, s'.output[0]);
  }

  lemma {:induction false} RestSound(s: Stacks, ts: seq<Token>)
    requires Balanced(s) && Sound(s, Peek(ts)) && Level(s.output[|s.operators|]) == 0
    ensures GoodParse(ParseRest(s, ts), Consumed(s) + ts)
    ensures ParseRest(s, ts).Parsed? ==> EndsExpression(Peek(ParseRest(s, ts).rest))
    decreases |ts|, 1
  {
    hide Precedence, Derives, Tightens, Yield, ParseUnary, Consumed, Collapse;
    if EndsExpression(Peek(ts)) {
      CollapseAll(s, Peek(ts));
    } else if Precedence(Peek(ts)) != 0 {
      var s' := Collapse(s, Precedence(Peek(ts)));
      CollapseKeeps(s, Precedence(Peek(ts)), Peek(ts));
      ConsumedOperator(s', ts[0]);
      UnarySound(ts[1..]);
      var u := ParseUnary(ts[1..]);
      if u.Parsed? {
        PushKeeps(s', ts[0], u.tree, Peek(u.rest));
        var s2 := PushOperand(PushOperator(s', ts[0]), u.tree);
        ConsumedOperand(PushOperator(s', ts[0]), u.tree);
        RestSound(s2, u.rest);
        assert Consumed(s2) + u.rest == Consumed(s) + ([ts[0]] + (Yield(u.tree) + u.rest)) == Consumed(s) + ts;
      }
    }
  }

  lemma {:induction false} BinarySound(ts: seq<Token>)
    ensures GoodParse(ParseBinary(ts), ts)
    ensures ParseBinary(ts).Parsed? ==> EndsExpression(Peek(ParseBinary(ts).rest))
    decreases |ts|, 3
  {
    hide Derives;
    UnarySound(ts);
    var u := ParseUnary(ts);
    if u.Parsed? {
      var s := PushOperand(EMPTY, u.tree);
      ConsumedOperand(EMPTY, u.tree);
      assert OperandOk(s, Peek(u.rest), 0);
      RestSound(s, u.rest);
      assert Consumed(s) + u.rest == ts;
    }
  }

  // ----------------------------------------------------------- completeness

  lemma {:induction false} OperandIsParsed(e: Expr, rest: seq<Token>)
    requires Derives(e, Peek(rest)) && !e.Binary?
    ensures ParseUnary(Yield(e) + rest) == Parsed(e, rest)
    decreases e, 0
  {
    hide Precedence, ParseBinary, ParseUnary;
    match e
    case Leaf(t) => LeafIsParsed(t, rest);
    case Missing =>
      assert Yield(e) + rest == rest;
      MissingIsParsed(rest);
    case Unary(op, a) =>
      OperandIsParsed(a, rest);
      UnaryIsParsed(op, a, rest);
      assert Yield(e) + rest == [op] + (Yield(a) + rest);
    case Paren(o, i, c) =>
      var inside := Yield(i) + ([c] + rest);
      assert Yield(e) + rest == [o] + inside;
      WholeIsParsed(i, [c] + rest);
      ParenIsParsed(o, i, c, rest);
  }

  lemma {:induction false} LeafIsParsed(t: Token, rest: seq<Token>)
    requires t.kind.Text?
    ensures ParseUnary([t] + rest) == Parsed(Leaf(t), rest)
  {
    assert ([t] + rest)[1..] == rest;
  }

  lemma {:induction false} MissingIsParsed(rest: seq<Token>)
    requires !BeginsOperand(Peek(rest))
    ensures ParseUnary(rest) == Parsed(Missing, rest)
  {
  }

  lemma {:induction false} UnaryIsParsed(op: Token, a: Expr, rest: seq<Token>)
    requires IsUnary(op.kind) && ParseUnary(Yield(a) + rest) == Parsed(a, rest)
    ensures ParseUnary([op] + (Yield(a) + rest)) == Parsed(Unary(op, a), rest)
  {
    assert ([op] + (Yield(a) + rest))[1..] == Yield(a) + rest;
  }

  lemma {:induction false} WholeIsParsed(e: Expr, rest: seq<Token>)
    requires Derives(e, Peek(rest)) && EndsExpression(Peek(rest))
    ensures ParseBinary(Yield(e) + rest) == Parsed(e, rest)
    decreases e, 2
  {
    hide Precedence, Yield, Derives;
    OperandsAreAbsorbed(EMPTY, e, rest);
  }

  lemma {:induction false} ParenIsParsed(o: Token, i: Expr, c: Token, rest: seq<Token>)
    requires o.kind.LParen? && c.kind.RParen?
    requires ParseBinary(Yield(i) + ([c] + rest)) == Parsed(i, [c] + rest)
    ensures ParseUnary([o] + (Yield(i) + ([c] + rest))) == Parsed(Paren(o, i, c), rest)
  {
    hide ParseBinary;
    var inside := Yield(i) + ([c] + rest);
    assert ([o] + inside)[1..] == inside && ([c] + rest)[1..] == rest;
  }

  /** What follows makes the loop reduce every operator of level l or tighter. */
  predicate Closes(next: Kind, l: nat) {
    EndsExpression(next) || Precedence(next) >= l
  }

  /** A whole derivation is read as if it were one operand, wherever it may
      stand as an operand. */
  lemma {:induction false} OperandsAreAbsorbed(s: Stacks, e: Expr, rest: seq<Token>)
    requires |s.output| == |s.operators|
    requires Derives(e, Peek(rest))
    requires s.operators != [] ==> Level(e) < TopPrecedence(s)
    requires e.Binary? ==> Closes(Peek(rest), Level(e))
    ensures ParseOperand(s, Yield(e) + rest) == ParseRest(PushOperand(s, e), rest)
    decreases e, 1
  {
    if e.Binary? {
      var l, op, r := e.left, e.op, e.right;
      var s1 := PushOperand(s, l);
      var s2 := PushOperand(PushOperator(s1, op), r);
      var behind := Yield(r) + rest;
      assert Yield(e) + rest == Yield(l) + ([op] + behind);
      OperandsAreAbsorbed(s, l, [op] + behind);
      assert Collapse(s1, Precedence(op.kind)) == s1;
      assert ([op] + behind)[1..] == behind;
      assert ParseRest(s1, [op] + behind) == ParseOperand(PushOperator(s1, op), behind);
      OperandsAreAbsorbed(PushOperator(s1, op), r, rest);
      assert ReduceTop(s2) == PushOperand(s, e);
    } else {
      OperandIsParsed(e, rest);
    }
  }

  // -------------------------------------------------------------- the result

  /** The two-stack loop is the stratified grammar: it returns a tree, and
      stops, exactly where the grammar derives that tree. In particular no
      tokens have two derivations. */
  lemma {:induction false} LoopIsTheGrammar(ts: seq<Token>, e: Expr, rest: seq<Token>)
    ensures ParseBinary(ts) == Parsed(e, rest) <==>
      && ts == Yield(e) + rest
      && EndsExpression(Peek(rest))
      && Derives(e, Peek(rest))
  {
    BinarySound(ts);
    if ts == Yield(e) + rest && EndsExpression(Peek(rest)) && Derives(e, Peek(rest)) {
      OperandsAreAbsorbed(EMPTY, e, rest);
    }
  }

  lemma {:induction false} DerivationsAreUnique(a: Expr, b: Expr)
    requires Derives(a, Eof) && Derives(b, Eof)
    requires Yield(a) == Yield(b)
    ensures a == b
  {
    LoopIsTheGrammar(Yield(a), a, []);
    LoopIsTheGrammar(Yield(b), b, []);
    assert Yield(a) + [] == Yield(a) && Yield(b) + [] == Yield(b);
  }
}
