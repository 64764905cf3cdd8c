/** expression_parser: the operator-precedence loop fused with evaluation, and
    its agreement with evaluating the tree that the grammar gives. */
module ExpressionEvaluation {
  import opened Expressions
  import opened ExpressionParsing
  import opened ExpressionPrinting

  /** What an operation comes to: a value, or an exception. */
  datatype Attempt<V> = Done(value: V) | Threw(code: int)

  /** What the operations on values do. They may change the environment, as a
      regular expression match does, and they may throw. */
  datatype Semantics<!E, !V> = Semantics(
    missing: V,
    text: string -> V,
    unary: (E, Kind, V) -> (E, Attempt<V>),
    binary: (E, Kind, V, V) -> (E, Attempt<V>),
    number: V -> int)

  // ------------------------------------------------- the meaning of a tree

  function ApplyUnary<E, V>(sem: Semantics<E, V>, env: E, op: Kind, a: Attempt<V>): (E, Attempt<V>) {
    if a.Threw? || op.Plus? then (env, a) else sem.unary(env, op, a.value)
  }

  /** Operands before their operator, left before right; an exception ends it. */
  function Eval<E, V>(sem: Semantics<E, V>, e: Expr, env: E): (E, Attempt<V>) {
    match e
    case Leaf(t) => (env, Done(sem.text(t.text)))
    case Missing => (env, Done(sem.missing))
    case Unary(op, a) =>
      var x := Eval(sem, a, env);
      ApplyUnary(sem, x.0, op.kind, x.1)
    case Binary(op, l, r) =>
      var x := Eval(sem, l, env);
      if x.1.Threw? then x
      else
        var y := Eval(sem, r, x.0);
        if y.1.Threw? then y else sem.binary(y.0, op.kind, x.1.value, y.1.value)
    case Paren(_, i, _) => Eval(sem, i, env)
  }

  /** The trees from left to right. */
  function EvalAll<E, V>(sem: Semantics<E, V>, es: seq<Expr>, env: E): (r: (E, Attempt<seq<V>>))
    ensures r.1.Done? ==> |r.1.value| == |es|
  {
    if es == [] then (env, Done([]))
    else
      var xs := EvalAll(sem, es[..|es| - 1], env);
      if xs.1.Threw? then xs
      else
        var x := Eval(sem, es[|es| - 1], xs.0);
        if x.1.Threw? then (x.0, Threw(x.1.code)) else (x.0, Done(xs.1.value + [x.1.value]))
  }

  lemma {:induction false} EvalAllSnoc<E, V>(sem: Semantics<E, V>, es: seq<Expr>, e: Expr, env: E)
    ensures var xs := EvalAll(sem, es, env);
            EvalAll(sem, es + [e], env) ==
              (if xs.1.Threw? then xs
               else
                 var x := Eval(sem, e, xs.0);
                 if x.1.Threw? then (x.0, Threw(x.1.code)) else (x.0, Done(xs.1.value + [x.1.value])))
  {
    assert (es + [e])[..|es|] == es;
  }

  /** Reducing the stacks is evaluating one operator. */
  lemma {:induction false} ReduceEvaluates<E, V>(sem: Semantics<E, V>, s: Stacks, env: E)
    requires Balanced(s) && s.operators != []
    ensures var xs := EvalAll(sem, s.output, env);
            var n := |s.operators|;
            EvalAll(sem, ReduceTop(s).output, env) ==
              (if xs.1.Threw? then xs
               else
                 var x := sem.binary(xs.0, s.operators[n - 1].kind, xs.1.value[n - 1], xs.1.value[n]);
                 if x.1.Threw? then (x.0, Threw(x.1.code)) else (x.0, Done(xs.1.value[..n - 1] + [x.1.value])))
  {
    var n := |s.operators|;
    var below, l, r := s.output[..n - 1], s.output[n - 1], s.output[n];
    assert s.output == (below + [l]) + [r];
    EvalAllSnoc(sem, below + [l], r, env);
    EvalAllSnoc(sem, below, l, env);
    EvalAllSnoc(sem, below, Binary(s.operators[n - 1], l, r), env);
    var xs := EvalAll(sem, s.output, env);
    if xs.1.Done? {
      assert xs.1.value[..n - 1] == EvalAll(sem, below, env).1.value;
    }
  }

  lemma {:induction false} StripKeepsMeaning<E, V>(sem: Semantics<E, V>, e: Expr, env: E)
    ensures Eval(sem, Strip(e), env) == Eval(sem, e, env)
    decreases e
  {
    match e
    case Unary(_, a) => StripKeepsMeaning(sem, a, env);
    case Binary(_, l, r) =>
      StripKeepsMeaning(sem, l, env);
      StripKeepsMeaning(sem, r, Eval(sem, l, env).0);
    case Paren(_, i, _) => StripKeepsMeaning(sem, i, env);
    case _ =>
  }

  /** An expression tree that is written with the fewest parentheses and read
      back has the value of the tree. */
  lemma {:induction false} PrintedMeaning<E, V>(sem: Semantics<E, V>, e: Expr, env: E)
    requires Whole(e)
    ensures var p := ParseBinary(Yield(Print(e)));
            p.Parsed? && Eval(sem, p.tree, env) == Eval(sem, e, env)
  {
    PrintParseRoundTrip(e);
    StripKeepsMeaning(sem, ParseBinary(Yield(Print(e))).tree, env);
  }

  // ------------------------- an exception decides the value of the whole tree

  lemma {:induction false} CollapseThrows<E, V>(sem: Semantics<E, V>, s: Stacks, p: nat, env: E)
    requires Balanced(s) && EvalAll(sem, s.output, env).1.Threw?
    ensures EvalAll(sem, Collapse(s, p).output, env) == EvalAll(sem, s.output, env)
    decreases |s.operators|
  {
    if s.operators != [] && TopPrecedence(s) <= p {
      ReduceEvaluates(sem, s, env);
      CollapseThrows(sem, ReduceTop(s), p, env);
    }
  }

  ghost predicate Meets<E, V>(sem: Semantics<E, V>, p: Parse, env: E, after: E, code: int) {
    p.Parsed? ==> Eval(sem, p.tree, env) == (after, Threw(code))
  }

  lemma {:induction false} CollapsesToOne(s: Stacks)
    requires Balanced(s)
    ensures Collapse(s, LOOSEST + 1).operators == []
    decreases |s.operators|
  {
    if s.operators != [] {
      CollapsesToOne(ReduceTop(s));
    }
  }

  lemma {:induction false} RestThrows<E, V>(sem: Semantics<E, V>, s: Stacks, ts: seq<Token>, env: E, after: E,
      code: int)
    requires Balanced(s) && EvalAll(sem, s.output, env) == (after, Threw(code))
    ensures Meets(sem, ParseRest(s, ts), env, after, code)
    decreases |ts|, 1
  {
    hide Collapse, Eval, Precedence, ParseUnary;
    if EndsExpression(Peek(ts)) {
      CollapseThrows(sem, s, LOOSEST + 1, env);
      CollapsesToOne(s);
      var e := Collapse(s, LOOSEST + 1).output[0];
      EvalAllSnoc(sem, [], e, env);
      assert Collapse(s, LOOSEST + 1).output == [] + [e];
    } else if Precedence(Peek(ts)) != 0 {
      CollapseThrows(sem, s, Precedence(Peek(ts)), env);
      OperandThrows(sem, PushOperator(Collapse(s, Precedence(Peek(ts))), ts[0]), ts[1..], env, after, code);
    }
  }

  lemma {:induction false} OperandThrows<E, V>(sem: Semantics<E, V>, s: Stacks, ts: seq<Token>, env: E, after: E,
      code: int)
    requires |s.output| == |s.operators| && EvalAll(sem, s.output, env) == (after, Threw(code))
    ensures Meets(sem, ParseOperand(s, ts), env, after, code)
    decreases |ts|, 2
  {
    var u := ParseUnary(ts);
    if u.Parsed? {
      EvalAllSnoc(sem, s.output, u.tree, env);
      RestThrows(sem, PushOperand(s, u.tree), u.rest, env, after, code);
    }
  }

  // -------------------------------------------------------- the stateful parser

  datatype Complaint =
    | ExpectedBinaryOperator(text: string)
    | UnexpectedEnd
    | ExtraParenthesis
    | BinaryStackError
    | EvaluationStackError

  /** How a call of the parser ends: a value, an exception of an operation, or
      an exception of the parser itself. */
  datatype Answer<V> = Value(value: V) | Raised(code: int) | Rejected(why: Complaint)

  function ToAnswer<V>(a: Attempt<V>): Answer<V> {
    match a
    case Done(v) => Value(v)
    case Threw(code) => Raised(code)
  }

  function Reversed<T>(s: seq<T>): (r: seq<T>)
    ensures |r| == |s|
  {
    seq(|s|, i requires 0 <= i < |s| => s[|s| - 1 - i])
  }

  /** A call that started in `before` computed what the parse says: when the
      tokens parse, the value or the exception of the tree, and what is left;
      when they do not, no value. */
  ghost predicate Agrees<E, V>(sem: Semantics<E, V>, p: Parse, before: E, after: E, r: Answer<V>, rest: seq<Token>) {
    match p
    case Failed => !r.Value?
    case Parsed(e, left) =>
      && !r.Rejected?
      && (r.Value? ==> Eval(sem, e, before) == (after, Done(r.value)) && rest == left)
      && (r.Raised? ==> Eval(sem, e, before) == (after, Threw(r.code)))
  }

  /** The operators with their precedences, as `binary` keeps them. */
  predicate Mirrors(operators: seq<(Kind, nat)>, ops: seq<Token>) {
    && |operators| == |ops|
    && forall i :: 0 <= i < |ops| ==> operators[i] == (ops[i].kind, Precedence(ops[i].kind))
  }

  lemma {:induction false} SingleTree<E, V>(sem: Semantics<E, V>, s: Stacks, env: E)
    requires |s.output| == 1
    ensures var x := Eval(sem, s.output[0], env);
            EvalAll(sem, s.output, env) ==
              (x.0, if x.1.Threw? then Threw(x.1.code) else Done([x.1.value]))
  {
    EvalAllSnoc(sem, [], s.output[0], env);
    assert s.output == [] + [s.output[0]];
    assert EvalAll(sem, [], env) == (env, Done([]));
    var x := Eval(sem, s.output[0], env);
    if x.1.Done? {
      assert [] + [x.1.value] == [x.1.value];
    }
  }

  function NumberOf<E, V>(sem: Semantics<E, V>, x: (E, Attempt<V>)): (E, Answer<int>) {
    (x.0, if x.1.Threw? then Raised(x.1.code) else Value(sem.number(x.1.value)))
  }

  class ExpressionParser<E(0), V> {
    const sem: Semantics<E, V>
    var environment: E
    var tokens: seq<Token>

    constructor (sem: Semantics<E, V>, environment: E, tokens: seq<Token>)
      ensures this.sem == sem && this.environment == environment && this.tokens == tokens
    {
      this.sem := sem;
      this.environment := environment;
      this.tokens := tokens;
    }

    /** The tokens in reading order: the next one is at the back. */
    ghost function Ahead(): seq<Token>
      reads this`tokens
    {
      Reversed(tokens)
    }

    method PeekType() returns (k: Kind)
      ensures k == Peek(Ahead())
    {
      k := if tokens == [] then Eof else tokens[|tokens| - 1].kind;
    }

    method Next() returns (t: Token)
      modifies this`tokens
      ensures old(tokens) == [] ==> t == Token(Eof, "") && tokens == []
      ensures old(tokens) != [] ==>
        t == old(Ahead())[0] && Ahead() == old(Ahead())[1..] && |tokens| == old(|tokens|) - 1
    {
      if tokens == [] {
        return Token(Eof, "");
      }
      t := tokens[|tokens| - 1];
      tokens := tokens[..|tokens| - 1];
    }

    method Terminal() returns (r: Answer<V>)
      modifies this`tokens, this`environment
      ensures Agrees(sem, ParseTerminal(old(Ahead())), old(environment), environment, r, Ahead())
      ensures |tokens| <= old(|tokens|)
      ensures r.Rejected? ==> r.why.ExpectedBinaryOperator? || r.why.UnexpectedEnd?
      decreases |tokens|, 0
    {
      var kind := PeekType();
      if kind.Text? {
        var t := Next();
        return Value(sem.text(t.text));
      }
      if kind.LParen? {
        var _ := Next();
        r := Binary();
        if !r.Value? {
          return;
        }
        kind := PeekType();
        if !kind.RParen? {
          return Rejected(UnexpectedEnd);
        }
        var _ := Next();
        return;
      }
      return Value(sem.missing);
    }

    method Unary() returns (r: Answer<V>)
      modifies this`tokens, this`environment
      ensures Agrees(sem, ParseUnary(old(Ahead())), old(environment), environment, r, Ahead())
      ensures |tokens| <= old(|tokens|)
      ensures r.Rejected? ==> r.why.ExpectedBinaryOperator? || r.why.UnexpectedEnd?
      decreases |tokens|, 1
    {
      var kind := PeekType();
      if IsUnary(kind) {
        var _ := Next();
        r := Unary();
        if !r.Value? || kind.Plus? {
          return;
        }
        var x := sem.unary(environment, kind, r.value);
        environment := x.0;
        return ToAnswer(x.1);
      }
      r := Terminal();
    }

    /** Applies every operator on top that does not bind looser than p. */
    method Reduce(ghost s: Stacks, ghost before: E, operators: seq<(Kind, nat)>, output: seq<V>, p: nat)
        returns (ops: seq<(Kind, nat)>, out: seq<V>, r: Attempt<()>)
      requires Balanced(s) && Mirrors(operators, s.operators)
      requires EvalAll(sem, s.output, before) == (environment, Done(output))
      modifies this`environment
      ensures var c := Collapse(s, p);
              match r
              case Done(_) => EvalAll(sem, c.output, before) == (environment, Done(out)) && Mirrors(ops, c.operators)
              case Threw(code) => EvalAll(sem, c.output, before) == (environment, Threw(code))
    {
      hide Eval, Precedence, EvalAll;
      ops, out := operators, output;
      ghost var t := s;
      while ops != [] && ops[|ops| - 1].1 <= p
        invariant Balanced(t) && Mirrors(ops, t.operators)
        invariant Collapse(t, p) == Collapse(s, p)
        invariant EvalAll(sem, t.output, before) == (environment, Done(out))
        decreases |ops|
      {
        var op := ops[|ops| - 1].0;
        var rhs, lhs := out[|out| - 1], out[|out| - 2];
        var x := sem.binary(environment, op, lhs, rhs);
        ReduceEvaluates(sem, t, before);
        t := ReduceTop(t);
        environment := x.0;
        if x.1.Threw? {
          CollapseThrows(sem, t, p, before);
          return ops, out, Threw(x.1.code);
        }
        ops := ops[..|ops| - 1];
        out := out[..|out| - 2] + [x.1.value];
      }
      r := Done(());
    }

    method Binary() returns (r: Answer<V>)
      modifies this`tokens, this`environment
      ensures Agrees(sem, ParseBinary(old(Ahead())), old(environment), environment, r, Ahead())
      ensures |tokens| <= old(|tokens|)
      ensures r.Rejected? ==> r.why.ExpectedBinaryOperator? || r.why.UnexpectedEnd?
      decreases |tokens|, 3
    {
      hide Eval, ParseUnary, Collapse, Precedence;
      ghost var before := environment;
      var output: seq<V> := [];
      var operators: seq<(Kind, nat)> := [];
      ghost var s := EMPTY;
      r := Operand(s, before, output);
      if !r.Value? {
        return;
      }
      s := PushOperand(s, ParseUnary(old(Ahead())).tree);
      output := output + [r.value];
      while true
        invariant |tokens| <= old(|tokens|)
        invariant Balanced(s) && Mirrors(operators, s.operators)
        invariant EvalAll(sem, s.output, before) == (environment, Done(output))
        invariant ParseBinary(old(Ahead())) == ParseRest(s, Ahead())
        decreases |tokens|
      {
        var kind := PeekType();
        if kind.Eof? || kind.RParen? {
          break;
        }
        var p := Precedence(kind);
        if p == 0 {
          var t := Next();
          return Rejected(ExpectedBinaryOperator(t.text));
        }
        ghost var ahead := Ahead();
        var _ := Next();
        var done;
        operators, output, done := Reduce(s, before, operators, output, p);
        s := PushOperator(Collapse(s, p), ahead[0]);
        if done.Threw? {
          OperandThrows(sem, s, Ahead(), before, environment, done.code);
          return Raised(done.code);
        }
        operators := operators + [(kind, p)];
        ghost var next := Ahead();
        r := Operand(s, before, output);
        if !r.Value? {
          return;
        }
        s := PushOperand(s, ParseUnary(next).tree);
        output := output + [r.value];
      }
      var done;
      operators, output, done := Reduce(s, before, operators, output, LOOSEST + 1);
      CollapsesToOne(s);
      SingleTree(sem, Collapse(s, LOOSEST + 1), before);
      if done.Threw? {
        return Raised(done.code);
      }
      if |output| != 1 {
        return Rejected(BinaryStackError);
      }
      return Value(output[0]);
    }

    /** One more operand; when it throws, so does the whole expression. */
    method Operand(ghost s: Stacks, ghost before: E, ghost output: seq<V>) returns (r: Answer<V>)
      requires |s.output| == |s.operators|
      requires EvalAll(sem, s.output, before) == (environment, Done(output))
      modifies this`tokens, this`environment
      ensures |tokens| <= old(|tokens|)
      ensures r.Rejected? ==> r.why.ExpectedBinaryOperator? || r.why.UnexpectedEnd?
      ensures var p, u := ParseOperand(s, old(Ahead())), ParseUnary(old(Ahead()));
              if r.Value? then
                && u.Parsed? && p == ParseRest(PushOperand(s, u.tree), Ahead())
                && EvalAll(sem, PushOperand(s, u.tree).output, before) == (environment, Done(output + [r.value]))
              else
                Agrees(sem, p, before, environment, r, Ahead())
      decreases |tokens|, 2
    {
      ghost var u := ParseUnary(Ahead());
      r := Unary();
      if u.Parsed? {
        EvalAllSnoc(sem, s.output, u.tree, before);
        if r.Raised? {
          RestThrows(sem, PushOperand(s, u.tree), u.rest, before, environment, r.code);
        }
      }
    }

    /** evaluate: the number of the whole expression. */
    method Evaluate() returns (r: Answer<int>)
      modifies this`tokens, this`environment
      ensures old(tokens) == [] ==> r == Value(0) && environment == old(environment)
      ensures forall e: Expr ::
        old(tokens) != [] && Derives(e, Eof) && Yield(e) == old(Ahead()) ==>
          (environment, r) == NumberOf(sem, Eval(sem, e, old(environment)))
      ensures old(tokens) != [] && r.Value? ==>
        exists e :: Derives(e, Eof) && Yield(e) == old(Ahead())
      ensures r != Rejected(BinaryStackError)
      ensures r == Rejected(EvaluationStackError) ==> exists t :: t in old(tokens) && t.kind.Eof?
    {
      if tokens == [] {
        return Value(0);
      }
      ghost var ts, before := Ahead(), environment;
      BinarySound(ts);
      var v := Binary();
      ghost var p := ParseBinary(ts);
      forall e: Expr | Derives(e, Eof) && Yield(e) == ts
        ensures p == Parsed(e, [])
      {
        assert Yield(e) + [] == ts;
        LoopIsTheGrammar(ts, e, []);
      }
      match v
      case Raised(code) => return Raised(code);
      case Rejected(why) => return Rejected(why);
      case Value(x) =>
        if tokens != [] {
          if tokens[|tokens| - 1].kind.RParen? {
            return Rejected(ExtraParenthesis);
          }
          assert Ahead()[0] in ts;
          return Rejected(EvaluationStackError);
        }
        assert Derives(p.tree, Eof) && Yield(p.tree) == ts;
        return Value(sem.number(x));
    }
  }
}
