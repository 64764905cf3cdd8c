/** The parser stack as a path of the automaton, and the single reduce step. */
module ParserStack {
  import opened CommandTree
  import opened Automaton

  /** The value of a stack entry: the members of YYMINORTYPE. */
  datatype Minor =
    | Unit
    | Text(text: string)
    | Ptr(tree: Command)
    | List(commands: seq<Command>)
    | Clauses(clauses: seq<Clause>)

  datatype Entry = Entry(state: State, major: Symbol, minor: Minor)

  /** YYSTACKDEPTH. */
  const DEPTH := 100

  const BOTTOM := Entry(At(0), T(EOF), Unit)

  function TextOf(e: Entry): string {
    if e.minor.Text? then e.minor.text else ""
  }

  function TreeOf(e: Entry): Command {
    if e.minor.Ptr? then e.minor.tree else Null
  }

  function ListOf(e: Entry): seq<Command> {
    if e.minor.List? then e.minor.commands else []
  }

  function ClausesOf(e: Entry): seq<Clause> {
    if e.minor.Clauses? then e.minor.clauses else []
  }

  function KindOf(e: Entry): Terminal {
    if e.major.T? then e.major.terminal else EOF
  }

  /** `if (C) L.emplace_back(C)` */
  function Append(cs: seq<Command>, c: Command): seq<Command> {
    if c == Null then cs else cs + [c]
  }

  /** The semantic action of rule r, on the entries of its right-hand side. */
  function Semantic(r: nat, rhs: seq<Entry>): Minor
    requires r <= LAST_RULE && |rhs| == Size(r)
  {
    if r == 0 then Unit
    else if r == 1 then List(Append(ListOf(rhs[0]), TreeOf(rhs[1])))
    else if r <= 4 then Ptr(Binary(OperatorOfRule(r), TreeOf(rhs[0]), TreeOf(rhs[3])))
    else if r <= 10 then Ptr(Word(WordOfRule(r), TextOf(rhs[0])))
    else if r == 11 then List(ListOf(rhs[0]) + [TreeOf(rhs[1])])
    else if r == 12 then Ptr(Block(KindOf(rhs[0]), ListOf(rhs[1]), TextOf(rhs[0]), TextOf(rhs[2])))
    else if r <= 15 then Ptr(Block(KindOf(rhs[0]), ListOf(rhs[2]), TextOf(rhs[0]), TextOf(rhs[3])))
    else if r == 16 then Ptr(If([Clause(IF, ListOf(rhs[2]), TextOf(rhs[0]))], TextOf(rhs[3])))
    else if r == 17 then
      Ptr(If([Clause(IF, ListOf(rhs[2]), TextOf(rhs[0]))] + ClausesOf(rhs[3]), TextOf(rhs[4])))
    else if r == 18 then Clauses([Clause(KindOf(rhs[0]), ListOf(rhs[2]), TextOf(rhs[0]))])
    else if r == 19 then
      Clauses(ClausesOf(rhs[0]) + [Clause(KindOf(rhs[1]), ListOf(rhs[3]), TextOf(rhs[1]))])
    else if r <= 22 then Unit
    else if r == 23 then List([])
    else if r == 24 then List(ListOf(rhs[0]))
    else if r <= 26 then Ptr(Null)
    else if r <= 32 then rhs[0].minor
    else if r == 33 then List(ListOf(rhs[0]))
    else Ptr(Null)
  }

  /** The commands that rule r moves to the command queue. */
  function Queued(r: nat, rhs: seq<Entry>): seq<Command>
    requires r <= LAST_RULE && |rhs| == Size(r)
  {
    if r == 0 then Append([], TreeOf(rhs[1])) else []
  }

  // ---------------------------------------------------------------- the path

  /** The value that belongs to a symbol; commands are never null. */
  predicate Typed(e: Entry) {
    match e.major
    case T(_) => e.minor.Text?
    case N(n) =>
      match n
      case Start => e.minor.Unit?
      case CommandList => e.minor.Unit?
      case Sep => e.minor == Ptr(Null)
      case OptNl => e.minor == Ptr(Null)
      case CompoundList => e.minor.List? && forall c | c in e.minor.commands :: Complete(c)
      case ParenList => e.minor.List? && forall c | c in e.minor.commands :: Complete(c)
      case ElseCommand => e.minor.Clauses? && forall cl | cl in e.minor.clauses :: CompleteClause(cl)
      case _ => e.minor.Ptr? && Complete(e.minor.tree)
  }

  /** The state that the automaton enters from `below` over a symbol. */
  predicate Enters(below: State, symbol: Symbol, s: State) {
    below.At? &&
    match symbol
    case T(t) =>
      (match TableAction(below.number, t)
       case Shift(n) => s == At(n)
       case ShiftReduce(r) => s == Pending(r)
       case _ => false)
    case N(n) => FindReduceAction(below.number, n) == Next(s)
  }

  predicate Edge(below: Entry, e: Entry) {
    Enters(below.state, e.major, e.state) && Typed(e)
  }

  predicate EdgeAt(stack: seq<Entry>, i: nat)
    requires 0 < i < |stack|
  {
    Edge(stack[i - 1], stack[i])
  }

  /** The stack is a path of the automaton from its start state. */
  ghost predicate Path(stack: seq<Entry>) {
    && 0 < |stack| <= DEPTH
    && stack[0] == BOTTOM
    && forall i :: 0 < i < |stack| ==> EdgeAt(stack, i)
  }

  function Top(stack: seq<Entry>): Entry
    requires |stack| > 0
  {
    stack[|stack| - 1]
  }

  /** The entries of a right-hand side carry its symbols. */
  predicate Handle(r: nat, w: seq<Entry>) {
    && r <= LAST_RULE
    && |w| == Size(r)
    && (|w| > 0 ==> Matches(Rhs(r, 0), w[0].major))
    && (|w| > 1 ==> Matches(Rhs(r, 1), w[1].major))
    && (|w| > 2 ==> Matches(Rhs(r, 2), w[2].major))
    && (|w| > 3 ==> Matches(Rhs(r, 3), w[3].major))
    && (|w| > 4 ==> Matches(Rhs(r, 4), w[4].major))
  }

  /** The right-hand side of rule r lies on top of the stack, above a state
      whose goto on the left-hand side is defined. */
  predicate HandleOnTop(stack: seq<Entry>, r: nat) {
    && r <= LAST_RULE
    && Size(r) < |stack|
    && Handle(r, stack[|stack| - Size(r)..])
    && GotoDefined(stack[|stack| - Size(r) - 1].state, r)
    && (r == 20 ==> |stack| == 2)
  }

  predicate GotoDefined(below: State, r: nat)
    requires r <= LAST_RULE
  {
    && below.At?
    && (if r == 20 then FindReduceAction(below.number, Lhs(r)) == Accept
        else FindReduceAction(below.number, Lhs(r)).Next?)
  }

  /** The symbol over which a state is entered. */
  predicate Accessed(s: State, symbol: Symbol) {
    match s
    case At(n) =>
      if 1 <= n <= 4 || 6 <= n <= 8 then symbol == N(CompoundList)
      else if n == 5 then symbol == N(CommandList)
      else if 9 <= n <= 11 then symbol == N(OptNl)
      else if n == 12 || 18 <= n <= 21 then
        symbol.T? && IsOpener(symbol.terminal) && OpenerState(symbol.terminal) == n
      else if 13 <= n <= 15 || 33 <= n <= 34 then symbol.N? && IsCommandLike(symbol.nonterminal)
      else if n == 16 || n == 17 then symbol.T? && IsElse(symbol.terminal)
      else if 22 <= n <= 27 then symbol == N(Sep)
      else if 28 <= n <= 30 then
        symbol.T? && IsOperator(symbol.terminal) && OperatorState(symbol.terminal) == n
      else if n == 31 then symbol == N(ElseCommand)
      else n == 32 && symbol == N(ParenList)
    case Pending(r) =>
      if r <= 1 || r == 22 || r == 24 then symbol == N(Sep)
      else if r == 4 then symbol.N? && IsCommandLike(symbol.nonterminal)
      else if 5 <= r <= 10 then symbol == T(WordOfRule(r))
      else if r == 12 then symbol == T(RPAREN)
      else if 13 <= r <= 17 then symbol == T(END)
      else if r == 25 then symbol == T(SEMI)
      else (r == 26 || r == 35) && symbol == T(NL)
  }

  /** The states from which a state is entered. */
  predicate Under(b: nat, s: State) {
    match s
    case At(n) =>
      if 1 <= n <= 4 then b == n + 23
      else if n == 5 then b == 0
      else if n == 6 || n == 7 then b == n + 16
      else if n == 8 then b == 12
      else if 9 <= n <= 11 then b == n + 19
      else if n == 12 || 18 <= n <= 21 then 1 <= b <= 11
      else if n == 13 then 1 <= b <= 7 && b != 5
      else if n == 14 then b == 8
      else if n == 15 then b == 5
      else if n == 16 then b == 1
      else if n == 17 then b == 31
      else if 22 <= n <= 27 then b == n - 6
      else if n == 28 then 13 <= b <= 15 || 33 <= b <= 34
      else if 29 <= n <= 30 then 13 <= b <= 15
      else if n == 31 then b == 1
      else if n == 32 then b == 12
      else 33 <= n <= 34 && b == n - 23
    case Pending(r) =>
      if r == 0 then b == 15
      else if r == 1 then 13 <= b <= 14
      else if r == 4 then b == 9
      else if 5 <= r <= 10 then 1 <= b <= 11
      else if r == 12 then b == 32
      else if 13 <= r <= 16 then b == 17 - r
      else if r == 17 then b == 31
      else if r == 22 then b == 5
      else if r == 24 then 1 <= b <= 8 && b != 5
      else if r == 25 || r == 26 then 1 <= b <= 8 || 13 <= b <= 21
      else r == 35 && 9 <= b <= 11
  }

  lemma {:induction false} StarterNeighbours(below: nat, t: Terminal, s: State)
    requires IsStarter(t) && 1 <= below <= 11
    requires Enters(At(below), T(t), s)
    ensures Accessed(s, T(t)) && Under(below, s)
  {
    assert TableAction(below, t) == StarterAction(t);
  }

  lemma {:induction false} CloserNeighbours(below: nat, t: Terminal, s: State)
    requires !IsStarter(t) || !(1 <= below <= 11)
    requires Enters(At(below), T(t), s)
    ensures Accessed(s, T(t)) && Under(below, s)
  {
    hide Typed;
  }

  lemma {:induction false} TerminalNeighbours(below: nat, t: Terminal, s: State)
    requires Enters(At(below), T(t), s)
    ensures Accessed(s, T(t)) && Under(below, s)
  {
    if IsStarter(t) && 1 <= below <= 11 {
      StarterNeighbours(below, t, s);
    } else {
      CloserNeighbours(below, t, s);
    }
  }

  lemma {:induction false} NonterminalNeighbours(below: nat, n: Nonterminal, s: State)
    requires Enters(At(below), N(n), s)
    ensures Accessed(s, N(n)) && Under(below, s)
  {
  }

  lemma {:induction false} EdgeNeighbours(stack: seq<Entry>, i: nat)
    requires Path(stack)
    requires 0 < i < |stack|
    ensures stack[i - 1].state.At?
    ensures Under(stack[i - 1].state.number, stack[i].state)
    ensures Accessed(stack[i].state, stack[i].major)
  {
    assert EdgeAt(stack, i);
    match stack[i].major
    case T(t) => TerminalNeighbours(stack[i - 1].state.number, t, stack[i].state);
    case N(n) => NonterminalNeighbours(stack[i - 1].state.number, n, stack[i].state);
  }

  /** The neighbourhood of the entry that lies k entries below the top. */
  lemma {:induction false} Neighbourhood(stack: seq<Entry>, k: nat)
    requires Path(stack)
    requires k < |stack| && stack[|stack| - 1 - k].state != At(0)
    ensures k + 1 < |stack|
    ensures var i := |stack| - 1 - k;
            && stack[i - 1].state.At?
            && Under(stack[i - 1].state.number, stack[i].state)
            && Accessed(stack[i].state, stack[i].major)
  {
    EdgeNeighbours(stack, |stack| - 1 - k);
  }

  /** The states in which rule r is reduced. */
  predicate ReducesIn(s: State, r: nat) {
    match s
    case Pending(p) => p == r
    case At(n) =>
      if n == 0 then r == 21
      else if n == 5 then r == 20
      else if n == 6 then r == 18
      else if n == 7 then r == 19
      else if n == 8 then r == 33
      else if n == 12 || 22 <= n <= 27 then r == 23
      else if n == 14 then r == 11
      else if 28 <= n <= 30 then r == 34
      else if n == 33 then r == 3
      else n == 34 && r == 2
  }

  lemma {:induction false} ReduceState(s: State, t: Terminal, r: nat)
    requires FindShiftAction(s, t) == Reduce(r)
    ensures ReducesIn(s, r)
  {
  }

  /** Only the bottom entry is in the start state. */
  lemma {:induction false} StartStateAtBottom(stack: seq<Entry>, i: nat)
    requires Path(stack)
    requires i < |stack| && stack[i].state == At(0)
    ensures i == 0
  {
    if i > 0 {
      EdgeNeighbours(stack, i);
    }
  }

  /** Where a command may begin, a command may also end up. */
  lemma {:induction false} CommandGotoDefined(b: nat, r: nat)
    requires 1 <= b <= 11
    requires r <= LAST_RULE && IsCommandLike(Lhs(r))
    ensures GotoDefined(At(b), r)
  {
  }

  /** ReduceFindsHandle for the empty rules. */
  lemma {:induction false} EmptyHandle(stack: seq<Entry>, r: nat)
    requires Path(stack)
    requires ReducesIn(Top(stack).state, r)
    requires r == 21 || r == 23 || r == 34
    ensures HandleOnTop(stack, r)
  {
    if Top(stack).state != At(0) {
      Neighbourhood(stack, 0);
    }
  }

  /** ReduceFindsHandle for the rules with one symbol on the right. */
  lemma {:induction false} UnitHandle(stack: seq<Entry>, r: nat)
    requires Path(stack)
    requires ReducesIn(Top(stack).state, r)
    requires r <= LAST_RULE && Size(r) == 1
    ensures HandleOnTop(stack, r)
  {
    Neighbourhood(stack, 0);
    if r == 20 {
      StartStateAtBottom(stack, |stack| - 2);
    }
  }

  /** The states of the entries of an operation, from its left operand on. */
  lemma {:induction false} BinaryStates(stack: seq<Entry>, r: nat)
    requires Path(stack)
    requires ReducesIn(Top(stack).state, r)
    requires 2 <= r <= 4
    ensures var n := |stack|;
            && n > 4
            && (stack[n - 1].state == Pending(r) || stack[n - 1].state == At(36 - r))
            && stack[n - 2].state == At(13 - r)
            && stack[n - 3].state == At(32 - r)
            && stack[n - 5].state.At? && Under(stack[n - 5].state.number, stack[n - 4].state)
            && forall i :: n - 4 <= i < n ==> Accessed(stack[i].state, stack[i].major)
    ensures var s := stack[|stack| - 4].state;
            s.At? && (13 <= s.number <= 15 || 33 <= s.number <= 34)
  {
    hide Accessed, EdgeAt, TableAction, FindReduceAction, WordOfRule, OpenerOfRule, OperatorOfRule;
    Neighbourhood(stack, 0);
    Neighbourhood(stack, 1);
    Neighbourhood(stack, 2);
    Neighbourhood(stack, 3);
  }

  /** ReduceFindsHandle for the operators. */
  lemma {:induction false} BinaryHandle(stack: seq<Entry>, r: nat)
    requires Path(stack)
    requires ReducesIn(Top(stack).state, r)
    requires 2 <= r <= 4
    ensures HandleOnTop(stack, r)
  {
    BinaryStates(stack, r);
    hide Path, EdgeAt;
    var n := |stack|;
    assert stack[n - 3].major == T(OperatorOfRule(r));
    CommandGotoDefined(stack[n - 5].state.number, r);
  }

  /** ReduceFindsHandle for a list that takes a command and its separator. */
  lemma {:induction false} LineOfListHandle(stack: seq<Entry>, r: nat)
    requires Path(stack)
    requires ReducesIn(Top(stack).state, r)
    requires r <= 1
    ensures HandleOnTop(stack, r)
  {
    assert |stack| > 0;
    hide OpenerOfRule, Path, EdgeAt;
    Neighbourhood(stack, 0);
    Neighbourhood(stack, 1);
    Neighbourhood(stack, 2);
  }

  /** ReduceFindsHandle for the other rules of lists. */
  lemma {:induction false} ListHandle(stack: seq<Entry>, r: nat)
    requires Path(stack)
    requires ReducesIn(Top(stack).state, r)
    requires r == 11 || r == 22 || r == 24 || r == 35
    ensures HandleOnTop(stack, r)
  {
    assert |stack| > 0;
    hide OpenerOfRule, Path, EdgeAt;
    Neighbourhood(stack, 0);
    Neighbourhood(stack, 1);
  }

  /** ReduceFindsHandle for the parenthesised command. */
  lemma {:induction false} ParenHandle(stack: seq<Entry>, r: nat)
    requires Path(stack)
    requires ReducesIn(Top(stack).state, r)
    requires r == 12
    ensures HandleOnTop(stack, r)
  {
    var n := |stack|;
    Neighbourhood(stack, 0);
    assert stack[n - 2].state == At(32);
    Neighbourhood(stack, 1);
    assert stack[n - 3].state == At(12);
    Neighbourhood(stack, 2);
    CommandGotoDefined(stack[n - 4].state.number, r);
  }

  /** The states of the entries of a block, from its opener to its End. */
  lemma {:induction false} BlockStates(stack: seq<Entry>, r: nat)
    requires Path(stack)
    requires ReducesIn(Top(stack).state, r)
    requires 13 <= r <= 16
    ensures var n := |stack|;
            && n > 4
            && stack[n - 2].state == At(17 - r)
            && stack[n - 3].state == At(40 - r)
            && stack[n - 4].state == At(34 - r)
            && stack[n - 5].state.At? && Under(stack[n - 5].state.number, stack[n - 4].state)
            && forall i :: n - 4 <= i < n ==> Accessed(stack[i].state, stack[i].major)
  {
    hide Accessed, EdgeAt, TableAction, FindReduceAction, WordOfRule, OpenerOfRule, OperatorOfRule;
    Neighbourhood(stack, 0);
    Neighbourhood(stack, 1);
    Neighbourhood(stack, 2);
    Neighbourhood(stack, 3);
  }

  /** ReduceFindsHandle for the commands closed by End. */
  lemma {:induction false} BlockHandle(stack: seq<Entry>, r: nat)
    requires Path(stack)
    requires ReducesIn(Top(stack).state, r)
    requires 13 <= r <= 16
    ensures HandleOnTop(stack, r)
  {
    BlockStates(stack, r);
    hide Path, EdgeAt;
    var n := |stack|;
    assert stack[n - 4].major == T(OpenerOfRule(r));
    CommandGotoDefined(stack[n - 5].state.number, r);
  }

  /** ReduceFindsHandle for an If with else clauses. */
  lemma {:induction false} IfElseHandle(stack: seq<Entry>, r: nat)
    requires Path(stack)
    requires ReducesIn(Top(stack).state, r)
    requires r == 17
    ensures HandleOnTop(stack, r)
  {
    var n := |stack|;
    Neighbourhood(stack, 0);
    assert stack[n - 2].state == At(31);
    Neighbourhood(stack, 1);
    assert stack[n - 3].state == At(1);
    Neighbourhood(stack, 2);
    assert stack[n - 4].state == At(24);
    Neighbourhood(stack, 3);
    assert stack[n - 5].state == At(18);
    Neighbourhood(stack, 4);
    CommandGotoDefined(stack[n - 6].state.number, r);
  }

  /** ReduceFindsHandle for the else clauses. */
  lemma {:induction false} ElseHandle(stack: seq<Entry>, r: nat)
    requires Path(stack)
    requires ReducesIn(Top(stack).state, r)
    requires 18 <= r <= 19
    ensures HandleOnTop(stack, r)
  {
    var n := |stack|;
    Neighbourhood(stack, 0);
    assert stack[n - 2].state == At(r + 4);
    Neighbourhood(stack, 1);
    assert stack[n - 3].state == At(r - 2);
    Neighbourhood(stack, 2);
    if r == 19 {
      Neighbourhood(stack, 3);
    }
  }

  /** No reduce ever finds the wrong symbols, pops below the bottom entry, or
      is followed by an error action. */
  lemma {:induction false} ReduceFindsHandle(stack: seq<Entry>, t: Terminal, r: nat)
    requires Path(stack)
    requires FindShiftAction(Top(stack).state, t) == Reduce(r)
    ensures HandleOnTop(stack, r)
    ensures r < 27 || r > 32  // the unit rules that the generator optimized out
  {
    ReduceState(Top(stack).state, t, r);
    if Top(stack).state != At(0) {
      Neighbourhood(stack, 0);
    }
    if r <= 1 {
      LineOfListHandle(stack, r);
    } else if r == 11 || r == 22 || r == 24 || r == 35 {
      ListHandle(stack, r);
    } else if 2 <= r <= 4 {
      BinaryHandle(stack, r);
    } else if r == 12 {
      ParenHandle(stack, r);
    } else if 13 <= r <= 16 {
      BlockHandle(stack, r);
    } else if r == 17 {
      IfElseHandle(stack, r);
    } else if 18 <= r <= 19 {
      ElseHandle(stack, r);
    } else if r == 21 || r == 23 || r == 34 {
      EmptyHandle(stack, r);
    } else {
      UnitHandle(stack, r);
    }
  }
}
