/** The parser reads every derivable form as the command that it denotes,
    provided the stack has room for it. */
module Completeness {
  import opened CommandTree
  import opened Automaton
  import opened ParserStack
  import opened ParserStep
  import opened Phase3
  import opened Grammar
  import opened Runs

  // ------------------------------------------------------------ stack need

  function Max(a: nat, b: nat): nat {
    if a < b then b else a
  }

  /** How many entries reading a form puts on the stack at most. */
  function Need(f: Form): (n: nat)
    ensures n > 0
  {
    match f
    case WordForm(_) => 1
    case BinaryForm(l, _, _, r) => Max(Need(l), 3 + Need(r))
    case ParenForm(_, body, last, _) =>
      2 + Max(ItemsNeed(body), if last.Some? then Need(last.value) else 1)
    case BlockForm(_, _, body, _) => 3 + ItemsNeed(body)
    case IfForm(first, rest, _) => Max(3 + ItemsNeed(first.body), SectionsNeed(rest))
  }

  function ItemNeed(i: Item): nat {
    match i
    case Blank(_) => 1
    case Line(f, _) => Max(Need(f), 2)
  }

  /** The need of a list on top of its list entry; its closing token needs one. */
  function ItemsNeed(items: seq<Item>): (n: nat)
    ensures n > 0
  {
    if items == [] then 1
    else Max(ItemsNeed(items[..|items| - 1]), ItemNeed(items[|items| - 1]))
  }

  /** The first else clause lies one entry lower than the later ones. */
  function SectionsNeed(ss: seq<Section>): nat {
    if ss == [] then 4
    else
      var body := ss[|ss| - 1].body;
      Max(SectionsNeed(ss[..|ss| - 1]),
          (if |ss| == 1 then 6 else 7) + (if body == [] then 0 else ItemsNeed(body)))
  }

  // ------------------------------------------------------ entries of forms

  function Major(f: Form): Nonterminal {
    match f
    case WordForm(_) => Term
    case BinaryForm(_, _, _, _) => Cmd
    case ParenForm(_, _, _, _) => ParenCommand
    case BlockForm(o, _, _, _) =>
      if o.kind.BEGIN? then BeginCommand else if o.kind.LOOP? then LoopCommand else ForCommand
    case IfForm(_, _, _) => IfCommand
  }

  function FormEntry(s: nat, f: Form): Entry
    requires 1 <= s <= 11
  {
    Entry(CommandGoto(s).state, N(Major(f)), Ptr(Tree(f)))
  }

  /** The configuration c after n more shifts, with another stack and queue. */
  function After(c: Config, n: nat, stack: seq<Entry>, queue: seq<Command>): Config {
    Config(stack, queue, c.errcnt - n, c.error)
  }

  function WithForm(c: Config, f: Form): Config
    requires |c.stack| > 0 && Top(c.stack).state.At? && 1 <= Top(c.stack).state.number <= 11
  {
    After(c, |Tokens(f)|, c.stack + [FormEntry(Top(c.stack).state.number, f)], c.queue)
  }

  /** The operands that the state on top takes. */
  predicate Takes(c: Config, f: Form) {
    && |c.stack| > 0 && Top(c.stack).state.At?
    && var s := Top(c.stack).state.number;
       && 1 <= s <= 11
       && (s == 9 ==> !f.BinaryForm?)
       && (s == 10 || s == 11 ==> IsPipeline(f))
  }

  function FollowOf(f: Form): Follow {
    if IsPipeline(f) then Any else NoPipe
  }

  // ----------------------------------------------------------------- words

  lemma {:induction false} ReadWord(c: Config, f: Form)
    requires Path(c.stack) && Takes(c, f)
    requires f.WordForm? && Derivable(f, true)
    requires |c.stack| + Need(f) <= DEPTH
    ensures Reads(c, Tokens(f), WithForm(c, f), Any)
  {
    hide Feed, Go, Clean, Path;
    ReadsShift(c, f.word);
    var c1 := ShiftBy(c, f.word);
    assert ReduceBy(c1, WordRule(f.word.kind)) == WithForm(c, f);
    ThenReduce(c, [f.word], c1, Any, WordRule(f.word.kind), WithForm(c, f), Any);
  }

  // ------------------------------------------------------------- operators

  function RuleOfOperator(k: Terminal): nat
    requires IsOperator(k)
  {
    match k
    case PIPE_PIPE => 2
    case AMP_AMP => 3
    case PIPE => 4
  }

  function OperatorEntry(op: Token): Entry
    requires IsOperator(op.kind)
  {
    Entry(At(OperatorState(op.kind)), T(op.kind), Text(op.text))
  }

  function OptNlEntry(k: Terminal): Entry
    requires IsOperator(k)
  {
    Entry(At(OperatorState(k) - 19), N(OptNl), Ptr(Null))
  }

  function AfterOperator(c: Config, op: Token, n: nat): Config
    requires IsOperator(op.kind)
  {
    After(c, n, c.stack + [OptNlEntry(op.kind)], c.queue)
  }

  lemma {:induction false} ReadNoNewline(c: Config, op: Token)
    requires Path(c.stack) && IsOperator(op.kind) && |c.stack| > 0 && Top(c.stack) == OperatorEntry(op)
    requires |c.stack| < DEPTH
    ensures Reads(c, [], AfterOperator(c, op, 0), Any)
  {
    hide Feed, Go, Clean, Path;
    ReadsNothing(c);
    assert ReduceBy(c, 34) == AfterOperator(c, op, 0);
    ThenReduce(c, [], c, Any, 34, AfterOperator(c, op, 0), Any);
  }

  lemma {:induction false} NewlineAfter(stack: seq<Entry>, op: Token, nl: Token)
    requires stack != [] && IsOperator(op.kind) && Top(stack) == OperatorEntry(op) && nl.kind.NL?
    ensures var w := [OptNlEntry(op.kind), Entry(Pending(35), T(NL), Text(nl.text))];
            var stack2 := stack + [w[0]] + [w[1]];
            && HandleOnTop(stack2, 35)
            && Rest(stack2, 35) == stack && Window(stack2, 35) == w
            && ReducedEntry(stack2, 35) == OptNlEntry(op.kind)
  {
    var w := [OptNlEntry(op.kind), Entry(Pending(35), T(NL), Text(nl.text))];
    var stack2 := stack + [w[0]] + [w[1]];
    assert stack2 == stack + w;
    HandleAbove(stack2, stack, w, 35);
  }

  lemma {:induction false} NewlineShifted(c: Config, op: Token, n: nat, nl: Token)
    requires |c.stack| > 0 && IsOperator(op.kind) && Top(c.stack) == OperatorEntry(op) && nl.kind.NL?
    ensures var c1 := AfterOperator(c, op, n);
            && Shifts(Top(c1.stack).state, NL)
            && var c2 := ShiftBy(c1, nl);
               && Top(c2.stack).state == Pending(35)
               && HandleOnTop(c2.stack, 35)
               && ReduceBy(c2, 35) == AfterOperator(c, op, n + 1)
  {
    hide HandleOnTop, ReducedEntry, Rest, Window;
    NewlineAfter(c.stack, op, nl);
    assert c.queue + [] == c.queue;
  }

  lemma {:induction false} ReadNewline(c: Config, op: Token, nls: seq<Token>, nl: Token)
    requires Path(c.stack) && IsOperator(op.kind) && |c.stack| > 0 && Top(c.stack) == OperatorEntry(op)
    requires |c.stack| + 2 <= DEPTH
    requires nl.kind.NL?
    requires Reads(c, nls, AfterOperator(c, op, |nls|), Any)
    ensures Reads(c, nls + [nl], AfterOperator(c, op, |nls| + 1), Any)
  {
    hide Feed, Go, Clean, Path, HandleOnTop, ReduceBy, AfterOperator;
    var c1 := AfterOperator(c, op, |nls|);
    assert |c1.stack| == |c.stack| + 1 by { OneHigher(c, op, |nls|); }
    NewlineShifted(c, op, |nls|, nl);
    var c2 := ShiftBy(c1, nl);
    ThenShift(c, nls, c1, Any, nl, c2);
    assert Size(35) == 2;
    ThenReduce(c, nls + [nl], c2, Any, 35, AfterOperator(c, op, |nls| + 1), Any);
  }

  lemma {:induction false} OneHigher(c: Config, op: Token, n: nat)
    requires IsOperator(op.kind)
    ensures |AfterOperator(c, op, n).stack| == |c.stack| + 1
  {
  }

  /** Any number of newlines after an operator. */
  lemma {:induction false} ReadNewlines(c: Config, op: Token, nls: seq<Token>)
    requires Path(c.stack) && IsOperator(op.kind) && |c.stack| > 0 && Top(c.stack) == OperatorEntry(op)
    requires AllNewlines(nls)
    requires |c.stack| + 2 <= DEPTH
    ensures Reads(c, nls, AfterOperator(c, op, |nls|), Any)
    decreases nls
  {
    hide Feed, Go, Clean, Path;
    if nls == [] {
      ReadNoNewline(c, op);
    } else {
      var k := |nls| - 1;
      ReadNewlines(c, op, nls[..k]);
      ReadNewline(c, op, nls[..k], nls[k]);
      assert nls[..k] + [nls[k]] == nls;
    }
  }

  lemma {:induction false} OperatorReduce(stack: seq<Entry>, f: Form)
    requires |stack| > 0 && Top(stack).state.At? && 1 <= Top(stack).state.number <= 11
    requires f.BinaryForm? && IsOperator(f.op.kind)
    requires Top(stack).state.number != 9
    ensures var s := Top(stack).state.number;
            var r := RuleOfOperator(f.op.kind);
            var stack4 := stack + [FormEntry(s, f.left)] + [OperatorEntry(f.op)] + [OptNlEntry(f.op.kind)]
                          + [FormEntry(OperatorState(f.op.kind) - 19, f.right)];
            && Settles(Top(stack4).state, r, FollowOf(f))
            && HandleOnTop(stack4, r)
            && Rest(stack4, r) == stack
            && ReducedEntry(stack4, r) == FormEntry(s, f)
  {
    var s := Top(stack).state.number;
    var r := RuleOfOperator(f.op.kind);
    var w := [FormEntry(s, f.left), OperatorEntry(f.op), OptNlEntry(f.op.kind),
              FormEntry(OperatorState(f.op.kind) - 19, f.right)];
    var stack4 := stack + [FormEntry(s, f.left)] + [OperatorEntry(f.op)] + [OptNlEntry(f.op.kind)]
                  + [FormEntry(OperatorState(f.op.kind) - 19, f.right)];
    assert stack4 == stack + w;
    assert Top(stack4) == w[3];
    HandleAbove(stack4, stack, w, r);
  }

  /** The configuration in which the right operand of f is read. */
  function BeforeRight(c: Config, f: Form): Config
    requires f.BinaryForm? && IsOperator(f.op.kind)
    requires |c.stack| > 0 && Top(c.stack).state.At? && 1 <= Top(c.stack).state.number <= 11
  {
    After(c, |Tokens(f.left)| + 1 + |f.nls|,
          c.stack + [FormEntry(Top(c.stack).state.number, f.left)] + [OperatorEntry(f.op)] + [OptNlEntry(f.op.kind)],
          c.queue)
  }

  lemma {:induction false} ReadLeftAndOperator(c: Config, f: Form)
    requires Path(c.stack) && Takes(c, f)
    requires f.BinaryForm? && Derivable(f, true)
    requires |c.stack| + 4 <= DEPTH
    requires Reads(c, Tokens(f.left), WithForm(c, f.left), FollowOf(f.left))
    ensures Reads(c, Tokens(f.left) + [f.op] + f.nls, BeforeRight(c, f), Any)
  {
    hide Feed, Go, Clean, Path;
    var s := Top(c.stack).state.number;
    var c1 := WithForm(c, f.left);
    var c2 := ShiftBy(c1, f.op);
    ThenShift(c, Tokens(f.left), c1, FollowOf(f.left), f.op, c2);
    ReadNewlines(c2, f.op, f.nls);
    assert AfterOperator(c2, f.op, |f.nls|) == BeforeRight(c, f);
    ReadsChain(c, Tokens(f.left) + [f.op], c2, Any, f.nls, BeforeRight(c, f), Any);
  }

  lemma {:induction false} BinaryDone(c: Config, f: Form)
    requires Takes(c, f) && f.BinaryForm? && IsOperator(f.op.kind)
    ensures var c4 := WithForm(BeforeRight(c, f), f.right);
            var r := RuleOfOperator(f.op.kind);
            && Settles(Top(c4.stack).state, r, FollowOf(f))
            && HandleOnTop(c4.stack, r)
            && ReduceBy(c4, r) == WithForm(c, f)
  {
    OperatorReduce(c.stack, f);
  }

  lemma {:induction false} ReadBinary(c: Config, f: Form)
    requires Path(c.stack) && Takes(c, f)
    requires f.BinaryForm? && Derivable(f, true)
    requires |c.stack| + Need(f) <= DEPTH
    requires Reads(c, Tokens(f.left), WithForm(c, f.left), FollowOf(f.left))
    requires Reads(BeforeRight(c, f), Tokens(f.right), WithForm(BeforeRight(c, f), f.right), FollowOf(f.right))
    ensures Reads(c, Tokens(f), WithForm(c, f), FollowOf(f))
  {
    hide Feed, Go, Clean, Path;
    ReadLeftAndOperator(c, f);
    var c3 := BeforeRight(c, f);
    var c4 := WithForm(c3, f.right);
    var before := Tokens(f.left) + [f.op] + f.nls;
    ReadsChain(c, before, c3, Any, Tokens(f.right), c4, FollowOf(f.right));
    BinaryDone(c, f);
    ThenReduce(c, before + Tokens(f.right), c4, FollowOf(f.right), RuleOfOperator(f.op.kind), WithForm(c, f),
      FollowOf(f));
  }

  // ------------------------------------------------------------ separators

  function SepRule(k: Terminal): nat
    requires IsSeparator(k)
  {
    if k.SEMI? then 25 else 26
  }

  function WithSep(c: Config): Config
    requires |c.stack| > 0 && Top(c.stack).state.At? && SepGoto(Top(c.stack).state.number).Next?
  {
    After(c, 1, c.stack + [Entry(SepGoto(Top(c.stack).state.number).state, N(Sep), Ptr(Null))], c.queue)
  }

  predicate AllowsSep(stack: seq<Entry>) {
    |stack| > 0 && Top(stack).state.At? && SepGoto(Top(stack).state.number).Next?
  }

  lemma {:induction false} ThenSep(c: Config, a: seq<Token>, c1: Config, f: Follow, sep: Token)
    requires Reads(c, a, c1, f) && f != Closing
    requires AllowsSep(c1.stack) && IsSeparator(sep.kind)
    requires |c1.stack| < DEPTH
    ensures Reads(c, a + [sep], WithSep(c1), Any)
  {
    hide Feed, Go, Clean, Path;
    var c2 := ShiftBy(c1, sep);
    ThenShift(c, a, c1, f, sep, c2);
    assert ReduceBy(c2, SepRule(sep.kind)) == WithSep(c1);
    ThenReduce(c, a + [sep], c2, Any, SepRule(sep.kind), WithSep(c1), Any);
  }

  // ----------------------------------------------------------------- lists

  /** A list lies on top of the stack. */
  predicate OnList(c: Config) {
    && |c.stack| > 1 && Top(c.stack).state.At?
    && var s := Top(c.stack).state.number;
       && IsListState(s)
       && (if s == 5 then Top(c.stack) == Entry(At(5), N(CommandList), Unit)
           else Top(c.stack).major == N(CompoundList) && Top(c.stack).minor.List?)
  }

  /** n tokens later: the list, or the queue, has grown by some commands. */
  function Grown(c: Config, n: nat, cs: seq<Command>): Config
    requires OnList(c)
  {
    var top := Top(c.stack);
    if top.state.number == 5 then After(c, n, c.stack, c.queue + cs)
    else After(c, n, c.stack[..|c.stack| - 1] + [top.(minor := List(top.minor.commands + cs))], c.queue)
  }

  /** The goto that led to a list leads to it again. */
  lemma {:induction false} ListGoto(c: Config)
    requires Path(c.stack) && OnList(c)
    ensures var b := c.stack[|c.stack| - 2].state;
            && b.At?
            && FindReduceAction(b.number, if Top(c.stack).state.number == 5 then CommandList else CompoundList)
               == Next(Top(c.stack).state)
  {
    assert EdgeAt(c.stack, |c.stack| - 1);
  }

  /** Rules 22 and 24: a list takes a separator. */
  lemma {:induction false} BlankReduce(c: Config)
    requires Path(c.stack) && OnList(c)
    ensures AllowsSep(c.stack)
    ensures var c1 := WithSep(c);
            var r := if Top(c.stack).state.number == 5 then 22 else 24;
            && Top(c1.stack).state == Pending(r)
            && HandleOnTop(c1.stack, r)
            && ReduceBy(c1, r) == Grown(c, 1, [])
  {
    hide Enters, Typed;
    var c1 := WithSep(c);
    var base := c.stack[..|c.stack| - 1];
    var r := if Top(c.stack).state.number == 5 then 22 else 24;
    ListGoto(c);
    assert c.stack == base + [Top(c.stack)];
    assert c1.stack == base + [Top(c.stack), Top(c1.stack)];
    HandleAbove(c1.stack, base, [Top(c.stack), Top(c1.stack)], r);
    assert r == 24 ==> ListOf(Top(c.stack)) + [] == ListOf(Top(c.stack));
    assert ReduceBy(c1, r).queue == c.queue == Grown(c, 1, []).queue;
    assert ReduceBy(c1, r).stack == Grown(c, 1, []).stack;
  }

  function LineRule(c: Config): (r: nat)
    requires OnList(c)
    ensures r <= 1
  {
    if Top(c.stack).state.number == 5 then 0 else 1
  }

  /** The entries of a list, a command and its separator, at the top. */
  function LineWindow(c: Config, f: Form): seq<Entry>
    requires OnList(c) && AllowsSep(WithForm(c, f).stack)
  {
    [Top(c.stack), FormEntry(Top(c.stack).state.number, f), Top(WithSep(WithForm(c, f)).stack)]
  }

  lemma {:induction false} LineMatches(c: Config, f: Form)
    requires OnList(c) && AllowsSep(WithForm(c, f).stack)
    ensures Handle(LineRule(c), LineWindow(c, f))
  {
    hide Tree, Tokens, CommandGoto, SepGoto;
    assert IsCommandLike(Major(f));
    assert Top(c.stack).major == if LineRule(c) == 0 then N(CommandList) else N(CompoundList);
    assert Top(WithSep(WithForm(c, f)).stack).major == N(Sep);
  }

  lemma {:induction false} LineStack(c: Config, f: Form)
    requires Path(c.stack) && OnList(c)
    ensures AllowsSep(WithForm(c, f).stack)
    ensures Top(WithSep(WithForm(c, f)).stack).state == Pending(LineRule(c))
    ensures WithSep(WithForm(c, f)).stack == c.stack[..|c.stack| - 1] + LineWindow(c, f)
  {
    hide Path, Tree, Tokens, Major;
  }

  lemma {:induction false} LineHandle(c: Config, f: Form)
    requires Path(c.stack) && OnList(c)
    ensures AllowsSep(WithForm(c, f).stack)
    ensures var c1 := WithSep(WithForm(c, f));
            var r := LineRule(c);
            && Top(c1.stack).state == Pending(r)
            && HandleOnTop(c1.stack, r)
            && Rest(c1.stack, r) == c.stack[..|c.stack| - 1]
            && Window(c1.stack, r) == LineWindow(c, f)
  {
    LineStack(c, f);
    LineMatches(c, f);
    ListGoto(c);
    hide Path, WithSep, WithForm, LineWindow, Handle, HandleOnTop;
    var base := c.stack[..|c.stack| - 1];
    assert GotoDefined(Top(base).state, LineRule(c));
    HandleAbove(WithSep(WithForm(c, f)).stack, base, LineWindow(c, f), LineRule(c));
  }

  lemma {:induction false} CompoundLine(c: Config, f: Form)
    requires Path(c.stack) && OnList(c) && Top(c.stack).state.number != 5
    ensures AllowsSep(WithForm(c, f).stack)
    ensures var c1 := WithSep(WithForm(c, f));
            HandleOnTop(c1.stack, 1) && ReduceBy(c1, 1) == Grown(c, |Tokens(f)| + 1, [Tree(f)])
  {
    LineHandle(c, f);
    ListGoto(c);
    var c1 := WithSep(WithForm(c, f));
    assert Semantic(1, Window(c1.stack, 1)) == List(ListOf(Top(c.stack)) + [Tree(f)]);
    assert Queued(1, Window(c1.stack, 1)) == [];
  }

  /** Rules 0 and 1: a list takes a command and its separator. */
  lemma {:induction false} LineReduce(c: Config, f: Form)
    requires Path(c.stack) && OnList(c)
    ensures AllowsSep(WithForm(c, f).stack)
    ensures var c1 := WithSep(WithForm(c, f));
            var r := LineRule(c);
            && Settles(Top(c1.stack).state, r, Any)
            && HandleOnTop(c1.stack, r)
            && ReduceBy(c1, r) == Grown(c, |Tokens(f)| + 1, [Tree(f)])
  {
    LineHandle(c, f);
    if Top(c.stack).state.number != 5 {
      CompoundLine(c, f);
    }
  }

  lemma {:induction false} ReadBlank(c: Config, sep: Token)
    requires Path(c.stack) && OnList(c) && IsSeparator(sep.kind)
    requires |c.stack| < DEPTH
    ensures Reads(c, [sep], Grown(c, 1, []), Any)
  {
    hide Feed, Go, Clean, Path;
    BlankReduce(c);
    ReadsNothing(c);
    ThenSep(c, [], c, Any, sep);
    assert [] + [sep] == [sep];
    var r := if Top(c.stack).state.number == 5 then 22 else 24;
    ThenReduce(c, [sep], WithSep(c), Any, r, Grown(c, 1, []), Any);
  }

  lemma {:induction false} ReadLine(c: Config, f: Form, sep: Token)
    requires Path(c.stack) && OnList(c) && IsSeparator(sep.kind)
    requires |c.stack| + 1 < DEPTH
    requires Reads(c, Tokens(f), WithForm(c, f), FollowOf(f))
    ensures Reads(c, Tokens(f) + [sep], Grown(c, |Tokens(f)| + 1, [Tree(f)]), Any)
  {
    hide Feed, Go, Clean, Path;
    LineReduce(c, f);
    var c1 := WithForm(c, f);
    ThenSep(c, Tokens(f), c1, FollowOf(f), sep);
    assert Reads(c, Tokens(f) + [sep], WithSep(c1), Any);
    assert Size(LineRule(c)) == 3;
    assert ReduceBy(WithSep(c1), LineRule(c)) == Grown(c, |Tokens(f)| + 1, [Tree(f)]);
    ThenReduce(c, Tokens(f) + [sep], WithSep(c1), Any, LineRule(c), Grown(c, |Tokens(f)| + 1, [Tree(f)]), Any);
  }

  lemma {:induction false} GrownTwice(c: Config, n: nat, m: nat, cs: seq<Command>, ds: seq<Command>)
    requires OnList(c)
    ensures OnList(Grown(c, n, cs))
    ensures Grown(Grown(c, n, cs), m, ds) == Grown(c, n + m, cs + ds)
    ensures |Grown(c, n, cs).stack| == |c.stack|
    ensures Top(Grown(c, n, cs).stack).state == Top(c.stack).state
  {
    if Top(c.stack).state.number == 5 {
      assert c.queue + cs + ds == c.queue + (cs + ds);
    } else {
      var top := Top(c.stack);
      var k := |c.stack| - 1;
      assert Grown(c, n, cs).stack[..k] == c.stack[..k];
      assert top.minor.commands + cs + ds == top.minor.commands + (cs + ds);
    }
  }

  /** A list is read when its last item is. */
  lemma {:induction false} ReadItemsStep(c: Config, c1: Config, c2: Config, items: seq<Item>, last: Item)
    requires Path(c.stack) && OnList(c)
    requires c1 == Grown(c, |ItemsTokens(items)|, ItemsTrees(items))
    requires OnList(c1) && c2 == Grown(c1, |ItemTokens(last)|, ItemTrees(last))
    requires Reads(c, ItemsTokens(items), c1, Any)
    requires Reads(c1, ItemTokens(last), c2, Any)
    ensures c2 == Grown(c, |ItemsTokens(items + [last])|, ItemsTrees(items + [last]))
    ensures Reads(c, ItemsTokens(items + [last]), c2, Any)
  {
    hide Feed, Go, Clean, Path;
    ReadsChain(c, ItemsTokens(items), c1, Any, ItemTokens(last), c2, Any);
    ItemsSnoc(items, last, true);
    GrownTwice(c, |ItemsTokens(items)|, |ItemTokens(last)|, ItemsTrees(items), ItemTrees(last));
  }

  // ------------------------------------------------ commands closed by End

  predicate IsHead(k: Terminal) {
    IsBlockOpener(k) || k.IF?
  }

  function HeadEntry(head: Token): Entry
    requires IsOpener(head.kind)
  {
    Entry(At(OpenerState(head.kind)), T(head.kind), Text(head.text))
  }

  function SepEntry(s: nat): Entry {
    Entry(At(s), N(Sep), Ptr(Null))
  }

  function ListEntry(s: nat, cs: seq<Command>): Entry {
    Entry(At(s), N(CompoundList), List(cs))
  }

  /** A keyword, its separator and a list lie above the stack of c. */
  function Opened(c: Config, head: Token, n: nat, cs: seq<Command>): Config
    requires IsHead(head.kind)
  {
    var s := OpenerState(head.kind);
    After(c, n, c.stack + [HeadEntry(head)] + [SepEntry(s + 6)] + [ListEntry(s - 17, cs)], c.queue)
  }

  lemma {:induction false} ReadHead(c: Config, head: Token, sep: Token)
    requires Path(c.stack) && Top(c.stack).state.At? && 1 <= Top(c.stack).state.number <= 11
    requires IsHead(head.kind) && IsSeparator(sep.kind)
    requires |c.stack| + 3 <= DEPTH
    ensures Reads(c, [head] + [sep], Opened(c, head, 2, []), Any)
    ensures OnList(Opened(c, head, 2, []))
  {
    hide Feed, Go, Clean;
    ReadsShift(c, head);
    var c1 := ShiftBy(c, head);
    ThenSep(c, [head], c1, Any, sep);
    ThenReduce(c, [head] + [sep], WithSep(c1), Any, 23, Opened(c, head, 2, []), Any);
  }

  lemma {:induction false} GrownOpened(c: Config, head: Token, n: nat, cs: seq<Command>)
    requires IsHead(head.kind)
    ensures OnList(Opened(c, head, 2, []))
    ensures Grown(Opened(c, head, 2, []), n, cs) == Opened(c, head, 2 + n, cs)
  {
    var c3 := Opened(c, head, 2, []);
    var s := OpenerState(head.kind);
    assert c3.stack[..|c3.stack| - 1] == c.stack + [HeadEntry(head)] + [SepEntry(s + 6)];
    assert [] + cs == cs;
  }

  /** End closes the list of a Begin, Loop or For, or of an If without else. */
  lemma {:induction false} CloseSteps(stack: seq<Entry>, head: Token, cs: seq<Command>, close: Token)
    requires |stack| > 0 && Top(stack).state.At? && 1 <= Top(stack).state.number <= 11
    requires IsHead(head.kind) && close.kind.END?
    ensures var s := OpenerState(head.kind);
            var r := 34 - s;
            var stack3 := stack + [HeadEntry(head)] + [SepEntry(s + 6)] + [ListEntry(s - 17, cs)];
            && Shifts(Top(stack3).state, END)
            && var stack4 := Pushed(stack3, close);
               && Top(stack4).state == Pending(r)
               && HandleOnTop(stack4, r)
               && Rest(stack4, r) == stack
               && Window(stack4, r) == [HeadEntry(head), SepEntry(s + 6), ListEntry(s - 17, cs), Top(stack4)]
               && Top(stack4) == Entry(Pending(r), T(END), Text(close.text))
  {
    var s := OpenerState(head.kind);
    var r := 34 - s;
    var stack3 := stack + [HeadEntry(head)] + [SepEntry(s + 6)] + [ListEntry(s - 17, cs)];
    var w := [HeadEntry(head), SepEntry(s + 6), ListEntry(s - 17, cs), Entry(Pending(r), T(END), Text(close.text))];
    assert Top(stack3) == ListEntry(s - 17, cs);
    var stack4 := Pushed(stack3, close);
    assert stack4 == stack + w;
    HandleAbove(stack4, stack, w, r);
  }

  /** The list of a keyword is read. */
  lemma {:induction false} ReadBody(c: Config, head: Token, sep: Token, body: seq<Item>, c1: Config)
    requires Path(c.stack) && Top(c.stack).state.At? && 1 <= Top(c.stack).state.number <= 11
    requires IsHead(head.kind) && IsSeparator(sep.kind)
    requires |c.stack| + 3 <= DEPTH
    requires OnList(Opened(c, head, 2, []))
    requires c1 == Grown(Opened(c, head, 2, []), |ItemsTokens(body)|, ItemsTrees(body))
    requires Reads(Opened(c, head, 2, []), ItemsTokens(body), c1, Any)
    ensures c1 == Opened(c, head, 2 + |ItemsTokens(body)|, ItemsTrees(body))
    ensures Reads(c, [head] + [sep] + ItemsTokens(body), c1, Any)
  {
    hide Feed, Go, Clean, Path;
    ReadHead(c, head, sep);
    GrownOpened(c, head, |ItemsTokens(body)|, ItemsTrees(body));
    ReadsChain(c, [head] + [sep], Opened(c, head, 2, []), Any, ItemsTokens(body), c1, Any);
  }

  predicate IsPlainBlock(f: Form) {
    f.BlockForm? || (f.IfForm? && f.rest == [])
  }

  function HeadOf(f: Form): Section
    requires IsPlainBlock(f)
  {
    if f.BlockForm? then Section(f.open, f.sep, f.body) else f.first
  }

  /** What the closing rules build. */
  lemma {:induction false} CloseSemantic(s: nat, f: Form, w: seq<Entry>)
    requires 1 <= s <= 11 && IsPlainBlock(f) && Derivable(f, true)
    requires var h := HeadOf(f);
             w == [HeadEntry(h.head), SepEntry(OpenerState(h.head.kind) + 6),
                   ListEntry(OpenerState(h.head.kind) - 17, ItemsTrees(h.body)),
                   Entry(Pending(34 - OpenerState(h.head.kind)), T(END), Text(f.close.text))]
    ensures var r := 34 - OpenerState(HeadOf(f).head.kind);
            && Queued(r, w) == []
            && Entry(FindReduceAction(s, Lhs(r)).state, N(Lhs(r)), Semantic(r, w)) == FormEntry(s, f)
    ensures |Tokens(f)| == 3 + |ItemsTokens(HeadOf(f).body)|
  {
    var r := 34 - OpenerState(HeadOf(f).head.kind);
    if f.IfForm? {
      var first := Clause(IF, ItemsTrees(f.first.body), f.first.head.text);
      assert [first] + SectionsClauses(f.rest) == [first];
      assert Semantic(r, w) == Ptr(Tree(f));
      assert SectionsTokens(f.rest) == [];
    } else {
      assert Semantic(r, w) == Ptr(Tree(f));
    }
  }

  lemma {:induction false} CloseReduce(c: Config, f: Form, c1: Config, r: nat, c2: Config)
    requires |c.stack| > 0 && Top(c.stack).state.At? && 1 <= Top(c.stack).state.number <= 11
    requires IsPlainBlock(f) && Derivable(f, true)
    requires c1 == Opened(c, HeadOf(f).head, 2 + |ItemsTokens(HeadOf(f).body)|, ItemsTrees(HeadOf(f).body))
    requires r == 34 - OpenerState(HeadOf(f).head.kind)
    requires Shifts(Top(c1.stack).state, END) && c2 == ShiftBy(c1, f.close)
    ensures Top(c2.stack).state == Pending(r)
    ensures HandleOnTop(c2.stack, r)
    ensures ReduceBy(c2, r) == WithForm(c, f)
  {
    hide FindShiftAction, Lhs, Size, Append, Semantic, Handle, HandleOnTop;
    var h := HeadOf(f);
    CloseSteps(c.stack, h.head, ItemsTrees(h.body), f.close);
    CloseSemantic(Top(c.stack).state.number, f, Window(c2.stack, r));
    assert ReducedEntry(c2.stack, r) == FormEntry(Top(c.stack).state.number, f);
    assert Rest(c2.stack, r) == c.stack;
    assert c2.queue + [] == c.queue;
    assert c2.errcnt == WithForm(c, f).errcnt;
  }

  lemma {:induction false} ReadToEnd(c: Config, f: Form, c1: Config, c2: Config)
    requires Path(c.stack) && Top(c.stack).state.At? && 1 <= Top(c.stack).state.number <= 11
    requires IsPlainBlock(f) && Derivable(f, true)
    requires c1 == Opened(c, HeadOf(f).head, 2 + |ItemsTokens(HeadOf(f).body)|, ItemsTrees(HeadOf(f).body))
    requires Reads(c, [HeadOf(f).head] + [HeadOf(f).sep] + ItemsTokens(HeadOf(f).body), c1, Any)
    requires |c.stack| + 4 <= DEPTH
    requires Shifts(Top(c1.stack).state, END) && c2 == ShiftBy(c1, f.close)
    ensures Reads(c, Tokens(f), c2, Any)
  {
    hide Feed, Go, Clean, Path;
    var h := HeadOf(f);
    var before := [h.head] + [h.sep] + ItemsTokens(h.body);
    ThenShift(c, before, c1, Any, f.close, c2);
    assert Tokens(f) == before + [f.close] by {
      assert f.IfForm? ==> before + SectionsTokens(f.rest) == before;
    }
  }

  lemma {:induction false} ReadPlainBlock(c: Config, f: Form, c1: Config)
    requires Path(c.stack) && Takes(c, f)
    requires IsPlainBlock(f) && Derivable(f, true)
    requires |c.stack| + 4 <= DEPTH
    requires OnList(Opened(c, HeadOf(f).head, 2, []))
    requires c1 == Grown(Opened(c, HeadOf(f).head, 2, []), |ItemsTokens(HeadOf(f).body)|, ItemsTrees(HeadOf(f).body))
    requires Reads(Opened(c, HeadOf(f).head, 2, []), ItemsTokens(HeadOf(f).body), c1, Any)
    ensures Reads(c, Tokens(f), WithForm(c, f), Any)
  {
    hide Feed, Go, Clean, Path;
    var h := HeadOf(f);
    ReadBody(c, h.head, h.sep, h.body, c1);
    CloseSteps(c.stack, h.head, ItemsTrees(h.body), f.close);
    var r := 34 - OpenerState(h.head.kind);
    var c2 := ShiftBy(c1, f.close);
    ReadToEnd(c, f, c1, c2);
    CloseReduce(c, f, c1, r, c2);
    assert Size(r) == 4;
    ThenReduce(c, Tokens(f), c2, Any, r, WithForm(c, f), Any);
  }

  // --------------------------------------------------------- parentheses

  function ParenOpened(c: Config, open: Token, n: nat, cs: seq<Command>): Config
    requires open.kind.LPAREN?
  {
    After(c, n, c.stack + [HeadEntry(open)] + [ListEntry(8, cs)], c.queue)
  }

  function ParenRead(c: Config, open: Token, n: nat, cs: seq<Command>): Config
    requires open.kind.LPAREN?
  {
    After(c, n, c.stack + [HeadEntry(open)] + [Entry(At(32), N(ParenList), List(cs))], c.queue)
  }

  function LastTokens(last: Option<Form>): seq<Token> {
    if last.Some? then Tokens(last.value) else []
  }

  function LastTrees(last: Option<Form>): seq<Command> {
    if last.Some? then [Tree(last.value)] else []
  }

  lemma {:induction false} ReadParenOpen(c: Config, open: Token)
    requires Path(c.stack) && Top(c.stack).state.At? && 1 <= Top(c.stack).state.number <= 11
    requires open.kind.LPAREN? && |c.stack| + 2 <= DEPTH
    ensures Reads(c, [open], ParenOpened(c, open, 1, []), Any)
    ensures OnList(ParenOpened(c, open, 1, []))
  {
    hide Feed, Go, Clean;
    assert TableAction(Top(c.stack).state.number, LPAREN) == StarterAction(LPAREN) == Shift(12);
    ReadsShift(c, open);
    var c1 := ShiftBy(c, open);
    assert Top(c1.stack) == HeadEntry(open);
    assert c1.stack[..|c1.stack|] == c1.stack;
    assert ReduceBy(c1, 23) == ParenOpened(c, open, 1, []);
    ThenReduce(c, [open], c1, Any, 23, ParenOpened(c, open, 1, []), Any);
  }

  lemma {:induction false} GrownParen(c: Config, open: Token, n: nat, cs: seq<Command>)
    requires open.kind.LPAREN?
    ensures OnList(ParenOpened(c, open, 1, []))
    ensures Grown(ParenOpened(c, open, 1, []), n, cs) == ParenOpened(c, open, 1 + n, cs)
  {
    var c2 := ParenOpened(c, open, 1, []);
    assert c2.stack[..|c2.stack| - 1] == c.stack + [HeadEntry(open)];
    assert [] + cs == cs;
  }

  lemma {:induction false} ReadParenAlone(c: Config, f: Form, c1: Config, c2: Config)
    requires Path(c.stack) && f.ParenForm? && f.open.kind.LPAREN? && f.last == None
    requires c1 == ParenOpened(c, f.open, 1 + |ItemsTokens(f.body)|, ItemsTrees(f.body))
    requires Reads(c, [f.open] + ItemsTokens(f.body), c1, Any)
    requires c2 == ParenRead(c, f.open, 1 + |ItemsTokens(f.body)|, ItemsTrees(f.body))
    ensures Reads(c, [f.open] + ItemsTokens(f.body), c2, Closing)
  {
    hide Feed, Go, Clean, Path;
    assert Size(33) == 1;
    ThenReduce(c, [f.open] + ItemsTokens(f.body), c1, Any, 33, c2, Closing);
  }

  lemma {:induction false} ReadParenLast(c: Config, f: Form, l: Form, c1: Config, c2: Config)
    requires Path(c.stack) && f.ParenForm? && f.open.kind.LPAREN?
    requires c1 == ParenOpened(c, f.open, 1 + |ItemsTokens(f.body)|, ItemsTrees(f.body))
    requires Reads(c, [f.open] + ItemsTokens(f.body), c1, Any)
    requires Reads(c1, Tokens(l), WithForm(c1, l), FollowOf(l))
    requires c2 == ParenRead(c, f.open, 1 + |ItemsTokens(f.body)| + |Tokens(l)|, ItemsTrees(f.body) + [Tree(l)])
    ensures Reads(c, [f.open] + ItemsTokens(f.body) + Tokens(l), c2, Closing)
  {
    hide Tree, ItemTrees, Go, Clean, Admits;
    var before := [f.open] + ItemsTokens(f.body);
    ReadsChain(c, before, c1, Any, Tokens(l), WithForm(c1, l), FollowOf(l));
    var c' := WithForm(c1, l);
    assert Reads(c, before + Tokens(l), c', FollowOf(l));
    assert ReduceBy(c', 11) == c2;
    assert Size(11) == 2 && Settles(Top(c'.stack).state, 11, Closing);
    ThenReduce(c, before + Tokens(l), c', FollowOf(l), 11, c2, Closing);
  }

  /** What is between the parentheses is read. */
  lemma {:induction false} ReadParenList(c: Config, f: Form, c1: Config, c2: Config)
    requires Path(c.stack) && f.ParenForm? && f.open.kind.LPAREN?
    requires c1 == ParenOpened(c, f.open, 1 + |ItemsTokens(f.body)|, ItemsTrees(f.body))
    requires Reads(c, [f.open] + ItemsTokens(f.body), c1, Any)
    requires f.last.Some? ==> Reads(c1, Tokens(f.last.value), WithForm(c1, f.last.value), FollowOf(f.last.value))
    requires c2 == ParenRead(c, f.open, 1 + |ItemsTokens(f.body)| + |LastTokens(f.last)|,
                             ItemsTrees(f.body) + LastTrees(f.last))
    ensures Reads(c, [f.open] + ItemsTokens(f.body) + LastTokens(f.last), c2, Closing)
  {
    hide Feed, Go, Clean, Path;
    if f.last.Some? {
      ReadParenLast(c, f, f.last.value, c1, c2);
    } else {
      assert ItemsTrees(f.body) + LastTrees(f.last) == ItemsTrees(f.body);
      assert [f.open] + ItemsTokens(f.body) + LastTokens(f.last) == [f.open] + ItemsTokens(f.body);
      ReadParenAlone(c, f, c1, c2);
    }
  }

  lemma {:induction false} ParenReduce(stack: seq<Entry>, open: Token, cs: seq<Command>, close: Token)
    requires |stack| > 0 && Top(stack).state.At? && 1 <= Top(stack).state.number <= 11
    requires open.kind.LPAREN? && close.kind.RPAREN?
    ensures var w := [HeadEntry(open), Entry(At(32), N(ParenList), List(cs)),
                      Entry(Pending(12), T(RPAREN), Text(close.text))];
            var stack3 := stack + [w[0]] + [w[1]] + [w[2]];
            && HandleOnTop(stack3, 12)
            && Rest(stack3, 12) == stack && Window(stack3, 12) == w
            && ReducedEntry(stack3, 12) ==
               Entry(CommandGoto(Top(stack).state.number).state, N(ParenCommand),
                     Ptr(Block(LPAREN, cs, open.text, close.text)))
  {
    var w := [HeadEntry(open), Entry(At(32), N(ParenList), List(cs)),
              Entry(Pending(12), T(RPAREN), Text(close.text))];
    var stack3 := stack + [w[0]] + [w[1]] + [w[2]];
    assert stack3 == stack + w;
    HandleAbove(stack3, stack, w, 12);
  }

  lemma {:induction false} ParenClose(c: Config, f: Form, c2: Config, c3: Config)
    requires |c.stack| > 0 && Top(c.stack).state.At? && 1 <= Top(c.stack).state.number <= 11
    requires f.ParenForm? && f.open.kind.LPAREN? && f.close.kind.RPAREN?
    requires c2 == ParenRead(c, f.open, 1 + |ItemsTokens(f.body)| + |LastTokens(f.last)|,
                             ItemsTrees(f.body) + LastTrees(f.last))
    requires Shifts(Top(c2.stack).state, RPAREN) && c3 == ShiftBy(c2, f.close)
    ensures Top(c3.stack).state == Pending(12)
    ensures HandleOnTop(c3.stack, 12)
    ensures ReduceBy(c3, 12) == WithForm(c, f)
  {
    hide HandleOnTop, ReducedEntry, Rest, Window, ItemsTrees, ItemsTokens;
    var cs := ItemsTrees(f.body) + LastTrees(f.last);
    ParenReduce(c.stack, f.open, cs, f.close);
    assert Top(c3.stack) == Entry(Pending(12), T(RPAREN), Text(f.close.text));
    assert Tree(f) == Block(LPAREN, cs, f.open.text, f.close.text);
    assert c3.queue + [] == c.queue;
    assert |Tokens(f)| == 2 + |ItemsTokens(f.body)| + |LastTokens(f.last)|;
  }

  lemma {:induction false} ReadToParen(c: Config, f: Form, c1: Config, c2: Config, c3: Config)
    requires Path(c.stack) && f.ParenForm? && Derivable(f, true)
    requires |c.stack| + 3 <= DEPTH
    requires c1 == ParenOpened(c, f.open, 1 + |ItemsTokens(f.body)|, ItemsTrees(f.body))
    requires Reads(c, [f.open] + ItemsTokens(f.body), c1, Any)
    requires f.last.Some? ==> Reads(c1, Tokens(f.last.value), WithForm(c1, f.last.value), FollowOf(f.last.value))
    requires c2 == ParenRead(c, f.open, 1 + |ItemsTokens(f.body)| + |LastTokens(f.last)|,
                             ItemsTrees(f.body) + LastTrees(f.last))
    requires Shifts(Top(c2.stack).state, RPAREN) && c3 == ShiftBy(c2, f.close)
    ensures Reads(c, Tokens(f), c3, Any)
  {
    hide Feed, Go, Clean, Path;
    ReadParenList(c, f, c1, c2);
    var before := [f.open] + ItemsTokens(f.body) + LastTokens(f.last);
    assert Reads(c, before, c2, Closing);
    ThenShift(c, before, c2, Closing, f.close, c3);
    assert Tokens(f) == before + [f.close];
  }

  lemma {:induction false} ReadParen(c: Config, f: Form, c1: Config)
    requires Path(c.stack) && Takes(c, f)
    requires f.ParenForm? && Derivable(f, true)
    requires |c.stack| + 3 <= DEPTH
    requires OnList(ParenOpened(c, f.open, 1, []))
    requires c1 == Grown(ParenOpened(c, f.open, 1, []), |ItemsTokens(f.body)|, ItemsTrees(f.body))
    requires Reads(ParenOpened(c, f.open, 1, []), ItemsTokens(f.body), c1, Any)
    requires |c1.stack| > 0 && Top(c1.stack).state == At(8)
    requires f.last.Some? ==> Reads(c1, Tokens(f.last.value), WithForm(c1, f.last.value), FollowOf(f.last.value))
    ensures Reads(c, Tokens(f), WithForm(c, f), Any)
  {
    hide Feed, Go, Clean, Path;
    ReadParenOpen(c, f.open);
    GrownParen(c, f.open, |ItemsTokens(f.body)|, ItemsTrees(f.body));
    ReadsChain(c, [f.open], ParenOpened(c, f.open, 1, []), Any, ItemsTokens(f.body), c1, Any);
    var c2 := ParenRead(c, f.open, 1 + |ItemsTokens(f.body)| + |LastTokens(f.last)|,
                        ItemsTrees(f.body) + LastTrees(f.last));
    assert Reads(c, [f.open] + ItemsTokens(f.body), c1, Any);
    assert TableAction(32, RPAREN) == ShiftReduce(12);
    var c3 := ShiftBy(c2, f.close);
    ReadToParen(c, f, c1, c2, c3);
    ParenClose(c, f, c2, c3);
    assert Reads(c, Tokens(f), c3, Any);
    assert Size(12) == 3 && Settles(Top(c3.stack).state, 12, Any);
    ThenReduce(c, Tokens(f), c3, Any, 12, WithForm(c, f), Any);
  }

  // --------------------------------------------------------- else clauses

  function ElseEntry(cls: seq<Clause>): Entry {
    Entry(At(31), N(ElseCommand), Clauses(cls))
  }

  /** The else clauses ss have been read on top of c. */
  function Elsed(c: Config, ss: seq<Section>): Config {
    if ss == [] then c
    else After(c, |SectionsTokens(ss)|, c.stack + [ElseEntry(SectionsClauses(ss))], c.queue)
  }

  /** The list of the first If clause lies on top of the stack. */
  predicate OnIfList(c: Config) {
    |c.stack| > 1 && Top(c.stack).state == At(1) && Top(c.stack).major == N(CompoundList)
  }

  function ElseHeadEntry(first: bool, head: Token): Entry {
    Entry(At(if first then 16 else 17), T(head.kind), Text(head.text))
  }

  /** An else keyword, its separator and a list lie above the stack of c. */
  function ElseOpened(c: Config, first: bool, head: Token, n: nat, cs: seq<Command>): Config {
    After(c, n, c.stack + [ElseHeadEntry(first, head)] + [SepEntry(if first then 22 else 23)]
                + [ListEntry(if first then 6 else 7, cs)], c.queue)
  }

  predicate BeforeElse(c: Config, first: bool) {
    && |c.stack| > 1
    && (if first then OnIfList(c)
        else Top(c.stack).state == At(31) && Top(c.stack).major == N(ElseCommand) && Top(c.stack).minor.Clauses?)
  }

  lemma {:induction false} ReadElseHead(c: Config, first: bool, head: Token, sep: Token)
    requires Path(c.stack) && BeforeElse(c, first)
    requires IsElse(head.kind) && IsSeparator(sep.kind)
    requires |c.stack| + 3 <= DEPTH
    ensures Reads(c, [head] + [sep], ElseOpened(c, first, head, 2, []), Any)
    ensures OnList(ElseOpened(c, first, head, 2, []))
  {
    hide Feed, Go, Clean, Path;
    ReadsShift(c, head);
    var c1 := ShiftBy(c, head);
    ThenSep(c, [head], c1, Any, sep);
    ThenReduce(c, [head] + [sep], WithSep(c1), Any, 23, ElseOpened(c, first, head, 2, []), Any);
  }

  lemma {:induction false} GrownElse(c: Config, first: bool, head: Token, n: nat, cs: seq<Command>)
    ensures OnList(ElseOpened(c, first, head, 2, []))
    ensures Grown(ElseOpened(c, first, head, 2, []), n, cs) == ElseOpened(c, first, head, 2 + n, cs)
  {
    var c3 := ElseOpened(c, first, head, 2, []);
    assert c3.stack[..|c3.stack| - 1] ==
      c.stack + [ElseHeadEntry(first, head)] + [SepEntry(if first then 22 else 23)];
    assert [] + cs == cs;
  }

  /** The body of an else clause is read. */
  lemma {:induction false} ReadElseBody(c: Config, first: bool, s: Section, c1: Config)
    requires Path(c.stack) && BeforeElse(c, first)
    requires IsElse(s.head.kind) && IsSeparator(s.sep.kind)
    requires |c.stack| + 3 <= DEPTH
    requires OnList(ElseOpened(c, first, s.head, 2, []))
    requires c1 == Grown(ElseOpened(c, first, s.head, 2, []), |ItemsTokens(s.body)|, ItemsTrees(s.body))
    requires Reads(ElseOpened(c, first, s.head, 2, []), ItemsTokens(s.body), c1, Any)
    ensures c1 == ElseOpened(c, first, s.head, |SectionTokens(s)|, ItemsTrees(s.body))
    ensures Reads(c, SectionTokens(s), c1, Any)
  {
    hide Feed, Go, Clean, Path;
    ReadElseHead(c, first, s.head, s.sep);
    GrownElse(c, first, s.head, |ItemsTokens(s.body)|, ItemsTrees(s.body));
    ReadsChain(c, [s.head] + [s.sep], ElseOpened(c, first, s.head, 2, []), Any, ItemsTokens(s.body), c1, Any);
  }

  lemma {:induction false} FirstElseReduce(stack: seq<Entry>, head: Token, cs: seq<Command>)
    requires stack != [] && Top(stack).state == At(1) && IsElse(head.kind)
    ensures var w := [ElseHeadEntry(true, head), SepEntry(22), ListEntry(6, cs)];
            var stack3 := stack + [w[0]] + [w[1]] + [w[2]];
            && HandleOnTop(stack3, 18)
            && Rest(stack3, 18) == stack && Window(stack3, 18) == w
            && ReducedEntry(stack3, 18) == ElseEntry([Clause(head.kind, cs, head.text)])
  {
    var w := [ElseHeadEntry(true, head), SepEntry(22), ListEntry(6, cs)];
    var stack3 := stack + [w[0]] + [w[1]] + [w[2]];
    assert stack3 == stack + w;
    HandleAbove(stack3, stack, w, 18);
  }

  lemma {:induction false} FirstElsed(c: Config, s: Section, c1: Config)
    requires OnIfList(c) && IsElse(s.head.kind)
    requires c1 == ElseOpened(c, true, s.head, |SectionTokens(s)|, ItemsTrees(s.body))
    ensures HandleOnTop(c1.stack, 18)
    ensures ReduceBy(c1, 18) == Elsed(c, [s])
    ensures SectionsTokens([s]) == SectionTokens(s)
  {
    hide HandleOnTop, ReducedEntry, Rest, Window, ItemsTrees, SectionTokens;
    var cl := Clause(s.head.kind, ItemsTrees(s.body), s.head.text);
    SectionsSnoc([], s, true);
    assert [] + [s] == [s] && [] + SectionTokens(s) == SectionTokens(s) && [] + [cl] == [cl];
    FirstElseReduce(c.stack, s.head, ItemsTrees(s.body));
    assert c1.queue + [] == c.queue;
  }

  lemma {:induction false} ReadFirstElse(c: Config, s: Section, c1: Config)
    requires Path(c.stack) && OnIfList(c) && IsElse(s.head.kind)
    requires c1 == ElseOpened(c, true, s.head, |SectionTokens(s)|, ItemsTrees(s.body))
    requires Reads(c, SectionTokens(s), c1, Any)
    ensures Reads(c, SectionsTokens([s]), Elsed(c, [s]), Closing)
  {
    hide Feed, Go, Clean, Path, HandleOnTop, ReduceBy, Elsed, SectionsTokens;
    FirstElsed(c, s, c1);
    assert Size(18) == 3;
    ThenReduce(c, SectionTokens(s), c1, Any, 18, Elsed(c, [s]), Closing);
  }

  lemma {:induction false} NextElseReduce(stack: seq<Entry>, cls: seq<Clause>, head: Token, cs: seq<Command>)
    requires stack != [] && Top(stack).state == At(1) && IsElse(head.kind)
    ensures var w := [ElseEntry(cls), ElseHeadEntry(false, head), SepEntry(23), ListEntry(7, cs)];
            var stack4 := stack + [w[0]] + [w[1]] + [w[2]] + [w[3]];
            && HandleOnTop(stack4, 19)
            && Rest(stack4, 19) == stack && Window(stack4, 19) == w
            && ReducedEntry(stack4, 19) == ElseEntry(cls + [Clause(head.kind, cs, head.text)])
  {
    var w := [ElseEntry(cls), ElseHeadEntry(false, head), SepEntry(23), ListEntry(7, cs)];
    var stack4 := stack + [w[0]] + [w[1]] + [w[2]] + [w[3]];
    assert stack4 == stack + w;
    HandleAbove(stack4, stack, w, 19);
  }

  lemma {:induction false} NextElsed(c: Config, ss: seq<Section>, s: Section, c1: Config)
    requires OnIfList(c) && ss != [] && IsElse(s.head.kind)
    requires c1 == ElseOpened(Elsed(c, ss), false, s.head, |SectionTokens(s)|, ItemsTrees(s.body))
    ensures HandleOnTop(c1.stack, 19)
    ensures ReduceBy(c1, 19) == Elsed(c, ss + [s])
  {
    hide HandleOnTop, ReducedEntry, Rest, Window, ItemsTrees, SectionTokens;
    SectionsSnoc(ss, s, true);
    NextElseReduce(c.stack, SectionsClauses(ss), s.head, ItemsTrees(s.body));
    assert c1.queue + [] == c.queue;
  }

  lemma {:induction false} ReadNextElse(c: Config, ss: seq<Section>, s: Section, c1: Config)
    requires Path(c.stack) && OnIfList(c) && ss != [] && IsElse(s.head.kind)
    requires Reads(c, SectionsTokens(ss), Elsed(c, ss), Closing)
    requires c1 == ElseOpened(Elsed(c, ss), false, s.head, |SectionTokens(s)|, ItemsTrees(s.body))
    requires Reads(Elsed(c, ss), SectionTokens(s), c1, Any)
    ensures Reads(c, SectionsTokens(ss + [s]), Elsed(c, ss + [s]), Closing)
  {
    hide Feed, Go, Clean, Path, HandleOnTop, ReduceBy;
    ReadsChain(c, SectionsTokens(ss), Elsed(c, ss), Closing, SectionTokens(s), c1, Any);
    SectionsSnoc(ss, s, true);
    NextElsed(c, ss, s, c1);
    assert Size(19) == 4;
    ThenReduce(c, SectionsTokens(ss) + SectionTokens(s), c1, Any, 19, Elsed(c, ss + [s]), Closing);
  }

  /** Rule 17. */
  lemma {:induction false} IfElseReduce(stack: seq<Entry>, first: Clause, sep: Entry, cls: seq<Clause>, close: Token)
    requires |stack| > 0 && Top(stack).state.At? && 1 <= Top(stack).state.number <= 11
    requires sep == SepEntry(24) && close.kind.END?
    ensures var stack5 := stack + [HeadEntry(Token(IF, first.clause))] + [sep] + [ListEntry(1, first.children)]
                          + [ElseEntry(cls)] + [Entry(Pending(17), T(END), Text(close.text))];
            && HandleOnTop(stack5, 17)
            && Rest(stack5, 17) == stack
            && ReducedEntry(stack5, 17) ==
               Entry(CommandGoto(Top(stack).state.number).state, N(IfCommand),
                     Ptr(If([Clause(IF, first.children, first.clause)] + cls, close.text)))
  {
    var w := [HeadEntry(Token(IF, first.clause)), sep, ListEntry(1, first.children),
              ElseEntry(cls), Entry(Pending(17), T(END), Text(close.text))];
    var stack5 := stack + [HeadEntry(Token(IF, first.clause))] + [sep] + [ListEntry(1, first.children)]
                  + [ElseEntry(cls)] + [Entry(Pending(17), T(END), Text(close.text))];
    assert stack5 == stack + w;
    HandleAbove(stack5, stack, w, 17);
  }

  lemma {:induction false} IfElseClose(c: Config, f: Form, c2: Config, c3: Config)
    requires |c.stack| > 0 && Top(c.stack).state.At? && 1 <= Top(c.stack).state.number <= 11
    requires f.IfForm? && f.first.head.kind.IF? && f.rest != [] && f.close.kind.END?
    requires c2 == Elsed(Opened(c, f.first.head, |SectionTokens(f.first)|, ItemsTrees(f.first.body)), f.rest)
    requires Shifts(Top(c2.stack).state, END) && c3 == ShiftBy(c2, f.close)
    ensures Top(c3.stack).state == Pending(17)
    ensures HandleOnTop(c3.stack, 17)
    ensures ReduceBy(c3, 17) == WithForm(c, f)
  {
    hide HandleOnTop, ReducedEntry, Rest;
    var first := Clause(IF, ItemsTrees(f.first.body), f.first.head.text);
    IfElseReduce(c.stack, first, SepEntry(24), SectionsClauses(f.rest), f.close);
    assert Token(IF, first.clause) == f.first.head;
    assert Top(c3.stack) == Entry(Pending(17), T(END), Text(f.close.text));
    assert ReducedEntry(c3.stack, 17) == FormEntry(Top(c.stack).state.number, f);
    assert c3.queue + [] == c.queue;
    assert |Tokens(f)| == |SectionTokens(f.first)| + |SectionsTokens(f.rest)| + 1;
  }

  lemma {:induction false} ReadIfElse(c: Config, f: Form, c1: Config)
    requires Path(c.stack) && Takes(c, f)
    requires f.IfForm? && f.first.head.kind.IF? && f.rest != [] && f.close.kind.END?
    requires |c.stack| + 5 <= DEPTH
    requires c1 == Opened(c, f.first.head, |SectionTokens(f.first)|, ItemsTrees(f.first.body))
    requires Reads(c, SectionTokens(f.first), c1, Any)
    requires Reads(c1, SectionsTokens(f.rest), Elsed(c1, f.rest), Closing)
    ensures Reads(c, Tokens(f), WithForm(c, f), Any)
  {
    hide Feed, Go, Clean, Path;
    var c2 := Elsed(c1, f.rest);
    var before := SectionTokens(f.first) + SectionsTokens(f.rest);
    ReadsChain(c, SectionTokens(f.first), c1, Any, SectionsTokens(f.rest), c2, Closing);
    assert Reads(c, before, c2, Closing);
    assert TableAction(31, END) == ShiftReduce(17);
    var c3 := ShiftBy(c2, f.close);
    ThenShift(c, before, c2, Closing, f.close, c3);
    IfElseClose(c, f, c2, c3);
    assert Reads(c, Tokens(f), c3, Any);
    assert Size(17) == 5;
    ThenReduce(c, Tokens(f), c3, Any, 17, WithForm(c, f), Any);
  }

  // ---------------------------------------------------------- every form

  /** Every derivable form is read as the command that it denotes. */
  lemma {:induction false} ReadForm(c: Config, f: Form)
    requires Path(c.stack) && Takes(c, f)
    requires Derivable(f, true)
    requires |c.stack| + Need(f) <= DEPTH
    ensures Reads(c, Tokens(f), WithForm(c, f), FollowOf(f))
    decreases f
  {
    hide Feed, Go, Clean, Path;
    match f
    case WordForm(_) => ReadWord(c, f);
    case BinaryForm(l, _, _, r) =>
      ReadForm(c, l);
      ReadLeftAndOperator(c, f);
      ReadForm(BeforeRight(c, f), r);
      ReadBinary(c, f);
    case ParenForm(_, _, _, _) => ReadParenForm(c, f);
    case BlockForm(_, _, _, _) => ReadBlockForm(c, f);
    case IfForm(_, rest, _) =>
      if rest == [] {
        ReadBlockForm(c, f);
      } else {
        ReadIfForm(c, f);
      }
  }

  lemma {:induction false} ReadParenForm(c: Config, f: Form)
    requires Path(c.stack) && Takes(c, f)
    requires f.ParenForm? && Derivable(f, true)
    requires |c.stack| + Need(f) <= DEPTH
    ensures Reads(c, Tokens(f), WithForm(c, f), Any)
    decreases f, 0
  {
    hide Feed, Go, Clean, Path;
    ReadParenOpen(c, f.open);
    var c0 := ParenOpened(c, f.open, 1, []);
    ReadItems(c0, f.body);
    var c1 := Grown(c0, |ItemsTokens(f.body)|, ItemsTrees(f.body));
    GrownTwice(c0, |ItemsTokens(f.body)|, 0, ItemsTrees(f.body), []);
    if f.last.Some? {
      ReadForm(c1, f.last.value);
    }
    ReadParen(c, f, c1);
  }

  lemma {:induction false} ReadBlockForm(c: Config, f: Form)
    requires Path(c.stack) && Takes(c, f)
    requires IsPlainBlock(f) && Derivable(f, true)
    requires |c.stack| + Need(f) <= DEPTH
    ensures Reads(c, Tokens(f), WithForm(c, f), Any)
    decreases f, 0
  {
    hide Feed, Go, Clean, Path;
    var h := HeadOf(f);
    ReadHead(c, h.head, h.sep);
    var c0 := Opened(c, h.head, 2, []);
    if f.BlockForm? {
      ReadItems(c0, f.body);
    } else {
      ReadItems(c0, f.first.body);
    }
    ReadPlainBlock(c, f, Grown(c0, |ItemsTokens(h.body)|, ItemsTrees(h.body)));
  }

  lemma {:induction false} ReadIfForm(c: Config, f: Form)
    requires Path(c.stack) && Takes(c, f)
    requires f.IfForm? && f.rest != [] && Derivable(f, true)
    requires |c.stack| + Need(f) <= DEPTH
    ensures Reads(c, Tokens(f), WithForm(c, f), Any)
    decreases f, 0
  {
    hide Feed, Go, Clean, Path;
    var h := f.first;
    ReadHead(c, h.head, h.sep);
    var c0 := Opened(c, h.head, 2, []);
    ReadItems(c0, f.first.body);
    var c1 := Grown(c0, |ItemsTokens(h.body)|, ItemsTrees(h.body));
    ReadBody(c, h.head, h.sep, h.body, c1);
    ReadSections(c1, f.rest);
    ReadIfElse(c, f, c1);
  }

  lemma {:induction false} ReadItem(c: Config, i: Item)
    requires Path(c.stack) && OnList(c)
    requires DerivableItem(i, true)
    requires |c.stack| + ItemNeed(i) <= DEPTH
    ensures Reads(c, ItemTokens(i), Grown(c, |ItemTokens(i)|, ItemTrees(i)), Any)
    decreases i
  {
    hide Feed, Go, Clean, Path;
    match i
    case Blank(sep) => ReadBlank(c, sep);
    case Line(f, sep) =>
      ReadForm(c, f);
      ReadLine(c, f, sep);
  }

  /** Every derivable list is read, onto the list on top or into the queue. */
  lemma {:induction false} ReadItems(c: Config, items: seq<Item>)
    requires Path(c.stack) && OnList(c)
    requires DerivableItems(items, true)
    requires |c.stack| + ItemsNeed(items) <= DEPTH
    ensures Reads(c, ItemsTokens(items), Grown(c, |ItemsTokens(items)|, ItemsTrees(items)), Any)
    decreases items
  {
    hide Feed, Go, Clean, Path;
    if items == [] {
      GrownNothing(c);
      ReadsNothing(c);
    } else {
      var k := |items| - 1;
      ReadItems(c, items[..k]);
      var c1 := Grown(c, |ItemsTokens(items[..k])|, ItemsTrees(items[..k]));
      GrownTwice(c, |ItemsTokens(items[..k])|, 0, ItemsTrees(items[..k]), []);
      ReadItem(c1, items[k]);
      var c2 := Grown(c1, |ItemTokens(items[k])|, ItemTrees(items[k]));
      ReadItemsStep(c, c1, c2, items[..k], items[k]);
      assert items[..k] + [items[k]] == items;
    }
  }

  lemma {:induction false} GrownNothing(c: Config)
    requires OnList(c)
    ensures Grown(c, 0, []) == c
  {
    assert c.queue + [] == c.queue;
    if Top(c.stack).state.number != 5 {
      var top := Top(c.stack);
      assert top.minor.commands + [] == top.minor.commands;
      assert c.stack[..|c.stack| - 1] + [top] == c.stack;
    }
  }

  lemma {:induction false} ReadSections(c: Config, ss: seq<Section>)
    requires Path(c.stack) && OnIfList(c)
    requires DerivableSections(ss, true)
    requires |c.stack| - 3 + SectionsNeed(ss) <= DEPTH
    ensures Reads(c, SectionsTokens(ss), Elsed(c, ss), if ss == [] then Any else Closing)
    decreases ss
  {
    hide Feed, Go, Clean, Path;
    if ss == [] {
      ReadsNothing(c);
    } else {
      var k := |ss| - 1;
      var s := ss[k];
      ReadSections(c, ss[..k]);
      var c0 := Elsed(c, ss[..k]);
      var first := k == 0;
      ReadElseHead(c0, first, s.head, s.sep);
      var c1 := ElseOpened(c0, first, s.head, 2, []);
      if s.body == [] {
        GrownNothing(c1);
        ReadsNothing(c1);
      } else {
        ReadItems(c1, s.body);
      }
      var c2 := Grown(c1, |ItemsTokens(s.body)|, ItemsTrees(s.body));
      ReadElseBody(c0, first, s, c2);
      assert ss[..k] + [s] == ss;
      if first {
        assert ss == [s];
        ReadFirstElse(c, s, c2);
      } else {
        ReadNextElse(c, ss[..k], s, c2);
      }
    }
  }
}
