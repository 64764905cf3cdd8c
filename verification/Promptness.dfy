/** When the parser asks for a continuation line. Every line that the line
    splitter hands over ends with two newline tokens. */
module Promptness {
  import opened CommandTree
  import opened Automaton
  import opened ParserStack
  import opened ParserStep
  import opened Phase3
  import opened Grammar
  import opened Runs
  import opened Completeness
  import opened Parsing

  const NEWLINE := Token(NL, "")

  /** The top entry is a newline on a list, or one after an operator. */
  predicate NewlineOnTop(stack: seq<Entry>) {
    && |stack| > 1
    && Top(stack).major == T(NL)
    && stack[|stack| - 2].state.At?
    && 1 <= stack[|stack| - 2].state.number <= 11
  }

  /** A newline that follows a newline is shifted onto a list, or onto the
      newlines after an operator: never directly onto a command. */
  lemma {:induction false} SecondNewline(c: Config, t: Token)
    requires Path(c.stack) && t.kind.NL?
    requires |c.stack| > 1 && SettledForNewline(c.stack)
    requires Feed(c, t).outcome == Shifted
    ensures NewlineOnTop(Feed(c, t).config.stack)
    decreases Measure(c.stack)
  {
    var action := FindShiftAction(Top(c.stack).state, NL);
    if action.Reduce? {
      var r := action.rule;
      ReduceFindsHandle(c.stack, NL, r);
      if !(Size(r) == 0 && |c.stack| == DEPTH) && r != 20 {
        FeedReduce(c, t, r);
        NewlineReduce(c.stack, r);
        SecondNewline(ReduceBy(c, r), t);
      }
    }
  }

  /** The stacks that reduces leave behind while a second newline is read. */
  predicate SettledForNewline(stack: seq<Entry>)
    requires |stack| > 0
  {
    match Top(stack).state
    case At(n) => 1 <= n <= 11 || 22 <= n <= 27
    case Pending(r) => r <= 1 || r == 22 || r == 24 || r == 25 || r == 26 || r == 35
  }

  lemma {:induction false} NewlineReduce(stack: seq<Entry>, r: nat)
    requires Path(stack) && HandleOnTop(stack, r) && r != 20
    requires SettledForNewline(stack) && FindShiftAction(Top(stack).state, NL) == Reduce(r)
    ensures |Rest(stack, r) + [ReducedEntry(stack, r)]| > 1
    ensures SettledForNewline(Rest(stack, r) + [ReducedEntry(stack, r)])
  {
    ReduceState(Top(stack).state, NL, r);
    Neighbourhood(stack, 0);
  }

  /** Below a last newline that is not inside any construct and does not follow
      an operator there is only the command list. */
  lemma {:induction false} NothingOpen(stack: seq<Entry>)
    requires Path(stack) && NewlineOnTop(stack)
    ensures Continues(stack) <==> |stack| != 3
    ensures |stack| == 3 ==> stack[1] == Entry(At(5), N(CommandList), Unit) && Top(stack).state == Pending(26)
  {
    EdgeNeighbours(stack, 1);
    if |stack| > 2 {
      EdgeNeighbours(stack, 2);
    }
    if |stack| > 3 {
      EdgeNeighbours(stack, 3);
    }
    if |stack| > 4 {
      EdgeNeighbours(stack, 4);
    }
    assert EdgeAt(stack, 1);
    if |stack| == 3 {
      assert EdgeAt(stack, 2);
      forall i | 0 <= i < |stack| ensures !OpensMore(stack[i].major) {
      }
    } else {
      assert |stack| > 3;
      assert OpensMore(stack[2].major) || OpensMore(stack[3].major);
    }
  }

  /** The end of the input is accepted on the command list alone. */
  lemma {:induction false} ListIsAccepted(c: Config)
    requires Path(c.stack) && |c.stack| == 2 && Top(c.stack).state == At(5)
    ensures Feed(c, END_OF_INPUT).outcome == Accepted
    ensures Feed(c, END_OF_INPUT).config.queue == c.queue
  {
    ReduceFindsHandle(c.stack, EOF, 20);
  }

  /** Without a continuation, the end of the input would be accepted, and
      would queue nothing more. */
  lemma {:induction false} AcceptedAtBase(c: Config)
    requires Path(c.stack) && NewlineOnTop(c.stack) && |c.stack| == 3
    ensures Feed(c, END_OF_INPUT).outcome == Accepted
    ensures Feed(c, END_OF_INPUT).config.queue == c.queue
  {
    hide HandleOnTop, GotoDefined, Feed, NewlineOnTop, Path;
    NothingOpen(c.stack);
    FeedReduce(c, END_OF_INPUT, 26);
    var c1 := ReduceBy(c, 26);
    FeedReduce(c1, END_OF_INPUT, 22);
    ListIsAccepted(ReduceBy(c1, 22));
  }

  /** States in which the end of the input leads to an error. */
  predicate Doomed(s: State) {
    match s
    case At(n) => (1 <= n <= 11 && n != 5) || n == 31 || n == 32
    case Pending(r) => r == 24 || r == 35
  }

  lemma {:induction false} DoomedRules(s: State, r: nat)
    requires Doomed(s) && FindShiftAction(s, EOF) == Reduce(r)
    ensures r == 18 || r == 19 || r == 24 || r == 33 || r == 35
  {
    ReduceState(s, EOF, r);
  }

  lemma {:induction false} DoomedReduce(stack: seq<Entry>, r: nat)
    requires Path(stack) && HandleOnTop(stack, r) && r != 20
    requires Doomed(Top(stack).state) && FindShiftAction(Top(stack).state, EOF) == Reduce(r)
    ensures Size(r) > 0
    ensures Doomed(ReducedEntry(stack, r).state)
  {
    DoomedRules(Top(stack).state, r);
    hide FindShiftAction, Path, EdgeAt;
    NonterminalNeighbours(Top(Rest(stack, r)).state.number, Lhs(r), ReducedEntry(stack, r).state);
  }

  lemma {:induction false} DoomedIsNotAccepted(c: Config)
    requires Path(c.stack) && Doomed(Top(c.stack).state)
    ensures Feed(c, END_OF_INPUT).outcome == Failed
    decreases Measure(c.stack)
  {
    var action := FindShiftAction(Top(c.stack).state, EOF);
    if action.Reduce? {
      var r := action.rule;
      ReduceFindsHandle(c.stack, EOF, r);
      DoomedReduce(c.stack, r);
      FeedReduce(c, END_OF_INPUT, r);
      DoomedIsNotAccepted(ReduceBy(c, r));
    }
  }

  /** The end of the input is accepted only where no continuation is due. */
  lemma {:induction false} AcceptedOnlyAtBase(c: Config)
    requires Path(c.stack) && NewlineOnTop(c.stack)
    requires Feed(c, END_OF_INPUT).outcome == Accepted
    ensures |c.stack| == 3
  {
    EdgeNeighbours(c.stack, |c.stack| - 1);
    if Top(c.stack).state == Pending(35) {
      DoomedIsNotAccepted(c);
    } else if c.stack[|c.stack| - 2].state == At(5) {
      EdgeNeighbours(c.stack, |c.stack| - 2);
      StartStateAtBottom(c.stack, |c.stack| - 3);
    } else {
      DoomedNewline(c);
    }
  }

  lemma {:induction false} DoomedNewline(c: Config)
    requires Path(c.stack) && NewlineOnTop(c.stack)
    requires Top(c.stack).state == Pending(26) && c.stack[|c.stack| - 2].state != At(5)
    ensures Feed(c, END_OF_INPUT).outcome == Failed
  {
    hide Feed;
    EdgeNeighbours(c.stack, |c.stack| - 1);
    FeedReduce(c, END_OF_INPUT, 26);
    assert ReducedEntry(c.stack, 26).state == Pending(24);
    DoomedIsNotAccepted(ReduceBy(c, 26));
  }

  /** A shifted token lies on top. */
  lemma {:induction false} ShiftedOnTop(c: Config, t: Token)
    requires Path(c.stack) && Feed(c, t).outcome == Shifted
    ensures var stack := Feed(c, t).config.stack;
            |stack| > 1 && Top(stack).major == T(t.kind)
    decreases Measure(c.stack)
  {
    var action := FindShiftAction(Top(c.stack).state, t.kind);
    if action.Reduce? {
      var r := action.rule;
      ReduceFindsHandle(c.stack, t.kind, r);
      if !(Size(r) == 0 && |c.stack| == DEPTH) && r != 20 {
        FeedReduce(c, t, r);
        ShiftedOnTop(ReduceBy(c, r), t);
      }
    }
  }

  lemma {:induction false} AfterTwoNewlines(c: Config, ts: seq<Token>, first: Token, second: Token)
    requires Path(c.stack)
    requires first.kind.NL? && second.kind.NL?
    requires Clean(c, ts + [first] + [second])
    ensures NewlineOnTop(Go(c, ts + [first] + [second]).stack)
  {
    hide Feed;
    GoConcat(c, ts + [first], [second]);
    GoConcat(c, ts, [first]);
    var c0 := Go(c, ts);
    var c1 := Feed(c0, first).config;
    assert Go(c0, [first]) == Go(c1, []) == c1;
    assert Go(c1, [second]) == Go(Feed(c1, second).config, []) == Feed(c1, second).config;
    ShiftedOnTop(c0, first);
    EdgeNeighbours(c1.stack, |c1.stack| - 1);
    SecondNewline(c1, second);
  }

  /** After a line whose tokens were all shifted the parser asks for a
      continuation exactly when what it has read so far is not a program. When
      it is one, every command of it is already in the queue. */
  lemma {:induction false} ContinuationIsExact(c: Config, ts: seq<Token>, first: Token, second: Token)
    requires Idle(c) && Path(c.stack)
    requires first.kind.NL? && second.kind.NL?
    requires Clean(c, ts + [first] + [second])
    ensures var all := ts + [first] + [second];
            var c2 := Go(c, all);
            && (!Continues(c2.stack) <==> exists items, cs :: Spells(items, all, cs))
            && (forall items, cs :: Spells(items, all, cs) ==> c2.queue == c.queue + cs)
  {
    hide Feed, Go, Clean;
    var all := ts + [first] + [second];
    var c2 := Go(c, all);
    AfterTwoNewlines(c, ts, first, second);
    NothingOpen(c2.stack);
    if !Continues(c2.stack) {
      AcceptedAtBase(c2);
      var items := OnlyProgramsAreParsed(c, all);
      if ProgramNeed(items) > DEPTH {
        LargeProgramsOverflow(c, items);
      }
      assert Spells(items, all, ItemsTrees(items));
    }
    forall items, cs | Spells(items, all, cs)
      ensures !Continues(c2.stack) && c2.queue == c.queue + cs
    {
      ProgramsAreParsed(c, items);
      AcceptedOnlyAtBase(c2);
      AcceptedAtBase(c2);
    }
  }
}
