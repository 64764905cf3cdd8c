/** How high the parser stack grows, by the number of open constructs. */
module StackBound {
  import opened CommandTree
  import opened Automaton
  import opened ParserStack
  import opened ParserStep
  import opened Phase3
  import opened Runs

  function Opens(s: Symbol): nat {
    if s.T? && IsOpener(s.terminal) then 1 else 0
  }

  /** The number of Begin, Loop, For, If and ( entries on the stack. */
  function Open(stack: seq<Entry>): nat {
    if stack == [] then 0 else Open(stack[..|stack| - 1]) + Opens(stack[|stack| - 1].major)
  }

  /** The greatest height of an entry in state s, less 13 for each construct
      open up to it. */
  function Level(s: State): int {
    match s
    case At(n) =>
      if n == 0 then 1
      else if n == 5 then 2
      else if 13 <= n <= 15 then 3
      else if n == 29 || n == 30 then 4
      else if n == 10 || n == 11 then 5
      else if n == 33 || n == 34 then 6
      else if n == 28 then 7
      else if n == 9 then 8
      else if n == 12 || 18 <= n <= 21 then -4
      else if 24 <= n <= 27 || n == 8 || n == 32 then -3
      else if 1 <= n <= 4 then -2
      else if n == 16 || n == 31 then -1
      else if n == 22 || n == 17 then 0
      else if n == 6 || n == 23 then 1
      else 2
    case Pending(_) => 9
  }

  lemma {:induction false} LevelBound(stack: seq<Entry>, k: nat)
    requires Path(stack) && 0 < k <= |stack|
    ensures k <= Level(stack[k - 1].state) + 13 * Open(stack[..k])
  {
    hide EdgeAt;
    assert stack[..k][..k - 1] == stack[..k - 1];
    if k > 1 {
      LevelBound(stack, k - 1);
      EdgeNeighbours(stack, k - 1);
    } else {
      assert Open(stack[..0]) == 0;
    }
  }

  /** With d constructs open the stack holds at most 9 + 13 d entries. */
  lemma {:induction false} HeightBound(stack: seq<Entry>)
    requires Path(stack)
    ensures |stack| <= 9 + 13 * Open(stack)
  {
    LevelBound(stack, |stack|);
    assert stack[..|stack|] == stack;
  }

  // ------------------------------------------------------------- overflow

  lemma {:induction false} OpenConcat(a: seq<Entry>, b: seq<Entry>)
    ensures Open(a + b) == Open(a) + Open(b)
  {
    if b == [] {
      assert a + b == a;
    } else {
      assert (a + b)[..|a + b| - 1] == a + b[..|b| - 1];
      OpenConcat(a, b[..|b| - 1]);
    }
  }

  lemma {:induction false} ReduceKeepsOpen(stack: seq<Entry>, r: nat)
    requires HandleOnTop(stack, r) && r != 20
    ensures Open(Rest(stack, r) + [ReducedEntry(stack, r)]) <= Open(stack)
  {
    OpenConcat(Rest(stack, r), Window(stack, r));
    assert Rest(stack, r) + Window(stack, r) == stack;
    OpenConcat(Rest(stack, r), [ReducedEntry(stack, r)]);
    assert [ReducedEntry(stack, r)][..0] == [];
  }

  /** A full stack has no room only when the entry that does not fit belongs
      to an eighth construct. */
  lemma {:induction false} FullStack(stack: seq<Entry>, symbol: Symbol, s: State)
    requires Path(stack) && |stack| == DEPTH
    requires Enters(Top(stack).state, symbol, s)
    ensures Open(stack) + Opens(symbol) >= 8
  {
    match symbol {
      case T(t) => TerminalNeighbours(Top(stack).state.number, t, s);
      case N(n) => NonterminalNeighbours(Top(stack).state.number, n, s);
    }
    LevelBound(stack, DEPTH);
    assert stack[..DEPTH] == stack;
  }

  /** A call overflows the stack only with eight constructs open, counting the
      token that it is given. */
  lemma {:induction false} OverflowNeedsEightOpen(c: Config, t: Token)
    requires Path(c.stack)
    requires Feed(c, t).outcome == Overflowed
    ensures Open(c.stack) + Opens(T(t.kind)) >= 8
    decreases Measure(c.stack)
  {
    match FindShiftAction(Top(c.stack).state, t.kind)
    case Error =>
    case Reduce(r) =>
      ReduceFindsHandle(c.stack, t.kind, r);
      if Size(r) == 0 && |c.stack| == DEPTH {
        assert Rest(c.stack, r) == c.stack;
        FullStack(c.stack, N(Lhs(r)), ReducedEntry(c.stack, r).state);
      } else if r != 20 {
        FeedReduce(c, t, r);
        ReduceKeepsOpen(c.stack, r);
        OverflowNeedsEightOpen(ReduceBy(c, r), t);
      }
    case _ => FullStack(c.stack, T(t.kind), TerminalState(Top(c.stack).state, t.kind));
  }

  lemma {:induction false} FeedOpens(c: Config, t: Token)
    requires Path(c.stack)
    ensures Open(Feed(c, t).config.stack) <= Open(c.stack) + Opens(T(t.kind))
    decreases Measure(c.stack)
  {
    assert Open([BOTTOM]) == 0 by { assert [BOTTOM][..0] == []; }
    match FindShiftAction(Top(c.stack).state, t.kind)
    case Error =>
    case Reduce(r) =>
      ReduceFindsHandle(c.stack, t.kind, r);
      if !(Size(r) == 0 && |c.stack| == DEPTH) && r != 20 {
        FeedReduce(c, t, r);
        ReduceKeepsOpen(c.stack, r);
        FeedOpens(ReduceBy(c, r), t);
      }
    case _ =>
      if |c.stack| < DEPTH {
        var e := Top(Pushed(c.stack, t));
        OpenConcat(c.stack, [e]);
        assert [e][..0] == [];
      }
  }

  function Openers(ts: seq<Token>): nat {
    if ts == [] then 0 else Opens(T(ts[0].kind)) + Openers(ts[1..])
  }

  /** A call of the run overflows the stack. */
  predicate Overflows(c: Config, ts: seq<Token>)
    requires Path(c.stack)
    decreases ts
  {
    ts != [] && (Feed(c, ts[0]).outcome == Overflowed || Overflows(Feed(c, ts[0]).config, ts[1..]))
  }

  /** Never more than seven constructs are open along the run, counting that of
      the token that is read. */
  predicate SevenOpen(c: Config, ts: seq<Token>)
    requires Path(c.stack)
    decreases ts
  {
    ts != [] ==>
      && Open(c.stack) + Opens(T(ts[0].kind)) <= 7
      && SevenOpen(Feed(c, ts[0]).config, ts[1..])
  }

  /** Whatever the tokens, and whichever of them are dropped: a run in which
      never more than seven constructs are open does not overflow the stack,
      however many it opens and closes. */
  lemma {:induction false} SevenOpenNeverOverflow(c: Config, ts: seq<Token>)
    requires Path(c.stack)
    requires SevenOpen(c, ts)
    ensures !Overflows(c, ts)
    decreases ts
  {
    hide Feed;
    if ts != [] {
      if Feed(c, ts[0]).outcome == Overflowed {
        OverflowNeedsEightOpen(c, ts[0]);
      }
      SevenOpenNeverOverflow(Feed(c, ts[0]).config, ts[1..]);
    }
  }

  /** Only openers open constructs, so that seven openers are never too many. */
  lemma {:induction false} SevenOpenersSuffice(c: Config, ts: seq<Token>)
    requires Path(c.stack)
    requires Open(c.stack) + Openers(ts) <= 7
    ensures SevenOpen(c, ts)
    decreases ts
  {
    hide Feed;
    if ts != [] {
      FeedOpens(c, ts[0]);
      SevenOpenersSuffice(Feed(c, ts[0]).config, ts[1..]);
    }
  }
}
