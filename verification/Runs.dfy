/** Runs of the parser over token sequences. */
module Runs {
  import opened CommandTree
  import opened Automaton
  import opened ParserStack
  import opened ParserStep
  import opened Phase3

  function Go(c: Config, ts: seq<Token>): (c': Config)
    requires Path(c.stack)
    ensures Path(c'.stack)
    decreases ts
  {
    if ts == [] then c else Go(Feed(c, ts[0]).config, ts[1..])
  }

  /** Every token of the run is shifted. */
  predicate Clean(c: Config, ts: seq<Token>)
    requires Path(c.stack)
    decreases ts
  {
    ts != [] ==> Feed(c, ts[0]).outcome == Shifted && Clean(Feed(c, ts[0]).config, ts[1..])
  }

  lemma {:induction false} GoConcat(c: Config, a: seq<Token>, b: seq<Token>)
    requires Path(c.stack)
    ensures Go(c, a + b) == Go(Go(c, a), b)
    ensures Clean(c, a + b) <==> Clean(c, a) && Clean(Go(c, a), b)
    decreases a
  {
    if a == [] {
      assert a + b == b;
    } else {
      assert (a + b)[1..] == a[1..] + b;
      GoConcat(Feed(c, a[0]).config, a[1..], b);
    }
  }

  // ------------------------------------------------- reading up to reduces

  /** The lookaheads under which a stack is known to settle. */
  datatype Follow = Any | NoPipe | Closing

  predicate Admits(f: Follow, t: Terminal) {
    match f
    case Any => true
    case NoPipe => !t.PIPE?
    case Closing => t.RPAREN? || t.END? || IsElse(t)
  }

  /** Reading ts from c leaves a configuration that treats every admitted next
      token as c2 does. */
  ghost predicate Reads(c: Config, ts: seq<Token>, c2: Config, f: Follow) {
    && Path(c.stack) && Path(c2.stack)
    && Clean(c, ts)
    && forall t: Token :: Admits(f, t.kind) ==> Feed(Go(c, ts), t) == Feed(c2, t)
  }

  lemma {:induction false} ReadsNothing(c: Config)
    requires Path(c.stack)
    ensures Reads(c, [], c, Any)
  {
  }

  lemma {:induction false} ReadsChain(c: Config, a: seq<Token>, c1: Config, f: Follow, b: seq<Token>, c2: Config,
      g: Follow)
    requires Reads(c, a, c1, f) && Reads(c1, b, c2, g)
    requires if b == [] then f == Any || f == g || g == Closing else Admits(f, b[0].kind)
    ensures Reads(c, a + b, c2, g)
  {
    GoConcat(c, a, b);
    if b == [] {
      assert a + b == a;
    }
  }

  /** A token that is shifted. */
  lemma {:induction false} ReadsShift(c: Config, t: Token)
    requires Path(c.stack) && Shifts(Top(c.stack).state, t.kind)
    requires |c.stack| < DEPTH
    ensures Reads(c, [t], c.(stack := Pushed(c.stack, t), errcnt := c.errcnt - 1), Any)
  {
    ShiftKeepsPath(c.stack, t);
    var c' := c.(stack := Pushed(c.stack, t), errcnt := c.errcnt - 1);
    assert Feed(c, t) == Fed(c', Shifted, []);
    assert [t][0] == t && [t][1..] == [];
    assert Go(c, [t]) == Go(c', []) == c';
    assert Clean(c', []);
  }

  /** The states that reduce rule r under every lookahead that f admits. */
  predicate Settles(s: State, r: nat, f: Follow) {
    match s
    case Pending(p) => p == r
    case At(n) =>
      || (n == 0 && r == 21)
      || ((n == 12 || 22 <= n <= 27) && r == 23)
      || (28 <= n <= 30 && r == 34)
      || (n == 33 && r == 3 && f != Any)
      || (n == 34 && r == 2 && f != Any)
      || (f == Closing && ((n == 6 && r == 18) || (n == 7 && r == 19) || (n == 8 && r == 33) || (n == 14 && r == 11)))
  }

  lemma {:induction false} SettlesReduces(s: State, r: nat, f: Follow, t: Terminal)
    requires Settles(s, r, f) && Admits(f, t)
    ensures FindShiftAction(s, t) == Reduce(r)
  {
  }

  /** A reduce that needs no token of its own. */
  lemma {:induction false} ReadsReduce(c: Config, r: nat, f: Follow)
    requires Path(c.stack) && Settles(Top(c.stack).state, r, f)
    requires r <= LAST_RULE && r != 20 && (Size(r) == 0 ==> |c.stack| < DEPTH)
    ensures HandleOnTop(c.stack, r)
    ensures Reads(c, [], ReduceBy(c, r), f)
  {
    SettlesReduces(Top(c.stack).state, r, f, END);
    FeedReduce(c, Token(END, ""), r);
    forall t: Token | Admits(f, t.kind)
      ensures Feed(c, t) == Feed(ReduceBy(c, r), t)
    {
      SettlesReduces(Top(c.stack).state, r, f, t.kind);
      FeedReduce(c, t, r);
    }
  }

  function ShiftBy(c: Config, t: Token): Config
    requires |c.stack| > 0 && Shifts(Top(c.stack).state, t.kind)
  {
    c.(stack := Pushed(c.stack, t), errcnt := c.errcnt - 1)
  }

  /** One more token is shifted. */
  lemma {:induction false} ThenShift(c: Config, a: seq<Token>, c1: Config, f: Follow, t: Token, c2: Config)
    requires Reads(c, a, c1, f) && Admits(f, t.kind)
    requires |c1.stack| < DEPTH && Shifts(Top(c1.stack).state, t.kind)
    requires c2 == ShiftBy(c1, t)
    ensures Reads(c, a + [t], c2, Any)
  {
    ReadsShift(c1, t);
    ReadsChain(c, a, c1, f, [t], c2, Any);
  }

  /** One more rule is reduced. */
  lemma {:induction false} ThenReduce(c: Config, a: seq<Token>, c1: Config, f: Follow, r: nat, c2: Config, g: Follow)
    requires Reads(c, a, c1, f)
    requires f == Any || f == g || g == Closing
    requires Settles(Top(c1.stack).state, r, g)
    requires r <= LAST_RULE && r != 20 && (Size(r) == 0 ==> |c1.stack| < DEPTH)
    requires HandleOnTop(c1.stack, r) && c2 == ReduceBy(c1, r)
    ensures Reads(c, a, c2, g)
  {
    ReadsReduce(c1, r, g);
    ReadsChain(c, a, c1, f, [], c2, g);
    assert a + [] == a;
  }
}
