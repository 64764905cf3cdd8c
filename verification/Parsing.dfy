/** What the parser accepts, what it builds, and when it asks for more. */
module Parsing {
  import opened CommandTree
  import opened Automaton
  import opened ParserStack
  import opened ParserStep
  import opened Phase3
  import opened Grammar
  import opened Derivation
  import opened Soundness
  import opened Runs
  import opened Completeness
  import opened Overflow

  const END_OF_INPUT := Token(EOF, "")

  /** The room that a program needs: the bottom entry, the command list, and
      what its items need. */
  function ProgramNeed(items: seq<Item>): nat {
    2 + (if items == [] then 0 else ItemsNeed(items))
  }

  /** A parser between two programs, as after the constructor, a reset, the
      end of the input, or a failure. */
  predicate Idle(c: Config) {
    c.stack == [BOTTOM]
  }

  lemma {:induction false} IdlePath(c: Config)
    requires Idle(c)
    ensures Path(c.stack)
  {
  }

  /** An idle parser is about to reduce the empty command list. */
  function WithCommandList(c: Config): Config {
    c.(stack := [BOTTOM] + [Entry(At(5), N(CommandList), Unit)])
  }

  lemma {:induction false} ReadStart(c: Config)
    requires Idle(c)
    ensures Path(c.stack)
    ensures Reads(c, [], WithCommandList(c), Any)
    ensures OnList(WithCommandList(c))
  {
    hide Feed, Go, Clean;
    IdlePath(c);
    ReadsNothing(c);
    assert c.stack[..1] == c.stack;
    assert c.queue + [] == c.queue;
    assert ReduceBy(c, 21) == WithCommandList(c);
    ThenReduce(c, [], c, Any, 21, WithCommandList(c), Any);
  }

  lemma {:induction false} ReadProgram(c: Config, items: seq<Item>, c2: Config)
    requires Idle(c) && Path(c.stack)
    requires DerivableItems(items, true)
    requires ProgramNeed(items) <= DEPTH
    requires OnList(WithCommandList(c))
    requires c2 == Grown(WithCommandList(c), |ItemsTokens(items)|, ItemsTrees(items))
    ensures Reads(c, ItemsTokens(items), c2, Any)
  {
    hide Feed, Go, Clean;
    ReadStart(c);
    var c1 := WithCommandList(c);
    if items == [] {
      GrownNothing(c1);
    } else {
      ReadItems(c1, items);
      ReadsChain(c, [], c1, Any, ItemsTokens(items), c2, Any);
      assert [] + ItemsTokens(items) == ItemsTokens(items);
    }
  }

  /** Every program that fits the stack is parsed without an error, and
      exactly its command trees are queued. */
  lemma {:induction false} ProgramsAreParsed(c: Config, items: seq<Item>)
    requires Idle(c)
    requires DerivableItems(items, true)
    requires ProgramNeed(items) <= DEPTH
    ensures Path(c.stack) && Clean(c, ItemsTokens(items))
    ensures var f := Feed(Go(c, ItemsTokens(items)), END_OF_INPUT);
            && f.outcome == Accepted
            && Idle(f.config)
            && f.config.queue == c.queue + ItemsTrees(items)
  {
    ReadStart(c);
    var c2 := Grown(WithCommandList(c), |ItemsTokens(items)|, ItemsTrees(items));
    ReadProgram(c, items, c2);
    assert Top(c2.stack).state == At(5);
    assert Feed(Go(c, ItemsTokens(items)), END_OF_INPUT) == Feed(c2, END_OF_INPUT);
    ReduceFindsHandle(c2.stack, EOF, 20);
  }

  /** A program that does not fit the stack is not parsed cleanly. */
  lemma {:induction false} LargeProgramsOverflow(c: Config, items: seq<Item>)
    requires Idle(c) && Path(c.stack)
    requires DerivableItems(items, true)
    requires ProgramNeed(items) > DEPTH
    ensures !Clean(c, ItemsTokens(items))
  {
    hide Feed, Go, Clean;
    ReadStart(c);
    var c1 := WithCommandList(c);
    SpillItems(c1, items);
    if ItemsTokens(items) == [] {
      CleanNothing(c1);
    }
    SpillAfter(c, [], c1, Any, ItemsTokens(items));
    assert [] + ItemsTokens(items) == ItemsTokens(items);
  }

  lemma {:induction false} CleanNothing(c: Config)
    requires Path(c.stack)
    ensures Clean(c, [])
  {
  }

  // --------------------------------------------------------------- soundness

  lemma {:induction false} ShiftExplained(c: Config, t: Token, nodes: seq<Node>, q0: seq<Command>)
      returns (nodes': seq<Node>)
    requires Path(c.stack) && Explains(nodes, c, q0, true) && TopReady(c.stack, nodes, t.kind)
    requires Feed(c, t).outcome == Shifted
    ensures Explains(nodes', Feed(c, t).config, q0, true)
    ensures NodesTokens(nodes') == NodesTokens(nodes) + [t]
    ensures forall k: Terminal :: TopReady(Feed(c, t).config.stack, nodes', k)
  {
    hide Feed;
    nodes' := FeedExplains(c, t, nodes, q0, true);
    assert |nodes'| > 1 by {
      if |nodes'| == 1 {
        WindowTokens(nodes');
      }
    }
    TopIsLeaf(Feed(c, t).config, nodes', q0);
  }

  /** The derivation behind a run in which every token was shifted. */
  lemma {:induction false} CleanRunExplained(c: Config, ts: seq<Token>, nodes: seq<Node>, q0: seq<Command>)
      returns (nodes': seq<Node>)
    requires Path(c.stack) && Explains(nodes, c, q0, true)
    requires forall t: Terminal :: TopReady(c.stack, nodes, t)
    requires Clean(c, ts)
    ensures Explains(nodes', Go(c, ts), q0, true)
    ensures NodesTokens(nodes') == NodesTokens(nodes) + ts
    ensures forall t: Terminal :: TopReady(Go(c, ts).stack, nodes', t)
    decreases ts
  {
    hide Feed, Explains, TopReady, NodesTokens;
    if ts == [] {
      nodes' := nodes;
      assert NodesTokens(nodes) + [] == NodesTokens(nodes);
    } else {
      var nodes1 := ShiftExplained(c, ts[0], nodes, q0);
      nodes' := CleanRunExplained(Feed(c, ts[0]).config, ts[1..], nodes1, q0);
      assert NodesTokens(nodes) + [ts[0]] + ts[1..] == NodesTokens(nodes) + ts;
    }
  }

  lemma {:induction false} TopIsLeaf(c: Config, nodes: seq<Node>, q0: seq<Command>)
    requires Explains(nodes, c, q0, true)
    requires |c.stack| > 1 && Top(c.stack).major.T?
    ensures forall t: Terminal :: TopReady(c.stack, nodes, t)
  {
    assert NodeOk(c.stack, nodes, true, |c.stack| - 1);
  }

  lemma {:induction false} IdleExplained(c: Config, strict: bool)
    requires Idle(c)
    ensures Explains([Base], c, c.queue, strict)
    ensures forall t: Terminal :: TopReady(c.stack, [Base], t)
    ensures NodesTokens([Base]) == []
  {
    WindowTokens([Base]);
  }

  /** Only programs are parsed without an error, and only into what they denote. */
  lemma {:induction false} OnlyProgramsAreParsed(c: Config, ts: seq<Token>) returns (items: seq<Item>)
    requires Idle(c) && Path(c.stack)
    requires Clean(c, ts)
    requires Feed(Go(c, ts), END_OF_INPUT).outcome == Accepted
    ensures DerivableItems(items, true)
    ensures ItemsTokens(items) == ts
    ensures Feed(Go(c, ts), END_OF_INPUT).config.queue == c.queue + ItemsTrees(items)
  {
    IdleExplained(c, true);
    var nodes := CleanRunExplained(c, ts, [Base], c.queue);
    var nodes' := FeedExplains(Go(c, ts), END_OF_INPUT, nodes, c.queue, true);
    items := nodes'[1].items;
    assert [] + ts == ts;
  }

  /** ts parses from c, without an error, into the commands cs. */
  predicate ParsesInto(c: Config, ts: seq<Token>, cs: seq<Command>)
    requires Path(c.stack)
  {
    && Clean(c, ts)
    && var f := Feed(Go(c, ts), END_OF_INPUT);
       f.outcome == Accepted && f.config.queue == c.queue + cs
  }

  /** The program with these items is written as ts, denotes cs, and fits. */
  predicate Spells(items: seq<Item>, ts: seq<Token>, cs: seq<Command>) {
    && DerivableItems(items, true)
    && ItemsTokens(items) == ts
    && ItemsTrees(items) == cs
    && ProgramNeed(items) <= DEPTH
  }

  /** The parser accepts exactly the programs of the grammar that fit its
      stack, and builds exactly the trees that the grammar gives them. */
  lemma {:induction false} ParserIsTheGrammar(c: Config, ts: seq<Token>, cs: seq<Command>)
    requires Idle(c)
    ensures Path(c.stack)
    ensures ParsesInto(c, ts, cs) <==> exists items :: Spells(items, ts, cs)
  {
    IdlePath(c);
    if ParsesInto(c, ts, cs) {
      var items := OnlyProgramsAreParsed(c, ts);
      if ProgramNeed(items) > DEPTH {
        LargeProgramsOverflow(c, items);
      }
      assert c.queue + cs == c.queue + ItemsTrees(items);
      assert cs == (c.queue + cs)[|c.queue|..] == ItemsTrees(items);
      assert Spells(items, ts, cs);
    }
    if exists items :: Spells(items, ts, cs) {
      var items :| Spells(items, ts, cs);
      ProgramsAreParsed(c, items);
    }
  }

  /** The grammar is unambiguous on the programs that fit. */
  lemma {:induction false} ProgramsAreUnambiguous(a: seq<Item>, b: seq<Item>, ts: seq<Token>, cs: seq<Command>,
      ds: seq<Command>)
    requires Spells(a, ts, cs) && Spells(b, ts, ds)
    ensures cs == ds
  {
    ProgramsAreParsed(INITIAL, a);
    ProgramsAreParsed(INITIAL, b);
    assert [] + cs == cs && [] + ds == ds;
  }
}
