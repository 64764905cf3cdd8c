/** Whatever the parser has shifted is derived by the grammar: the stack and
    the queue always stand for a derivation of exactly the shifted tokens. */
module Soundness {
  import opened CommandTree
  import opened Automaton
  import opened ParserStack
  import opened ParserStep
  import opened Phase3
  import opened Grammar
  import opened Derivation

  /** No `|` is about to take over a top command that is not a pipeline. */
  predicate TopReady(stack: seq<Entry>, nodes: seq<Node>, t: Terminal) {
    |stack| == |nodes| > 0 &&
    (var top := nodes[|nodes| - 1];
     Top(stack).state.At? && IsAfterCommand(Top(stack).state.number) && t.PIPE? && top.FormNode? ==>
       IsPipeline(top.form))
  }

  function ReducedNodes(stack: seq<Entry>, nodes: seq<Node>, r: nat): seq<Node>
    requires |stack| == |nodes| && HandleOnTop(stack, r)
    requires HasKinds(r, nodes[|stack| - Size(r)..])
  {
    var k := |stack| - Size(r);
    nodes[..k] + [Combine(r, nodes[k..])]
  }

  lemma {:induction false} HandleFits(c: Config, nodes: seq<Node>, q0: seq<Command>, strict: bool, r: nat)
    requires Explains(nodes, c, q0, strict)
    requires HandleOnTop(c.stack, r)
    ensures WindowFits(nodes[|c.stack| - Size(r)..], Window(c.stack, r), strict)
    ensures HasKinds(r, nodes[|c.stack| - Size(r)..])
  {
    var k := |c.stack| - Size(r);
    var w := Window(c.stack, r);
    forall i | 0 <= i < |w| ensures Fits(nodes[k..][i], w[i], strict) {
      assert NodeOk(c.stack, nodes, strict, k + i);
    }
    WindowKinds(r, nodes[k..], w, strict);
  }

  /** The states along the right-hand side of an operator rule. */
  lemma {:induction false} OperatorStates(stack: seq<Entry>, t: Terminal, r: nat)
    requires Path(stack)
    requires FindShiftAction(Top(stack).state, t) == Reduce(r)
    requires 2 <= r <= 4 && HandleOnTop(stack, r)
    ensures var k := |stack| - 4;
            && stack[k + 3].state == (if r == 4 then Pending(4) else At(36 - r))
            && stack[k + 1].state == At(32 - r)
            && stack[k].state.At?
            && (r != 4 ==> IsAfterCommand(stack[k].state.number) && !t.PIPE?)
            && (r == 4 ==> 13 <= stack[k].state.number <= 34)
  {
    ReduceState(Top(stack).state, t, r);
    var k := |stack| - 4;
    Neighbourhood(stack, 0);
    assert stack[k + 2].state == At(13 - r);
    Neighbourhood(stack, 1);
    assert stack[k + 1].state == At(32 - r);
    Neighbourhood(stack, 2);
  }

  /** A reduced operator takes the place and the state of its left operand. */
  lemma {:induction false} OperatorGoto(stack: seq<Entry>, r: nat)
    requires Path(stack)
    requires 2 <= r <= 4 && HandleOnTop(stack, r)
    ensures ReducedEntry(stack, r).state == stack[|stack| - 4].state
  {
    var k := |stack| - 4;
    assert EdgeAt(stack, k);
    assert Matches(N(Cmd), stack[k].major);
    assert stack[k - 1] == Top(Rest(stack, r));
  }

  /** The operands that the states admit are those that precedence admits. */
  lemma {:induction false} OperandsFit(c: Config, t: Terminal, nodes: seq<Node>, q0: seq<Command>, r: nat)
    requires Path(c.stack) && Explains(nodes, c, q0, true)
    requires FindShiftAction(Top(c.stack).state, t) == Reduce(r)
    requires 2 <= r <= 4 && HandleOnTop(c.stack, r)
    requires HasKinds(r, nodes[|c.stack| - Size(r)..])
    ensures var k := |c.stack| - 4;
            && IsPipeline(nodes[k + 3].form)
            && (r == 4 ==> IsPipeline(nodes[k].form) && !nodes[k + 3].form.BinaryForm?)
  {
    var k := |c.stack| - 4;
    OperatorStates(c.stack, t, r);
    assert NodeOk(c.stack, nodes, true, k) && NodeOk(c.stack, nodes, true, k + 3);
    assert nodes[k..][0] == nodes[k] && nodes[k..][3] == nodes[k + 3];
  }

  /** The new entry of a reduce keeps the derivation. */
  lemma {:induction false} ReducedNodeOk(c: Config, t: Terminal, nodes: seq<Node>, q0: seq<Command>, strict: bool,
      r: nat)
    requires Path(c.stack) && Explains(nodes, c, q0, strict)
    requires FindShiftAction(Top(c.stack).state, t) == Reduce(r)
    requires HandleOnTop(c.stack, r) && IsReduced(r)
    requires HasKinds(r, nodes[|c.stack| - Size(r)..])
    ensures var n := Combine(r, nodes[|c.stack| - Size(r)..]);
            var e := ReducedEntry(c.stack, r);
            && Fits(n, e, strict)
            && (strict ==> FitsState(n, e.state))
            && (strict && e.state.At? && IsAfterCommand(e.state.number) && t.PIPE? && n.FormNode? ==>
                  IsPipeline(n.form))
  {
    var k := |c.stack| - Size(r);
    HandleFits(c, nodes, q0, strict, r);
    if strict && 2 <= r <= 4 {
      OperandsFit(c, t, nodes, q0, r);
      OperatorStates(c.stack, t, r);
      OperatorGoto(c.stack, r);
      assert nodes[k..][0] == nodes[k] && nodes[k..][3] == nodes[k + 3];
      assert NodeOk(c.stack, nodes, true, k);
    }
    CombineFits(r, nodes[k..], Window(c.stack, r), strict, ReducedEntry(c.stack, r).state);
  }

  /** Only the command list lies directly above the bottom entry. */
  lemma {:induction false} CommandListAtBottom(stack: seq<Entry>, r: nat)
    requires Path(stack) && HandleOnTop(stack, r) && IsReduced(r)
    ensures r == 0 || r == 21 || r == 22 <==> |stack| - Size(r) == 1
  {
    var k := |stack| - Size(r);
    if r == 0 || r == 22 {
      assert stack[k..][0].major == N(CommandList);
      EdgeNeighbours(stack, k);
      assert EdgeAt(stack, k);
      StartStateAtBottom(stack, k - 1);
    } else if r == 21 {
      StartStateAtBottom(stack, k - 1);
    }
  }

  lemma {:induction false} ReduceKeepsTokens(nodes: seq<Node>, k: nat, r: nat)
    requires k <= |nodes| && IsReduced(r) && |nodes| - k == Size(r)
    requires HasKinds(r, nodes[k..])
    ensures NodesTokens(nodes[..k] + [Combine(r, nodes[k..])]) == NodesTokens(nodes)
  {
    hide Combine, NodeTokens, HasKinds;
    CombineTokens(r, nodes[k..]);
    NodesTokensConcat(nodes[..k], nodes[k..]);
    assert nodes[..k] + nodes[k..] == nodes;
    NodesTokensConcat(nodes[..k], [Combine(r, nodes[k..])]);
    WindowTokens([Combine(r, nodes[k..])]);
  }

  /** What a rule queues is what it adds to the derived command list. */
  lemma {:induction false} ReduceKeepsQueue(c: Config, nodes: seq<Node>, q0: seq<Command>, strict: bool, r: nat)
    requires Path(c.stack) && Explains(nodes, c, q0, strict)
    requires HandleOnTop(c.stack, r) && IsReduced(r)
    requires HasKinds(r, nodes[|c.stack| - Size(r)..])
    ensures var nodes' := ReducedNodes(c.stack, nodes, r);
            && |nodes'| > 1 && nodes'[1].ItemsNode?
            && c.queue + Queued(r, Window(c.stack, r)) == q0 + ItemsTrees(nodes'[1].items)
  {
    var k := |c.stack| - Size(r);
    CommandListAtBottom(c.stack, r);
    if r == 0 {
      assert nodes[k..][0] == nodes[1];
      var item := Line(nodes[k..][1].form, nodes[k..][2].token);
      assert NodeOk(c.stack, nodes, strict, 2);
      assert Matches(N(Cmd), Window(c.stack, r)[1].major);
      ItemsSnoc(nodes[1].items, item, strict);
    } else if r == 22 {
      assert nodes[k..][0] == nodes[1];
      ItemsSnoc(nodes[1].items, Blank(nodes[k..][1].token), strict);
    } else if r != 21 {
      assert nodes[..k][1] == nodes[1];
    }
  }

  /** Replacing everything from position k on by one entry with its node. */
  lemma {:induction false} ReplaceFrom(stack: seq<Entry>, nodes: seq<Node>, strict: bool, k: nat, e: Entry, n: Node)
    requires |nodes| == |stack| && 0 < k <= |stack|
    requires forall i :: 0 < i < |stack| ==> NodeOk(stack, nodes, strict, i)
    requires Fits(n, e, strict) && (strict ==> FitsState(n, e.state))
    requires strict && k > 1 ==> FitsBelow(nodes[k - 1], e.state)
    ensures forall i :: 0 < i <= k ==> NodeOk(stack[..k] + [e], nodes[..k] + [n], strict, i)
  {
    forall i | 0 < i <= k ensures NodeOk(stack[..k] + [e], nodes[..k] + [n], strict, i) {
      if i < k {
        assert NodeOk(stack, nodes, strict, i);
      }
    }
  }

  lemma {:induction false} ReduceKeepsNodes(c: Config, t: Terminal, nodes: seq<Node>, q0: seq<Command>,
      strict: bool, r: nat)
    requires Path(c.stack) && Explains(nodes, c, q0, strict)
    requires FindShiftAction(Top(c.stack).state, t) == Reduce(r)
    requires HandleOnTop(c.stack, r) && IsReduced(r)
    requires HasKinds(r, nodes[|c.stack| - Size(r)..])
    ensures var nodes' := ReducedNodes(c.stack, nodes, r);
            var stack' := ReduceBy(c, r).stack;
            && (forall i :: 0 < i < |stack'| ==> NodeOk(stack', nodes', strict, i))
            && (strict ==> TopReady(stack', nodes', t))
  {
    hide Semantic, NodeOk, Combine;
    var k := |c.stack| - Size(r);
    ReducedNodeOk(c, t, nodes, q0, strict, r);
    ReplaceFrom(c.stack, nodes, strict, k, ReducedEntry(c.stack, r), Combine(r, nodes[k..]));
  }

  lemma {:induction false} ReduceExplains(c: Config, t: Terminal, nodes: seq<Node>, q0: seq<Command>, strict: bool,
      r: nat)
    requires Path(c.stack) && Explains(nodes, c, q0, strict)
    requires FindShiftAction(Top(c.stack).state, t) == Reduce(r)
    requires HandleOnTop(c.stack, r) && IsReduced(r)
    requires HasKinds(r, nodes[|c.stack| - Size(r)..])
    ensures var nodes' := ReducedNodes(c.stack, nodes, r);
            && Explains(nodes', ReduceBy(c, r), q0, strict)
            && NodesTokens(nodes') == NodesTokens(nodes)
            && (strict ==> TopReady(ReduceBy(c, r).stack, nodes', t))
  {
    ReduceKeepsNodes(c, t, nodes, q0, strict, r);
    ReduceKeepsQueue(c, nodes, q0, strict, r);
    ReduceKeepsTokens(nodes, |c.stack| - Size(r), r);
  }

  lemma {:induction false} ShiftExplains(c: Config, t: Token, nodes: seq<Node>, q0: seq<Command>, strict: bool)
    requires Path(c.stack) && Explains(nodes, c, q0, strict)
    requires strict ==> TopReady(c.stack, nodes, t.kind)
    requires Shifts(Top(c.stack).state, t.kind)
    ensures Explains(nodes + [Leaf(t)], c.(stack := Pushed(c.stack, t)), q0, strict)
    ensures NodesTokens(nodes + [Leaf(t)]) == NodesTokens(nodes) + [t]
  {
    var k := |c.stack|;
    var e := Top(Pushed(c.stack, t));
    assert strict && k > 1 ==> NodeOk(c.stack, nodes, strict, k - 1);
    ReplaceFrom(c.stack, nodes, strict, k, e, Leaf(t));
    assert c.stack[..k] == c.stack && nodes[..k] == nodes;
    NodesTokensConcat(nodes, [Leaf(t)]);
    WindowTokens([Leaf(t)]);
  }

  lemma {:induction false} AcceptExplains(c: Config, t: Token, nodes: seq<Node>, q0: seq<Command>, strict: bool)
    requires Path(c.stack) && Explains(nodes, c, q0, strict)
    requires FindShiftAction(Top(c.stack).state, t.kind) == Reduce(20)
    ensures |nodes| == 2 && nodes[1].ItemsNode?
    ensures DerivableItems(nodes[1].items, strict)
    ensures NodesTokens(nodes) == ItemsTokens(nodes[1].items)
    ensures c.queue == q0 + ItemsTrees(nodes[1].items)
  {
    ReduceFindsHandle(c.stack, t.kind, 20);
    assert NodeOk(c.stack, nodes, strict, 1);
    assert Window(c.stack, 20)[0] == c.stack[1];
    WindowTokens(nodes);
  }

  /** What a call that was given token t, on a stack that stood for `before`,
      leaves derived. */
  ghost predicate Accounts(f: Fed, t: Token, before: seq<Token>, nodes: seq<Node>, q0: seq<Command>, strict: bool) {
    match f.outcome
    case Shifted =>
      && Explains(nodes, f.config, q0, strict)
      && NodesTokens(nodes) == before + [t]
      && Top(f.config.stack).major == T(t.kind)
    case Dropped =>
      Explains(nodes, f.config, q0, strict) && NodesTokens(nodes) == before
    case Accepted =>
      && |nodes| == 2 && nodes[1].ItemsNode?
      && DerivableItems(nodes[1].items, strict)
      && before == ItemsTokens(nodes[1].items)
      && f.config.queue == q0 + ItemsTrees(nodes[1].items)
    case _ => true
  }

  lemma {:induction false} ShiftAccounts(c: Config, t: Token, nodes: seq<Node>, q0: seq<Command>, strict: bool)
    requires Path(c.stack) && Explains(nodes, c, q0, strict)
    requires strict ==> TopReady(c.stack, nodes, t.kind)
    requires Shifts(Top(c.stack).state, t.kind) && |c.stack| < DEPTH
    ensures Accounts(Feed(c, t), t, NodesTokens(nodes), nodes + [Leaf(t)], q0, strict)
  {
    ShiftExplains(c, t, nodes, q0, strict);
  }

  lemma {:induction false} AcceptAccounts(c: Config, t: Token, nodes: seq<Node>, q0: seq<Command>, strict: bool)
    requires Path(c.stack) && Explains(nodes, c, q0, strict)
    requires FindShiftAction(Top(c.stack).state, t.kind) == Reduce(20)
    ensures Accounts(Feed(c, t), t, NodesTokens(nodes), nodes, q0, strict)
  {
    AcceptExplains(c, t, nodes, q0, strict);
  }

  /** The configuration after the first reduce, which does the rest. */
  lemma {:induction false} ReduceAccounts(c: Config, t: Token, nodes: seq<Node>, q0: seq<Command>, strict: bool, r: nat)
      returns (c': Config, nodes': seq<Node>)
    requires Path(c.stack) && Explains(nodes, c, q0, strict)
    requires FindShiftAction(Top(c.stack).state, t.kind) == Reduce(r) && r != 20
    requires r <= LAST_RULE && (Size(r) == 0 ==> |c.stack| < DEPTH)
    ensures Path(c'.stack) && Measure(c'.stack) < Measure(c.stack)
    ensures Feed(c, t) == Feed(c', t)
    ensures Explains(nodes', c', q0, strict) && NodesTokens(nodes') == NodesTokens(nodes)
    ensures strict ==> TopReady(c'.stack, nodes', t.kind)
  {
    FeedReduce(c, t, r);
    HandleFits(c, nodes, q0, strict, r);
    ReduceExplains(c, t.kind, nodes, q0, strict, r);
    c' := ReduceBy(c, r);
    nodes' := ReducedNodes(c.stack, nodes, r);
  }

  /** One token, whatever becomes of it. */
  lemma {:induction false} FeedExplains(c: Config, t: Token, nodes: seq<Node>, q0: seq<Command>, strict: bool)
      returns (nodes': seq<Node>)
    requires Path(c.stack) && Explains(nodes, c, q0, strict)
    requires strict ==> TopReady(c.stack, nodes, t.kind)
    ensures Accounts(Feed(c, t), t, NodesTokens(nodes), nodes', q0, strict)
    decreases Measure(c.stack)
  {
    nodes' := nodes;
    match FindShiftAction(Top(c.stack).state, t.kind)
    case Error =>
      assert Accounts(OnError(c, t), t, NodesTokens(nodes), nodes, q0, strict);
    case Reduce(r) =>
      ReduceFindsHandle(c.stack, t.kind, r);
      if Size(r) == 0 && |c.stack| == DEPTH {
        assert Feed(c, t).outcome == Overflowed;
      } else if r == 20 {
        AcceptAccounts(c, t, nodes, q0, strict);
      } else {
        var c1, nodes1 := ReduceAccounts(c, t, nodes, q0, strict, r);
        nodes' := FeedExplains(c1, t, nodes1, q0, strict);
      }
    case _ =>
      if |c.stack| < DEPTH {
        nodes' := nodes + [Leaf(t)];
        ShiftAccounts(c, t, nodes, q0, strict);
      } else {
        assert Feed(c, t).outcome == Overflowed;
      }
  }

}
