/** The parser stack as a derivation in progress: every entry stands for the
    tokens that were reduced to it. */
module Derivation {
  import opened CommandTree
  import opened Automaton
  import opened ParserStack
  import opened ParserStep
  import opened Grammar

  /** The derivation behind one stack entry. */
  datatype Node =
    | Base
    | Leaf(token: Token)
    | SepNode(token: Token)
    | NlsNode(tokens: seq<Token>)
    | FormNode(form: Form)
    | ItemsNode(items: seq<Item>)
    | ParenNode(items: seq<Item>, last: Option<Form>)
    | ElseNode(sections: seq<Section>)

  function NodeTokens(n: Node): seq<Token> {
    match n
    case Base => []
    case Leaf(t) => [t]
    case SepNode(t) => [t]
    case NlsNode(ts) => ts
    case FormNode(f) => Tokens(f)
    case ItemsNode(items) => ItemsTokens(items)
    case ParenNode(items, last) => ItemsTokens(items) + (if last.Some? then Tokens(last.value) else [])
    case ElseNode(ss) => SectionsTokens(ss)
  }

  function NodesTokens(ns: seq<Node>): seq<Token> {
    if ns == [] then [] else NodesTokens(ns[..|ns| - 1]) + NodeTokens(ns[|ns| - 1])
  }

  /** The derivation of an entry agrees with its symbol and its value. */
  predicate Fits(n: Node, e: Entry, strict: bool) {
    match e.major
    case T(t) => n.Leaf? && n.token.kind == t && e.minor == Text(n.token.text)
    case N(CommandList) => n.ItemsNode? && DerivableItems(n.items, strict)
    case N(CompoundList) =>
      n.ItemsNode? && DerivableItems(n.items, strict) && e.minor == List(ItemsTrees(n.items))
    case N(ParenList) =>
      && n.ParenNode? && DerivableItems(n.items, strict)
      && (n.last.Some? ==> Derivable(n.last.value, strict))
      && e.minor == List(ItemsTrees(n.items) + (if n.last.Some? then [Tree(n.last.value)] else []))
    case N(Sep) => n.SepNode? && IsSeparator(n.token.kind)
    case N(OptNl) => n.NlsNode? && AllNewlines(n.tokens)
    case N(ElseCommand) =>
      n.ElseNode? && DerivableSections(n.sections, strict) && e.minor == Clauses(SectionsClauses(n.sections))
    case N(Start) => false
    case N(_) => n.FormNode? && Derivable(n.form, strict) && e.minor == Ptr(Tree(n.form))
  }

  /** How far a command may grow to the right, by the state it lies in. */
  predicate FitsState(n: Node, s: State) {
    n.FormNode? ==>
      && (s == Pending(4) ==> !n.form.BinaryForm?)
      && (s == At(33) || s == At(34) ==> IsPipeline(n.form))
  }

  predicate FitsBelow(n: Node, above: State) {
    n.FormNode? && above == At(28) ==> IsPipeline(n.form)
  }

  predicate NodeOk(stack: seq<Entry>, nodes: seq<Node>, strict: bool, i: nat)
    requires |nodes| == |stack| && 0 < i < |stack|
  {
    && Fits(nodes[i], stack[i], strict)
    && (strict ==> FitsState(nodes[i], stack[i].state))
    && (strict && i + 1 < |stack| ==> FitsBelow(nodes[i], stack[i + 1].state))
  }

  /** `nodes` derives the stack; beyond q0 the queue holds the commands of the
      derivation of the command list, which lies above the bottom entry. */
  ghost predicate Explains(nodes: seq<Node>, c: Config, q0: seq<Command>, strict: bool) {
    && |nodes| == |c.stack| > 0
    && nodes[0] == Base
    && (forall i :: 0 < i < |c.stack| ==> NodeOk(c.stack, nodes, strict, i))
    && (if |nodes| == 1 then c.queue == q0
        else nodes[1].ItemsNode? && c.queue == q0 + ItemsTrees(nodes[1].items))
  }

  /** The step of the derivation that belongs to rule r. */
  function Combine(r: nat, ns: seq<Node>): Node
    requires r <= LAST_RULE && |ns| == Size(r)
    requires HasKinds(r, ns)
  {
    if r <= 1 then ItemsNode(ns[0].items + [Line(ns[1].form, ns[2].token)])
    else if r <= 4 then FormNode(BinaryForm(ns[0].form, ns[1].token, ns[2].tokens, ns[3].form))
    else if r <= 10 then FormNode(WordForm(ns[0].token))
    else if r == 11 then ParenNode(ns[0].items, Some(ns[1].form))
    else if r == 12 then FormNode(ParenForm(ns[0].token, ns[1].items, ns[1].last, ns[2].token))
    else if r <= 15 then FormNode(BlockForm(ns[0].token, ns[1].token, ns[2].items, ns[3].token))
    else if r == 16 then
      FormNode(IfForm(Section(ns[0].token, ns[1].token, ns[2].items), [], ns[3].token))
    else if r == 17 then
      FormNode(IfForm(Section(ns[0].token, ns[1].token, ns[2].items), ns[3].sections, ns[4].token))
    else if r == 18 then ElseNode([Section(ns[0].token, ns[1].token, ns[2].items)])
    else if r == 19 then
      ElseNode(ns[0].sections + [Section(ns[1].token, ns[2].token, ns[3].items)])
    else if r == 22 || r == 24 then ItemsNode(ns[0].items + [Blank(ns[1].token)])
    else if r == 25 || r == 26 then SepNode(ns[0].token)
    else if r == 33 then ParenNode(ns[0].items, None)
    else if r == 34 then NlsNode([])
    else if r == 35 then NlsNode(ns[0].tokens + [ns[1].token])
    else ItemsNode([])
  }

  /** The nodes of a window have the constructors that rule r works on. */
  predicate HasKinds(r: nat, ns: seq<Node>)
    requires r <= LAST_RULE && |ns| == Size(r)
  {
    if r <= 1 then ns[0].ItemsNode? && ns[1].FormNode? && ns[2].SepNode?
    else if r <= 4 then ns[0].FormNode? && ns[1].Leaf? && ns[2].NlsNode? && ns[3].FormNode?
    else if r <= 10 then ns[0].Leaf?
    else if r == 11 then ns[0].ItemsNode? && ns[1].FormNode?
    else if r == 12 then ns[0].Leaf? && ns[1].ParenNode? && ns[2].Leaf?
    else if r <= 16 then ns[0].Leaf? && ns[1].SepNode? && ns[2].ItemsNode? && ns[3].Leaf?
    else if r == 17 then
      ns[0].Leaf? && ns[1].SepNode? && ns[2].ItemsNode? && ns[3].ElseNode? && ns[4].Leaf?
    else if r == 18 then ns[0].Leaf? && ns[1].SepNode? && ns[2].ItemsNode?
    else if r == 19 then
      ns[0].ElseNode? && ns[1].Leaf? && ns[2].SepNode? && ns[3].ItemsNode?
    else if r == 22 || r == 24 then ns[0].ItemsNode? && ns[1].SepNode?
    else if r == 25 || r == 26 then ns[0].Leaf?
    else if r == 33 then ns[0].ItemsNode?
    else if r == 35 then ns[0].NlsNode? && ns[1].Leaf?
    else true
  }

  predicate WindowFits(ns: seq<Node>, w: seq<Entry>, strict: bool) {
    |ns| == |w| && forall i :: 0 <= i < |w| ==> Fits(ns[i], w[i], strict)
  }

  lemma {:induction false} WindowKinds(r: nat, ns: seq<Node>, w: seq<Entry>, strict: bool)
    requires Handle(r, w) && WindowFits(ns, w, strict)
    ensures HasKinds(r, ns)
  {
    hide Derivable, DerivableItems, DerivableSections, Tree, ItemsTrees, SectionsClauses;
    if |w| > 0 { assert Fits(ns[0], w[0], strict); }
    if |w| > 1 { assert Fits(ns[1], w[1], strict); }
    if |w| > 2 { assert Fits(ns[2], w[2], strict); }
    if |w| > 3 { assert Fits(ns[3], w[3], strict); }
    if |w| > 4 { assert Fits(ns[4], w[4], strict); }
  }

  // --------------------------------------------------------- reduce steps

  lemma {:induction false} NodesTokensConcat(a: seq<Node>, b: seq<Node>)
    ensures NodesTokens(a + b) == NodesTokens(a) + NodesTokens(b)
  {
    hide NodeTokens;
    if b == [] {
      assert a + b == a;
    } else {
      var k := |b| - 1;
      assert (a + b)[..|a + b| - 1] == a + b[..k];
      NodesTokensConcat(a, b[..k]);
    }
  }

  /** The tokens of a short window, written out. */
  lemma {:induction false} WindowTokens(ns: seq<Node>)
    requires |ns| <= 5
    ensures NodesTokens(ns) ==
      (if |ns| > 0 then NodeTokens(ns[0]) else []) +
      (if |ns| > 1 then NodeTokens(ns[1]) else []) +
      (if |ns| > 2 then NodeTokens(ns[2]) else []) +
      (if |ns| > 3 then NodeTokens(ns[3]) else []) +
      (if |ns| > 4 then NodeTokens(ns[4]) else [])
  {
    if |ns| > 0 {
      WindowTokens(ns[..|ns| - 1]);
    }
  }

  predicate IsReduced(r: nat) {
    r <= LAST_RULE && r != 20 && (r < 27 || r > 32)
  }

  lemma {:induction false} LineTokens(r: nat, ns: seq<Node>)
    requires r <= LAST_RULE && |ns| == Size(r) && HasKinds(r, ns)
    requires r <= 1
    ensures NodeTokens(Combine(r, ns)) == NodesTokens(ns)
  {
    WindowTokens(ns);
    ItemsSnoc(ns[0].items, Line(ns[1].form, ns[2].token), false);
  }

  lemma {:induction false} BlankTokens(r: nat, ns: seq<Node>)
    requires r <= LAST_RULE && |ns| == Size(r) && HasKinds(r, ns)
    requires r == 22 || r == 24
    ensures NodeTokens(Combine(r, ns)) == NodesTokens(ns)
  {
    hide NodesTokens, ItemsTokens, ItemsTrees, DerivableItems;
    WindowTokens(ns);
    ItemsSnoc(ns[0].items, Blank(ns[1].token), false);
  }

  lemma {:induction false} FormTokens(r: nat, ns: seq<Node>)
    requires r <= LAST_RULE && |ns| == Size(r) && HasKinds(r, ns)
    requires 2 <= r <= 15
    ensures NodeTokens(Combine(r, ns)) == NodesTokens(ns)
  {
    WindowTokens(ns);
  }

  lemma {:induction false} IfTokens(r: nat, ns: seq<Node>)
    requires r <= LAST_RULE && |ns| == Size(r) && HasKinds(r, ns)
    requires r == 16
    ensures NodeTokens(Combine(r, ns)) == NodesTokens(ns)
  {
    WindowTokens(ns);
    var first := Section(ns[0].token, ns[1].token, ns[2].items);
    assert SectionTokens(first) + SectionsTokens([]) == SectionTokens(first);
  }

  lemma {:induction false} IfElseTokens(r: nat, ns: seq<Node>)
    requires r <= LAST_RULE && |ns| == Size(r) && HasKinds(r, ns)
    requires r == 17
    ensures NodeTokens(Combine(r, ns)) == NodesTokens(ns)
  {
    hide NodesTokens;
    WindowTokens(ns);
    var first := Section(ns[0].token, ns[1].token, ns[2].items);
    assert Tokens(Combine(r, ns).form) ==
      SectionTokens(first) + SectionsTokens(ns[3].sections) + [ns[4].token];
  }

  lemma {:induction false} ElseTokens(r: nat, ns: seq<Node>)
    requires r <= LAST_RULE && |ns| == Size(r) && HasKinds(r, ns)
    requires r == 18
    ensures NodeTokens(Combine(r, ns)) == NodesTokens(ns)
  {
    WindowTokens(ns);
    SectionsSnoc([], Section(ns[0].token, ns[1].token, ns[2].items), false);
  }

  lemma {:induction false} ElseIfTokens(r: nat, ns: seq<Node>)
    requires r <= LAST_RULE && |ns| == Size(r) && HasKinds(r, ns)
    requires r == 19
    ensures NodeTokens(Combine(r, ns)) == NodesTokens(ns)
  {
    hide NodesTokens, Tree, ItemsTrees, SectionsClauses, DerivableSections;
    WindowTokens(ns);
    SectionsSnoc(ns[0].sections, Section(ns[1].token, ns[2].token, ns[3].items), false);
  }

  lemma {:induction false} SmallTokens(r: nat, ns: seq<Node>)
    requires r <= LAST_RULE && |ns| == Size(r) && HasKinds(r, ns)
    requires r > 20 && r != 22 && r != 24 && IsReduced(r)
    ensures NodeTokens(Combine(r, ns)) == NodesTokens(ns)
  {
    WindowTokens(ns);
  }

  /** A reduce regroups tokens: it neither drops nor reorders any. */
  lemma {:induction false} CombineTokens(r: nat, ns: seq<Node>)
    requires IsReduced(r) && |ns| == Size(r) && HasKinds(r, ns)
    ensures NodeTokens(Combine(r, ns)) == NodesTokens(ns)
  {
    if r <= 1 {
      LineTokens(r, ns);
    } else if r == 22 || r == 24 {
      BlankTokens(r, ns);
    } else if r <= 15 {
      FormTokens(r, ns);
    } else if r == 16 {
      IfTokens(r, ns);
    } else if r == 17 {
      IfElseTokens(r, ns);
    } else if r == 18 {
      ElseTokens(r, ns);
    } else if r == 19 {
      ElseIfTokens(r, ns);
    } else {
      SmallTokens(r, ns);
    }
  }

  lemma {:induction false} ListFits(r: nat, ns: seq<Node>, w: seq<Entry>, strict: bool, s: State)
    requires Handle(r, w) && WindowFits(ns, w, strict) && HasKinds(r, ns)
    requires r <= 1 || r == 22 || r == 24
    ensures Fits(Combine(r, ns), Entry(s, N(Lhs(r)), Semantic(r, w)), strict)
  {
    if r <= 1 {
      assert Fits(ns[0], w[0], strict) && Fits(ns[1], w[1], strict) && Fits(ns[2], w[2], strict);
      ItemsSnoc(ns[0].items, Line(ns[1].form, ns[2].token), strict);
    } else {
      assert Fits(ns[0], w[0], strict) && Fits(ns[1], w[1], strict);
      ItemsSnoc(ns[0].items, Blank(ns[1].token), strict);
    }
  }

  lemma {:induction false} OperatorFits(r: nat, ns: seq<Node>, w: seq<Entry>, strict: bool, s: State)
    requires Handle(r, w) && WindowFits(ns, w, strict) && HasKinds(r, ns)
    requires 2 <= r <= 4
    requires strict && r == 4 ==> IsPipeline(ns[0].form) && !ns[3].form.BinaryForm?
    requires strict && r <= 4 ==> IsPipeline(ns[3].form)
    ensures Fits(Combine(r, ns), Entry(s, N(Lhs(r)), Semantic(r, w)), strict)
  {
    assert Fits(ns[0], w[0], strict) && Fits(ns[1], w[1], strict) && Fits(ns[2], w[2], strict) &&
      Fits(ns[3], w[3], strict);
  }

  lemma {:induction false} WordFits(r: nat, ns: seq<Node>, w: seq<Entry>, strict: bool, s: State)
    requires Handle(r, w) && WindowFits(ns, w, strict) && HasKinds(r, ns)
    requires 5 <= r <= 10
    ensures Fits(Combine(r, ns), Entry(s, N(Lhs(r)), Semantic(r, w)), strict)
  {
    assert Fits(ns[0], w[0], strict);
  }

  lemma {:induction false} ParenFits(r: nat, ns: seq<Node>, w: seq<Entry>, strict: bool, s: State)
    requires Handle(r, w) && WindowFits(ns, w, strict) && HasKinds(r, ns)
    requires r == 11 || r == 12
    ensures Fits(Combine(r, ns), Entry(s, N(Lhs(r)), Semantic(r, w)), strict)
  {
    assert Fits(ns[0], w[0], strict) && Fits(ns[1], w[1], strict);
    assert r == 12 ==> Fits(ns[2], w[2], strict);
  }

  lemma {:induction false} BlockFits(r: nat, ns: seq<Node>, w: seq<Entry>, strict: bool, s: State)
    requires Handle(r, w) && WindowFits(ns, w, strict) && HasKinds(r, ns)
    requires 13 <= r <= 15
    ensures Fits(Combine(r, ns), Entry(s, N(Lhs(r)), Semantic(r, w)), strict)
  {
    assert Fits(ns[0], w[0], strict) && Fits(ns[1], w[1], strict) && Fits(ns[2], w[2], strict) &&
      Fits(ns[3], w[3], strict);
  }

  lemma {:induction false} IfFits(r: nat, ns: seq<Node>, w: seq<Entry>, strict: bool, s: State)
    requires Handle(r, w) && WindowFits(ns, w, strict) && HasKinds(r, ns)
    requires r == 16
    ensures Fits(Combine(r, ns), Entry(s, N(Lhs(r)), Semantic(r, w)), strict)
  {
    assert Fits(ns[0], w[0], strict) && Fits(ns[1], w[1], strict) && Fits(ns[2], w[2], strict) &&
      Fits(ns[3], w[3], strict);
    assert SectionsClauses([]) == [];
  }

  lemma {:induction false} IfElseFits(r: nat, ns: seq<Node>, w: seq<Entry>, strict: bool, s: State)
    requires Handle(r, w) && WindowFits(ns, w, strict) && HasKinds(r, ns)
    requires r == 17
    ensures Fits(Combine(r, ns), Entry(s, N(Lhs(r)), Semantic(r, w)), strict)
  {
    assert Fits(ns[0], w[0], strict) && Fits(ns[1], w[1], strict) && Fits(ns[2], w[2], strict) &&
      Fits(ns[3], w[3], strict) && Fits(ns[4], w[4], strict);
  }

  lemma {:induction false} ElseFits(r: nat, ns: seq<Node>, w: seq<Entry>, strict: bool, s: State)
    requires Handle(r, w) && WindowFits(ns, w, strict) && HasKinds(r, ns)
    requires r == 18
    ensures Fits(Combine(r, ns), Entry(s, N(Lhs(r)), Semantic(r, w)), strict)
  {
    assert Fits(ns[0], w[0], strict) && Fits(ns[1], w[1], strict) && Fits(ns[2], w[2], strict);
    SectionsSnoc([], Section(ns[0].token, ns[1].token, ns[2].items), strict);
  }

  lemma {:induction false} ElseIfFits(r: nat, ns: seq<Node>, w: seq<Entry>, strict: bool, s: State)
    requires Handle(r, w) && WindowFits(ns, w, strict) && HasKinds(r, ns)
    requires r == 19
    ensures Fits(Combine(r, ns), Entry(s, N(Lhs(r)), Semantic(r, w)), strict)
  {
    hide SectionsTokens, ItemsTokens, SectionsClauses, ItemsTrees;
    assert Fits(ns[0], w[0], strict) && Fits(ns[1], w[1], strict) && Fits(ns[2], w[2], strict) &&
      Fits(ns[3], w[3], strict);
    SectionsSnoc(ns[0].sections, Section(ns[1].token, ns[2].token, ns[3].items), strict);
  }

  lemma {:induction false} SmallFits(r: nat, ns: seq<Node>, w: seq<Entry>, strict: bool, s: State)
    requires Handle(r, w) && WindowFits(ns, w, strict) && HasKinds(r, ns)
    requires r > 20 && r != 22 && r != 24 && IsReduced(r)
    ensures Fits(Combine(r, ns), Entry(s, N(Lhs(r)), Semantic(r, w)), strict)
  {
    if r == 25 || r == 26 || r == 33 {
      assert Fits(ns[0], w[0], strict);
    } else if r == 35 {
      assert Fits(ns[0], w[0], strict) && Fits(ns[1], w[1], strict);
    }
  }

  /** The semantic action of a rule computes what the combined form denotes. */
  lemma {:induction false} CombineFits(r: nat, ns: seq<Node>, w: seq<Entry>, strict: bool, s: State)
    requires Handle(r, w) && WindowFits(ns, w, strict) && HasKinds(r, ns)
    requires IsReduced(r)
    requires strict && r == 4 ==> IsPipeline(ns[0].form) && !ns[3].form.BinaryForm?
    requires strict && 2 <= r <= 4 ==> IsPipeline(ns[3].form)
    ensures Fits(Combine(r, ns), Entry(s, N(Lhs(r)), Semantic(r, w)), strict)
  {
    if r <= 1 || r == 22 || r == 24 {
      ListFits(r, ns, w, strict, s);
    } else if r <= 4 {
      OperatorFits(r, ns, w, strict, s);
    } else if r <= 10 {
      WordFits(r, ns, w, strict, s);
    } else if r <= 12 {
      ParenFits(r, ns, w, strict, s);
    } else if r <= 15 {
      BlockFits(r, ns, w, strict, s);
    } else if r == 16 {
      IfFits(r, ns, w, strict, s);
    } else if r == 17 {
      IfElseFits(r, ns, w, strict, s);
    } else if r == 18 {
      ElseFits(r, ns, w, strict, s);
    } else if r == 19 {
      ElseIfFits(r, ns, w, strict, s);
    } else {
      SmallFits(r, ns, w, strict, s);
    }
  }
}
