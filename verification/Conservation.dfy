/** No text is lost or reordered by the parser, also when it drops tokens that
    do not fit: the trees hold exactly the texts of the tokens it took. */
module Conservation {
  import opened CommandTree
  import opened Automaton
  import opened ParserStack
  import opened ParserStep
  import opened Phase3
  import opened Grammar
  import opened Derivation
  import opened Soundness
  import opened Runs
  import opened Parsing

  // ------------------------------------------------------------------ texts

  /** The tokens whose text the trees keep. */
  predicate Carries(k: Terminal) {
    IsStarter(k) || IsElse(k) || k.END? || k.RPAREN?
  }

  function TokensTexts(ts: seq<Token>): seq<string> {
    if ts == [] then []
    else TokensTexts(ts[..|ts| - 1]) +
         (if Carries(ts[|ts| - 1].kind) then [ts[|ts| - 1].text] else [])
  }

  /** The texts of a tree, from left to right. */
  function Texts(c: Command): seq<string> {
    match c
    case Null => []
    case Word(_, text) => [text]
    case Binary(_, l, r) => Texts(l) + Texts(r)
    case Block(_, cs, b, e) => [b] + AllTexts(cs) + [e]
    case If(cls, e) => ClausesTexts(cls) + [e]
  }

  function AllTexts(cs: seq<Command>): seq<string> {
    if cs == [] then [] else AllTexts(cs[..|cs| - 1]) + Texts(cs[|cs| - 1])
  }

  function ClausesTexts(cls: seq<Clause>): seq<string> {
    if cls == [] then []
    else
      var cl := cls[|cls| - 1];
      ClausesTexts(cls[..|cls| - 1]) + [cl.clause] + AllTexts(cl.children)
  }

  lemma {:induction false} TokensTextsConcat(a: seq<Token>, b: seq<Token>)
    ensures TokensTexts(a + b) == TokensTexts(a) + TokensTexts(b)
  {
    if b == [] {
      assert a + b == a;
    } else {
      assert (a + b)[..|a + b| - 1] == a + b[..|b| - 1];
      TokensTextsConcat(a, b[..|b| - 1]);
    }
  }

  lemma {:induction false} TokenTexts(t: Token)
    ensures TokensTexts([t]) == if Carries(t.kind) then [t.text] else []
  {
    assert [t][..0] == [];
  }

  lemma {:induction false} AllTextsConcat(a: seq<Command>, b: seq<Command>)
    ensures AllTexts(a + b) == AllTexts(a) + AllTexts(b)
  {
    if b == [] {
      assert a + b == a;
    } else {
      assert (a + b)[..|a + b| - 1] == a + b[..|b| - 1];
      AllTextsConcat(a, b[..|b| - 1]);
    }
  }

  lemma {:induction false} ClausesTextsConcat(a: seq<Clause>, b: seq<Clause>)
    ensures ClausesTexts(a + b) == ClausesTexts(a) + ClausesTexts(b)
  {
    if b == [] {
      assert a + b == a;
    } else {
      assert (a + b)[..|a + b| - 1] == a + b[..|b| - 1];
      ClausesTextsConcat(a, b[..|b| - 1]);
    }
  }

  lemma {:induction false} NewlinesTexts(ts: seq<Token>)
    requires AllNewlines(ts)
    ensures TokensTexts(ts) == []
  {
    if ts != [] {
      NewlinesTexts(ts[..|ts| - 1]);
    }
  }

  // ------------------------------------------------ a form keeps its texts

  lemma {:induction false} TokensTextsConcat3(a: seq<Token>, b: seq<Token>, c: seq<Token>)
    ensures TokensTexts(a + b + c) == TokensTexts(a) + TokensTexts(b) + TokensTexts(c)
  {
    TokensTextsConcat(a + b, c);
    TokensTextsConcat(a, b);
  }

  lemma {:induction false} TokensTextsConcat4(a: seq<Token>, b: seq<Token>, c: seq<Token>, d: seq<Token>)
    ensures TokensTexts(a + b + c + d) == TokensTexts(a) + TokensTexts(b) + TokensTexts(c) + TokensTexts(d)
  {
    TokensTextsConcat(a + b + c, d);
    TokensTextsConcat3(a, b, c);
  }

  lemma {:induction false} FormTexts(f: Form, strict: bool)
    requires Derivable(f, strict)
    ensures TokensTexts(Tokens(f)) == Texts(Tree(f))
    decreases f, 2
  {
    match f
    case WordForm(w) => TokenTexts(w);
    case BinaryForm(_, _, _, _) => BinaryTexts(f, strict);
    case ParenForm(_, _, _, _) => ParenTexts(f, strict);
    case BlockForm(_, _, _, _) => BlockTexts(f, strict);
    case IfForm(_, _, _) => IfTexts(f, strict);
  }

  lemma {:induction false} BinaryTexts(f: Form, strict: bool)
    requires f.BinaryForm? && Derivable(f, strict)
    ensures TokensTexts(Tokens(f)) == Texts(Tree(f))
    decreases f, 0
  {
    hide TokensTexts, AllTexts, ClausesTexts, ItemsTokens, SectionsTokens;
    FormTexts(f.left, strict);
    FormTexts(f.right, strict);
    NewlinesTexts(f.nls);
    TokenTexts(f.op);
    TokensTextsConcat4(Tokens(f.left), [f.op], f.nls, Tokens(f.right));
    assert Tokens(f) == Tokens(f.left) + [f.op] + f.nls + Tokens(f.right);
    assert Texts(Tree(f)) == Texts(Tree(f.left)) + [] + [] + Texts(Tree(f.right));
  }

  lemma {:induction false} ParenTexts(f: Form, strict: bool)
    requires f.ParenForm? && Derivable(f, strict)
    ensures TokensTexts(Tokens(f)) == Texts(Tree(f))
    decreases f, 1
  {
    hide TokensTexts, AllTexts;
    var last := if f.last.Some? then Tokens(f.last.value) else [];
    var lastTree := if f.last.Some? then [Tree(f.last.value)] else [];
    ItemsTexts(f.body, strict);
    LastTexts(f, strict);
    TokenTexts(f.open);
    TokenTexts(f.close);
    TokensTextsConcat4([f.open], ItemsTokens(f.body), last, [f.close]);
    AllTextsConcat(ItemsTrees(f.body), lastTree);
    assert Tokens(f) == [f.open] + ItemsTokens(f.body) + last + [f.close];
    assert Texts(Tree(f)) == [f.open.text] + AllTexts(ItemsTrees(f.body) + lastTree) + [f.close.text];
  }

  lemma {:induction false} LastTexts(f: Form, strict: bool)
    requires f.ParenForm? && Derivable(f, strict)
    ensures TokensTexts(if f.last.Some? then Tokens(f.last.value) else []) ==
      AllTexts(if f.last.Some? then [Tree(f.last.value)] else [])
    decreases f, 0
  {
    if f.last.Some? {
      FormTexts(f.last.value, strict);
    }
  }

  lemma {:induction false} BlockTexts(f: Form, strict: bool)
    requires f.BlockForm? && Derivable(f, strict)
    ensures TokensTexts(Tokens(f)) == Texts(Tree(f))
    decreases f, 0
  {
    hide TokensTexts, AllTexts;
    ItemsTexts(f.body, strict);
    TokenTexts(f.open);
    TokenTexts(f.sep);
    TokenTexts(f.close);
    TokensTextsConcat4([f.open], [f.sep], ItemsTokens(f.body), [f.close]);
  }

  lemma {:induction false} IfTexts(f: Form, strict: bool)
    requires f.IfForm? && Derivable(f, strict)
    ensures TokensTexts(Tokens(f)) == Texts(Tree(f))
    decreases f, 0
  {
    hide TokensTexts, AllTexts, ClausesTexts, SectionTokens, SectionsTokens, SectionsClauses, ItemsTrees;
    var h := f.first;
    var cl := Clause(IF, ItemsTrees(h.body), h.head.text);
    ItemsTexts(h.body, strict);
    SectionsTexts(f.rest, strict);
    TokenTexts(f.close);
    TokensTextsConcat3(SectionTokens(h), SectionsTokens(f.rest), [f.close]);
    SectionTexts(h);
    ClauseTexts(cl);
    ClausesTextsConcat([cl], SectionsClauses(f.rest));
    assert Tokens(f) == SectionTokens(h) + SectionsTokens(f.rest) + [f.close];
    assert Tree(f) == If([cl] + SectionsClauses(f.rest), f.close.text);
  }

  lemma {:induction false} ClauseTexts(cl: Clause)
    ensures ClausesTexts([cl]) == [cl.clause] + AllTexts(cl.children)
  {
    assert [cl][..0] == [];
  }

  lemma {:induction false} SectionTexts(s: Section)
    requires IsSeparator(s.sep.kind) && Carries(s.head.kind)
    requires TokensTexts(ItemsTokens(s.body)) == AllTexts(ItemsTrees(s.body))
    ensures TokensTexts(SectionTokens(s)) == [s.head.text] + AllTexts(ItemsTrees(s.body))
  {
    hide TokensTexts, AllTexts;
    TokenTexts(s.head);
    TokenTexts(s.sep);
    TokensTextsConcat3([s.head], [s.sep], ItemsTokens(s.body));
  }

  lemma {:induction false} ItemTexts(i: Item, strict: bool)
    requires DerivableItem(i, strict)
    ensures TokensTexts(ItemTokens(i)) == AllTexts(ItemTrees(i))
    decreases i
  {
    TokenTexts(i.sep);
    if i.Line? {
      FormTexts(i.form, strict);
      TokensTextsConcat(Tokens(i.form), [i.sep]);
    }
  }

  lemma {:induction false} ItemsTexts(items: seq<Item>, strict: bool)
    requires DerivableItems(items, strict)
    ensures TokensTexts(ItemsTokens(items)) == AllTexts(ItemsTrees(items))
    decreases items
  {
    if items != [] {
      var k := |items| - 1;
      ItemsTexts(items[..k], strict);
      ItemTexts(items[k], strict);
      TokensTextsConcat(ItemsTokens(items[..k]), ItemTokens(items[k]));
      AllTextsConcat(ItemsTrees(items[..k]), ItemTrees(items[k]));
    }
  }

  lemma {:induction false} SectionsTexts(ss: seq<Section>, strict: bool)
    requires DerivableSections(ss, strict)
    ensures TokensTexts(SectionsTokens(ss)) == ClausesTexts(SectionsClauses(ss))
    decreases ss
  {
    if ss != [] {
      var k := |ss| - 1;
      var s := ss[k];
      var cl := Clause(s.head.kind, ItemsTrees(s.body), s.head.text);
      SectionsTexts(ss[..k], strict);
      ItemsTexts(s.body, strict);
      SectionTexts(s);
      TokensTextsConcat(SectionsTokens(ss[..k]), SectionTokens(s));
      ClausesTextsConcat(SectionsClauses(ss[..k]), [cl]);
    }
  }

  // --------------------------------------------------- the stack's texts

  /** The texts that the value of an entry holds. */
  function EntryTexts(e: Entry): seq<string> {
    match e.minor
    case Unit => []
    case Text(s) => if e.major.T? && Carries(e.major.terminal) then [s] else []
    case Ptr(c) => Texts(c)
    case List(cs) => AllTexts(cs)
    case Clauses(cls) => ClausesTexts(cls)
  }

  function StackTexts(stack: seq<Entry>): seq<string> {
    if stack == [] then [] else StackTexts(stack[..|stack| - 1]) + EntryTexts(stack[|stack| - 1])
  }

  lemma {:induction false} NodeTexts(n: Node, e: Entry, strict: bool)
    requires Fits(n, e, strict) && Typed(e)
    requires e.major != N(CommandList)
    ensures TokensTexts(NodeTokens(n)) == EntryTexts(e)
  {
    match n
    case Base =>
    case Leaf(t) => TokenTexts(t);
    case SepNode(t) => TokenTexts(t);
    case NlsNode(ts) => NewlinesTexts(ts);
    case FormNode(f) => FormTexts(f, strict);
    case ItemsNode(items) => ItemsTexts(items, strict);
    case ParenNode(items, last) =>
      ItemsTexts(items, strict);
      if last.Some? {
        FormTexts(last.value, strict);
        TokensTextsConcat(ItemsTokens(items), Tokens(last.value));
      } else {
        assert ItemsTokens(items) + [] == ItemsTokens(items);
        assert ItemsTrees(items) + [] == ItemsTrees(items);
      }
    case ElseNode(ss) => SectionsTexts(ss, strict);
  }

  lemma {:induction false} NotCommandList(stack: seq<Entry>, i: nat)
    requires Path(stack) && 1 < i < |stack|
    ensures stack[i].major != N(CommandList)
  {
    EdgeNeighbours(stack, i);
    assert EdgeAt(stack, i);
    if stack[i].major == N(CommandList) {
      StartStateAtBottom(stack, i - 1);
    }
  }

  /** The command list above the bottom entry. */
  lemma {:induction false} CommandListTexts(c: Config, nodes: seq<Node>, q0: seq<Command>)
    requires Path(c.stack) && Explains(nodes, c, q0, false) && |c.stack| > 1
    ensures nodes[1].ItemsNode? && EntryTexts(c.stack[1]) == []
    ensures TokensTexts(NodeTokens(nodes[1])) == AllTexts(ItemsTrees(nodes[1].items))
  {
    hide Path, Typed, Derivable, DerivableItems, AllTexts, TokensTexts, ItemsTokens, ItemsTrees;
    FirstEntry(c.stack);
    assert NodeOk(c.stack, nodes, false, 1);
    ItemsTexts(nodes[1].items, false);
  }

  lemma {:induction false} FirstEntry(stack: seq<Entry>)
    requires Path(stack) && |stack| > 1
    ensures stack[1].major == N(CommandList) && stack[1].minor.Unit?
  {
    assert EdgeAt(stack, 1);
  }

  lemma {:induction false} InnerTexts(c: Config, nodes: seq<Node>, q0: seq<Command>, i: nat)
    requires Path(c.stack) && Explains(nodes, c, q0, false) && 1 < i < |c.stack|
    ensures TokensTexts(NodeTokens(nodes[i])) == EntryTexts(c.stack[i])
  {
    assert NodeOk(c.stack, nodes, false, i) && EdgeAt(c.stack, i);
    NotCommandList(c.stack, i);
    NodeTexts(nodes[i], c.stack[i], false);
  }

  lemma {:induction false} NodesTextsSnoc(ns: seq<Node>, n: Node)
    ensures TokensTexts(NodesTokens(ns + [n])) == TokensTexts(NodesTokens(ns)) + TokensTexts(NodeTokens(n))
  {
    assert (ns + [n])[..|ns|] == ns;
    TokensTextsConcat(NodesTokens(ns), NodeTokens(n));
  }

  /** Up to entry k, the texts of the derived tokens are those of the queued
      trees, followed by those on the stack. */
  lemma {:induction false} ExplainedTexts(c: Config, nodes: seq<Node>, q0: seq<Command>, k: nat)
    requires Path(c.stack) && Explains(nodes, c, q0, false)
    requires 0 < k <= |c.stack|
    ensures TokensTexts(NodesTokens(nodes[..k])) ==
      (if k == 1 then [] else AllTexts(ItemsTrees(nodes[1].items))) + StackTexts(c.stack[..k])
    ensures k == 1 ==> StackTexts(c.stack[..k]) == []
    decreases k
  {
    hide NodeOk, Enters, Typed, AllTexts, EntryTexts, NodeTokens, TokensTexts;
    assert nodes[..k] == nodes[..k - 1] + [nodes[k - 1]];
    assert c.stack[..k] == c.stack[..k - 1] + [c.stack[k - 1]];
    NodesTextsSnoc(nodes[..k - 1], nodes[k - 1]);
    if k == 1 {
      BaseTexts();
    } else {
      ExplainedTexts(c, nodes, q0, k - 1);
      if k == 2 {
        CommandListTexts(c, nodes, q0);
      } else {
        InnerTexts(c, nodes, q0, k - 1);
      }
    }
  }

  lemma {:induction false} BaseTexts()
    ensures NodesTokens([]) == [] && TokensTexts([]) == [] && StackTexts([]) == []
    ensures NodeTokens(Base) == [] && EntryTexts(BOTTOM) == []
  {
  }

  // ------------------------------------------------------------------- runs

  /** No token of the run overflows the stack or ends the input. */
  predicate Intact(c: Config, ts: seq<Token>)
    requires Path(c.stack)
    decreases ts
  {
    ts != [] ==>
      && (Feed(c, ts[0]).outcome == Shifted || Feed(c, ts[0]).outcome == Dropped)
      && Intact(Feed(c, ts[0]).config, ts[1..])
  }

  /** The tokens of the run that the parser shifted. */
  function Kept(c: Config, ts: seq<Token>): seq<Token>
    requires Path(c.stack)
    decreases ts
  {
    if ts == [] then []
    else
      var f := Feed(c, ts[0]);
      (if f.outcome == Shifted then [ts[0]] else []) + Kept(f.config, ts[1..])
  }

  lemma {:induction false} KeptTokensExplained(c: Config, ts: seq<Token>, nodes: seq<Node>, q0: seq<Command>)
      returns (nodes': seq<Node>)
    requires Path(c.stack) && Explains(nodes, c, q0, false)
    requires Intact(c, ts)
    ensures Explains(nodes', Go(c, ts), q0, false)
    ensures NodesTokens(nodes') == NodesTokens(nodes) + Kept(c, ts)
    decreases ts
  {
    hide Feed, Explains, NodesTokens, Path;
    if ts == [] {
      nodes' := nodes;
      assert NodesTokens(nodes) + [] == NodesTokens(nodes);
    } else {
      var f := Feed(c, ts[0]);
      var nodes1 := FeedExplains(c, ts[0], nodes, q0, false);
      nodes' := KeptTokensExplained(f.config, ts[1..], nodes1, q0);
      var kept := if f.outcome == Shifted then [ts[0]] else [];
      assert NodesTokens(nodes1) == NodesTokens(nodes) + kept;
      assert NodesTokens(nodes) + kept + Kept(f.config, ts[1..]) == NodesTokens(nodes) + Kept(c, ts);
    }
  }

  /** However many tokens are dropped as errors: the texts of the queued trees
      followed by those on the stack are the texts of the shifted tokens, each
      once and in order. */
  lemma {:induction false} TextsAreConserved(c: Config, ts: seq<Token>)
    requires Idle(c) && Path(c.stack)
    requires Intact(c, ts)
    ensures var c2 := Go(c, ts);
            && c.queue <= c2.queue
            && TokensTexts(Kept(c, ts)) == AllTexts(c2.queue[|c.queue|..]) + StackTexts(c2.stack)
  {
    hide Feed, Path;
    var nodes := KeptTokensExplained(c, ts, [Base], c.queue);
    var c2 := Go(c, ts);
    ExplainedTexts(c2, nodes, c.queue, |nodes|);
    assert nodes[..|nodes|] == nodes && c2.stack[..|nodes|] == c2.stack;
    assert [] + Kept(c, ts) == Kept(c, ts);
    if |nodes| == 1 {
      assert c2.queue[|c.queue|..] == [];
    } else {
      assert c2.queue[|c.queue|..] == ItemsTrees(nodes[1].items);
    }
  }
}
