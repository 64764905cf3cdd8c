/** Printing command trees and parsing them back. */
module RoundTrip {
  import opened CommandTree
  import opened ParserStack
  import opened ParserStep
  import opened Phase3
  import opened Grammar
  import opened Runs
  import opened Completeness
  import opened Parsing
  import opened Promptness


  predicate IsChain(c: Command) {
    c.Binary? ==> c.kind.PIPE?
  }

  /** The trees that the grammar can build: operators associate to the left,
      and `|` binds tighter than `&&` and `||`. */
  predicate Normal(c: Command) {
    match c
    case Null => false
    case Word(k, _) => IsWord(k)
    case Binary(k, l, r) =>
      && IsOperator(k) && Normal(l) && Normal(r) && IsChain(r)
      && (k.PIPE? ==> IsChain(l) && !r.Binary?)
    case Block(k, cs, _, _) => (k.LPAREN? || IsBlockOpener(k)) && AllNormal(cs)
    case If(cls, _) =>
      cls != [] && cls[0].kind.IF? && AllNormal(cls[0].children) && NormalElses(cls[1..])
  }

  predicate AllNormal(cs: seq<Command>) {
    cs != [] ==> AllNormal(cs[..|cs| - 1]) && Normal(cs[|cs| - 1])
  }

  predicate NormalElses(cls: seq<Clause>) {
    cls != [] ==>
      && NormalElses(cls[..|cls| - 1])
      && IsElse(cls[|cls| - 1].kind) && AllNormal(cls[|cls| - 1].children)
  }

  /** The tree written with one newline after every keyword and command. */
  function Print(c: Command): Form
    requires Normal(c)
  {
    match c
    case Word(k, text) => WordForm(Token(k, text))
    case Binary(k, l, r) => BinaryForm(Print(l), Token(k, ""), [], Print(r))
    case Block(k, cs, b, e) =>
      if k.LPAREN? then ParenForm(Token(k, b), PrintAll(cs), None, Token(RPAREN, e))
      else BlockForm(Token(k, b), NEWLINE, PrintAll(cs), Token(END, e))
    case If(cls, e) =>
      IfForm(Section(Token(IF, cls[0].clause), NEWLINE, PrintAll(cls[0].children)),
             PrintElses(cls[1..]), Token(END, e))
  }

  function PrintAll(cs: seq<Command>): seq<Item>
    requires AllNormal(cs)
  {
    if cs == [] then []
    else PrintAll(cs[..|cs| - 1]) + [Line(Print(cs[|cs| - 1]), NEWLINE)]
  }

  function PrintElses(cls: seq<Clause>): seq<Section>
    requires NormalElses(cls)
  {
    if cls == [] then []
    else
      var cl := cls[|cls| - 1];
      PrintElses(cls[..|cls| - 1]) + [Section(Token(cl.kind, cl.clause), NEWLINE, PrintAll(cl.children))]
  }

  /** What is printed is a form of the grammar, and it denotes the tree. */
  lemma {:induction false} PrintDenotes(c: Command)
    requires Normal(c)
    ensures Derivable(Print(c), true)
    ensures Tree(Print(c)) == c
    ensures IsPipeline(Print(c)) == IsChain(c) && Print(c).BinaryForm? == c.Binary?
    decreases c
  {
    match c
    case Word(_, _) =>
    case Binary(_, l, r) =>
      PrintDenotes(l);
      PrintDenotes(r);
    case Block(k, cs, _, _) =>
      PrintAllDenotes(cs);
      assert cs + [] == cs;
    case If(cls, _) =>
      PrintAllDenotes(cls[0].children);
      PrintElsesDenotes(cls[1..]);
      assert [cls[0]] + cls[1..] == cls;
  }

  lemma {:induction false} PrintAllDenotes(cs: seq<Command>)
    requires AllNormal(cs)
    ensures DerivableItems(PrintAll(cs), true)
    ensures ItemsTrees(PrintAll(cs)) == cs
    decreases cs
  {
    hide DerivableSections;
    if cs != [] {
      var k := |cs| - 1;
      PrintAllDenotes(cs[..k]);
      PrintDenotes(cs[k]);
      ItemsSnoc(PrintAll(cs[..k]), Line(Print(cs[k]), NEWLINE), true);
      assert cs[..k] + [cs[k]] == cs;
    }
  }

  lemma {:induction false} PrintElsesDenotes(cls: seq<Clause>)
    requires NormalElses(cls)
    ensures DerivableSections(PrintElses(cls), true)
    ensures SectionsClauses(PrintElses(cls)) == cls
    decreases cls
  {
    if cls != [] {
      var k := |cls| - 1;
      var cl := cls[k];
      PrintElsesDenotes(cls[..k]);
      PrintAllDenotes(cl.children);
      SectionsSnoc(PrintElses(cls[..k]), Section(Token(cl.kind, cl.clause), NEWLINE, PrintAll(cl.children)), true);
      assert cls[..k] + [cl] == cls;
    }
  }

  /** Printed trees are parsed back, exactly when they fit the stack. */
  lemma {:induction false} PrintParseRoundTrip(c: Config, cs: seq<Command>)
    requires Idle(c) && AllNormal(cs)
    ensures Path(c.stack)
    ensures ParsesInto(c, ItemsTokens(PrintAll(cs)), cs) <==> ProgramNeed(PrintAll(cs)) <= DEPTH
  {
    PrintAllDenotes(cs);
    if ProgramNeed(PrintAll(cs)) <= DEPTH {
      ProgramsAreParsed(c, PrintAll(cs));
    } else {
      LargeProgramsOverflow(c, PrintAll(cs));
    }
  }

  lemma {:induction false} NeedSnoc(items: seq<Item>, i: Item)
    ensures ItemsNeed(items + [i]) == Max(ItemsNeed(items), ItemNeed(i))
  {
    assert (items + [i])[..|items|] == items;
  }

  lemma {:induction false} BlankLines(items: seq<Item>, first: Token, second: Token)
    requires DerivableItems(items, true) && IsSeparator(first.kind) && IsSeparator(second.kind)
    ensures var all := items + [Blank(first)] + [Blank(second)];
            && DerivableItems(all, true)
            && ItemsTokens(all) == ItemsTokens(items) + [first] + [second]
            && ItemsTrees(all) == ItemsTrees(items)
            && (ProgramNeed(all) <= DEPTH <==> ProgramNeed(items) <= DEPTH)
  {
    var one := items + [Blank(first)];
    var all := one + [Blank(second)];
    ItemsSnoc(items, Blank(first), true);
    ItemsSnoc(one, Blank(second), true);
    assert ItemTrees(Blank(first)) == [] && ItemTrees(Blank(second)) == [];
    assert ItemsTrees(items) + [] == ItemsTrees(items);
    NeedSnoc(items, Blank(first));
    NeedSnoc(one, Blank(second));
  }

  /** A printed line that fits, with the two newlines that end it, is not
      continued and has its trees in the queue; any other overflows. */
  lemma {:induction false} PrintedLineIsQueued(c: Config, cs: seq<Command>, first: Token, second: Token)
    requires Idle(c) && AllNormal(cs) && first.kind.NL? && second.kind.NL?
    ensures Path(c.stack)
    ensures var ts := ItemsTokens(PrintAll(cs)) + [first] + [second];
            if ProgramNeed(PrintAll(cs)) <= DEPTH then
              Clean(c, ts) && !Continues(Go(c, ts).stack) && Go(c, ts).queue == c.queue + cs
            else
              !Clean(c, ts)
  {
    hide Feed, Go, Clean;
    IdlePath(c);
    PrintAllDenotes(cs);
    var items := PrintAll(cs);
    var all := items + [Blank(first)] + [Blank(second)];
    BlankLines(items, first, second);
    if ProgramNeed(items) <= DEPTH {
      ProgramsAreParsed(c, all);
      ContinuationIsExact(c, ItemsTokens(items), first, second);
      assert Spells(all, ItemsTokens(items) + [first] + [second], cs);
    } else {
      LargeProgramsOverflow(c, all);
    }
  }

  // ------------------------------------------------------- shape of the trees

  lemma {:induction false} TreeIsNormal(f: Form)
    requires Derivable(f, true)
    ensures Normal(Tree(f))
    ensures IsChain(Tree(f)) == IsPipeline(f) && Tree(f).Binary? == f.BinaryForm?
    decreases f
  {
    match f
    case WordForm(_) =>
    case BinaryForm(l, _, _, r) =>
      TreeIsNormal(l);
      TreeIsNormal(r);
    case ParenForm(_, body, last, _) =>
      ItemsAreNormal(body);
      if last.Some? {
        TreeIsNormal(last.value);
      } else {
        assert ItemsTrees(body) + [] == ItemsTrees(body);
      }
    case BlockForm(_, _, body, _) => ItemsAreNormal(body);
    case IfForm(first, rest, _) =>
      ItemsAreNormal(first.body);
      ElsesAreNormal(rest);
      var cl := Clause(IF, ItemsTrees(first.body), first.head.text);
      assert ([cl] + SectionsClauses(rest))[1..] == SectionsClauses(rest);
  }

  lemma {:induction false} ItemsAreNormal(items: seq<Item>)
    requires DerivableItems(items, true)
    ensures AllNormal(ItemsTrees(items))
    decreases items
  {
    if items != [] {
      var k := |items| - 1;
      ItemsAreNormal(items[..k]);
      ItemIsNormal(ItemsTrees(items[..k]), items[k]);
    }
  }

  lemma {:induction false} ItemIsNormal(cs: seq<Command>, i: Item)
    requires DerivableItem(i, true) && AllNormal(cs)
    ensures AllNormal(cs + ItemTrees(i))
    decreases i
  {
    if i.Line? {
      TreeIsNormal(i.form);
    } else {
      assert cs + [] == cs;
    }
  }

  lemma {:induction false} ElsesAreNormal(ss: seq<Section>)
    requires DerivableSections(ss, true)
    ensures NormalElses(SectionsClauses(ss))
    decreases ss
  {
    if ss != [] {
      var k := |ss| - 1;
      var s := ss[k];
      ElsesAreNormal(ss[..k]);
      ItemsAreNormal(s.body);
      var cl := Clause(s.head.kind, ItemsTrees(s.body), s.head.text);
      var before := SectionsClauses(ss[..k]);
      assert (before + [cl])[..|before|] == before;
    }
  }

  /** In a run without errors only normal trees are built: no right operand of
      `&&` or `||` is one of them, and no operand of `|` is. */
  lemma {:induction false} ParsedTreesAreNormal(c: Config, ts: seq<Token>, cs: seq<Command>)
    requires Idle(c) && Path(c.stack)
    requires ParsesInto(c, ts, cs)
    ensures AllNormal(cs)
  {
    hide Clean, Go, Feed, Path;
    ParserIsTheGrammar(c, ts, cs);
    var items :| Spells(items, ts, cs);
    ItemsAreNormal(items);
  }

  // ---------------------------------------------------------------- nesting

  /** How deeply constructs are nested. */
  function Nesting(f: Form): nat {
    match f
    case WordForm(_) => 0
    case BinaryForm(l, _, _, r) => Max(Nesting(l), Nesting(r))
    case ParenForm(_, body, last, _) =>
      1 + Max(ItemsNesting(body), if last.Some? then Nesting(last.value) else 0)
    case BlockForm(_, _, body, _) => 1 + ItemsNesting(body)
    case IfForm(first, rest, _) => 1 + Max(ItemsNesting(first.body), SectionsNesting(rest))
  }

  function ItemsNesting(items: seq<Item>): nat {
    if items == [] then 0
    else
      Max(ItemsNesting(items[..|items| - 1]), ItemNesting(items[|items| - 1]))
  }

  function ItemNesting(i: Item): nat {
    match i
    case Blank(_) => 0
    case Line(f, _) => Nesting(f)
  }

  function SectionsNesting(ss: seq<Section>): nat {
    if ss == [] then 0
    else Max(SectionsNesting(ss[..|ss| - 1]), ItemsNesting(ss[|ss| - 1].body))
  }

  lemma {:induction false} NeedByNesting(f: Form)
    requires Derivable(f, true)
    ensures Need(f) <= 7 + 13 * Nesting(f)
    ensures IsPipeline(f) ==> Need(f) <= 4 + 13 * Nesting(f)
    ensures !f.BinaryForm? ==> Need(f) <= 1 + 13 * Nesting(f)
    decreases f
  {
    match f
    case WordForm(_) =>
    case BinaryForm(l, _, _, r) =>
      NeedByNesting(l);
      NeedByNesting(r);
    case ParenForm(_, body, last, _) =>
      ItemsNeedByNesting(body);
      if last.Some? {
        NeedByNesting(last.value);
      }
    case BlockForm(_, _, body, _) => ItemsNeedByNesting(body);
    case IfForm(first, rest, _) =>
      ItemsNeedByNesting(first.body);
      SectionsNeedByNesting(rest);
  }

  lemma {:induction false} ItemsNeedByNesting(items: seq<Item>)
    requires DerivableItems(items, true)
    ensures ItemsNeed(items) <= 7 + 13 * ItemsNesting(items)
    decreases items
  {
    if items != [] {
      var k := |items| - 1;
      ItemsNeedByNesting(items[..k]);
      ItemNeedByNesting(items[k]);
    }
  }

  lemma {:induction false} ItemNeedByNesting(i: Item)
    requires DerivableItem(i, true)
    ensures ItemNeed(i) <= 7 + 13 * ItemNesting(i)
    decreases i
  {
    if i.Line? {
      NeedByNesting(i.form);
    }
  }

  lemma {:induction false} SectionsNeedByNesting(ss: seq<Section>)
    requires DerivableSections(ss, true)
    ensures SectionsNeed(ss) <= 14 + 13 * SectionsNesting(ss)
    decreases ss
  {
    if ss != [] {
      var k := |ss| - 1;
      SectionsNeedByNesting(ss[..k]);
      ItemsNeedByNesting(ss[k].body);
    }
  }

  /** Programs nested at most seven deep always fit. */
  lemma {:induction false} SevenLevelsFit(items: seq<Item>)
    requires DerivableItems(items, true) && ItemsNesting(items) <= 7
    ensures ProgramNeed(items) <= DEPTH
  {
    ItemsNeedByNesting(items);
  }

  /** `a && a | last`. */
  function Chained(last: Form): Form {
    var word := WordForm(Token(COMMAND, "a"));
    BinaryForm(word, Token(AMP_AMP, ""), [], BinaryForm(word, Token(PIPE, ""), [], last))
  }

  /** `If; Else; Else; i End`. */
  function SecondElse(i: Item): Form {
    IfForm(Section(Token(IF, ""), NEWLINE, []),
           [Section(Token(ELSE, ""), NEWLINE, [])] + [Section(Token(ELSE, ""), NEWLINE, [i])],
           Token(END, ""))
  }

  /** The tallest form that is nested n deep. */
  function Deep(n: nat): Form {
    Chained(if n == 0 then WordForm(Token(COMMAND, "a")) else SecondElse(Line(Deep(n - 1), NEWLINE)))
  }

  lemma {:induction false} OneItem(i: Item)
    ensures DerivableItems([i], true) <==> DerivableItem(i, true)
    ensures ItemsNeed([i]) == ItemNeed(i) && ItemsNesting([i]) == ItemNesting(i)
  {
    assert [i][..0] == [];
  }

  lemma {:induction false} OperandForm(l: Form, op: Token, r: Form)
    requires l.WordForm?
    ensures var f := BinaryForm(l, op, [], r);
            Need(f) == 3 + Need(r) && Nesting(f) == Nesting(r)
  {
  }

  lemma {:induction false} ChainedForm(last: Form)
    requires Derivable(last, true) && !last.BinaryForm?
    ensures Derivable(Chained(last), true)
    ensures Nesting(Chained(last)) == Nesting(last) && Need(Chained(last)) == 6 + Need(last)
  {
    var c := Chained(last);
    OperandForm(c.left, c.op, c.right);
    OperandForm(c.right.left, c.right.op, last);
    assert Derivable(c.right, true);
  }

  lemma {:induction false} SecondElseForm(i: Item)
    requires DerivableItem(i, true)
    ensures Derivable(SecondElse(i), true)
    ensures Nesting(SecondElse(i)) == 1 + ItemNesting(i) && Need(SecondElse(i)) == 7 + ItemNeed(i)
  {
    OneItem(i);
    var s := Section(Token(ELSE, ""), NEWLINE, []);
    var t := Section(Token(ELSE, ""), NEWLINE, [i]);
    SectionsSnoc([], s, true);
    SectionsSnoc([s], t, true);
    assert [] + [s] == [s] && [s][..0] == [] && ([s] + [t])[..1] == [s];
    var ss := [s] + [t];
    assert ItemsNeed([]) == 1 && ItemsNesting([]) == 0;
    assert SectionsNesting([]) == 0 && SectionsNeed([]) == 4;
    assert SectionsNeed([s]) == 6 && SectionsNesting([s]) == 0;
    assert ss[|ss| - 1] == t && ss[..|ss| - 1] == [s];
    assert SectionsNeed(ss) == 7 + ItemNeed(i) && SectionsNesting(ss) == ItemNesting(i);
  }

  lemma {:induction false} DeepForm(n: nat)
    ensures Derivable(Deep(n), true)
    ensures Nesting(Deep(n)) == n && Need(Deep(n)) == 7 + 13 * n
  {
    if n == 0 {
      ChainedForm(WordForm(Token(COMMAND, "a")));
    } else {
      var i := Line(Deep(n - 1), NEWLINE);
      DeepForm(n - 1);
      SecondElseForm(i);
      ChainedForm(SecondElse(i));
    }
  }

  /** The bound is exact: of these programs, which are nested n deep, the first
      eight fit, and the others are never parsed cleanly. */
  lemma {:induction false} DeepPrograms(c: Config, n: nat)
    requires Idle(c)
    ensures var items := [Line(Deep(n), NEWLINE)];
            && DerivableItems(items, true) && ItemsNesting(items) == n
            && ProgramNeed(items) == 9 + 13 * n
            && Path(c.stack)
            && (Clean(c, ItemsTokens(items)) <==> n <= 7)
  {
    hide Feed, Go, Clean;
    var items := [Line(Deep(n), NEWLINE)];
    IdlePath(c);
    DeepForm(n);
    OneItem(items[0]);
    hide Deep;
    if n <= 7 {
      ProgramsAreParsed(c, items);
    } else {
      LargeProgramsOverflow(c, items);
    }
  }
}
