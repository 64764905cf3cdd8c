/** The command grammar of phase3.lemon, as concrete forms: a form keeps every
    token of the text that it spells. Independent of the automaton. */
module Grammar {
  import opened CommandTree

  datatype Option<T> = None | Some(value: T)

  datatype Form =
    | WordForm(word: Token)
    | BinaryForm(left: Form, op: Token, nls: seq<Token>, right: Form)
    | ParenForm(open: Token, body: seq<Item>, last: Option<Form>, close: Token)
    | BlockForm(open: Token, sep: Token, body: seq<Item>, close: Token)
    | IfForm(first: Section, rest: seq<Section>, close: Token)

  /** One step of a list: a separator alone, or a command and its separator. */
  datatype Item = Blank(sep: Token) | Line(form: Form, sep: Token)

  datatype Section = Section(head: Token, sep: Token, body: seq<Item>)

  // ------------------------------------------------------- what a form spells

  function Tokens(f: Form): (ts: seq<Token>)
    ensures |ts| > 0
  {
    match f
    case WordForm(w) => [w]
    case BinaryForm(l, op, nls, r) => Tokens(l) + [op] + nls + Tokens(r)
    case ParenForm(o, body, last, c) =>
      [o] + ItemsTokens(body) + (if last.Some? then Tokens(last.value) else []) + [c]
    case BlockForm(o, sep, body, c) => [o] + [sep] + ItemsTokens(body) + [c]
    case IfForm(first, rest, c) => SectionTokens(first) + SectionsTokens(rest) + [c]
  }

  function ItemTokens(i: Item): seq<Token> {
    match i
    case Blank(sep) => [sep]
    case Line(f, sep) => Tokens(f) + [sep]
  }

  function ItemsTokens(items: seq<Item>): seq<Token> {
    if items == [] then []
    else ItemsTokens(items[..|items| - 1]) + ItemTokens(items[|items| - 1])
  }

  function SectionTokens(s: Section): seq<Token> {
    [s.head] + [s.sep] + ItemsTokens(s.body)
  }

  function SectionsTokens(ss: seq<Section>): seq<Token> {
    if ss == [] then []
    else SectionsTokens(ss[..|ss| - 1]) + SectionTokens(ss[|ss| - 1])
  }

  // ----------------------------------------------------- what a form denotes

  function Tree(f: Form): (c: Command)
    ensures c != Null
  {
    match f
    case WordForm(w) => Word(w.kind, w.text)
    case BinaryForm(l, op, _, r) => Binary(op.kind, Tree(l), Tree(r))
    case ParenForm(o, body, last, c) =>
      Block(o.kind, ItemsTrees(body) + (if last.Some? then [Tree(last.value)] else []), o.text, c.text)
    case BlockForm(o, _, body, c) => Block(o.kind, ItemsTrees(body), o.text, c.text)
    case IfForm(first, rest, c) =>
      If([Clause(IF, ItemsTrees(first.body), first.head.text)] + SectionsClauses(rest), c.text)
  }

  function ItemsTrees(items: seq<Item>): seq<Command> {
    if items == [] then []
    else
      ItemsTrees(items[..|items| - 1]) + ItemTrees(items[|items| - 1])
  }

  function ItemTrees(i: Item): seq<Command> {
    match i
    case Blank(_) => []
    case Line(f, _) => [Tree(f)]
  }

  function SectionsClauses(ss: seq<Section>): seq<Clause> {
    if ss == [] then []
    else
      var s := ss[|ss| - 1];
      SectionsClauses(ss[..|ss| - 1]) + [Clause(s.head.kind, ItemsTrees(s.body), s.head.text)]
  }

  // ------------------------------------------------------------ the grammar

  predicate IsPipeline(f: Form) {
    f.BinaryForm? ==> f.op.kind.PIPE?
  }

  predicate AllNewlines(ts: seq<Token>) {
    forall t | t in ts :: t.kind.NL?
  }

  /** The forms that the grammar rules derive. With `strict` also the
      precedences hold: every operator is left-associative, `|` binds tighter
      than `&&` and `||`, which are on one level. */
  predicate Derivable(f: Form, strict: bool) {
    match f
    case WordForm(w) => IsWord(w.kind)
    case BinaryForm(l, op, nls, r) =>
      && Derivable(l, strict) && Derivable(r, strict)
      && IsOperator(op.kind) && AllNewlines(nls)
      && (strict && op.kind.PIPE? ==> IsPipeline(l) && !r.BinaryForm?)
      && (strict ==> IsPipeline(r))
    case ParenForm(o, body, last, c) =>
      && o.kind.LPAREN? && c.kind.RPAREN?
      && DerivableItems(body, strict)
      && (last.Some? ==> Derivable(last.value, strict))
    case BlockForm(o, sep, body, c) =>
      IsBlockOpener(o.kind) && IsSeparator(sep.kind) && DerivableItems(body, strict) && c.kind.END?
    case IfForm(first, rest, c) =>
      && first.head.kind.IF? && IsSeparator(first.sep.kind) && DerivableItems(first.body, strict)
      && DerivableSections(rest, strict)
      && c.kind.END?
  }

  predicate DerivableItems(items: seq<Item>, strict: bool) {
    items != [] ==>
      && DerivableItems(items[..|items| - 1], strict)
      && DerivableItem(items[|items| - 1], strict)
  }

  predicate DerivableItem(i: Item, strict: bool) {
    IsSeparator(i.sep.kind) && (i.Line? ==> Derivable(i.form, strict))
  }

  predicate DerivableSections(ss: seq<Section>, strict: bool) {
    ss != [] ==>
      && DerivableSections(ss[..|ss| - 1], strict)
      && var s := ss[|ss| - 1];
         IsElse(s.head.kind) && IsSeparator(s.sep.kind) && DerivableItems(s.body, strict)
  }

  // ------------------------------------------------------------ list steps

  lemma {:induction false} ItemsSnoc(items: seq<Item>, i: Item, strict: bool)
    ensures ItemsTokens(items + [i]) == ItemsTokens(items) + ItemTokens(i)
    ensures ItemsTrees(items + [i]) == ItemsTrees(items) + ItemTrees(i)
    ensures DerivableItems(items + [i], strict) <==> DerivableItems(items, strict) && DerivableItem(i, strict)
  {
    assert (items + [i])[..|items|] == items;
  }

  lemma {:induction false} SectionsSnoc(ss: seq<Section>, s: Section, strict: bool)
    ensures SectionsTokens(ss + [s]) == SectionsTokens(ss) + SectionTokens(s)
    ensures SectionsClauses(ss + [s]) ==
      SectionsClauses(ss) + [Clause(s.head.kind, ItemsTrees(s.body), s.head.text)]
    ensures DerivableSections(ss + [s], strict) <==>
      && DerivableSections(ss, strict)
      && IsElse(s.head.kind) && IsSeparator(s.sep.kind) && DerivableItems(s.body, strict)
  {
    assert (ss + [s])[..|ss|] == ss;
  }
}
