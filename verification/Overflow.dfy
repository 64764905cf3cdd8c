/** A derivable form that needs more room than there is overflows the stack
    while it is read: the need computed in Completeness is exact. */
module Overflow {
  import opened CommandTree
  import opened Automaton
  import opened ParserStack
  import opened ParserStep
  import opened Phase3
  import opened Grammar
  import opened Runs
  import opened Completeness

  /** What is not clean at the start stays so. */
  lemma {:induction false} SpillPrefix(c: Config, a: seq<Token>, b: seq<Token>)
    requires Path(c.stack) && !Clean(c, a)
    ensures !Clean(c, a + b)
  {
    GoConcat(c, a, b);
  }

  /** What is not clean after a settled prefix is not clean at all. */
  lemma {:induction false} SpillAfter(c: Config, a: seq<Token>, c1: Config, f: Follow, b: seq<Token>)
    requires Reads(c, a, c1, f)
    requires b != [] && Admits(f, b[0].kind)
    requires !Clean(c1, b)
    ensures !Clean(c, a + b)
  {
    GoConcat(c, a, b);
    assert Feed(Go(c, a), b[0]) == Feed(c1, b[0]);
  }

  /** A token to be shifted onto a full stack. */
  lemma {:induction false} SpillShift(c: Config, t: Token, b: seq<Token>)
    requires Path(c.stack) && |c.stack| == DEPTH
    requires Shifts(Top(c.stack).state, t.kind)
    ensures !Clean(c, [t] + b)
  {
    assert ([t] + b)[0] == t;
  }

  /** An empty rule to be reduced on a full stack. */
  lemma {:induction false} SpillReduce(c: Config, r: nat, b: seq<Token>)
    requires Path(c.stack) && |c.stack| == DEPTH
    requires Settles(Top(c.stack).state, r, Any) && r <= LAST_RULE && Size(r) == 0
    requires b != []
    ensures !Clean(c, b)
  {
    SettlesReduces(Top(c.stack).state, r, Any, b[0].kind);
  }

  /** SpillAfter and SpillShift: the stack is full when t is to be shifted. */
  lemma {:induction false} SpillAtShift(c: Config, a: seq<Token>, c1: Config, f: Follow, t: Token, b: seq<Token>)
    requires Reads(c, a, c1, f) && Admits(f, t.kind)
    requires |c1.stack| == DEPTH && Shifts(Top(c1.stack).state, t.kind)
    ensures !Clean(c, a + [t] + b)
  {
    hide Feed, Go, Clean;
    SpillShift(c1, t, b);
    SpillAfter(c, a, c1, f, [t] + b);
    assert a + [t] + b == a + ([t] + b);
  }

  lemma {:induction false} SpillLeft(c: Config, f: Form)
    requires Path(c.stack) && Takes(c, f)
    requires f.BinaryForm? && Derivable(f, true)
    requires Reads(c, Tokens(f.left), WithForm(c, f.left), FollowOf(f.left))
    requires |c.stack| + 2 >= DEPTH
    ensures !Clean(c, Tokens(f))
  {
    hide Feed, Go, Clean;
    var c1 := WithForm(c, f.left);
    var rest := f.nls + Tokens(f.right);
    assert Tokens(f) == Tokens(f.left) + [f.op] + rest;
    if |c1.stack| == DEPTH {
      SpillAtShift(c, Tokens(f.left), c1, FollowOf(f.left), f.op, rest);
    } else {
      var c2 := ShiftBy(c1, f.op);
      ThenShift(c, Tokens(f.left), c1, FollowOf(f.left), f.op, c2);
      SpillReduce(c2, 34, rest);
      SpillAfter(c, Tokens(f.left) + [f.op], c2, Any, rest);
    }
  }

  /** The newlines have no room, or the right operand has not. */
  lemma {:induction false} SpillRight(c: Config, f: Form)
    requires Path(c.stack) && Takes(c, f)
    requires f.BinaryForm? && Derivable(f, true)
    requires Reads(c, Tokens(f.left), WithForm(c, f.left), FollowOf(f.left))
    requires |c.stack| + 3 == DEPTH
    requires f.nls == [] ==> Path(BeforeRight(c, f).stack) ==> !Clean(BeforeRight(c, f), Tokens(f.right))
    ensures !Clean(c, Tokens(f))
  {
    hide Feed, Go, Clean;
    var c1 := WithForm(c, f.left);
    var c2 := ShiftBy(c1, f.op);
    var before := Tokens(f.left) + [f.op];
    ThenShift(c, Tokens(f.left), c1, FollowOf(f.left), f.op, c2);
    ReadNoNewline(c2, f.op);
    var c3 := AfterOperator(c2, f.op, 0);
    ReadsChain(c, before, c2, Any, [], c3, Any);
    assert before + [] == before;
    if f.nls == [] {
      assert c3 == BeforeRight(c, f);
      SpillAfter(c, before, c3, Any, Tokens(f.right));
      assert Tokens(f) == before + Tokens(f.right);
    } else {
      var nl := f.nls[0];
      assert TableAction(Top(c3.stack).state.number, NL) == ShiftReduce(35);
      SpillAtShift(c, before, c3, Any, nl, f.nls[1..] + Tokens(f.right));
      assert Tokens(f) == before + [nl] + (f.nls[1..] + Tokens(f.right));
    }
  }

  lemma {:induction false} SpillBinary(c: Config, f: Form)
    requires Path(c.stack) && Takes(c, f)
    requires f.BinaryForm? && Derivable(f, true)
    requires |c.stack| + Need(f) > DEPTH
    ensures !Clean(c, Tokens(f))
    decreases f, 0
  {
    hide Feed, Go, Clean;
    if |c.stack| + Need(f.left) > DEPTH {
      SpillForm(c, f.left);
      SpillPrefix(c, Tokens(f.left), [f.op] + f.nls + Tokens(f.right));
      assert Tokens(f) == Tokens(f.left) + ([f.op] + f.nls + Tokens(f.right));
    } else {
      ReadForm(c, f.left);
      if |c.stack| + 2 >= DEPTH {
        SpillLeft(c, f);
      } else if |c.stack| + 3 == DEPTH {
        if f.nls == [] && Path(BeforeRight(c, f).stack) {
          SpillForm(BeforeRight(c, f), f.right);
        }
        SpillRight(c, f);
      } else {
        ReadLeftAndOperator(c, f);
        SpillForm(BeforeRight(c, f), f.right);
        SpillAfter(c, Tokens(f.left) + [f.op] + f.nls, BeforeRight(c, f), Any, Tokens(f.right));
      }
    }
  }

  /** No room for a keyword, its separator and its list. */
  lemma {:induction false} SpillHead(c: Config, head: Token, sep: Token, b: seq<Token>)
    requires Path(c.stack) && Top(c.stack).state.At? && 1 <= Top(c.stack).state.number <= 11
    requires IsHead(head.kind) && IsSeparator(sep.kind) && b != []
    requires |c.stack| + 2 >= DEPTH
    ensures !Clean(c, [head] + [sep] + b)
  {
    hide Feed, Go, Clean;
    if |c.stack| == DEPTH {
      SpillShift(c, head, [sep] + b);
      assert [head] + [sep] + b == [head] + ([sep] + b);
    } else {
      ReadsShift(c, head);
      var c1 := ShiftBy(c, head);
      if |c1.stack| == DEPTH {
        SpillAtShift(c, [head], c1, Any, sep, b);
      } else {
        ThenSep(c, [head], c1, Any, sep);
        SpillReduce(WithSep(c1), 23, b);
        SpillAfter(c, [head] + [sep], WithSep(c1), Any, b);
      }
    }
  }

  /** No room for the list of a keyword, or for the token that follows it. */
  lemma {:induction false} SpillBody(c: Config, h: Section, next: Token, b: seq<Token>)
    requires Path(c.stack) && Top(c.stack).state.At? && 1 <= Top(c.stack).state.number <= 11
    requires IsHead(h.head.kind) && IsSeparator(h.sep.kind) && DerivableItems(h.body, true)
    requires next.kind.END? || (h.head.kind.IF? && IsElse(next.kind))
    requires |c.stack| + 3 + ItemsNeed(h.body) > DEPTH
    ensures !Clean(c, SectionTokens(h) + [next] + b)
    decreases h.body, 1
  {
    hide Feed, Go, Clean;
    var rest := ItemsTokens(h.body) + [next] + b;
    assert SectionTokens(h) + [next] + b == [h.head] + [h.sep] + rest;
    if |c.stack| + 2 >= DEPTH {
      SpillHead(c, h.head, h.sep, rest);
    } else {
      ReadHead(c, h.head, h.sep);
      var c0 := Opened(c, h.head, 2, []);
      if h.body == [] {
        assert ItemsTokens(h.body) == [];
        assert Shifts(Top(c0.stack).state, next.kind);
        SpillAtShift(c, [h.head] + [h.sep], c0, Any, next, b);
        assert [h.head] + [h.sep] + rest == [h.head] + [h.sep] + [next] + b;
      } else {
        SpillItems(c0, h.body);
        SpillPrefix(c0, ItemsTokens(h.body), [next] + b);
        assert rest == ItemsTokens(h.body) + ([next] + b);
        SpillAfter(c, [h.head] + [h.sep], c0, Any, rest);
      }
    }
  }

  lemma {:induction false} SpillParenOpen(c: Config, f: Form)
    requires Path(c.stack) && Takes(c, f)
    requires f.ParenForm? && Derivable(f, true)
    requires |c.stack| + 1 >= DEPTH
    ensures !Clean(c, Tokens(f))
  {
    hide Feed, Go, Clean;
    var rest := ItemsTokens(f.body) + LastTokens(f.last) + [f.close];
    assert Tokens(f) == [f.open] + rest;
    assert TableAction(Top(c.stack).state.number, LPAREN) == StarterAction(LPAREN) == Shift(12);
    if |c.stack| == DEPTH {
      SpillShift(c, f.open, rest);
    } else {
      ReadsShift(c, f.open);
      SpillReduce(ShiftBy(c, f.open), 23, rest);
      SpillAfter(c, [f.open], ShiftBy(c, f.open), Any, rest);
    }
  }

  /** The stack is full between the parentheses of `()`. */
  lemma {:induction false} SpillParenClose(c: Config, f: Form)
    requires Path(c.stack) && Takes(c, f)
    requires f.ParenForm? && Derivable(f, true) && f.body == [] && f.last == None
    requires |c.stack| + 2 == DEPTH
    ensures !Clean(c, Tokens(f))
  {
    hide Feed, Go, Clean;
    ReadParenOpen(c, f.open);
    assert ItemsTokens(f.body) == [] && ItemsTrees(f.body) == [];
    assert [f.open] + ItemsTokens(f.body) == [f.open];
    var c2 := ParenRead(c, f.open, 1, []);
    ReadParenAlone(c, f, ParenOpened(c, f.open, 1, []), c2);
    assert TableAction(32, RPAREN) == ShiftReduce(12);
    SpillAtShift(c, [f.open], c2, Closing, f.close, []);
    assert Tokens(f) == [f.open] + [f.close] + [];
  }

  /** There is room for the list of a parenthesis, but not for its last command. */
  lemma {:induction false} SpillParenLast(c0: Config, f: Form)
    requires Path(c0.stack) && OnList(c0)
    requires f.ParenForm? && Derivable(f, true) && f.last.Some?
    requires f.body != [] ==> |c0.stack| + ItemsNeed(f.body) <= DEPTH
    requires Top(c0.stack).state == At(8) && |c0.stack| + Need(f.last.value) > DEPTH
    ensures !Clean(c0, ItemsTokens(f.body) + (LastTokens(f.last) + [f.close]))
    decreases f, 0
  {
    hide Feed, Go, Clean;
    var l := f.last.value;
    var c1 := Grown(c0, |ItemsTokens(f.body)|, ItemsTrees(f.body));
    if f.body == [] {
      GrownNothing(c0);
      ReadsNothing(c0);
    } else {
      ReadItems(c0, f.body);
    }
    GrownTwice(c0, |ItemsTokens(f.body)|, 0, ItemsTrees(f.body), []);
    SpillForm(c1, l);
    SpillPrefix(c1, Tokens(l), [f.close]);
    SpillAfter(c0, ItemsTokens(f.body), c1, Any, LastTokens(f.last) + [f.close]);
  }

  lemma {:induction false} SpillParen(c: Config, f: Form)
    requires Path(c.stack) && Takes(c, f)
    requires f.ParenForm? && Derivable(f, true)
    requires |c.stack| + Need(f) > DEPTH
    ensures !Clean(c, Tokens(f))
    decreases f, 1
  {
    hide Feed, Go, Clean;
    if |c.stack| + 1 >= DEPTH {
      SpillParenOpen(c, f);
    } else if f.body == [] && f.last == None {
      SpillParenClose(c, f);
    } else {
      ReadParenOpen(c, f.open);
      var c0 := ParenOpened(c, f.open, 1, []);
      var rest := LastTokens(f.last) + [f.close];
      assert Tokens(f) == [f.open] + (ItemsTokens(f.body) + rest);
      if f.body != [] && |c0.stack| + ItemsNeed(f.body) > DEPTH {
        SpillItems(c0, f.body);
        SpillPrefix(c0, ItemsTokens(f.body), rest);
      } else {
        SpillParenLast(c0, f);
      }
      SpillAfter(c, [f.open], c0, Any, ItemsTokens(f.body) + rest);
    }
  }

  /** The keyword, the separator and the commands of a clause that fits. */
  lemma {:induction false} ReadFirst(c: Config, h: Section)
    requires Path(c.stack) && Top(c.stack).state.At? && 1 <= Top(c.stack).state.number <= 11
    requires IsHead(h.head.kind) && IsSeparator(h.sep.kind) && DerivableItems(h.body, true)
    requires |c.stack| + 3 + ItemsNeed(h.body) <= DEPTH
    ensures var c1 := Opened(c, h.head, |SectionTokens(h)|, ItemsTrees(h.body));
            Path(c1.stack) && Reads(c, SectionTokens(h), c1, Any)
  {
    hide Feed, Go, Clean;
    ReadHead(c, h.head, h.sep);
    var c0 := Opened(c, h.head, 2, []);
    ReadItems(c0, h.body);
    ReadBody(c, h.head, h.sep, h.body, Grown(c0, |ItemsTokens(h.body)|, ItemsTrees(h.body)));
  }

  lemma {:induction false} SpillIfRest(c: Config, f: Form, c1: Config)
    requires f.IfForm? && f.rest != [] && DerivableSections(f.rest, true)
    requires Reads(c, SectionTokens(f.first), c1, Any)
    requires !Clean(c1, SectionsTokens(f.rest) + [f.close])
    ensures !Clean(c, Tokens(f))
  {
    hide Feed, Go, Clean, SectionTokens, SectionsTokens, Reads;
    SectionsStart(f.rest);
    SpillAfter(c, SectionTokens(f.first), c1, Any, SectionsTokens(f.rest) + [f.close]);
    assert Tokens(f) == SectionTokens(f.first) + (SectionsTokens(f.rest) + [f.close]);
  }

  lemma {:induction false} SpillIf(c: Config, f: Form)
    requires Path(c.stack) && Takes(c, f)
    requires f.IfForm? && f.rest != [] && Derivable(f, true)
    requires |c.stack| + Need(f) > DEPTH
    ensures !Clean(c, Tokens(f))
    decreases f, 0
  {
    hide Feed, Go, Clean, Tree, ItemsTrees, SectionTokens, SectionsTokens, ItemsNeed, SectionsNeed, Reads;
    var h := f.first;
    if |c.stack| + 3 + ItemsNeed(h.body) > DEPTH {
      SectionsStart(f.rest);
      var ts := SectionsTokens(f.rest) + [f.close];
      SpillBody(c, f.first, ts[0], ts[1..]);
      assert Tokens(f) == SectionTokens(h) + [ts[0]] + ts[1..];
    } else {
      ReadFirst(c, h);
      var c1 := Opened(c, h.head, |SectionTokens(h)|, ItemsTrees(h.body));
      SpillSections(c1, f.rest, f.close);
      SpillIfRest(c, f, c1);
    }
  }

  /** Else clauses begin with an else keyword. */
  lemma {:induction false} SectionsStart(ss: seq<Section>)
    requires ss != [] && DerivableSections(ss, true)
    ensures SectionsTokens(ss) != [] && IsElse(SectionsTokens(ss)[0].kind)
  {
    if |ss| > 1 {
      SectionsStart(ss[..|ss| - 1]);
    } else {
      assert SectionsTokens(ss[..0]) == [];
    }
  }

  lemma {:induction false} SpillForm(c: Config, f: Form)
    requires Path(c.stack) && Takes(c, f)
    requires Derivable(f, true)
    requires |c.stack| + Need(f) > DEPTH
    ensures !Clean(c, Tokens(f))
    decreases f, 2
  {
    hide Feed, Go, Clean;
    match f
    case WordForm(w) =>
      SpillShift(c, w, []);
      assert [w] + [] == [w];
    case BinaryForm(_, _, _, _) => SpillBinary(c, f);
    case ParenForm(_, _, _, _) => SpillParen(c, f);
    case BlockForm(o, sep, body, close) =>
      SpillBody(c, Section(o, sep, body), close, []);
      assert Tokens(f) == SectionTokens(Section(o, sep, body)) + [close] + [];
    case IfForm(first, rest, close) =>
      if rest == [] {
        SpillBody(c, first, close, []);
        assert SectionsTokens(rest) == [];
        assert Tokens(f) == SectionTokens(first) + [close] + [];
      } else {
        SpillIf(c, f);
      }
  }

  lemma {:induction false} SpillItem(c: Config, i: Item)
    requires Path(c.stack) && OnList(c)
    requires DerivableItem(i, true)
    requires |c.stack| + ItemNeed(i) > DEPTH
    ensures !Clean(c, ItemTokens(i))
    decreases i
  {
    hide Feed, Go, Clean;
    match i
    case Blank(sep) =>
      SpillShift(c, sep, []);
      assert [sep] + [] == [sep];
    case Line(f, sep) =>
      if |c.stack| + Need(f) > DEPTH {
        SpillForm(c, f);
        SpillPrefix(c, Tokens(f), [sep]);
      } else {
        ReadForm(c, f);
        LineHandle(c, f);
        SpillAtShift(c, Tokens(f), WithForm(c, f), FollowOf(f), sep, []);
        assert ItemTokens(i) == Tokens(f) + [sep] + [];
      }
  }

  lemma {:induction false} SpillItems(c: Config, items: seq<Item>)
    requires Path(c.stack) && OnList(c)
    requires items != [] && DerivableItems(items, true)
    requires |c.stack| + ItemsNeed(items) > DEPTH
    ensures !Clean(c, ItemsTokens(items))
    decreases items, 0
  {
    hide Feed, Go, Clean;
    var k := |items| - 1;
    var a := ItemsTokens(items[..k]);
    var b := ItemTokens(items[k]);
    if k > 0 && |c.stack| + ItemsNeed(items[..k]) > DEPTH {
      SpillItems(c, items[..k]);
      SpillPrefix(c, a, b);
    } else {
      var c1 := Grown(c, |a|, ItemsTrees(items[..k]));
      if k == 0 {
        GrownNothing(c);
        ReadsNothing(c);
      } else {
        ReadItems(c, items[..k]);
      }
      GrownTwice(c, |a|, 0, ItemsTrees(items[..k]), []);
      SpillItem(c1, items[k]);
      SpillAfter(c, a, c1, Any, b);
    }
  }

  /** No room for an else keyword, its separator and its list. */
  lemma {:induction false} SpillElseHead(c: Config, first: bool, s: Section, b: seq<Token>)
    requires Path(c.stack) && BeforeElse(c, first)
    requires IsElse(s.head.kind) && IsSeparator(s.sep.kind) && b != []
    requires |c.stack| + 2 >= DEPTH
    ensures !Clean(c, [s.head] + [s.sep] + b)
  {
    hide Feed, Go, Clean;
    if |c.stack| == DEPTH {
      SpillShift(c, s.head, [s.sep] + b);
      assert [s.head] + [s.sep] + b == [s.head] + ([s.sep] + b);
    } else {
      ReadsShift(c, s.head);
      var c1 := ShiftBy(c, s.head);
      if |c1.stack| == DEPTH {
        SpillAtShift(c, [s.head], c1, Any, s.sep, b);
      } else {
        ThenSep(c, [s.head], c1, Any, s.sep);
        SpillReduce(WithSep(c1), 23, b);
        SpillAfter(c, [s.head] + [s.sep], WithSep(c1), Any, b);
      }
    }
  }

  lemma {:induction false} SpillSection(c: Config, first: bool, s: Section, next: Token)
    requires Path(c.stack) && BeforeElse(c, first)
    requires IsElse(s.head.kind) && IsSeparator(s.sep.kind) && DerivableItems(s.body, true)
    requires |c.stack| + 3 + (if s.body == [] then 0 else ItemsNeed(s.body)) > DEPTH
    ensures !Clean(c, SectionTokens(s) + [next])
    decreases s.body, 1
  {
    hide Feed, Go, Clean;
    var rest := ItemsTokens(s.body) + [next];
    assert SectionTokens(s) + [next] == [s.head] + [s.sep] + rest;
    if |c.stack| + 2 >= DEPTH {
      SpillElseHead(c, first, s, rest);
    } else {
      ReadElseHead(c, first, s.head, s.sep);
      var c1 := ElseOpened(c, first, s.head, 2, []);
      SpillItems(c1, s.body);
      SpillPrefix(c1, ItemsTokens(s.body), [next]);
      SpillAfter(c, [s.head] + [s.sep], c1, Any, rest);
    }
  }

  lemma {:induction false} SpillLast(c: Config, ss: seq<Section>, next: Token)
    requires Path(c.stack) && OnIfList(c)
    requires ss != [] && DerivableSections(ss, true)
    requires |ss| > 1 ==> |c.stack| - 3 + SectionsNeed(ss[..|ss| - 1]) <= DEPTH
    requires Path(Elsed(c, ss[..|ss| - 1]).stack)
    requires !Clean(Elsed(c, ss[..|ss| - 1]), SectionTokens(ss[|ss| - 1]) + [next])
    ensures !Clean(c, SectionsTokens(ss) + [next])
  {
    hide Feed, Go, Clean, Tree, ItemsTrees, SectionsNeed, SectionTokens, Elsed, Reads, Path, SectionsTokens;
    var k := |ss| - 1;
    var s := ss[k];
    var a := SectionsTokens(ss[..k]);
    SectionsSnoc(ss[..k], s, true);
    assert ss[..k] + [s] == ss;
    assert SectionsTokens(ss) + [next] == a + (SectionTokens(s) + [next]);
    var c0 := Elsed(c, ss[..k]);
    if k == 0 {
      NothingElsed(c);
      ReadsNothing(c);
    } else {
      ReadSections(c, ss[..k]);
    }
    SectionStart(s);
    SpillAfter(c, a, c0, if k == 0 then Any else Closing, SectionTokens(s) + [next]);
  }

  lemma {:induction false} NothingElsed(c: Config)
    ensures Elsed(c, []) == c && SectionsTokens([]) == []
  {
  }

  lemma {:induction false} SectionStart(s: Section)
    ensures SectionTokens(s) != [] && SectionTokens(s)[0] == s.head
  {
  }

  lemma {:induction false} SpillSections(c: Config, ss: seq<Section>, next: Token)
    requires Path(c.stack) && OnIfList(c)
    requires ss != [] && DerivableSections(ss, true)
    requires |c.stack| - 3 + SectionsNeed(ss) > DEPTH
    ensures !Clean(c, SectionsTokens(ss) + [next])
    decreases ss
  {
    hide Feed, Go, Clean, Tree, ItemsTrees, SectionTokens;
    var k := |ss| - 1;
    var s := ss[k];
    if k > 0 && |c.stack| - 3 + SectionsNeed(ss[..k]) > DEPTH {
      var a := SectionsTokens(ss[..k]);
      SpillSections(c, ss[..k], s.head);
      SpillPrefix(c, a + [s.head], [s.sep] + ItemsTokens(s.body) + [next]);
      SectionParts(s);
      assert SectionsTokens(ss) + [next] == a + [s.head] + ([s.sep] + ItemsTokens(s.body) + [next]);
    } else {
      if k > 0 {
        ReadSections(c, ss[..k]);
      }
      SpillSection(Elsed(c, ss[..k]), k == 0, s, next);
      SpillLast(c, ss, next);
    }
  }

  lemma {:induction false} SectionParts(s: Section)
    ensures SectionTokens(s) == [s.head] + [s.sep] + ItemsTokens(s.body)
  {
  }
}
