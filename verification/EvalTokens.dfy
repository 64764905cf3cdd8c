/** The tokens of an expression: what the scanner's words and operators mean,
    and writing expressions as text. */
module EvalTokens {
  import opened Expressions
  import opened ExpressionParsing
  import opened ExpressionPrinting
  import opened ExpressionEvaluation
  import opened TokenLaws
  import Q = Quoting
  import QuotingLaws
  import Variables

  /** The token type of an operator. */
  function OperatorKind(s: string): (k: Kind)
    ensures !k.Text? && !k.Eof?
  {
    if s == "<" then Less else if s == ">" then Greater
    else if s == "<<" then ShiftLeft else if s == ">>" then ShiftRight
    else if s == "<=" || s == [Q.LESS_EQUAL] then LessEqual
    else if s == ">=" then GreaterEqual else if s == [Q.GREATER_EQUAL] then GreaterEqualSign
    else if s == "==" then Equal
    else if s == "!=" || s == "<>" || s == [Q.NOT_EQUAL] then NotEqual
    else if s == "=~" then Like else if s == "!~" then NotLike
    else if s == "|" then BitOr else if s == "||" then LogicalOr
    else if s == "&" then BitAnd else if s == "&&" then LogicalAnd
    else if s == "(" then LParen else if s == ")" then RParen
    else if s == "+" then Plus else if s == "-" then Minus
    else if s == "*" then Star else if s == [Q.DIVIDE] then Slash else if s == "%" then Percent
    else if s == "!" || s == [Q.NOT] then Not else if s == "~" then Complement
    else if s == "^" then BitXor
    else Other(Code(s))
  }

  /** The bytes of a multi-character constant. */
  function Code(s: string): nat {
    if s == "" then 0 else 0x100 * Code(s[..|s| - 1]) + s[|s| - 1] as nat
  }

  /** replace_eval_token: the operators that are words, in either case. */
  function WordKind(s: string): Kind {
    var l := Variables.Lower(s);
    if l == "and" then LogicalAnd else if l == "or" then LogicalOr else if l == "not" then Not
    else if l == "div" then Slash else if l == "mod" then Percent
    else Text
  }

  function Typed(t: Q.Token): Token {
    if t.Text? then Token(WordKind(t.text), t.text) else Token(OperatorKind(t.text), t.text)
  }

  function AllTyped(ts: seq<Q.Token>): (r: seq<Token>)
    ensures |r| == |ts|
  {
    seq(|ts|, i requires 0 <= i < |ts| => Typed(ts[i]))
  }

  /** tokenize, with eval. */
  function Tokenize(s: string): Q.Option<seq<Token>> {
    var ts := Q.Tokens(s, true, "", []);
    if ts.None? then Q.None else Q.Some(AllTyped(Q.UnquoteAll(ts.value)))
  }

  // ------------------------------------------------------- writing tokens

  /** A word with no character that means anything to the scanner. */
  predicate IsPlainWord(w: string) {
    w != "" && forall i :: 0 <= i < |w| ==> QuotingLaws.IsPlain(w[i])
  }

  predicate IsOperatorText(s: string) {
    s != "" && Q.OperatorLength(s, true) == |s|
  }

  /** What the scanner yields for the text of t. */
  function Raw(t: Token): Q.Token {
    if IsOperatorText(t.text) then Q.Operator(t.text) else Q.Text(t.text)
  }

  /** The text of t is an operator or a plain word, of the type of t. */
  predicate IsWritten(t: Token) {
    (IsOperatorText(t.text) || IsPlainWord(t.text)) && Typed(Raw(t)) == t
  }

  function Raws(ts: seq<Token>): (r: seq<Q.Token>)
    ensures |r| == |ts|
  {
    seq(|ts|, i requires 0 <= i < |ts| => Raw(ts[i]))
  }

  /** The texts of the tokens with blanks between them. */
  function Written(ts: seq<Token>): string {
    Joined(Raws(ts))
  }

  lemma {:induction false} PlainIsWord(w: string)
    requires w == "" || IsPlainWord(w)
    ensures IsWord(w, true, false)
    decreases w
  {
    if w != "" {
      PlainIsWord(w[1..]);
    }
  }

  lemma {:induction false} PlainUnquotes(w: string)
    requires IsPlainWord(w)
    ensures Q.Unquote(w) == w
  {
    assert forall i :: 0 <= i < |w| ==> w[i] != '\'' && w[i] != '"' && w[i] != Q.ESCAPE;
  }

  lemma {:induction false} RawIsToken(t: Token)
    requires IsWritten(t)
    ensures IsToken(Raw(t), true, false) && IsToken(Raw(t), true, true)
  {
    hide Q.OperatorLength, IsWord, WordKind, OperatorKind;
    if !IsOperatorText(t.text) {
      PlainIsWord(t.text);
      WordIsLast(t.text, true);
    }
  }

  /** Tokens that are written with blanks between them are read back. */
  lemma {:induction false} WrittenTokensAreRead(ts: seq<Token>)
    requires forall t | t in ts :: IsWritten(t)
    ensures Tokenize(Written(ts)) == Q.Some(ts)
  {
    hide IsWritten, IsToken, Q.Tokens, Q.Unquote, Typed;
    var raws := Raws(ts);
    forall i | 0 <= i < |ts|
      ensures IsToken(raws[i], true, i == |ts| - 1)
      ensures Typed(Q.UnquoteAll(raws)[i]) == ts[i]
    {
      assert ts[i] in ts;
      RawIsToken(ts[i]);
      RawIsTyped(ts[i]);
    }
    JoinedIsRead(raws, true, []);
    assert [] + raws == raws;
    assert AllTyped(Q.UnquoteAll(raws)) == ts;
  }

  lemma {:induction false} RawIsTyped(t: Token)
    requires IsWritten(t)
    ensures Typed(if Raw(t).Text? then Q.Text(Q.Unquote(Raw(t).text)) else Raw(t)) == t
  {
    hide WordKind, OperatorKind, Q.OperatorLength, Q.Unquote;
    if !IsOperatorText(t.text) {
      PlainUnquotes(t.text);
    }
  }

  // -------------------------------------------------- writing expressions

  /** The operands are plain words, and the operators are written as such. */
  predicate IsSpelled(e: Expr) {
    match e
    case Leaf(t) => IsWritten(t)
    case Missing => true
    case Unary(op, a) => IsWritten(op) && IsSpelled(a)
    case Binary(op, l, r) => IsWritten(op) && IsSpelled(l) && IsSpelled(r)
    case Paren(o, i, c) => IsWritten(o) && IsSpelled(i) && IsWritten(c)
  }

  lemma {:induction false} SpelledYield(e: Expr)
    requires IsSpelled(e)
    ensures forall t | t in Yield(e) :: IsWritten(t)
  {
    hide IsWritten;
    match e
    case Leaf(_) =>
    case Missing =>
    case Unary(_, a) => SpelledYield(a);
    case Binary(_, l, r) =>
      SpelledYield(l);
      SpelledYield(r);
    case Paren(_, i, _) => SpelledYield(i);
  }

  lemma {:induction false} SpelledPrint(e: Expr)
    requires IsSpelled(e)
    ensures IsSpelled(Print(e))
  {
    assert IsWritten(OPEN) && IsWritten(CLOSE);
    hide IsWritten;
    match e
    case Leaf(_) =>
    case Missing =>
    case Unary(_, a) => SpelledPrint(a);
    case Binary(_, l, r) =>
      SpelledPrint(l);
      SpelledPrint(r);
    case Paren(_, _, _) =>
  }

  /** An expression that is written as text, with the fewest parentheses, is
      scanned and parsed into an expression with the same value. */
  lemma {:induction false} TextMeaning<E, V>(sem: Semantics<E, V>, e: Expr, env: E)
    requires Whole(e) && IsSpelled(e)
    ensures var ts := Tokenize(Written(Yield(Print(e))));
            && ts.Some?
            && var p := ParseBinary(ts.value);
               p.Parsed? && p.rest == [] && Eval(sem, p.tree, env) == Eval(sem, e, env)
  {
    hide Tokenize, Written, Print, Yield, ParseBinary, Eval;
    SpelledPrint(e);
    SpelledYield(Print(e));
    WrittenTokensAreRead(Yield(Print(e)));
    PrintParseRoundTrip(e);
    PrintedMeaning(sem, e, env);
  }

  // -------------------------------------------------------------- quoting

  function AllTexts(words: seq<string>): (ts: seq<Token>)
    ensures |ts| == |words|
  {
    seq(|words|, i requires 0 <= i < |words| => Token(Text, words[i]))
  }

  /** Quoting does not protect a word that is an operator: words that are quoted,
      expanded and tokenized in an expression come back as texts exactly when
      none of them has a single quote and none is a keyword. */
  lemma {:induction false} QuotedWordsAreTexts(active: Q.Active, words: seq<string>)
    requires forall i :: 0 <= i < |words| ==> words[i] != ""
    ensures var r := Q.Reread(active, true, Q.Line(words));
            (r.Some? && AllTyped(r.value) == AllTexts(words)) <==>
              forall i :: 0 <= i < |words| ==> QuotingLaws.NoQuote(words[i]) && WordKind(words[i]).Text?
  {
    hide Q.Reread, Q.Line, WordKind, OperatorKind, QuotingLaws.NoQuote;
    var r := Q.Reread(active, true, Q.Line(words));
    QuotingLaws.QuotingRoundTrip(active, true, words);
    if r.Some? && AllTyped(r.value) == AllTexts(words) {
      forall i | 0 <= i < |words| ensures r.value[i] == Q.Text(words[i]) && WordKind(words[i]).Text? {
        assert Typed(r.value[i]) == AllTyped(r.value)[i] == AllTexts(words)[i];
      }
      assert r.value == Q.Texts(words);
    }
    if forall i :: 0 <= i < |words| ==> QuotingLaws.NoQuote(words[i]) && WordKind(words[i]).Text? {
      assert r == Q.Some(Q.Texts(words));
      assert AllTyped(r.value) == AllTexts(words);
    }
  }
}
