/** quote, expand_vars and tokenize: how words are written so that the shell
    reads them back as words. */
module Quoting {

  const ESCAPE: char := '\U{b6}'
  const QUOTE_ESCAPE: char := '\U{d8}'  // what quote writes where an escape belongs
  const SUM: char := '\U{b7}'
  const GREATER_EQUAL: char := '\U{b3}'
  const LESS_EQUAL: char := '\U{b2}'
  const NOT_EQUAL: char := '\U{ad}'
  const NOT: char := '\U{c2}'
  const DIVIDE: char := '\U{d6}'

  datatype Option<T> = None | Some(value: T)

  // -------------------------------------------------------------------- quote

  predicate IsNormal(c: char) {
    'A' <= c <= 'Z' || 'a' <= c <= 'z' || '0' <= c <= '9' || c == '_' || c == '.' || c == ':'
  }

  predicate MustQuote(s: string) {
    exists i :: 0 <= i < |s| && !IsNormal(s[i])
  }

  /** Inside the quotes: a quote is left, escaped and taken up again. */
  function Inside(s: string): string {
    if s == "" then ""
    else
      var k := |s| - 1;
      Inside(s[..k]) + if s[k] == '\'' then ['\'', QUOTE_ESCAPE, '\'', '\''] else [s[k]]
  }

  function Quoted(s: string): string {
    if MustQuote(s) then "'" + Inside(s) + "'" else s
  }

  method Quote(s: string) returns (out: string)
    ensures out == Quoted(s)
  {
    var quotable := false;
    for i := 0 to |s|
      invariant quotable <==> exists j :: 0 <= j < i && !IsNormal(s[j])
    {
      if !IsNormal(s[i]) {
        quotable := true;
      }
    }
    if !quotable {
      return s;
    }
    out := "'";
    for i := 0 to |s|
      invariant out == "'" + Inside(s[..i])
    {
      assert s[..i + 1][..i] == s[..i];
      if s[i] == '\'' {
        out := out + ['\'', QUOTE_ESCAPE, '\'', '\''];
      } else {
        out := out + [s[i]];
      }
    }
    assert s[..|s|] == s;
    out := out + "'";
  }

  // -------------------------------------------------------------- expand_vars

  /** Where the scanner of expand_vars is. */
  datatype Context = Plain | Single | Slash | Backslash | Double

  /** What an active { or ` stands for, and how much of the text it takes; None
      when it throws. */
  type Active = string -> Option<(string, nat)>

  function NextContext(x: Context, c: char): Context {
    match x
    case Plain =>
      if c == '\'' then Single else if c == '"' then Double else if c == '/' then Slash
      else if c == '\\' then Backslash else Plain
    case Single => if c == '\'' then Plain else Single
    case Slash => if c == '/' then Plain else Slash
    case Backslash => if c == '\\' then Plain else Backslash
    case Double => if c == '"' then Plain else Double
  }

  /** The text with the active parts replaced. */
  function Expand(active: Active, x: Context, s: string): Option<string>
    decreases |s|
  {
    if s == "" then Some("")
    else if (x.Plain? || x.Double?) && s[0] == ESCAPE then
      if |s| == 1 then Some(s) else Prefix(s[..2], Expand(active, x, s[2..]))
    else if (x.Plain? || x.Double?) && (s[0] == '{' || s[0] == '`') then
      var v := active(s);
      if v.None? || !(1 <= v.value.1 <= |s|) then None
      else Prefix(v.value.0, Expand(active, x, s[v.value.1..]))
    else Prefix([s[0]], Expand(active, NextContext(x, s[0]), s[1..]))
  }

  function Prefix(a: string, b: Option<string>): Option<string> {
    if b.None? then None else Some(a + b.value)
  }

  // ----------------------------------------------------------------- tokenize

  datatype Token = Text(text: string) | Operator(text: string)

  predicate IsBlank(c: char) {
    c == ' ' || c == '\t' || c == '\n' || c == '\r'
  }

  /** The operators of one character, and in expressions. */
  predicate IsOperator(c: char, eval: bool) {
    || c == '>' || c == '<' || c == SUM || c == GREATER_EQUAL
    || (eval && (c == '|' || c == '&' || c == '(' || c == ')' || c == '+' || c == '-' || c == '*' || c == '%'
                 || c == '!' || c == '^' || c == '~' || c == '=' || c == LESS_EQUAL || c == NOT_EQUAL
                 || c == NOT || c == DIVIDE))
  }

  predicate IsDoubleOperator(c: char, d: char, eval: bool) {
    || (c == d && (c == '>' || c == SUM || c == GREATER_EQUAL))
    || (eval && c == d && (c == '|' || c == '&' || c == '<' || c == '='))
    || (eval && d == '=' && (c == '<' || c == '>' || c == '!' || c == '+' || c == '-'))
    || (eval && d == '~' && (c == '=' || c == '!'))
    || (eval && c == '<' && d == '>')
  }

  /** The length of an operator at the front, the longest one; 0 when there is
      none. */
  function OperatorLength(s: string, eval: bool): (n: nat)
    ensures n <= |s|
  {
    if s == "" then 0
    else if |s| > 1 && IsDoubleOperator(s[0], s[1], eval) then 2
    else if IsOperator(s[0], eval) then 1
    else 0
  }

  /** The length up to a closing delimiter, with it; 0 when there is none. */
  function SpanTo(s: string, close: char, escapes: bool): (n: nat)
    ensures n <= |s|
    decreases |s|
  {
    if s == "" then 0
    else if s[0] == close then 1
    else if escapes && s[0] == ESCAPE then
      if |s| == 1 then 0
      else
        var n := SpanTo(s[2..], close, escapes);
        if n == 0 then 0 else n + 2
    else
      var n := SpanTo(s[1..], close, escapes);
      if n == 0 then 0 else n + 1
  }

  predicate IsDelimiter(c: char) {
    c == '\'' || c == '"' || c == '/' || c == '\\'
  }

  /** How much of the text goes into the current word at once: a quoted part, an
      escaped character, a character. 0 is an unterminated quote. */
  function PartLength(s: string): (n: nat)
    requires s != ""
    ensures n <= |s|
  {
    if IsDelimiter(s[0]) then
      var n := SpanTo(s[1..], s[0], s[0] == '"');
      if n == 0 then 0 else n + 1
    else if s[0] == ESCAPE && |s| > 1 then 2
    else 1
  }

  function Push(tokens: seq<Token>, scratch: string): seq<Token> {
    if scratch == "" then tokens else tokens + [Text(scratch)]
  }

  /** tokenize, before the tokens are unquoted. */
  function Tokens(s: string, eval: bool, scratch: string, tokens: seq<Token>): Option<seq<Token>>
    decreases |s|
  {
    if s == "" then Some(Push(tokens, scratch))
    else if IsBlank(s[0]) then Tokens(s[1..], eval, "", Push(tokens, scratch))
    else if OperatorLength(s, eval) > 0 then
      var n := OperatorLength(s, eval);
      Tokens(s[n..], eval, "", Push(tokens, scratch) + [Operator(s[..n])])
    else if PartLength(s) == 0 then None
    else Tokens(s[PartLength(s)..], eval, scratch + s[..PartLength(s)], tokens)
  }

  /** The scanner of tokenize. */
  method ScanTokens(s: string, eval: bool) returns (ok: bool, tokens: seq<Token>)
    ensures Tokens(s, eval, "", []) == if ok then Some(tokens) else None
  {
    hide PartLength, OperatorLength, SpanTo, Push;
    tokens := [];
    var scratch := "";
    var i := 0;
    while i < |s|
      invariant i <= |s|
      invariant Tokens(s[i..], eval, scratch, tokens) == Tokens(s, eval, "", [])
    {
      if IsBlank(s[i]) {
        assert s[i..][1..] == s[i + 1..];
        tokens, scratch, i := Push(tokens, scratch), "", i + 1;
      } else if OperatorLength(s[i..], eval) > 0 {
        var n := OperatorLength(s[i..], eval);
        assert s[i..][n..] == s[i + n..];
        tokens := Push(tokens, scratch) + [Operator(s[i..][..n])];
        scratch, i := "", i + n;
      } else {
        var n := PartLength(s[i..]);
        if n == 0 {
          return false, [];
        }
        assert s[i..][n..] == s[i + n..];
        scratch, i := scratch + s[i..][..n], i + n;
      }
    }
    return true, Push(tokens, scratch);
  }

  // ------------------------------------------------------------------ unquote

  function EscapeCode(c: char): char {
    if c == 'f' then '\U{0c}' else if c == 'n' then '\n' else if c == 't' then '\t' else c
  }

  function Unquoted(x: Context, s: string): string
    decreases |s|
  {
    if s == "" then ""
    else if (x.Plain? || x.Double?) && s[0] == ESCAPE then
      if |s| == 1 then [ESCAPE] else [EscapeCode(s[1])] + Unquoted(x, s[2..])
    else
      (if Dropped(x, s[0]) then "" else [s[0]]) + Unquoted(NextContext(x, s[0]), s[1..])
  }

  /** The quotes around a string; slashes are part of it. */
  predicate Dropped(x: Context, c: char) {
    || (x.Plain? && (c == '\'' || c == '"'))
    || (x.Single? && c == '\'')
    || (x.Double? && c == '"')
  }

  /** unquote leaves a text alone that has no quotes and no escapes. */
  function Unquote(s: string): string {
    if forall i :: 0 <= i < |s| ==> s[i] != '\'' && s[i] != '"' && s[i] != ESCAPE then s
    else Unquoted(Plain, s)
  }

  function UnquoteAll(tokens: seq<Token>): seq<Token> {
    seq(|tokens|, i requires 0 <= i < |tokens| =>
      if tokens[i].Text? then Text(Unquote(tokens[i].text)) else tokens[i])
  }

  /** expand_vars, then tokenize. */
  function Reread(active: Active, eval: bool, s: string): Option<seq<Token>> {
    var e := Expand(active, Plain, s);
    if e.None? then None
    else
      var ts := Tokens(e.value, eval, "", []);
      if ts.None? then None else Some(UnquoteAll(ts.value))
  }

  // ------------------------------------------------------------------- words

  /** The words, quoted, with a blank between them. */
  function Line(words: seq<string>): string {
    if words == [] then ""
    else
      var k := |words| - 1;
      if k == 0 then Quoted(words[0]) else Line(words[..k]) + " " + Quoted(words[k])
  }

  function Texts(words: seq<string>): (tokens: seq<Token>)
    ensures |tokens| == |words|
  {
    seq(|words|, i requires 0 <= i < |words| => Text(words[i]))
  }
}
