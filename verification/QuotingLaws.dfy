/** Words that are quoted, expanded and tokenized come back exactly when they
    contain no single quote. */
module QuotingLaws {
  import opened Quoting

  predicate NoQuote(w: string) {
    forall i :: 0 <= i < |w| ==> w[i] != '\''
  }

  predicate AllNormal(w: string) {
    forall i :: 0 <= i < |w| ==> IsNormal(w[i])
  }

  lemma {:induction false} InsideConcat(a: string, b: string)
    ensures Inside(a + b) == Inside(a) + Inside(b)
    decreases b
  {
    if b == "" {
      assert a + b == a;
    } else {
      assert (a + b)[..|a + b| - 1] == a + b[..|b| - 1];
      InsideConcat(a, b[..|b| - 1]);
    }
  }

  lemma {:induction false} InsideCopies(w: string)
    requires NoQuote(w)
    ensures Inside(w) == w
    decreases w
  {
    if w != "" {
      InsideCopies(w[..|w| - 1]);
    }
  }

  lemma {:induction false} QuotedForm(w: string)
    requires NoQuote(w)
    ensures Quoted(w) == (if AllNormal(w) then w else "'" + w + "'")
  {
    InsideCopies(w);
  }

  // ------------------------------------------------------------------ expand

  lemma {:induction false} PrefixTwice(a: string, b: string, x: Option<string>)
    ensures Prefix(a, Prefix(b, x)) == Prefix(a + b, x)
  {
    if x.Some? {
      assert a + (b + x.value) == a + b + x.value;
    }
  }

  lemma {:induction false} ExpandStep(active: Active, x: Context, c: char, rest: string)
    requires x.Single? || (x.Plain? && c != ESCAPE && c != '{' && c != '`')
    ensures Expand(active, x, [c] + rest) == Prefix([c], Expand(active, NextContext(x, c), rest))
  {
    assert ([c] + rest)[0] == c && ([c] + rest)[1..] == rest;
  }

  /** Ordinary characters are copied. */
  lemma {:induction false} ExpandCopies(active: Active, x: Context, w: string, rest: string)
    requires (x.Plain? && AllNormal(w)) || (x.Single? && NoQuote(w))
    ensures Expand(active, x, w + rest) == Prefix(w, Expand(active, x, rest))
    decreases w
  {
    if w == "" {
      assert w + rest == rest;
      PrefixNothing(Expand(active, x, rest));
    } else {
      var c := w[0];
      assert x.Plain? ==> IsNormal(c);
      assert w + rest == [c] + (w[1..] + rest) && w == [c] + w[1..];
      ExpandStep(active, x, c, w[1..] + rest);
      ExpandCopies(active, x, w[1..], rest);
      PrefixTwice([c], w[1..], Expand(active, x, rest));
    }
  }

  lemma {:induction false} PrefixNothing(x: Option<string>)
    ensures Prefix("", x) == x
  {
    if x.Some? {
      assert "" + x.value == x.value;
    }
  }

  /** A part in single quotes is copied, whatever it contains. */
  lemma {:induction false} ExpandQuoted(active: Active, w: string, rest: string)
    requires NoQuote(w)
    ensures Expand(active, Plain, "'" + w + "'" + rest) == Prefix("'" + w + "'", Expand(active, Plain, rest))
  {
    ExpandStep(active, Plain, '\'', w + ("'" + rest));
    ExpandCopies(active, Single, w, "'" + rest);
    ExpandStep(active, Single, '\'', rest);
    assert "'" + w + "'" + rest == ['\''] + (w + ("'" + rest)) && ['\''] == "'";
    PrefixTwice(w, "'", Expand(active, Plain, rest));
    PrefixTwice("'", w + "'", Expand(active, Plain, rest));
    assert "'" + (w + "'") == "'" + w + "'";
  }

  lemma {:induction false} ExpandWord(active: Active, w: string, rest: string)
    requires NoQuote(w)
    ensures Expand(active, Plain, Quoted(w) + rest) == Prefix(Quoted(w), Expand(active, Plain, rest))
  {
    QuotedForm(w);
    if AllNormal(w) {
      ExpandCopies(active, Plain, w, rest);
    } else {
      ExpandQuoted(active, w, rest);
    }
  }

  lemma {:induction false} Assoc(a: string, b: string, c: string)
    ensures a + b + c == a + (b + c)
  {
  }

  lemma {:induction false} LineSnoc(words: seq<string>)
    requires words != []
    ensures var k := |words| - 1;
            Line(words) == if k == 0 then Quoted(words[0]) else Line(words[..k]) + " " + Quoted(words[k])
  {
  }

  ghost predicate NoQuotes(words: seq<string>) {
    forall i :: 0 <= i < |words| ==> words[i] != "" && NoQuote(words[i])
  }

  lemma {:induction false} ExpandLine(active: Active, words: seq<string>, rest: string)
    requires NoQuotes(words) && words != []
    ensures Expand(active, Plain, Line(words) + rest) == Prefix(Line(words), Expand(active, Plain, rest))
    decreases words
  {
    hide Expand, Prefix, Quoted, Line, NoQuote;
    var k := |words| - 1;
    LineSnoc(words);
    ExpandWord(active, words[k], rest);
    if k > 0 {
      ExpandLine(active, words[..k], " " + (Quoted(words[k]) + rest));
      ExpandJoin(active, Line(words[..k]), Quoted(words[k]), rest);
    }
  }

  /** One more word, behind a blank. */
  lemma {:induction false} ExpandJoin(active: Active, line: string, word: string, rest: string)
    requires Expand(active, Plain, word + rest) == Prefix(word, Expand(active, Plain, rest))
    requires Expand(active, Plain, line + (" " + (word + rest))) ==
      Prefix(line, Expand(active, Plain, " " + (word + rest)))
    ensures Expand(active, Plain, line + " " + word + rest) ==
      Prefix(line + " " + word, Expand(active, Plain, rest))
  {
    var x := Expand(active, Plain, rest);
    ExpandStep(active, Plain, ' ', word + rest);
    hide Expand, Prefix;
    assert [' '] == " ";
    PrefixTwice(" ", word, x);
    PrefixTwice(line, " " + word, x);
    Assoc(line, " ", word);
    Assoc(line + " ", word, rest);
    Assoc(line, " ", word + rest);
  }

  // ------------------------------------------------------------------- tokens

  /** A character that means nothing to the scanner, in either mode. */
  predicate IsPlain(c: char) {
    !IsBlank(c) && !IsDelimiter(c) && c != ESCAPE && !IsOperator(c, true)
  }

  lemma {:induction false} PlainStep(eval: bool, c: char, rest: string, scratch: string, tokens: seq<Token>)
    requires IsPlain(c)
    ensures Tokens([c] + rest, eval, scratch, tokens) == Tokens(rest, eval, scratch + [c], tokens)
  {
    var s := [c] + rest;
    assert OperatorLength(s, eval) == 0;
    hide OperatorLength, SpanTo;
    assert s[1..] == rest && s[..1] == [c];
  }

  lemma {:induction false} TokensCopy(eval: bool, w: string, rest: string, scratch: string, tokens: seq<Token>)
    requires forall i :: 0 <= i < |w| ==> IsPlain(w[i])
    ensures Tokens(w + rest, eval, scratch, tokens) == Tokens(rest, eval, scratch + w, tokens)
    decreases w
  {
    hide Tokens;
    if w == "" {
      assert w + rest == rest && scratch + w == scratch;
    } else {
      assert w + rest == [w[0]] + (w[1..] + rest);
      PlainStep(eval, w[0], w[1..] + rest, scratch, tokens);
      TokensCopy(eval, w[1..], rest, scratch + [w[0]], tokens);
      assert scratch + [w[0]] + w[1..] == scratch + w;
    }
  }

  lemma {:induction false} SpanOverWord(w: string, rest: string)
    requires NoQuote(w)
    ensures SpanTo(w + ("'" + rest), '\'', false) == |w| + 1
    decreases w
  {
    if w == "" {
      assert w + ("'" + rest) == "'" + rest;
    } else {
      assert (w + ("'" + rest))[1..] == w[1..] + ("'" + rest);
      SpanOverWord(w[1..], rest);
    }
  }

  lemma {:induction false} TokensQuoted(eval: bool, w: string, rest: string, scratch: string, tokens: seq<Token>)
    requires NoQuote(w)
    ensures Tokens("'" + w + "'" + rest, eval, scratch, tokens) == Tokens(rest, eval, scratch + ("'" + w + "'"), tokens)
  {
    var s := "'" + w + "'" + rest;
    assert s[1..] == w + ("'" + rest);
    SpanOverWord(w, rest);
    assert PartLength(s) == |w| + 2;
    assert s[..|w| + 2] == "'" + w + "'" && s[|w| + 2..] == rest;
  }

  lemma {:induction false} TokensWord(eval: bool, w: string, rest: string, tokens: seq<Token>)
    requires NoQuote(w)
    ensures Tokens(Quoted(w) + rest, eval, "", tokens) == Tokens(rest, eval, Quoted(w), tokens)
  {
    QuotedForm(w);
    if AllNormal(w) {
      assert forall i :: 0 <= i < |w| ==> IsNormal(w[i]) && IsPlain(w[i]);
      TokensCopy(eval, w, rest, "", tokens);
      assert "" + w == w;
    } else {
      TokensQuoted(eval, w, rest, "", tokens);
      assert "" + ("'" + w + "'") == "'" + w + "'";
    }
  }

  function RawTexts(words: seq<string>): (tokens: seq<Token>)
    ensures |tokens| == |words|
  {
    seq(|words|, i requires 0 <= i < |words| => Text(Quoted(words[i])))
  }

  /** A line of words is tokenized into the words, still quoted; the last one
      may go on. */
  lemma {:induction false} TokensLine(eval: bool, words: seq<string>, rest: string)
    requires NoQuotes(words) && words != []
    ensures Tokens(Line(words) + rest, eval, "", []) ==
      Tokens(rest, eval, Quoted(words[|words| - 1]), RawTexts(words[..|words| - 1]))
    decreases words
  {
    hide Tokens, Quoted, Line, NoQuote;
    var k := |words| - 1;
    var q := Quoted(words[k]);
    LineSnoc(words);
    if k == 0 {
      TokensWord(eval, words[0], rest, []);
      assert RawTexts(words[..0]) == [];
    } else {
      TokensLine(eval, words[..k], " " + (q + rest));
      Assoc(Line(words[..k]), " ", q);
      Assoc(Line(words[..k]) + " ", q, rest);
      Assoc(Line(words[..k]), " ", q + rest);
      assert words[..k][..k - 1] == words[..k - 1];
      PushWord(eval, words, k, q + rest);
      TokensWord(eval, words[k], rest, RawTexts(words[..k]));
    }
  }

  /** The blank behind a word ends it. */
  lemma {:induction false} PushWord(eval: bool, words: seq<string>, k: nat, rest: string)
    requires NoQuotes(words) && 0 < k <= |words|
    ensures Tokens(" " + rest, eval, Quoted(words[k - 1]), RawTexts(words[..k - 1])) ==
      Tokens(rest, eval, "", RawTexts(words[..k]))
  {
    hide Tokens;
    QuotedForm(words[k - 1]);
    BlankPushes(eval, Quoted(words[k - 1]), rest, RawTexts(words[..k - 1]));
    RawSnoc(words, k);
  }

  lemma {:induction false} RawSnoc(words: seq<string>, k: nat)
    requires 0 < k <= |words|
    ensures RawTexts(words[..k]) == RawTexts(words[..k - 1]) + [Text(Quoted(words[k - 1]))]
  {
  }

  lemma {:induction false} BlankPushes(eval: bool, scratch: string, rest: string, tokens: seq<Token>)
    ensures Tokens(" " + rest, eval, scratch, tokens) == Tokens(rest, eval, "", Push(tokens, scratch))
  {
    assert (" " + rest)[1..] == rest;
  }

  // ------------------------------------------------------------------ unquote

  lemma {:induction false} UnquotedSingle(w: string, rest: string)
    requires NoQuote(w)
    ensures Unquoted(Single, w + ("'" + rest)) == w + Unquoted(Plain, rest)
    decreases w
  {
    if w == "" {
      assert w + ("'" + rest) == "'" + rest && ("'" + rest)[1..] == rest;
    } else {
      assert (w + ("'" + rest))[1..] == w[1..] + ("'" + rest);
      UnquotedSingle(w[1..], rest);
      assert [w[0]] + (w[1..] + Unquoted(Plain, rest)) == w + Unquoted(Plain, rest);
    }
  }

  lemma {:induction false} UnquotedPart(w: string, rest: string)
    requires NoQuote(w)
    ensures Unquote("'" + w + "'" + rest) == w + Unquoted(Plain, rest)
  {
    var s := "'" + w + "'" + rest;
    assert s[0] == '\'' && s[1..] == w + ("'" + rest);
    UnquotedSingle(w, rest);
  }

  lemma {:induction false} UnquoteInverts(w: string)
    requires NoQuote(w)
    ensures Unquote(Quoted(w)) == w
  {
    QuotedForm(w);
    if AllNormal(w) {
      assert forall i :: 0 <= i < |w| ==> w[i] != '\'' && w[i] != '"' && w[i] != ESCAPE;
    } else {
      UnquotedPart(w, "");
      assert "'" + w + "'" + "" == "'" + w + "'" && w + "" == w;
    }
  }

  // ---------------------------------------------------------------- the result

  lemma {:induction false} RawUnquotes(words: seq<string>)
    requires NoQuotes(words)
    ensures UnquoteAll(RawTexts(words)) == Texts(words)
  {
    hide Quoted, Unquote;
    forall i | 0 <= i < |words| ensures UnquoteAll(RawTexts(words))[i] == Texts(words)[i] {
      UnquoteInverts(words[i]);
    }
  }

  lemma {:induction false} ExpandEnd(active: Active, s: string)
    ensures Prefix(s, Expand(active, Plain, "")) == Some(s)
  {
    assert s + "" == s;
  }

  lemma {:induction false} LineTokens(eval: bool, words: seq<string>)
    requires NoQuotes(words) && words != []
    ensures Tokens(Line(words), eval, "", []) == Some(RawTexts(words))
  {
    var k := |words| - 1;
    TokensLine(eval, words, "");
    hide Line, Quoted, RawTexts;
    assert Line(words) + "" == Line(words);
    QuotedForm(words[k]);
    RawSnoc(words, |words|);
    assert words[..|words|] == words;
  }

  lemma {:induction false} WordsComeBack(active: Active, eval: bool, words: seq<string>)
    requires NoQuotes(words)
    ensures Reread(active, eval, Line(words)) == Some(Texts(words))
  {
    if words == [] {
      assert UnquoteAll([]) == Texts(words);
    } else {
      hide Expand, Tokens, Line, Quoted, UnquoteAll, RawTexts, Prefix, Texts;
      ExpandLine(active, words, "");
      assert Line(words) + "" == Line(words);
      ExpandEnd(active, Line(words));
      LineTokens(eval, words);
      RawUnquotes(words);
    }
  }

  /** What is in the current word stays in it. */
  lemma {:induction false} TokensGrow(eval: bool, s: string, scratch: string, tokens: seq<Token>)
    requires scratch != "" && Tokens(s, eval, scratch, tokens).Some?
    ensures var ts := Tokens(s, eval, scratch, tokens).value;
            && |ts| > |tokens|
            && ts[|tokens|].Text? && scratch <= ts[|tokens|].text
    decreases |s|
  {
    if s == "" {
    } else if IsBlank(s[0]) {
      TokensKeep(eval, s[1..], "", tokens + [Text(scratch)]);
    } else if OperatorLength(s, eval) > 0 {
      var n := OperatorLength(s, eval);
      TokensKeep(eval, s[n..], "", tokens + [Text(scratch)] + [Operator(s[..n])]);
    } else if PartLength(s) != 0 {
      var n := PartLength(s);
      TokensGrow(eval, s[n..], scratch + s[..n], tokens);
    }
  }

  lemma {:induction false} TokensKeep(eval: bool, s: string, scratch: string, tokens: seq<Token>)
    requires Tokens(s, eval, scratch, tokens).Some?
    ensures tokens <= Tokens(s, eval, scratch, tokens).value
    decreases |s|
  {
    if s == "" {
    } else if IsBlank(s[0]) {
      TokensKeep(eval, s[1..], "", Push(tokens, scratch));
    } else if OperatorLength(s, eval) > 0 {
      var n := OperatorLength(s, eval);
      TokensKeep(eval, s[n..], "", Push(tokens, scratch) + [Operator(s[..n])]);
    } else if PartLength(s) != 0 {
      var n := PartLength(s);
      TokensKeep(eval, s[n..], scratch + s[..n], tokens);
    }
  }

  /** The part before the first quote, and the part behind it. */
  function BeforeQuote(w: string): (n: nat)
    ensures n <= |w| && NoQuote(w[..n]) && (n < |w| ==> w[n] == '\'')
    ensures n == |w| ==> NoQuote(w)
  {
    if w == "" || w[0] == '\'' then 0
    else
      var n := BeforeQuote(w[1..]);
      assert w[..n + 1] == [w[0]] + w[1..][..n];
      n + 1
  }

  /** A quoted word with a single quote in it: its first part, then the byte
      that was meant to be an escape. */
  lemma {:induction false} BadForm(w: string, n: nat)
    requires n == BeforeQuote(w) < |w|
    ensures Quoted(w) == "'" + w[..n] + "'" + ([QUOTE_ESCAPE] + ("''" + Inside(w[n + 1..]) + "'"))
  {
    var p, q := w[..n], w[n + 1..];
    assert w == p + "'" + q;
    BadInside(p, q);
    assert !IsNormal(w[n]);
    hide Inside;
    assert "'" + (p + ['\'', QUOTE_ESCAPE, '\'', '\''] + Inside(q)) + "'" ==
      "'" + p + "'" + ([QUOTE_ESCAPE] + ("''" + Inside(q) + "'"));
  }

  lemma {:induction false} BadInside(p: string, q: string)
    requires NoQuote(p)
    ensures Inside(p + "'" + q) == p + ['\'', QUOTE_ESCAPE, '\'', '\''] + Inside(q)
  {
    InsideConcat(p + "'", q);
    InsideConcat(p, "'");
    InsideCopies(p);
    assert "'"[..0] == "";
    assert Inside("'") == ['\'', QUOTE_ESCAPE, '\'', '\''];
  }

  /** The line up to a word. */
  function Head(words: seq<string>): string {
    if words == [] then "" else Line(words) + " "
  }

  lemma {:induction false} HeadExpands(active: Active, words: seq<string>, rest: string)
    requires NoQuotes(words)
    ensures Expand(active, Plain, Head(words) + rest) == Prefix(Head(words), Expand(active, Plain, rest))
  {
    hide Line;
    if words == [] {
      assert "" + rest == rest;
      PrefixNothing(Expand(active, Plain, rest));
    } else {
      ExpandLine(active, words, " " + rest);
      ExpandStep(active, Plain, ' ', rest);
      hide Expand, Prefix;
      assert [' '] == " ";
      PrefixTwice(Line(words), " ", Expand(active, Plain, rest));
      Assoc(Line(words), " ", rest);
    }
  }

  lemma {:induction false} HeadTokens(eval: bool, words: seq<string>, rest: string)
    requires NoQuotes(words)
    ensures Tokens(Head(words) + rest, eval, "", []) == Tokens(rest, eval, "", RawTexts(words))
  {
    hide Tokens, Line;
    if words == [] {
      assert "" + rest == rest && RawTexts(words) == [];
    } else {
      TokensLine(eval, words, " " + rest);
      Assoc(Line(words), " ", rest);
      PushWord(eval, words, |words|, rest);
      assert words[..|words|] == words;
    }
  }

  /** The expanded line, up to the byte that was meant to be an escape. */
  lemma {:induction false} BadExpands(active: Active, words: seq<string>, p: string, tail: string)
    requires NoQuotes(words) && NoQuote(p)
    ensures Expand(active, Plain, Head(words) + ("'" + p + "'" + ([QUOTE_ESCAPE] + tail))) ==
      Prefix(Head(words), Prefix("'" + p + "'", Prefix([QUOTE_ESCAPE], Expand(active, Plain, tail))))
  {
    HeadExpands(active, words, "'" + p + "'" + ([QUOTE_ESCAPE] + tail));
    ExpandQuoted(active, p, [QUOTE_ESCAPE] + tail);
    ExpandStep(active, Plain, QUOTE_ESCAPE, tail);
  }

  lemma {:induction false} BadTokens(eval: bool, words: seq<string>, p: string, e: string)
    requires NoQuotes(words) && NoQuote(p)
    ensures Tokens(Head(words) + ("'" + p + "'" + ([QUOTE_ESCAPE] + e)), eval, "", []) ==
      Tokens(e, eval, "'" + p + "'" + [QUOTE_ESCAPE], RawTexts(words))
  {
    hide Tokens, Head, RawTexts;
    var part := "'" + p + "'";
    HeadTokens(eval, words, part + ([QUOTE_ESCAPE] + e));
    TokensQuoted(eval, p, [QUOTE_ESCAPE] + e, "", RawTexts(words));
    assert "" + part == part;
    PlainStep(eval, QUOTE_ESCAPE, e, part, RawTexts(words));
  }

  /** A word with a single quote comes back with the byte that was meant to be
      an escape in the place of the quote. */
  lemma {:induction false} BadWord(active: Active, eval: bool, words: seq<string>, w: string, rest: string)
    requires NoQuotes(words) && BeforeQuote(w) < |w|
    requires Reread(active, eval, Head(words) + (Quoted(w) + rest)).Some?
    ensures var r := Reread(active, eval, Head(words) + (Quoted(w) + rest)).value;
            var n := BeforeQuote(w);
            |r| > |words| && r[|words|].Text? && w[..n] + [QUOTE_ESCAPE] <= r[|words|].text
  {
    hide Reread, Expand, Tokens, Line, Quoted, Head;
    var n := BeforeQuote(w);
    var p := w[..n];
    var tail := "''" + Inside(w[n + 1..]) + "'" + rest;
    BadForm(w, n);
    assert Quoted(w) + rest == "'" + p + "'" + ([QUOTE_ESCAPE] + tail);
    BadExpands(active, words, p, tail);
    BadReread(active, eval, words, p, tail);
  }

  lemma {:induction false} BadReread(active: Active, eval: bool, words: seq<string>, p: string, tail: string)
    requires NoQuotes(words) && NoQuote(p)
    requires Reread(active, eval, Head(words) + ("'" + p + "'" + ([QUOTE_ESCAPE] + tail))).Some?
    ensures var r := Reread(active, eval, Head(words) + ("'" + p + "'" + ([QUOTE_ESCAPE] + tail))).value;
            |r| > |words| && r[|words|].Text? && p + [QUOTE_ESCAPE] <= r[|words|].text
  {
    hide Expand, Tokens, Head, Unquote, RawTexts;
    var part := "'" + p + "'";
    BadExpands(active, words, p, tail);
    var e := Expand(active, Plain, tail).value;
    var all := Head(words) + (part + ([QUOTE_ESCAPE] + e));
    assert Expand(active, Plain, Head(words) + (part + ([QUOTE_ESCAPE] + tail))) == Some(all);
    BadTokens(eval, words, p, e);
    TokensGrow(eval, e, part + [QUOTE_ESCAPE], RawTexts(words));
    var ts := Tokens(all, eval, "", []).value;
    BadUnquoted(p, ts[|words|].text);
  }

  lemma {:induction false} BadUnquoted(p: string, text: string)
    requires NoQuote(p)
    requires "'" + p + "'" + [QUOTE_ESCAPE] <= text
    ensures p + [QUOTE_ESCAPE] <= Unquote(text)
  {
    var part := "'" + p + "'";
    var more := text[|part| + 1..];
    assert text == part + ([QUOTE_ESCAPE] + more);
    UnquotedPart(p, [QUOTE_ESCAPE] + more);
    assert ([QUOTE_ESCAPE] + more)[0] == QUOTE_ESCAPE && ([QUOTE_ESCAPE] + more)[1..] == more;
    assert Unquoted(Plain, [QUOTE_ESCAPE] + more) == [QUOTE_ESCAPE] + Unquoted(Plain, more);
    assert Unquote(text) == p + [QUOTE_ESCAPE] + Unquoted(Plain, more);
  }

  /** The line behind word j. */
  function Behind(words: seq<string>, j: nat): string
    requires j < |words|
  {
    var k := |words| - 1;
    if j == k then "" else Behind(words[..k], j) + " " + Quoted(words[k])
  }

  lemma {:induction false} LineAround(words: seq<string>, j: nat)
    requires j < |words|
    ensures Line(words) == Head(words[..j]) + (Quoted(words[j]) + Behind(words, j))
    decreases words
  {
    hide Quoted;
    var k := |words| - 1;
    if j == k {
      assert Quoted(words[j]) + "" == Quoted(words[j]);
      if k == 0 {
        assert "" + Quoted(words[0]) == Quoted(words[0]);
      }
    } else {
      hide Head;
      LineAround(words[..k], j);
      assert words[..k][..j] == words[..j];
      var h, q, b, l := Head(words[..j]), Quoted(words[j]), Behind(words[..k], j), Quoted(words[k]);
      assert h + (q + b) + " " + l == h + (q + (b + " " + l));
    }
  }

  /** Words are read back as they are exactly when no single quote is in them,
      whatever else they contain and whatever variables and programs there are. */
  lemma {:induction false} QuotingRoundTrip(active: Active, eval: bool, words: seq<string>)
    requires forall i :: 0 <= i < |words| ==> words[i] != ""
    ensures Reread(active, eval, Line(words)) == Some(Texts(words)) <==>
      forall i :: 0 <= i < |words| ==> NoQuote(words[i])
  {
    if j: nat :| j < |words| && !NoQuote(words[j]) && forall i :: 0 <= i < j ==> NoQuote(words[i]) {
      BadWordIsLost(active, eval, words, j);
    } else {
      FirstBad(words, 0);
      WordsComeBack(active, eval, words);
    }
  }

  lemma {:induction false} FirstBad(words: seq<string>, k: nat)
    requires k <= |words|
    requires forall i :: 0 <= i < k ==> NoQuote(words[i])
    requires forall j :: 0 <= j < |words| && (forall i :: 0 <= i < j ==> NoQuote(words[i])) ==> NoQuote(words[j])
    ensures forall i :: 0 <= i < |words| ==> NoQuote(words[i])
    decreases |words| - k
  {
    if k < |words| {
      FirstBad(words, k + 1);
    }
  }

  lemma {:induction false} BadWordIsLost(active: Active, eval: bool, words: seq<string>, j: nat)
    requires forall i :: 0 <= i < |words| ==> words[i] != ""
    requires j < |words| && !NoQuote(words[j]) && forall i :: 0 <= i < j ==> NoQuote(words[i])
    ensures Reread(active, eval, Line(words)) != Some(Texts(words))
  {
    hide Reread, Head, Line, Behind, Quoted;
    var w := words[j];
    var n := BeforeQuote(w);
    LineAround(words, j);
    if Reread(active, eval, Line(words)).Some? {
      BadWord(active, eval, words[..j], w, Behind(words, j));
      var r := Reread(active, eval, Line(words)).value;
      assert (w[..n] + [QUOTE_ESCAPE])[n] == QUOTE_ESCAPE;
      assert r[j].text[n] == QUOTE_ESCAPE && w[n] == '\'';
      assert r[j] != Texts(words)[j];
    }
  }
}
