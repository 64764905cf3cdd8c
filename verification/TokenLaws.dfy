/** The line that tokenize leaves behind: the texts of the tokens with a blank
    between them. */
module TokenLaws {
  import opened Quoting

  /** The text of a word before it is unquoted: characters, escaped characters
      and closed quotes. An escape byte with nothing behind it is a character
      that only the end of a line has. */
  predicate IsWord(w: string, eval: bool, last: bool)
    decreases |w|
  {
    w != "" ==>
      && !IsBlank(w[0]) && !IsOperator(w[0], eval)
      && PartLength(w) > 0
      && (w == [ESCAPE] ==> last)
      && IsWord(w[PartLength(w)..], eval, last)
  }

  predicate IsToken(t: Token, eval: bool, last: bool) {
    if t.Text? then t.text != "" && IsWord(t.text, eval, last)
    else t.text != "" && OperatorLength(t.text, eval) == |t.text|
  }

  predicate AreTokens(ts: seq<Token>, eval: bool, last: bool) {
    forall i :: 0 <= i < |ts| ==> IsToken(ts[i], eval, last && i == |ts| - 1)
  }

  /** The line that tokenize builds from its tokens. */
  function Joined(ts: seq<Token>): string {
    if ts == [] then ""
    else if |ts| == 1 then ts[0].text
    else ts[0].text + " " + Joined(ts[1..])
  }

  // ------------------------------------------------------------------ parts

  lemma {:induction false} SpanGrows(s: string, rest: string, close: char, escapes: bool)
    requires SpanTo(s, close, escapes) > 0
    ensures SpanTo(s + rest, close, escapes) == SpanTo(s, close, escapes)
    decreases |s|
  {
    if s[0] != close {
      if escapes && s[0] == ESCAPE {
        assert (s + rest)[2..] == s[2..] + rest;
        SpanGrows(s[2..], rest, close, escapes);
      } else {
        assert (s + rest)[1..] == s[1..] + rest;
        SpanGrows(s[1..], rest, close, escapes);
      }
    }
  }

  lemma {:induction false} SpanShrinks(s: string, close: char, escapes: bool)
    requires SpanTo(s, close, escapes) > 0
    ensures var n := SpanTo(s, close, escapes);
            SpanTo(s[..n], close, escapes) == n
    decreases |s|
  {
    var n := SpanTo(s, close, escapes);
    if s[0] != close {
      if escapes && s[0] == ESCAPE {
        assert s[..n][2..] == s[2..][..n - 2];
        SpanShrinks(s[2..], close, escapes);
      } else {
        assert s[..n][1..] == s[1..][..n - 1];
        SpanShrinks(s[1..], close, escapes);
      }
    }
  }

  /** A part of a word is one whatever follows it, and all by itself. */
  lemma {:induction false} PartGrows(s: string, rest: string)
    requires s != "" && PartLength(s) > 0
    requires s == [ESCAPE] ==> rest == ""
    ensures PartLength(s + rest) == PartLength(s)
  {
    if IsDelimiter(s[0]) {
      assert (s + rest)[1..] == s[1..] + rest;
      SpanGrows(s[1..], rest, s[0], s[0] == '"');
    } else if rest == "" {
      assert s + rest == s;
    }
  }

  lemma {:induction false} PartShrinks(s: string)
    requires s != "" && PartLength(s) > 0
    ensures PartLength(s[..PartLength(s)]) == PartLength(s)
  {
    var n := PartLength(s);
    if IsDelimiter(s[0]) {
      assert s[..n][1..] == s[1..][..n - 1];
      SpanShrinks(s[1..], s[0], s[0] == '"');
    }
  }

  // ------------------------------------------------------------------ words

  lemma {:induction false} WordsConcat(a: string, b: string, eval: bool, last: bool)
    requires IsWord(a, eval, false) && IsWord(b, eval, last)
    ensures IsWord(a + b, eval, last)
    decreases |a|
  {
    if a == "" {
      assert a + b == b;
    } else {
      var n := PartLength(a);
      PartGrows(a, b);
      assert (a + b)[n..] == a[n..] + b;
      assert a + b == [ESCAPE] ==> a == [ESCAPE];
      WordsConcat(a[n..], b, eval, last);
    }
  }

  lemma {:induction false} WordIsRead(w: string, rest: string, eval: bool, scratch: string, tokens: seq<Token>)
    requires IsWord(w, eval, rest == "")
    ensures Tokens(w + rest, eval, scratch, tokens) == Tokens(rest, eval, scratch + w, tokens)
    decreases |w|
  {
    hide PartLength, IsOperator;
    if w == "" {
      assert w + rest == rest && scratch + w == scratch;
    } else {
      var n := PartLength(w);
      var s := w + rest;
      PartGrows(w, rest);
      NoOperator(s, eval);
      assert s[..n] == w[..n] && s[n..] == w[n..] + rest;
      WordIsRead(w[n..], rest, eval, scratch + w[..n], tokens);
      assert scratch + w[..n] + w[n..] == scratch + w;
    }
  }

  lemma {:induction false} NoOperator(s: string, eval: bool)
    requires s != ""
    ensures OperatorLength(s, eval) == 0 <==> !IsOperator(s[0], eval)
  {
  }

  lemma {:induction false} OperatorIsRead(t: string, rest: string, eval: bool, tokens: seq<Token>)
    requires t != "" && OperatorLength(t, eval) == |t|
    requires rest != "" ==> IsBlank(rest[0])
    ensures Tokens(t + rest, eval, "", tokens) == Tokens(rest, eval, "", tokens + [Operator(t)])
  {
    var s := t + rest;
    assert s[0] == t[0] && !IsBlank(t[0]);
    assert OperatorLength(s, eval) == |t| by {
      if |t| == 1 && rest != "" {
        assert s[1] == rest[0] && !IsDoubleOperator(s[0], s[1], eval);
      }
    }
    assert s[..|t|] == t && s[|t|..] == rest;
  }

  lemma {:induction false} LastIsRead(t: Token, eval: bool, tokens: seq<Token>)
    requires IsToken(t, eval, true)
    ensures Tokens(t.text, eval, "", tokens) == Some(tokens + [t])
  {
    hide IsWord, OperatorLength;
    assert t.text + "" == t.text && "" + t.text == t.text;
    if t.Text? {
      WordIsRead(t.text, "", eval, "", tokens);
    } else {
      OperatorIsRead(t.text, "", eval, tokens);
    }
  }

  lemma {:induction false} TokenIsRead(t: Token, rest: string, eval: bool, tokens: seq<Token>)
    requires IsToken(t, eval, false)
    ensures Tokens(t.text + " " + rest, eval, "", tokens) == Tokens(rest, eval, "", tokens + [t])
  {
    hide IsWord, OperatorLength, PartLength;
    assert t.text + " " + rest == t.text + (" " + rest) && "" + t.text == t.text;
    assert (" " + rest)[1..] == rest;
    if t.Text? {
      WordIsRead(t.text, " " + rest, eval, "", tokens);
    } else {
      OperatorIsRead(t.text, " " + rest, eval, tokens);
    }
  }

  lemma {:induction false} JoinedIsRead(ts: seq<Token>, eval: bool, tokens: seq<Token>)
    requires AreTokens(ts, eval, true)
    ensures Tokens(Joined(ts), eval, "", tokens) == Some(tokens + ts)
    decreases |ts|
  {
    hide IsToken, Tokens;
    if ts == [] {
      assert Tokens("", eval, "", tokens) == Some(tokens) by {
        NothingIsRead(eval, tokens);
      }
      assert tokens + ts == tokens;
    } else {
      assert IsToken(ts[0], eval, |ts| == 1);
      if |ts| == 1 {
        LastIsRead(ts[0], eval, tokens);
        assert tokens + ts == tokens + [ts[0]];
      } else {
        TokenIsRead(ts[0], Joined(ts[1..]), eval, tokens);
        forall i | 0 <= i < |ts| - 1 ensures IsToken(ts[1..][i], eval, i == |ts| - 2) {
          assert IsToken(ts[i + 1], eval, i + 1 == |ts| - 1);
        }
        JoinedIsRead(ts[1..], eval, tokens + [ts[0]]);
        assert tokens + [ts[0]] + ts[1..] == tokens + ts;
      }
    }
  }

  lemma {:induction false} NothingIsRead(eval: bool, tokens: seq<Token>)
    ensures Tokens("", eval, "", tokens) == Some(tokens)
  {
  }

  // ---------------------------------------------------------- what is scanned

  /** Scanning only yields such tokens. */
  lemma {:induction false} TokensAreTokens(s: string, eval: bool, scratch: string, tokens: seq<Token>)
    requires Tokens(s, eval, scratch, tokens).Some?
    requires AreTokens(tokens, eval, false) && IsWord(scratch, eval, s == "")
    ensures AreTokens(Tokens(s, eval, scratch, tokens).value, eval, true)
    decreases |s|
  {
    hide IsWord, OperatorLength, PartLength;
    if s == "" {
      PushTokens(tokens, scratch, eval, true);
    } else if IsBlank(s[0]) {
      EmptyWord(eval);
      PushTokens(tokens, scratch, eval, false);
      TokensAreTokens(s[1..], eval, "", Push(tokens, scratch));
    } else if OperatorLength(s, eval) > 0 {
      EmptyWord(eval);
      var n := OperatorLength(s, eval);
      OperatorAlone(s, eval);
      PushTokens(tokens, scratch, eval, false);
      TokensAreTokens(s[n..], eval, "", Push(tokens, scratch) + [Operator(s[..n])]);
    } else {
      var n := PartLength(s);
      PartIsWord(s, eval);
      WordsConcat(scratch, s[..n], eval, s[n..] == "");
      TokensAreTokens(s[n..], eval, scratch + s[..n], tokens);
    }
  }

  lemma {:induction false} EmptyWord(eval: bool)
    ensures IsWord("", eval, false) && IsWord("", eval, true)
  {
  }

  lemma {:induction false} WordIsLast(w: string, eval: bool)
    requires IsWord(w, eval, false)
    ensures IsWord(w, eval, true)
    decreases |w|
  {
    if w != "" {
      WordIsLast(w[PartLength(w)..], eval);
    }
  }

  lemma {:induction false} PushTokens(tokens: seq<Token>, scratch: string, eval: bool, last: bool)
    requires AreTokens(tokens, eval, false) && IsWord(scratch, eval, last)
    ensures AreTokens(Push(tokens, scratch), eval, last)
  {
    hide IsWord, OperatorLength;
    if scratch == "" && tokens != [] && tokens[|tokens| - 1].Text? {
      WordIsLast(tokens[|tokens| - 1].text, eval);
    }
  }

  lemma {:induction false} OperatorAlone(s: string, eval: bool)
    requires OperatorLength(s, eval) > 0
    ensures var n := OperatorLength(s, eval);
            OperatorLength(s[..n], eval) == n
  {
  }

  lemma {:induction false} PartIsWord(s: string, eval: bool)
    requires s != "" && !IsBlank(s[0]) && OperatorLength(s, eval) == 0 && PartLength(s) > 0
    ensures var n := PartLength(s);
            IsWord(s[..n], eval, s[n..] == "")
  {
    var n := PartLength(s);
    NoOperator(s, eval);
    PartShrinks(s);
    assert s[..n][n..] == "";
    EmptyWord(eval);
    assert s[..n] == [ESCAPE] ==> n == 1 && |s| == 1;
  }

  /** The line that tokenize leaves behind has the same tokens. */
  lemma {:induction false} RebuiltLine(s: string, eval: bool)
    requires Tokens(s, eval, "", []).Some?
    ensures var ts := Tokens(s, eval, "", []).value;
            Tokens(Joined(ts), eval, "", []) == Some(ts)
  {
    hide Tokens;
    var ts := Tokens(s, eval, "", []).value;
    EmptyWord(eval);
    TokensAreTokens(s, eval, "", []);
    JoinedIsRead(ts, eval, []);
    assert [] + ts == ts;
  }
}
