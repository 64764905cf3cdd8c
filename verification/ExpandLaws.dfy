/** Which parts of a line are expanded, and what unquoting makes of its parts. */
module ExpandLaws {
  import opened Quoting
  import opened QuotingLaws

  /** The delimiters whose parts are copied whatever they hold. */
  predicate CopiesAll(q: char) {
    q == '\'' || q == '/' || q == '\\'
  }

  /** What starts a variable or a command. */
  predicate IsActive(c: char) {
    c == '{' || c == '`'
  }

  /** A text that neither ends a double-quoted part nor does anything in it. */
  predicate IsQuiet(w: string) {
    forall i :: 0 <= i < |w| ==> w[i] != '"' && w[i] != ESCAPE && !IsActive(w[i])
  }

  function Behind(q: char): Context {
    if q == '\'' then Single else if q == '/' then Slash else Backslash
  }

  lemma {:induction false} CopyStep(active: Active, x: Context, c: char, rest: string)
    requires x.Plain? || x.Double? ==> c != ESCAPE && !IsActive(c)
    ensures Expand(active, x, [c] + rest) == Prefix([c], Expand(active, NextContext(x, c), rest))
  {
    assert ([c] + rest)[0] == c && ([c] + rest)[1..] == rest;
  }

  lemma {:induction false} CopyInside(active: Active, x: Context, w: string, rest: string)
    requires forall i :: 0 <= i < |w| ==>
      NextContext(x, w[i]) == x && (x.Plain? || x.Double? ==> w[i] != ESCAPE && !IsActive(w[i]))
    ensures Expand(active, x, w + rest) == Prefix(w, Expand(active, x, rest))
    decreases |w|
  {
    hide Expand, Prefix, NextContext;
    if w == "" {
      assert w + rest == rest;
      PrefixNothing(Expand(active, x, rest));
    } else {
      var c := w[0];
      assert w + rest == [c] + (w[1..] + rest) && w == [c] + w[1..];
      CopyStep(active, x, c, w[1..] + rest);
      CopyInside(active, x, w[1..], rest);
      PrefixTwice([c], w[1..], Expand(active, x, rest));
    }
  }

  /** A part in single quotes, slashes or backslashes is copied whole: nothing in
      it is expanded. */
  lemma {:induction false} RawPartIsCopied(active: Active, q: char, w: string, rest: string)
    requires CopiesAll(q) && forall i :: 0 <= i < |w| ==> w[i] != q
    ensures Expand(active, Plain, [q] + (w + ([q] + rest))) ==
      Prefix([q] + (w + [q]), Expand(active, Plain, rest))
  {
    CopyStep(active, Plain, q, w + ([q] + rest));
    CopyStep(active, Behind(q), q, rest);
    CopyInside(active, Behind(q), w, [q] + rest);
    hide Expand, Prefix;
    PrefixTwice(w, [q], Expand(active, Plain, rest));
    PrefixTwice([q], w + [q], Expand(active, Plain, rest));
  }

  /** What an active part becomes, and what follows it. */
  function Spliced(active: Active, x: Context, s: string): Option<string> {
    var v := active(s);
    if v.None? || !(1 <= v.value.1 <= |s|) then None
    else Prefix(v.value.0, Expand(active, x, s[v.value.1..]))
  }

  /** Inside double quotes, as outside of quotes, a brace or a backquote is
      expanded, and the part goes on behind it; the rest of it is copied. */
  lemma {:induction false} ActivePartIsExpanded(active: Active, w: string, rest: string)
    requires IsQuiet(w) && rest != "" && IsActive(rest[0])
    ensures Expand(active, Plain, "\"" + (w + rest)) == Prefix("\"" + w, Spliced(active, Double, rest))
    ensures Expand(active, Plain, rest) == Spliced(active, Plain, rest)
  {
    CopyStep(active, Plain, '"', w + rest);
    CopyInside(active, Double, w, rest);
    hide Prefix;
    PrefixTwice("\"", w, Expand(active, Double, rest));
    assert ['"'] == "\"";
  }

  /** Without an active part a double-quoted part is copied too. */
  lemma {:induction false} QuietPartIsCopied(active: Active, w: string, rest: string)
    requires IsQuiet(w)
    ensures Expand(active, Plain, "\"" + (w + ("\"" + rest))) ==
      Prefix("\"" + (w + "\""), Expand(active, Plain, rest))
  {
    CopyStep(active, Plain, '"', w + ("\"" + rest));
    CopyInside(active, Double, w, "\"" + rest);
    CopyStep(active, Double, '"', rest);
    assert ['"'] == "\"";
    hide Expand, Prefix;
    PrefixTwice(w, "\"", Expand(active, Plain, rest));
    PrefixTwice("\"", w + "\"", Expand(active, Plain, rest));
  }

  /** An escape outside of quotes, or inside of double ones, protects the
      character behind it, whichever it is. */
  lemma {:induction false} EscapedIsCopied(active: Active, x: Context, c: char, rest: string)
    requires x.Plain? || x.Double?
    ensures Expand(active, x, [ESCAPE, c] + rest) == Prefix([ESCAPE, c], Expand(active, x, rest))
  {
    var s := [ESCAPE, c] + rest;
    assert s[0] == ESCAPE && s[..2] == [ESCAPE, c] && s[2..] == rest;
  }

  // ------------------------------------------------------------------ unquote

  /** Unquoting one escape outside of quotes: three letters are codes. */
  lemma {:induction false} EscapeIsUnquoted(c: char)
    ensures Unquote([ESCAPE, c]) ==
      [if c == 'n' then '\n' else if c == 't' then '\t' else if c == 'f' then '\U{0c}' else c]
  {
    var s := [ESCAPE, c];
    assert s[0] == ESCAPE && s[2..] == "";
    assert Unquoted(Plain, "") == "";
  }

  lemma {:induction false} UnquoteInside(x: Context, w: string, rest: string)
    requires forall i :: 0 <= i < |w| ==>
      NextContext(x, w[i]) == x && !Dropped(x, w[i]) && (x.Plain? || x.Double? ==> w[i] != ESCAPE)
    ensures Unquoted(x, w + rest) == w + Unquoted(x, rest)
    decreases |w|
  {
    if w == "" {
      assert w + rest == rest;
    } else {
      assert (w + rest)[0] == w[0] && (w + rest)[1..] == w[1..] + rest;
      UnquoteInside(x, w[1..], rest);
      assert [w[0]] + (w[1..] + Unquoted(x, rest)) == w + Unquoted(x, rest);
    }
  }

  /** Single and double quotes go, slashes and backslashes stay. */
  lemma {:induction false} PartIsUnquoted(q: char, w: string, rest: string)
    requires CopiesAll(q) || q == '"'
    requires forall i :: 0 <= i < |w| ==> w[i] != q && (q == '"' ==> w[i] != ESCAPE)
    ensures Unquoted(Plain, [q] + (w + ([q] + rest))) ==
      if q == '\'' || q == '"' then w + Unquoted(Plain, rest) else [q] + w + [q] + Unquoted(Plain, rest)
  {
    var x := if q == '"' then Double else Behind(q);
    var s := [q] + (w + ([q] + rest));
    assert s[0] == q && s[1..] == w + ([q] + rest);
    assert ([q] + rest)[0] == q && ([q] + rest)[1..] == rest;
    UnquoteInside(x, w, [q] + rest);
  }

  /** The same inside of double quotes. */
  lemma {:induction false} EscapeInQuotesIsUnquoted(c: char, rest: string)
    ensures Unquoted(Double, [ESCAPE, c] + rest) ==
      [if c == 'n' then '\n' else if c == 't' then '\t' else if c == 'f' then '\U{0c}' else c] + Unquoted(Double, rest)
  {
    var s := [ESCAPE, c] + rest;
    assert s[0] == ESCAPE && s[1] == c && s[2..] == rest;
  }

  /** An escape at the end of the text stands for itself. */
  lemma {:induction false} LastEscape(active: Active)
    ensures Expand(active, Plain, [ESCAPE]) == Some([ESCAPE])
    ensures Unquote([ESCAPE]) == [ESCAPE]
  {
    assert [ESCAPE][0] == ESCAPE;
  }

  // ---------------------------------------------------------------- scanning

  /** The blanks end a word; letters, digits, underscores, dots and colons are
      the characters that need no quotes. */
  lemma {:induction false} Characters(c: char)
    ensures IsBlank(c) <==> c in " \t\n\r"
    ensures Quoted([c]) == [c] <==>
      c in "ABCDEFGHIJKLMNOPQRSTUVWXYZ" || c in "abcdefghijklmnopqrstuvwxyz" || c in "0123456789" || c in "_.:"
  {
    Letters(c);
    assert [c][..0] == "" && Inside("") == "";
    assert Quoted([c]) != [c] <==> !IsNormal(c) by {
      assert [c][0] == c;
      if !IsNormal(c) {
        assert MustQuote([c]);
        assert |Quoted([c])| > 1;
      }
    }
  }

  lemma {:induction false} Letters(c: char)
    ensures 'A' <= c <= 'Z' <==> c in "ABCDEFGHIJKLMNOPQRSTUVWXYZ"
    ensures 'a' <= c <= 'z' <==> c in "abcdefghijklmnopqrstuvwxyz"
    ensures '0' <= c <= '9' <==> c in "0123456789"
    ensures c in "_.:" <==> c == '_' || c == '.' || c == ':'
    ensures c in " \t\n\r" <==> c == ' ' || c == '\t' || c == '\n' || c == '\r'
  {
  }

  /** The operators of two characters: three of them always, the others only in
      expressions. */
  lemma {:induction false} DoubleOperators(rest: string)
    ensures forall eval :: OperatorLength(">>" + rest, eval) == 2
    ensures forall eval :: OperatorLength([SUM, SUM] + rest, eval) == 2
    ensures forall eval :: OperatorLength([GREATER_EQUAL, GREATER_EQUAL] + rest, eval) == 2
    ensures OperatorLength("+=" + rest, true) == 2 && OperatorLength("-=" + rest, true) == 2
    ensures OperatorLength("=~" + rest, true) == 2 && OperatorLength("!~" + rest, true) == 2
    ensures OperatorLength("+=" + rest, false) == 0 && OperatorLength("<=" + rest, false) == 1
    ensures OperatorLength(">=" + rest, false) == 1 && OperatorLength("==" + rest, false) == 0
  {
  }
}
