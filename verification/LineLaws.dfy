/** What the line machine keeps, by the delimiters alone. */
module LineLaws {
  import opened LineMachine

  /** A pair that opens and closes a string, outside of all others. */
  predicate ArePair(open: char, close: char) {
    || (open == '\'' && close == '\'')
    || (open == '"' && close == '"')
    || (open == '/' && close == '/')
    || (open == '\\' && close == '\\')
    || (open == '{' && close == '}')
    || (open == '`' && close == '`')
  }

  /** The strings in which an escape quotes the byte behind it. */
  predicate EscapesIn(open: char) {
    open == '"' || open == '`'
  }

  /** A body that does not end the string: no closer outside of an escape where
      escapes count, no closer at all elsewhere, and no newline. */
  predicate StaysInside(body: string, close: char, escapes: bool)
    decreases |body|
  {
    body != "" ==>
      && !IsNewline(body[0])
      && if escapes && body[0] == ESCAPE
         then |body| > 1 && !IsNewline(body[1]) && StaysInside(body[2..], close, escapes)
         else body[0] != close && StaysInside(body[1..], close, escapes)
  }

  /** The memory when some text was kept, and the machine is in state st. */
  function Kept(m: Memory, text: string, st: nat): Memory {
    m.(scratch := m.scratch + text, st := st)
  }

  lemma {:induction false} StepFirst(m: Memory, c: char, rest: string)
    requires Sane(m)
    ensures StepAll(m, [c] + rest) == StepAll(Step(m, c), rest)
  {
    assert ([c] + rest)[1..] == rest;
  }

  lemma {:induction false} StepOne(m: Memory, c: char)
    requires Sane(m)
    ensures StepAll(m, [c]) == Step(m, c)
  {
    StepFirst(m, c, "");
    assert [c] + "" == [c];
  }

  /** A byte that is kept, before a text that is kept. */
  lemma {:induction false} KeepsBoth(m: Memory, c: char, rest: string, st: nat)
    requires Sane(m)
    requires var m1 := Step(m, c);
             m1 == Kept(m, [c], m1.st) && StepAll(m1, rest) == Kept(m1, rest, st)
    ensures StepAll(m, [c] + rest) == Kept(m, [c] + rest, st)
  {
    hide Step, StepAll;
    StepFirst(m, c, rest);
    assert m.scratch + [c] + rest == m.scratch + ([c] + rest);
  }

  /** The machine is in a string that escapes do not matter to, whether an escape
      is pending or not. */
  predicate IsIn(st: nat, close: char) {
    || ((st == SSTRING || st == SSTRING_ESC) && close == '\'')
    || ((st == FSTRING || st == FSTRING_ESC) && close == '/')
    || ((st == BSTRING || st == BSTRING_ESC) && close == '\\')
    || ((st == VSTRING || st == VSTRING_ESC) && close == '}')
  }

  lemma {:induction false} RawByte(m: Memory, c: char, close: char)
    requires Sane(m) && IsIn(m.st, close) && !IsNewline(c)
    ensures var m1 := Step(m, c);
            m1 == Kept(m, [c], m1.st) && if c == close then m1.st == TEXT else IsIn(m1.st, close)
  {
  }

  lemma {:induction false} RawString(m: Memory, body: string, close: char)
    requires Sane(m) && IsIn(m.st, close) && !IsNewline(close)
    requires StaysInside(body, close, false)
    ensures StepAll(m, body + [close]) == Kept(m, body + [close], TEXT)
    decreases |body|
  {
    hide Step, StepAll, Sane, IsIn;
    if body == "" {
      assert body + [close] == [close];
      StepOne(m, close);
      RawByte(m, close, close);
    } else {
      RawByte(m, body[0], close);
      RawString(Step(m, body[0]), body[1..], close);
      KeepsBoth(m, body[0], body[1..] + [close], TEXT);
      assert body + [close] == [body[0]] + (body[1..] + [close]);
    }
  }

  /** The same for a string in which escapes count. */
  predicate IsQuotedIn(st: nat, close: char) {
    || (st == DSTRING && close == '"')
    || ((st == ESTRING || st == ESTRING1 || st == ESTRING2) && close == '`')
  }

  lemma {:induction false} QuotedByte(m: Memory, c: char, close: char)
    requires Sane(m) && IsQuotedIn(m.st, close) && !IsNewline(c) && c != close && c != ESCAPE
    ensures Step(m, c) == Kept(m, [c], if m.st == ESTRING then ESTRING1 else m.st)
  {
  }

  lemma {:induction false} QuotedPair(m: Memory, c: char, close: char)
    requires Sane(m) && IsQuotedIn(m.st, close) && !IsNewline(c)
    ensures var m1 := Step(m, ESCAPE);
            && m1 == Kept(m, [ESCAPE], m1.st)
            && Step(m1, c) == Kept(m1, [c], if m.st == ESTRING then ESTRING1 else m.st)
  {
  }

  /** What ends the string, and how the machine takes it. */
  function Closing(st: nat, close: char): string {
    if st == ESTRING2 then [close] + [close] else [close]
  }

  lemma {:induction false} ClosesQuoted(m: Memory, close: char)
    requires Sane(m) && IsQuotedIn(m.st, close) && m.st != ESTRING
    ensures StepAll(m, Closing(m.st, close)) == Kept(m, Closing(m.st, close), TEXT)
  {
    StepOne(m, close);
    if m.st == ESTRING2 {
      StepOne(Step(m, close), close);
      KeepsBoth(m, close, [close], TEXT);
    }
  }

  lemma {:induction false} QuotedString(m: Memory, body: string, close: char)
    requires Sane(m) && IsQuotedIn(m.st, close) && (m.st == ESTRING ==> body != "")
    requires StaysInside(body, close, true)
    ensures StepAll(m, body + Closing(m.st, close)) == Kept(m, body + Closing(m.st, close), TEXT)
    decreases |body|
  {
    hide Step, StepAll;
    var end := Closing(m.st, close);
    if body == "" {
      assert body + end == end;
      ClosesQuoted(m, close);
    } else if body[0] == ESCAPE {
      QuotedPair(m, body[1], close);
      var m1 := Step(m, ESCAPE);
      QuotedString(Step(m1, body[1]), body[2..], close);
      KeepsBoth(m1, body[1], body[2..] + end, TEXT);
      KeepsBoth(m, ESCAPE, [body[1]] + (body[2..] + end), TEXT);
      assert body + end == [ESCAPE] + ([body[1]] + (body[2..] + end));
    } else {
      QuotedByte(m, body[0], close);
      QuotedString(Step(m, body[0]), body[1..], close);
      KeepsBoth(m, body[0], body[1..] + end, TEXT);
      assert body + end == [body[0]] + (body[1..] + end);
    }
  }

  lemma {:induction false} Opens(m: Memory, open: char, close: char)
    requires m.st == TEXT && ArePair(open, close)
    ensures var m1 := Step(m, open);
            && m1 == Kept(m, [open], m1.st)
            && (if EscapesIn(open) then IsQuotedIn(m1.st, close) && m1.st != ESTRING2 else IsIn(m1.st, close))
            && (m1.st == ESTRING <==> open == '`')
  {
  }

  /** Outside of strings, an opener, a body that stays inside, and the closer
      are kept whole, whatever the body holds, a # included, and the machine is
      outside of strings again. */
  lemma {:induction false} StringsAreKept(m: Memory, open: char, body: string, close: char)
    requires m.st == TEXT && ArePair(open, close)
    requires StaysInside(body, close, EscapesIn(open)) && (open == '`' ==> body != "")
    ensures StepAll(m, [open] + body + [close]) == Kept(m, [open] + body + [close], TEXT)
  {
    hide Step, StepAll;
    Opens(m, open, close);
    var m1 := Step(m, open);
    if EscapesIn(open) {
      QuotedString(m1, body, close);
    } else {
      RawString(m1, body, close);
    }
    KeepsBoth(m, open, body + [close], TEXT);
    assert [open] + body + [close] == [open] + (body + [close]);
  }

  lemma {:induction false} OpensTwice(m: Memory)
    requires m.st == TEXT
    ensures var m1 := Step(m, '`');
            && m1 == Kept(m, "`", m1.st)
            && Step(m1, '`') == Kept(m1, "`", ESTRING2)
  {
  }

  /** The same for doubled backquotes. */
  lemma {:induction false} DoubledAreKept(m: Memory, body: string)
    requires m.st == TEXT && StaysInside(body, '`', true)
    ensures StepAll(m, "``" + body + "``") == Kept(m, "``" + body + "``", TEXT)
  {
    hide Step, StepAll;
    OpensTwice(m);
    var m1 := Step(m, '`');
    var end := ['`'] + ['`'];
    QuotedString(Step(m1, '`'), body, '`');
    KeepsBoth(m1, '`', body + end, TEXT);
    KeepsBoth(m, '`', ['`'] + (body + end), TEXT);
    assert "``" + body + "``" == ['`'] + (['`'] + (body + end));
  }

  lemma {:induction false} InDoubled(m: Memory, body: string)
    requires m.st == ESTRING2 && StaysInside(body, '`', true)
    ensures StepAll(m, body + "`") == Kept(m, body + "`", ESTRING3)
    decreases |body|
  {
    if body == "" {
      assert body + "`" == ['`'];
      StepOne(m, '`');
    } else {
      hide Step, StepAll;
      if body[0] == ESCAPE {
        QuotedPair(m, body[1], '`');
        var m1 := Step(m, ESCAPE);
        InDoubled(Step(m1, body[1]), body[2..]);
        KeepsBoth(m1, body[1], body[2..] + "`", ESTRING3);
        KeepsBoth(m, ESCAPE, [body[1]] + (body[2..] + "`"), ESTRING3);
        assert body + "`" == [ESCAPE] + ([body[1]] + (body[2..] + "`"));
      } else {
        QuotedByte(m, body[0], '`');
        InDoubled(Step(m, body[0]), body[1..]);
        KeepsBoth(m, body[0], body[1..] + "`", ESTRING3);
        assert body + "`" == [body[0]] + (body[1..] + "`");
      }
    }
  }

  /** When only one backquote closes them, whatever follows is outside again. */
  lemma {:induction false} HalfClosed(m: Memory, body: string, c: char)
    requires m.st == TEXT && StaysInside(body, '`', true) && c != '`'
    ensures StepAll(m, "``" + body + "`" + [c]) == StepAll(Kept(m, "``" + body + "`", TEXT), [c])
  {
    OpensTwice(m);
    var m1 := Step(m, '`');
    InDoubled(Step(m1, '`'), body);
    hide StepAll;
    KeepsBoth(m1, '`', body + "`", ESTRING3);
    KeepsBoth(m, '`', ['`'] + (body + "`"), ESTRING3);
    assert "``" + body + "`" == ['`'] + (['`'] + (body + "`"));
    StepAllConcat(m, "``" + body + "`", [c]);
    StepOne(Kept(m, "``" + body + "`", ESTRING3), c);
    StepOne(Kept(m, "``" + body + "`", TEXT), c);
  }

  predicate IsDelimiter(c: char) {
    c == '#' || c == '\'' || c == '"' || c == '/' || c == '\\' || c == '{' || c == '`'
  }

  /** Any other byte is kept, and so is an escaped one, whichever it is. */
  lemma {:induction false} BytesAreKept(m: Memory, c: char)
    requires m.st == TEXT && !IsNewline(c)
    ensures !IsDelimiter(c) && c != ESCAPE ==> StepAll(m, [c]) == Kept(m, [c], TEXT)
    ensures StepAll(m, [ESCAPE] + [c]) == Kept(m, [ESCAPE] + [c], TEXT)
  {
    StepOne(m, c);
    StepFirst(m, ESCAPE, [c]);
    StepOne(Step(m, ESCAPE), c);
    assert m.scratch + [ESCAPE] + [c] == m.scratch + ([ESCAPE] + [c]);
  }

  // ---------------------------------------------------------------- comments

  lemma {:induction false} InComment(m: Memory, body: string)
    requires m.st == COMMENT
    requires forall i :: 0 <= i < |body| ==> body[i] != ESCAPE && !IsNewline(body[i])
    ensures StepAll(m, body) == m
    decreases |body|
  {
    if body != "" {
      InComment(m, body[1..]);
    }
  }

  /** A # outside of strings and all behind it, up to the newline, are dropped;
      the newline ends the line. */
  lemma {:induction false} CommentsAreDropped(m: Memory, body: string, newline: char)
    requires m.st == TEXT && (newline == '\n' || newline == '\r')
    requires forall i :: 0 <= i < |body| ==> body[i] != ESCAPE && !IsNewline(body[i])
    ensures StepAll(m, "#" + body) == m.(st := COMMENT)
    ensures StepAll(m, "#" + body + [newline]) == StepAll(m, [newline])
    ensures StepAll(m, [newline]) ==
      Memory("", TEXT, false, m.line + 1, if m.scratch == "" then m.lines else m.lines + [m.scratch])
  {
    StepFirst(m, '#', body);
    assert ['#'] + body == "#" + body;
    InComment(Step(m, '#'), body);
    StepAllConcat(m, "#" + body, [newline]);
    StepOne(m, newline);
    StepOne(m.(st := COMMENT), newline);
  }

  // ------------------------------------------------------------------ joining

  /** An escape before a newline joins the lines: neither is kept, and whatever
      string the machine is in goes on. In a comment the comment ends. */
  lemma {:induction false} EscapedNewlineJoins(m: Memory, newline: char)
    requires newline == '\n' || newline == '\r'
    requires m.st in {TEXT, COMMENT, VSTRING, DSTRING, SSTRING, ESTRING1, ESTRING2, FSTRING, BSTRING}
    ensures StepAll(m, [ESCAPE] + [newline]) ==
      m.(multiline := true, line := m.line + 1, st := if m.st == COMMENT then TEXT else m.st)
  {
    var m1 := Step(m, ESCAPE);
    StepFirst(m, ESCAPE, [newline]);
    StepOne(m1, newline);
    assert m.st != COMMENT ==> m1.scratch[..|m1.scratch| - 1] == m.scratch;
  }

  /** A newline inside a string ends the line and the string all the same. */
  lemma {:induction false} NewlineEndsStrings(m: Memory, open: char, body: string, close: char, newline: char)
    requires m.st == TEXT && ArePair(open, close) && (newline == '\n' || newline == '\r')
    requires forall i :: 0 <= i < |body| ==> body[i] != close && body[i] != ESCAPE && !IsNewline(body[i])
    ensures StepAll(m, [open] + body + [newline]) ==
      Memory("", TEXT, false, m.line + 1, m.lines + [m.scratch + [open] + body])
  {
    var m1 := Step(m, open);
    assert [open] + body + [newline] == [open] + (body + [newline]);
    StepFirst(m, open, body + [newline]);
    UpToNewline(m1, close, body, newline);
    assert m.scratch + [open] + body != "";
  }

  lemma {:induction false} UpToNewline(m: Memory, close: char, body: string, newline: char)
    requires Sane(m) && IsNewline(newline) && m.scratch != ""
    requires (IsIn(m.st, close) && !IsEscapeState(m.st)) || IsQuotedIn(m.st, close)
    requires forall i :: 0 <= i < |body| ==> body[i] != close && body[i] != ESCAPE && !IsNewline(body[i])
    ensures StepAll(m, body + [newline]) ==
      Memory("", TEXT, false, m.line + 1, m.lines + [m.scratch + body])
    decreases |body|
  {
    if body == "" {
      assert body + [newline] == [newline] && m.scratch + body == m.scratch;
      StepOne(m, newline);
    } else {
      assert body + [newline] == [body[0]] + (body[1..] + [newline]);
      StepFirst(m, body[0], body[1..] + [newline]);
      UpToNewline(Step(m, body[0]), close, body[1..], newline);
      assert m.scratch + [body[0]] + body[1..] == m.scratch + body;
    }
  }
}
