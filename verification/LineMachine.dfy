/** phase1: a byte-at-a-time machine that joins escaped lines and strips
    comments, and a reading of the whole input that it agrees with. */
module LineMachine {

  const ESCAPE: char := '\U{b6}'

  predicate IsNewline(c: char) {
    c == '\r' || c == '\n'
  }

  // ------------------------------------------------------------- the machine

  /** The states, numbered so that st - 1 leaves an escape. */
  const TEXT := 0
  const TEXT_ESC := 1
  const COMMENT := 2
  const COMMENT_ESC := 3
  const VSTRING := 4
  const VSTRING_ESC := 5
  const DSTRING := 6
  const DSTRING_ESC := 7
  const SSTRING := 8
  const SSTRING_ESC := 9
  const ESTRING := 10
  const ESTRING1 := 11
  const ESTRING1_ESC := 12
  const ESTRING2 := 13
  const ESTRING2_ESC := 14
  const ESTRING3 := 15
  const FSTRING := 16
  const FSTRING_ESC := 17
  const BSTRING := 18
  const BSTRING_ESC := 19
  const STATES := 20

  predicate IsEscapeState(st: nat) {
    || st == TEXT_ESC || st == VSTRING_ESC || st == DSTRING_ESC || st == SSTRING_ESC
    || st == ESTRING1_ESC || st == ESTRING2_ESC || st == FSTRING_ESC || st == BSTRING_ESC
  }

  function TextNext(c: char): (st: nat)
    ensures st < STATES
  {
    if c == '#' then COMMENT
    else if c == ESCAPE then TEXT_ESC
    else if c == '{' then VSTRING
    else if c == '"' then DSTRING
    else if c == '\'' then SSTRING
    else if c == '`' then ESTRING
    else if c == '/' then FSTRING
    else if c == '\\' then BSTRING
    else TEXT
  }

  /** Inside a string: its end, an escape, or more of it. */
  function StringNext(c: char, end: char, st: nat): (st': nat)
    requires st + 1 < STATES
    ensures st' < STATES
  {
    if c == end then TEXT else if c == ESCAPE then st + 1 else st
  }

  /** The next state, when c is not a newline. */
  function Next(st: nat, c: char): (st': nat)
    requires st < STATES
    ensures st' < STATES
  {
    if st == TEXT then TextNext(c)
    else if st == COMMENT then if c == ESCAPE then COMMENT_ESC else COMMENT
    else if st == COMMENT_ESC || st == TEXT_ESC || st == DSTRING_ESC || st == ESTRING1_ESC || st == ESTRING2_ESC
    then st - 1
    else if st == SSTRING || st == SSTRING_ESC then StringNext(c, '\'', SSTRING)
    else if st == FSTRING || st == FSTRING_ESC then StringNext(c, '/', FSTRING)
    else if st == BSTRING || st == BSTRING_ESC then StringNext(c, '\\', BSTRING)
    else if st == VSTRING || st == VSTRING_ESC then StringNext(c, '}', VSTRING)
    else if st == DSTRING then StringNext(c, '"', DSTRING)
    else if st == ESTRING then if c == '`' then ESTRING2 else StringNext(c, '`', ESTRING1)
    else if st == ESTRING1 then StringNext(c, '`', ESTRING1)
    else if st == ESTRING2 then
      if c == '`' then ESTRING3 else if c == ESCAPE then ESTRING2_ESC else ESTRING2
    else if c == '`' then TEXT
    else TextNext(c)
  }

  /** The fields, and the lines that were handed on. */
  datatype Memory = Memory(scratch: string, st: nat, multiline: bool, line: int, lines: seq<string>)

  function Flushed(m: Memory): Memory {
    m.(multiline := false, scratch := "",
       lines := if m.scratch == "" then m.lines else m.lines + [m.scratch])
  }

  /** The scratch ends with the escape byte whenever an escape is pending. */
  predicate Sane(m: Memory) {
    && m.st < STATES
    && (IsEscapeState(m.st) ==> m.scratch != "" && m.scratch[|m.scratch| - 1] == ESCAPE)
  }

  /** One byte. */
  function Step(m: Memory, c: char): (m': Memory)
    requires Sane(m)
    ensures Sane(m')
  {
    if IsNewline(c) then
      if m.st == COMMENT_ESC then m.(multiline := true, line := m.line + 1, st := TEXT)
      else if IsEscapeState(m.st) then
        m.(multiline := true, line := m.line + 1, st := m.st - 1, scratch := m.scratch[..|m.scratch| - 1])
      else
        Flushed(m).(line := m.line + 1, st := TEXT)
    else
      var next := Next(m.st, c);
      if m.st == COMMENT || (next == COMMENT && m.st != COMMENT_ESC) then m.(st := next)
      else m.(st := next, scratch := m.scratch + [c])
  }

  function StepAll(m: Memory, input: string): (m': Memory)
    requires Sane(m)
    ensures Sane(m')
    decreases input
  {
    if input == "" then m else StepAll(Step(m, input[0]), input[1..])
  }

  class Phase1 {
    var scratch: string
    var line: int
    var cs: nat
    var multiline: bool
    var lines: seq<string>

    constructor ()
      ensures Contents() == Memory("", TEXT, false, 1, [])
    {
      scratch, line, cs, multiline, lines := "", 1, TEXT, false, [];
    }

    ghost function Contents(): Memory
      reads this
    {
      Memory(scratch, cs, multiline, line, lines)
    }

    method Flush()
      modifies this
      ensures Contents() == Flushed(old(Contents()))
    {
      multiline := false;
      if scratch == "" {
        return;
      }
      lines := lines + [scratch];
      scratch := "";
    }

    /** process, for a byte that ends a line. */
    method ProcessNewline(st: nat) returns (st': nat)
      requires Sane(Contents()) && st == cs
      modifies this
      ensures Contents().(st := st') == Step(old(Contents()), '\n')
    {
      if st == COMMENT_ESC {
        multiline := true;
        line := line + 1;
        return TEXT;
      }
      if IsEscapeState(st) {
        multiline := true;
        scratch := scratch[..|scratch| - 1];
        line := line + 1;
        return st - 1;
      }
      Flush();
      multiline := false;
      line := line + 1;
      return TEXT;
    }

    method Process(c: char, st: nat) returns (st': nat)
      requires Sane(Contents()) && st == cs
      modifies this
      ensures Contents().(st := st') == Step(old(Contents()), c)
    {
      if IsNewline(c) {
        st' := ProcessNewline(st);
        return;
      }
      if st != COMMENT {
        scratch := scratch + [c];
      }
      st' := Next(st, c);
      if st' == COMMENT && st != COMMENT && st != COMMENT_ESC {
        scratch := scratch[..|scratch| - 1];
      }
    }

    method Parse(input: string)
      requires Sane(Contents())
      modifies this
      ensures Contents() == StepAll(old(Contents()), input)
    {
      var i := 0;
      while i < |input|
        invariant i <= |input|
        invariant Sane(Contents())
        invariant StepAll(Contents(), input[i..]) == StepAll(old(Contents()), input)
      {
        assert input[i..][1..] == input[i + 1..];
        cs := Process(input[i], cs);
        i := i + 1;
      }
    }

    method Finish()
      requires Sane(Contents())
      modifies this
      ensures Contents() == Flushed(Step(old(Contents()), '\n'))
    {
      cs := Process('\n', cs);
      Flush();
    }
  }

  lemma {:induction false} StepAllConcat(m: Memory, a: string, b: string)
    requires Sane(m)
    ensures StepAll(m, a + b) == StepAll(StepAll(m, a), b)
    decreases a
  {
    if a == "" {
      assert a + b == b;
    } else {
      assert (a + b)[1..] == a[1..] + b;
      StepAllConcat(Step(m, a[0]), a[1..], b);
    }
  }

  /** How the input is cut into chunks makes no difference. */
  lemma {:induction false} ChunksDoNotMatter(m: Memory, chunks: seq<string>)
    requires Sane(m)
    ensures StepChunks(m, chunks) == StepAll(m, Joined(chunks))
    decreases chunks
  {
    if chunks != [] {
      ChunksDoNotMatter(StepAll(m, chunks[0]), chunks[1..]);
      StepAllConcat(m, chunks[0], Joined(chunks[1..]));
    }
  }

  function StepChunks(m: Memory, chunks: seq<string>): (m': Memory)
    requires Sane(m)
    ensures Sane(m')
    decreases chunks
  {
    if chunks == [] then m else StepChunks(StepAll(m, chunks[0]), chunks[1..])
  }

  function Joined(chunks: seq<string>): string
    decreases chunks
  {
    if chunks == [] then "" else chunks[0] + Joined(chunks[1..])
  }

  // ------------------------------------------------- the input as a whole

  /** What becomes of a byte of the input. */
  datatype Role =
    | Kept
    | EndsLine
    | Joint          // an escape before a newline
    | JoinedNewline  // the newline behind it
    | Comment        // part of a comment
    | Leaked         // the byte after an escape inside a comment

  /** The contexts in which an escape quotes the byte behind it; in the other
      strings it matters only before a newline. */
  predicate Quotes(st: nat) {
    st == TEXT || st == DSTRING || st == ESTRING || st == ESTRING1 || st == ESTRING2 || st == ESTRING3
  }

  /** The context in which the reading goes on behind an escape. */
  function Behind(st: nat): nat {
    if st == ESTRING then ESTRING1 else if st == ESTRING3 then TEXT else st
  }

  /** The contexts: the states in which no escape is pending. */
  predicate IsContext(st: nat) {
    st < STATES && !IsEscapeState(st) && st != COMMENT_ESC
  }

  /** The role of every byte, read with a look at the byte behind an escape. */
  function Roles(st: nat, t: string): (roles: seq<Role>)
    requires IsContext(st)
    ensures |roles| == |t|
    decreases t
  {
    if t == "" then []
    else if IsNewline(t[0]) then [EndsLine] + Roles(TEXT, t[1..])
    else if t[0] == ESCAPE && |t| > 1 && IsNewline(t[1]) then
      [if st == COMMENT then Comment else Joint, JoinedNewline] +
      Roles(if st == COMMENT then TEXT else Behind(st), t[2..])
    else if t[0] == ESCAPE && st == COMMENT then
      if |t| == 1 then [Comment] else [Comment, Leaked] + Roles(COMMENT, t[2..])
    else if t[0] == ESCAPE && Quotes(st) then
      if |t| == 1 then [Kept] else [Kept, Kept] + Roles(Behind(st), t[2..])
    else if t[0] == ESCAPE then [Kept] + Roles(st, t[1..])
    else if st == COMMENT then [Comment] + Roles(COMMENT, t[1..])
    else
      [if Next(st, t[0]) == COMMENT then Comment else Kept] + Roles(Next(st, t[0]), t[1..])
  }

  /** What the lines and the scratch are, given the roles of the bytes. */
  function Play(m: Memory, t: string, roles: seq<Role>): Memory
    requires |roles| == |t|
    decreases t
  {
    if t == "" then m
    else
      Play(PlayOne(m, t[0], roles[0]), t[1..], roles[1..])
  }

  function PlayOne(m: Memory, c: char, role: Role): Memory {
    match role
    case Kept => m.(scratch := m.scratch + [c])
    case Leaked => m.(scratch := m.scratch + [c])
    case EndsLine => Flushed(m).(line := m.line + 1)
    case JoinedNewline => m.(multiline := true, line := m.line + 1)
    case _ => m
  }

  // ------------------------------------------------ the machine plays the roles

  /** All but the state. */
  predicate SameText(a: Memory, b: Memory) {
    a.(st := b.st) == b
  }

  lemma {:induction false} TwoSteps(m: Memory, t: string)
    requires Sane(m) && |t| > 1
    ensures StepAll(m, t) == StepAll(Step(Step(m, t[0]), t[1]), t[2..])
  {
    assert t[1..][0] == t[1] && t[1..][1..] == t[2..];
  }

  /** The state does not matter to the playing. */
  lemma {:induction false} PlayIgnoresState(m: Memory, st: nat, t: string, roles: seq<Role>)
    requires |roles| == |t|
    ensures SameText(Play(m.(st := st), t, roles), Play(m, t, roles))
    decreases t
  {
    if t != "" {
      PlayIgnoresState(PlayOne(m, t[0], roles[0]), st, t[1..], roles[1..]);
      assert PlayOne(m.(st := st), t[0], roles[0]) == PlayOne(m, t[0], roles[0]).(st := st);
    }
  }

  /** An escape and the byte behind it. */
  lemma {:induction false} EscapePlayed(m: Memory, t: string)
    requires IsContext(m.st) && |t| > 1 && t[0] == ESCAPE
    requires IsNewline(t[1]) || m.st == COMMENT || Quotes(m.st)
    ensures var roles := Roles(m.st, t);
            var m2 := Step(Step(m, t[0]), t[1]);
            && IsContext(m2.st) && roles == roles[..2] + Roles(m2.st, t[2..])
            && SameText(PlayOne(PlayOne(m, t[0], roles[0]), t[1], roles[1]), m2)
  {
    var m1 := Step(m, t[0]);
    if m.st != COMMENT {
      assert m1.scratch == m.scratch + [ESCAPE];
      assert m1.scratch[..|m1.scratch| - 1] == m.scratch;
    }
  }

  /** A byte that is not the first of a pair. */
  lemma {:induction false} BytePlayed(m: Memory, t: string)
    requires IsContext(m.st) && t != ""
    requires t[0] == ESCAPE && |t| > 1 ==> !IsNewline(t[1]) && m.st != COMMENT && !Quotes(m.st)
    ensures var role := Roles(m.st, t)[0];
            var m1 := Step(m, t[0]);
            && SameText(PlayOne(m, t[0], role), m1)
            && (t[0] != ESCAPE ==> IsContext(m1.st) && Roles(m.st, t) == [role] + Roles(m1.st, t[1..]))
            && (t[0] == ESCAPE && |t| > 1 ==> Roles(m.st, t) == [role] + Roles(m.st, t[1..]))
  {
  }

  /** The machine is the reading of the whole input: one byte at a time, and
      taking back the escapes that turn out to join lines, it keeps exactly the
      bytes that the reading keeps, in the same lines. */
  lemma {:induction false} MachinePlaysRoles(m: Memory, t: string)
    requires IsContext(m.st)
    ensures SameText(StepAll(m, t), Play(m, t, Roles(m.st, t)))
    decreases t
  {
    if t == "" {
    } else if |t| > 1 && t[0] == ESCAPE && (IsNewline(t[1]) || m.st == COMMENT || Quotes(m.st)) {
      var roles := Roles(m.st, t);
      var m2 := Step(Step(m, t[0]), t[1]);
      EscapePlayed(m, t);
      TwoSteps(m, t);
      assert roles == [roles[0], roles[1]] + roles[2..];
      MachinePlaysRoles(m2, t[2..]);
      var p2 := PlayOne(PlayOne(m, t[0], roles[0]), t[1], roles[1]);
      PlayIgnoresState(m2, p2.st, t[2..], Roles(m2.st, t[2..]));
    } else {
      var roles := Roles(m.st, t);
      var m1 := Step(m, t[0]);
      BytePlayed(m, t);
      assert roles == [roles[0]] + roles[1..];
      if |t| > 1 {
        if t[0] == ESCAPE {
          assert StepAll(m1, t[1..]) == StepAll(m1.(st := m.st), t[1..]);
          m1 := m1.(st := m.st);
        }
        MachinePlaysRoles(m1, t[1..]);
        var p1 := PlayOne(m, t[0], roles[0]);
        PlayIgnoresState(m1, p1.st, t[1..], Roles(m1.st, t[1..]));
      } else {
        assert StepAll(m, t) == StepAll(m1, t[1..]) == m1;
        assert Play(m, t, roles) == PlayOne(m, t[0], roles[0]);
      }
    }
  }

  // ------------------------------------------------------------ conservation

  function Flat(lines: seq<string>): string {
    if lines == [] then "" else Flat(lines[..|lines| - 1]) + lines[|lines| - 1]
  }

  /** Every byte that the machine holds or has handed on, in order. */
  function Bytes(m: Memory): string {
    Flat(m.lines) + m.scratch
  }

  /** The bytes of some roles, in order. */
  function Select(t: string, roles: seq<Role>, leaks: bool): (r: string)
    requires |roles| == |t|
    decreases t
  {
    if t == "" then ""
    else (if roles[0].Kept? || (leaks && roles[0].Leaked?) then [t[0]] else "") + Select(t[1..], roles[1..], leaks)
  }

  lemma {:induction false} PlayedBytes(m: Memory, t: string, roles: seq<Role>)
    requires |roles| == |t|
    ensures Bytes(Play(m, t, roles)) == Bytes(m) + Select(t, roles, true)
    decreases t
  {
    if t == "" {
      assert Bytes(m) + "" == Bytes(m);
    } else {
      var m1 := PlayOne(m, t[0], roles[0]);
      PlayedBytes(m1, t[1..], roles[1..]);
      if roles[0].EndsLine? {
        assert (m.lines + [m.scratch])[..|m.lines|] == m.lines;
        assert Bytes(m1) == Bytes(m);
      }
      assert Bytes(m1) == Bytes(m) + (if roles[0].Kept? || roles[0].Leaked? then [t[0]] else "");
    }
  }

  lemma {:induction false} LeaksAreExtra(t: string, roles: seq<Role>)
    requires |roles| == |t|
    ensures Leaked !in roles ==> Select(t, roles, true) == Select(t, roles, false)
    ensures Leaked in roles ==> |Select(t, roles, true)| > |Select(t, roles, false)|
    ensures |Select(t, roles, true)| >= |Select(t, roles, false)|
    decreases t
  {
    if t != "" {
      LeaksAreExtra(t[1..], roles[1..]);
      assert roles == [roles[0]] + roles[1..];
    }
  }

  /** The lines and the scratch are the input without its newlines, its joining
      escapes and its comments, in order: exactly when no comment has an escape
      before anything but a newline. Such an escape leaks the byte behind it. */
  lemma {:induction false} LinesConserveInput(m: Memory, t: string)
    requires IsContext(m.st)
    ensures var roles := Roles(m.st, t);
            && Bytes(StepAll(m, t)) == Bytes(m) + Select(t, roles, true)
            && (Bytes(StepAll(m, t)) == Bytes(m) + Select(t, roles, false) <==> Leaked !in roles)
  {
    var roles := Roles(m.st, t);
    MachinePlaysRoles(m, t);
    PlayedBytes(m, t, roles);
    LeaksAreExtra(t, roles);
  }

  /** Such an input, and what it leaks. */
  lemma {:induction false} CommentLeaks(t: string)
    requires t == ['#', ESCAPE, 'x', '\n']
    ensures Leaked in Roles(TEXT, t)
    ensures StepAll(Memory("", TEXT, false, 1, []), t).lines == ["x"]
  {
    var m := Memory("", TEXT, false, 1, []);
    assert t[1..] == [ESCAPE, 'x', '\n'] && t[1..][1..] == ['x', '\n'] && t[1..][1..][1..] == ['\n'];
    assert Roles(TEXT, t) == [Comment] + Roles(COMMENT, t[1..]);
    assert Roles(COMMENT, t[1..])[1] == Leaked;
    assert Roles(TEXT, t)[2] == Leaked;
    assert t[1..][1..][1..][1..] == [];
    TwoSteps(m, t);
    assert t[2..] == ['x', '\n'];
    TwoSteps(Step(Step(m, '#'), ESCAPE), t[2..]);
    assert t[2..][2..] == [];
    var m3 := Step(Step(Step(m, '#'), ESCAPE), 'x');
    assert m3.scratch == "" + "x" == "x";
    assert StepAll(m, t) == StepAll(Step(m3, '\n'), []);
  }
}
