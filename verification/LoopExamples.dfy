/** Loops that Break and Continue end or cut short. */
module LoopExamples {
  import opened CommandTree
  import opened Execution
  import opened LoopLaws

  /** A world with one variable. For runs over four words, and the condition of a
      Break or Continue holds when its text is the value of the variable. */
  function Variable(): Oracle<string> {
    Oracle(
      (w, text) => Expansion([], None),
      (w, text) => (w, Returns(0, false)),
      (w, text) => (w, Ready([text])),
      (w, begin, end) => (w, Ready(["a", "b", "c", "d"])),
      (w, text) => (w, Gives(0, false)),
      (w, k, text) => (w, if w == text then 1 else 0),
      (w, text) => (w, None),
      (w, begin, word) => (word, None))
  }

  function After(s: State<string>, text: string): State<string> {
    s.(polls := if s.polls > 0 then s.polls - 1 else 0, log := s.log + [Ran(text)])
  }

  lemma {:induction false} Starts(s: State<string>, text: string)
    ensures Begin(Variable(), s, text) == Run(s.(log := s.log + [Ran(text)]), Value(0))
    ensures EnterBlock(Variable(), s, text, "End") ==
      (Begin(Variable(), s, text), Ready(["a", "b", "c", "d"]))
  {
    hide FlightOf, Keeps;
    assert Expand(Variable(), Logged(s, Ran(text)), [], None) == Run(Logged(s, Ran(text)), Value(0));
  }

  lemma {:induction false} Leaving(s: State<string>, k: Terminal, text: string)
    requires (k.BREAK? || k.CONTINUE?) && s.polls > 0 && s.loop > 0 && !s.exit
    ensures Exec(Variable(), s, Word(k, text), true) ==
      if s.world == text then Run(After(s, text), if k.BREAK? then Break else Continue)
      else Run(After(s, text).(status := 0), Value(0))
  {
    hide FlightOf, Keeps;
    Starts(Poll(s).state, text);
  }

  lemma {:induction false} Echo(s: State<string>)
    requires s.polls > 0 && !s.exit
    ensures Exec(Variable(), s, Word(COMMAND, "echo"), true) == Run(After(s, "echo").(status := 0), Value(0))
  {
    hide FlightOf, Keeps;
    Starts(Poll(s).state, "echo");
  }

  function Commands(): seq<Command> {
    [Word(CONTINUE, "b")] + ([Word(BREAK, "c")] + [Word(COMMAND, "echo")])
  }

  lemma {:induction false} OneMore(s: State<string>, c: Command, cs: seq<Command>)
    requires !c.Null?
    ensures var r := Exec(Variable(), s, c, true);
            ExecList(Variable(), s, [c] + cs, 0) ==
              if r.outcome == Value(0) then ExecList(Variable(), r.state, cs, 0)
              else if r.outcome.Value? then ExecList(Variable(), r.state, cs, r.outcome.rv)
              else r
  {
    hide FlightOf, Keeps, Exec;
    assert ([c] + cs)[1..] == cs;
  }

  lemma {:induction false} NoMore(s: State<string>)
    ensures ExecList(Variable(), s, [], 0) == Run(s.(status := 0), Value(0))
  {
    hide FlightOf, Keeps, Exec;
  }

  /** The commands of a round, by the word of the round. */
  lemma {:induction false} Inside(s: State<string>)
    requires s.polls > (if s.world == "b" then 0 else if s.world == "c" then 1 else 2) && s.loop > 0 && !s.exit
    ensures ExecList(Variable(), s, Commands(), 0) ==
      if s.world == "b" then Run(After(s, "b"), Continue)
      else if s.world == "c" then Run(After(After(s, "b").(status := 0), "c"), Break)
      else Run(After(After(After(s, "b").(status := 0), "c").(status := 0), "echo").(status := 0), Value(0))
  {
    hide FlightOf, Keeps, Exec, ExecList;
    assert "b" != "c" by { assert "b"[0] != "c"[0]; }
    var echo := [Word(COMMAND, "echo")];
    OneMore(s, Word(CONTINUE, "b"), [Word(BREAK, "c")] + echo);
    Leaving(s, CONTINUE, "b");
    if s.world != "b" {
      var s1 := After(s, "b").(status := 0);
      OneMore(s1, Word(BREAK, "c"), echo);
      Leaving(s1, BREAK, "c");
      if s.world != "c" {
        var s2 := After(s1, "c").(status := 0);
        assert echo + [] == echo;
        OneMore(s2, Word(COMMAND, "echo"), []);
        Echo(s2);
        NoMore(After(s2, "echo").(status := 0));
      }
    }
  }

  function Fresh(polls: nat): State<string> {
    State(0, 0, false, 0, polls, [], "")
  }

  /** Break in a Loop ends it, with the value 0. */
  lemma {:induction false} BreakEndsLoop()
    ensures Exec(Variable(), Fresh(3), Block(LOOP, [Word(BREAK, "")], "Loop", "End"), true) ==
      Run(Fresh(0).(log := [Ran("Loop"), Ran("")]), Value(0))
  {
    hide FlightOf, Keeps, Exec, EnterBlock, ExecLoop;
    var cs := [Word(BREAK, "")];
    var s1 := Fresh(2).(log := [Ran("Loop")]);
    Starts(Fresh(2), "Loop");
    assert [] + [Ran("Loop")] == [Ran("Loop")];
    var s2 := s1.(polls := 1, indent := 1, loop := 1);
    Leaving(s2, BREAK, "");
    assert ExecList(Variable(), s2, cs, 0) == Exec(Variable(), s2, cs[0], true);
    var r := Round(Variable(), s1, cs);
    assert [Ran("Loop")] + [Ran("")] == [Ran("Loop"), Ran("")];
    assert r == Run(Fresh(0).(log := [Ran("Loop"), Ran("")]), Break);
    assert AreRounds(Variable(), s1, cs, [r]);
    assert [r][..0] == [];
    LoopIsRounds(Variable(), Fresh(3), cs, "Loop", "End", true, s1, ["a", "b", "c", "d"], [r]);
  }

  /** Continue skips the rest of a round of For, and Break ends the For: of four
      words only the first gets to the last command, and the last no round. */
  lemma {:induction false} ForIsCutShort()
    ensures Exec(Variable(), Fresh(10), Block(FOR, Commands(), "For", "End"), true) ==
      Run(Fresh(0).(world := "c", log :=
            [Ran("For"), Ran("b"), Ran("c"), Ran("echo"), Ran("b"), Ran("b"), Ran("c")]), Value(0))
  {
    hide FlightOf, Keeps, Exec, EnterBlock, ExecFor, ExecList;
    var o, cs, words := Variable(), Commands(), ["a", "b", "c", "d"];
    var s0 := Fresh(9).(log := [Ran("For")]);
    Starts(Fresh(9), "For");
    assert [] + [Ran("For")] == [Ran("For")];
    assert "a"[0] != "b"[0] && "a"[0] != "c"[0] && "b"[0] != "c"[0];
    var r0 := ForRound(o, s0, "For", "a", cs);
    Inside(s0.(polls := 8, world := "a", indent := 1, loop := 1));
    var s1 := Fresh(5).(world := "a", log := [Ran("For"), Ran("b"), Ran("c"), Ran("echo")]);
    assert r0 == Run(s1, Value(0));
    var r1 := ForRound(o, s1, "For", "b", cs);
    Inside(s1.(polls := 4, world := "b", indent := 1, loop := 1));
    var s2 := Fresh(3).(world := "b", log := [Ran("For"), Ran("b"), Ran("c"), Ran("echo"), Ran("b")]);
    assert r1 == Run(s2, Continue);
    var r2 := ForRound(o, s2, "For", "c", cs);
    Inside(s2.(polls := 2, world := "c", indent := 1, loop := 1));
    var rs := [r0, r1, r2];
    assert AreForRounds(o, s0, "For", words, cs, rs);
    ForIsRounds(o, Fresh(10), cs, "For", "End", true, s0, words, rs);
  }
}
