/** Runs of small scripts, where the shell does not do what it may seem to. */
module ExecutionExamples {
  import opened CommandTree
  import opened Execution
  import opened ExecutionLaws
  import opened IfLaws

  /** A world with no variables, in which nothing expands to a program and {exit}
      is set. "false" comes to 1, any other command to 0; the condition of the
      line "If 0" is false, any other is true; Exit exits with status 1. */
  function Plain(): Oracle<()> {
    Oracle(
      (w, text) => Expansion([], None),
      (w, text) => (w, Returns(if text == "false" then 1 else 0, true)),
      (w, text) => (w, Ready([text])),
      (w, begin, end) => (w, Ready([begin])),
      (w, text) => (w, Gives(0, true)),
      (w, k, text) => (w, if text == "If 0" then 0 else 1),
      (w, text) => (w, Some(1)),
      (w, begin, word) => (w, None))
  }

  function Fresh(polls: nat): State<()> {
    State(0, 0, true, 0, polls, [], ())
  }

  lemma {:induction false} Starts(s: State<()>, text: string)
    ensures Begin(Plain(), s, text) == Run(s.(log := s.log + [Ran(text)]), Value(0))
    ensures EnterElse(Plain(), s, text) == (Begin(Plain(), s, text), false)
    ensures EnterBlock(Plain(), s, text, "End") == (Begin(Plain(), s, text), Ready([text]))
  {
    hide FlightOf, Keeps;
    assert Expand(Plain(), Logged(s, Ran(text)), [], None) == Run(Logged(s, Ran(text)), Value(0));
  }

  lemma {:induction false} Simple(s: State<()>, text: string, throwup: bool)
    requires s.polls > 0 && s.exit
    ensures Exec(Plain(), s, Word(COMMAND, text), throwup) ==
      SetStatus(s.(polls := s.polls - 1, log := s.log + [Ran(text)]), if text == "false" then 1 else 0, throwup)
  {
    hide FlightOf, Keeps;
    Starts(Poll(s).state, text);
  }

  /** The comment at command.cpp:548-549 says that `true && false` exits. It does
      not, while `false || false` does. */
  lemma {:induction false} FailedAndGoesOn()
    ensures var yes, no := Word(COMMAND, "true"), Word(COMMAND, "false");
            && Exec(Plain(), Fresh(2), Binary(AMP_AMP, yes, no), true).outcome == Value(1)
            && Exec(Plain(), Fresh(2), Binary(PIPE_PIPE, no, no), true).outcome == Terminated(1)
  {
    hide FlightOf, Keeps;
    var yes, no := Word(COMMAND, "true"), Word(COMMAND, "false");
    Simple(Fresh(2), "true", false);
    Simple(Fresh(2), "false", false);
    Simple(Exec(Plain(), Fresh(2), yes, false).state, "false", false);
    Simple(Exec(Plain(), Fresh(2), no, false).state, "false", false);
  }

  const EXIT_COMMAND := Word(EXIT, "Exit")

  function IfElse(condition: string): Command {
    If([Clause(IF, [EXIT_COMMAND], condition), Clause(ELSE, [EXIT_COMMAND], "Else")], "End")
  }

  lemma {:induction false} ExitTerminates(s: State<()>, cl: Clause)
    requires s.polls > 0 && s.exit && cl.children == [EXIT_COMMAND]
    ensures BodyRun(Plain(), s, cl) ==
      Run(s.(polls := s.polls - 1, status := 0, log := s.log + [Ran("Exit"), Raised(1)]), Terminated(1))
  {
    hide FlightOf, Keeps;
    var s1 := Indented(s, 0);
    var c := EXIT_COMMAND;
    Starts(Poll(s1).state, "Exit");
    assert ExecList(Plain(), s1, cl.children, 0) == Exec(Plain(), s1, c, true);
    assert Exec(Plain(), s1, c, true) == ExecEvaluated(Plain(), Poll(s1).state, EXIT, "Exit", true);
    assert (s.log + [Ran("Exit")]) + [Raised(1)] == s.log + [Ran("Exit"), Raised(1)];
  }

  lemma {:induction false} ExitInElse()
    ensures Exec(Plain(), Fresh(4), IfElse("If 0"), true) ==
      Run(Fresh(4).(polls := 1, log := [Ran("If 0"), Ran("Else"), Ran("Exit"), Raised(1), Absorbed(1)]), Value(0))
  {
    hide FlightOf, Keeps;
    var c := IfElse("If 0");
    var f := ExecFirst(Plain(), Poll(Fresh(4)).state, c.clauses[0], "End");
    Starts(Poll(Fresh(4)).state, "If 0");
    var s := Fresh(4).(polls := 3, log := [Ran("If 0")]);
    assert [] + [Ran("If 0")] == [Ran("If 0")];
    assert f == (Run(s, Value(0)), Locals(0, 0, false));
    var s1 := s.(polls := 2, log := [Ran("If 0"), Ran("Else")]);
    assert s.log + [Ran("Else")] == s1.log;
    assert "Else"[0] != "If 0"[0];
    Starts(Poll(s).state, "Else");
    ExitTerminates(s1, c.clauses[1]);
    var g := ExecElse(Plain(), Poll(s).state, c.clauses[1], f.1);
    assert g == ElseBody(BodyRun(Plain(), s1, c.clauses[1]), Locals(0, 0, true));
    assert c.clauses[1..] == [c.clauses[1]];
  }

  lemma {:induction false} ExitInIf()
    ensures Exec(Plain(), Fresh(4), IfElse("If 1"), true) ==
      Run(Fresh(4).(polls := 2, log := [Ran("If 1"), Ran("Exit"), Raised(1)]), Terminated(1))
  {
    hide FlightOf, Keeps;
    var c := IfElse("If 1");
    var s1 := Fresh(4).(polls := 3, log := [Ran("If 1")]);
    Starts(Poll(Fresh(4)).state, "If 1");
    ExitTerminates(s1, c.clauses[0]);
    var f := ExecFirst(Plain(), Poll(Fresh(4)).state, c.clauses[0], "End");
    assert [] + [Ran("If 1")] == s1.log;
    assert "If 1"[3] != "If 0"[3];
    assert f.0 == BodyRun(Plain(), s1, c.clauses[0]);
  }

  /** Exit in an else clause does not leave the script: the If ends with status
      0 and the next command runs. The same Exit in the first clause does. */
  lemma {:induction false} ExitInElseGoesOn()
    ensures var r := Drain(Plain(), Fresh(4), [IfElse("If 0"), Word(COMMAND, "next")]);
            && r.outcome == Value(0)
            && r.state.log == [Ran("If 0"), Ran("Else"), Ran("Exit"), Raised(1), Absorbed(1), Ran("next")]
    ensures var r := Drain(Plain(), Fresh(4), [IfElse("If 1"), Word(COMMAND, "next")]);
            && r.outcome == Terminated(1)
            && r.state.log == [Ran("If 1"), Ran("Exit"), Raised(1)]
  {
    hide FlightOf, Keeps;
    ExitInElse();
    ExitInIf();
    var next := Word(COMMAND, "next");
    var s := Exec(Plain(), Fresh(4), IfElse("If 0"), true).state;
    Simple(s, "next", true);
    QueueIsSequential(Plain(), Fresh(4), [IfElse("If 0")], [next]);
    QueueIsSequential(Plain(), Fresh(4), [IfElse("If 1")], [next]);
  }
}
