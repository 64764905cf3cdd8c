/** Laws of whole runs of the interpreter. */
module ExecutionLaws {
  import opened CommandTree
  import opened Execution

  // ------------------------------------------------ runs that start outside loops

  /** Whatever it runs, through backquotes, Execute and scripts: a program that
      starts outside of any loop ends in a value or in Quit, with the counters
      as it found them. */
  lemma {:induction false} ProgramsEndCleanly<W>(o: Oracle<W>, s: State<W>, p: Program)
    requires s.loop == 0
    ensures var r := Read(o, s, p);
            && (r.outcome.Value? || r.outcome.Quit?)
            && r.state.loop == 0 && r.state.indent == s.indent
  {
    assert Keeps(s, Read(o, s, p));
  }

  /** A termination that is raised is the last event, or it is at once ended,
      with the same status, by the program's reader or by an else clause. */
  predicate Propagates(log: seq<Event>) {
    forall i :: 0 <= i < |log| && log[i].Raised? ==> PropagatesAt(log, i)
  }

  predicate PropagatesAt(log: seq<Event>, i: nat)
    requires i < |log| && log[i].Raised?
  {
    i + 1 < |log| ==> log[i + 1] == Stopped(log[i].status) || log[i + 1] == Absorbed(log[i].status)
  }

  lemma {:induction false} FlightPropagates(log: seq<Event>)
    requires !FlightOf(log).Violated?
    ensures Propagates(log)
    ensures FlightOf(log).Flying? <==> log != [] && log[|log| - 1].Raised?
    ensures FlightOf(log).Flying? ==> log[|log| - 1] == Raised(FlightOf(log).status)
  {
    if log != [] {
      var k := |log| - 1;
      FlightPropagates(log[..k]);
      forall i | 0 <= i < |log| && log[i].Raised? ensures PropagatesAt(log, i) {
        if i < k {
          assert PropagatesAt(log[..k], i);
        }
      }
    }
  }

  /** A run only adds to the log. Between a termination and its end nothing
      runs, at any depth; and a run that ends in a termination was ended by the
      last one that was raised, with its status. */
  lemma {:induction false} TerminationPropagates<W>(o: Oracle<W>, s: State<W>, c: Command, throwup: bool)
    requires FlightOf(s.log).Clear?
    ensures var r := Exec(o, s, c, throwup);
            && s.log <= r.state.log
            && Propagates(r.state.log)
            && (r.outcome.Terminated? <==> r.state.log != [] && r.state.log[|r.state.log| - 1].Raised?)
            && (r.outcome.Terminated? ==> r.state.log[|r.state.log| - 1] == Raised(r.outcome.status))
  {
    assert Keeps(s, Exec(o, s, c, throwup));
    FlightPropagates(Exec(o, s, c, throwup).state.log);
  }

  // ------------------------------------------------------- sequencing laws

  /** The commands of a list, without the status that the list sets at its end. */
  function Through<W>(o: Oracle<W>, s: State<W>, cs: seq<Command>, rv: int): Run<W>
    decreases cs
  {
    if cs == [] then Run(s, Value(rv))
    else if cs[0].Null? then Through(o, s, cs[1..], rv)
    else
      var r := Exec(o, s, cs[0], true);
      if r.outcome.Value? then Through(o, r.state, cs[1..], r.outcome.rv) else r
  }

  /** A list runs its second part exactly when its first part ends normally;
      once a command ends the list, what follows has no effect at all. */
  lemma {:induction false} ListIsSequential<W>(o: Oracle<W>, s: State<W>, cs: seq<Command>, ds: seq<Command>, rv: int)
    ensures var t := Through(o, s, cs, rv);
            ExecList(o, s, cs + ds, rv) ==
              if t.outcome.Value? then ExecList(o, t.state, ds, t.outcome.rv) else t
    decreases cs
  {
    if cs == [] {
      assert cs + ds == ds;
    } else {
      assert (cs + ds)[1..] == cs[1..] + ds;
      if cs[0].Null? {
        ListIsSequential(o, s, cs[1..], ds, rv);
      } else {
        var r := Exec(o, s, cs[0], true);
        if r.outcome.Value? {
          ListIsSequential(o, r.state, cs[1..], ds, r.outcome.rv);
        }
      }
    }
  }

  lemma {:induction false} QueueIsSequential<W>(o: Oracle<W>, s: State<W>, cs: seq<Command>, ds: seq<Command>)
    ensures var r := Drain(o, s, cs);
            Drain(o, s, cs + ds) == if r.outcome.Value? then Drain(o, r.state, ds) else r
    decreases cs
  {
    if cs == [] {
      assert cs + ds == ds;
    } else {
      assert (cs + ds)[1..] == cs[1..] + ds;
      var r := Exec(o, s, cs[0], true);
      if r.outcome.Value? {
        QueueIsSequential(o, r.state, cs[1..], ds);
      }
    }
  }

  // ------------------------------------------------------------ and and or

  /** `first k1 c1 k2 c2 ...`, nested to the left as the parser does. */
  function Nested(first: Command, ops: seq<(Terminal, Command)>): Command
    decreases |ops|
  {
    var n := |ops| - 1;
    if ops == [] then first else Binary(ops[n].0, Nested(first, ops[..n]), ops[n].1)
  }

  predicate IsChain(ops: seq<(Terminal, Command)>) {
    forall i :: 0 <= i < |ops| ==> ops[i].0.AMP_AMP? || ops[i].0.PIPE_PIPE?
  }

  /** One pass from left to right: an operand is skipped exactly when the value
      so far settles its operator, and never throws for its own value. */
  function Pass<W>(o: Oracle<W>, s: State<W>, ops: seq<(Terminal, Command)>, rv: int): Run<W>
    decreases ops, 1
  {
    if ops == [] then Run(s, Value(rv))
    else if Settles(ops[0].0, rv) then Pass(o, s, ops[1..], rv)
    else Taken(o, s, ops, rv)
  }

  /** The first operand is run. A null one leaves the value as it is. */
  function Taken<W>(o: Oracle<W>, s: State<W>, ops: seq<(Terminal, Command)>, rv: int): Run<W>
    requires ops != []
    decreases ops, 0
  {
    if ops[0].1.Null? then Pass(o, s.(status := rv), ops[1..], rv)
    else
      var r := Exec(o, s, ops[0].1, false);
      if r.outcome.Value? then Pass(o, Noted(ops[0].0, r), ops[1..], r.outcome.rv) else r
  }

  /** The state behind an operand that was run: the status is written only when
      the operand leaves its operator open. */
  function Noted<W>(k: Terminal, r: Run<W>): State<W>
    requires r.outcome.Value?
  {
    if Settles(k, r.outcome.rv) then r.state else r.state.(status := r.outcome.rv)
  }

  /** Nothing settles the operator behind a null command. */
  function Operands<W>(o: Oracle<W>, s: State<W>, first: Command, ops: seq<(Terminal, Command)>): Run<W> {
    if first.Null? && ops != [] then Taken(o, s, ops, 0)
    else
      var a := Exec(o, s, first, false);
      if a.outcome.Value? then Pass(o, a.state, ops, a.outcome.rv) else a
  }

  lemma {:induction false} PassSplits<W>(o: Oracle<W>, s: State<W>, ops: seq<(Terminal, Command)>,
      more: seq<(Terminal, Command)>, rv: int)
    ensures var r := Pass(o, s, ops, rv);
            Pass(o, s, ops + more, rv) == if r.outcome.Value? then Pass(o, r.state, more, r.outcome.rv) else r
    decreases ops, 1
  {
    hide FlightOf, Keeps, Exec;
    if ops == [] {
      assert ops + more == more;
    } else {
      assert (ops + more)[1..] == ops[1..] + more;
      if Settles(ops[0].0, rv) {
        PassSplits(o, s, ops[1..], more, rv);
      } else {
        TakenSplits(o, s, ops, more, rv);
      }
    }
  }

  lemma {:induction false} TakenSplits<W>(o: Oracle<W>, s: State<W>, ops: seq<(Terminal, Command)>,
      more: seq<(Terminal, Command)>, rv: int)
    requires ops != []
    ensures var r := Taken(o, s, ops, rv);
            Taken(o, s, ops + more, rv) == if r.outcome.Value? then Pass(o, r.state, more, r.outcome.rv) else r
    decreases ops, 0
  {
    hide FlightOf, Keeps, Exec;
    assert (ops + more)[1..] == ops[1..] + more;
    if ops[0].1.Null? {
      PassSplits(o, s.(status := rv), ops[1..], more, rv);
    } else {
      var r := Exec(o, s, ops[0].1, false);
      if r.outcome.Value? {
        PassSplits(o, Noted(ops[0].0, r), ops[1..], more, r.outcome.rv);
      }
    }
  }

  lemma {:induction false} OperandsSplit<W>(o: Oracle<W>, s: State<W>, first: Command, ops: seq<(Terminal, Command)>,
      more: seq<(Terminal, Command)>)
    requires ops != [] || !first.Null?
    ensures var r := Operands(o, s, first, ops);
            Operands(o, s, first, ops + more) ==
              if r.outcome.Value? then Pass(o, r.state, more, r.outcome.rv) else r
  {
    hide FlightOf, Keeps, Exec, Pass, Taken;
    if first.Null? {
      TakenSplits(o, s, ops, more, 0);
    } else {
      var a := Exec(o, s, first, false);
      if a.outcome.Value? {
        PassSplits(o, a.state, ops, more, a.outcome.rv);
      }
    }
  }

  /** The value of a chain that may throw: only a failure that the last operator
      is `||` for, so that every operand behind it has failed too. */
  function Thrown<W>(r: Run<W>, k: Terminal, throwup: bool): Run<W> {
    if k.PIPE_PIPE? && r.outcome.Value? && r.outcome.rv != 0 && throwup && r.state.exit
    then Run(Logged(r.state, Raised(r.outcome.rv)), Terminated(r.outcome.rv))
    else r
  }

  /** The nested commands of a chain, each run with its own throwup, are one pass
      over its operands. */
  lemma {:induction false} ChainIsPass<W>(o: Oracle<W>, s: State<W>, first: Command, ops: seq<(Terminal, Command)>,
      throwup: bool)
    requires IsChain(ops) && ops != []
    ensures Exec(o, s, Nested(first, ops), throwup) ==
      Thrown(Operands(o, s, first, ops), ops[|ops| - 1].0, throwup)
    decreases |ops|
  {
    hide FlightOf, Keeps, Exec, Operands;
    var n := |ops| - 1;
    var left := Nested(first, ops[..n]);
    assert ops[..n] + [ops[n]] == ops;
    if n == 0 {
      OneOperator(o, s, first, ops[0], throwup);
      assert ops == [ops[0]];
    } else {
      ChainIsPass(o, s, first, ops[..n], false);
      OperandsSplit(o, s, first, ops[..n], [ops[n]]);
      OneOperator(o, s, left, ops[n], throwup);
      OperandsSplit(o, s, left, [], [ops[n]]);
      NoOperator(o, s, left);
      assert [] + [ops[n]] == [ops[n]];
    }
  }

  lemma {:induction false} NoOperator<W>(o: Oracle<W>, s: State<W>, c: Command)
    ensures Operands(o, s, c, []) == Exec(o, s, c, false)
  {
    hide FlightOf, Keeps, Exec;
  }

  lemma {:induction false} OneOperator<W>(o: Oracle<W>, s: State<W>, left: Command, op: (Terminal, Command),
      throwup: bool)
    requires IsChain([op])
    ensures Exec(o, s, Binary(op.0, left, op.1), throwup) == Thrown(Operands(o, s, left, [op]), op.0, throwup)
  {
    hide FlightOf, Keeps;
    var r := Exec(o, s, left, false);
    var c := Binary(op.0, left, op.1);
    assert [op][0] == op && [op][1..] == [];
    assert op.0.AMP_AMP? || op.0.PIPE_PIPE?;
    assert Exec(o, s, c, throwup) == ExecChain(o, s, c, throwup);
    if r.outcome.Value? && (left.Null? || !Settles(op.0, r.outcome.rv)) {
      assert Operands(o, s, left, [op]) == Taken(o, r.state, [op], r.outcome.rv);
      OneTaken(o, r.state, op, r.outcome.rv);
      var q := Exec(o, r.state, op.1, false);
      assert op.1.Null? ==> q == Run(r.state, Value(0));
      assert left.Null? ==> r == Run(s, Value(0));
    } else if r.outcome.Value? {
      assert Pass(o, r.state, [op], r.outcome.rv) == Pass(o, r.state, [], r.outcome.rv) == r;
    } else {
      assert !left.Null?;
    }
  }

  lemma {:induction false} OneTaken<W>(o: Oracle<W>, s: State<W>, op: (Terminal, Command), rv: int)
    ensures Taken(o, s, [op], rv) ==
      if op.1.Null? then Run(s.(status := rv), Value(rv))
      else
        var r := Exec(o, s, op.1, false);
        if r.outcome.Value? then Run(Noted(op.0, r), r.outcome) else r
  {
    hide FlightOf, Keeps, Exec;
    assert [op][0] == op && [op][1..] == [];
  }

  predicate AllOf(k: Terminal, ops: seq<(Terminal, Command)>) {
    forall i :: 0 <= i < |ops| ==> ops[i].0 == k
  }

  /** When the last operator is `&&`, throwup makes no difference: a chain throws
      only what one of its operands throws. */
  lemma {:induction false} AndNeverThrows<W>(o: Oracle<W>, s: State<W>, first: Command, ops: seq<(Terminal, Command)>,
      throwup: bool)
    requires IsChain(ops) && ops != [] && ops[|ops| - 1].0.AMP_AMP?
    ensures Exec(o, s, Nested(first, ops), throwup) == Operands(o, s, first, ops)
  {
    hide FlightOf, Keeps, Exec, Operands;
    ChainIsPass(o, s, first, ops, throwup);
  }

  /** When it is `||`, the chain throws exactly what an operand throws, and its
      own value when that is a failure and {exit} is set. */
  lemma {:induction false} OrThrows<W>(o: Oracle<W>, s: State<W>, first: Command, ops: seq<(Terminal, Command)>, k: int)
    requires IsChain(ops) && ops != [] && ops[|ops| - 1].0.PIPE_PIPE?
    ensures var r := Operands(o, s, first, ops);
            Exec(o, s, Nested(first, ops), true).outcome == Terminated(k) <==>
              r.outcome == Terminated(k) || (r.outcome == Value(k) && k != 0 && r.state.exit)
  {
    hide FlightOf, Keeps, Exec, Operands;
    ChainIsPass(o, s, first, ops, true);
  }

  /** A chain of one operator stops at the first operand that settles it: what
      follows is not run and has no effect on anything. */
  lemma {:induction false} ChainStops<W>(o: Oracle<W>, s: State<W>, k: Terminal, first: Command,
      ops: seq<(Terminal, Command)>, more: seq<(Terminal, Command)>, throwup: bool)
    requires IsChain(ops + more) && AllOf(k, ops + more) && more != []
    requires ops != [] || !first.Null?
    ensures var r := Operands(o, s, first, ops);
            (!r.outcome.Value? || Settles(k, r.outcome.rv)) ==>
              Exec(o, s, Nested(first, ops + more), throwup) == r
  {
    hide FlightOf, Keeps, Exec, Operands;
    ChainIsPass(o, s, first, ops + more, throwup);
    OperandsSplit(o, s, first, ops, more);
    var r := Operands(o, s, first, ops);
    assert forall i :: 0 <= i < |more| ==> more[i] == (ops + more)[|ops| + i];
    if r.outcome.Value? && Settles(k, r.outcome.rv) {
      SettledPass(o, r.state, k, more, r.outcome.rv);
    }
  }

  lemma {:induction false} SettledPass<W>(o: Oracle<W>, s: State<W>, k: Terminal, ops: seq<(Terminal, Command)>,
      rv: int)
    requires AllOf(k, ops) && Settles(k, rv)
    ensures Pass(o, s, ops, rv) == Run(s, Value(rv))
    decreases ops
  {
    if ops != [] {
      SettledPass(o, s, k, ops[1..], rv);
    }
  }

  function Concat(p: Program, q: Program): Program {
    match p
    case Done => q
    case Batch(cs, rest) => Batch(cs, Concat(rest, q))
  }

  /** A program that a termination ends returns its status, however the input
      goes on; the rest of it is not run. */
  lemma {:induction false} TerminatedProgramStops<W>(o: Oracle<W>, s: State<W>, p: Program, q: Program, k: int)
    requires RunProgram(o, s.(status := 0), p).outcome == Terminated(k)
    ensures Read(o, s, Concat(p, q)) == Read(o, s, p)
    ensures Read(o, s, p).outcome == Value(k) && Read(o, s, p).state.status == k
  {
    ProgramIsSequential(o, s.(status := 0), p, q);
  }

  lemma {:induction false} ProgramIsSequential<W>(o: Oracle<W>, s: State<W>, p: Program, q: Program)
    ensures var r := RunProgram(o, s, p);
            RunProgram(o, s, Concat(p, q)) == if r.outcome.Value? then RunProgram(o, r.state, q) else r
    decreases p
  {
    if p.Batch? {
      var r := Drain(o, s, p.commands);
      if r.outcome.Value? {
        ProgramIsSequential(o, r.state, p.rest, q);
      }
    }
  }

  // -------------------------------------------------------------- control_c

  /** The command does something, so that it polls control_c. */
  predicate Polls(c: Command) {
    match c
    case Null => false
    case Word(_, _) => true
    case Binary(_, l, _) => Polls(l)
    case Block(_, _, _, _) => true
    case If(cls, _) => cls != []
  }

  /** Once control_c is set, every command ends at once and runs nothing. */
  lemma {:induction false} InterruptedRunsNothing<W>(o: Oracle<W>, s: State<W>, c: Command, throwup: bool)
    requires s.polls == 0 && Polls(c)
    ensures Exec(o, s, c, throwup) == Run(Logged(s, Raised(INTERRUPTED)), Terminated(INTERRUPTED))
    decreases c
  {
    if c.Binary? {
      InterruptedRunsNothing(o, s, c.left, c.kind.PIPE? && throwup);
    }
  }
}
