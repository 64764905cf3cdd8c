/** The interpreter with its state: the Environment, whose fields the commands
    update in place, and everything that all environments share. */
module Interpreter {
  import opened CommandTree
  import opened Execution

  class Environment {
    var indent: nat
    var loop: nat
    var exit: bool
    var status: int

    constructor (exit: bool)
      ensures indent == 0 && loop == 0 && this.exit == exit && status == 0
    {
      indent, loop, status := 0, 0, 0;
      this.exit := exit;
    }
  }

  class Shell<W(0)> {
    const o: Oracle<W>
    var polls: nat
    var world: W
    ghost var log: seq<Event>

    constructor (o: Oracle<W>, polls: nat, world: W)
      ensures this.o == o && this.polls == polls && this.world == world && log == []
    {
      this.o, this.polls, this.world, log := o, polls, world, [];
    }

    ghost function StateOf(env: Environment): State<W>
      reads this, env
    {
      State(env.indent, env.loop, env.exit, env.status, polls, log, world)
    }

    /** `if (control_c) throw execution_of_input_terminated()`. */
    method Poll(ghost env: Environment) returns (r: Outcome)
      modifies this`polls, this`log
      ensures Run(StateOf(env), r) == Execution.Poll(old(StateOf(env)))
    {
      if polls == 0 {
        log := log + [Raised(INTERRUPTED)];
        return Terminated(INTERRUPTED);
      }
      polls := polls - 1;
      return Value(0);
    }

    /** Environment::status. */
    method Status(env: Environment, i: int, throwup: bool) returns (r: Outcome)
      modifies this`log, env`status
      ensures Run(StateOf(env), r) == SetStatus(old(StateOf(env)), i, throwup)
    {
      if env.status != i {
        env.status := i;
      }
      if throwup && env.exit && i != 0 {
        log := log + [Raised(i)];
        return Terminated(i);
      }
      return Value(i);
    }

    /** What the handlers of exec, eval_exec and begin_end_exec make of r. */
    method Finish(env: Environment, r: Outcome, throwup: bool) returns (r': Outcome)
      modifies this`log, env`status
      ensures Run(StateOf(env), r') == Handle(Run(old(StateOf(env)), r), throwup)
    {
      match r
      case Value(rv) => r' := Status(env, rv, throwup);
      case Failed(k) => r' := Status(env, k, throwup);
      case _ => return r;
    }

    /** expand_vars, as far as it runs programs. */
    method ExpandVars(env: Environment, text: string) returns (r: Outcome)
      modifies this, env
      ensures Run(StateOf(env), r) == (
        var s := old(StateOf(env));
        var x := o.expand(s.world, text);
        Expand(o, s, x.programs, x.failure))
      decreases polls, 1
    {
      hide FlightOf, Execution.Begin, Execution.Read, ExecList;
      var x := o.expand(world, text);
      var i := 0;
      while i < |x.programs|
        invariant i <= |x.programs|
        invariant polls <= old(polls)
        invariant Expand(o, StateOf(env), x.programs[i..], x.failure) ==
          Expand(o, old(StateOf(env)), x.programs, x.failure)
      {
        ghost var s := StateOf(env);
        var indent := env.indent;
        env.indent := indent + 1;
        r := Read(env, x.programs[i]);
        env.indent := indent;
        assert x.programs[i..][1..] == x.programs[i + 1..];
        if !r.Value? {
          return;
        }
        i := i + 1;
      }
      return if x.failure.Some? then Failed(x.failure.value) else Value(0);
    }

    /** read_string, read_file and read_fd. */
    method Read(env: Environment, p: Program) returns (r: Outcome)
      modifies this, env
      ensures Run(StateOf(env), r) == Execution.Read(o, old(StateOf(env)), p)
      decreases polls, 0, p, 1
    {
      r := Status(env, 0, false);
      var q := p;
      ghost var s := StateOf(env);
      while q.Batch?
        invariant polls <= old(polls)
        invariant RunProgram(o, StateOf(env), q) == RunProgram(o, s, p)
        decreases q
      {
        r := Drain(env, q.commands);
        if r.Terminated? {
          var k := r.status;
          var _ := Status(env, k, false);
          log := log + [Stopped(k)];
          return Value(k);
        }
        if !r.Value? {
          return;
        }
        q := q.rest;
      }
      return Value(env.status);
    }

    /** mpw_parser::execute, up to its handler. */
    method Drain(env: Environment, commands: seq<Command>) returns (r: Outcome)
      modifies this, env
      ensures Run(StateOf(env), r) == Execution.Drain(o, old(StateOf(env)), commands)
      decreases polls, 0, commands, 0
    {
      var i := 0;
      while i < |commands|
        invariant i <= |commands|
        invariant polls <= old(polls)
        invariant Execution.Drain(o, StateOf(env), commands[i..]) ==
          Execution.Drain(o, old(StateOf(env)), commands)
      {
        r := Execute(env, commands[i], true);
        assert commands[i..][1..] == commands[i + 1..];
        if !r.Value? {
          return;
        }
        i := i + 1;
      }
      return Value(0);
    }

    method Execute(env: Environment, c: Command, throwup: bool) returns (r: Outcome)
      modifies this, env
      ensures Run(StateOf(env), r) == Exec(o, old(StateOf(env)), c, throwup)
      decreases polls, 0, c, 1
    {
      match c
      case Null => return Value(0);
      case Word(k, text) =>
        r := Poll(env);
        if r.Terminated? {
          return;
        }
        if k.COMMAND? {
          r := ExecuteSimple(env, text, throwup);
        } else if k.ERROR? {
          log := log + [Ran(text)];
          r := Status(env, -3, true);
        } else {
          r := ExecuteEvaluated(env, k, text, throwup);
        }
      case Binary(k, _, _) =>
        if k.PIPE? {
          r := ExecutePipe(env, c, throwup);
        } else {
          r := ExecuteChain(env, c, throwup);
        }
      case Block(k, cs, b, e) => r := ExecuteBlock(env, k, cs, b, e, throwup);
      case If(cls, e) => r := ExecuteIf(env, cls, e, throwup);
    }

    /** Logs the command and expands its text. */
    method Begin(env: Environment, text: string) returns (r: Outcome)
      modifies this, env
      ensures Run(StateOf(env), r) == Execution.Begin(o, old(StateOf(env)), text)
      decreases polls, 2
    {
      log := log + [Ran(text)];
      r := ExpandVars(env, text);
    }

    method ExecuteSimple(env: Environment, text: string, throwup: bool) returns (r: Outcome)
      modifies this, env
      ensures Run(StateOf(env), r) == ExecSimple(o, old(StateOf(env)), text, throwup)
      decreases polls, 3
    {
      hide FlightOf, Execution.Read, Execution.Begin, Expand;
      r := Begin(env, text);
      if !r.Value? {
        r := Finish(env, r, throwup);
        return;
      }
      var x := o.simple(world, text);
      world := x.0;
      match x.1
      case Nothing => return Value(0);
      case NoArguments => r := Status(env, 0, true);
      case Throws(k) => r := Status(env, k, throwup);
      case Returns(rv, exit) =>
        env.exit := exit;
        r := Status(env, rv, throwup);
      case QuitsShell => return Quit;
      case RunsHere(p) =>
        r := Read(env, p);
        r := Finish(env, r, throwup);
      case RunsScript(p, exit) =>
        var newEnv := new Environment(exit);
        r := Read(newEnv, p);
        r := Finish(env, r, throwup);
    }
  
    /** Evaluate, Break, Continue and Exit, through eval_exec. */
    method ExecuteEvaluated(env: Environment, k: Terminal, text: string, throwup: bool) returns (r: Outcome)
      modifies this, env
      ensures Run(StateOf(env), r) == ExecEvaluated(o, old(StateOf(env)), k, text, throwup)
      decreases polls, 3
    {
      r := Begin(env, text);
      if !r.Value? {
        r := Finish(env, r, throwup);
        return;
      }
      var x := o.line(world, text);
      world := x.0;
      if x.1.Bad? {
        r := Status(env, x.1.status, throwup);
        return;
      }
      if x.1.Empty? {
        return Value(0);
      }
      if k.EVALUATE? {
        var y := o.evaluate(world, text);
        world := y.0;
        match y.1
        case Fails(e) => r := Status(env, e, throwup);
        case Gives(rv, exit) =>
          env.exit := exit;
          r := Status(env, rv, throwup);
      } else if k.EXIT? {
        r := Status(env, 0, true);
        var y := o.leave(world, text);
        world := y.0;
        if y.1.Some? {
          log := log + [Raised(y.1.value)];
          return Terminated(y.1.value);
        }
        r := Status(env, 0, throwup);
      } else if env.loop == 0 {
        r := Status(env, -3, throwup);
      } else {
        var y := o.condition(world, k, text);
        world := y.0;
        if y.1 > 0 {
          return if k.BREAK? then Break else Continue;
        }
        r := Status(env, y.1, throwup);
      }
    }

    /** or_command and and_command: a loop over the two children. */
    method ExecuteChain(env: Environment, c: Command, throwup: bool) returns (r: Outcome)
      requires c.Binary?
      modifies this, env
      ensures Run(StateOf(env), r) == ExecChain(o, old(StateOf(env)), c, throwup)
      decreases polls, 0, c, 0
    {
      var rv := 0;
      if !c.left.Null? {
        r := Execute(env, c.left, false);
        if !r.Value? || Settles(c.kind, r.rv) {
          return;
        }
        rv := r.rv;
      }
      if !c.right.Null? {
        r := Execute(env, c.right, false);
        if !r.Value? || Settles(c.kind, r.rv) {
          return;
        }
        rv := r.rv;
      }
      r := Status(env, rv, throwup);
    }

    method ExecutePipe(env: Environment, c: Command, throwup: bool) returns (r: Outcome)
      requires c.Binary?
      modifies this, env
      ensures Run(StateOf(env), r) == ExecPipe(o, old(StateOf(env)), c, throwup)
      decreases polls, 0, c, 0
    {
      if !c.left.Null? && !c.right.Null? {
        r := Execute(env, c.left, throwup);
        if !r.Value? {
          return;
        }
        r := Execute(env, c.right, throwup);
        if !r.Value? {
          return;
        }
        r := Status(env, r.rv, throwup);
        return;
      }
      if !c.left.Null? {
        r := Execute(env, c.left, throwup);
      } else if !c.right.Null? {
        r := Execute(env, c.right, throwup);
      } else {
        r := Status(env, 0, throwup);
      }
    }

    /** vector_command::execute. */
    method ExecuteList(env: Environment, children: seq<Command>) returns (r: Outcome)
      modifies this, env
      ensures Run(StateOf(env), r) == ExecList(o, old(StateOf(env)), children, 0)
      decreases polls, 0, children, 0
    {
      var rv := 0;
      var i := 0;
      while i < |children|
        invariant i <= |children|
        invariant polls <= old(polls)
        invariant ExecList(o, StateOf(env), children[i..], rv) ==
          ExecList(o, old(StateOf(env)), children, 0)
      {
        assert children[i..][1..] == children[i + 1..];
        if !children[i].Null? {
          r := Execute(env, children[i], true);
          if !r.Value? {
            return;
          }
          rv := r.rv;
        }
        i := i + 1;
      }
      r := Status(env, rv, true);
    }

    /** begin_end_exec, between its poll and fx. */
    method EnterBlock(env: Environment, begin: string, end: string) returns (r: Outcome, l: Line)
      modifies this, env
      ensures (Run(StateOf(env), r), l) == Execution.EnterBlock(o, old(StateOf(env)), begin, end)
      decreases polls, 2
    {
      hide FlightOf, Execution.Begin, Execution.Read, ExecList;
      log := log + [Ran(begin)];
      r := ExpandVars(env, begin);
      if !r.Value? {
        return r, Empty;
      }
      r := ExpandVars(env, end);
      if !r.Value? {
        return r, Empty;
      }
      var x := o.enter(world, begin, end);
      world := x.0;
      if x.1.Bad? {
        return Failed(x.1.status), Empty;
      }
      return Value(0), x.1;
    }

    /** begin_command, loop_command and for_command. */
    method ExecuteBlock(env: Environment, k: Terminal, children: seq<Command>, begin: string, end: string,
        throwup: bool)
        returns (r: Outcome)
      modifies this, env
      ensures Run(StateOf(env), r) == ExecBlock(o, old(StateOf(env)), k, children, begin, end, throwup)
      decreases polls, 0, children, 3
    {
      hide FlightOf, Execution.Begin, Execution.Read, ExecList;
      r := Poll(env);
      if r.Terminated? {
        return;
      }
      var l;
      r, l := EnterBlock(env, begin, end);
      if !r.Value? {
        r := Finish(env, r, throwup);
        return;
      }
      if l.Misused? {
        r := Status(env, -3, throwup);
        return;
      }
      if k.LOOP? {
        r := ExecuteLoop(env, children);
      } else if k.FOR? {
        r := ExecuteFor(env, begin, Words(l), children);
      } else {
        r := IndentAnd(env, children, 0);
      }
      r := Finish(env, r, throwup);
    }

    /** indent_and and loop_indent_and around the commands of a construct. */
    method IndentAnd(env: Environment, children: seq<Command>, loops: nat) returns (r: Outcome)
      modifies this, env
      ensures Run(StateOf(env), r) ==
        Restored(old(StateOf(env)), ExecList(o, Indented(old(StateOf(env)), loops), children, 0))
      decreases polls, 0, children, 1
    {
      var i, j := env.indent, env.loop;
      env.indent, env.loop := i + 1, j + loops;
      r := ExecuteList(env, children);
      env.indent, env.loop := i, j;
    }

    method ExecuteLoop(env: Environment, children: seq<Command>) returns (r: Outcome)
      modifies this, env
      ensures Run(StateOf(env), r) == ExecLoop(o, old(StateOf(env)), children, 0)
      decreases polls, 0, children, 2
    {
      var rv := 0;
      while true
        invariant polls <= old(polls)
        invariant ExecLoop(o, StateOf(env), children, rv) == ExecLoop(o, old(StateOf(env)), children, 0)
        decreases polls
      {
        r := Poll(env);
        if r.Terminated? {
          return;
        }
        r := IndentAnd(env, children, 1);
        if r.Break? {
          break;
        }
        if r.Value? {
          rv := r.rv;
        } else if !r.Continue? {
          return;
        }
      }
      return Value(rv);
    }

    method ExecuteFor(env: Environment, begin: string, words: seq<string>, children: seq<Command>) returns (r: Outcome)
      modifies this, env
      ensures Run(StateOf(env), r) == ExecFor(o, old(StateOf(env)), begin, words, children, 0)
      decreases polls, 0, children, 2
    {
      var rv := 0;
      var i := 0;
      while i < |words|
        invariant i <= |words|
        invariant polls <= old(polls)
        invariant ExecFor(o, StateOf(env), begin, words[i..], children, rv) ==
          ExecFor(o, old(StateOf(env)), begin, words, children, 0)
      {
        assert words[i..][1..] == words[i + 1..];
        r := Poll(env);
        if r.Terminated? {
          return;
        }
        var x := o.assign(world, begin, words[i]);
        world := x.0;
        if x.1.Some? {
          env.exit := x.1.value;
        }
        r := IndentAnd(env, children, 1);
        if r.Break? {
          break;
        }
        if r.Value? {
          rv := r.rv;
        } else if !r.Continue? {
          return;
        }
        i := i + 1;
      }
      return Value(rv);
    }

    method ExecuteIf(env: Environment, clauses: seq<Clause>, end: string, throwup: bool) returns (r: Outcome)
      modifies this, env
      ensures Run(StateOf(env), r) == ExecIf(o, old(StateOf(env)), clauses, end, throwup)
      decreases polls, 0, clauses, 1
    {
      hide FlightOf, ExecFirst, ExecElse, Execution.EnterBlock;
      if clauses == [] {
        r := Status(env, 0, throwup);
        return;
      }
      r := Poll(env);
      if r.Terminated? {
        return;
      }
      var v;
      r, v := FirstClause(env, clauses[0], end);
      if !r.Value? {
        return;
      }
      var i := 1;
      while i < |clauses|
        invariant 1 <= i <= |clauses|
        invariant polls <= old(polls)
        invariant ExecElses(o, StateOf(env), clauses[i..], v, throwup) ==
          ExecIf(o, old(StateOf(env)), clauses, end, throwup)
      {
        assert clauses[i..][1..] == clauses[i + 1..];
        r := Poll(env);
        if r.Terminated? {
          return;
        }
        r, v := ElseClause(env, clauses[i], v);
        if !r.Value? {
          return;
        }
        i := i + 1;
      }
      r := Status(env, if v.error != 0 then v.error else v.rv, throwup);
    }

    method FirstClause(env: Environment, cl: Clause, end: string) returns (r: Outcome, v: Locals)
      modifies this, env
      ensures (Run(StateOf(env), r), v) == ExecFirst(o, old(StateOf(env)), cl, end)
      decreases polls, 3
    {
      var l;
      r, l := EnterBlock(env, cl.clause, end);
      if r.Failed? {
        var k := r.status;
        r := Status(env, k, false);
        return r, Locals(0, k, false);
      }
      if !r.Value? {
        return r, Locals(0, 0, false);
      }
      var y := o.condition(world, cl.kind, cl.clause);
      world := y.0;
      if y.1 <= 0 {
        r := Status(env, 0, false);
        return r, Locals(0, y.1, false);
      }
      r := IndentAnd(env, cl.children, 0);
      if !r.Value? {
        return r, Locals(0, 0, true);
      }
      v := Locals(r.rv, 0, true);
      r := Status(env, 0, false);
    }

    method ElseClause(env: Environment, cl: Clause, v: Locals) returns (r: Outcome, v': Locals)
      modifies this, env
      ensures (Run(StateOf(env), r), v') == ExecElse(o, old(StateOf(env)), cl, v)
      decreases polls, 3
    {
      hide FlightOf, Execution.Begin, Expand, ExecList;
      r := Begin(env, cl.clause);
      if r.Value? {
        var x := o.line(world, cl.clause);
        world := x.0;
        if x.1.Empty? {
          return Value(0), v;
        }
        if x.1.Bad? {
          r := Failed(x.1.status);
        }
      }
      if r.Failed? {
        var k := r.status;
        r := Status(env, k, false);
        return r, if k != 0 && !v.skip then v.(error := k) else v;
      }
      if !r.Value? {
        return r, v;
      }
      if v.skip || v.error != 0 {
        r := Status(env, 0, false);
        return r, v;
      }
      var y := o.condition(world, cl.kind, cl.clause);
      world := y.0;
      if y.1 <= 0 {
        r := Status(env, 0, false);
        return r, v.(error := y.1);
      }
      r := IndentAnd(env, cl.children, 0);
      match r
      case Value(rv) =>
        r := Status(env, 0, false);
        return r, v.(skip := true, rv := rv);
      case Terminated(k) =>
        log := log + [Absorbed(k)];
        r := Status(env, k, false);
        return Value(0), v.(skip := true);
      case _ => return r, v.(skip := true);
    }
  }

  /** mpw_parser, from the command queue on: what one chunk of the input adds to
      the queue is executed at once. */
  class Reader<W(0)> {
    const shell: Shell<W>
    const env: Environment
    const interactive: bool
    var queue: seq<Command>
    var aborted: bool

    constructor (shell: Shell<W>, env: Environment, interactive: bool)
      ensures this.shell == shell && this.env == env && this.interactive == interactive
      ensures queue == [] && !aborted
    {
      this.shell, this.env, this.interactive := shell, env, interactive;
      queue, aborted := [], false;
    }

    /** After a termination an interactive reader goes on with the next line,
        any other reader is aborted and runs nothing ever after. Either way the
        rest of the queue is gone. */
    method Execute() returns (r: Outcome)
      modifies this, shell, env
      ensures queue == []
      ensures old(aborted) ==>
        aborted && r == Value(0) && shell.StateOf(env) == old(shell.StateOf(env))
      ensures !old(aborted) ==>
        var d := Drain(shell.o, old(shell.StateOf(env)), old(queue));
        if d.outcome.Terminated? then
          && shell.StateOf(env) == d.state.(status := d.outcome.status)
          && aborted == !interactive
          && r == if interactive then Value(0) else d.outcome
        else
          shell.StateOf(env) == d.state && !aborted && r == d.outcome
    {
      if aborted {
        queue := [];
        return Value(0);
      }
      var commands := queue;
      queue := [];
      r := shell.Drain(env, commands);
      if r.Terminated? {
        var k := r.status;
        var _ := shell.Status(env, k, false);
        if interactive {
          return Value(0);
        }
        aborted := true;
        return Terminated(k);
      }
    }

    /** One more chunk, which the parser turned into these commands. */
    method Parse(commands: seq<Command>) returns (r: Outcome)
      modifies this, shell, env
      ensures old(aborted) ==>
        aborted && queue == old(queue) && r == Value(0) && shell.StateOf(env) == old(shell.StateOf(env))
      ensures !old(aborted) ==>
        && queue == []
        && var d := Drain(shell.o, old(shell.StateOf(env)), old(queue) + commands);
           if d.outcome.Terminated? then
             && shell.StateOf(env) == d.state.(status := d.outcome.status)
             && aborted == !interactive
             && r == if interactive then Value(0) else d.outcome
           else
             shell.StateOf(env) == d.state && !aborted && r == d.outcome
    {
      if aborted {
        return Value(0);
      }
      queue := queue + commands;
      r := Execute();
    }
  }
}
