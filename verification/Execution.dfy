/** The meaning of command trees: what running them does to the environment and
    how it ends. Exceptions are outcomes. */
module Execution {
  import opened CommandTree

  /** How a run ends: with a value, or with an exception in flight. `Failed` is
      any error that the handlers of `exec` turn into a status. */
  datatype Outcome =
    | Value(rv: int)
    | Failed(status: int)
    | Break
    | Continue
    | Terminated(status: int)
    | Quit

  /** What the log of a run records: a command that starts, a termination that
      is raised, one that ends a program, one that an else clause swallows. */
  datatype Event = Ran(text: string) | Raised(status: int) | Stopped(status: int) | Absorbed(status: int)

  /** The counters, flags and status of an Environment, the number of polls
      until control_c is found set, the log, and everything else. */
  datatype State<W> = State(
    indent: nat, loop: nat, exit: bool, status: int, polls: nat, log: seq<Event>, world: W)

  datatype Run<W> = Run(state: State<W>, outcome: Outcome)

  /** The queue contents that the chunks of one input leave behind. */
  datatype Program = Done | Batch(commands: seq<Command>, rest: Program)

  datatype Option<T> = None | Some(value: T)

  /** What expanding a text runs, and whether it then throws. */
  datatype Expansion = Expansion(programs: seq<Program>, failure: Option<int>)

  /** What a simple command turns out to be, once it is expanded. */
  datatype Simple =
    | Nothing
    | NoArguments
    | Throws(status: int)
    | Returns(rv: int, exit: bool)
    | QuitsShell
    | RunsHere(program: Program)
    | RunsScript(program: Program, exit: bool)

  /** What the keyword line of a construct, or the line of an evaluated command,
      turns out to be, once it is expanded. */
  datatype Line = Bad(status: int) | Empty | Misused | Ready(words: seq<string>)

  /** What the expression of Evaluate comes to. */
  datatype Evaluation = Fails(status: int) | Gives(rv: int, exit: bool)

  /** Everything outside the interpreter proper. */
  datatype Oracle<!W> = Oracle(
    expand: (W, string) -> Expansion,
    simple: (W, string) -> (W, Simple),
    line: (W, string) -> (W, Line),
    enter: (W, string, string) -> (W, Line),
    evaluate: (W, string) -> (W, Evaluation),
    condition: (W, Terminal, string) -> (W, int),
    leave: (W, string) -> (W, Option<int>),
    assign: (W, string, string) -> (W, Option<bool>))

  // --------------------------------------------------------------- the log

  /** Where a termination is, after a log: nowhere, in flight, or out of order. */
  datatype Flight = Clear | Flying(status: int) | Violated

  function Step(f: Flight, e: Event): Flight {
    match e
    case Ran(_) => if f.Clear? then Clear else Violated
    case Raised(k) => if f.Clear? then Flying(k) else Violated
    case Stopped(k) => if f == Flying(k) then Clear else Violated
    case Absorbed(k) => if f == Flying(k) then Clear else Violated
  }

  function FlightOf(log: seq<Event>): Flight {
    if log == [] then Clear else Step(FlightOf(log[..|log| - 1]), log[|log| - 1])
  }

  function Logged<W>(s: State<W>, e: Event): (s': State<W>)
    ensures FlightOf(s'.log) == Step(FlightOf(s.log), e)
    ensures s' == s.(log := s.log + [e])
  {
    s.(log := s.log + [e])
  }

  /** What every run keeps, however it ends: the counters are as before; Break
      and Continue leave it only when a loop is running; and a termination is
      in flight exactly when the run ends in one, with the status that it was
      raised with, and nothing ran while it was in flight. */
  ghost predicate Keeps<W>(s: State<W>, r: Run<W>) {
    && r.state.polls <= s.polls
    && s.log <= r.state.log
    && r.state.indent == s.indent
    && r.state.loop == s.loop
    && (r.outcome.Break? || r.outcome.Continue? ==> s.loop > 0)
    && (FlightOf(s.log).Clear? ==>
          FlightOf(r.state.log) == if r.outcome.Terminated? then Flying(r.outcome.status) else Clear)
  }

  // ----------------------------------------------------------------- status

  const INTERRUPTED := -9

  /** `if (control_c) throw execution_of_input_terminated()`. */
  function Poll<W>(s: State<W>): (r: Run<W>)
    ensures Keeps(s, r) && (r.outcome == Value(0) || r.outcome == Terminated(INTERRUPTED))
    ensures r.outcome.Value? ==> r.state.polls < s.polls
  {
    hide FlightOf;
    if s.polls == 0 then Run(Logged(s, Raised(INTERRUPTED)), Terminated(INTERRUPTED))
    else Run(s.(polls := s.polls - 1), Value(0))
  }

  /** Environment::status(i, throwup). */
  function SetStatus<W>(s: State<W>, i: int, throwup: bool): (r: Run<W>)
    ensures Keeps(s, r)
    ensures r.outcome == if throwup && s.exit && i != 0 then Terminated(i) else Value(i)
    ensures r.state.status == i
  {
    hide FlightOf;
    var s1 := s.(status := i);
    if throwup && s.exit && i != 0 then Run(Logged(s1, Raised(i)), Terminated(i)) else Run(s1, Value(i))
  }

  /** The handlers of exec, eval_exec and begin_end_exec, when no termination is
      in flight inside them. */
  function Handle<W>(r: Run<W>, throwup: bool): Run<W> {
    match r.outcome
    case Value(rv) => SetStatus(r.state, rv, throwup)
    case Failed(k) => SetStatus(r.state, k, throwup)
    case _ => r
  }

  /** indent_and and loop_indent_and: what fx starts with, and what is restored. */
  function Indented<W>(s: State<W>, loops: nat): State<W> {
    s.(indent := s.indent + 1, loop := s.loop + loops)
  }

  function Restored<W>(s: State<W>, r: Run<W>): Run<W> {
    r.(state := r.state.(indent := s.indent, loop := s.loop))
  }

  // --------------------------------------------------------------- programs

  /** expand_vars: the backquoted programs, each in the same environment. */
  function Expand<W>(o: Oracle<W>, s: State<W>, ps: seq<Program>, failure: Option<int>): (r: Run<W>)
    ensures Keeps(s, r) && !r.outcome.Terminated?
    decreases s.polls, 0, ps, 0
  {
    hide FlightOf;
    if ps == [] then
      Run(s, if failure.Some? then Failed(failure.value) else Value(0))
    else
      var r := Restored(s, Read(o, Indented(s, 0), ps[0]));
      if r.outcome.Value? then Expand(o, r.state, ps[1..], failure) else r
  }

  /** read_string, read_file and read_fd: a termination becomes the result. */
  function Read<W>(o: Oracle<W>, s: State<W>, p: Program): (r: Run<W>)
    ensures Keeps(s, r) && !r.outcome.Terminated? && !r.outcome.Failed?
    decreases s.polls, 0, p, 1
  {
    hide FlightOf;
    var r := RunProgram(o, s.(status := 0), p);
    match r.outcome
    case Terminated(k) => Run(Logged(r.state, Stopped(k)).(status := k), Value(k))
    case Value(_) => Run(r.state, Value(r.state.status))
    case _ => r
  }

  function RunProgram<W>(o: Oracle<W>, s: State<W>, p: Program): (r: Run<W>)
    ensures Keeps(s, r) && !r.outcome.Failed?
    decreases s.polls, 0, p, 0
  {
    hide FlightOf;
    match p
    case Done => Run(s, Value(0))
    case Batch(cs, rest) =>
      var r := Drain(o, s, cs);
      if r.outcome.Value? then RunProgram(o, r.state, rest) else r
  }

  /** mpw_parser::execute: the queued commands in order. */
  function Drain<W>(o: Oracle<W>, s: State<W>, cs: seq<Command>): (r: Run<W>)
    ensures Keeps(s, r) && !r.outcome.Failed?
    decreases s.polls, 0, cs, 0
  {
    hide FlightOf;
    if cs == [] then Run(s, Value(0))
    else
      var r := Exec(o, s, cs[0], true);
      if r.outcome.Value? then Drain(o, r.state, cs[1..]) else r
  }

  // --------------------------------------------------------------- commands

  /** `execute`, by the class of the command. A null child is skipped. */
  function Exec<W>(o: Oracle<W>, s: State<W>, c: Command, throwup: bool): (r: Run<W>)
    ensures Keeps(s, r) && !r.outcome.Failed?
    decreases s.polls, 0, c, 1
  {
    hide FlightOf;
    match c
    case Null => Run(s, Value(0))
    case Word(k, text) =>
      var p := Poll(s);
      if p.outcome.Terminated? then p
      else if k.COMMAND? then ExecSimple(o, p.state, text, throwup)
      else if k.ERROR? then SetStatus(Logged(p.state, Ran(text)), -3, true)
      else ExecEvaluated(o, p.state, k, text, throwup)
    case Binary(k, _, _) =>
      if k.PIPE? then ExecPipe(o, s, c, throwup) else ExecChain(o, s, c, throwup)
    case Block(k, cs, b, e) => ExecBlock(o, s, k, cs, b, e, throwup)
    case If(cls, e) => ExecIf(o, s, cls, e, throwup)
  }

  /** begin_command, loop_command and for_command. */
  function ExecBlock<W>(o: Oracle<W>, s: State<W>, k: Terminal, cs: seq<Command>, b: string, e: string,
      throwup: bool): (r: Run<W>)
    ensures Keeps(s, r) && !r.outcome.Failed?
    decreases s.polls, 0, cs, 3
  {
    hide FlightOf;
    var p := Poll(s);
    if p.outcome.Terminated? then p
    else
      var h := EnterBlock(o, p.state, b, e);
      if h.0.outcome != Value(0) then Handle(h.0, throwup)
      else if h.1.Misused? then SetStatus(h.0.state, -3, throwup)
      else Handle(ExecBody(o, h.0.state, k, cs, b, Words(h.1)), throwup)
  }

  function ExecBody<W>(o: Oracle<W>, s: State<W>, k: Terminal, cs: seq<Command>, b: string,
      words: seq<string>): (r: Run<W>)
    ensures Keeps(s, r) && !r.outcome.Failed?
    decreases s.polls, 0, cs, 2
  {
    hide FlightOf;
    if k.LOOP? then ExecLoop(o, s, cs, 0)
    else if k.FOR? then ExecFor(o, s, b, words, cs, 0)
    else Restored(s, ExecList(o, Indented(s, 0), cs, 0))
  }

  function Words(l: Line): seq<string> {
    if l.Ready? then l.words else []
  }

  /** The common start of begin_end_exec, after its poll. Value(0) is success. */
  function EnterBlock<W>(o: Oracle<W>, s: State<W>, b: string, e: string): (h: (Run<W>, Line))
    ensures Keeps(s, h.0) && !h.0.outcome.Terminated?
    ensures h.0.outcome.Value? ==> h.0.outcome == Value(0) && !h.1.Bad?
    decreases s.polls, 1
  {
    hide FlightOf;
    var s1 := Logged(s, Ran(b));
    var x := o.expand(s1.world, b);
    var r := Expand(o, s1, x.programs, x.failure);
    if !r.outcome.Value? then (r, Empty)
    else
      var y := o.expand(r.state.world, e);
      var r2 := Expand(o, r.state, y.programs, y.failure);
      if !r2.outcome.Value? then (r2, Empty)
      else
        var l := o.enter(r2.state.world, b, e);
        var s2 := r2.state.(world := l.0);
        if l.1.Bad? then (Run(s2, Failed(l.1.status)), Empty) else (Run(s2, Value(0)), l.1)
  }

  /** What a text runs when it is expanded, after its command is logged. */
  function Begin<W>(o: Oracle<W>, s: State<W>, text: string): (r: Run<W>)
    ensures Keeps(s, r) && !r.outcome.Terminated?
    decreases s.polls, 1
  {
    hide FlightOf;
    var s1 := Logged(s, Ran(text));
    var x := o.expand(s1.world, text);
    Expand(o, s1, x.programs, x.failure)
  }

  function ExecSimple<W>(o: Oracle<W>, s: State<W>, text: string, throwup: bool): (r: Run<W>)
    ensures Keeps(s, r) && !r.outcome.Failed?
    decreases s.polls, 2
  {
    hide FlightOf;
    var r := Begin(o, s, text);
    if !r.outcome.Value? then Handle(r, throwup)
    else
      var x := o.simple(r.state.world, text);
      var s1 := r.state.(world := x.0);
      match x.1
      case Nothing => Run(s1, Value(0))
      case NoArguments => SetStatus(s1, 0, true)
      case Throws(k) => SetStatus(s1, k, throwup)
      case Returns(rv, exit) => SetStatus(s1.(exit := exit), rv, throwup)
      case QuitsShell => Run(s1, Quit)
      case RunsHere(p) => Handle(Read(o, s1, p), throwup)
      case RunsScript(p, exit) => Handle(Script(o, s1, p, exit), throwup)
  }

  /** A script runs in an environment of its own. */
  function Script<W>(o: Oracle<W>, s: State<W>, p: Program, exit: bool): (r: Run<W>)
    ensures Keeps(s, r) && (r.outcome.Value? || r.outcome.Quit?)
    decreases s.polls, 1
  {
    hide FlightOf;
    var r := Read(o, State(0, 0, exit, 0, s.polls, s.log, s.world), p);
    Run(s.(polls := r.state.polls, log := r.state.log, world := r.state.world), r.outcome)
  }

  /** Evaluate, Break, Continue and Exit. */
  function ExecEvaluated<W>(o: Oracle<W>, s: State<W>, k: Terminal, text: string, throwup: bool): (r: Run<W>)
    ensures Keeps(s, r) && !r.outcome.Failed?
    decreases s.polls, 2
  {
    hide FlightOf;
    var r := Begin(o, s, text);
    if !r.outcome.Value? then Handle(r, throwup)
    else
      var x := o.line(r.state.world, text);
      var s1 := r.state.(world := x.0);
      if x.1.Bad? then SetStatus(s1, x.1.status, throwup)
      else if x.1.Empty? then Run(s1, Value(0))
      else if k.EVALUATE? then
        var y := o.evaluate(s1.world, text);
        (match y.1
         case Fails(e) => SetStatus(s1.(world := y.0), e, throwup)
         case Gives(rv, exit) => SetStatus(s1.(world := y.0, exit := exit), rv, throwup))
      else if k.EXIT? then
        var y := o.leave(s1.world, text);
        var s2 := s1.(world := y.0, status := 0);
        if y.1.Some? then Run(Logged(s2, Raised(y.1.value)), Terminated(y.1.value))
        else SetStatus(s2, 0, throwup)
      else if s1.loop == 0 then SetStatus(s1, -3, throwup)
      else
        var y := o.condition(s1.world, k, text);
        var s2 := s1.(world := y.0);
        if y.1 > 0 then Run(s2, if k.BREAK? then Break else Continue)
        else SetStatus(s2, y.1, throwup)
  }

  /** `||` stops at the first success, `&&` at the first failure. */
  predicate Settles(k: Terminal, rv: int) {
    if k.PIPE_PIPE? then rv == 0 else rv != 0
  }

  function ExecChain<W>(o: Oracle<W>, s: State<W>, c: Command, throwup: bool): (r: Run<W>)
    requires c.Binary?
    ensures Keeps(s, r) && !r.outcome.Failed?
    decreases s.polls, 0, c, 0
  {
    hide FlightOf;
    var a := Exec(o, s, c.left, false);
    if !a.outcome.Value? || (!c.left.Null? && Settles(c.kind, a.outcome.rv)) then a
    else
      var b := Exec(o, a.state, c.right, false);
      if !b.outcome.Value? || (!c.right.Null? && Settles(c.kind, b.outcome.rv)) then b
      else SetStatus(b.state, if c.right.Null? then a.outcome.rv else b.outcome.rv, throwup)
  }

  function ExecPipe<W>(o: Oracle<W>, s: State<W>, c: Command, throwup: bool): (r: Run<W>)
    requires c.Binary?
    ensures Keeps(s, r) && !r.outcome.Failed?
    decreases s.polls, 0, c, 0
  {
    hide FlightOf;
    if c.left.Null? && c.right.Null? then SetStatus(s, 0, throwup)
    else if c.right.Null? then Exec(o, s, c.left, throwup)
    else if c.left.Null? then Exec(o, s, c.right, throwup)
    else
      var a := Exec(o, s, c.left, throwup);
      if !a.outcome.Value? then a
      else
        var b := Exec(o, a.state, c.right, throwup);
        if !b.outcome.Value? then b else SetStatus(b.state, b.outcome.rv, throwup)
  }

  /** vector_command::execute. */
  function ExecList<W>(o: Oracle<W>, s: State<W>, cs: seq<Command>, rv: int): (r: Run<W>)
    ensures Keeps(s, r) && !r.outcome.Failed?
    decreases s.polls, 0, cs, 0
  {
    hide FlightOf;
    if cs == [] then SetStatus(s, rv, true)
    else if cs[0].Null? then ExecList(o, s, cs[1..], rv)
    else
      var r := Exec(o, s, cs[0], true);
      if r.outcome.Value? then ExecList(o, r.state, cs[1..], r.outcome.rv) else r
  }

  /** The loop of Loop; rv is the value of the last iteration that ended. */
  function ExecLoop<W>(o: Oracle<W>, s: State<W>, cs: seq<Command>, rv: int): (r: Run<W>)
    ensures Keeps(s, r) && !r.outcome.Failed?
    ensures !r.outcome.Break? && !r.outcome.Continue?
    decreases s.polls, 0, cs, 1
  {
    hide FlightOf;
    var p := Poll(s);
    if p.outcome.Terminated? then p
    else
      var r := Restored(s, ExecList(o, Indented(p.state, 1), cs, 0));
      match r.outcome
      case Value(v) => ExecLoop(o, r.state, cs, v)
      case Continue => ExecLoop(o, r.state, cs, rv)
      case Break => Run(r.state, Value(rv))
      case _ => r
  }

  /** The loop of For, over the words that are left. */
  function ExecFor<W>(o: Oracle<W>, s: State<W>, b: string, words: seq<string>, cs: seq<Command>, rv: int): (r: Run<W>)
    ensures Keeps(s, r) && !r.outcome.Failed?
    ensures !r.outcome.Break? && !r.outcome.Continue?
    decreases s.polls, 0, cs, 1
  {
    hide FlightOf;
    if words == [] then Run(s, Value(rv))
    else
      var p := Poll(s);
      if p.outcome.Terminated? then p
      else
        var r := Restored(s, ExecList(o, Indented(Assigned(o, p.state, b, words[0]), 1), cs, 0));
        match r.outcome
        case Value(v) => ExecFor(o, r.state, b, words[1..], cs, v)
        case Continue => ExecFor(o, r.state, b, words[1..], cs, rv)
        case Break => Run(r.state, Value(rv))
        case _ => r
  }

  /** `env.set(b[1].string, word)`; the variable may be {exit}. */
  function Assigned<W>(o: Oracle<W>, s: State<W>, b: string, word: string): State<W> {
    var x := o.assign(s.world, b, word);
    s.(world := x.0, exit := if x.1.Some? then x.1.value else s.exit)
  }

  /** The local variables of if_command::execute. */
  datatype Locals = Locals(rv: int, error: int, skip: bool)

  /** if_command::execute; its first clause goes through begin_end_exec. */
  function ExecIf<W>(o: Oracle<W>, s: State<W>, cls: seq<Clause>, end: string, throwup: bool): (r: Run<W>)
    ensures Keeps(s, r) && !r.outcome.Failed?
    decreases s.polls, 0, cls, 1
  {
    hide FlightOf;
    if cls == [] then SetStatus(s, 0, throwup)
    else
      var p := Poll(s);
      if p.outcome.Terminated? then p
      else
        var f := ExecFirst(o, p.state, cls[0], end);
        if f.0.outcome.Value? then ExecElses(o, f.0.state, cls[1..], f.1, throwup) else f.0
  }

  function ExecFirst<W>(o: Oracle<W>, s: State<W>, cl: Clause, end: string): (f: (Run<W>, Locals))
    ensures Keeps(s, f.0) && !f.0.outcome.Failed?
    decreases s.polls, 2
  {
    hide FlightOf;
    var h := EnterBlock(o, s, cl.clause, end);
    match h.0.outcome
    case Failed(k) => (SetStatus(h.0.state, k, false), Locals(0, k, false))
    case Value(_) =>
      var y := o.condition(h.0.state.world, cl.kind, cl.clause);
      var s1 := h.0.state.(world := y.0);
      if y.1 <= 0 then (Run(s1.(status := 0), Value(0)), Locals(0, y.1, false))
      else
        var b := Restored(s1, ExecList(o, Indented(s1, 0), cl.children, 0));
        if b.outcome.Value? then (Run(b.state.(status := 0), Value(0)), Locals(b.outcome.rv, 0, true))
        else (b, Locals(0, 0, true))
    case _ => (h.0, Locals(0, 0, false))
  }

  /** The other clauses, and the end of the command. */
  function ExecElses<W>(o: Oracle<W>, s: State<W>, cls: seq<Clause>, v: Locals, throwup: bool): (r: Run<W>)
    ensures Keeps(s, r) && !r.outcome.Failed?
    decreases s.polls, 0, cls, 0
  {
    hide FlightOf;
    if cls == [] then SetStatus(s, if v.error != 0 then v.error else v.rv, throwup)
    else
      var p := Poll(s);
      if p.outcome.Terminated? then p
      else
        var f := ExecElse(o, p.state, cls[0], v);
        if f.0.outcome.Value? then ExecElses(o, f.0.state, cls[1..], f.1, throwup) else f.0
  }

  /** An else clause goes through eval_exec, which also swallows a termination
      that one of its commands raised. */
  function ExecElse<W>(o: Oracle<W>, s: State<W>, cl: Clause, v: Locals): (f: (Run<W>, Locals))
    ensures Keeps(s, f.0) && !f.0.outcome.Failed? && !f.0.outcome.Terminated?
    decreases s.polls, 3
  {
    hide FlightOf;
    var h := EnterElse(o, s, cl.clause);
    match h.0.outcome
    case Failed(k) =>
      (SetStatus(h.0.state, k, false), if k != 0 && !v.skip then v.(error := k) else v)
    case Value(_) =>
      if h.1 then (h.0, v)
      else if v.skip || v.error != 0 then (Run(h.0.state.(status := 0), Value(0)), v)
      else
        var y := o.condition(h.0.state.world, cl.kind, cl.clause);
        var s1 := h.0.state.(world := y.0);
        if y.1 <= 0 then (Run(s1.(status := 0), Value(0)), v.(error := y.1))
        else ElseBody(Restored(s1, ExecList(o, Indented(s1, 0), cl.children, 0)), v.(skip := true))
    case _ => (h.0, v)
  }

  function ElseBody<W>(b: Run<W>, v: Locals): (Run<W>, Locals) {
    match b.outcome
    case Value(rv) => (Run(b.state.(status := 0), Value(0)), v.(rv := rv))
    case Terminated(k) => (Run(Logged(b.state, Absorbed(k)).(status := k), Value(0)), v)
    case _ => (b, v)
  }

  /** The common start of eval_exec for an else clause: whether it is empty. */
  function EnterElse<W>(o: Oracle<W>, s: State<W>, clause: string): (h: (Run<W>, bool))
    ensures Keeps(s, h.0) && !h.0.outcome.Terminated?
    decreases s.polls, 2
  {
    hide FlightOf;
    var r := Begin(o, s, clause);
    if !r.outcome.Value? then (r, true)
    else
      var x := o.line(r.state.world, clause);
      var s1 := r.state.(world := x.0);
      if x.1.Bad? then (Run(s1, Failed(x.1.status)), true) else (Run(s1, Value(0)), x.1.Empty?)
  }
}
