/** What single commands, programs and pipes come to. */
module CommandLaws {
  import opened CommandTree
  import opened Execution
  import opened ExecutionLaws

  /** The end of a command whose value is v: its status is v, and a failure is
      thrown when that is asked for and {exit} is set. */
  function Ends<W>(s: State<W>, v: int, thrown: bool): Run<W> {
    if thrown && s.exit && v != 0 then Run(s.(status := v, log := s.log + [Raised(v)]), Terminated(v))
    else Run(s.(status := v), Value(v))
  }

  /** The state in which a command starts that was not interrupted. */
  function Polled<W>(s: State<W>): State<W>
    requires s.polls > 0
  {
    s.(polls := s.polls - 1)
  }

  // ------------------------------------------------------------------- words

  /** What a simple command is, once expanded, decides how it ends. Only one with
      no arguments throws unasked; an empty one does not even set the status. */
  function SimpleEnd<W>(o: Oracle<W>, s: State<W>, x: Simple, throwup: bool): Run<W> {
    match x
    case Nothing => Run(s, Value(0))
    case NoArguments => Ends(s, 0, true)
    case Throws(k) => Ends(s, k, throwup)
    case Returns(rv, exit) => Ends(s.(exit := exit), rv, throwup)
    case QuitsShell => Run(s, Quit)
    case RunsHere(p) => Passed(Read(o, s, p), throwup)
    case RunsScript(p, exit) =>
      var r := Read(o, State(0, 0, exit, 0, s.polls, s.log, s.world), p);
      Passed(Run(s.(polls := r.state.polls, log := r.state.log, world := r.state.world), r.outcome), throwup)
  }

  /** A value is the end of the command; what leaves it is handed on. */
  function Passed<W>(r: Run<W>, throwup: bool): Run<W> {
    if r.outcome.Value? then Ends(r.state, r.outcome.rv, throwup)
    else if r.outcome.Failed? then Ends(r.state, r.outcome.status, throwup)
    else r
  }

  lemma {:induction false} SimpleComesTo<W>(o: Oracle<W>, s: State<W>, text: string, throwup: bool)
    requires s.polls > 0
    ensures var b := Begin(o, Polled(s), text);
            var x := o.simple(b.state.world, text);
            Exec(o, s, Word(COMMAND, text), throwup) ==
              if b.outcome.Value? then SimpleEnd(o, b.state.(world := x.0), x.1, throwup) else Passed(b, throwup)
  {
    hide FlightOf, Keeps, Begin, Read, Handle, Passed, Ends;
    assert Exec(o, s, Word(COMMAND, text), throwup) == ExecSimple(o, Polled(s), text, throwup);
    var b := Begin(o, Polled(s), text);
    HandleIsPassed(b, throwup);
    if b.outcome.Value? {
      var x := o.simple(b.state.world, text);
      var s1 := b.state.(world := x.0);
      match x.1 {
        case NoArguments => StatusIsEnd(s1, 0, true);
        case Throws(k) => StatusIsEnd(s1, k, throwup);
        case Returns(rv, exit) => StatusIsEnd(s1.(exit := exit), rv, throwup);
        case RunsHere(p) => HandleIsPassed(Read(o, s1, p), throwup);
        case RunsScript(p, exit) => HandleIsPassed(Script(o, s1, p, exit), throwup);
        case _ =>
      }
    }
  }

  lemma {:induction false} StatusIsEnd<W>(s: State<W>, v: int, thrown: bool)
    ensures SetStatus(s, v, thrown) == Ends(s, v, thrown)
  {
    hide FlightOf, Keeps;
  }

  lemma {:induction false} HandleIsPassed<W>(r: Run<W>, throwup: bool)
    ensures Handle(r, throwup) == Passed(r, throwup)
  {
    hide FlightOf, Keeps;
  }

  lemma {:induction false} ErrorComesTo<W>(o: Oracle<W>, s: State<W>, text: string, throwup: bool)
    requires s.polls > 0
    ensures Exec(o, s, Word(ERROR, text), throwup) ==
      Ends(Polled(s).(log := s.log + [Ran(text)]), -3, true)
  {
    hide FlightOf, Keeps;
  }

  /** How Evaluate, Break, Continue and Exit end. */
  function EvaluatedEnd<W>(o: Oracle<W>, s: State<W>, k: Terminal, text: string, throwup: bool): Run<W> {
    if k.EVALUATE? then
      var y := o.evaluate(s.world, text);
      match y.1
      case Fails(e) => Ends(s.(world := y.0), e, throwup)
      case Gives(rv, exit) => Ends(s.(world := y.0, exit := exit), rv, throwup)
    else if k.EXIT? then
      var y := o.leave(s.world, text);
      var s1 := s.(world := y.0, status := 0);
      match y.1
      case None => Run(s1, Value(0))
      case Some(v) => Run(s1.(log := s.log + [Raised(v)]), Terminated(v))
    else if s.loop == 0 then Ends(s, -3, throwup)
    else
      var y := o.condition(s.world, k, text);
      var s1 := s.(world := y.0);
      if y.1 > 0 then Run(s1, if k.BREAK? then Break else Continue) else Ends(s1, y.1, throwup)
  }

  lemma {:induction false} EvaluatedComesTo<W>(o: Oracle<W>, s: State<W>, k: Terminal, text: string, throwup: bool)
    requires s.polls > 0 && (k.EVALUATE? || k.BREAK? || k.CONTINUE? || k.EXIT?)
    ensures var b := Begin(o, Polled(s), text);
            var x := o.line(b.state.world, text);
            var s1 := b.state.(world := x.0);
            Exec(o, s, Word(k, text), throwup) ==
              if !b.outcome.Value? then Passed(b, throwup)
              else if x.1.Bad? then Ends(s1, x.1.status, throwup)
              else if x.1.Empty? then Run(s1, Value(0))
              else EvaluatedEnd(o, s1, k, text, throwup)
  {
    hide FlightOf, Keeps, Begin, Handle, Passed;
    HandleIsPassed(Begin(o, Polled(s), text), throwup);
    assert Exec(o, s, Word(k, text), throwup) == ExecEvaluated(o, Polled(s), k, text, throwup);
  }

  // --------------------------------------------------------------- programs

  /** A program's value is the status that it leaves, which is 0 when it runs
      nothing, whatever the status was before. */
  lemma {:induction false} ProgramValueIsStatus<W>(o: Oracle<W>, s: State<W>, p: Program)
    ensures var r := Read(o, s, p);
            r.outcome.Value? ==> r.outcome.rv == r.state.status
    ensures Read(o, s, Done) == Run(s.(status := 0), Value(0))
    ensures forall i: int :: Read(o, s.(status := i), p) == Read(o, s, p)
  {
    hide FlightOf, Keeps;
    forall i: int ensures Read(o, s.(status := i), p) == Read(o, s, p) {
      assert s.(status := i).(status := 0) == s.(status := 0);
    }
  }

  /** The programs of a text, each read one level deeper, in order, up to the
      first that does not end with a value. */
  ghost predicate AreReads<W>(o: Oracle<W>, s: State<W>, ps: seq<Program>, rs: seq<Run<W>>) {
    && |rs| <= |ps|
    && forall i :: 0 <= i < |rs| ==> IsRead(o, s, ps, rs, i)
  }

  ghost predicate IsRead<W>(o: Oracle<W>, s: State<W>, ps: seq<Program>, rs: seq<Run<W>>, i: nat)
    requires i < |rs| <= |ps|
  {
    var s1 := if i == 0 then s else rs[i - 1].state;
    var r := Read(o, s1.(indent := s1.indent + 1), ps[i]);
    && (i > 0 ==> rs[i - 1].outcome.Value?)
    && rs[i] == Run(r.state.(indent := s1.indent), r.outcome)
  }

  /** Expanding a text runs its programs; when all have ended with a value, the
      expansion fails if it was to fail, and otherwise succeeds. */
  lemma {:induction false} ExpansionIsReads<W>(o: Oracle<W>, s: State<W>, ps: seq<Program>, failure: Option<int>,
      rs: seq<Run<W>>)
    requires AreReads(o, s, ps, rs)
    requires |rs| == |ps| || (rs != [] && !rs[|rs| - 1].outcome.Value?)
    ensures Expand(o, s, ps, failure) ==
      if rs != [] && !rs[|rs| - 1].outcome.Value? then rs[|rs| - 1]
      else Run(if rs == [] then s else rs[|rs| - 1].state,
               if failure.Some? then Failed(failure.value) else Value(0))
    decreases |rs|
  {
    hide FlightOf, Read;
    if rs != [] {
      assert IsRead(o, s, ps, rs, 0);
      assert |rs| > 1 ==> IsRead(o, s, ps, rs, 1);
      LevelIsRestored(o, s, ps[0]);
      if rs[0].outcome.Value? {
        ReadsLater(o, s, ps, rs);
        ExpansionIsReads(o, rs[0].state, ps[1..], failure, rs[1..]);
      }
    }
  }

  lemma {:induction false} LevelIsRestored<W>(o: Oracle<W>, s: State<W>, p: Program)
    ensures var r := Read(o, s.(indent := s.indent + 1), p);
            Restored(s, Read(o, Indented(s, 0), p)) == Run(r.state.(indent := s.indent), r.outcome)
  {
    hide FlightOf;
    var s1 := s.(indent := s.indent + 1);
    assert Indented(s, 0) == s1;
    assert Keeps(s1, Read(o, s1, p));
    hide Read;
  }

  lemma {:induction false} ReadsLater<W>(o: Oracle<W>, s: State<W>, ps: seq<Program>, rs: seq<Run<W>>)
    requires AreReads(o, s, ps, rs) && rs != []
    ensures AreReads(o, rs[0].state, ps[1..], rs[1..])
  {
    hide Read;
    forall i | 0 <= i < |rs| - 1 ensures IsRead(o, rs[0].state, ps[1..], rs[1..], i) {
      assert IsRead(o, s, ps, rs, i + 1);
    }
  }

  // --------------------------------------------------------------- scripts

  /** What a script does, and what it returns, depends on no counter, flag or
      status of its caller, and changes none. */
  lemma {:induction false} ScriptsAreIsolated<W>(o: Oracle<W>, s: State<W>, t: State<W>, p: Program, exit: bool)
    requires s.polls == t.polls && s.log == t.log && s.world == t.world
    ensures var r, q := Script(o, s, p, exit), Script(o, t, p, exit);
            && r.outcome == q.outcome && r.state.polls == q.state.polls
            && r.state.log == q.state.log && r.state.world == q.state.world
            && r.state.indent == s.indent && r.state.loop == s.loop
            && r.state.exit == s.exit && r.state.status == s.status
  {
  }

  // ----------------------------------------------------------------- lists

  /** The value of a list is that of its last command; it is its status, and a
      failure is thrown when {exit} is set. */
  lemma {:induction false} ListEnds<W>(o: Oracle<W>, s: State<W>, cs: seq<Command>, rv: int)
    ensures var t := Through(o, s, cs, rv);
            ExecList(o, s, cs, rv) == if t.outcome.Value? then Ends(t.state, t.outcome.rv, true) else t
    decreases cs
  {
    hide FlightOf, Keeps, Exec;
    if cs != [] {
      if cs[0].Null? {
        ListEnds(o, s, cs[1..], rv);
      } else {
        var r := Exec(o, s, cs[0], true);
        if r.outcome.Value? {
          ListEnds(o, r.state, cs[1..], r.outcome.rv);
        }
      }
    }
  }

  /** Both sides of a pipe run, the left before the right; the status is that of
      the right. A side that is not there is left out. */
  lemma {:induction false} PipeEnds<W>(o: Oracle<W>, s: State<W>, left: Command, right: Command, throwup: bool)
    ensures var a := Exec(o, s, left, throwup);
            var b := Exec(o, a.state, right, throwup);
            var r := Exec(o, s, Binary(PIPE, left, right), throwup);
            && (left.Null? && right.Null? ==> r == Ends(s, 0, throwup))
            && (left.Null? && !right.Null? ==> r == Exec(o, s, right, throwup))
            && (!left.Null? && (right.Null? || !a.outcome.Value?) ==> r == a)
            && (!left.Null? && !right.Null? && a.outcome.Value? ==>
                  r == if b.outcome.Value? then Ends(b.state, b.outcome.rv, throwup) else b)
  {
    hide FlightOf, Keeps;
    var c := Binary(PIPE, left, right);
    assert Exec(o, s, c, throwup) == ExecPipe(o, s, c, throwup);
  }

  // ----------------------------------------------------------- constructs

  /** What Begin, Loop, For and the first line of an If expand: their first line,
      then their End, each with the programs in it. */
  lemma {:induction false} HeadersAreExpanded<W>(o: Oracle<W>, s: State<W>, b: string, e: string)
    ensures var r := Begin(o, s, b);
            var y := o.expand(r.state.world, e);
            var q := Expand(o, r.state, y.programs, y.failure);
            var x := o.enter(q.state.world, b, e);
            var h := EnterBlock(o, s, b, e);
            if !r.outcome.Value? then h.0 == r
            else if !q.outcome.Value? then h.0 == q
            else
              && h.0.state == q.state.(world := x.0)
              && h.0.outcome == (if x.1.Bad? then Failed(x.1.status) else Value(0))
              && (!x.1.Bad? ==> h.1 == x.1)
  {
    hide FlightOf, Keeps, Expand;
  }

  /** A construct whose lines fail ends with the status of the failure, and one
      that is misused with -3; nothing inside it runs. */
  lemma {:induction false} BadHeadersEnd<W>(o: Oracle<W>, s: State<W>, k: Terminal, cs: seq<Command>, b: string,
      e: string, throwup: bool)
    requires s.polls > 0
    ensures var h := EnterBlock(o, Polled(s), b, e);
            var r := Exec(o, s, Block(k, cs, b, e), throwup);
            && (h.0.outcome.Failed? ==> r == Ends(h.0.state, h.0.outcome.status, throwup))
            && (!h.0.outcome.Failed? && !h.0.outcome.Value? ==> r == h.0)
            && (h.0.outcome.Value? && h.1.Misused? ==> r == Ends(h.0.state, -3, throwup))
  {
    hide FlightOf, Keeps, EnterBlock;
    assert Exec(o, s, Block(k, cs, b, e), throwup) == ExecBlock(o, s, k, cs, b, e, throwup);
  }
}
