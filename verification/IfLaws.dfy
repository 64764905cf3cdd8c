/** What an If runs. */
module IfLaws {
  import opened CommandTree
  import opened Execution

  // ------------------------------------------------------ the conditions
  predicate SameHeaders(a: seq<Clause>, b: seq<Clause>) {
    && |a| == |b|
    && forall i :: 0 <= i < |a| ==> a[i].kind == b[i].kind && a[i].clause == b[i].clause
  }

  /** The values of the conditions that an If evaluates: positive for true,
      zero for false, the status of an error otherwise. The list ends with the
      first that is not zero. */
  function Tests<W>(o: Oracle<W>, s: State<W>, cls: seq<Clause>, end: string): seq<int> {
    if cls == [] || Poll(s).outcome.Terminated? then []
    else
      var h := EnterBlock(o, Poll(s).state, cls[0].clause, end);
      match h.0.outcome
      case Failed(k) =>
        if k == 0 then [0] + ElseTests(o, h.0.state.(status := 0), cls[1..]) else [-1]
      case Value(_) =>
        var y := o.condition(h.0.state.world, cls[0].kind, cls[0].clause);
        if y.1 == 0 then [0] + ElseTests(o, h.0.state.(world := y.0, status := 0), cls[1..]) else [y.1]
      case _ => []
  }

  function ElseTests<W>(o: Oracle<W>, s: State<W>, cls: seq<Clause>): seq<int>
    decreases cls
  {
    if cls == [] || Poll(s).outcome.Terminated? then []
    else
      var h := EnterElse(o, Poll(s).state, cls[0].clause);
      match h.0.outcome
      case Failed(k) =>
        if k == 0 then [0] + ElseTests(o, h.0.state.(status := 0), cls[1..]) else [-1]
      case Value(_) =>
        if h.1 then [0] + ElseTests(o, h.0.state, cls[1..])
        else
          var y := o.condition(h.0.state.world, cls[0].kind, cls[0].clause);
          if y.1 == 0 then [0] + ElseTests(o, h.0.state.(world := y.0, status := 0), cls[1..]) else [y.1]
      case _ => []
  }

  /** Clause i is the first true one, and no earlier one had an error. */
  predicate Selects(tests: seq<int>, i: nat) {
    i < |tests| && tests[i] > 0 && forall j :: 0 <= j < i ==> tests[j] == 0
  }

  lemma {:induction false} SelectsLater(tests: seq<int>, i: nat)
    ensures Selects([0] + tests, i) <==> i > 0 && Selects(tests, i - 1)
  {
    if i > 0 && Selects(tests, i - 1) {
      forall j | 0 <= j < i ensures ([0] + tests)[j] == 0 {
        if j > 0 {
          assert tests[j - 1] == 0;
        }
      }
    }
    if Selects([0] + tests, i) {
      forall j | 0 <= j < i - 1 ensures tests[j] == 0 {
        assert ([0] + tests)[j + 1] == 0;
      }
    }
  }

  /** Which else clause is selected, and the state in which its body starts. */
  function ElseStart<W>(o: Oracle<W>, s: State<W>, cls: seq<Clause>): Option<(nat, State<W>)>
    decreases cls
  {
    if cls == [] || Poll(s).outcome.Terminated? then None
    else
      var h := EnterElse(o, Poll(s).state, cls[0].clause);
      match h.0.outcome
      case Failed(k) => if k == 0 then Later(ElseStart(o, h.0.state.(status := 0), cls[1..])) else None
      case Value(_) =>
        if h.1 then Later(ElseStart(o, h.0.state, cls[1..]))
        else
          var y := o.condition(h.0.state.world, cls[0].kind, cls[0].clause);
          var s1 := h.0.state.(world := y.0);
          if y.1 == 0 then Later(ElseStart(o, s1.(status := 0), cls[1..]))
          else if y.1 > 0 then Some((0, s1))
          else None
      case _ => None
  }

  function Later<W>(x: Option<(nat, State<W>)>): Option<(nat, State<W>)> {
    if x.None? then None else Some((x.value.0 + 1, x.value.1))
  }

  /** The same for all clauses. */
  function Start<W>(o: Oracle<W>, s: State<W>, cls: seq<Clause>, end: string): Option<(nat, State<W>)> {
    if cls == [] || Poll(s).outcome.Terminated? then None
    else
      var h := EnterBlock(o, Poll(s).state, cls[0].clause, end);
      match h.0.outcome
      case Failed(k) => if k == 0 then Later(ElseStart(o, h.0.state.(status := 0), cls[1..])) else None
      case Value(_) =>
        var y := o.condition(h.0.state.world, cls[0].kind, cls[0].clause);
        var s1 := h.0.state.(world := y.0);
        if y.1 == 0 then Later(ElseStart(o, s1.(status := 0), cls[1..]))
        else if y.1 > 0 then Some((0, s1))
        else None
      case _ => None
  }

  /** What the commands of a clause come to, in the state that its condition
      leaves. */
  function BodyRun<W>(o: Oracle<W>, s: State<W>, cl: Clause): Run<W> {
    Restored(s, ExecList(o, Indented(s, 0), cl.children, 0))
  }

  // -------------------------------------------------------- clause by clause

  /** One else clause while none was selected: what it does, by its test. */
  lemma {:induction false} ElseStep<W>(o: Oracle<W>, s: State<W>, cls: seq<Clause>, rv: int)
    requires cls != [] && s.polls > 0
    ensures var f := ExecElse(o, Poll(s).state, cls[0], Locals(rv, 0, false));
            var tests := ElseTests(o, s, cls);
            var start := ElseStart(o, s, cls);
            if tests == [] then !f.0.outcome.Value? && start.None?
            else if tests[0] > 0 then
              && start.Some? && start.value.0 == 0
              && f == ElseBody(BodyRun(o, start.value.1, cls[0]), Locals(rv, 0, true))
            else
              && f.0.outcome.Value?
              && (tests[0] == 0 ==>
                    && f.1 == Locals(rv, 0, false)
                    && tests == [0] + ElseTests(o, f.0.state, cls[1..])
                    && start == Later(ElseStart(o, f.0.state, cls[1..])))
              && (tests[0] < 0 ==> f.1.error != 0 && start.None? && |tests| == 1)
  {
    hide FlightOf, Keeps, ExecList, EnterElse;
  }

  lemma {:induction false} FirstStep<W>(o: Oracle<W>, s: State<W>, cls: seq<Clause>, end: string)
    requires cls != [] && s.polls > 0
    ensures var f := ExecFirst(o, Poll(s).state, cls[0], end);
            var tests := Tests(o, s, cls, end);
            var start := Start(o, s, cls, end);
            if tests == [] then !f.0.outcome.Value? && start.None?
            else if tests[0] > 0 then
              && start.Some? && start.value.0 == 0
              && f == FirstBody(BodyRun(o, start.value.1, cls[0]))
            else
              && f.0.outcome.Value?
              && (tests[0] == 0 ==>
                    && f.1 == Locals(0, 0, false)
                    && tests == [0] + ElseTests(o, f.0.state, cls[1..])
                    && start == Later(ElseStart(o, f.0.state, cls[1..])))
              && (tests[0] < 0 ==> f.1.error != 0 && start.None? && |tests| == 1)
  {
    hide FlightOf, Keeps, ExecList, EnterBlock;
  }

  function FirstBody<W>(b: Run<W>): (Run<W>, Locals) {
    if b.outcome.Value? then (Run(b.state.(status := 0), Value(0)), Locals(b.outcome.rv, 0, true))
    else (b, Locals(0, 0, true))
  }

  // --------------------------------------------- bodies that are not selected

  /** The same clause with another body does the same, unless it is selected. */
  lemma {:induction false} ElseIgnoresBody<W>(o: Oracle<W>, s: State<W>, a: seq<Clause>, b: seq<Clause>, rv: int)
    requires a != [] && SameHeaders(a, b) && s.polls > 0
    requires !Selects(ElseTests(o, s, a), 0)
    ensures ExecElse(o, Poll(s).state, a[0], Locals(rv, 0, false)) ==
      ExecElse(o, Poll(s).state, b[0], Locals(rv, 0, false))
  {
    hide FlightOf, Keeps, ExecList, EnterElse;
  }

  lemma {:induction false} FirstIgnoresBody<W>(o: Oracle<W>, s: State<W>, a: seq<Clause>, b: seq<Clause>, end: string)
    requires a != [] && SameHeaders(a, b) && s.polls > 0
    requires !Selects(Tests(o, s, a, end), 0)
    ensures ExecFirst(o, Poll(s).state, a[0], end) == ExecFirst(o, Poll(s).state, b[0], end)
  {
    hide FlightOf, Keeps, ExecList, EnterBlock;
  }

  lemma {:induction false} SettledIgnoresBody<W>(o: Oracle<W>, s: State<W>, a: Clause, b: Clause, v: Locals)
    requires a.kind == b.kind && a.clause == b.clause && (v.skip || v.error != 0)
    ensures ExecElse(o, s, a, v) == ExecElse(o, s, b, v)
    ensures var v' := ExecElse(o, s, a, v).1;
            v'.skip || v'.error != 0
  {
    hide FlightOf, Keeps, ExecList, EnterElse;
  }

  lemma {:induction false} SettledElsesIgnoreBodies<W>(o: Oracle<W>, s: State<W>, a: seq<Clause>, b: seq<Clause>,
      v: Locals, throwup: bool)
    requires SameHeaders(a, b) && (v.skip || v.error != 0)
    ensures ExecElses(o, s, a, v, throwup) == ExecElses(o, s, b, v, throwup)
    decreases a
  {
    hide FlightOf, Keeps, ExecElse;
    if a != [] && s.polls > 0 {
      SettledIgnoresBody(o, Poll(s).state, a[0], b[0], v);
      var f := ExecElse(o, Poll(s).state, a[0], v);
      if f.0.outcome.Value? {
        SettledElsesIgnoreBodies(o, f.0.state, a[1..], b[1..], f.1, throwup);
      }
    }
  }

  /** Two lists of clauses differ at most in bodies that are not selected. */
  ghost predicate Alike(a: seq<Clause>, b: seq<Clause>, tests: seq<int>) {
    && SameHeaders(a, b)
    && forall i :: 0 <= i < |a| && Selects(tests, i) ==> a[i] == b[i]
  }

  lemma {:induction false} AlikeLater(a: seq<Clause>, b: seq<Clause>, tests: seq<int>)
    requires a != [] && Alike(a, b, [0] + tests)
    ensures Alike(a[1..], b[1..], tests)
  {
    forall i | 0 <= i < |a| - 1 && Selects(tests, i) ensures a[1..][i] == b[1..][i] {
      SelectsLater(tests, i + 1);
    }
  }

  lemma {:induction false} ElsesRunOneBody<W>(o: Oracle<W>, s: State<W>, a: seq<Clause>, b: seq<Clause>, rv: int,
      throwup: bool)
    requires Alike(a, b, ElseTests(o, s, a))
    ensures ExecElses(o, s, a, Locals(rv, 0, false), throwup) == ExecElses(o, s, b, Locals(rv, 0, false), throwup)
    decreases a
  {
    hide FlightOf, Keeps, ExecElse, ElseTests, ElseStart;
    if a != [] && s.polls > 0 {
      var tests := ElseTests(o, s, a);
      if !Selects(tests, 0) {
        ElseIgnoresBody(o, s, a, b, rv);
      }
      ElseStep(o, s, a, rv);
      var f := ExecElse(o, Poll(s).state, a[0], Locals(rv, 0, false));
      if f.0.outcome.Value? {
        if tests[0] == 0 {
          AlikeLater(a, b, ElseTests(o, f.0.state, a[1..]));
          ElsesRunOneBody(o, f.0.state, a[1..], b[1..], rv, throwup);
        } else {
          SettledElsesIgnoreBodies(o, f.0.state, a[1..], b[1..], f.1, throwup);
        }
      }
    }
  }

  /** An If runs at most one body: that of the first true clause with no error
      before it. The commands of every other clause could be anything. */
  lemma {:induction false} IfRunsOneBody<W>(o: Oracle<W>, s: State<W>, a: seq<Clause>, b: seq<Clause>, end: string,
      throwup: bool)
    requires Alike(a, b, Tests(o, s, a, end))
    ensures Exec(o, s, If(a, end), throwup) == Exec(o, s, If(b, end), throwup)
  {
    hide FlightOf, Keeps, ExecFirst, ExecElses, Tests, Start;
    if a != [] && s.polls > 0 {
      var tests := Tests(o, s, a, end);
      if !Selects(tests, 0) {
        FirstIgnoresBody(o, s, a, b, end);
      }
      FirstStep(o, s, a, end);
      var f := ExecFirst(o, Poll(s).state, a[0], end);
      if f.0.outcome.Value? {
        if tests[0] == 0 {
          AlikeLater(a, b, ElseTests(o, f.0.state, a[1..]));
          ElsesRunOneBody(o, f.0.state, a[1..], b[1..], 0, throwup);
        } else {
          SettledElsesIgnoreBodies(o, f.0.state, a[1..], b[1..], f.1, throwup);
        }
      }
    }
  }

  // ------------------------------------------------ no body is selected

  /** What the lines of else clauses come to when no clause is selected, and the
      error that is left: the last one. error is that of the clauses before. A
      condition is evaluated only while there was no error. */
  function Unselected<W>(o: Oracle<W>, s: State<W>, cls: seq<Clause>, error: int): (Run<W>, int)
    decreases cls
  {
    if cls == [] then (Run(s, Value(0)), error)
    else if Poll(s).outcome.Terminated? then (Poll(s), error)
    else
      var h := EnterElse(o, Poll(s).state, cls[0].clause);
      match h.0.outcome
      case Failed(k) => Unselected(o, h.0.state.(status := k), cls[1..], if k != 0 then k else error)
      case Value(_) =>
        if h.1 then Unselected(o, h.0.state, cls[1..], error)
        else if error != 0 then Unselected(o, h.0.state.(status := 0), cls[1..], error)
        else
          var y := o.condition(h.0.state.world, cls[0].kind, cls[0].clause);
          Unselected(o, h.0.state.(world := y.0, status := 0), cls[1..], y.1)
      case _ => (h.0, error)
  }

  lemma {:induction false} UnselectedStep<W>(o: Oracle<W>, s: State<W>, cls: seq<Clause>, error: int)
    requires cls != [] && s.polls > 0
    requires error != 0 || !Selects(ElseTests(o, s, cls), 0)
    ensures var f := ExecElse(o, Poll(s).state, cls[0], Locals(0, error, false));
            && (f.0.outcome.Value? ==>
                  && !f.1.skip && f.1.rv == 0
                  && Unselected(o, s, cls, error) == Unselected(o, f.0.state, cls[1..], f.1.error)
                  && (error != 0 ==> f.1.error != 0)
                  && (error == 0 && f.1.error == 0 ==> ElseTests(o, s, cls) == [0] + ElseTests(o, f.0.state, cls[1..])))
            && (!f.0.outcome.Value? ==> Unselected(o, s, cls, error) == (f.0, error))
  {
    hide FlightOf, Keeps, ExecList, EnterElse;
  }

  lemma {:induction false} UnselectedElses<W>(o: Oracle<W>, s: State<W>, cls: seq<Clause>, error: int, throwup: bool)
    requires error != 0 || forall i: nat :: !Selects(ElseTests(o, s, cls), i)
    ensures var t := Unselected(o, s, cls, error);
            ExecElses(o, s, cls, Locals(0, error, false), throwup) ==
              if t.0.outcome.Value? then SetStatus(t.0.state, t.1, throwup) else t.0
    decreases cls
  {
    hide FlightOf, Keeps, ExecElse, ElseTests;
    if cls != [] && s.polls > 0 {
      UnselectedStep(o, s, cls, error);
      var f := ExecElse(o, Poll(s).state, cls[0], Locals(0, error, false));
      if f.0.outcome.Value? {
        if error == 0 && f.1.error == 0 {
          forall i: nat ensures !Selects(ElseTests(o, f.0.state, cls[1..]), i) {
            SelectsLater(ElseTests(o, f.0.state, cls[1..]), i + 1);
          }
        }
        UnselectedElses(o, f.0.state, cls[1..], f.1.error, throwup);
      }
    }
  }

  /** The same from the first clause on. */
  function UnselectedAll<W>(o: Oracle<W>, s: State<W>, cls: seq<Clause>, end: string): (Run<W>, int) {
    if cls == [] then (Run(s, Value(0)), 0)
    else if Poll(s).outcome.Terminated? then (Poll(s), 0)
    else
      var h := EnterBlock(o, Poll(s).state, cls[0].clause, end);
      match h.0.outcome
      case Failed(k) => Unselected(o, h.0.state.(status := k), cls[1..], k)
      case Value(_) =>
        var y := o.condition(h.0.state.world, cls[0].kind, cls[0].clause);
        Unselected(o, h.0.state.(world := y.0, status := 0), cls[1..], y.1)
      case _ => (h.0, 0)
  }

  /** An If in which no clause is selected runs no body. Its status is the last
      error of its lines and conditions, and 0 when there was none. */
  lemma {:induction false} IfWithoutBody<W>(o: Oracle<W>, s: State<W>, cls: seq<Clause>, end: string, throwup: bool)
    requires forall i: nat :: !Selects(Tests(o, s, cls, end), i)
    ensures var t := UnselectedAll(o, s, cls, end);
            Exec(o, s, If(cls, end), throwup) ==
              if t.0.outcome.Value? then SetStatus(t.0.state, t.1, throwup) else t.0
  {
    hide FlightOf, Keeps, ExecList, EnterBlock, ExecElses, Unselected, ElseTests;
    assert !Selects(Tests(o, s, cls, end), 0);
    if cls != [] && s.polls > 0 {
      var f := ExecFirst(o, Poll(s).state, cls[0], end);
      if f.0.outcome.Value? {
        FirstStep(o, s, cls, end);
        if f.1.error == 0 {
          forall i: nat ensures !Selects(ElseTests(o, f.0.state, cls[1..]), i) {
            SelectsLater(ElseTests(o, f.0.state, cls[1..]), i + 1);
          }
        }
        UnselectedElses(o, f.0.state, cls[1..], f.1.error, throwup);
      }
    }
  }

  // ----------------------------------------------- the body that is selected

  /** What the lines of the clauses behind the selected one come to. Their
      conditions are not evaluated and their bodies are not run. */
  function Skipped<W>(o: Oracle<W>, s: State<W>, cls: seq<Clause>): Run<W>
    decreases cls
  {
    if cls == [] then Run(s, Value(0))
    else if Poll(s).outcome.Terminated? then Poll(s)
    else
      var h := EnterElse(o, Poll(s).state, cls[0].clause);
      match h.0.outcome
      case Failed(k) => Skipped(o, h.0.state.(status := k), cls[1..])
      case Value(_) => Skipped(o, if h.1 then h.0.state else h.0.state.(status := 0), cls[1..])
      case _ => h.0
  }

  /** The end of an If whose value is rv. */
  function Settled<W>(o: Oracle<W>, s: State<W>, later: seq<Clause>, rv: int, throwup: bool): Run<W> {
    var r := Skipped(o, s, later);
    if r.outcome.Value? then SetStatus(r.state, rv, throwup) else r
  }

  /** What an If comes to whose selected body, that of clause i, comes to b. */
  function AfterBody<W>(o: Oracle<W>, b: Run<W>, i: nat, later: seq<Clause>, throwup: bool): Run<W> {
    match b.outcome
    case Value(rv) => Settled(o, b.state.(status := 0), later, rv, throwup)
    case Terminated(k) =>
      if i == 0 then b else Settled(o, Logged(b.state, Absorbed(k)).(status := k), later, 0, throwup)
    case _ => b
  }

  lemma {:induction false} SkippedStep<W>(o: Oracle<W>, s: State<W>, cls: seq<Clause>, rv: int)
    requires cls != [] && s.polls > 0
    ensures var f := ExecElse(o, Poll(s).state, cls[0], Locals(rv, 0, true));
            && Skipped(o, s, cls) == (if f.0.outcome.Value? then Skipped(o, f.0.state, cls[1..]) else f.0)
            && f.1 == Locals(rv, 0, true)
  {
    hide FlightOf, Keeps, ExecList, EnterElse;
  }

  lemma {:induction false} SkippedElses<W>(o: Oracle<W>, s: State<W>, cls: seq<Clause>, rv: int, throwup: bool)
    ensures ExecElses(o, s, cls, Locals(rv, 0, true), throwup) == Settled(o, s, cls, rv, throwup)
    ensures s.log <= Settled(o, s, cls, rv, throwup).state.log
    decreases cls
  {
    assert s.log <= ExecElses(o, s, cls, Locals(rv, 0, true), throwup).state.log by {
      assert Keeps(s, ExecElses(o, s, cls, Locals(rv, 0, true), throwup));
    }
    hide FlightOf, Keeps, ExecElse;
    if cls != [] && s.polls > 0 {
      SkippedStep(o, s, cls, rv);
      var f := ExecElse(o, Poll(s).state, cls[0], Locals(rv, 0, true));
      if f.0.outcome.Value? {
        SkippedElses(o, f.0.state, cls[1..], rv, throwup);
      }
    }
  }

  lemma {:induction false} ElseStartIsSelected<W>(o: Oracle<W>, s: State<W>, cls: seq<Clause>, i: nat)
    requires Selects(ElseTests(o, s, cls), i)
    ensures ElseStart(o, s, cls).Some? && ElseStart(o, s, cls).value.0 == i < |cls|
    decreases cls
  {
    hide FlightOf, Keeps, ExecElse;
    if cls != [] && s.polls > 0 {
      ElseStep(o, s, cls, 0);
      var tests := ElseTests(o, s, cls);
      hide ElseTests, ElseStart;
      if tests[0] == 0 {
        var f := ExecElse(o, Poll(s).state, cls[0], Locals(0, 0, false));
        SelectsLater(ElseTests(o, f.0.state, cls[1..]), i);
        ElseStartIsSelected(o, f.0.state, cls[1..], i - 1);
      }
    }
  }

  lemma {:induction false} SelectedElseRuns<W>(o: Oracle<W>, s: State<W>, cls: seq<Clause>, throwup: bool)
    requires ElseStart(o, s, cls).Some? && ElseStart(o, s, cls).value.0 < |cls|
    ensures var i := ElseStart(o, s, cls).value.0;
            ExecElses(o, s, cls, Locals(0, 0, false), throwup) ==
              AfterBody(o, BodyRun(o, ElseStart(o, s, cls).value.1, cls[i]), i + 1, cls[i + 1..], throwup)
    decreases cls
  {
    hide FlightOf, Keeps, ExecElse;
    ElseStep(o, s, cls, 0);
    var start := ElseStart(o, s, cls).value;
    var f := ExecElse(o, Poll(s).state, cls[0], Locals(0, 0, false));
    hide ElseTests, ElseStart, Settled, BodyRun;
    if start.0 == 0 {
      if f.0.outcome.Value? {
        SkippedElses(o, f.0.state, cls[1..], f.1.rv, throwup);
      }
    } else {
      SelectedElseRuns(o, f.0.state, cls[1..], throwup);
      assert cls[1..][start.0..] == cls[start.0 + 1..];
    }
  }

  /** The body of the selected clause is run, and what it comes to decides what
      the If comes to. */
  lemma {:induction false} SelectedBodyRuns<W>(o: Oracle<W>, s: State<W>, cls: seq<Clause>, end: string, i: nat,
      throwup: bool)
    requires Selects(Tests(o, s, cls, end), i)
    ensures Start(o, s, cls, end).Some? && Start(o, s, cls, end).value.0 == i < |cls|
    ensures Exec(o, s, If(cls, end), throwup) ==
      AfterBody(o, BodyRun(o, Start(o, s, cls, end).value.1, cls[i]), i, cls[i + 1..], throwup)
  {
    hide FlightOf, Keeps, ExecFirst, ExecElses;
    FirstStep(o, s, cls, end);
    var tests := Tests(o, s, cls, end);
    var f := ExecFirst(o, Poll(s).state, cls[0], end);
    hide Tests, Start, Settled, BodyRun;
    if i == 0 {
      if f.0.outcome.Value? {
        SkippedElses(o, f.0.state, cls[1..], f.1.rv, throwup);
      }
    } else {
      SelectsLater(ElseTests(o, f.0.state, cls[1..]), i);
      ElseStartIsSelected(o, f.0.state, cls[1..], i - 1);
      SelectedElseRuns(o, f.0.state, cls[1..], throwup);
      assert cls[1..][i..] == cls[i + 1..];
    }
  }

  /** A termination in the selected body ends the If exactly when the clause is
      the first. An else clause swallows it, and the If goes on: it then ends
      with status 0, unless the line of a later clause is interrupted. */
  lemma {:induction false} TerminationEndsIf<W>(o: Oracle<W>, s: State<W>, cls: seq<Clause>, end: string, i: nat,
      throwup: bool, k: int)
    requires Selects(Tests(o, s, cls, end), i)
    requires Start(o, s, cls, end).Some? && i < |cls|
    requires BodyRun(o, Start(o, s, cls, end).value.1, cls[i]).outcome == Terminated(k)
    ensures var b := BodyRun(o, Start(o, s, cls, end).value.1, cls[i]);
            var r := Exec(o, s, If(cls, end), throwup);
            && (r == b <==> i == 0)
            && (i > 0 ==>
                  && b.state.log + [Absorbed(k)] <= r.state.log
                  && (r.outcome.Value? ==> r.outcome == Value(0) && r.state.status == 0)
                  && (r.outcome.Terminated? ==> r.outcome.status == INTERRUPTED))
  {
    hide FlightOf, Keeps, Exec, Tests, Start, BodyRun, Settled;
    SelectedBodyRuns(o, s, cls, end, i, throwup);
    var b := BodyRun(o, Start(o, s, cls, end).value.1, cls[i]);
    if i > 0 {
      var s1 := Logged(b.state, Absorbed(k)).(status := k);
      SkippedElses(o, s1, cls[i + 1..], 0, throwup);
      SettledEnds(o, s1, cls[i + 1..], 0, throwup);
    }
  }

  /** A body that ends with a value gives the If its value. */
  lemma {:induction false} ValueIsThatOfBody<W>(o: Oracle<W>, s: State<W>, cls: seq<Clause>, end: string, i: nat,
      throwup: bool)
    requires Selects(Tests(o, s, cls, end), i)
    requires Start(o, s, cls, end).Some? && i < |cls|
    requires BodyRun(o, Start(o, s, cls, end).value.1, cls[i]).outcome.Value?
    ensures var b := BodyRun(o, Start(o, s, cls, end).value.1, cls[i]);
            var r := Exec(o, s, If(cls, end), throwup);
            && b.state.log <= r.state.log
            && (r.outcome.Value? ==> r.outcome == b.outcome && r.state.status == b.outcome.rv)
            && (r.outcome.Terminated? ==> r.outcome.status == INTERRUPTED || r.outcome.status == b.outcome.rv)
  {
    hide FlightOf, Keeps, Exec, Tests, Start, BodyRun, Settled;
    SelectedBodyRuns(o, s, cls, end, i, throwup);
    var b := BodyRun(o, Start(o, s, cls, end).value.1, cls[i]);
    SkippedElses(o, b.state.(status := 0), cls[i + 1..], b.outcome.rv, throwup);
    SettledEnds(o, b.state.(status := 0), cls[i + 1..], b.outcome.rv, throwup);
  }

  lemma {:induction false} SettledEnds<W>(o: Oracle<W>, s: State<W>, later: seq<Clause>, rv: int, throwup: bool)
    ensures var r := Settled(o, s, later, rv, throwup);
            && (r.outcome.Value? ==> r.outcome == Value(rv) && r.state.status == rv)
            && (r.outcome.Terminated? ==> r.outcome.status == INTERRUPTED || (rv != 0 && r.outcome.status == rv))
    decreases later
  {
    hide FlightOf, Keeps;
    if later != [] && s.polls > 0 {
      var h := EnterElse(o, Poll(s).state, later[0].clause);
      match h.0.outcome {
        case Failed(k) => SettledEnds(o, h.0.state.(status := k), later[1..], rv, throwup);
        case Value(_) => SettledEnds(o, if h.1 then h.0.state else h.0.state.(status := 0), later[1..], rv, throwup);
        case _ =>
      }
    }
  }
}
