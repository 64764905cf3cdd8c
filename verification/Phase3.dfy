/** The parser of phase3.cpp: what one call of `parse` does, as a function of
    the parser's state, and the stateful parser that computes it. */
module Phase3 {
  import opened CommandTree
  import opened Automaton
  import opened ParserStack
  import opened ParserStep

  /** How a call of `parse` ended. */
  datatype Outcome = Shifted | Accepted | Dropped | Failed | Overflowed

  /** The parser after a call, how the call ended, and what the syntax errors
      that it reported were near. */
  datatype Fed = Fed(config: Config, outcome: Outcome, reports: seq<string>)

  function Near(t: Token): string {
    if t.kind.EOF? then "EOF" else t.text
  }

  /** The error branch of `parse`: report, drop the token, and fail at the end
      of the input. */
  function OnError(c: Config, t: Token): (f: Fed)
    ensures f.outcome == (if t.kind.EOF? then Failed else Dropped)
  {
    var reports := if c.errcnt <= 0 then [Near(t)] else [];
    if t.kind.EOF?
    then Fed(Config([BOTTOM], c.queue, -1, false), Failed, reports)
    else Fed(Config(c.stack, c.queue, 3, c.error || c.errcnt <= 0), Dropped, reports)
  }

  /** One call of `parse`. */
  function Feed(c: Config, t: Token): (f: Fed)
    requires Path(c.stack)
    ensures Path(f.config.stack)
    decreases Measure(c.stack)
  {
    match FindShiftAction(Top(c.stack).state, t.kind)
    case Error => OnError(c, t)
    case Reduce(r) =>
      ReduceFindsHandle(c.stack, t.kind, r);
      if Size(r) == 0 && |c.stack| == DEPTH then
        Fed(c.(stack := [BOTTOM]), Overflowed, [])
      else if r == 20 then
        Fed(Config([BOTTOM], c.queue, -1, false), Accepted, [])
      else
        ReduceKeepsPath(c.stack, r);
        ReduceDescends(c.stack, t.kind, r);
        Feed(ReduceBy(c, r), t)
    case _ =>
      if |c.stack| == DEPTH then
        Fed(c.(stack := [BOTTOM], errcnt := c.errcnt - 1), Overflowed, [])
      else
        ShiftKeepsPath(c.stack, t);
        Fed(c.(stack := Pushed(c.stack, t), errcnt := c.errcnt - 1), Shifted, [])
  }

  /** A reduce leaves the rest of the call to the reduced stack. */
  lemma {:induction false} FeedReduce(c: Config, t: Token, r: nat)
    requires Path(c.stack)
    requires FindShiftAction(Top(c.stack).state, t.kind) == Reduce(r) && r != 20
    requires r <= LAST_RULE && (Size(r) == 0 ==> |c.stack| < DEPTH)
    ensures HandleOnTop(c.stack, r) && (r < 27 || r > 32)
    ensures Path(ReduceBy(c, r).stack)
    ensures Measure(ReduceBy(c, r).stack) < Measure(c.stack)
    ensures Feed(c, t) == Feed(ReduceBy(c, r), t)
  {
    ReduceFindsHandle(c.stack, t.kind, r);
    ReduceKeepsPath(c.stack, r);
    ReduceDescends(c.stack, t.kind, r);
  }

  /** phase3::continuation: a construct is open or an operator waits. */
  predicate Continues(stack: seq<Entry>) {
    exists i :: 0 <= i < |stack| && OpensMore(stack[i].major)
  }

  predicate OpensMore(s: Symbol) {
    s.T? && (IsOpener(s.terminal) || IsOperator(s.terminal))
  }

  class Parser {
    const yystack: array<Entry>
    var yytos: nat
    var yyerrcnt: int
    var command_queue: seq<Command>
    var error: bool
    var reports: seq<string>  // the syntax errors on standard error

    ghost predicate Valid()
      reads this, yystack
    {
      yystack.Length == DEPTH && yytos < DEPTH && Path(yystack[..yytos + 1])
    }

    ghost function State(): Config
      reads this, yystack
      requires yystack.Length == DEPTH && yytos < DEPTH
    {
      Config(yystack[..yytos + 1], command_queue, yyerrcnt, error)
    }

    /** The call has ended as f says, after these reports. */
    ghost predicate Ended(f: Fed, before: seq<string>, outcome: Outcome)
      reads this, yystack
    {
      && yystack.Length == DEPTH && yytos < DEPTH
      && f == Fed(State(), outcome, f.reports)
      && reports == before + f.reports
    }

    constructor ()
      ensures Valid() && fresh(yystack)
      ensures State() == INITIAL && reports == []
    {
      yystack := new Entry[DEPTH](_ => BOTTOM);
      yytos := 0;
      yyerrcnt := -1;
      command_queue := [];
      error := false;
      reports := [];
      new;
      assert yystack[..1] == [BOTTOM];
    }

    /** Pops every entry above the bottom one. */
    method PopAll()
      requires Valid()
      modifies this`yytos
      ensures Valid()
      ensures State() == old(State()).(stack := [BOTTOM])
    {
      while yytos > 0
        invariant Valid()
      {
        PathPrefix(yystack[..yytos + 1], yytos);
        assert yystack[..yytos + 1][..yytos] == yystack[..yytos];
        yytos := yytos - 1;
      }
      assert yystack[..1] == [BOTTOM];
    }

    method Reset()
      requires Valid()
      modifies this
      ensures Valid()
      ensures State() == old(State()).(stack := [BOTTOM], errcnt := -1) && reports == old(reports)
    {
      PopAll();
      yyerrcnt := -1;
    }

    /** yy_shift. */
    method YyShift(t: Token) returns (ghost overflow: bool)
      requires Valid()
      requires Shifts(Top(State().stack).state, t.kind)
      modifies this`yytos, yystack
      ensures Valid()
      ensures overflow == (|old(State()).stack| == DEPTH)
      ensures State() == old(State()).(stack := if overflow then [BOTTOM] else Pushed(old(State()).stack, t))
    {
      ghost var before := yystack[..yytos + 1];
      yytos := yytos + 1;
      if yytos > DEPTH - 1 {
        yytos := yytos - 1;
        PopAll();
        return true;
      }
      ShiftKeepsPath(before, t);
      var state := match FindShiftAction(yystack[yytos - 1].state, t.kind)
        case Shift(n) => At(n)
        case ShiftReduce(r) => Pending(r)
        case _ => At(0);
      yystack[yytos] := Entry(state, T(t.kind), Text(t.text));
      assert yystack[..yytos + 1] == Pushed(before, t);
      return false;
    }

    /** The goto half of yy_reduce: the reduced entry replaces the handle. */
    method YyReplace(r: nat)
      requires Valid()
      requires HandleOnTop(State().stack, r) && r != 20 && (r < 27 || r > 32)
      requires |Rest(State().stack, r)| < DEPTH
      modifies this`yytos, yystack
      ensures Valid()
      ensures State() == ReduceBy(old(State()), r).(queue := old(command_queue))
    {
      hide EdgeAt;
      ghost var before := State();
      ReduceKeepsPath(before.stack, r);
      var base := yytos + 1 - Size(r);
      var rhs := yystack[base..yytos + 1];
      assert rhs == Window(before.stack, r);
      assert yystack[base - 1] == Top(Rest(before.stack, r));
      var goto := FindReduceAction(yystack[base - 1].state.number, Lhs(r));
      assert yystack[..base] == Rest(before.stack, r);
      var e := Entry(goto.state, N(Lhs(r)), Semantic(r, rhs));
      assert e == ReducedEntry(before.stack, r);
      ghost var rest := yystack[..base];
      yystack[base] := e;
      yytos := base;
      assert yystack[..base] == rest;
      assert yystack[..base + 1] == rest + [e];
    }

    method YyAccept()
      requires Valid()
      modifies this
      ensures Valid()
      ensures State() == Config([BOTTOM], old(command_queue), -1, false) && reports == old(reports)
    {
      PathPrefix(yystack[..yytos + 1], 1);
      assert yystack[..yytos + 1][..1] == yystack[..1] == [BOTTOM];
      yytos := 0;
      yyerrcnt := -1;
      error := false;
    }

    /** yy_reduce. */
    method YyReduce(r: nat) returns (ghost overflow: bool)
      requires Valid()
      requires HandleOnTop(State().stack, r) && (r < 27 || r > 32)
      modifies this, yystack
      ensures Valid()
      ensures overflow == (Size(r) == 0 && |old(State()).stack| == DEPTH)
      ensures State() ==
        if overflow then old(State()).(stack := [BOTTOM])
        else if r == 20 then Config([BOTTOM], old(State()).queue, -1, false)
        else ReduceBy(old(State()), r)
      ensures reports == old(reports)
    {
      hide EdgeAt;
      if Size(r) == 0 && yytos >= DEPTH - 1 {
        PopAll();
        return true;
      }
      var base := yytos + 1 - Size(r);
      var rhs := yystack[base..yytos + 1];
      assert rhs == Window(State().stack, r);
      assert yystack[base - 1] == Top(Rest(State().stack, r));
      if FindReduceAction(yystack[base - 1].state.number, Lhs(r)).Accept? {
        YyAccept();
      } else {
        YyReplace(r);
        command_queue := command_queue + Queued(r, rhs);
      }
      return false;
    }

    /** The error branch of parse. */
    method YyError(t: Token)
      requires Valid()
      modifies this
      ensures Valid()
      ensures Ended(OnError(old(State()), t), old(reports), OnError(old(State()), t).outcome)
    {
      if yyerrcnt <= 0 {
        reports := reports + [Near(t)];
        error := true;
      }
      yyerrcnt := 3;
      if t.kind.EOF? {
        PopAll();
        error := false;
        yyerrcnt := -1;
      }
    }

    /** One round of the loop of parse; `more` while the token is still unused. */
    method Round(t: Token) returns (more: bool, ghost outcome: Outcome)
      requires Valid()
      modifies this, yystack
      ensures Valid()
      ensures more ==> Feed(State(), t) == Feed(old(State()), t)
      ensures more ==> Measure(State().stack) < Measure(old(State().stack)) && reports == old(reports)
      ensures !more ==> Ended(Feed(old(State()), t), old(reports), outcome)
    {
      hide HandleOnTop, Semantic, Path;
      ghost var before := State();
      assert Top(before.stack) == yystack[yytos];
      match FindShiftAction(yystack[yytos].state, t.kind)
      case Error =>
        YyError(t);
        more := false;
        outcome := OnError(before, t).outcome;
      case Reduce(r) =>
        ReduceFindsHandle(before.stack, t.kind, r);
        ghost var overflow := YyReduce(r);
        if !overflow && r != 20 {
          ReduceDescends(before.stack, t.kind, r);
        }
        more := yytos > 0;
        outcome := if overflow then Overflowed else Accepted;
      case _ =>
        ghost var overflow := YyShift(t);
        yyerrcnt := yyerrcnt - 1;
        more := false;
        outcome := if overflow then Overflowed else Shifted;
    }

    /** parse. */
    method Parse(t: Token) returns (ghost outcome: Outcome)
      requires Valid()
      modifies this, yystack
      ensures Valid()
      ensures Ended(Feed(old(State()), t), old(reports), outcome)
    {
      var more;
      more, outcome := Round(t);
      while more
        invariant Valid()
        invariant more ==> Feed(State(), t) == Feed(old(State()), t) && reports == old(reports)
        invariant !more ==> Ended(Feed(old(State()), t), old(reports), outcome)
        decreases more, Measure(State().stack)
      {
        more, outcome := Round(t);
      }
    }

    /** continuation. */
    method Continuation() returns (more: bool)
      requires Valid()
      ensures more == Continues(State().stack)
    {
      ghost var stack := State().stack;
      var i := 0;
      while i <= yytos
        invariant i <= yytos + 1
        invariant forall j :: 0 <= j < i ==> !OpensMore(stack[j].major)
      {
        assert stack[i] == yystack[i];
        if OpensMore(yystack[i].major) {
          return true;
        }
        i := i + 1;
      }
      return false;
    }
  }
}
