/** What Break and Continue do to the loop that they are in. */
module LoopLaws {
  import opened CommandTree
  import opened Execution

  // ------------------------------------------------------------------ rounds

  /** One round of a Loop: the poll, and the commands one level deeper. */
  function Round<W>(o: Oracle<W>, s: State<W>, cs: seq<Command>): (r: Run<W>)
    ensures GoesOn(r) ==> r.state.polls < s.polls
  {
    hide FlightOf;
    var p := Poll(s);
    if p.outcome.Terminated? then p else Body(o, p.state, cs)
  }

  /** One round of a For: the poll, the word for the variable, and the commands. */
  function ForRound<W>(o: Oracle<W>, s: State<W>, b: string, word: string, cs: seq<Command>): Run<W> {
    var p := Poll(s);
    if p.outcome.Terminated? then p
    else
      var x := o.assign(p.state.world, b, word);
      var exit := if x.1.Some? then x.1.value else s.exit;
      Body(o, p.state.(world := x.0, exit := exit), cs)
  }

  function Body<W>(o: Oracle<W>, s: State<W>, cs: seq<Command>): (r: Run<W>)
    ensures r.state.polls <= s.polls
  {
    hide FlightOf;
    var r := ExecList(o, s.(indent := s.indent + 1, loop := s.loop + 1), cs, 0);
    Run(r.state.(indent := s.indent, loop := s.loop), r.outcome)
  }

  /** Another round follows. */
  predicate GoesOn<W>(r: Run<W>) {
    r.outcome.Value? || r.outcome.Continue?
  }

  /** The state in which round i starts; s is that of the first. */
  function Before<W>(s: State<W>, rs: seq<Run<W>>, i: nat): State<W>
    requires i <= |rs|
  {
    if i == 0 then s else rs[i - 1].state
  }

  predicate IsRound<W(==)>(o: Oracle<W>, s: State<W>, cs: seq<Command>, rs: seq<Run<W>>, i: nat)
    requires i < |rs|
  {
    (i > 0 ==> GoesOn(rs[i - 1])) && rs[i] == Round(o, Before(s, rs, i), cs)
  }

  /** The rounds of a Loop, one after the other. */
  predicate AreRounds<W(==)>(o: Oracle<W>, s: State<W>, cs: seq<Command>, rs: seq<Run<W>>) {
    forall i :: 0 <= i < |rs| ==> IsRound(o, s, cs, rs, i)
  }

  predicate IsForRound<W(==)>(o: Oracle<W>, s: State<W>, b: string, words: seq<string>, cs: seq<Command>,
      rs: seq<Run<W>>, i: nat)
    requires i < |rs| <= |words|
  {
    (i > 0 ==> GoesOn(rs[i - 1])) && rs[i] == ForRound(o, Before(s, rs, i), b, words[i], cs)
  }

  /** The rounds of a For: round i is given word i. */
  predicate AreForRounds<W(==)>(o: Oracle<W>, s: State<W>, b: string, words: seq<string>, cs: seq<Command>,
      rs: seq<Run<W>>) {
    |rs| <= |words| && forall i :: 0 <= i < |rs| ==> IsForRound(o, s, b, words, cs, rs, i)
  }

  /** The value of the last round that had one; rv when there was none. */
  function LastValue<W>(rs: seq<Run<W>>, rv: int): int {
    if rs == [] then rv
    else
      var k := |rs| - 1;
      if rs[k].outcome.Value? then rs[k].outcome.rv else LastValue(rs[..k], rv)
  }

  lemma {:induction false} LastValueFront<W>(rs: seq<Run<W>>, rv: int)
    requires rs != []
    ensures LastValue(rs, rv) == LastValue(rs[1..], LastValue([rs[0]], rv))
    decreases |rs|
  {
    var k := |rs| - 1;
    assert [rs[0]][..0] == [];
    if k == 0 {
      assert rs == [rs[0]] && rs[1..] == [];
    } else {
      assert rs[1..][..k - 1] == rs[..k][1..];
      LastValueFront(rs[..k], rv);
    }
  }

  /** What a loop comes to that ends in its last round. */
  function Ending<W>(rs: seq<Run<W>>, rv: int): Run<W>
    requires rs != []
  {
    var last := rs[|rs| - 1];
    if last.outcome.Break? then Run(last.state, Value(LastValue(rs[..|rs| - 1], rv))) else last
  }

  lemma {:induction false} EndingFront<W>(rs: seq<Run<W>>, rv: int)
    requires |rs| > 1
    ensures Ending(rs, rv) == Ending(rs[1..], LastValue([rs[0]], rv))
  {
    var k := |rs| - 1;
    LastValueFront(rs[..k], rv);
    assert rs[..k][1..] == rs[1..][..k - 1];
  }

  // -------------------------------------------------------------------- Loop

  lemma {:induction false} LoopEnds<W>(o: Oracle<W>, s: State<W>, cs: seq<Command>, rs: seq<Run<W>>, rv: int)
    requires AreRounds(o, s, cs, rs) && rs != [] && !GoesOn(rs[|rs| - 1])
    ensures ExecLoop(o, s, cs, rv) == Ending(rs, rv)
    decreases |rs|
  {
    hide FlightOf, Keeps, ExecList;
    assert IsRound(o, s, cs, rs, 0);
    if |rs| > 1 {
      assert IsRound(o, s, cs, rs, 1);
      RoundsLater(o, s, cs, rs);
      EndingFront(rs, rv);
      assert [rs[0]][..0] == [];
      LoopEnds(o, rs[0].state, cs, rs[1..], LastValue([rs[0]], rv));
    }
  }

  lemma {:induction false} RoundsLater<W>(o: Oracle<W>, s: State<W>, cs: seq<Command>, rs: seq<Run<W>>)
    requires AreRounds(o, s, cs, rs) && rs != []
    ensures AreRounds(o, rs[0].state, cs, rs[1..])
  {
    hide Round;
    var later := rs[1..];
    forall i | 0 <= i < |later| ensures IsRound(o, rs[0].state, cs, later, i) {
      assert IsRound(o, s, cs, rs, i + 1);
    }
  }

  lemma {:induction false} RoundsFront<W>(o: Oracle<W>, s: State<W>, cs: seq<Command>, r: Run<W>, rest: seq<Run<W>>)
    requires r == Round(o, s, cs) && GoesOn(r) && AreRounds(o, r.state, cs, rest)
    ensures AreRounds(o, s, cs, [r] + rest)
  {
    hide Round;
    var rs := [r] + rest;
    forall i | 0 <= i < |rs| ensures IsRound(o, s, cs, rs, i) {
      if i > 0 {
        assert IsRound(o, r.state, cs, rest, i - 1);
      }
    }
  }

  /** Every Loop has an end; each round uses up a poll. */
  function RoundsOf<W(==)>(o: Oracle<W>, s: State<W>, cs: seq<Command>): (rs: seq<Run<W>>)
    ensures rs != [] && AreRounds(o, s, cs, rs) && !GoesOn(rs[|rs| - 1])
    decreases s.polls
  {
    hide Round;
    var r := Round(o, s, cs);
    if GoesOn(r) then
      var rest := RoundsOf(o, r.state, cs);
      RoundsFront(o, s, cs, r, rest);
      [r] + rest
    else [r]
  }

  /** The header of a construct is in order, and leaves this state. */
  ghost predicate Enters<W>(o: Oracle<W>, s: State<W>, b: string, e: string, s1: State<W>, words: seq<string>) {
    && s.polls > 0
    && var h := EnterBlock(o, s.(polls := s.polls - 1), b, e);
       h.0 == Run(s1, Value(0)) && !h.1.Misused? && words == Words(h.1)
  }

  /** A Loop runs round after round until one does not go on. Break ends it
      there, in the state of that round, with the value of the last round that
      had one; Continue only ends its round. Anything else that ends a round
      ends the Loop as it is. */
  lemma {:induction false} LoopIsRounds<W>(o: Oracle<W>, s: State<W>, cs: seq<Command>, b: string, e: string,
      throwup: bool, s1: State<W>, words: seq<string>, rs: seq<Run<W>>)
    requires Enters(o, s, b, e, s1, words)
    requires AreRounds(o, s1, cs, rs) && rs != [] && !GoesOn(rs[|rs| - 1])
    ensures var last := rs[|rs| - 1];
            Exec(o, s, Block(LOOP, cs, b, e), throwup) ==
              if last.outcome.Break? then SetStatus(last.state, LastValue(rs[..|rs| - 1], 0), throwup) else last
  {
    hide FlightOf, Keeps, ExecLoop, EnterBlock, AreRounds;
    LoopEnds(o, s1, cs, rs, 0);
    NoFailure(o, s1, cs, rs);
    assert Exec(o, s, Block(LOOP, cs, b, e), throwup) == ExecBlock(o, s, LOOP, cs, b, e, throwup);
    assert ExecBody(o, s1, LOOP, cs, b, words) == ExecLoop(o, s1, cs, 0);
  }

  lemma {:induction false} NoFailure<W>(o: Oracle<W>, s: State<W>, cs: seq<Command>, rs: seq<Run<W>>)
    requires AreRounds(o, s, cs, rs) && rs != []
    ensures !rs[|rs| - 1].outcome.Failed?
  {
    hide FlightOf, Keeps;
    var k := |rs| - 1;
    assert IsRound(o, s, cs, rs, k);
  }

  /** A Loop only ends with a value when a round ends in Break. */
  lemma {:induction false} LoopValueNeedsBreak<W>(o: Oracle<W>, s: State<W>, cs: seq<Command>, rv: int)
    requires ExecLoop(o, s, cs, rv).outcome.Value?
    ensures exists rs: seq<Run<W>> :: rs != [] && AreRounds(o, s, cs, rs) && rs[|rs| - 1].outcome.Break?
  {
    hide FlightOf, Keeps, Round, ExecLoop;
    var rs := RoundsOf(o, s, cs);
    LoopEnds(o, s, cs, rs, rv);
  }

  // --------------------------------------------------------------------- For

  /** The rounds of a For are over: none is left, or the last does not go on. */
  predicate AreOver<W>(words: seq<string>, rs: seq<Run<W>>) {
    |rs| == |words| || (rs != [] && !GoesOn(rs[|rs| - 1]))
  }

  function ForEnding<W>(s: State<W>, rs: seq<Run<W>>, rv: int): Run<W> {
    if rs == [] then Run(s, Value(rv))
    else if GoesOn(rs[|rs| - 1]) then Run(rs[|rs| - 1].state, Value(LastValue(rs, rv)))
    else Ending(rs, rv)
  }

  lemma {:induction false} ForEnds<W>(o: Oracle<W>, s: State<W>, b: string, words: seq<string>, cs: seq<Command>,
      rs: seq<Run<W>>, rv: int)
    requires AreForRounds(o, s, b, words, cs, rs) && AreOver(words, rs)
    ensures ExecFor(o, s, b, words, cs, rv) == ForEnding(s, rs, rv)
    decreases |rs|
  {
    hide FlightOf, Keeps, ExecList;
    if rs != [] {
      assert IsForRound(o, s, b, words, cs, rs, 0);
      assert [rs[0]][..0] == [];
      assert |rs| > 1 ==> IsForRound(o, s, b, words, cs, rs, 1);
      if GoesOn(rs[0]) {
        var v := LastValue([rs[0]], rv);
        ForRoundsLater(o, s, b, words, cs, rs);
        ForEnds(o, rs[0].state, b, words[1..], cs, rs[1..], v);
        LastValueFront(rs, rv);
        if |rs| > 1 {
          EndingFront(rs, rv);
        } else {
          assert rs == [rs[0]];
        }
      }
    }
  }

  lemma {:induction false} ForRoundsLater<W>(o: Oracle<W>, s: State<W>, b: string, words: seq<string>,
      cs: seq<Command>, rs: seq<Run<W>>)
    requires AreForRounds(o, s, b, words, cs, rs) && rs != []
    ensures AreForRounds(o, rs[0].state, b, words[1..], cs, rs[1..])
  {
    hide ForRound;
    var later := rs[1..];
    forall i | 0 <= i < |later| ensures IsForRound(o, rs[0].state, b, words[1..], cs, later, i) {
      assert IsForRound(o, s, b, words, cs, rs, i + 1);
    }
  }

  /** A For runs one round for each word, in order, up to the first that does
      not go on. Break ends it there, Continue only ends its round; the value is
      that of the last round that had one. */
  lemma {:induction false} ForIsRounds<W>(o: Oracle<W>, s: State<W>, cs: seq<Command>, b: string, e: string,
      throwup: bool, s1: State<W>, words: seq<string>, rs: seq<Run<W>>)
    requires Enters(o, s, b, e, s1, words)
    requires AreForRounds(o, s1, b, words, cs, rs) && AreOver(words, rs)
    ensures Exec(o, s, Block(FOR, cs, b, e), throwup) ==
      if rs == [] then SetStatus(s1, 0, throwup)
      else
        var last := rs[|rs| - 1];
        if GoesOn(last) then SetStatus(last.state, LastValue(rs, 0), throwup)
        else if last.outcome.Break? then SetStatus(last.state, LastValue(rs[..|rs| - 1], 0), throwup)
        else last
  {
    hide FlightOf, Keeps, ExecFor, EnterBlock, ForRound;
    ForEnds(o, s1, b, words, cs, rs, 0);
    if rs != [] {
      NoForFailure(o, s1, b, words, cs, rs);
    }
    assert Exec(o, s, Block(FOR, cs, b, e), throwup) == ExecBlock(o, s, FOR, cs, b, e, throwup);
    assert ExecBody(o, s1, FOR, cs, b, words) == ExecFor(o, s1, b, words, cs, 0);
  }

  lemma {:induction false} NoForFailure<W>(o: Oracle<W>, s: State<W>, b: string, words: seq<string>, cs: seq<Command>,
      rs: seq<Run<W>>)
    requires AreForRounds(o, s, b, words, cs, rs) && rs != []
    ensures !rs[|rs| - 1].outcome.Failed?
  {
    hide FlightOf, Keeps;
    var k := |rs| - 1;
    assert IsForRound(o, s, b, words, cs, rs, k);
  }

  // ------------------------------------------------- blocks inside a loop

  /** Begin and parentheses are no loops: a Break or a Continue inside them goes
      to the loop around. */
  lemma {:induction false} BlocksHandOn<W>(o: Oracle<W>, s: State<W>, k: Terminal, cs: seq<Command>, b: string,
      e: string, throwup: bool, s1: State<W>, words: seq<string>)
    requires (k.BEGIN? || k.LPAREN?) && Enters(o, s, b, e, s1, words)
    ensures var r := ExecList(o, s1.(indent := s1.indent + 1), cs, 0);
            Exec(o, s, Block(k, cs, b, e), throwup) ==
              if r.outcome.Value? then SetStatus(r.state.(indent := s1.indent), r.outcome.rv, throwup)
              else Run(r.state.(indent := s1.indent), r.outcome)
  {
    hide FlightOf, ExecList, EnterBlock;
    assert Exec(o, s, Block(k, cs, b, e), throwup) == ExecBlock(o, s, k, cs, b, e, throwup);
    var s2 := s1.(indent := s1.indent + 1);
    var r := ExecList(o, s2, cs, 0);
    assert Indented(s1, 0) == s2 && Keeps(s2, r);
    assert r.state.(indent := s1.indent, loop := s1.loop) == r.state.(indent := s1.indent);
    assert ExecBody(o, s1, k, cs, b, words) == Run(r.state.(indent := s1.indent), r.outcome);
  }
}
