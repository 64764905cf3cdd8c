/** One shift and one reduce of the parser, and what they keep. */
module ParserStep {
  import opened CommandTree
  import opened Automaton
  import opened ParserStack

  datatype Config = Config(stack: seq<Entry>, queue: seq<Command>, errcnt: int, error: bool)

  const INITIAL := Config([BOTTOM], [], -1, false)

  /** The stack below the right-hand side of rule r. */
  function Rest(stack: seq<Entry>, r: nat): seq<Entry>
    requires HandleOnTop(stack, r)
  {
    stack[..|stack| - Size(r)]
  }

  function Window(stack: seq<Entry>, r: nat): seq<Entry>
    requires HandleOnTop(stack, r)
  {
    stack[|stack| - Size(r)..]
  }

  /** The entry that replaces the right-hand side of rule r. */
  function ReducedEntry(stack: seq<Entry>, r: nat): Entry
    requires HandleOnTop(stack, r) && r != 20
  {
    Entry(FindReduceAction(Top(Rest(stack, r)).state.number, Lhs(r)).state,
          N(Lhs(r)), Semantic(r, Window(stack, r)))
  }

  /** A right-hand side w above base. */
  lemma {:induction false} HandleAbove(stack: seq<Entry>, base: seq<Entry>, w: seq<Entry>, r: nat)
    requires base != [] && stack == base + w
    requires Handle(r, w) && r != 20 && GotoDefined(Top(base).state, r)
    ensures HandleOnTop(stack, r)
    ensures Rest(stack, r) == base && Window(stack, r) == w
    ensures ReducedEntry(stack, r) ==
      Entry(FindReduceAction(Top(base).state.number, Lhs(r)).state, N(Lhs(r)), Semantic(r, w))
  {
    hide GotoDefined, Semantic, FindReduceAction;
    assert |w| == Size(r);
    assert stack[|stack| - |w|..] == w && stack[..|stack| - |w|] == base;
    assert stack[|stack| - |w| - 1] == Top(base);
  }

  function ReduceBy(c: Config, r: nat): Config
    requires HandleOnTop(c.stack, r) && r != 20
  {
    c.(stack := Rest(c.stack, r) + [ReducedEntry(c.stack, r)],
       queue := c.queue + Queued(r, Window(c.stack, r)))
  }

  function TerminalState(s: State, t: Terminal): State
    requires Shifts(s, t)
  {
    match FindShiftAction(s, t)
    case Shift(n) => At(n)
    case ShiftReduce(r) => Pending(r)
  }

  predicate Shifts(s: State, t: Terminal) {
    FindShiftAction(s, t).Shift? || FindShiftAction(s, t).ShiftReduce?
  }

  function Pushed(stack: seq<Entry>, t: Token): seq<Entry>
    requires |stack| > 0 && Shifts(Top(stack).state, t.kind)
  {
    stack + [Entry(TerminalState(Top(stack).state, t.kind), T(t.kind), Text(t.text))]
  }

  // ------------------------------------------------------- paths are kept

  lemma {:induction false} PathPrefix(stack: seq<Entry>, k: nat)
    requires Path(stack)
    requires 0 < k <= |stack|
    ensures Path(stack[..k])
  {
    forall i | 0 < i < k ensures EdgeAt(stack[..k], i) {
      assert EdgeAt(stack, i);
    }
  }

  lemma {:induction false} PathPush(stack: seq<Entry>, e: Entry)
    requires Path(stack)
    requires |stack| < DEPTH
    requires Edge(Top(stack), e)
    ensures Path(stack + [e])
  {
    var s := stack + [e];
    forall i | 0 < i < |s| ensures EdgeAt(s, i) {
      if i < |stack| {
        assert EdgeAt(stack, i);
      }
    }
  }

  lemma {:induction false} ShiftKeepsPath(stack: seq<Entry>, t: Token)
    requires Path(stack)
    requires |stack| < DEPTH
    requires Shifts(Top(stack).state, t.kind)
    ensures Path(Pushed(stack, t))
  {
    PathPush(stack, Top(Pushed(stack, t)));
  }

  lemma {:induction false} ListTyped(r: nat, w: seq<Entry>, s: State)
    requires r == 1 || r == 11 || r == 23 || r == 24 || r == 33
    requires Handle(r, w)
    requires forall i :: 0 <= i < |w| ==> Typed(w[i])
    ensures Typed(Entry(s, N(Lhs(r)), Semantic(r, w)))
  {
  }

  lemma {:induction false} CommandTyped(r: nat, w: seq<Entry>, s: State)
    requires 2 <= r <= 16 && r != 11
    requires Handle(r, w)
    requires forall i :: 0 <= i < |w| ==> Typed(w[i])
    ensures Typed(Entry(s, N(Lhs(r)), Semantic(r, w)))
  {
    if r <= 4 {
      assert Typed(w[0]) && Typed(w[3]);
    } else if r <= 10 {
    } else if r == 12 {
      assert Typed(w[1]);
    } else {
      assert Typed(w[2]);
    }
  }

  lemma {:induction false} ClausesTyped(r: nat, w: seq<Entry>, s: State)
    requires 17 <= r <= 19
    requires Handle(r, w)
    requires forall i :: 0 <= i < |w| ==> Typed(w[i])
    ensures Typed(Entry(s, N(Lhs(r)), Semantic(r, w)))
  {
    if r == 17 {
      assert Typed(w[2]) && Typed(w[3]);
    } else if r == 18 {
      assert Typed(w[2]);
    } else {
      assert Typed(w[0]) && Typed(w[3]);
    }
  }

  /** A command that a rule builds is complete when its parts are. */
  lemma {:induction false} SemanticTyped(r: nat, w: seq<Entry>, s: State)
    requires Handle(r, w)
    requires r < 27 || r > 32
    requires forall i :: 0 <= i < |w| ==> Typed(w[i])
    ensures Typed(Entry(s, N(Lhs(r)), Semantic(r, w)))
  {
    if r == 1 || r == 11 || r == 23 || r == 24 || r == 33 {
      ListTyped(r, w, s);
    } else if 2 <= r <= 16 {
      CommandTyped(r, w, s);
    } else if 17 <= r <= 19 {
      ClausesTyped(r, w, s);
    } else {
      assert Lhs(r).CommandList? || Lhs(r).Start? || Lhs(r).Sep? || Lhs(r).OptNl?;
    }
  }

  lemma {:induction false} ReduceKeepsPath(stack: seq<Entry>, r: nat)
    requires Path(stack)
    requires HandleOnTop(stack, r) && r != 20 && (r < 27 || r > 32)
    requires |Rest(stack, r)| < DEPTH
    ensures Path(Rest(stack, r) + [ReducedEntry(stack, r)])
  {
    var w := Window(stack, r);
    forall i | 0 <= i < |w| ensures Typed(w[i]) {
      assert EdgeAt(stack, |stack| - Size(r) + i);
    }
    PathPrefix(stack, |stack| - Size(r));
    SemanticTyped(r, w, ReducedEntry(stack, r).state);
    PathPush(Rest(stack, r), ReducedEntry(stack, r));
  }

  // ---------------------------------------------------------- termination

  /** How many more entries a state may still cost in reduces without a shift. */
  function Rank(s: State): nat {
    match s
    case At(n) =>
      if n == 0 || n == 12 then 5
      else if 22 <= n <= 30 then 4
      else if n == 8 then 1
      else 0
    case Pending(r) =>
      if 5 <= r <= 10 || r == 25 || r == 26 then 6 else 5
  }

  function Measure(stack: seq<Entry>): nat
    requires |stack| > 0
  {
    3 * |stack| + Rank(Top(stack).state)
  }

  lemma {:induction false} RankDescends(below: nat, s: State, symbol: Symbol, r: nat)
    requires ReducesIn(s, r) && r != 20
    requires s == At(0) || Accessed(s, symbol)
    requires r <= LAST_RULE && GotoDefined(At(below), r)
    requires Size(r) == 0 ==> s == At(below)
    ensures 3 + Rank(FindReduceAction(below, Lhs(r)).state) < Rank(s) + 3 * Size(r)
  {
    if Size(r) >= 2 {
      assert Rank(s) >= 5 || (s.At? && r != 22 && r != 24 && r != 35);
    }
  }

  /** Every reduce brings the parser closer to the next shift, also through
      the empty rules and the pending unit rules. */
  lemma {:induction false} ReduceDescends(stack: seq<Entry>, t: Terminal, r: nat)
    requires Path(stack)
    requires FindShiftAction(Top(stack).state, t) == Reduce(r) && r != 20
    requires HandleOnTop(stack, r)
    ensures Measure(Rest(stack, r) + [ReducedEntry(stack, r)]) < Measure(stack)
  {
    ReduceState(Top(stack).state, t, r);
    if Top(stack).state != At(0) {
      Neighbourhood(stack, 0);
    }
    RankDescends(Top(Rest(stack, r)).state.number, Top(stack).state, Top(stack).major, r);
  }
}
