/** When the parser reports a syntax error, by the outcomes of its calls. */
module ErrorReports {
  import opened CommandTree
  import opened Automaton
  import opened ParserStack
  import opened ParserStep
  import opened Phase3
  import opened Runs

  /** What one call does to the error counter and the error flag. */
  lemma {:induction false} FeedErrors(c: Config, t: Token)
    requires Path(c.stack)
    ensures var f := Feed(c, t);
            var c' := f.config;
            var late := c.errcnt <= 0;
            match f.outcome
            case Shifted => c'.errcnt == c.errcnt - 1 && c'.error == c.error && f.reports == []
            case Dropped =>
              && !t.kind.EOF? && c'.errcnt == 3 && c'.error == (c.error || late)
              && f.reports == if late then [t.text] else []
            case Failed =>
              && t.kind.EOF? && c'.errcnt == -1 && !c'.error && c'.stack == [BOTTOM]
              && f.reports == if late then ["EOF"] else []
            case Accepted => c'.errcnt == -1 && !c'.error && c'.stack == [BOTTOM] && f.reports == []
            case Overflowed => c'.error == c.error && c'.stack == [BOTTOM] && f.reports == []
    decreases Measure(c.stack)
  {
    hide HandleOnTop, Semantic, EdgeAt;
    match FindShiftAction(Top(c.stack).state, t.kind)
    case Reduce(r) =>
      ReduceFindsHandle(c.stack, t.kind, r);
      if !(Size(r) == 0 && |c.stack| == DEPTH) && r != 20 {
        FeedReduce(c, t, r);
        FeedErrors(ReduceBy(c, r), t);
      }
    case _ =>
  }

  /** Whatever becomes of the token, no queued command is lost. */
  lemma {:induction false} QueueOnlyGrows(c: Config, t: Token)
    requires Path(c.stack)
    ensures c.queue <= Feed(c, t).config.queue
    decreases Measure(c.stack)
  {
    hide HandleOnTop, Semantic, EdgeAt;
    match FindShiftAction(Top(c.stack).state, t.kind)
    case Reduce(r) =>
      ReduceFindsHandle(c.stack, t.kind, r);
      if !(Size(r) == 0 && |c.stack| == DEPTH) && r != 20 {
        FeedReduce(c, t, r);
        QueueOnlyGrows(ReduceBy(c, r), t);
      }
    case _ =>
  }

  /** A token that does not fit counts as shifted, an empty rule that does not
      fit does not. */
  lemma {:induction false} OverflowCounts(c: Config, t: Token)
    requires Path(c.stack) && |c.stack| == DEPTH
    ensures var action := FindShiftAction(Top(c.stack).state, t.kind);
            var f := Feed(c, t);
            && (action.Shift? || action.ShiftReduce? ==> f.outcome.Overflowed? && f.config.errcnt == c.errcnt - 1)
            && (action.Reduce? && action.rule <= LAST_RULE && Size(action.rule) == 0 ==>
                  f.outcome.Overflowed? && f.config.errcnt == c.errcnt)
  {
    hide Semantic, EdgeAt;
  }

  /** How the calls of a run end. */
  function Outcomes(c: Config, ts: seq<Token>): (r: seq<Outcome>)
    requires Path(c.stack)
    ensures |r| == |ts|
  {
    if ts == [] then []
    else
      var k := |ts| - 1;
      Outcomes(c, ts[..k]) + [Feed(Go(c, ts[..k]), ts[k]).outcome]
  }

  /** The run goes through: every token is shifted or dropped. */
  predicate GoesThrough(outs: seq<Outcome>) {
    forall i :: 0 <= i < |outs| ==> outs[i].Shifted? || outs[i].Dropped?
  }

  /** No token was dropped before, or at least three have been shifted since. */
  predicate IsQuiet(outs: seq<Outcome>) {
    forall i :: 0 <= i < |outs| && |outs| - 3 <= i ==> outs[i].Shifted?
  }

  /** The place of the last token that was dropped, or -1. */
  function LastDrop(outs: seq<Outcome>): (k: int)
    ensures -1 <= k < |outs|
    ensures k >= 0 ==> outs[k].Dropped?
    ensures forall i :: k < i < |outs| ==> !outs[i].Dropped?
  {
    if outs == [] then -1
    else if outs[|outs| - 1].Dropped? then |outs| - 1
    else LastDrop(outs[..|outs| - 1])
  }

  lemma {:induction false} GoSnoc(c: Config, ts: seq<Token>)
    requires Path(c.stack) && ts != []
    ensures var k := |ts| - 1;
            && Go(c, ts) == Feed(Go(c, ts[..k]), ts[k]).config
            && (Clean(c, ts) <==> Clean(c, ts[..k]) && Feed(Go(c, ts[..k]), ts[k]).outcome.Shifted?)
  {
    hide Feed;
    var k := |ts| - 1;
    assert ts == ts[..k] + [ts[k]];
    GoConcat(c, ts[..k], [ts[k]]);
    var c1 := Go(c, ts[..k]);
    assert Go(c1, [ts[k]]) == Go(Feed(c1, ts[k]).config, []);
  }

  /** The counter counts the shifts since the last drop. */
  lemma {:induction false} CounterCounts(c: Config, ts: seq<Token>)
    requires Path(c.stack) && GoesThrough(Outcomes(c, ts))
    ensures var k := LastDrop(Outcomes(c, ts));
            Go(c, ts).errcnt == if k < 0 then c.errcnt - |ts| else 3 - (|ts| - 1 - k)
    decreases |ts|
  {
    hide Feed, Go;
    if ts == [] {
      assert Go(c, ts) == c by { GoNothing(c); }
    } else {
      var k := |ts| - 1;
      var outs := Outcomes(c, ts);
      assert outs[..k] == Outcomes(c, ts[..k]);
      CounterCounts(c, ts[..k]);
      FeedErrors(Go(c, ts[..k]), ts[k]);
      GoSnoc(c, ts);
      assert outs[k] == Feed(Go(c, ts[..k]), ts[k]).outcome;
    }
  }

  lemma {:induction false} GoNothing(c: Config)
    requires Path(c.stack)
    ensures Go(c, []) == c && Clean(c, [])
  {
  }

  /** Whatever comes after tokens that were shifted or dropped: an error is
      reported when a token is dropped or the input fails, exactly when no token
      was dropped before or at least three were shifted since; nothing else is
      ever reported. */
  lemma {:induction false} ReportsAreSparse(c: Config, ts: seq<Token>, t: Token)
    requires Path(c.stack) && c.errcnt <= 0
    requires GoesThrough(Outcomes(c, ts))
    ensures var f := Feed(Go(c, ts), t);
            f.reports ==
              if (f.outcome.Dropped? || f.outcome.Failed?) && IsQuiet(Outcomes(c, ts))
              then [if t.kind.EOF? then "EOF" else t.text]
              else []
  {
    hide Feed, Go;
    FeedErrors(Go(c, ts), t);
    CounterCounts(c, ts);
    var outs := Outcomes(c, ts);
    var k := LastDrop(outs);
    if k >= 0 && |ts| - 3 <= k {
      assert !IsQuiet(outs) by { assert !outs[k].Shifted?; }
    }
  }

  /** The error flag is set exactly when a token was dropped. */
  lemma {:induction false} ErrorFlagIsExact(c: Config, ts: seq<Token>)
    requires Path(c.stack) && c.errcnt <= 0
    requires GoesThrough(Outcomes(c, ts))
    ensures Go(c, ts).error <==> c.error || !Clean(c, ts)
    ensures Clean(c, ts) <==> Dropped !in Outcomes(c, ts)
    decreases |ts|
  {
    hide Feed, Go, Clean;
    GoNothing(c);
    if ts != [] {
      var k := |ts| - 1;
      var outs := Outcomes(c, ts);
      var before := Go(c, ts[..k]);
      assert outs[..k] == Outcomes(c, ts[..k]) && outs == outs[..k] + [outs[k]];
      ErrorFlagIsExact(c, ts[..k]);
      GoSnoc(c, ts);
      FeedErrors(before, ts[k]);
      CounterCounts(c, ts[..k]);
      assert before.errcnt > 0 ==> LastDrop(outs[..k]) >= 0;
    }
  }

  /** A stray End is dropped and reported. */
  lemma {:induction false} StrayEndIsReported(t: Token)
    requires t.kind.END?
    ensures Path(INITIAL.stack)
    ensures var f := Feed(INITIAL, t);
            f.outcome.Dropped? && f.config.error && f.reports == [t.text]
  {
    hide Feed;
    var c1 := ReduceBy(INITIAL, 21);
    FeedReduce(INITIAL, t, 21);
    FeedErrors(c1, t);
    EndIsNoAction(c1, t);
  }

  lemma {:induction false} EndIsNoAction(c: Config, t: Token)
    requires Path(c.stack) && Top(c.stack).state == At(5) && t.kind.END?
    ensures Feed(c, t).outcome.Dropped?
  {
  }
}
