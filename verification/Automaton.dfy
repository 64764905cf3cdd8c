/** The LALR(1) automaton of the command grammar (phase3.out), uncompressed,
    with the pending states that the shift half of a shift-reduce leaves. */
module Automaton {
  import opened CommandTree

  datatype Nonterminal =
    | Start | CommandList | Sep | Cmd | CompoundList | OptNl | Term
    | IfCommand | BeginCommand | ParenCommand | LoopCommand | ForCommand
    | ParenList | ElseCommand

  datatype Symbol = T(terminal: Terminal) | N(nonterminal: Nonterminal)

  /** What a stack entry stores as its state: a state of the automaton, or the
      rule that is to be reduced next. */
  datatype State = At(number: nat) | Pending(rule: nat)

  datatype Action = Shift(state: nat) | ShiftReduce(rule: nat) | Reduce(rule: nat) | Error

  datatype Goto = Next(state: State) | Accept | Undefined

  const LAST_RULE := 35

  /** `command` and the nonterminals that unit rules collapse into it. */
  predicate IsCommandLike(n: Nonterminal) {
    n.Cmd? || n.Term? || n.IfCommand? || n.BeginCommand? || n.ParenCommand? || n.LoopCommand? || n.ForCommand?
  }

  /** The states whose next symbol may be a command of a list. */
  predicate IsListState(s: nat) {
    1 <= s <= 8
  }

  /** The states in which the right operand of an operator is expected. */
  predicate IsOperandState(s: nat) {
    9 <= s <= 11
  }

  /** The states reached over a command of a list. */
  predicate IsAfterCommand(s: nat) {
    13 <= s <= 15
  }

  /** The states in which only a separator can follow a keyword. */
  predicate IsAfterKeyword(s: nat) {
    16 <= s <= 21
  }

  function WordRule(t: Terminal): nat
    requires IsWord(t)
  {
    match t
    case COMMAND => 5
    case EVALUATE => 6
    case BREAK => 7
    case CONTINUE => 8
    case EXIT => 9
    case ERROR => 10
  }

  function OpenerState(t: Terminal): nat
    requires IsOpener(t)
  {
    match t
    case LPAREN => 12
    case BEGIN => 21
    case LOOP => 20
    case FOR => 19
    case IF => 18
  }

  function StarterAction(t: Terminal): Action
    requires IsStarter(t)
  {
    if IsWord(t) then ShiftReduce(WordRule(t)) else Shift(OpenerState(t))
  }

  function SeparatorAction(t: Terminal): Action
    requires IsSeparator(t)
  {
    if t.SEMI? then ShiftReduce(25) else ShiftReduce(26)
  }

  /** The action of state s on t when t neither separates nor begins commands,
      for the states that sit on top of a list. */
  function ListAction(s: nat, t: Terminal): Action
    requires IsListState(s)
  {
    if s == 1 && t.END? then ShiftReduce(16)
    else if s == 1 && IsElse(t) then Shift(16)
    else if s == 2 && t.END? then ShiftReduce(15)
    else if s == 3 && t.END? then ShiftReduce(14)
    else if s == 4 && t.END? then ShiftReduce(13)
    else if s == 5 && t.EOF? then Reduce(20)
    else if s == 6 then Reduce(18)
    else if s == 7 then Reduce(19)
    else if s == 8 then Reduce(33)
    else Error
  }

  function OperatorState(t: Terminal): nat
    requires IsOperator(t)
  {
    match t
    case PIPE => 28
    case AMP_AMP => 29
    case PIPE_PIPE => 30
  }

  function TableAction(s: nat, t: Terminal): Action {
    if s == 0 then Reduce(21)
    else if IsListState(s) then
      if IsSeparator(t) then SeparatorAction(t)
      else if IsStarter(t) then StarterAction(t)
      else ListAction(s, t)
    else if IsOperandState(s) then
      if t.NL? then ShiftReduce(35)
      else if IsStarter(t) then StarterAction(t)
      else Error
    else if s == 12 then Reduce(23)
    else if IsAfterCommand(s) then
      if IsOperator(t) then Shift(OperatorState(t))
      else if IsSeparator(t) then SeparatorAction(t)
      else if s == 14 then Reduce(11)
      else Error
    else if IsAfterKeyword(s) then
      if IsSeparator(t) then SeparatorAction(t) else Error
    else if 22 <= s <= 27 then Reduce(23)
    else if 28 <= s <= 30 then Reduce(34)
    else if s == 31 then
      if t.END? then ShiftReduce(17)
      else if IsElse(t) then Shift(17)
      else Error
    else if s == 32 then
      if t.RPAREN? then ShiftReduce(12) else Error
    else if s == 33 then
      if t.PIPE? then Shift(28) else Reduce(3)
    else if s == 34 then
      if t.PIPE? then Shift(28) else Reduce(2)
    else Error
  }

  /** yy_find_shift_action: a pending state is its own reduce action. */
  function FindShiftAction(s: State, t: Terminal): Action {
    match s
    case At(n) => TableAction(n, t)
    case Pending(r) => Reduce(r)
  }

  /** The goto of a state over a command. */
  function CommandGoto(s: nat): Goto {
    if s == 5 then Next(At(15))
    else if s == 8 then Next(At(14))
    else if IsListState(s) then Next(At(13))
    else if s == 9 then Next(Pending(4))
    else if s == 10 then Next(At(33))
    else if s == 11 then Next(At(34))
    else Undefined
  }

  function SepGoto(s: nat): Goto {
    if s == 5 then Next(Pending(22))
    else if IsListState(s) then Next(Pending(24))
    else if s == 13 || s == 14 then Next(Pending(1))
    else if s == 15 then Next(Pending(0))
    else if IsAfterKeyword(s) then Next(At(s + 6))
    else Undefined
  }

  function CompoundListGoto(s: nat): Goto {
    if s == 12 then Next(At(8))
    else if s == 22 then Next(At(6))
    else if s == 23 then Next(At(7))
    else if 24 <= s <= 27 then Next(At(s - 23))
    else Undefined
  }

  /** yy_find_reduce_action for an automaton state. */
  function FindReduceAction(s: nat, n: Nonterminal): Goto {
    match n
    case Start => if s == 0 then Accept else Undefined
    case CommandList => if s == 0 then Next(At(5)) else Undefined
    case Sep => SepGoto(s)
    case CompoundList => CompoundListGoto(s)
    case OptNl => if 28 <= s <= 30 then Next(At(s - 19)) else Undefined
    case ParenList => if s == 12 then Next(At(32)) else Undefined
    case ElseCommand => if s == 1 then Next(At(31)) else Undefined
    case _ => CommandGoto(s)
  }

  /** yyRuleInfo: the left-hand side of a rule and the size of its right-hand side. */
  function Lhs(r: nat): Nonterminal
    requires r <= LAST_RULE
  {
    if r == 0 || r == 21 || r == 22 then CommandList
    else if r == 1 || r == 23 || r == 24 then CompoundList
    else if r <= 4 || r == 27 then Cmd
    else if r <= 10 || 28 <= r <= 32 then Term
    else if r == 11 || r == 33 then ParenList
    else if r == 12 then ParenCommand
    else if r == 13 then BeginCommand
    else if r == 14 then LoopCommand
    else if r == 15 then ForCommand
    else if r <= 17 then IfCommand
    else if r <= 19 then ElseCommand
    else if r == 20 then Start
    else if r <= 26 then Sep
    else OptNl
  }

  function Size(r: nat): nat
    requires r <= LAST_RULE
  {
    if r <= 1 then 3
    else if r <= 4 then 4
    else if r <= 10 then 1
    else if r == 11 then 2
    else if r == 12 then 3
    else if r <= 16 then 4
    else if r == 17 then 5
    else if r == 18 then 3
    else if r == 19 then 4
    else if r == 20 then 1
    else if r == 21 || r == 23 || r == 34 then 0
    else if r == 22 || r == 24 || r == 35 then 2
    else 1
  }

  function WordOfRule(r: nat): Terminal
    requires 5 <= r <= 10
  {
    if r == 5 then COMMAND
    else if r == 6 then EVALUATE
    else if r == 7 then BREAK
    else if r == 8 then CONTINUE
    else if r == 9 then EXIT
    else ERROR
  }

  function OperatorOfRule(r: nat): Terminal
    requires 2 <= r <= 4
  {
    if r == 2 then PIPE_PIPE else if r == 3 then AMP_AMP else PIPE
  }

  function OpenerOfRule(r: nat): Terminal
    requires 13 <= r <= 16
  {
    if r == 13 then BEGIN else if r == 14 then LOOP else if r == 15 then FOR else IF
  }

  /** The symbol at position i of the right-hand side of rule r. `Cmd` stands
      for any command-like symbol and ELSE for both else keywords. */
  function Rhs(r: nat, i: nat): Symbol
    requires r <= LAST_RULE && i < Size(r)
  {
    if r == 0 then [N(CommandList), N(Cmd), N(Sep)][i]
    else if r == 1 then [N(CompoundList), N(Cmd), N(Sep)][i]
    else if r <= 4 then [N(Cmd), T(OperatorOfRule(r)), N(OptNl), N(Cmd)][i]
    else if r <= 10 then T(WordOfRule(r))
    else if r == 11 then [N(CompoundList), N(Cmd)][i]
    else if r == 12 then [T(LPAREN), N(ParenList), T(RPAREN)][i]
    else if r <= 16 then [T(OpenerOfRule(r)), N(Sep), N(CompoundList), T(END)][i]
    else if r == 17 then [T(IF), N(Sep), N(CompoundList), N(ElseCommand), T(END)][i]
    else if r == 18 then [T(ELSE), N(Sep), N(CompoundList)][i]
    else if r == 19 then [N(ElseCommand), T(ELSE), N(Sep), N(CompoundList)][i]
    else if r == 20 then N(CommandList)
    else if r == 22 then [N(CommandList), N(Sep)][i]
    else if r == 24 then [N(CompoundList), N(Sep)][i]
    else if r == 25 then T(SEMI)
    else if r == 26 then T(NL)
    else if r == 27 then N(Term)
    else if r == 28 then N(IfCommand)
    else if r == 29 then N(BeginCommand)
    else if r == 30 then N(ParenCommand)
    else if r == 31 then N(LoopCommand)
    else if r == 32 then N(ForCommand)
    else if r == 33 then N(CompoundList)
    else [N(OptNl), T(NL)][i]
  }

  /** Whether a symbol on the stack can stand where a rule asks for `wanted`. */
  predicate Matches(wanted: Symbol, actual: Symbol) {
    || wanted == actual
    || (wanted == N(Cmd) && actual.N? && IsCommandLike(actual.nonterminal))
    || (wanted == T(ELSE) && actual == T(ELSE_IF))
  }
}
