# The MPW shell, modelled and proved

This project models the hard parts of a shell for MPW scripts and proves
properties of them for every input. The shell reads a script through three
phases (joining lines, splitting a line into tokens, an LALR(1) parser that
queues command trees), executes the queued trees in an environment, evaluates
expressions, and converts MPW patterns to ECMAScript ones. `dafny verify
dfyconfig.toml` checks everything.

Code that works by changing state is a class or a method with a loop here too.
Each such method is proved equal to a function of the old state, and the laws
are lemmas about those functions.

## The parts

**The command parser** (`CommandTree`, `Automaton`, `ParserStack`, `ParserStep`,
`Phase3`). `Automaton` holds the uncompressed action and goto tables with the
pending-reduce states that a shift-reduce leaves. `Phase3.Parser` is the parser
with its 100-entry stack array, its top index, its error counter and its
command queue; `Phase3.Feed` is one call of `parse` as a function, including
dropped tokens, stack overflow and failure at the end of the input. `Grammar`
defines the language of phase3.lemon without the automaton: concrete forms that
keep every token, what they spell (`Tokens`), what they denote (`Tree`), and the
rules and precedences (`Derivable`). The two are connected in both directions:
`Derivation` and `Soundness` carry a derivation along with the stack, `Runs`
and `Completeness` drive the parser through every form, and `Overflow` shows
that the room which `Completeness` asks for is exactly what is needed.
`Parsing`, `RoundTrip`, `Promptness`, `StackBound`, `Conservation` and
`ErrorReports` hold the results.

**The expression parser** (`Expressions`, `ExpressionParsing`,
`ExpressionPrinting`, `ExpressionEvaluation`, `EvalTokens`, `Arithmetic`,
`ArithmeticLaws`). The grammar is
stratified into ten left-associative levels (`Expressions.Derives`); the
two-stack loop is proved to be that grammar. The class
`ExpressionEvaluation.ExpressionParser` parses and evaluates at once, over
arbitrary operations that may throw and may change the environment; it is proved
to compute the value of the tree. `EvalTokens` gives the scanner's words and
operators their types, so that expressions can be written as text and read back,
`Arithmetic` gives the shell's own operations, and `ArithmeticLaws` says what they
compute, from text to number.

**The interpreter** (`Execution`, `Interpreter`, `ExecutionLaws`, `CommandLaws`,
`IfLaws`, `LoopLaws`, `ExecutionExamples`, `LoopExamples`). Exceptions are
outcomes. Expansion of backquotes and Execute run programs in the same
environment, scripts in one of their own. What depends on the world outside
(what a text expands to, what a simple command does, what a condition comes to)
is an oracle over an abstract world. `control_c` is found set after some number
of polls; every loop round and every command polls, which makes every run
finite, however long. A run keeps a log of what it starts and of every
termination that is raised, ended or swallowed. `Execution.Keeps` is what every
function of the interpreter guarantees of its runs.

**The pattern converter** (`Regex`, `RegexLaws`, `RegexMeaning`).
`Regex.MpwRegex` converts in one pass, with a capture array that is renumbered in
place. The laws are about readers of the resulting ECMAScript pattern: one that
numbers its groups, and one that takes it apart sign by sign.

**The line machine** (`LineMachine`, `LineLaws`), **the variable table**
(`Variables`, `VariableLaws`), **numbers** (`Numbers`, `NumberLaws`), **Mac Roman**
(`MacRoman`, `MacRomanTable`, `MacRomanLaws`) and **quoting and tokens** (`Quoting`,
`QuotingLaws`, `TokenLaws`, `ExpandLaws`) are the codecs around them.

The modules whose names end in Laws, Examples, Meaning or Reports say what the
functions mean without naming their parts: by outcomes, by the characters that
are written out, or by a definition of their own.

Every lemma carries `{:induction false}`: its body is its whole proof. `hide`
statements keep definitions that a proof does not use away from it.

## Where the code departs from the obvious claim

- An else clause goes through `eval_exec`, whose handler also catches the
  termination of the clause's own commands (command.cpp:447). `Exit` in an else
  clause does not leave the script: `ExecutionExamples.ExitInElseGoesOn` runs one.
  `IfLaws.TerminationEndsIf` gives the exact condition: a termination in the
  selected body ends the If if and only if the clause is the first.
- A comment says that `true && false` exits (command.cpp:548-549). The return
  inside the loop comes before the status that would throw, so that an and
  command never throws for the value of an operand
  (`ExecutionLaws.AndNeverThrows`, `ExecutionExamples.FailedAndGoesOn`), while
  an or command whose operands all fail does (`ExecutionLaws.OrThrows`).
- Quoting does not protect a word that is an operator of expressions: the
  keywords are recognized after the quotes are gone (mpw-shell-token.rl:300-311).
  `EvalTokens.QuotedWordsAreTexts` gives the exact condition.
- An escape inside a comment leaks the byte behind it (phase1.cpp:73).
  `LineMachine.LinesConserveInput` gives the exact condition and
  `LineMachine.CommentLeaks` an input.
- `quote` writes 0xd8 where the escape byte is 0xb6 (mpw-shell-quote.rl:47), so
  that a word with a single quote never comes back.
  `QuotingLaws.QuotingRoundTrip` gives the exact condition.
- A tagged group that begins with an escaped question mark is written as `(?`,
  which ECMAScript does not take for a capturing group, but is counted
  (mpw-regex.cpp:108-119, mpw-regex.cpp:222-269).
  `RegexLaws.CapturesAreGroups` gives the exact condition and
  `RegexLaws.EscapedQuestionMarkHides` a pattern.
- Decimal output of Evaluate is not a number for `scan_number` when it is
  negative (value.rl:42-48); it is an expression for the same number all the
  same (`Numbers.DecimalRoundTrip`, `Arithmetic.DecimalOutputEvaluates`).
- Clear-all `unset()` keeps the cached `#` (environment.cpp:196-202); the
  contract of `Variables.EnvironmentTable.UnsetAll` says so.
- An escaped question mark is written as a bare one, which is a quantifier, and
  an escaped letter of a set as a class escape (mpw-regex.cpp:112-119,
  mpw-regex.cpp:199-206). `RegexMeaning.WrittenSaysSource` gives the exact
  condition under which the written pattern says what the source says, and
  `RegexMeaning.Pitfalls` two patterns.
- A code point of four UTF-8 bytes is taken for the one with its low 16 bits
  (macroman.cpp:74-126): `MacRomanLaws.FourBytesWrap`.
- A stack overflow is not reported: `stack_overflow()` is empty
  (lemon_base.h:23), and the error flag stays as it was
  (`ErrorReports.FeedErrors`).
- A command that is longer than the stack allows is not parsed. How much room a
  program needs is computed from its form (`Completeness.Need`), and the
  parsing results hold if and only if it fits.

## Model

| member | source | states |
|---|---|---|
| ParserStack.ReduceFindsHandle | phase3.cpp:1486-1507 | on every stack that is a path of the automaton, a reduce finds the symbols of its rule on top, never pops the bottom entry, its goto is defined (no error action follows), accept happens only at the bottom, and the optimized-out unit rules are never reduced |
| ParserStack.EdgeNeighbours | phase3.out:1-783 | what lies under every state, and over which symbol it was entered |
| ParserStep.ReduceKeepsPath | phase3.cpp:1486-1507 | after any reduce the stack is again a path whose entries have values of their symbol's type and no null command |
| ParserStep.ShiftKeepsPath | phase3.cpp:974-1011 | the same after any shift |
| ParserStep.ReduceDescends | phase3.cpp:1609-1720 | every reduce decreases a measure of stack height and top state, also the empty rules and the pending unit rules, so that the loop of parse stops for any stack and lookahead |
| Phase3.Feed | phase3.cpp:1584-1735 | one call of parse, whatever becomes of the token, leaves the stack a path of the automaton |
| Phase3.Parser.constructor | phase3.cpp:791-809 | a new parser is in the initial configuration |
| Phase3.Parser.Reset | phase3.cpp:811-824 | reset leaves only the bottom entry and keeps the queue |
| Phase3.Parser.YyShift | phase3.cpp:974-1011 | in place on the array: the token is pushed with the state that the tables give, or the stack overflows and is emptied |
| Phase3.Parser.YyReplace | phase3.cpp:1486-1507 | in place on the array: the right-hand side is replaced by the reduced entry |
| Phase3.Parser.YyReduce | phase3.cpp:1062-1508 | the whole reduce: overflow of an empty rule, accept, or the reduced stack and the grown queue |
| Phase3.Parser.YyError | phase3.cpp:1696-1717 | the error branch: its report, the drop of the token, the failure at the end of the input; when it reports is what ErrorReports.ReportsAreSparse says |
| Phase3.Parser.Round | phase3.cpp:1609-1720 | one round of the loop: either the call is finished as Feed says, or Feed is unchanged and the measure is smaller |
| Phase3.Parser.Parse | phase3.cpp:1584-1735 | the array parser computes Feed: stack, queue, error counter, error flag and reports |
| Phase3.Parser.Continuation | phase3.cpp:1807-1823 | true exactly when an opener or an operator lies on the stack |
| Derivation.CombineTokens | phase3.lemon:90-238 | a reduce regroups tokens and neither drops nor reorders any |
| Derivation.CombineFits | phase3.lemon:90-238 | the semantic action of a rule computes the tree that the grammar gives to the combined form, within the precedences |
| Soundness.FeedExplains | phase3.cpp:1584-1735 | whatever the token, the stack and the queue after a call stand for the tokens that were shifted |
| Completeness.ReadForm | phase3.lemon:90-238 | the parser reads every derivable form that fits into one entry that holds its tree |
| Completeness.ReadItems | phase3.lemon:93-117 | the same for lists: separators vanish, every command is added to the list or to the queue |
| Overflow.SpillForm | phase3.cpp:986-991 | a form for which there is not enough room is never read without an error: the room asked for is exactly what is needed |
| Parsing.ProgramsAreParsed | phase3.cpp:1584-1735 | every program that fits is parsed without an error and queues exactly its trees |
| Parsing.OnlyProgramsAreParsed | phase3.cpp:1584-1735 | a run without errors that is accepted spells a program, and queued exactly what it denotes |
| Parsing.LargeProgramsOverflow | phase3.cpp:1081-1102 | a program that does not fit is not parsed cleanly |
| Parsing.ParserIsTheGrammar | phase3.lemon:78-238 | both directions: tokens are parsed into commands if and only if the grammar, with its precedences, derives them as a program of these commands that fits the stack |
| Parsing.ProgramsAreUnambiguous | phase3.lemon:78-79 | no token list is two programs with different trees |
| RoundTrip.PrintDenotes | phase3.lemon:90-238 | a printed normal tree is derivable and denotes the tree |
| RoundTrip.PrintParseRoundTrip | phase3.cpp:1584-1735 | printed normal trees are parsed back into exactly these trees, if and only if they fit the stack |
| RoundTrip.PrintedLineIsQueued | phase2.rl:280-284 | the same as the shell reads it, with the two newlines that end a line and no end of the input: a printed line that fits is not continued and its trees are in the queue, any other overflows |
| RoundTrip.ParsedTreesAreNormal | phase3.lemon:78-134 | in runs without errors no right operand of an and or an or command is one of these, and no operand of a pipe is, at any depth |
| RoundTrip.SevenLevelsFit | phase3.cpp:208-210 | programs nested at most seven deep always fit |
| RoundTrip.DeepPrograms | phase3.cpp:208-210 | the bound is exact: for every n a program nested n deep that needs 9 + 13 n entries, and so is parsed cleanly if and only if n is at most seven |
| StackBound.HeightBound | phase3.cpp:208-210 | with d constructs open the stack holds at most 9 + 13 d entries |
| StackBound.OverflowNeedsEightOpen | phase3.cpp:986-991 | a call overflows only with eight constructs open, counting its token |
| StackBound.SevenOpenNeverOverflow | phase3.cpp:1081-1102 | over whole runs of any length, also with dropped tokens: as long as never more than seven constructs are open at once, the stack does not overflow |
| StackBound.SevenOpenersSuffice | phase3.cpp:1081-1102 | tokens with at most seven openers never have more open |
| Promptness.ContinuationIsExact | phase2.rl:280-284 | after a line that was read without errors, continuation() is false exactly when what was read so far is a program; then all its commands are in the queue |
| Promptness.NothingOpen | phase3.cpp:1807-1823 | after the two newlines of a line, continuation() is false exactly when only the command list and the newline are on the stack |
| Conservation.TextsAreConserved | phase3.cpp:1114-1472 | also with dropped tokens: the texts of the queued trees followed by those on the stack are the texts of the shifted tokens, each once and in order |
| ErrorReports.ReportsAreSparse | phase3.cpp:1696-1717 | for every run of shifted and dropped tokens and whatever token follows: an error is reported when a token is dropped or the input fails, exactly when no token was dropped before or at least three were shifted since, and nothing else is reported |
| ErrorReports.ErrorFlagIsExact | phase3.cpp:1834-1859 | over such runs the error flag is set exactly when a token was dropped |
| ErrorReports.FeedErrors | phase3.cpp:1696-1717 | what one call does to the counter, the flag and the reports, by its outcome alone; acceptance and failure clear them, an overflow is not reported |
| ErrorReports.QueueOnlyGrows | phase3.cpp:1108-1124 | whatever becomes of a token, no queued command is lost |
| ErrorReports.StrayEndIsReported | phase3.cpp:1696-1717 | a new parser drops and reports a stray End |
| Expressions.PrecedenceIsLevel | mpw-shell-parser.cpp:305-347 | the precedence of an operator is its place in the list of the ten levels, and what is in no level is no binary operator |
| ExpressionParsing.LoopIsTheGrammar | mpw-shell-parser.cpp:251-303 | the two-stack loop returns a tree and stops exactly where the ten-level left-associative grammar derives that tree from the tokens read |
| ExpressionParsing.DerivationsAreUnique | mpw-shell-parser.cpp:251-303 | no token list has two derivations |
| ExpressionParsing.CollapseKeeps | mpw-shell-parser.cpp:272-280 | reducing the operators of a level keeps the tokens, keeps precedences strictly tightening toward the top, and leaves only looser operators |
| ExpressionParsing.RestSound | mpw-shell-parser.cpp:259-303 | from any sound stacks the loop only builds derivations of the tokens |
| ExpressionParsing.OperandsAreAbsorbed | mpw-shell-parser.cpp:259-303 | a whole derivation is read as if it were one operand, wherever it may stand as one |
| ExpressionPrinting.PrintParseRoundTrip | mpw-shell-parser.cpp:447-490 | a complete tree written with parentheses only where needed is parsed back to the same tree, and uses up every token |
| ExpressionPrinting.PrintIsShortest | mpw-shell-parser.cpp:469-490 | no way of writing the same tree has fewer parentheses |
| ExpressionEvaluation.ReduceEvaluates | mpw-shell-parser.cpp:272-280 | one reduce of the operand stack evaluates one operator, after its operands, in the environment they leave |
| ExpressionEvaluation.RestThrows | mpw-shell-parser.cpp:259-303 | an exception in an operand that was already read is the exception of the whole expression |
| ExpressionEvaluation.PrintedMeaning | mpw-shell-parser.cpp:251-303 | a printed tree is read back with the value of the tree |
| ExpressionEvaluation.ExpressionParser.Next | mpw-shell-parser.cpp:222-225 | takes the next token, or an eof token at the end |
| ExpressionEvaluation.ExpressionParser.Terminal | mpw-shell-parser.cpp:469-490 | a text, a parenthesis with its close, or the missing operand: value, environment and rest are those of the tree |
| ExpressionEvaluation.ExpressionParser.Unary | mpw-shell-parser.cpp:447-467 | the same for unary operators, applied inside out |
| ExpressionEvaluation.ExpressionParser.Reduce | mpw-shell-parser.cpp:272-280 | the inner loop on values is the collapse of the trees, with the first exception that it meets |
| ExpressionEvaluation.ExpressionParser.Operand | mpw-shell-parser.cpp:285-287 | one more operand, or the exception of the whole expression |
| ExpressionEvaluation.ExpressionParser.Binary | mpw-shell-parser.cpp:251-303 | when the tokens parse: exactly the value or the exception of the tree, its environment, and the rest; when they do not: no value. "binary stack error" is never thrown |
| ExpressionEvaluation.ExpressionParser.Evaluate | mpw-shell-parser.cpp:492-502 | the number of the whole expression; "evaluation stack error" needs an eof token among the tokens, which the tokenizer never emits |
| Arithmetic.DivisionTruncates | mpw-shell-parser.cpp:374-380 | quotient and remainder truncate toward zero |
| Arithmetic.DecimalOutputEvaluates | builtins.cpp:750 | the decimal output of every 32-bit number, as text, is scanned and parsed as an expression and evaluates to that number |
| ArithmeticLaws.OperationsCompute | mpw-shell-parser.cpp:368-445 | from text: two 32-bit numbers with any binary operator between them, however it is written, are scanned, parsed and evaluated to the result of the operator, and a division by zero throws |
| ArithmeticLaws.UnariesCompute | mpw-shell-parser.cpp:447-467 | the same for the unary operators |
| ArithmeticLaws.TextOperands | mpw-shell-parser.cpp:368-445 | operands that are no numbers: which operators throw, which take them for true, and which compare texts |
| EvalTokens.WrittenTokensAreRead | mpw-shell-token.rl:56-170 | operators and plain words that are written with blanks between them are scanned back with their types |
| EvalTokens.TextMeaning | mpw-shell-token.rl:175-188 | a complete tree that is written as text with the fewest parentheses is scanned, parsed and evaluated to its value |
| EvalTokens.QuotedWordsAreTexts | mpw-shell-token.rl:300-311 | in expressions quoted words come back as texts exactly when none has a single quote and none is a keyword |
| Execution.Poll | command.cpp:339 | a command polls control_c before anything else |
| Execution.SetStatus | environment.cpp:205-221 | status() throws exactly when asked to, with {exit} set and a status that is not zero |
| Execution.Expand | mpw-shell-expand.rl:138-154 | backquoted programs run one level deeper in the same environment; no termination comes out of them |
| Execution.Read | mpw-shell.cpp:102-162 | read_file, read_string and read_fd: a termination becomes the result, and never leaves |
| Execution.Drain | mpw_parser.cpp:70-105 | the queue is executed in order up to the first exception |
| Execution.Exec | command.cpp:333-531 | every command, whatever it runs, restores the loop and indent counters, ends in Break or Continue only inside a loop, ends in a termination exactly when one is in flight, with its status, and nothing ran while it was |
| Execution.ExecSimple | command.cpp:333-420 | the same for simple commands, with builtins, Execute, scripts and Quit |
| Execution.Script | command.cpp:399-410 | a script ends in a value or in Quit, and changes no counter of its caller |
| Execution.ExecEvaluated | command.cpp:422-531 | the same for Evaluate, Break, Continue and Exit |
| Execution.ExecChain | command.cpp:533-559 | the same for and and or commands |
| Execution.ExecPipe | command.cpp:561-589 | the same for pipes |
| Execution.ExecList | command.cpp:591-599 | the same for the commands of a list |
| Execution.ExecLoop | command.cpp:699-733 | the same for Loop, which neither Break nor Continue leaves; what they do to it is LoopLaws.LoopIsRounds |
| Execution.ExecFor | command.cpp:735-772 | the same for For |
| Execution.ExecIf | command.cpp:781-840 | the same for If |
| Execution.ExecElse | command.cpp:815-835 | the same for an else clause, which no termination of its commands leaves |
| ExecutionLaws.ProgramsEndCleanly | command.cpp:476-498 | a program that starts outside loops ends in a value or Quit, with the counters as it found them, through backquotes, Execute and scripts |
| ExecutionLaws.FlightPropagates | mpw_parser.cpp:92-104 | a log in which no termination is out of order: each is last, or is at once ended with the same status |
| ExecutionLaws.TerminationPropagates | command.cpp:533-840 | a run only adds to the log; after a termination nothing runs until it is ended, at any depth; a run that ends in one was ended by the last that was raised, with its status |
| ExecutionLaws.ListIsSequential | command.cpp:591-599 | a list runs its second part exactly when its first part ends normally |
| ExecutionLaws.QueueIsSequential | mpw_parser.cpp:85-90 | the same for the queue |
| ExecutionLaws.ChainIsPass | command.cpp:533-558 | and and or commands of any length, mixed and nested to the left, are one pass over their operands, null ones included: each is skipped exactly when the value so far settles its operator, the value is that of the last operand run, and only a failure of all operands behind a last or can throw |
| ExecutionLaws.ChainStops | command.cpp:533-558 | a chain of one operator stops at the first operand that settles it; what follows has no effect at all |
| ExecutionLaws.AndNeverThrows | command.cpp:546-558 | a chain that ends in an and is exactly the pass over its operands, with and without throwup: it throws only what one of them throws |
| ExecutionLaws.OrThrows | command.cpp:533-544 | a chain that ends in an or throws exactly what an operand throws, and its own value when that is a failure and {exit} is set |
| ExecutionLaws.TerminatedProgramStops | mpw-shell.cpp:111-121 | a program that a termination ends returns its status, and the rest of its input has no effect |
| ExecutionLaws.InterruptedRunsNothing | command.cpp:339 | once control_c is set, every command ends at once with status -9 and runs nothing |
| CommandLaws.SimpleComesTo | command.cpp:333-420 | how a simple command ends, by what it is once it is expanded: value, status, what is thrown, and what is handed on |
| CommandLaws.EvaluatedComesTo | command.cpp:422-531 | the same for Evaluate, Break, Continue and Exit |
| CommandLaws.ErrorComesTo | command.cpp:601-632 | an error command ends with -3, and throws even when not asked to |
| CommandLaws.ProgramValueIsStatus | mpw-shell.cpp:102-162 | the value of a program is the status that it leaves, whatever the status was before |
| CommandLaws.ExpansionIsReads | mpw-shell-expand.rl:138-154 | expanding a text reads its programs in order, one level deeper, up to the first that does not end with a value; then it fails if it was to fail |
| CommandLaws.ScriptsAreIsolated | command.cpp:399-410 | what a script does depends on no counter, flag or status of its caller, and changes none |
| CommandLaws.ListEnds | command.cpp:591-599 | the value of a list is that of its last command, is its status, and is thrown when {exit} is set |
| CommandLaws.PipeEnds | command.cpp:561-589 | both sides of a pipe run, left before right, and the status is that of the right |
| CommandLaws.BadHeadersEnd | command.cpp:634-675 | a construct whose lines fail or are misused ends with that status, and nothing inside it runs |
| LoopLaws.LoopIsRounds | command.cpp:699-733 | over any chain of rounds: a Loop runs until a round does not go on; Break ends it in the state of that round with the value of the last round that had one, Continue only ends its round, and anything else ends the Loop as it is |
| LoopLaws.LoopValueNeedsBreak | command.cpp:712-730 | a Loop in which no round ends in Break never ends with a value |
| LoopLaws.ForIsRounds | command.cpp:735-772 | the same for For: round i is given word i, in order, up to the first round that does not go on or the last word |
| LoopLaws.BlocksHandOn | command.cpp:677-697 | Begin and parentheses hand a Break or Continue on to the loop around them |
| LoopExamples.BreakEndsLoop | command.cpp:712-730 | Loop, Break, End comes to 0 |
| LoopExamples.ForIsCutShort | command.cpp:749-769 | a For over four words with a Continue and a Break, with its log |
| IfLaws.IfWithoutBody | command.cpp:781-840 | an If in which no clause is selected runs no body, and its status is the last error of its lines and conditions |
| IfLaws.IfRunsOneBody | command.cpp:781-840 | an If depends on no body but that of the first true clause with no error before it |
| IfLaws.SelectedBodyRuns | command.cpp:781-840 | and that body is run, in the state that the conditions leave: the whole If is what its outcome comes to, for every outcome, after the lines of the later clauses are expanded |
| IfLaws.TerminationEndsIf | command.cpp:424-465 | a termination in the selected body is the outcome of the If if and only if the clause is the first; an else clause swallows it, with the same status, and the If then ends with status 0 unless a later line is interrupted |
| IfLaws.ValueIsThatOfBody | command.cpp:781-840 | a body that ends with a value gives the If its value and its status, unless a later line is interrupted |
| ExecutionExamples.ExitInElseGoesOn | command.cpp:815-835 | a script with Exit in an else clause that goes on with the next command, and the same in the first clause, which does not |
| ExecutionExamples.FailedAndGoesOn | command.cpp:546-558 | a failing and command that does not exit where an or command does |
| Interpreter.Shell.Execute | command.h:30 | the commands on the stateful environment compute Exec |
| Interpreter.Shell.Status | environment.cpp:205-221 | status on the stateful environment |
| Interpreter.Shell.ExpandVars | mpw-shell-expand.rl:138-154 | the loop over the backquoted programs, with indent_and |
| Interpreter.Shell.Read | mpw-shell.cpp:124-136 | the loop over the chunks of a program, with its handler |
| Interpreter.Shell.Drain | mpw_parser.cpp:70-105 | the loop over the queue |
| Interpreter.Shell.ExecuteSimple | command.cpp:333-420 | simple commands; a script gets a new environment |
| Interpreter.Shell.ExecuteEvaluated | command.cpp:422-531 | Evaluate, Break, Continue and Exit |
| Interpreter.Shell.ExecuteChain | command.cpp:533-559 | and and or commands |
| Interpreter.Shell.ExecutePipe | command.cpp:561-589 | pipes |
| Interpreter.Shell.ExecuteList | command.cpp:591-599 | the loop over the children |
| Interpreter.Shell.IndentAnd | environment.h:104-117 | the counters are raised for the commands of a construct and restored however they end |
| Interpreter.Shell.ExecuteBlock | command.cpp:634-697 | Begin, Loop and For up to their bodies |
| Interpreter.Shell.ExecuteLoop | command.cpp:712-730 | the loop of Loop computes ExecLoop, and so the rounds of LoopLaws.LoopIsRounds |
| Interpreter.Shell.ExecuteFor | command.cpp:749-769 | the loop of For |
| Interpreter.Shell.ExecuteIf | command.cpp:781-840 | the loop over the clauses, with skip and error |
| Interpreter.Shell.ElseClause | command.cpp:815-835 | one else clause |
| Interpreter.Reader.Execute | mpw_parser.cpp:70-105 | after a termination the queue is gone; an interactive reader goes on, any other is aborted and runs nothing ever after |
| Interpreter.Reader.Parse | mpw_parser.cpp:61-67 | one chunk: what it queues is executed at once, unless the reader was aborted; its result and the new state in every case |
| Regex.MpwRegex.Convert | mpw-regex.cpp:84-105 | accepts exactly the well-formed patterns; the output and the numbers are those of the items read |
| Regex.MpwRegex.ConvertItems | mpw-regex.cpp:108-162 | the loop appends what is written for each item and updates the numbers as it goes |
| Regex.MpwRegex.ConvertSet | mpw-regex.cpp:182-220 | a set, with its leading character and its escapes |
| Regex.MpwRegex.ConvertRepeat | mpw-regex.cpp:164-180 | a repeat: digits and commas up to the closing bracket |
| Regex.MpwRegex.ConvertCapture | mpw-regex.cpp:222-269 | a group: numbered when it opens, taken back when no tag follows |
| Regex.MpwRegex.MoveDown | mpw-regex.cpp:262-264 | in place: the captures inside such a group move down by one |
| RegexMeaning.WrittenSaysSource | mpw-regex.cpp:108-269 | read sign by sign, the written pattern is complete and says what the MPW pattern says (literals, escapes, wildcards, sets, repeats and groups) exactly when it has no escaped question mark outside of sets and no escaped letter or digit in one |
| RegexMeaning.Pitfalls | mpw-regex.cpp:112-119 | two patterns that say something else |
| RegexMeaning.RepeatsAreBounds | mpw-regex.cpp:164-180 | a repeat is accepted exactly when only digits and commas are before its closing bracket |
| RegexMeaning.RefusedGroups | mpw-regex.cpp:245-252 | a mark without a digit and an open group are refused |
| RegexLaws.ItemsSource | mpw-regex.cpp:108-162 | every character of the source is in exactly one item, in order |
| RegexLaws.ScannedItems | mpw-regex.cpp:254-268 | a reader of the written pattern sees as capturing exactly the tagged groups that are not hidden, in order |
| RegexLaws.NumberedItems | mpw-regex.cpp:222-269 | for any nesting: the count is that of the tagged groups, and each tag is mapped to the group that closes last with it |
| RegexLaws.CapturesAreGroups | mpw-regex.h:43-44 | num_captures is the number of capturing parentheses of the output plus the hidden groups; with none hidden, each capture that is set is the index, from the left, of the parenthesis of the group that closes last with its tag |
| RegexLaws.EscapedQuestionMarkHides | mpw-regex.cpp:112-120 | a pattern that counts one capture and writes none |
| LineMachine.Phase1.Process | phase1.cpp:38-180 | one byte: each escape that is taken back is an 0xb6, for it is the last byte of the scratch |
| LineMachine.Phase1.Parse | phase1.cpp:183-187 | a chunk is processed byte by byte |
| LineMachine.Phase1.Finish | phase1.cpp:189-193 | the end of the input ends the line |
| LineMachine.ChunksDoNotMatter | phase1.cpp:183-187 | how the input is cut into chunks makes no difference |
| LineMachine.MachinePlaysRoles | phase1.cpp:38-180 | the machine, which sees one byte at a time and takes escapes back, agrees with a reading of the whole input that looks ahead: same lines, scratch, line count and continuation |
| LineMachine.LinesConserveInput | phase1.cpp:38-207 | lines and scratch are the input without newlines, joining escapes and comments, in order, exactly when no comment has an escape before anything but a newline |
| LineLaws.StringsAreKept | phase1.cpp:73-155 | outside of strings, an opener, a body that does not end the string, and the closer are kept whole, a # included, for each of the six pairs of delimiters; escapes count in double quotes and backquotes only |
| LineLaws.DoubledAreKept | phase1.cpp:157-176 | the same for doubled backquotes |
| LineLaws.CommentsAreDropped | phase1.cpp:77-106 | a # outside of strings and what is behind it are dropped, and the newline ends the line |
| LineLaws.EscapedNewlineJoins | phase1.cpp:43-71 | an escaped newline joins the lines in every string, and ends a comment |
| LineLaws.NewlineEndsStrings | phase1.cpp:43-51 | any other newline ends the line, and a string with it |
| LineMachine.CommentLeaks | phase1.cpp:73 | an input whose comment leaks a byte |
| Variables.EnvironmentTable.Set | environment.cpp:87-99 | the table and every cached value agree after set; # caches what to_pound_int reads |
| VariableLaws.ExportedStays | environment.cpp:166-184 | over any sequence of set, set_argv, shift and status that does not take it away: a variable that is exported at any time stays so, and a script gets it with the last value that it was given |
| VariableLaws.OthersStayInside | environment.cpp:46-65 | a variable that nothing exports never gets to a script |
| VariableLaws.OperationComes | environment.cpp:87-164 | one operation: each name has the value that it gives, or else the one that it had |
| VariableLaws.CaseDoesNotMatter | environment.cpp:87-89 | two names are one variable exactly when they differ only in case |
| VariableLaws.SignsAreRead | environment.cpp:31-39 | a count may have a sign, and is none when it is no 32-bit number |
| Variables.EnvironmentTable.Unset | environment.cpp:186-194 | and after unset |
| Variables.EnvironmentTable.UnsetAll | environment.cpp:196-202 | and after clearing everything, where # keeps its cached value |
| Variables.EnvironmentTable.Status | environment.cpp:205-212 | the table is written only when the number changes |
| Variables.EnvironmentTable.SetArgv | environment.cpp:121-148 | set_argv in place |
| Variables.EnvironmentTable.ShiftBy | environment.cpp:150-164 | shift in place |
| Variables.EnvironmentTable.Subshell | environment.cpp:46-65 | exactly the exported variables, with their flags |
| Variables.ArgumentsAreSet | environment.cpp:121-148 | after set_argv the positional arguments are those given, and # counts them |
| Variables.PoundRoundTrip | environment.cpp:31-41 | the number that is written to # is read back by to_pound_int, and a negative one as 0 |
| Variables.ArgumentsAreCounted | environment.cpp:121-148 | after set_argv the cached count is what # is read as |
| Variables.ShiftDrops | environment.cpp:150-164 | shift(n) drops exactly the first n arguments, rebuilds # and the parameters, and clears the names that are no longer used |
| Variables.ShiftTwice | environment.cpp:150-164 | shift(a) then shift(b) has the same argument view as shift(a + b) |
| Numbers.HexRoundTrip | builtins.cpp:728-731 | hexadecimal output of every 32-bit number scans back to it, through wrap-around |
| Numbers.BinaryRoundTrip | builtins.cpp:733-742 | the same for binary output |
| Numbers.DecimalRoundTrip | builtins.cpp:750 | decimal output scans back exactly when it is not negative |
| NumberLaws.PrefixedNumbers | value.rl:19-76 | hexadecimal and binary texts of any length stand for their positional value modulo 2 to the 32, in either case of prefix and digits |
| NumberLaws.OtherNumbers | value.rl:19-76 | decimal texts do without a leading zero, and nothing else is a number |
| Numbers.WriteBinary | builtins.cpp:733-742 | the 32-step shifting loop writes the 32 binary digits |
| Numbers.ScannerIsScan | value.rl:19-76 | the scanner's states read exactly the texts that are numbers |
| Numbers.Value.ScanNumber | value.rl:19-76 | the scanner fills the cache with what the text means |
| Numbers.Value.ToNumber | value.h:40-45 | the lazy cache never changes what a value means |
| MacRoman.LowerBound | macroman.cpp:50-52 | the first pair that is not below the code point |
| MacRoman.FromUnicode | macroman.cpp:30-53 | searching the sorted table agrees with searching the table from the front |
| MacRoman.LookupInverts | macroman.cpp:30-68 | a byte is found again by its code point, in any injective table |
| MacRoman.ToUtf8 | macroman.cpp:129-161 | the converter writes the UTF-8 form (section 3 of RFC 3629) of every code point |
| MacRoman.FromUtf8 | macroman.cpp:74-126 | the decoder with its 16-bit accumulator |
| MacRoman.MacRomanRoundTrip | macroman.cpp:74-161 | to UTF-8 and back is the identity on every byte string |
| MacRoman.Utf8RoundTrip | macroman.cpp:74-161 | to Mac Roman and back is the identity on every valid text of the table's code points and ASCII |
| MacRomanLaws.EncodedAdds | macroman.cpp:74-126 | a code point that the table does not have is dropped |
| MacRomanLaws.FourBytesWrap | macroman.cpp:74-126 | a code point of four bytes is taken for the one with its low 16 bits |
| MacRomanLaws.StrayBytesAreSkipped | macroman.cpp:74-126 | bytes that continue nothing or begin nothing are skipped |
| MacRomanTable.TableIsCodeTable | macroman.x:3-129 | the table of the program is injective and has no ASCII in it |
| Quoting.Quote | mpw-shell-quote.rl:45-64 | the loop of quote |
| Quoting.ScanTokens | mpw-shell-token.rl:16-170 | the scanner of tokenize, with and without eval |
| TokenLaws.RebuiltLine | mpw-shell-token.rl:287-298 | for every line: the line that tokenize puts together from its tokens has the same tokens |
| TokenLaws.TokensAreTokens | mpw-shell-token.rl:16-170 | every token is an operator of its full length, or a word of characters, escaped characters and closed quotes |
| ExpandLaws.RawPartIsCopied | mpw-shell-expand.rl:82-129 | a part in single quotes, slashes or backslashes is copied whole: nothing in it is expanded |
| ExpandLaws.ActivePartIsExpanded | mpw-shell-expand.rl:82-129 | a brace or backquote inside double quotes, as outside of quotes, is expanded, and the part goes on behind it |
| ExpandLaws.EscapedIsCopied | mpw-shell-expand.rl:82-129 | an escape protects what is behind it there |
| ExpandLaws.PartIsUnquoted | mpw-shell-token.rl:208-264 | unquoting drops single and double quotes, and keeps slashes and backslashes |
| ExpandLaws.EscapeIsUnquoted | mpw-shell-token.rl:208-264 | three escaped letters are codes, any other character stands for itself |
| QuotingLaws.ExpandLine | mpw-shell-expand.rl:82-129 | expand_vars copies a line of quoted words, whatever is inside the quotes |
| QuotingLaws.TokensLine | mpw-shell-token.rl:16-170 | in both modes, the tokens of a line of quoted words are the quoted words |
| QuotingLaws.BadWord | mpw-shell-quote.rl:47 | the first word with a single quote comes back with 0xd8 in the place of that quote |
| QuotingLaws.QuotingRoundTrip | mpw-shell-quote.rl:45-64 | non-empty words that are quoted, joined with blanks, expanded and tokenized come back exactly when none contains a single quote |

## Left out

- phase2.rl: how a line is split into tokens and classified. The parser is
  proved over all token sequences, and only the two newlines that end a line are
  used of phase2.
- yypParser::will_accept, tracing, the dynamic stack of the parser template and
  its compressed tables: inactive, or a representation of the tables used here.
- The 32-bit wrap-around of yyerrcnt, line numbers and positional counts:
  integers are unbounded there. Numbers and expressions wrap at 32 bits.
- Arithmetic: what C leaves open (shifts out of range, the smallest number
  divided by -1) is a parameter.
- Execution.Exec: runs that never end are not described; every run is one in which
  control_c is set at some point, however late. What expansion, simple commands,
  conditions and assignments do to variables is an oracle over an abstract world;
  the test flag, startup files and redirections are part of it.
- Execution.ExecEvaluated: error commands of a type other than ERROR are never
  built by the grammar and are not modelled.
- Interpreter.Reader.Execute: reports on standard error are not modelled, nor is
  any other output.
- fork, signals, readline, files and directories: external programs are part of
  the oracle.
- The alias table, and claims about {status} after the user sets it.
- RegexLaws.CapturesAreGroups: what a pattern matches is not modelled; std::regex
  is library code.
- MacRoman.FromUnicode: std::sort is library code; any sorting of the table is
  allowed.
- Quoting.ScanTokens: expansion of active braces and backquotes is a parameter
  that may return anything or throw. Expansion, unquote and the scanning of a
  quoted part are functions, not loops.
- The numeric output in octal, the remaining builtins, help, paths and file
  descriptor sets: easy members.
