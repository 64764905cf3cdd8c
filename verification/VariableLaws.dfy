/** Variables over any sequence of operations: their values and their exports. */
module VariableLaws {
  import opened Numbers
  import opened Variables

  /** The operations on a table that give variables values. */
  datatype Operation =
    | SetTo(key: string, value: string, exported: bool)
    | SetArguments(argv: seq<string>)
    | ShiftBy(n: int)
    | SetStatus(i: int)

  datatype Environment = Environment(table: Table, pound: nat, status: int)

  predicate IsAllowed(op: Operation) {
    op.SetArguments? ==> op.argv != []
  }

  /** What the methods of EnvironmentTable promise. */
  function Applied(e: Environment, op: Operation): Environment
    requires IsAllowed(op)
  {
    match op
    case SetTo(key, value, exported) =>
      Environment(Put(e.table, Lower(key), value, exported),
                  if Lower(key) == POUND then ToPound(value) else e.pound, e.status)
    case SetArguments(argv) => Environment(WithArguments(e.table, argv), |argv| - 1, e.status)
    case ShiftBy(n) =>
      var r := Shift(e.table, e.pound, n);
      Environment(r.0, r.1, e.status)
    case SetStatus(i) =>
      Environment(if i == e.status then e.table else Put(e.table, "status", ToString(i), false), e.pound, i)
  }

  /** The methods do what Applied says. */
  method Apply(env: EnvironmentTable, op: Operation)
    requires env.Valid() && IsAllowed(op)
    modifies env
    ensures env.Valid()
    ensures Environment(env.table, env.pound, env.status) ==
      Applied(old(Environment(env.table, env.pound, env.status)), op)
  {
    hide Put, WithArguments, Shift, ToPound;
    match op
    case SetTo(key, value, exported) => env.Set(key, value, exported);
    case SetArguments(argv) => env.SetArgv(argv);
    case ShiftBy(n) => env.ShiftBy(n);
    case SetStatus(i) => env.Status(i);
  }

  // -------------------------------------------------- what an operation gives

  /** The value that set_argv gives a name. */
  function GivenByArguments(argv: seq<string>, k: string): Option<string>
    requires argv != []
  {
    if k == "#" then Some(ToString(|argv| - 1))
    else if k == "parameters" then Some(Joined(argv, ""))
    else if k == "\"parameters\"" then Some(Joined(argv, "\""))
    else Positional(argv, k)
  }

  function Positional(argv: seq<string>, k: string): Option<string> {
    if argv == [] then None
    else if k == ToString(|argv| - 1) then Some(argv[|argv| - 1])
    else Positional(argv[..|argv| - 1], k)
  }

  /** The value that an operation gives a name, if it gives it one. */
  function Given(e: Environment, op: Operation, k: string): Option<string>
    requires IsAllowed(op)
  {
    match op
    case SetTo(key, value, _) => if Lower(key) == k then Some(value) else None
    case SetArguments(argv) => GivenByArguments(argv, k)
    case ShiftBy(n) =>
      if n < 0 || e.pound < 1 then None else GivenByArguments(Shifted(e.table, e.pound, n), k)
    case SetStatus(i) => if k == "status" && i != e.status then Some(ToString(i)) else None
  }

  /** The operation takes the name away; only a shift does. */
  predicate Vacates(e: Environment, op: Operation, k: string) {
    && op.ShiftBy? && op.n >= 0 && e.pound >= 1
    && exists i: int :: e.pound - op.n < i <= e.pound && k == ToString(i)
  }

  predicate Exports(op: Operation, k: string) {
    op.SetTo? && op.exported && Lower(op.key) == k
  }

  predicate IsExported(t: Table, k: string) {
    k in t && t[k].exported
  }

  /** The value of k afterwards, and whether k is exported then. */
  ghost predicate Comes(t: Table, t': Table, k: string, given: Option<string>, exports: bool) {
    && (k in t' <==> given.Some? || k in t)
    && (given.Some? ==> t'[k].value == given.value)
    && (given.None? && k in t ==> t'[k].value == t[k].value)
    && (IsExported(t', k) <==> exports || IsExported(t, k))
  }

  lemma {:induction false} PositionalComes(t: Table, argv: seq<string>, k: string)
    ensures Comes(t, PutWords(t, argv), k, Positional(argv, k), false)
    decreases |argv|
  {
    hide ToString;
    if argv != [] {
      PositionalComes(t, argv[..|argv| - 1], k);
    }
  }

  lemma {:induction false} NoSpecialNames(argv: seq<string>, k: string)
    requires k == POUND || k == PARAMETERS || k == QUOTED_PARAMETERS
    ensures Positional(argv, k).None?
    decreases |argv|
  {
    if argv != [] {
      SpecialNames(|argv| - 1);
      NoSpecialNames(argv[..|argv| - 1], k);
    }
  }

  lemma {:induction false} ArgumentsCome(t: Table, argv: seq<string>, k: string)
    requires argv != []
    ensures Comes(t, WithArguments(t, argv), k, GivenByArguments(argv, k), false)
  {
    hide ToString, Joined, Positional;
    var t1 := Put(t, POUND, ToString(|argv| - 1), false);
    PositionalComes(t1, argv, k);
    if k == POUND || k == PARAMETERS || k == QUOTED_PARAMETERS {
      NoSpecialNames(argv, k);
    }
    assert |POUND| == 1 && |PARAMETERS| == 10 && |QUOTED_PARAMETERS| == 12;
  }

  /** One operation: the name has the value that it gives, or else the one that
      it had; it is exported exactly when it was, or is made so. */
  lemma {:induction false} OperationComes(e: Environment, op: Operation, k: string)
    requires IsAllowed(op) && !Vacates(e, op, k)
    ensures Comes(e.table, Applied(e, op).table, k, Given(e, op, k), Exports(op, k))
  {
    hide ToString, GivenByArguments, Shifted, WithArguments;
    match op
    case SetTo(_, _, _) =>
    case SetArguments(argv) => ArgumentsCome(e.table, argv, k);
    case ShiftBy(n) =>
      if n >= 0 && e.pound >= 1 {
        VacatedNames(e.table, e.pound, n, k);
        VacatedKeeps(e.table, e.pound, n, k);
        ArgumentsCome(Vacated(e.table, e.pound, n), Shifted(e.table, e.pound, n), k);
      }
    case SetStatus(_) =>
  }

  lemma {:induction false} VacatedKeeps(t: Table, top: int, n: nat, k: string)
    requires forall i: int :: top - n < i <= top ==> k != ToString(i)
    ensures k in Vacated(t, top, n) <==> k in t
    ensures k in t ==> Vacated(t, top, n)[k] == t[k]
  {
    VacatedNames(t, top, n, k);
  }

  // -------------------------------------------------------------------- runs

  function AppliedAll(e: Environment, ops: seq<Operation>): Environment
    requires forall op | op in ops :: IsAllowed(op)
  {
    if ops == [] then e else Applied(AppliedAll(e, ops[..|ops| - 1]), ops[|ops| - 1])
  }

  predicate NeverVacates(e: Environment, ops: seq<Operation>, k: string)
    requires forall op | op in ops :: IsAllowed(op)
  {
    ops != [] ==>
      && NeverVacates(e, ops[..|ops| - 1], k)
      && !Vacates(AppliedAll(e, ops[..|ops| - 1]), ops[|ops| - 1], k)
  }

  /** The value of the last operation that gave the name one. */
  function LastGiven(e: Environment, ops: seq<Operation>, k: string): Option<string>
    requires forall op | op in ops :: IsAllowed(op)
  {
    if ops == [] then None
    else
      var before := ops[..|ops| - 1];
      var given := Given(AppliedAll(e, before), ops[|ops| - 1], k);
      if given.Some? then given else LastGiven(e, before, k)
  }

  lemma {:induction false} RunComes(e: Environment, ops: seq<Operation>, k: string)
    requires forall op | op in ops :: IsAllowed(op)
    requires NeverVacates(e, ops, k)
    ensures Comes(e.table, AppliedAll(e, ops).table, k, LastGiven(e, ops, k), exists op :: op in ops && Exports(op, k))
    decreases |ops|
  {
    hide Applied, Given, Vacates, Exports;
    if ops != [] {
      var n := |ops| - 1;
      RunComes(e, ops[..n], k);
      OperationComes(AppliedAll(e, ops[..n]), ops[n], k);
      assert ops == ops[..n] + [ops[n]];
    }
  }

  /** Over any operations that do not take it away: a variable that was exported,
      or is at any time, stays so, and a script gets it with the last value that
      it was given. */
  lemma {:induction false} ExportedStays(e: Environment, ops: seq<Operation>, k: string)
    requires forall op | op in ops :: IsAllowed(op)
    requires NeverVacates(e, ops, k)
    requires IsExported(e.table, k) || exists op :: op in ops && Exports(op, k)
    ensures var script := Exported(AppliedAll(e, ops).table);
            var given := LastGiven(e, ops, k);
            && k in script && (given.None? ==> k in e.table)
            && script[k].value == if given.Some? then given.value else e.table[k].value
  {
    hide Exports;
    RunComes(e, ops, k);
  }

  /** A variable that nothing exports never gets to a script. */
  lemma {:induction false} OthersStayInside(e: Environment, ops: seq<Operation>, k: string)
    requires forall op | op in ops :: IsAllowed(op)
    requires NeverVacates(e, ops, k)
    requires !IsExported(e.table, k) && !exists op :: op in ops && Exports(op, k)
    ensures k !in Exported(AppliedAll(e, ops).table)
  {
    hide Exports;
    RunComes(e, ops, k);
  }

  // ------------------------------------------------------ names and values

  lemma {:induction false} JoinedSnoc(a: seq<string>, word: string, quote: string)
    requires a != []
    ensures Joined(a + [word], quote) == Joined(a, quote) + (" " + quote + word + quote)
  {
    assert (a + [word])[..|a|] == a;
    assert Joined(a, quote) + " " + quote + word + quote == Joined(a, quote) + (" " + quote + word + quote);
  }

  /** The parameters are the arguments with blanks between them, in the quoted
      form each in its quotes. */
  lemma {:induction false} JoinedWord(word: string)
    ensures Joined([word], "") == word && Joined([word], "\"") == "\"" + word + "\""
    ensures Joined([], "") == ""
  {
    assert [word][..0] == [];
    assert "" + "" + word + "" == word && "" + "\"" + word + "\"" == "\"" + word + "\"";
  }

  predicate SameLetter(a: char, b: char) {
    || a == b
    || ('A' <= a <= 'Z' && b as int == a as int + 32)
    || ('A' <= b <= 'Z' && a as int == b as int + 32)
  }

  /** Names are the same in either case. */
  lemma {:induction false} CaseDoesNotMatter(s: string, t: string)
    ensures Lower(s) == Lower(t) <==> |s| == |t| && forall i :: 0 <= i < |s| ==> SameLetter(s[i], t[i])
  {
    forall i | 0 <= i < |s| && i < |t| ensures Lower(s)[i] == Lower(t)[i] <==> SameLetter(s[i], t[i]) {
      LettersAreLowered(s[i], t[i]);
    }
    if Lower(s) == Lower(t) {
      forall i | 0 <= i < |s| ensures SameLetter(s[i], t[i]) {
        assert Lower(s)[i] == Lower(t)[i];
      }
    }
  }

  lemma {:induction false} LettersAreLowered(a: char, b: char)
    ensures LowerChar(a) == LowerChar(b) <==> SameLetter(a, b)
  {
  }

  lemma {:induction false} Flags()
    ensures !Truth("") && !Truth("0") && Truth("1") && Truth("00") && Truth("no")
    ensures Get(map[], "exit") == ""
  {
    assert |"00"| == 2 && |"no"| == 2 && "1"[0] != '0';
  }

  lemma {:induction false} SpacesAreSkipped(s: string, c: char)
    requires c == ' ' || c == '\t' || c == '\n' || c == '\r'
    ensures Stoi([c] + s) == Stoi(s)
  {
    assert ([c] + s)[1..] == s;
  }

  lemma {:induction false} SignsAreRead(s: string)
    requires s != "" && IsDigit(s[0])
    ensures Stoi("+" + s) == Stoi(s)
    ensures Denotes(10, LeadingDigits(s)) < 0x8000_0000 ==>
      Stoi(s) == Some(Denotes(10, LeadingDigits(s))) && Stoi("-" + s) == Some(-(Denotes(10, LeadingDigits(s)) as int))
    ensures Denotes(10, LeadingDigits(s)) >= 0x8000_0000 ==> Stoi(s) == None
  {
    assert ("+" + s)[1..] == s && ("-" + s)[1..] == s;
    hide Denotes;
  }

  /** Digits are read up to the first other character. */
  lemma {:induction false} DigitsAreLeading(d: string, rest: string)
    requires forall i :: 0 <= i < |d| ==> IsDigit(d[i])
    requires rest != "" ==> !IsDigit(rest[0])
    ensures LeadingDigits(d + rest) == d
    decreases |d|
  {
    if d == "" {
      assert d + rest == rest;
    } else {
      assert (d + rest)[1..] == d[1..] + rest;
      DigitsAreLeading(d[1..], rest);
    }
  }

  lemma {:induction false} NoDigitsNoNumber(s: string)
    requires s != "" ==> !IsSpace(s[0]) && !IsDigit(s[0]) && s[0] != '-' && s[0] != '+'
    ensures Stoi(s) == None && ToPound(s) == 0
  {
  }
}
