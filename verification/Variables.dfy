/** The variable table of an Environment, with the values that it caches and the
    positional arguments. */
module Variables {
  import opened Numbers

  datatype Entry = Entry(value: string, exported: bool)

  type Table = map<string, Entry>

  function LowerChar(c: char): char {
    if 'A' <= c <= 'Z' then c - 'A' + 'a' else c
  }

  function Lower(s: string): (r: string)
    ensures |r| == |s|
  {
    seq(|s|, i requires 0 <= i < |s| => LowerChar(s[i]))
  }

  /** Empty and "0" are false. */
  predicate Truth(s: string) {
    s != "" && s != "0"
  }

  function Get(t: Table, k: string): string {
    if k in t then t[k].value else ""
  }

  /** set_common: an exported variable stays exported. */
  function Put(t: Table, k: string, value: string, exported: bool): Table {
    t[k := Entry(value, exported || (k in t && t[k].exported))]
  }

  function Remove(t: Table, k: string): Table {
    map x | x in t && x != k :: t[x]
  }

  /** What a script gets to see of the table. */
  function Exported(t: Table): Table {
    map k | k in t && t[k].exported :: t[k]
  }

  // ---------------------------------------------------- positional arguments

  const POUND := "#"
  const PARAMETERS := "parameters"
  const QUOTED_PARAMETERS := "\"parameters\""

  predicate IsSpace(c: char) {
    c == ' ' || '\t' <= c <= '\r'
  }

  function SkipSpaces(s: string): string {
    if s != "" && IsSpace(s[0]) then SkipSpaces(s[1..]) else s
  }

  function LeadingDigits(s: string): (d: string)
    ensures AllDigits(10, d)
  {
    if s != "" && IsDigit(s[0]) then
      assert DigitValue(s[0]) < 10;
      [s[0]] + LeadingDigits(s[1..])
    else ""
  }

  /** std::stoi: spaces, a sign, and digits, whatever follows them; None when
      there are none, or when the number is no int. */
  function Stoi(s: string): Option<int> {
    var t := SkipSpaces(s);
    var signed := t != "" && (t[0] == '-' || t[0] == '+');
    var d := LeadingDigits(if signed then t[1..] else t);
    var n := if signed && t[0] == '-' then -(Denotes(10, d) as int) else Denotes(10, d);
    if d != "" && IsInt32(n) then Some(n) else None
  }

  /** to_pound_int: the number of arguments that a value of # stands for. */
  function ToPound(s: string): nat {
    var n := Stoi(s);
    if n.Some? && n.value > 0 then n.value else 0
  }

  lemma {:induction false} AllAreLeading(s: string)
    requires forall i :: 0 <= i < |s| ==> IsDigit(s[i])
    ensures LeadingDigits(s) == s
    decreases s
  {
    if s != "" {
      AllAreLeading(s[1..]);
    }
  }

  lemma {:induction false} DigitsAreRead(n: nat)
    ensures var d := Digits(n);
            forall i :: 0 <= i < |d| ==> IsDigit(d[i])
  {
    DigitsDenote(n);
    var d := Digits(n);
    forall i | 0 <= i < |d| ensures IsDigit(d[i]) {
      assert d[i] in d;
    }
  }

  /** The count that is written to # is read back; a negative one is none. */
  lemma {:induction false} PoundRoundTrip(n: int)
    requires IsInt32(n)
    ensures ToPound(ToString(n)) == if n > 0 then n else 0
  {
    var s := ToString(n);
    if n > 0 {
      DigitsAreRead(n);
      assert s == Digits(n);
      AllAreLeading(s);
      DigitsDenote(n);
      hide Digits, Denotes, LeadingDigits;
      assert IsDigit(s[0]);
    } else if n < 0 {
      assert s[0] == '-' && SkipSpaces(s) == s;
      hide Denotes, LeadingDigits, Digits;
      assert ToPound(s) == 0;
    } else {
      AllAreLeading("0");
    }
  }

  /** The words, each with its quotes or without, and blanks between them. */
  function Joined(words: seq<string>, quote: string): string {
    if words == [] then ""
    else
      var k := |words| - 1;
      (if k == 0 then "" else Joined(words[..k], quote) + " ") + quote + words[k] + quote
  }

  function PutWords(t: Table, words: seq<string>): Table {
    if words == [] then t
    else
      var k := |words| - 1;
      Put(PutWords(t, words[..k]), ToString(k), words[k], false)
  }

  /** The table after set_argv. */
  function WithArguments(t: Table, argv: seq<string>): Table
    requires argv != []
  {
    var t1 := PutWords(Put(t, POUND, ToString(|argv| - 1), false), argv);
    Put(Put(t1, QUOTED_PARAMETERS, Joined(argv, "\""), false), PARAMETERS, Joined(argv, ""), false)
  }

  /** What a script sees of its arguments: {0}, {1} and so on. */
  function Arguments(t: Table, count: nat): (argv: seq<string>)
    ensures |argv| == count + 1
  {
    seq(count + 1, i requires 0 <= i < count + 1 => Get(t, ToString(i)))
  }

  lemma {:induction false} ZeroIsWritten()
    ensures ToString(0) == "0"
  {
  }

  // ------------------------------------------------------- names of arguments

  lemma {:induction false} SpecialNames(i: int)
    ensures ToString(i) != POUND && ToString(i) != PARAMETERS && ToString(i) != QUOTED_PARAMETERS
    ensures ToString(i) != "echo" && ToString(i) != "exit" && ToString(i) != "test"
    ensures Lower(ToString(i)) == ToString(i)
  {
    hide Digits;
    var s := ToString(i);
    DigitsDenote(if i < 0 then -i else i);
    forall c | c in s ensures (IsDigit(c) || c == '-') && LowerChar(c) == c {
    }
    assert s[0] in s;
    assert "#"[0] == '#' && "parameters"[0] == 'p' && "\"parameters\""[0] == '"';
    assert Lower(s) == s by {
      forall j | 0 <= j < |s| ensures Lower(s)[j] == s[j] {
        assert s[j] in s;
      }
    }
  }

  lemma {:induction false} PutWordsLookup(t: Table, words: seq<string>, k: string)
    ensures k in PutWords(t, words) <==> k in t || exists i :: 0 <= i < |words| && k == ToString(i)
    ensures (forall i :: 0 <= i < |words| ==> k != ToString(i)) && k in t ==> PutWords(t, words)[k] == t[k]
    ensures forall i :: 0 <= i < |words| && k == ToString(i) ==> Get(PutWords(t, words), k) == words[i]
    decreases words
  {
    hide ToString;
    if words != [] {
      var n := |words| - 1;
      PutWordsLookup(t, words[..n], k);
      forall i | 0 <= i < |words| && k == ToString(i)
        ensures Get(PutWords(t, words), k) == words[i]
      {
        if i < n {
          if ToString(i) == ToString(n) {
            ToStringIsInjective(i, n);
          }
          assert words[..n][i] == words[i];
        }
      }
    }
  }

  /** After set_argv the arguments are those given, and # counts them. */
  lemma {:induction false} ArgumentsAreSet(t: Table, argv: seq<string>)
    requires argv != []
    ensures Arguments(WithArguments(t, argv), |argv| - 1) == argv
    ensures Get(WithArguments(t, argv), POUND) == ToString(|argv| - 1)
  {
    var t1 := Put(t, POUND, ToString(|argv| - 1), false);
    forall i | 0 <= i < |argv|
      ensures Arguments(WithArguments(t, argv), |argv| - 1)[i] == argv[i]
    {
      SpecialNames(i);
      PutWordsLookup(t1, argv, ToString(i));
    }
    forall i: nat ensures ToString(i) != POUND {
      SpecialNames(i);
    }
    PutWordsLookup(t1, argv, POUND);
  }

  /** The cached count is what # is read as. */
  lemma {:induction false} ArgumentsAreCounted(t: Table, argv: seq<string>)
    requires argv != [] && IsInt32(|argv| - 1)
    ensures ToPound(Get(WithArguments(t, argv), POUND)) == |argv| - 1
  {
    hide ToPound, ToString, WithArguments;
    ArgumentsAreSet(t, argv);
    PoundRoundTrip(|argv| - 1);
  }

  // -------------------------------------------------------------------- shift

  /** Without the n names from ToString(top) down. */
  function Vacated(t: Table, top: int, n: nat): Table {
    if n == 0 then t else Remove(Vacated(t, top, n - 1), ToString(top - (n - 1)))
  }

  /** {0}, and the arguments behind the first n. */
  function Shifted(t: Table, pound: nat, n: nat): (argv: seq<string>)
    ensures argv != [] && |argv| - 1 == if n <= pound then pound - n else 0
  {
    [Get(t, ToString(0))] +
    if n <= pound then Arguments(t, pound)[1 + n..] else []
  }

  /** The table and # after shift(n). */
  function Shift(t: Table, pound: nat, n: int): (r: (Table, nat)) {
    if n < 0 || pound < 1 then (t, pound)
    else
      var argv := Shifted(t, pound, n);
      (WithArguments(Vacated(t, pound, n), argv), |argv| - 1)
  }

  /** Everything that a script sees of its arguments. */
  datatype View = View(argv: seq<string>, pound: string, parameters: string, quoted: string)

  function ViewOf(t: Table, pound: nat): View {
    View(Arguments(t, pound), Get(t, POUND), Get(t, PARAMETERS), Get(t, QUOTED_PARAMETERS))
  }

  function ViewFor(argv: seq<string>): View
    requires argv != []
  {
    View(argv, ToString(|argv| - 1), Joined(argv, ""), Joined(argv, "\""))
  }

  lemma {:induction false} ViewIsSet(t: Table, argv: seq<string>)
    requires argv != []
    ensures ViewOf(WithArguments(t, argv), |argv| - 1) == ViewFor(argv)
  {
    ArgumentsAreSet(t, argv);
  }

  lemma {:induction false} VacatedNames(t: Table, top: int, n: nat, k: string)
    ensures k in Vacated(t, top, n) <==> k in t && forall i :: top - n < i <= top ==> k != ToString(i)
    ensures k in Vacated(t, top, n) ==> Vacated(t, top, n)[k] == t[k]
  {
    if n > 0 {
      VacatedNames(t, top, n - 1, k);
    }
  }

  /** shift(n) drops exactly the first n arguments, and the names of the places
      that are no longer used. */
  lemma {:induction false} ShiftDrops(t: Table, pound: nat, n: nat)
    requires pound >= 1
    ensures var r := Shift(t, pound, n);
            var old_ := Arguments(t, pound);
            && ViewOf(r.0, r.1) == ViewFor([old_[0]] + if n <= pound then old_[1 + n..] else [])
            && forall i :: r.1 < i <= pound ==> ToString(i) !in r.0
  {
    var argv := Shifted(t, pound, n);
    var t1 := Vacated(t, pound, n);
    ViewIsSet(t1, argv);
    forall i | |argv| - 1 < i <= pound ensures ToString(i) !in WithArguments(t1, argv) {
      SpecialNames(i);
      VacatedNames(t, pound, n, ToString(i));
      PutWordsLookup(Put(t1, POUND, ToString(|argv| - 1), false), argv, ToString(i));
      forall j | 0 <= j < |argv| ensures ToString(i) != ToString(j) {
        if ToString(i) == ToString(j) {
          ToStringIsInjective(i, j);
        }
      }
    }
  }

  lemma {:induction false} ShiftView(t: Table, pound: nat, n: nat)
    requires pound >= 1
    ensures var r := Shift(t, pound, n);
            && ViewOf(r.0, r.1) == ViewFor(Shifted(t, pound, n))
            && Arguments(r.0, r.1) == Shifted(t, pound, n)
  {
    ViewIsSet(Vacated(t, pound, n), Shifted(t, pound, n));
    ArgumentsAreSet(Vacated(t, pound, n), Shifted(t, pound, n));
  }

  lemma {:induction false} ShiftedTwice(t: Table, t1: Table, pound: nat, a: nat, b: nat, left: nat)
    requires left == |Shifted(t, pound, a)| - 1
    requires Arguments(t1, left) == Shifted(t, pound, a)
    ensures Shifted(t1, left, b) == Shifted(t, pound, a + b)
  {
    hide ToString;
    var argv := Shifted(t, pound, a);
    assert Get(t1, ToString(0)) == argv[0];
    if a + b <= pound {
      assert argv[1 + b..] == Arguments(t, pound)[1 + (a + b)..];
    }
  }

  /** Shifting twice is shifting by the sum. */
  lemma {:induction false} ShiftTwice(t: Table, pound: nat, a: nat, b: nat)
    requires pound >= 1
    ensures var once := Shift(t, pound, a + b);
            var first := Shift(t, pound, a);
            var twice := Shift(first.0, first.1, b);
            ViewOf(twice.0, twice.1) == ViewOf(once.0, once.1)
  {
    hide Shifted, Arguments, ViewOf, ViewFor;
    ShiftView(t, pound, a + b);
    ShiftView(t, pound, a);
    var first := Shift(t, pound, a);
    ShiftedTwice(t, first.0, pound, a, b, first.1);
    if first.1 >= 1 {
      ShiftView(first.0, first.1, b);
    } else {
      NothingLeft(t, pound, a, b);
    }
  }

  lemma {:induction false} NothingLeft(t: Table, pound: nat, a: nat, b: nat)
    requires |Shifted(t, pound, a)| == 1
    ensures Shifted(t, pound, a + b) == Shifted(t, pound, a)
  {
  }

  // -------------------------------------------------------------- environment

  /** The part of an Environment that is about variables. */
  class EnvironmentTable {
    var table: Table
    var echo: bool
    var exit: bool
    var test: bool
    var pound: nat
    var status: int

    /** The cached flags are those of the table. */
    ghost predicate Valid()
      reads this
    {
      && echo == Truth(Get(table, "echo"))
      && exit == Truth(Get(table, "exit"))
      && test == Truth(Get(table, "test"))
    }

    constructor ()
      ensures Valid() && table == map[] && pound == 0 && status == 0
    {
      table, echo, exit, test, pound, status := map[], false, false, false, 0, 0;
    }

    method Set(key: string, value: string, exported: bool)
      requires Valid()
      modifies this
      ensures Valid() && table == Put(old(table), Lower(key), value, exported)
      ensures pound == if Lower(key) == POUND then ToPound(value) else old(pound)
      ensures status == old(status)
    {
      var k := Lower(key);
      if k == "echo" {
        echo := Truth(value);
      }
      if k == "exit" {
        exit := Truth(value);
      }
      if k == "test" {
        test := Truth(value);
      }
      if k == POUND {
        pound := ToPound(value);
      }
      table := Put(table, k, value, exported);
    }

    method Unset(key: string)
      requires Valid()
      modifies this
      ensures Valid() && table == Remove(old(table), Lower(key))
      ensures pound == if Lower(key) == POUND then 0 else old(pound)
      ensures status == old(status)
    {
      var k := Lower(key);
      if k == "echo" {
        echo := false;
      }
      if k == "exit" {
        exit := false;
      }
      if k == "test" {
        test := false;
      }
      if k == POUND {
        pound := 0;
      }
      table := Remove(table, k);
    }

    /** unset without a name: # keeps its cached value. */
    method UnsetAll()
      modifies this
      ensures Valid() && table == map[] && pound == old(pound) && status == 0
    {
      table := map[];
      echo, exit, test, status := false, false, false, 0;
    }

    /** status: the table is written only when the number changes. */
    method Status(i: int)
      requires Valid()
      modifies this
      ensures Valid() && status == i && pound == old(pound)
      ensures table == if i == old(status) then old(table) else Put(old(table), "status", ToString(i), false)
    {
      if status == i {
        return;
      }
      status := i;
      table := Put(table, "status", ToString(i), false);
    }

    method SetArgv(argv: seq<string>)
      requires Valid() && argv != []
      modifies this
      ensures Valid() && table == WithArguments(old(table), argv) && pound == |argv| - 1
      ensures status == old(status)
    {
      hide Truth, Joined, ToString;
      ghost var before := table;
      pound := |argv| - 1;
      table := Put(table, POUND, ToString(pound), false);
      ghost var t1 := table;
      for n := 0 to |argv|
        invariant table == PutWords(t1, argv[..n])
        invariant echo == old(echo) && exit == old(exit) && test == old(test)
        invariant pound == |argv| - 1 && status == old(status)
      {
        assert argv[..n + 1][..n] == argv[..n];
        table := Put(table, ToString(n), argv[n], false);
      }
      assert argv[..|argv|] == argv;
      table := Put(table, QUOTED_PARAMETERS, Joined(argv, "\""), false);
      table := Put(table, PARAMETERS, Joined(argv, ""), false);
      assert table == WithArguments(before, argv);
      FlagsUntouched(before, argv);
    }

    method ShiftBy(n: int)
      requires Valid()
      modifies this
      ensures Valid() && (table, pound) == Shift(old(table), old(pound), n)
      ensures status == old(status)
    {
      if n < 0 || pound < 1 {
        return;
      }
      var argv := Collect(n);
      Vacate(n);
      SetArgv(argv);
    }

    /** The first loop of shift: the arguments that stay. */
    method Collect(n: nat) returns (argv: seq<string>)
      ensures argv == Shifted(table, pound, n)
    {
      hide ToString, Get;
      ZeroIsWritten();
      argv := [Get(table, "0")];
      var i := 1 + n;
      while i <= pound
        invariant i <= pound + 1 || i == 1 + n
        invariant argv == [Get(table, ToString(0))] + if i <= pound + 1 then Arguments(table, pound)[1 + n..i] else []
      {
        argv := argv + [Get(table, ToString(i))];
        i := i + 1;
      }
    }

    /** The second loop: the names that are no longer used. */
    method Vacate(n: nat)
      requires Valid()
      modifies this
      ensures Valid() && table == Vacated(old(table), pound, n)
      ensures pound == old(pound) && status == old(status)
    {
      for i := 0 to n
        invariant Valid() && pound == old(pound) && status == old(status)
        invariant table == Vacated(old(table), pound, i)
      {
        SpecialNames(pound - i);
        Unset(ToString(pound - i));
      }
    }

    /** subshell_environment: a copy of the exported variables. */
    method Subshell() returns (env: EnvironmentTable)
      requires Valid()
      ensures fresh(env) && env.Valid()
      ensures env.table == Exported(table)
      ensures env.pound == 0 && env.status == 0
    {
      hide Truth;
      env := new EnvironmentTable();
      env.table := Exported(table);
      if "echo" in env.table {
        env.echo := Truth(env.table["echo"].value);
      }
      if "exit" in env.table {
        env.exit := Truth(env.table["exit"].value);
      }
      if "test" in env.table {
        env.test := Truth(env.table["test"].value);
      }
    }
  }

  lemma {:induction false} FlagsUntouched(t: Table, argv: seq<string>)
    requires argv != []
    ensures forall k :: k == "echo" || k == "exit" || k == "test" ==> Get(WithArguments(t, argv), k) == Get(t, k)
  {
    var t1 := Put(t, POUND, ToString(|argv| - 1), false);
    forall k | k == "echo" || k == "exit" || k == "test"
      ensures Get(WithArguments(t, argv), k) == Get(t, k)
    {
      forall i: nat ensures k != ToString(i) {
        SpecialNames(i);
      }
      PutWordsLookup(t1, argv, k);
      assert |k| == 4 && |POUND| == 1 && |PARAMETERS| == 10 && |QUOTED_PARAMETERS| == 12;
    }
  }
}
