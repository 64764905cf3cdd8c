/** The command trees that the shell parses and executes (command.h), and the
    terminal symbols that the line splitter hands to the parser. */
module CommandTree {

  /** Terminal symbols, in the order of their codes in phase3_parser.h. */
  datatype Terminal =
    | EOF
    | PIPE_PIPE | AMP_AMP | PIPE
    | SEMI | NL
    | COMMAND | EVALUATE | BREAK | CONTINUE | EXIT | ERROR
    | LPAREN | RPAREN
    | BEGIN | END | LOOP | FOR | IF | ELSE_IF | ELSE

  datatype Token = Token(kind: Terminal, text: string)

  /** A command pointer. `Null` is the null pointer that a default-constructed
      value holds; the other constructors are the subclasses of `command`,
      grouped by the fields that they carry. */
  datatype Command =
    | Null
    | Word(kind: Terminal, text: string)
    | Binary(kind: Terminal, left: Command, right: Command)
    | Block(kind: Terminal, children: seq<Command>, begin: string, end: string)
    | If(clauses: seq<Clause>, end: string)

  /** An if/else clause: its own keyword, its commands, and its condition. */
  datatype Clause = Clause(kind: Terminal, children: seq<Command>, clause: string)

  /** The kinds of a command that is a single word of text. */
  predicate IsWord(t: Terminal) {
    t.COMMAND? || t.EVALUATE? || t.BREAK? || t.CONTINUE? || t.EXIT? || t.ERROR?
  }

  predicate IsOperator(t: Terminal) {
    t.PIPE_PIPE? || t.AMP_AMP? || t.PIPE?
  }

  predicate IsSeparator(t: Terminal) {
    t.SEMI? || t.NL?
  }

  /** The keywords closed by End. */
  predicate IsBlockOpener(t: Terminal) {
    t.BEGIN? || t.LOOP? || t.FOR?
  }

  predicate IsOpener(t: Terminal) {
    IsBlockOpener(t) || t.IF? || t.LPAREN?
  }

  predicate IsElse(t: Terminal) {
    t.ELSE_IF? || t.ELSE?
  }

  /** The terminals that can begin a command. */
  predicate IsStarter(t: Terminal) {
    IsWord(t) || IsOpener(t)
  }

  /** No null pointer anywhere in the tree, and every word is of a word kind. */
  predicate Complete(c: Command) {
    match c
    case Null => false
    case Word(k, _) => IsWord(k)
    case Binary(_, l, r) => Complete(l) && Complete(r)
    case Block(_, cs, _, _) => forall d | d in cs :: Complete(d)
    case If(cls, _) => forall cl | cl in cls :: CompleteClause(cl)
  }

  predicate CompleteClause(cl: Clause) {
    forall d | d in cl.children :: Complete(d)
  }
}
