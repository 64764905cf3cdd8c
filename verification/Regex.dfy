/** The regular expressions of MPW and their translation to ECMAScript: what is
    read, what is written, and how groups are numbered. */
module Regex {

  const ESCAPE: char := '\U{b6}'
  const ANY_STRING: char := '\U{c5}'
  const REPEAT_OPEN: char := '\U{c7}'
  const REPEAT_CLOSE: char := '\U{c8}'
  const NEGATION: char := '\U{c2}'
  const TAG: char := '\U{a8}'

  predicate EcmaSpecial(c: char) {
    || c == '|' || c == '{' || c == '}' || c == '(' || c == ')' || c == '[' || c == ']'
    || c == '*' || c == '+' || c == '^' || c == '$' || c == '.' || c == '\\'
  }

  predicate IsDigit(c: char) {
    '0' <= c <= '9'
  }

  function Quoted(c: char): string {
    if EcmaSpecial(c) then ['\\', c] else [c]
  }

  datatype Option<T> = None | Some(value: T)

  /** What a regular expression is made of. A chunk is anything but a group:
      what is read, and what is written for it. `lead` is a question mark right
      after the parenthesis; x. */
  datatype Item =
    | Chunk(source: string, text: string)
    | Group(lead: bool, body: seq<Item>, tag: Option<nat>)

  // ------------------------------------------------------------------ reading

  datatype Parse = Error | Parsed(items: seq<Item>, next: nat)

  function Prepend(items: seq<Item>, p: Parse): Parse {
    if p.Error? then Error else Parsed(items + p.items, p.next)
  }

  /** A chunk's text, and where the reading goes on. */
  datatype Piece = NoPiece | Piece(text: string, next: nat)

  function AfterText(text: string, p: Piece): Piece {
    if p.NoPiece? then NoPiece else Piece(text + p.text, p.next)
  }

  /** After the opening bracket of a repeat: digits and commas. */
  function Repeat(s: string, i: nat): (p: Piece)
    requires i <= |s|
    ensures p.Piece? ==> i < p.next <= |s|
    decreases |s| - i
  {
    if i == |s| then NoPiece
    else if s[i] == REPEAT_CLOSE then Piece("}", i + 1)
    else if s[i] != ',' && !IsDigit(s[i]) then NoPiece
    else AfterText([s[i]], Repeat(s, i + 1))
  }

  /** After the opening bracket of a set, and its leading character. */
  function SetRest(s: string, i: nat): (p: Piece)
    requires i <= |s|
    ensures p.Piece? ==> i < p.next <= |s|
    decreases |s| - i
  {
    if i == |s| then NoPiece
    else if s[i] == ESCAPE then
      if i + 1 == |s| then NoPiece else AfterText(['\\', s[i + 1]], SetRest(s, i + 2))
    else if s[i] == ']' then Piece("]", i + 1)
    else AfterText(if s[i] == '\\' then "\\\\" else [s[i]], SetRest(s, i + 1))
  }

  function SetLead(s: string, i: nat): string {
    if i < |s| && s[i] == NEGATION then "^"
    else if i < |s| && s[i] == '^' then "\\^"
    else ""
  }

  /** After the opening bracket of a set. */
  function ReadSet(s: string, i: nat): (p: Piece)
    requires i <= |s|
    ensures p.Piece? ==> i < p.next <= |s|
  {
    var lead := SetLead(s, i);
    AfterText("[" + lead, SetRest(s, i + if lead == "" then 0 else 1))
  }

  /** One chunk that begins at i, which is not the start of a group. */
  function ReadChunk(s: string, i: nat): (p: Piece)
    requires i < |s|
    ensures p.Piece? ==> i < p.next <= |s|
  {
    var c := s[i];
    if c == ESCAPE then
      if i + 1 == |s| then NoPiece else Piece(Quoted(s[i + 1]), i + 2)
    else if c == '?' then Piece(".", i + 1)
    else if c == ANY_STRING then Piece(".*", i + 1)
    else if c == '[' then
      ReadSet(s, i + 1)
    else if c == REPEAT_OPEN then
      AfterText("{", Repeat(s, i + 1))
    else if c == '+' || c == '*' then Piece([c], i + 1)
    else Piece(Quoted(c), i + 1)
  }

  function ReadItem(s: string, i: nat): (p: Parse)
    requires i < |s|
    ensures p.Parsed? ==> |p.items| == 1 && i < p.next <= |s|
    decreases |s| - i, 0
  {
    if s[i] == '(' then ReadGroup(s, i + 1)
    else
      var p := ReadChunk(s, i);
      if p.NoPiece? then Error else Parsed([Chunk(s[i..p.next], p.text)], p.next)
  }

  /** Items up to the terminator, or up to the end when there is none. */
  function ReadItems(s: string, i: nat, term: Option<char>): (p: Parse)
    requires i <= |s|
    ensures p.Parsed? ==> i <= p.next <= |s| && (term.Some? ==> i < p.next)
    decreases |s| - i, 1
  {
    if i == |s| then if term.Some? then Error else Parsed([], i)
    else if s[i] != ESCAPE && term == Some(s[i]) then Parsed([], i + 1)
    else
      var p := ReadItem(s, i);
      if p.Error? then Error else Prepend(p.items, ReadItems(s, p.next, term))
  }

  /** After the opening parenthesis of a group. */
  function ReadGroup(s: string, i: nat): (p: Parse)
    requires i <= |s|
    ensures p.Parsed? ==> |p.items| == 1 && i < p.next <= |s|
    decreases |s| - i, 2
  {
    var lead := i < |s| && s[i] == '?';
    var p := ReadItems(s, if lead then i + 1 else i, Some(')'));
    if p.Error? then Error
    else if p.next < |s| && s[p.next] == TAG then
      if p.next + 1 == |s| || !IsDigit(s[p.next + 1]) then Error
      else Parsed([Group(lead, p.items, Some(Digit(s[p.next + 1])))], p.next + 2)
    else Parsed([Group(lead, p.items, None)], p.next)
  }

  function Digit(c: char): (d: nat)
    requires IsDigit(c)
    ensures d < 10
  {
    (c - '0') as int
  }

  // ------------------------------------------------------------------ writing

  function Written(items: seq<Item>): string {
    if items == [] then "" else Written(items[..|items| - 1]) + WrittenItem(items[|items| - 1])
  }

  function WrittenItem(x: Item): string {
    match x
    case Chunk(_, text) => text
    case Group(lead, body, tag) =>
      (if tag.Some? then "(" else "(?:") + Lead(lead) + Written(body) + ")"
  }

  function Lead(lead: bool): string {
    if lead then "\\?" else ""
  }

  // ---------------------------------------------------------------- numbering

  const LABELS := 10

  /** num_captures and capture_map. */
  datatype Numbers = Numbers(count: int, captures: seq<int>)

  /** Every index from the given one on moves down. */
  function Renumber(captures: seq<int>, index: int): (r: seq<int>)
    ensures |r| == |captures|
    ensures forall n :: 0 <= n < |r| ==>
      r[n] == if captures[n] >= index then captures[n] - 1 else captures[n]
  {
    seq(|captures|, n requires 0 <= n < |captures| =>
      if captures[n] >= index then captures[n] - 1 else captures[n])
  }

  /** A group takes the next number when it opens; when it closes without a tag
      the number is taken back, and those after it move down. */
  function Number(x: Item, st: Numbers): (st': Numbers)
    ensures |st'.captures| == |st.captures|
  {
    match x
    case Chunk(_, _) => st
    case Group(_, body, tag) =>
      var index := st.count + 1;
      var inner := NumberAll(body, st.(count := index));
      match tag
      case Some(n) =>
        if n < |inner.captures| then inner.(captures := inner.captures[n := index]) else inner
      case None => Numbers(inner.count - 1, Renumber(inner.captures, index))
  }

  function NumberAll(items: seq<Item>, st: Numbers): (st': Numbers)
    ensures |st'.captures| == |st.captures|
  {
    if items == [] then st else Number(items[|items| - 1], NumberAll(items[..|items| - 1], st))
  }

  // ---------------------------------------------------------------- converting

  lemma {:induction false} AfterTextTwice(a: string, b: string, p: Piece)
    ensures AfterText(a, AfterText(b, p)) == AfterText(a + b, p)
  {
    if p.Piece? {
      assert a + (b + p.text) == a + b + p.text;
    }
  }

  lemma {:induction false} NothingWritten(st: Numbers)
    ensures Written([]) == "" && NumberAll([], st) == st
  {
  }

  lemma {:induction false} ItemsSnoc(items: seq<Item>, x: seq<Item>, st: Numbers)
    requires |x| == 1
    ensures Written(items + x) == Written(items) + WrittenItem(x[0])
    ensures NumberAll(items + x, st) == Number(x[0], NumberAll(items, st))
  {
    assert (items + x)[..|items|] == items;
  }

  lemma {:induction false} PrependNothing(a: seq<Item>, i: nat)
    ensures Prepend(a, Parsed([], i)) == Parsed(a, i)
  {
    assert a + [] == a;
  }

  class MpwRegex {
    const capture_map: array<int>
    var num_captures: int

    constructor ()
      ensures fresh(capture_map) && capture_map.Length == LABELS
      ensures num_captures == 0 && capture_map[..] == seq(LABELS, _ => 0)
    {
      capture_map := new int[LABELS](_ => 0);
      num_captures := 0;
    }

    ghost function Count(): Numbers
      reads this, capture_map
    {
      Numbers(num_captures, capture_map[..])
    }

    /** The public convert_re: with slashes around it, or bare. */
    method Convert(s: string, slash: bool) returns (ok: bool, accumulator: string)
      requires capture_map.Length == LABELS
      modifies this, capture_map
      ensures var p := ReadItems(s, if slash && s != "" then 1 else 0, if slash then Some('/') else None);
              && (ok <==> (slash ==> s != "" && s[0] == '/') && p.Parsed? && p.next == |s|)
              && (ok ==> accumulator == Written(p.items) && Count() == NumberAll(p.items, old(Count())))
    {
      accumulator := "";
      var i := 0;
      if slash {
        if s == "" || s[0] != '/' {
          return false, "";
        }
        i := 1;
      }
      ok, i, accumulator := ConvertItems(s, i, accumulator, if slash then Some('/') else None);
      if ok && i != |s| {
        ok := false;
      }
    }

    /** convert_re, up to the terminator. */
    method ConvertItems(s: string, iter: nat, before: string, term: Option<char>)
        returns (ok: bool, i: nat, accumulator: string)
      requires iter <= |s| && capture_map.Length == LABELS
      modifies this, capture_map
      ensures var p := ReadItems(s, iter, term);
              && (ok <==> p.Parsed?)
              && (ok ==> i == p.next && accumulator == before + Written(p.items) &&
                         Count() == NumberAll(p.items, old(Count())))
      decreases |s| - iter, 1
    {
      hide Written, WrittenItem, Number, NumberAll, ReadItem;
      accumulator, i, ok := before, iter, true;
      ghost var done: seq<Item> := [];
      NothingWritten(old(Count()));
      while i < |s|
        invariant iter <= i <= |s| && ok
        invariant ReadItems(s, iter, term) == Prepend(done, ReadItems(s, i, term))
        invariant accumulator == before + Written(done)
        invariant Count() == NumberAll(done, old(Count()))
      {
        if s[i] != ESCAPE && term == Some(s[i]) {
          i := i + 1;
          PrependNothing(done, i);
          return;
        }
        ghost var x := ReadItem(s, i);
        ok, i, accumulator := ConvertItem(s, i, accumulator);
        if !ok {
          return;
        }
        ItemsSnoc(done, x.items, old(Count()));
        done := done + x.items;
      }
      PrependNothing(done, i);
      ok := term.None?;
    }

    /** One round of the loop of convert_re, when it is not at the terminator. */
    method ConvertItem(s: string, iter: nat, before: string) returns (ok: bool, i: nat, accumulator: string)
      requires iter < |s| && capture_map.Length == LABELS
      modifies this, capture_map
      ensures var p := ReadItem(s, iter);
              && (ok <==> p.Parsed?)
              && (ok ==> i == p.next && accumulator == before + WrittenItem(p.items[0]) &&
                         Count() == Number(p.items[0], old(Count())))
      decreases |s| - iter, 0
    {
      if s[iter] == '(' {
        ok, i, accumulator := ConvertCapture(s, iter + 1, before);
      } else {
        ok, i, accumulator := ConvertChunk(s, iter, before);
      }
    }

    /** One character that is not a terminator, or a set, or a repeat. */
    method ConvertChunk(s: string, iter: nat, before: string) returns (ok: bool, i: nat, accumulator: string)
      requires iter < |s|
      ensures (if ok then Piece(accumulator, i) else NoPiece) == AfterText(before, ReadChunk(s, iter))
    {
      accumulator, ok := before, true;
      var c := s[iter];
      i := iter + 1;
      if c == ESCAPE {
        if i == |s| {
          return false, i, accumulator;
        }
        c := s[i];
        i := i + 1;
        if EcmaSpecial(c) {
          accumulator := accumulator + "\\";
        }
        accumulator := accumulator + [c];
        assert accumulator == before + Quoted(c);
        return;
      }
      if c == '?' {
        accumulator := accumulator + ".";
        return;
      }
      if c == ANY_STRING {
        accumulator := accumulator + ".*";
        return;
      }
      if c == '[' {
        ok, i, accumulator := ConvertSet(s, i, accumulator);
        return;
      }
      if c == REPEAT_OPEN {
        ok, i, accumulator := ConvertRepeat(s, i, accumulator);
        return;
      }
      if c == '+' || c == '*' {
        accumulator := accumulator + [c];
        return;
      }
      if EcmaSpecial(c) {
        accumulator := accumulator + "\\";
      }
      accumulator := accumulator + [c];
    }

    /** convert_re_repeat. */
    method ConvertRepeat(s: string, iter: nat, before: string) returns (ok: bool, i: nat, accumulator: string)
      requires iter <= |s|
      ensures (if ok then Piece(accumulator, i) else NoPiece) ==
        AfterText(before, AfterText("{", Repeat(s, iter)))
    {
      accumulator, i := before + "{", iter;
      AfterTextTwice(before, "{", Repeat(s, i));
      while i < |s|
        invariant iter <= i <= |s|
        invariant AfterText(accumulator, Repeat(s, i)) == AfterText(before, AfterText("{", Repeat(s, iter)))
      {
        var c := s[i];
        i := i + 1;
        if c == REPEAT_CLOSE {
          return true, i, accumulator + "}";
        }
        if c != ',' && !IsDigit(c) {
          return false, i, accumulator;
        }
        AfterTextTwice(accumulator, [c], Repeat(s, i));
        accumulator := accumulator + [c];
      }
      return false, i, accumulator;
    }

    /** convert_re_set. */
    method ConvertSet(s: string, iter: nat, before: string) returns (ok: bool, i: nat, accumulator: string)
      requires iter <= |s|
      ensures (if ok then Piece(accumulator, i) else NoPiece) == AfterText(before, ReadSet(s, iter))
    {
      accumulator, i := before + "[", iter;
      if i < |s| && s[i] == NEGATION {
        accumulator := accumulator + "^";
        i := i + 1;
      } else if i < |s| && s[i] == '^' {
        accumulator := accumulator + "\\^";
        i := i + 1;
      }
      AfterTextTwice(before, "[" + SetLead(s, iter), SetRest(s, i));
      assert accumulator == before + ("[" + SetLead(s, iter));
      while i < |s|
        invariant iter <= i <= |s|
        invariant AfterText(accumulator, SetRest(s, i)) == AfterText(before, ReadSet(s, iter))
      {
        var c := s[i];
        i := i + 1;
        var x := [c];
        if c == ESCAPE {
          if i == |s| {
            return false, i, accumulator;
          }
          x := ['\\', s[i]];
          i := i + 1;
        } else if c == ']' {
          return true, i, accumulator + "]";
        } else if c == '\\' {
          x := "\\\\";
        }
        AfterTextTwice(accumulator, x, SetRest(s, i));
        accumulator := accumulator + x;
      }
      return false, i, accumulator;
    }

    /** convert_re_capture. */
    method ConvertCapture(s: string, iter: nat, before: string) returns (ok: bool, i: nat, accumulator: string)
      requires iter <= |s| && capture_map.Length == LABELS
      modifies this, capture_map
      ensures var p := ReadGroup(s, iter);
              && (ok <==> p.Parsed?)
              && (ok ==> i == p.next && accumulator == before + WrittenItem(p.items[0]) &&
                         Count() == Number(p.items[0], old(Count())))
      decreases |s| - iter, 2
    {
      hide Written, NumberAll, ReadItems;
      accumulator, i := before, iter;
      var scratch := "";
      var capture := false;
      var n := 0;
      num_captures := num_captures + 1;
      var ecma_index := num_captures;
      if i < |s| && s[i] == '?' {
        scratch := "\\?";
        i := i + 1;
      }
      ok, i, scratch := ConvertItems(s, i, scratch, Some(')'));
      if !ok {
        return;
      }
      ghost var inner := Count();
      if i < |s| && s[i] == TAG {
        i := i + 1;
        if i == |s| || !IsDigit(s[i]) {
          return false, i, accumulator;
        }
        n := Digit(s[i]);
        i := i + 1;
        capture := true;
      }
      accumulator := accumulator + "(";
      if capture {
        capture_map[n] := ecma_index;
        assert capture_map[..] == inner.captures[n := ecma_index];
      } else {
        accumulator := accumulator + "?:";
        num_captures := num_captures - 1;
        MoveDown(ecma_index);
      }
      accumulator := accumulator + scratch + ")";
      assert accumulator == before + ((if capture then "(" else "(?:") + scratch + ")");
    }

    /** Renumbers the groups inside a group that turned out not to capture. */
    method MoveDown(ecma_index: int)
      requires capture_map.Length == LABELS
      modifies capture_map
      ensures capture_map[..] == Renumber(old(capture_map[..]), ecma_index)
    {
      for n := 0 to capture_map.Length
        invariant forall m :: 0 <= m < n ==> capture_map[m] == Renumber(old(capture_map[..]), ecma_index)[m]
        invariant forall m :: n <= m < LABELS ==> capture_map[m] == old(capture_map[m])
      {
        if capture_map[n] >= ecma_index {
          capture_map[n] := capture_map[n] - 1;
        }
      }
    }
  }
}
