/** What the numbers of a converted regular expression mean: they are those of
    the capturing parentheses of the ECMAScript text, counted from the left. */
module RegexLaws {
  import opened Regex

  // --------------------------------- the groups of an ECMAScript pattern

  /** Where a reader of ECMAScript patterns is (section 15.10 of ECMA-262, 3rd
      edition): after an opening parenthesis, behind a backslash, in a class. */
  datatype Mode = Normal | AfterParen | Escaped | InClass | EscapedInClass

  function Advance(m: Mode, c: char): Mode {
    match m
    case Escaped => Normal
    case EscapedInClass => InClass
    case InClass => if c == '\\' then EscapedInClass else if c == ']' then Normal else InClass
    case _ => if c == '\\' then Escaped else if c == '[' then InClass else if c == '(' then AfterParen else Normal
  }

  function AdvanceAll(m: Mode, t: string): Mode
    decreases t
  {
    if t == "" then m else AdvanceAll(Advance(m, t[0]), t[1..])
  }

  /** The offsets of the parentheses that capture: those that a question mark
      does not follow (section 15.10.2.8). */
  function Captures(m: Mode, t: string, offset: int): seq<int>
    decreases t
  {
    if t == "" then []
    else
      (if m.AfterParen? && t[0] != '?' then [offset - 1] else []) +
      Captures(Advance(m, t[0]), t[1..], offset + 1)
  }

  lemma {:induction false} CapturesConcat(m: Mode, a: string, b: string, offset: int)
    ensures Captures(m, a + b, offset) ==
      Captures(m, a, offset) + Captures(AdvanceAll(m, a), b, offset + |a|)
    ensures AdvanceAll(m, a + b) == AdvanceAll(AdvanceAll(m, a), b)
    decreases a
  {
    hide Advance;
    if a == "" {
      assert a + b == b;
    } else {
      assert (a + b)[1..] == a[1..] + b && (a + b)[0] == a[0];
      CapturesConcat(Advance(m, a[0]), a[1..], b, offset + 1);
    }
  }

  /** A text without capturing parentheses that leaves the reader where it was. */
  predicate Plain(m: Mode, t: string) {
    AdvanceAll(m, t) == Normal && Silent(m, t)
  }

  predicate Silent(m: Mode, t: string)
    decreases t
  {
    t != "" ==> (m.AfterParen? ==> t[0] == '?') && Silent(Advance(m, t[0]), t[1..])
  }

  lemma {:induction false} SilentCaptures(m: Mode, t: string, offset: int)
    requires Silent(m, t)
    ensures Captures(m, t, offset) == []
    decreases t
  {
    if t != "" {
      SilentCaptures(Advance(m, t[0]), t[1..], offset + 1);
    }
  }

  lemma {:induction false} PlainCons(m: Mode, c: char, t: string)
    requires !m.AfterParen?
    ensures Plain(m, [c] + t) <==> Plain(Advance(m, c), t)
  {
    assert ([c] + t)[0] == c && ([c] + t)[1..] == t;
  }

  // --------------------------------------------- chunks contain no groups

  lemma {:induction false} SetRestIsPlain(s: string, i: nat)
    requires i <= |s| && SetRest(s, i).Piece?
    ensures Plain(InClass, SetRest(s, i).text)
    decreases |s| - i
  {
    if s[i] == ESCAPE {
      SetRestIsPlain(s, i + 2);
      var rest := SetRest(s, i + 2).text;
      PlainCons(EscapedInClass, s[i + 1], rest);
      PlainCons(InClass, '\\', [s[i + 1]] + rest);
      assert ['\\', s[i + 1]] + rest == ['\\'] + ([s[i + 1]] + rest);
    } else if s[i] == ']' {
      PlainCons(InClass, ']', "");
      assert [']'] + "" == "]";
    } else {
      SetRestIsPlain(s, i + 1);
      var rest := SetRest(s, i + 1).text;
      if s[i] == '\\' {
        PlainCons(EscapedInClass, '\\', rest);
        PlainCons(InClass, '\\', ['\\'] + rest);
        assert "\\\\" + rest == ['\\'] + (['\\'] + rest);
      } else {
        PlainCons(InClass, s[i], rest);
      }
    }
  }

  lemma {:induction false} RepeatIsPlain(s: string, i: nat)
    requires i <= |s| && Repeat(s, i).Piece?
    ensures Plain(Normal, Repeat(s, i).text)
    decreases |s| - i
  {
    if s[i] == REPEAT_CLOSE {
      PlainCons(Normal, '}', "");
      assert ['}'] + "" == "}";
    } else {
      RepeatIsPlain(s, i + 1);
      PlainCons(Normal, s[i], Repeat(s, i + 1).text);
    }
  }

  lemma {:induction false} ShortIsPlain(c: char)
    ensures Plain(Normal, ['\\', c])
    ensures c != '\\' && c != '[' && c != '(' ==> Plain(Normal, [c])
    ensures Plain(Normal, ".*")
  {
    PlainCons(Escaped, c, "");
    PlainCons(Normal, '\\', [c]);
    assert ['\\'] + [c] == ['\\', c] && [c] + "" == [c];
    PlainCons(Normal, c, "");
    PlainCons(Normal, '*', "");
    PlainCons(Normal, '.', "*");
    assert ['.'] + "*" == ".*" && ['*'] + "" == "*";
  }

  lemma {:induction false} LeadIsPlain(rest: string)
    requires Plain(InClass, rest)
    ensures Plain(InClass, "^" + rest) && Plain(InClass, "\\^" + rest)
  {
    PlainCons(InClass, '^', rest);
    PlainCons(EscapedInClass, '^', rest);
    PlainCons(InClass, '\\', ['^'] + rest);
    assert "\\^" + rest == ['\\'] + (['^'] + rest);
  }

  lemma {:induction false} SetIsPlain(s: string, i: nat)
    requires i <= |s| && ReadSet(s, i).Piece?
    ensures Plain(Normal, ReadSet(s, i).text)
  {
    hide Plain, SetRest;
    var lead := SetLead(s, i);
    var rest := SetRest(s, i + if lead == "" then 0 else 1).text;
    SetRestIsPlain(s, i + if lead == "" then 0 else 1);
    LeadIsPlain(rest);
    assert "" + rest == rest;
    PlainCons(Normal, '[', lead + rest);
    assert ("[" + lead) + rest == ['['] + (lead + rest);
  }

  /** What a chunk writes is never empty, has no groups in it, and begins with
      a question mark only for an escaped one. */
  lemma {:induction false} ChunkIsPlain(s: string, i: nat)
    requires i < |s| && s[i] != '(' && ReadChunk(s, i).Piece?
    ensures var p := ReadChunk(s, i);
            && Plain(Normal, p.text) && p.text != ""
            && (p.text[0] == '?' <==> s[i..p.next] == [ESCAPE, '?'])
  {
    var c := s[i];
    if c == ESCAPE {
      ShortIsPlain(s[i + 1]);
      assert s[i..i + 2] == [ESCAPE, s[i + 1]];
    } else if c == '[' {
      SetIsPlain(s, i + 1);
    } else if c == REPEAT_OPEN {
      RepeatIsPlain(s, i + 1);
      PlainCons(Normal, '{', Repeat(s, i + 1).text);
    } else {
      ShortIsPlain(c);
      ShortIsPlain('.');
    }
  }

  /** What reading produces: plain chunks, and tags of one digit. */
  predicate Tame(items: seq<Item>) {
    items != [] ==> Tame(items[..|items| - 1]) && TameItem(items[|items| - 1])
  }

  predicate TameItem(x: Item) {
    match x
    case Chunk(source, text) =>
      Plain(Normal, text) && text != "" && (text[0] == '?' <==> source == [ESCAPE, '?'])
    case Group(_, body, tag) => Tame(body) && (tag.Some? ==> tag.value < LABELS)
  }

  lemma {:induction false} TameConcat(a: seq<Item>, b: seq<Item>)
    requires Tame(a) && Tame(b)
    ensures Tame(a + b)
    decreases b
  {
    if b == [] {
      assert a + b == a;
    } else {
      assert (a + b)[..|a + b| - 1] == a + b[..|b| - 1];
      TameConcat(a, b[..|b| - 1]);
    }
  }

  lemma {:induction false} ReadItemIsTame(s: string, i: nat)
    requires i < |s| && ReadItem(s, i).Parsed?
    ensures Tame(ReadItem(s, i).items)
    decreases |s| - i, 0
  {
    if s[i] == '(' {
      ReadGroupIsTame(s, i + 1);
    } else {
      ChunkIsPlain(s, i);
    }
  }

  lemma {:induction false} ReadItemsIsTame(s: string, i: nat, term: Option<char>)
    requires i <= |s| && ReadItems(s, i, term).Parsed?
    ensures Tame(ReadItems(s, i, term).items)
    decreases |s| - i, 1
  {
    if i < |s| && (s[i] == ESCAPE || term != Some(s[i])) {
      var p := ReadItem(s, i);
      ReadItemIsTame(s, i);
      ReadItemsIsTame(s, p.next, term);
      TameConcat(p.items, ReadItems(s, p.next, term).items);
    }
  }

  lemma {:induction false} ReadGroupIsTame(s: string, i: nat)
    requires i <= |s| && ReadGroup(s, i).Parsed?
    ensures Tame(ReadGroup(s, i).items)
    decreases |s| - i, 2
  {
    var lead := i < |s| && s[i] == '?';
    ReadItemsIsTame(s, if lead then i + 1 else i, Some(')'));
    var items := ReadGroup(s, i).items;
    assert items[..0] == [];
  }

  // ----------------------------------------------------- reading loses nothing

  function SourceItem(x: Item): string {
    match x
    case Chunk(source, _) => source
    case Group(lead, body, tag) =>
      "(" + ((if lead then "?" else "") + (Source(body) + ")") + TagSource(tag))
  }

  function TagSource(tag: Option<nat>): string {
    if tag.Some? then [TAG, '0' + (tag.value % LABELS) as char] else ""
  }

  function Source(items: seq<Item>): string {
    if items == [] then "" else Source(items[..|items| - 1]) + SourceItem(items[|items| - 1])
  }

  function Terminator(term: Option<char>): string {
    if term.Some? then [term.value] else ""
  }

  lemma {:induction false} SourceConcat(a: seq<Item>, b: seq<Item>)
    ensures Source(a + b) == Source(a) + Source(b)
    decreases b
  {
    if b == [] {
      assert a + b == a;
    } else {
      assert (a + b)[..|a + b| - 1] == a + b[..|b| - 1];
      SourceConcat(a, b[..|b| - 1]);
    }
  }

  lemma {:induction false} ItemSource(s: string, i: nat)
    requires i < |s| && ReadItem(s, i).Parsed?
    ensures Source(ReadItem(s, i).items) == s[i..ReadItem(s, i).next]
    decreases |s| - i, 0
  {
    var p := ReadItem(s, i);
    assert p.items[..0] == [];
    if s[i] == '(' {
      GroupSource(s, i + 1);
      assert s[i..p.next] == "(" + s[i + 1..p.next];
    }
  }

  /** Every character of the source is in exactly one item, in order. */
  lemma {:induction false} ItemsSource(s: string, i: nat, term: Option<char>)
    requires i <= |s| && ReadItems(s, i, term).Parsed?
    ensures Source(ReadItems(s, i, term).items) + Terminator(term) == s[i..ReadItems(s, i, term).next]
    decreases |s| - i, 1
  {
    hide ReadItem;
    if i < |s| && (s[i] == ESCAPE || term != Some(s[i])) {
      var p := ReadItem(s, i);
      var rest := ReadItems(s, p.next, term);
      ItemSource(s, i);
      ItemsSource(s, p.next, term);
      SourceConcat(p.items, rest.items);
      assert s[i..p.next] + s[p.next..rest.next] == s[i..rest.next];
    }
  }

  lemma {:induction false} GroupSource(s: string, i: nat)
    requires i <= |s| && ReadGroup(s, i).Parsed?
    ensures "(" + s[i..ReadGroup(s, i).next] == SourceItem(ReadGroup(s, i).items[0])
    decreases |s| - i, 2
  {
    hide Source, ReadItems;
    var lead := i < |s| && s[i] == '?';
    var from := if lead then i + 1 else i;
    var p := ReadItems(s, from, Some(')'));
    var g := ReadGroup(s, i);
    ItemsSource(s, from, Some(')'));
    assert s[i..from] == if lead then "?" else "";
    assert Terminator(Some(')')) == ")";
  }

  // ----------------------------------------------------- the scanned groups

  /** A tagged group whose text begins with a question mark: an ECMAScript
      reader does not take its parenthesis for a capturing one. */
  predicate Hidden(x: Item) {
    x.Group? && x.tag.Some? && !x.lead && x.body != [] && BeginsWithQuestionMark(x.body[0])
  }

  predicate BeginsWithQuestionMark(x: Item) {
    x.Chunk? && x.source == [ESCAPE, '?']
  }

  /** How far inside a group its items are written. */
  function Margin(x: Item): nat
    requires x.Group?
  {
    (if x.tag.Some? then 1 else 3) + |Lead(x.lead)|
  }

  /** Where the parentheses of the tagged groups are written, in the order in
      which the groups open, without the hidden ones. */
  function OpensItem(x: Item, offset: int): seq<int> {
    match x
    case Chunk(_, _) => []
    case Group(_, body, tag) =>
      (if tag.Some? && !Hidden(x) then [offset] else []) + Opens(body, offset + Margin(x))
  }

  function Opens(items: seq<Item>, offset: int): seq<int> {
    if items == [] then []
    else
      var k := |items| - 1;
      Opens(items[..k], offset) + OpensItem(items[k], offset + |Written(items[..k])|)
  }

  /** What is written begins with a question mark only for an escaped one. */
  lemma {:induction false} FirstWritten(items: seq<Item>)
    requires Tame(items) && items != []
    ensures Written(items) != ""
    ensures Written(items)[0] == '?' <==> BeginsWithQuestionMark(items[0])
    decreases items
  {
    var k := |items| - 1;
    if k == 0 {
      assert items[..0] == [];
      assert Written(items) == "" + WrittenItem(items[0]) == WrittenItem(items[0]);
    } else {
      FirstWritten(items[..k]);
    }
  }

  lemma {:induction false} AfterParenIsNormal(t: string, offset: int)
    requires t != ""
    ensures Captures(AfterParen, t, offset) ==
      (if t[0] != '?' then [offset - 1] else []) + Captures(Normal, t, offset)
    ensures AdvanceAll(AfterParen, t) == AdvanceAll(Normal, t)
  {
  }

  lemma {:induction false} ScannedItem(x: Item, offset: int)
    requires TameItem(x)
    ensures Captures(Normal, WrittenItem(x), offset) == OpensItem(x, offset)
    ensures AdvanceAll(Normal, WrittenItem(x)) == Normal
    decreases x, 2
  {
    match x
    case Chunk(_, text) => SilentCaptures(Normal, text, offset);
    case Group(lead, body, tag) => ScannedGroup(x, offset);
  }

  /** The inside of a group, behind its parenthesis. */
  lemma {:induction false} ScannedInside(x: Item, offset: int)
    requires x.Group? && TameItem(x)
    ensures var t := Lead(x.lead) + Written(x.body) + ")";
            && t != ""
            && (x.tag.Some? ==> (t[0] == '?' <==> Hidden(x)))
            && Captures(Normal, t, offset) == Opens(x.body, offset + |Lead(x.lead)|)
            && AdvanceAll(Normal, t) == Normal
    decreases x, 0
  {
    hide Advance;
    var lead, inner := Lead(x.lead), Written(x.body);
    ScannedItems(x.body, offset + |lead|);
    ShortIsPlain('?');
    assert "\\?" == ['\\', '?'];
    SilentCaptures(Normal, lead, offset);
    ShortIsPlain(')');
    assert ")" == [')'];
    SilentCaptures(Normal, ")", offset + |lead + inner|);
    CapturesConcat(Normal, lead + inner, ")", offset);
    CapturesConcat(Normal, lead, inner, offset);
    if x.body != [] {
      FirstWritten(x.body);
    }
  }

  lemma {:induction false} Prefixes(offset: int)
    ensures Captures(Normal, "(", offset) == [] && AdvanceAll(Normal, "(") == AfterParen
    ensures Captures(Normal, "(?:", offset) == [] && AdvanceAll(Normal, "(?:") == Normal
    ensures Captures(Normal, "", offset) == [] && AdvanceAll(Normal, "") == Normal
  {
    CapturesConcat(Normal, "(", "?:", offset);
    CapturesConcat(AfterParen, "?", ":", offset + 1);
    assert "(" + "?:" == "(?:" && "?" + ":" == "?:";
  }

  lemma {:induction false} ScannedGroup(x: Item, offset: int)
    requires x.Group? && TameItem(x)
    ensures Captures(Normal, WrittenItem(x), offset) == OpensItem(x, offset)
    ensures AdvanceAll(Normal, WrittenItem(x)) == Normal
    decreases x, 1
  {
    hide Captures, AdvanceAll, Written, Opens, Hidden, Tame;
    var t := Lead(x.lead) + Written(x.body) + ")";
    Prefixes(offset);
    if x.tag.Some? {
      ScannedInside(x, offset + 1);
      CapturesConcat(Normal, "(", t, offset);
      AfterParenIsNormal(t, offset + 1);
      assert WrittenItem(x) == "(" + t;
    } else {
      ScannedInside(x, offset + 3);
      CapturesConcat(Normal, "(?:", t, offset);
      assert WrittenItem(x) == "(?:" + t;
    }
  }

  /** A reader of the written pattern sees exactly the tagged groups. */
  lemma {:induction false} ScannedItems(items: seq<Item>, offset: int)
    requires Tame(items)
    ensures Captures(Normal, Written(items), offset) == Opens(items, offset)
    ensures AdvanceAll(Normal, Written(items)) == Normal
    decreases items
  {
    hide Captures, AdvanceAll, WrittenItem, OpensItem, TameItem;
    Prefixes(offset);
    if items != [] {
      var k := |items| - 1;
      ScannedItems(items[..k], offset);
      ScannedItem(items[k], offset + |Written(items[..k])|);
      CapturesConcat(Normal, Written(items[..k]), WrittenItem(items[k]), offset);
    }
  }

  // ---------------------------------------------------------------- numbers

  function TaggedIn(x: Item): nat {
    match x
    case Chunk(_, _) => 0
    case Group(_, body, tag) => (if tag.Some? then 1 else 0) + Tagged(body)
  }

  /** How many groups are tagged, at any depth. */
  function Tagged(items: seq<Item>): nat {
    if items == [] then 0 else Tagged(items[..|items| - 1]) + TaggedIn(items[|items| - 1])
  }

  function HiddenIn(x: Item): nat {
    match x
    case Chunk(_, _) => 0
    case Group(_, body, tag) => (if Hidden(x) then 1 else 0) + HiddenCount(body)
  }

  function HiddenCount(items: seq<Item>): nat {
    if items == [] then 0 else HiddenCount(items[..|items| - 1]) + HiddenIn(items[|items| - 1])
  }

  /** The group that closes last of those tagged n: which of the tagged groups
      it is, in the order in which they open. A group closes after those in it. */
  function LastIndexIn(x: Item, n: nat): Option<nat> {
    match x
    case Chunk(_, _) => None
    case Group(_, body, tag) =>
      if tag == Some(n) then Some(1)
      else
        var k := LastIndex(body, n);
        if k.None? then None else Some(k.value + if tag.Some? then 1 else 0)
  }

  function LastIndex(items: seq<Item>, n: nat): Option<nat> {
    if items == [] then None
    else
      var before := items[..|items| - 1];
      var k := LastIndexIn(items[|items| - 1], n);
      if k.Some? then Some(Tagged(before) + k.value) else LastIndex(before, n)
  }

  /** Where the parenthesis of that group is written. */
  function LastPlaceIn(x: Item, n: nat, offset: int): Option<int> {
    match x
    case Chunk(_, _) => None
    case Group(_, body, tag) =>
      if tag == Some(n) then Some(offset) else LastPlace(body, n, offset + Margin(x))
  }

  function LastPlace(items: seq<Item>, n: nat, offset: int): Option<int> {
    if items == [] then None
    else
      var before := items[..|items| - 1];
      var p := LastPlaceIn(items[|items| - 1], n, offset + |Written(before)|);
      if p.Some? then p else LastPlace(before, n, offset)
  }

  /** No index is beyond the count. */
  predicate Current(st: Numbers) {
    && st.count >= 0
    && |st.captures| == LABELS
    && forall n :: 0 <= n < LABELS ==> st.captures[n] <= st.count
  }

  function NewIndex(k: Option<nat>, count: int, previous: int): int {
    if k.Some? then count + k.value else previous
  }

  lemma {:induction false} NumberedItem(x: Item, st: Numbers)
    requires TameItem(x) && Current(st)
    ensures var st' := Number(x, st);
            && Current(st')
            && st'.count == st.count + TaggedIn(x)
            && forall n :: 0 <= n < LABELS ==>
                 st'.captures[n] == NewIndex(LastIndexIn(x, n), st.count, st.captures[n])
    ensures forall n: nat :: LastIndexIn(x, n).Some? ==> 1 <= LastIndexIn(x, n).value <= TaggedIn(x)
    decreases x
  {
    if x.Group? {
      var index := st.count + 1;
      NumberedItems(x.body, st.(count := index));
      var inner := NumberAll(x.body, st.(count := index));
      var st' := Number(x, st);
      forall n | 0 <= n < LABELS
        ensures st'.captures[n] == NewIndex(LastIndexIn(x, n), st.count, st.captures[n])
        ensures st'.captures[n] <= st'.count
      {
        assert inner.captures[n] == NewIndex(LastIndex(x.body, n), index, st.captures[n]);
        assert st.captures[n] <= st.count;
        assert LastIndex(x.body, n).Some? ==> LastIndex(x.body, n).value >= 1;
      }
    }
  }

  /** However the groups nest, and however their numbers are taken back: the
      count is that of the tagged groups, and every tag is mapped to the group
      that closes last with it. */
  lemma {:induction false} NumberedItems(items: seq<Item>, st: Numbers)
    requires Tame(items) && Current(st)
    ensures var st' := NumberAll(items, st);
            && Current(st')
            && st'.count == st.count + Tagged(items)
            && forall n :: 0 <= n < LABELS ==>
                 st'.captures[n] == NewIndex(LastIndex(items, n), st.count, st.captures[n])
    ensures forall n: nat :: LastIndex(items, n).Some? ==> 1 <= LastIndex(items, n).value <= Tagged(items)
    decreases items
  {
    if items != [] {
      var k := |items| - 1;
      NumberedItems(items[..k], st);
      NumberedItem(items[k], NumberAll(items[..k], st));
    }
  }

  lemma {:induction false} OpensItemCount(x: Item, offset: int)
    ensures |OpensItem(x, offset)| + HiddenIn(x) == TaggedIn(x)
    decreases x
  {
    if x.Group? {
      OpensCount(x.body, offset + Margin(x));
    }
  }

  lemma {:induction false} OpensCount(items: seq<Item>, offset: int)
    ensures |Opens(items, offset)| + HiddenCount(items) == Tagged(items)
    decreases items
  {
    if items != [] {
      var k := |items| - 1;
      OpensCount(items[..k], offset);
      OpensItemCount(items[k], offset + |Written(items[..k])|);
    }
  }

  /** Index and place speak of the same group. */
  lemma {:induction false} PlacedItem(x: Item, n: nat, offset: int)
    requires HiddenIn(x) == 0
    ensures LastIndexIn(x, n).Some? == LastPlaceIn(x, n, offset).Some?
    ensures LastIndexIn(x, n).Some? ==>
      && 1 <= LastIndexIn(x, n).value <= |OpensItem(x, offset)|
      && OpensItem(x, offset)[LastIndexIn(x, n).value - 1] == LastPlaceIn(x, n, offset).value
    decreases x
  {
    if x.Group? {
      PlacedItems(x.body, n, offset + Margin(x));
    }
  }

  lemma {:induction false} PlacedItems(items: seq<Item>, n: nat, offset: int)
    requires HiddenCount(items) == 0
    ensures LastIndex(items, n).Some? == LastPlace(items, n, offset).Some?
    ensures LastIndex(items, n).Some? ==>
      && 1 <= LastIndex(items, n).value <= |Opens(items, offset)|
      && Opens(items, offset)[LastIndex(items, n).value - 1] == LastPlace(items, n, offset).value
    decreases items
  {
    if items != [] {
      var k := |items| - 1;
      PlacedItems(items[..k], n, offset);
      PlacedItem(items[k], n, offset + |Written(items[..k])|);
      OpensCount(items[..k], offset);
    }
  }

  // ---------------------------------------------------------------- the result

  const FRESH := Numbers(0, seq(LABELS, _ => 0))

  /** The number of captures is that of the capturing groups of the converted
      pattern, exactly when no tagged group begins with an escaped question
      mark. In that case each capture that is set is the index, from the left,
      of the parenthesis of the group that closes last with the tag. */
  lemma {:induction false} CapturesAreGroups(s: string, i: nat, term: Option<char>)
    requires i <= |s| && ReadItems(s, i, term).Parsed?
    ensures var items := ReadItems(s, i, term).items;
            var groups := Captures(Normal, Written(items), 0);
            var st := NumberAll(items, FRESH);
            && st.count == |groups| + HiddenCount(items)
            && (HiddenCount(items) == 0 ==> forall n :: 0 <= n < LABELS ==>
                 var place := LastPlace(items, n, 0);
                 if place.None? then st.captures[n] == 0
                 else 1 <= st.captures[n] <= |groups| && groups[st.captures[n] - 1] == place.value)
  {
    var items := ReadItems(s, i, term).items;
    ReadItemsIsTame(s, i, term);
    ScannedItems(items, 0);
    NumberedItems(items, FRESH);
    OpensCount(items, 0);
    if HiddenCount(items) == 0 {
      forall n | 0 <= n < LABELS
        ensures var place := LastPlace(items, n, 0);
                var st := NumberAll(items, FRESH);
                if place.None? then st.captures[n] == 0
                else 1 <= st.captures[n] <= |Opens(items, 0)| && Opens(items, 0)[st.captures[n] - 1] == place.value
      {
        PlacedItems(items, n, 0);
      }
    }
  }

  const HIDDEN_GROUP :=
    Group(false, [Chunk([ESCAPE, '?'], "?")] + [Chunk(":", ":")] + [Chunk("a", "a")], Some(1))

  lemma {:induction false} ReadHiddenGroup(s: string)
    requires s == ['(', ESCAPE, '?', ':', 'a', ')', TAG, '1']
    ensures ReadItems(s, 0, None) == Parsed([HIDDEN_GROUP], 8)
  {
    var a, b, c := [Chunk([ESCAPE, '?'], "?")], [Chunk(":", ":")], [Chunk("a", "a")];
    assert s[1..3] == [ESCAPE, '?'] && s[3..4] == ":" && s[4..5] == "a";
    assert ReadItems(s, 5, Some(')')) == Parsed([], 6);
    assert ReadItem(s, 4) == Parsed(c, 5);
    assert ReadItems(s, 4, Some(')')) == Parsed(c, 6);
    assert ReadItem(s, 3) == Parsed(b, 4);
    assert ReadItems(s, 3, Some(')')) == Parsed(b + c, 6);
    assert ReadItem(s, 1) == Parsed(a, 3);
    assert a + (b + c) == HIDDEN_GROUP.body;
    assert ReadItems(s, 1, Some(')')) == Parsed(HIDDEN_GROUP.body, 6);
    assert ReadGroup(s, 1) == Parsed([HIDDEN_GROUP], 8);
    assert ReadItems(s, 8, None) == Parsed([], 8);
    assert [HIDDEN_GROUP] + [] == [HIDDEN_GROUP];
  }

  lemma {:induction false} HiddenSnoc(items: seq<Item>, x: Item)
    ensures HiddenCount(items + [x]) == HiddenCount(items) + HiddenIn(x)
  {
    assert (items + [x])[..|items|] == items;
  }

  lemma {:induction false} ThreeChunks(a: Item, b: Item, c: Item, st: Numbers)
    requires a.Chunk? && b.Chunk? && c.Chunk?
    ensures var items := [a] + [b] + [c];
            && Written(items) == a.text + b.text + c.text
            && NumberAll(items, st) == st
            && HiddenCount(items) == 0
  {
    hide Written, NumberAll, HiddenCount;
    NothingWritten(st);
    NoneHidden();
    ItemsSnoc([], [a], st);
    ItemsSnoc([a], [b], st);
    ItemsSnoc([a] + [b], [c], st);
    HiddenSnoc([], a);
    HiddenSnoc([a], b);
    HiddenSnoc([a] + [b], c);
    assert [] + [a] == [a];
  }

  lemma {:induction false} NoneHidden()
    ensures HiddenCount([]) == 0
  {
  }

  /** Such a group: the pattern counts one capture, and writes none. */
  lemma {:induction false} EscapedQuestionMarkHides(s: string)
    requires s == ['(', ESCAPE, '?', ':', 'a', ')', TAG, '1']
    ensures var p := ReadItems(s, 0, None);
            && p.Parsed? && p.next == |s|
            && Written(p.items) == "(?:a)"
            && NumberAll(p.items, FRESH).count == 1
            && Captures(Normal, Written(p.items), 0) == []
  {
    hide Written, NumberAll, HiddenCount, ReadItems, Captures;
    ReadHiddenGroup(s);
    ThreeChunks(Chunk([ESCAPE, '?'], "?"), Chunk(":", ":"), Chunk("a", "a"), FRESH.(count := 1));
    NothingWritten(FRESH);
    NoneHidden();
    ItemsSnoc([], [HIDDEN_GROUP], FRESH);
    HiddenSnoc([], HIDDEN_GROUP);
    assert [] + [HIDDEN_GROUP] == [HIDDEN_GROUP];
    CapturesAreGroups(s, 0, None);
  }
}
