/** What a converted pattern says: its ECMAScript text, sign by sign, against the
    MPW pattern that it was written for. */
module RegexMeaning {
  import opened Regex

  /** What a class lists: a character, the dash of a range, or one of the class
      escapes (section 15.10.2.12 of ECMA-262, 3rd edition). */
  datatype Member = Listed(c: char) | Range | ClassEscape(c: char)

  /** The signs of a pattern. A question mark is either a quantifier or, with a
      colon, what makes a group not capture; a special sign is anything else
      that does not stand for itself. */
  datatype Sign =
    | Char(c: char)
    | AnyChar | Star | Plus | Question
    | Count(bounds: string)
    | Class(negated: bool, members: seq<Member>)
    | Open | Close
    | Special(c: char)

  predicate IsAlphanumeric(c: char) {
    'a' <= c <= 'z' || 'A' <= c <= 'Z' || '0' <= c <= '9'
  }

  // ---------------------------------------------------- reading ECMAScript

  datatype Mode =
    | Normal
    | Escaped
    | ClassStart
    | InClass(negated: bool, members: seq<Member>)
    | EscapedInClass(negated: bool, members: seq<Member>)
    | InCount(bounds: string)

  datatype Reader = Reader(mode: Mode, signs: seq<Sign>)

  /** One character outside of classes and counts. */
  function Plain(c: char): Sign {
    if c == '.' then AnyChar else if c == '*' then Star else if c == '+' then Plus
    else if c == '?' then Question else if c == '(' then Open else if c == ')' then Close
    else if c == '|' || c == '^' || c == '$' || c == ']' || c == '}' then Special(c)
    else Char(c)
  }

  function InsideClass(negated: bool, members: seq<Member>, c: char, signs: seq<Sign>): Reader {
    if c == ']' then Reader(Normal, signs + [Class(negated, members)])
    else if c == '\\' then Reader(EscapedInClass(negated, members), signs)
    else Reader(InClass(negated, members + [if c == '-' then Range else Listed(c)]), signs)
  }

  function Take(r: Reader, c: char): Reader {
    match r.mode
    case Normal =>
      if c == '\\' then r.(mode := Escaped)
      else if c == '[' then r.(mode := ClassStart)
      else if c == '{' then r.(mode := InCount(""))
      else r.(signs := r.signs + [Plain(c)])
    case Escaped => Reader(Normal, r.signs + [if IsAlphanumeric(c) then Special(c) else Char(c)])
    case ClassStart =>
      if c == '^' then r.(mode := InClass(true, [])) else InsideClass(false, [], c, r.signs)
    case InClass(negated, members) => InsideClass(negated, members, c, r.signs)
    case EscapedInClass(negated, members) =>
      r.(mode := InClass(negated, members + [if IsAlphanumeric(c) then ClassEscape(c) else Listed(c)]))
    case InCount(bounds) =>
      if c == '}' then Reader(Normal, r.signs + [Count(bounds)]) else r.(mode := InCount(bounds + [c]))
  }

  function TakeAll(r: Reader, t: string): Reader
    decreases |t|
  {
    if t == "" then r else TakeAll(Take(r, t[0]), t[1..])
  }

  /** The pattern t, read from its start, has these signs, and is complete. */
  predicate Says(t: string, signs: seq<Sign>) {
    TakeAll(Reader(Normal, []), t) == Reader(Normal, signs)
  }

  lemma {:induction false} TakeFirst(r: Reader, c: char, rest: string)
    ensures TakeAll(r, [c] + rest) == TakeAll(Take(r, c), rest)
    ensures TakeAll(r, [c]) == Take(r, c)
  {
    assert ([c] + rest)[1..] == rest && [c][1..] == "";
  }

  lemma {:induction false} TakeConcat(r: Reader, a: string, b: string)
    ensures TakeAll(r, a + b) == TakeAll(TakeAll(r, a), b)
    decreases |a|
  {
    hide Take;
    if a == "" {
      assert a + b == b;
    } else {
      assert (a + b)[1..] == a[1..] + b;
      TakeConcat(Take(r, a[0]), a[1..], b);
    }
  }

  /** Signs that were read before make no difference. */
  lemma {:induction false} TakeBehind(r: Reader, before: seq<Sign>, t: string)
    ensures TakeAll(r.(signs := before + r.signs), t) ==
      TakeAll(r, t).(signs := before + TakeAll(r, t).signs)
    decreases |t|
  {
    if t != "" {
      StepBehind(r, before, t[0]);
      hide Take;
      TakeBehind(Take(r, t[0]), before, t[1..]);
    }
  }

  lemma {:induction false} StepBehind(r: Reader, before: seq<Sign>, c: char)
    ensures Take(r.(signs := before + r.signs), c) == Take(r, c).(signs := before + Take(r, c).signs)
  {
    assert forall x: Sign :: before + r.signs + [x] == before + (r.signs + [x]);
  }

  lemma {:induction false} SaysConcat(a: string, x: seq<Sign>, b: string, y: seq<Sign>)
    requires Says(a, x) && Says(b, y)
    ensures Says(a + b, x + y)
  {
    hide TakeAll;
    TakeConcat(Reader(Normal, []), a, b);
    TakeBehind(Reader(Normal, []), x, b);
    assert x + [] == x;
  }

  lemma {:induction false} SaysOne(c: char)
    requires c != '\\' && c != '[' && c != '{'
    ensures Says([c], [Plain(c)])
  {
    TakeFirst(Reader(Normal, []), c, "");
    assert [] + [Plain(c)] == [Plain(c)];
  }

  lemma {:induction false} SaysEscaped(c: char)
    requires !IsAlphanumeric(c)
    ensures Says(['\\', c], [Char(c)])
  {
    assert ['\\', c] == ['\\'] + [c];
    TakeFirst(Reader(Normal, []), '\\', [c]);
    TakeFirst(Reader(Escaped, []), c, "");
    assert [] + [Char(c)] == [Char(c)];
  }

  lemma {:induction false} SaysNothing()
    ensures Says("", [])
  {
  }

  // ------------------------------------------------------ reading MPW patterns

  /** What a set lists. With `ecma` an escaped letter or digit is taken as its
      text is: as a class escape. */
  function Members(body: string, ecma: bool): seq<Member>
    decreases |body|
  {
    if body == "" then []
    else if body[0] == ESCAPE && |body| > 1 then
      [if ecma && IsAlphanumeric(body[1]) then ClassEscape(body[1]) else Listed(body[1])] + Members(body[2..], ecma)
    else [if body[0] == '-' then Range else Listed(body[0])] + Members(body[1..], ecma)
  }

  /** The signs of one character, escaped character, set or repeat of an MPW
      pattern. With `ecma` an escaped question mark is taken as its text is. */
  function ChunkSigns(source: string, ecma: bool): seq<Sign>
    requires source != ""
  {
    var c := source[0];
    if c == ESCAPE then
      if |source| == 1 then [] else [if ecma && source[1] == '?' then Question else Char(source[1])]
    else if c == '?' then [AnyChar]
    else if c == ANY_STRING then [AnyChar, Star]
    else if c == '*' then [Star]
    else if c == '+' then [Plus]
    else if c == '[' then
      var body := source[1..|source| - if |source| > 1 then 1 else 0];
      if body != "" && body[0] == NEGATION then [Class(true, Members(body[1..], ecma))]
      else [Class(false, Members(body, ecma))]
    else if c == REPEAT_OPEN then [Count(source[1..|source| - if |source| > 1 then 1 else 0])]
    else [Char(c)]
  }

  function ItemSigns(x: Item, ecma: bool): seq<Sign> {
    match x
    case Chunk(source, _) => if source == "" then [] else ChunkSigns(source, ecma)
    case Group(lead, body, tag) =>
      ([Open] + (if tag.Some? then [] else [Question, Char(':')]) + (if lead then [Char('?')] else []))
        + (Signs(body, ecma) + [Close])
  }

  function Signs(items: seq<Item>, ecma: bool): seq<Sign> {
    if items == [] then [] else Signs(items[..|items| - 1], ecma) + ItemSigns(items[|items| - 1], ecma)
  }

  // ------------------------------------------------------------- chunks

  /** The rest of a set, after its members so far. */
  function Rest(negated: bool, members: seq<Member>, t: string): Reader {
    TakeAll(Reader(InClass(negated, members), []), t)
  }

  lemma {:induction false} EscapeReads(negated: bool, members: seq<Member>, c: char, rest: string)
    ensures Rest(negated, members, ['\\', c] + rest) ==
      Rest(negated, members + [if IsAlphanumeric(c) then ClassEscape(c) else Listed(c)], rest)
  {
    var r := Reader(InClass(negated, members), []);
    assert ['\\', c] + rest == ['\\'] + ([c] + rest);
    TakeFirst(r, '\\', [c] + rest);
    TakeFirst(Take(r, '\\'), c, rest);
  }

  lemma {:induction false} ByteReads(negated: bool, members: seq<Member>, c: char, rest: string)
    requires c != ']' && c != '\\'
    ensures Rest(negated, members, [c] + rest) ==
      Rest(negated, members + [if c == '-' then Range else Listed(c)], rest)
  {
    TakeFirst(Reader(InClass(negated, members), []), c, rest);
  }

  lemma {:induction false} BracketReads(negated: bool, members: seq<Member>)
    ensures Rest(negated, members, "]") == Reader(Normal, [Class(negated, members)])
  {
    TakeFirst(Reader(InClass(negated, members), []), ']', "");
    assert [] + [Class(negated, members)] == [Class(negated, members)];
  }

  lemma {:induction false} MembersFirst(body: string)
    requires body != ""
    ensures Members(body, true) ==
      if body[0] == ESCAPE && |body| > 1 then
        [if IsAlphanumeric(body[1]) then ClassEscape(body[1]) else Listed(body[1])] + Members(body[2..], true)
      else [if body[0] == '-' then Range else Listed(body[0])] + Members(body[1..], true)
    ensures Members("", true) == []
  {
  }

  lemma {:induction false} SetReads(s: string, i: nat, negated: bool, members: seq<Member>)
    requires i <= |s| && SetRest(s, i).Piece?
    ensures var p := SetRest(s, i);
            Rest(negated, members, p.text) ==
              Reader(Normal, [Class(negated, members + Members(s[i..p.next - 1], true))])
    decreases |s| - i
  {
    hide Rest, Members;
    var p := SetRest(s, i);
    var body := s[i..p.next - 1];
    if s[i] == ']' {
      assert body == "" && Members("", true) == [] by { MembersFirst("x"); }
      BracketReads(negated, members);
      assert members + [] == members;
    } else {
      var k := if s[i] == ESCAPE then 2 else 1;
      var m := if s[i] == ESCAPE then if IsAlphanumeric(s[i + 1]) then ClassEscape(s[i + 1]) else Listed(s[i + 1])
               else if s[i] == '-' then Range else Listed(s[i]);
      var rest := SetRest(s, i + k).text;
      SetReads(s, i + k, negated, members + [m]);
      MembersFirst(body);
      assert body[k..] == s[i + k..p.next - 1];
      assert members + [m] + Members(body[k..], true) == members + ([m] + Members(body[k..], true));
      if s[i] == ESCAPE {
        EscapeReads(negated, members, s[i + 1], rest);
      } else if s[i] == '\\' {
        EscapeReads(negated, members, '\\', rest);
        assert "\\\\" == ['\\', '\\'];
      } else {
        ByteReads(negated, members, s[i], rest);
      }
    }
  }

  /** At its start a class is as inside, but for a caret. */
  lemma {:induction false} StartReads(t: string)
    requires t != "" && t[0] != '^'
    ensures TakeAll(Reader(ClassStart, []), t) == TakeAll(Reader(InClass(false, []), []), t)
  {
  }

  lemma {:induction false} SetStarts(s: string, i: nat)
    requires i <= |s| && SetRest(s, i).Piece?
    ensures var t := SetRest(s, i).text;
            t != "" && (t[0] == '^' <==> s[i] == '^')
  {
  }

  lemma {:induction false} NegatedStarts(rest: string)
    ensures TakeAll(Reader(ClassStart, []), "^" + rest) == Rest(true, [], rest)
  {
    assert "^" + rest == ['^'] + rest;
    TakeFirst(Reader(ClassStart, []), '^', rest);
  }

  lemma {:induction false} CaretStarts(rest: string)
    ensures TakeAll(Reader(ClassStart, []), "\\^" + rest) == Rest(false, [Listed('^')], rest)
  {
    var r := Reader(ClassStart, []);
    assert "\\^" + rest == ['\\'] + (['^'] + rest);
    TakeFirst(r, '\\', ['^'] + rest);
    TakeFirst(Take(r, '\\'), '^', rest);
    assert [] + [Listed('^')] == [Listed('^')];
  }

  /** A set from its bracket on. */
  lemma {:induction false} ClassReads(lead: string, rest: string)
    requires lead == "" ==> rest != "" && rest[0] != '^'
    requires lead == "" || lead == "^" || lead == "\\^"
    ensures TakeAll(Reader(Normal, []), "[" + lead + rest) ==
      Rest(lead == "^", if lead == "\\^" then [Listed('^')] else [], rest)
  {
    assert "[" + lead + rest == ['['] + (lead + rest);
    TakeFirst(Reader(Normal, []), '[', lead + rest);
    assert Take(Reader(Normal, []), '[') == Reader(ClassStart, []);
    hide TakeAll, Take;
    if lead == "^" {
      NegatedStarts(rest);
    } else if lead == "\\^" {
      CaretStarts(rest);
    } else {
      assert lead + rest == rest;
      StartReads(rest);
    }
  }

  lemma {:induction false} SetSigns(s: string, i: nat)
    requires 0 < i <= |s| && s[i - 1] == '[' && ReadSet(s, i).Piece?
    ensures var p := ReadSet(s, i);
            var lead := SetLead(s, i);
            var from := i + if lead == "" then 0 else 1;
            && from < p.next
            && ChunkSigns(s[i - 1..p.next], true) ==
                 [Class(lead == "^",
                        (if lead == "\\^" then [Listed('^')] else []) + Members(s[from..p.next - 1], true))]
  {
    hide Members, SetRest;
    var p := ReadSet(s, i);
    var lead := SetLead(s, i);
    var source := s[i - 1..p.next];
    var body := s[i..p.next - 1];
    assert source[0] == '[' && |source| > 1 && source[1..|source| - 1] == body;
    if lead == "" {
      assert [] + Members(body, true) == Members(body, true);
    } else {
      assert body[0] == s[i] && body[1..] == s[i + 1..p.next - 1];
      assert [] + Members(body[1..], true) == Members(body[1..], true);
      if lead == "\\^" {
        MembersCaret(body);
      }
    }
  }

  lemma {:induction false} ReadSetSays(s: string, i: nat)
    requires 0 < i <= |s| && s[i - 1] == '[' && ReadSet(s, i).Piece?
    ensures var p := ReadSet(s, i);
            Says(p.text, ChunkSigns(s[i - 1..p.next], true))
  {
    hide Members, SetRest, Rest, ChunkSigns, TakeAll;
    var lead := SetLead(s, i);
    var from := i + if lead == "" then 0 else 1;
    SetSigns(s, i);
    SetStarts(s, from);
    SetReads(s, from, lead == "^", if lead == "\\^" then [Listed('^')] else []);
    ClassReads(lead, SetRest(s, from).text);
  }

  lemma {:induction false} MembersCaret(body: string)
    requires body != "" && body[0] == '^'
    ensures Members(body, true) == [Listed('^')] + Members(body[1..], true)
  {
  }

  lemma {:induction false} RepeatReads(s: string, i: nat, bounds: string)
    requires i <= |s| && Repeat(s, i).Piece?
    ensures var p := Repeat(s, i);
            TakeAll(Reader(InCount(bounds), []), p.text) == Reader(Normal, [Count(bounds + s[i..p.next - 1])])
    decreases |s| - i
  {
    var p := Repeat(s, i);
    var r := Reader(InCount(bounds), []);
    if s[i] == REPEAT_CLOSE {
      TakeFirst(r, '}', "");
      assert bounds + s[i..p.next - 1] == bounds && [] + [Count(bounds)] == [Count(bounds)];
    } else {
      RepeatReads(s, i + 1, bounds + [s[i]]);
      TakeFirst(r, s[i], Repeat(s, i + 1).text);
      assert bounds + [s[i]] + s[i + 1..p.next - 1] == bounds + s[i..p.next - 1];
    }
  }

  lemma {:induction false} QuotedSays(c: char)
    requires c != '?'
    ensures Says(Quoted(c), [Char(c)])
  {
    if EcmaSpecial(c) {
      SaysEscaped(c);
    } else {
      SaysOne(c);
    }
  }

  /** The text of a chunk says what its source is taken for. */
  lemma {:induction false} ChunkSays(s: string, i: nat)
    requires i < |s| && s[i] != '(' && ReadChunk(s, i).Piece?
    ensures var p := ReadChunk(s, i);
            Says(p.text, ChunkSigns(s[i..p.next], true))
  {
    hide Says, TakeAll;
    var c := s[i];
    var p := ReadChunk(s, i);
    var source := s[i..p.next];
    assert source[0] == c;
    if c == ESCAPE {
      assert source[1] == s[i + 1];
      if s[i + 1] == '?' {
        SaysOne('?');
      } else {
        QuotedSays(s[i + 1]);
      }
    } else if c == ANY_STRING {
      SaysOne('.');
      SaysOne('*');
      SaysConcat(".", [AnyChar], "*", [Star]);
      assert "." + "*" == ".*" && [AnyChar] + [Star] == [AnyChar, Star];
    } else if c == '[' {
      ReadSetSays(s, i + 1);
    } else if c == REPEAT_OPEN {
      CountSays(s, i + 1);
      assert source[1..|source| - 1] == s[i + 1..p.next - 1];
    } else if c == '?' {
      SaysOne('.');
    } else if c == '+' || c == '*' {
      SaysOne(c);
    } else {
      QuotedSays(c);
    }
  }

  lemma {:induction false} CountSays(s: string, i: nat)
    requires i <= |s| && Repeat(s, i).Piece?
    ensures var p := Repeat(s, i);
            Says("{" + p.text, [Count(s[i..p.next - 1])])
  {
    RepeatReads(s, i, "");
    TakeFirst(Reader(Normal, []), '{', Repeat(s, i).text);
    assert "" + s[i..Repeat(s, i).next - 1] == s[i..Repeat(s, i).next - 1];
  }

  // -------------------------------------------------------------- patterns

  /** Every chunk says what its source is taken for. */
  predicate AreSaid(items: seq<Item>) {
    items != [] ==> AreSaid(items[..|items| - 1]) && IsSaid(items[|items| - 1])
  }

  predicate IsSaid(x: Item) {
    match x
    case Chunk(source, text) => source != "" && Says(text, ChunkSigns(source, true))
    case Group(_, body, _) => AreSaid(body)
  }

  lemma {:induction false} SaidConcat(a: seq<Item>, b: seq<Item>)
    requires AreSaid(a) && AreSaid(b)
    ensures AreSaid(a + b)
    decreases b
  {
    if b == [] {
      assert a + b == a;
    } else {
      assert (a + b)[..|a + b| - 1] == a + b[..|b| - 1];
      SaidConcat(a, b[..|b| - 1]);
    }
  }

  lemma {:induction false} ItemIsSaid(s: string, i: nat)
    requires i < |s| && ReadItem(s, i).Parsed?
    ensures AreSaid(ReadItem(s, i).items)
    decreases |s| - i, 0
  {
    hide Says, ChunkSigns, ReadChunk;
    var items := ReadItem(s, i).items;
    assert items[..0] == [];
    if s[i] == '(' {
      GroupIsSaid(s, i + 1);
    } else {
      ChunkSays(s, i);
    }
  }

  lemma {:induction false} ItemsAreSaid(s: string, i: nat, term: Option<char>)
    requires i <= |s| && ReadItems(s, i, term).Parsed?
    ensures AreSaid(ReadItems(s, i, term).items)
    decreases |s| - i, 1
  {
    hide IsSaid, ReadItem;
    if i < |s| && (s[i] == ESCAPE || term != Some(s[i])) {
      var p := ReadItem(s, i);
      ItemIsSaid(s, i);
      ItemsAreSaid(s, p.next, term);
      SaidConcat(p.items, ReadItems(s, p.next, term).items);
    }
  }

  lemma {:induction false} GroupIsSaid(s: string, i: nat)
    requires i <= |s| && ReadGroup(s, i).Parsed?
    ensures AreSaid(ReadGroup(s, i).items)
    decreases |s| - i, 2
  {
    hide Says, ChunkSigns, ReadItems;
    var lead := i < |s| && s[i] == '?';
    ItemsAreSaid(s, if lead then i + 1 else i, Some(')'));
    var items := ReadGroup(s, i).items;
    assert items[..0] == [];
  }

  lemma {:induction false} OpeningSays(lead: bool, captures: bool)
    ensures Says((if captures then "(" else "(?:") + Lead(lead),
                 [Open] + (if captures then [] else [Question, Char(':')]) + (if lead then [Char('?')] else []))
  {
    hide Says, TakeAll;
    SaysOne('(');
    SaysOne('?');
    SaysOne(':');
    SaysEscaped('?');
    SaysNothing();
    SaysConcat("?", [Question], ":", [Char(':')]);
    assert "?" + ":" == "?:" && [Question] + [Char(':')] == [Question, Char(':')];
    SaysConcat("(", [Open], "?:", [Question, Char(':')]);
    assert "(" + "?:" == "(?:" && "\\?" == ['\\', '?'];
    assert [Open] + [] == [Open];
    var a := if captures then "(" else "(?:";
    var x := [Open] + if captures then [] else [Question, Char(':')];
    SaysConcat(a, x, Lead(lead), if lead then [Char('?')] else []);
  }

  lemma {:induction false} ItemSays(x: Item)
    requires IsSaid(x)
    ensures Says(WrittenItem(x), ItemSigns(x, true))
    decreases x, 0
  {
    hide Says;
    if x.Group? {
      var a := (if x.tag.Some? then "(" else "(?:") + Lead(x.lead);
      var opening := [Open] + (if x.tag.Some? then [] else [Question, Char(':')])
                     + (if x.lead then [Char('?')] else []);
      OpeningSays(x.lead, x.tag.Some?);
      ItemsSay(x.body);
      SaysOne(')');
      SaysConcat(Written(x.body), Signs(x.body, true), ")", [Close]);
      SaysConcat(a, opening, Written(x.body) + ")", Signs(x.body, true) + [Close]);
      assert WrittenItem(x) == a + (Written(x.body) + ")");
    }
  }

  lemma {:induction false} ItemsSay(items: seq<Item>)
    requires AreSaid(items)
    ensures Says(Written(items), Signs(items, true))
    decreases items
  {
    hide Says, WrittenItem, ItemSigns, IsSaid;
    if items == [] {
      SaysNothing();
    } else {
      var k := |items| - 1;
      ItemsSay(items[..k]);
      ItemSays(items[k]);
      SaysConcat(Written(items[..k]), Signs(items[..k], true), WrittenItem(items[k]), ItemSigns(items[k], true));
    }
  }

  // ------------------------------------------------------------- pitfalls

  /** A letter or digit of the set is escaped. */
  predicate EscapesLetter(body: string)
    decreases |body|
  {
    body != "" &&
    if body[0] == ESCAPE && |body| > 1 then IsAlphanumeric(body[1]) || EscapesLetter(body[2..])
    else EscapesLetter(body[1..])
  }

  /** An escaped question mark, or a set that escapes a letter or digit. */
  predicate IsPitfall(x: Item)
    requires x.Chunk?
  {
    var s := x.source;
    || (|s| > 1 && s[0] == ESCAPE && s[1] == '?')
    || (|s| > 1 && s[0] == '[' && EscapesLetter(s[1..|s| - 1]))
  }

  predicate HasPitfall(items: seq<Item>) {
    items != [] && (HasPitfall(items[..|items| - 1]) || HasPitfallIn(items[|items| - 1]))
  }

  predicate HasPitfallIn(x: Item) {
    match x
    case Chunk(_, _) => IsPitfall(x)
    case Group(_, body, _) => HasPitfall(body)
  }

  lemma {:induction false} MembersDiffer(body: string)
    ensures |Members(body, true)| == |Members(body, false)|
    ensures Members(body, true) == Members(body, false) <==> !EscapesLetter(body)
    decreases |body|
  {
    if body != "" {
      var k := if body[0] == ESCAPE && |body| > 1 then 2 else 1;
      MembersDiffer(body[k..]);
      var a, b := Members(body, true), Members(body, false);
      assert a[1..] == Members(body[k..], true) && b[1..] == Members(body[k..], false);
      assert a == [a[0]] + a[1..] && b == [b[0]] + b[1..];
    }
  }

  lemma {:induction false} ChunkDiffers(x: Item)
    requires x.Chunk?
    ensures |ItemSigns(x, true)| == |ItemSigns(x, false)|
    ensures ItemSigns(x, true) == ItemSigns(x, false) <==> !IsPitfall(x)
  {
    hide Members, EscapesLetter;
    var s := x.source;
    if s != "" && s[0] == '[' {
      var body := s[1..|s| - if |s| > 1 then 1 else 0];
      MembersDiffer(body);
      if body != "" && body[0] == NEGATION {
        MembersDiffer(body[1..]);
        NegationIsNone(body);
      }
      if |s| == 1 {
        assert body == "" && !EscapesLetter("") by { NothingEscaped(); }
      }
      assert ItemSigns(x, true)[0] == ItemSigns(x, false)[0] <==> ItemSigns(x, true) == ItemSigns(x, false);
    }
  }

  lemma {:induction false} NegationIsNone(body: string)
    requires body != "" && body[0] == NEGATION
    ensures EscapesLetter(body) == EscapesLetter(body[1..])
  {
  }

  lemma {:induction false} NothingEscaped()
    ensures !EscapesLetter("")
  {
  }

  lemma {:induction false} SplitEquality(a: seq<Sign>, b: seq<Sign>, c: seq<Sign>, d: seq<Sign>)
    requires |a| == |c| && |b| == |d|
    ensures a + b == c + d <==> a == c && b == d
  {
    if a + b == c + d {
      assert a == (a + b)[..|a|] && c == (c + d)[..|c|];
      assert b == (a + b)[|a|..] && d == (c + d)[|c|..];
    }
  }

  lemma {:induction false} ItemDiffers(x: Item)
    ensures |ItemSigns(x, true)| == |ItemSigns(x, false)|
    ensures ItemSigns(x, true) == ItemSigns(x, false) <==> !HasPitfallIn(x)
    decreases x, 0
  {
    if x.Chunk? {
      ChunkDiffers(x);
    } else {
      hide IsPitfall;
      SignsDiffer(x.body);
      var opening := [Open] + (if x.tag.Some? then [] else [Question, Char(':')])
                     + (if x.lead then [Char('?')] else []);
      var a, b := Signs(x.body, true), Signs(x.body, false);
      SplitEquality(a, [Close], b, [Close]);
      SplitEquality(opening, a + [Close], opening, b + [Close]);
    }
  }

  lemma {:induction false} SignsDiffer(items: seq<Item>)
    ensures |Signs(items, true)| == |Signs(items, false)|
    ensures Signs(items, true) == Signs(items, false) <==> !HasPitfall(items)
    decreases items
  {
    hide ItemSigns, HasPitfallIn;
    if items != [] {
      var k := |items| - 1;
      SignsDiffer(items[..k]);
      ItemDiffers(items[k]);
      SplitEquality(Signs(items[..k], true), ItemSigns(items[k], true),
                    Signs(items[..k], false), ItemSigns(items[k], false));
    }
  }

  // -------------------------------------------------------------- the result

  /** The written text is always one complete pattern. It says, sign by sign,
      what the MPW pattern says, exactly when the pattern has no escaped question
      mark outside of sets, and no escaped letter or digit inside of one. */
  lemma {:induction false} WrittenSaysSource(s: string, i: nat, term: Option<char>)
    requires i <= |s| && ReadItems(s, i, term).Parsed?
    ensures var items := ReadItems(s, i, term).items;
            && TakeAll(Reader(Normal, []), Written(items)).mode == Normal
            && (Says(Written(items), Signs(items, false)) <==> !HasPitfall(items))
  {
    hide TakeAll;
    var items := ReadItems(s, i, term).items;
    ItemsAreSaid(s, i, term);
    ItemsSay(items);
    SignsDiffer(items);
  }

  // ------------------------------------------------------- what is refused

  /** A repeat is read up to its closing bracket, exactly when only digits and
      commas are before that. */
  lemma {:induction false} RepeatsAreBounds(s: string, i: nat, j: nat)
    requires i <= j < |s| && s[j] == REPEAT_CLOSE && forall m :: i <= m < j ==> s[m] != REPEAT_CLOSE
    ensures Repeat(s, i) ==
      if forall m :: i <= m < j ==> s[m] == ',' || '0' <= s[m] <= '9' then Piece(s[i..j] + "}", j + 1) else NoPiece
    decreases j - i
  {
    if i < j {
      RepeatsAreBounds(s, i + 1, j);
      assert [s[i]] + (s[i + 1..j] + "}") == s[i..j] + "}";
    } else {
      assert s[i..j] + "}" == "}";
    }
  }

  lemma {:induction false} OpenRepeats(s: string, i: nat)
    requires i <= |s| && forall m :: i <= m < |s| ==> s[m] != REPEAT_CLOSE
    ensures Repeat(s, i) == NoPiece
    decreases |s| - i
  {
    if i < |s| {
      OpenRepeats(s, i + 1);
    }
  }

  /** A group whose mark is not followed by a digit is refused, and so is one
      that is not closed. */
  lemma {:induction false} RefusedGroups(c: char)
    requires !('0' <= c <= '9')
    ensures ReadItems(['(', ')', TAG, c], 0, None).Error?
    ensures ReadItems(['(', ')', TAG], 0, None).Error?
    ensures ReadItems(['('], 0, None).Error?
  {
    GroupRefused(['(', ')', TAG, c]);
    GroupRefused(['(', ')', TAG]);
    assert ReadItems(['('], 1, Some(')')).Error?;
    assert ReadItem(['('], 0).Error?;
  }

  lemma {:induction false} GroupRefused(s: string)
    requires 3 <= |s| <= 4 && s[0] == '(' && s[1] == ')' && s[2] == TAG && (|s| == 4 ==> !('0' <= s[3] <= '9'))
    ensures ReadItems(s, 0, None).Error?
  {
    assert ReadItems(s, 1, Some(')')) == Parsed([], 2);
    assert ReadGroup(s, 1).Error?;
    assert ReadItem(s, 0).Error?;
  }

  /** So are an escape at the end, and a set or a repeat that is not closed. */
  lemma {:induction false} RefusedChunks(c: char)
    requires c == ESCAPE || c == '[' || c == REPEAT_OPEN
    ensures ReadItems([c], 0, None).Error?
  {
    assert SetRest([c], 1) == NoPiece && Repeat([c], 1) == NoPiece;
    assert SetLead([c], 1) == "";
    assert ReadChunk([c], 0) == NoPiece;
    assert ReadItem([c], 0).Error?;
  }

  /** An escaped question mark is written as a quantifier, and an escaped letter
      of a set as a class of characters. */
  lemma {:induction false} Pitfalls(s: string, t: string)
    requires s == [ESCAPE, '?'] && t == ['[', ESCAPE, 'd', ']']
    ensures ReadItems(s, 0, None) == Parsed([Chunk(s, "?")], 2)
    ensures ChunkSigns(s, false) == [Char('?')] && Says("?", [Question])
    ensures ReadItems(t, 0, None) == Parsed([Chunk(t, "[\\d]")], 4)
    ensures ChunkSigns(t, false) == [Class(false, [Listed('d')])] && Says("[\\d]", [Class(false, [ClassEscape('d')])])
  {
    SaysOne('?');
    assert s[0..2] == s && ReadItem(s, 0) == Parsed([Chunk(s, "?")], 2);
    assert [Chunk(s, "?")] + [] == [Chunk(s, "?")];
    SetPitfall(t);
    ReadSetSays(t, 1);
    assert t[0..4] == t;
    assert [Chunk(t, "[\\d]")] + [] == [Chunk(t, "[\\d]")];
    assert ReadItems(t, 4, None) == Parsed([], 4);
  }

  lemma {:induction false} SetPitfall(t: string)
    requires t == ['[', ESCAPE, 'd', ']']
    ensures ReadSet(t, 1) == Piece("[\\d]", 4)
    ensures ChunkSigns(t, false) == [Class(false, [Listed('d')])]
    ensures ChunkSigns(t, true) == [Class(false, [ClassEscape('d')])]
  {
    assert SetRest(t, 3) == Piece("]", 4);
    assert SetRest(t, 1) == Piece("\\d]", 4);
    assert "[" + "" + "\\d]" == "[\\d]";
    var body := t[1..3];
    assert body == [ESCAPE, 'd'] && body[2..] == "" && t[1..|t| - 1] == body && body[0] != NEGATION;
    assert Members("", false) == [] && Members("", true) == [];
    assert [Listed('d')] + [] == [Listed('d')] && [ClassEscape('d')] + [] == [ClassEscape('d')];
    assert Members(body, false) == [Listed('d')] && Members(body, true) == [ClassEscape('d')];
  }
}
