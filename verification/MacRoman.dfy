/** Mac Roman and UTF-8: the two converters, for any code table. */
module MacRoman {

  const LOW := 0x80

  /** A code table: the code points of the bytes 0x80 and up. Different bytes
      have different code points, and none of them is ASCII. */
  ghost predicate IsCodeTable(t: seq<int>) {
    && |t| == LOW
    && (forall i :: 0 <= i < |t| ==> LOW <= t[i] < 0x1_0000)
    && (forall i, j :: 0 <= i < j < |t| ==> t[i] != t[j])
  }

  predicate IsByte(c: int) {
    0 <= c < 0x100
  }

  predicate AllBytes(s: seq<int>) {
    forall i :: 0 <= i < |s| ==> IsByte(s[i])
  }

  // ------------------------------------------------------------------ lookup

  /** macroman_to_unicode. */
  function ToUnicode(t: seq<int>, c: int): int
    requires |t| == LOW && IsByte(c)
  {
    if c < LOW then c else t[c - LOW]
  }

  /** The byte of a code point: the first in the table; 0 when there is none. */
  function ByteOf(t: seq<int>, u: int): int {
    if u < LOW then u else Search(t, u, 0)
  }

  function Search(t: seq<int>, u: int, i: nat): (c: int)
    requires i <= |t|
    ensures c == 0 || (LOW + i <= c < LOW + |t| && t[c - LOW] == u)
    ensures c == 0 ==> forall j :: i <= j < |t| ==> t[j] != u
    decreases |t| - i
  {
    if i == |t| then 0 else if t[i] == u then LOW + i else Search(t, u, i + 1)
  }

  /** An entry of the sorted table: code point and byte. */
  type Pair = (int, int)

  /** What std::sort leaves: the pairs of the table, by code point. */
  ghost predicate IsSorting(t: seq<int>, pairs: seq<Pair>) {
    && (forall i, j :: 0 <= i < j < |pairs| ==> pairs[i].0 <= pairs[j].0)
    && (forall i :: 0 <= i < |pairs| ==> LOW <= pairs[i].1 < LOW + |t| && t[pairs[i].1 - LOW] == pairs[i].0)
    && (forall i :: 0 <= i < |t| ==> (t[i], LOW + i) in pairs)
  }

  /** std::lower_bound: the first pair that is not below u. */
  method LowerBound(pairs: seq<Pair>, u: int) returns (k: nat)
    requires forall i, j :: 0 <= i < j < |pairs| ==> pairs[i].0 <= pairs[j].0
    ensures k <= |pairs|
    ensures forall i :: 0 <= i < k ==> pairs[i].0 < u
    ensures forall i :: k <= i < |pairs| ==> u <= pairs[i].0
  {
    k := 0;
    var high := |pairs|;
    while k < high
      invariant k <= high <= |pairs|
      invariant forall i :: 0 <= i < k ==> pairs[i].0 < u
      invariant forall i :: high <= i < |pairs| ==> u <= pairs[i].0
    {
      var mid := (k + high) / 2;
      if pairs[mid].0 < u {
        k := mid + 1;
      } else {
        high := mid;
      }
    }
  }

  lemma {:induction false} NotInTable(t: seq<int>, pairs: seq<Pair>, u: int)
    requires IsSorting(t, pairs)
    requires forall i :: 0 <= i < |pairs| ==> pairs[i].0 != u
    ensures Search(t, u, 0) == 0
  {
    forall i | 0 <= i < |t| ensures t[i] != u {
      var j :| 0 <= j < |pairs| && pairs[j] == (t[i], LOW + i);
    }
  }

  /** unicode_to_macroman: searching the sorted table is searching the table. */
  method FromUnicode(t: seq<int>, pairs: seq<Pair>, u: int) returns (c: int)
    requires IsCodeTable(t) && IsSorting(t, pairs)
    ensures c == ByteOf(t, u)
  {
    if u < LOW {
      return u;
    }
    var k := LowerBound(pairs, u);
    if k < |pairs| && pairs[k].0 == u {
      return pairs[k].1;
    }
    assert forall i :: k <= i < |pairs| ==> pairs[k].0 <= pairs[i].0;
    NotInTable(t, pairs, u);
    return 0;
  }

  /** The table is injective: a byte is found again by its code point. */
  lemma {:induction false} LookupInverts(t: seq<int>, c: int)
    requires IsCodeTable(t) && IsByte(c)
    ensures ByteOf(t, ToUnicode(t, c)) == c
  {
    if c >= LOW {
      var b := Search(t, t[c - LOW], 0);
      assert t[b - LOW] == t[c - LOW];
    }
  }

  // ------------------------------------------------------------------- UTF-8

  /** The UTF-8 form of a code point below 0x10000 (section 3 of RFC 3629). */
  function Encode(u: int): (s: seq<int>)
    requires 0 <= u < 0x1_0000
    ensures AllBytes(s)
  {
    if u < 0x80 then [u]
    else if u < 0x800 then [0xc0 + u / 0x40, 0x80 + u % 0x40]
    else [0xe0 + u / 0x1000, 0x80 + u / 0x40 % 0x40, 0x80 + u % 0x40]
  }

  function EncodeAll(us: seq<int>): (s: seq<int>)
    requires forall i :: 0 <= i < |us| ==> 0 <= us[i] < 0x1_0000
    ensures AllBytes(s)
  {
    if us == [] then [] else EncodeAll(us[..|us| - 1]) + Encode(us[|us| - 1])
  }

  function Unicodes(t: seq<int>, s: seq<int>): (us: seq<int>)
    requires |t| == LOW && AllBytes(s)
    ensures |us| == |s|
    ensures forall i :: 0 <= i < |s| ==> us[i] == ToUnicode(t, s[i])
  {
    seq(|s|, i requires 0 <= i < |s| => ToUnicode(t, s[i]))
  }

  /** The decoder: how many bytes are still to come, the 16 bits so far, and
      what was written. */
  datatype Decoder = Decoder(cs: nat, tmp: int, out: seq<int>)

  function Append(t: seq<int>, out: seq<int>, u: int): seq<int> {
    if ByteOf(t, u) != 0 then out + [ByteOf(t, u)] else out
  }

  function Decode(t: seq<int>, d: Decoder, c: int): Decoder
    requires IsByte(c)
  {
    if d.cs == 0 then
      if c < 0x80 then d.(out := d.out + [c])
      else if 0xc0 <= c < 0xe0 then d.(cs := 1, tmp := c % 0x20)
      else if 0xe0 <= c < 0xf0 then d.(cs := 2, tmp := c % 0x10)
      else if 0xf0 <= c < 0xf8 then d.(cs := 3, tmp := c % 0x08)
      else d
    else
      var tmp := (d.tmp * 0x40 + c % 0x40) % 0x1_0000;
      Decoder(d.cs - 1, tmp, if d.cs == 1 then Append(t, d.out, tmp) else d.out)
  }

  function DecodeAll(t: seq<int>, d: Decoder, s: seq<int>): Decoder
    requires AllBytes(s)
  {
    if s == [] then d else Decode(t, DecodeAll(t, d, s[..|s| - 1]), s[|s| - 1])
  }

  const BLANK := Decoder(0, 0, [])

  predicate IsAscii(s: seq<int>) {
    forall i :: 0 <= i < |s| ==> s[i] < LOW
  }

  method HasHighBit(s: seq<int>) returns (found: bool)
    ensures found == !IsAscii(s)
  {
    for i := 0 to |s|
      invariant forall j :: 0 <= j < i ==> s[j] < LOW
    {
      if s[i] >= LOW {
        return true;
      }
    }
    return false;
  }

  /** macroman_to_utf8. */
  method ToUtf8(t: seq<int>, s: seq<int>) returns (rv: seq<int>)
    requires IsCodeTable(t) && AllBytes(s)
    ensures rv == EncodeAll(Unicodes(t, s))
  {
    hide IsCodeTable, Unicodes, EncodeAll, IsAscii;
    UnicodesInRange(t, s);
    ghost var us := Unicodes(t, s);
    var high := HasHighBit(s);
    if !high {
      AsciiEncodes(s);
      return s;
    }
    rv := [];
    EncodedNothing();
    for i := 0 to |s|
      invariant rv == EncodeAll(us[..i])
    {
      EncodedNext(us, i);
      var tmp := ToUnicode(t, s[i]);
      if tmp <= 0x7f {
        rv := rv + [tmp];
      } else if tmp <= 0x7ff {
        rv := rv + [0xc0 + tmp / 0x40, 0x80 + tmp % 0x40];
      } else {
        rv := rv + [0xe0 + tmp / 0x1000, 0x80 + tmp / 0x40 % 0x40, 0x80 + tmp % 0x40];
      }
    }
    assert us[..|s|] == us;
  }

  lemma {:induction false} EncodedNothing()
    ensures EncodeAll([]) == []
  {
  }

  lemma {:induction false} EncodedNext(us: seq<int>, i: nat)
    requires i < |us| && forall i :: 0 <= i < |us| ==> 0 <= us[i] < 0x1_0000
    ensures EncodeAll(us[..i + 1]) == EncodeAll(us[..i]) + Encode(us[i])
  {
    assert us[..i + 1][..i] == us[..i];
  }

  /** utf8_to_macroman. */
  method FromUtf8(t: seq<int>, pairs: seq<Pair>, s: seq<int>) returns (rv: seq<int>)
    requires IsCodeTable(t) && IsSorting(t, pairs) && AllBytes(s)
    ensures rv == DecodeAll(t, BLANK, s).out
  {
    var high := HasHighBit(s);
    if !high {
      AsciiDecodes(t, s);
      return s;
    }
    var cs, tmp := 0, 0;
    rv := [];
    for i := 0 to |s|
      invariant cs <= 3
      invariant Decoder(cs, tmp, rv) == DecodeAll(t, BLANK, s[..i])
    {
      assert s[..i + 1][..i] == s[..i];
      var c := s[i];
      if cs == 0 {
        if c <= 0x7f {
          rv := rv + [c];
        } else if 0xc0 <= c < 0xe0 {
          tmp, cs := c % 0x20, 1;
        } else if 0xe0 <= c < 0xf0 {
          tmp, cs := c % 0x10, 2;
        } else if 0xf0 <= c < 0xf8 {
          tmp, cs := c % 0x08, 3;
        }
      } else {
        tmp := (tmp * 0x40 + c % 0x40) % 0x1_0000;
        cs := cs - 1;
        if cs == 0 {
          c := FromUnicode(t, pairs, tmp);
          if c != 0 {
            rv := rv + [c];
          }
        }
      }
    }
    assert s[..|s|] == s;
  }

  lemma {:induction false} UnicodesInRange(t: seq<int>, s: seq<int>)
    requires IsCodeTable(t) && AllBytes(s)
    ensures |t| == LOW && forall i :: 0 <= i < |s| ==> 0 <= Unicodes(t, s)[i] < 0x1_0000
    ensures IsAscii(s) ==> Unicodes(t, s) == s
  {
  }

  lemma {:induction false} AsciiEncodes(s: seq<int>)
    requires AllBytes(s) && IsAscii(s)
    ensures EncodeAll(s) == s
    decreases s
  {
    hide IsByte;
    if s != [] {
      AsciiEncodes(s[..|s| - 1]);
    }
  }

  lemma {:induction false} AsciiDecodes(t: seq<int>, s: seq<int>)
    requires AllBytes(s) && IsAscii(s)
    ensures DecodeAll(t, BLANK, s) == Decoder(0, 0, s)
    decreases s
  {
    hide IsByte, Append, ByteOf;
    if s != [] {
      AsciiDecodes(t, s[..|s| - 1]);
    }
  }

  // -------------------------------------------------------------- round trips

  lemma {:induction false} DecodeConcat(t: seq<int>, d: Decoder, a: seq<int>, b: seq<int>)
    requires AllBytes(a) && AllBytes(b)
    ensures DecodeAll(t, d, a + b) == DecodeAll(t, DecodeAll(t, d, a), b)
    decreases b
  {
    if b == [] {
      assert a + b == a;
    } else {
      assert (a + b)[..|a + b| - 1] == a + b[..|b| - 1];
      DecodeConcat(t, d, a, b[..|b| - 1]);
    }
  }

  /** The bytes of one code point are decoded to it. */
  lemma {:induction false} DecodeEncoded(t: seq<int>, d: Decoder, u: int)
    requires d.cs == 0 && 0 <= u < 0x1_0000
    ensures var d' := DecodeAll(t, d, Encode(u));
            d'.cs == 0 && d'.out == if u < LOW then d.out + [u] else Append(t, d.out, u)
  {
    hide Decode;
    var s := Encode(u);
    if |s| == 1 {
      DecodeAscii(t, d, u);
    } else if |s| == 2 {
      PairDecoded(t, d, u);
    } else {
      TripleDecoded(t, d, u);
    }
  }

  lemma {:induction false} DecodeAscii(t: seq<int>, d: Decoder, u: int)
    requires d.cs == 0 && 0 <= u < 0x80
    ensures DecodeAll(t, d, [u]) == d.(out := d.out + [u])
  {
    DecodeOne(t, d, u);
  }

  lemma {:induction false} PairDecoded(t: seq<int>, d: Decoder, u: int)
    requires d.cs == 0 && 0x80 <= u < 0x800
    ensures DecodeAll(t, d, [0xc0 + u / 0x40, 0x80 + u % 0x40]) == Decoder(0, u, Append(t, d.out, u))
  {
    hide Append, DecodeAll;
    var a, b := 0xc0 + u / 0x40, 0x80 + u % 0x40;
    DecodeTwo(t, d, a, b);
    assert 0xc0 <= a < 0xe0 && a % 0x20 == u / 0x40;
    assert b % 0x40 == u % 0x40;
    Sextets(u);
  }

  lemma {:induction false} TripleDecoded(t: seq<int>, d: Decoder, u: int)
    requires d.cs == 0 && 0x800 <= u < 0x1_0000
    ensures DecodeAll(t, d, [0xe0 + u / 0x1000, 0x80 + u / 0x40 % 0x40, 0x80 + u % 0x40]) ==
      Decoder(0, u, Append(t, d.out, u))
  {
    hide Append, DecodeAll;
    var a, b, c := 0xe0 + u / 0x1000, 0x80 + u / 0x40 % 0x40, 0x80 + u % 0x40;
    DecodeThree(t, d, a, b, c);
    assert 0xe0 <= a < 0xf0 && a % 0x10 == u / 0x1000;
    assert b % 0x40 == u / 0x40 % 0x40 && c % 0x40 == u % 0x40;
    Sextets(u);
  }

  lemma {:induction false} DecodeOne(t: seq<int>, d: Decoder, a: int)
    requires IsByte(a)
    ensures DecodeAll(t, d, [a]) == Decode(t, d, a)
  {
    assert [a][..0] == [];
  }

  lemma {:induction false} DecodeTwo(t: seq<int>, d: Decoder, a: int, b: int)
    requires IsByte(a) && IsByte(b)
    ensures DecodeAll(t, d, [a, b]) == Decode(t, Decode(t, d, a), b)
  {
    assert [a, b][..1] == [a];
    DecodeOne(t, d, a);
  }

  lemma {:induction false} DecodeThree(t: seq<int>, d: Decoder, a: int, b: int, c: int)
    requires IsByte(a) && IsByte(b) && IsByte(c)
    ensures DecodeAll(t, d, [a, b, c]) == Decode(t, Decode(t, Decode(t, d, a), b), c)
  {
    assert [a, b, c][..2] == [a, b];
    DecodeTwo(t, d, a, b);
  }

  lemma {:induction false} Sextets(u: int)
    requires 0 <= u < 0x1_0000
    ensures (u / 0x1000) * 0x40 + u / 0x40 % 0x40 == u / 0x40
    ensures (u / 0x40) * 0x40 + u % 0x40 == u
  {
    assert u / 0x40 / 0x40 == u / 0x1000;
  }

  lemma {:induction false} DecodeKnown(t: seq<int>, d: Decoder, c: int)
    requires IsCodeTable(t) && IsByte(c) && d.cs == 0
    ensures 0 <= ToUnicode(t, c) < 0x1_0000
    ensures var d' := DecodeAll(t, d, Encode(ToUnicode(t, c)));
            d'.cs == 0 && d'.out == d.out + [c]
  {
    DecodeEncoded(t, d, ToUnicode(t, c));
    LookupInverts(t, c);
  }

  /** A text of code points that the table has: decoded byte by byte. */
  lemma {:induction false} DecodeAllEncoded(t: seq<int>, s: seq<int>)
    requires IsCodeTable(t) && AllBytes(s)
    ensures DecodeAll(t, BLANK, EncodeAll(Unicodes(t, s))).cs == 0
    ensures DecodeAll(t, BLANK, EncodeAll(Unicodes(t, s))).out == s
    decreases s
  {
    hide Encode, Decode, ByteOf;
    if s != [] {
      var k := |s| - 1;
      DecodeAllEncoded(t, s[..k]);
      assert Unicodes(t, s)[..k] == Unicodes(t, s[..k]);
      var u := ToUnicode(t, s[k]);
      var d := DecodeAll(t, BLANK, EncodeAll(Unicodes(t, s[..k])));
      DecodeConcat(t, BLANK, EncodeAll(Unicodes(t, s[..k])), Encode(u));
      DecodeKnown(t, d, s[k]);
      assert s[..k] + [s[k]] == s;
    }
  }

  /** The code point is ASCII or in the table. */
  predicate InRepertoire(t: seq<int>, u: int) {
    0 <= u < LOW || u in t
  }

  function Bytes(t: seq<int>, us: seq<int>): (s: seq<int>)
    ensures |s| == |us|
  {
    seq(|us|, i requires 0 <= i < |us| => ByteOf(t, us[i]))
  }

  /** Mac Roman to UTF-8 and back, for every byte string. */
  method MacRomanRoundTrip(t: seq<int>, pairs: seq<Pair>, s: seq<int>) returns (rv: seq<int>)
    requires IsCodeTable(t) && IsSorting(t, pairs) && AllBytes(s)
    ensures rv == s
  {
    var u := ToUtf8(t, s);
    rv := FromUtf8(t, pairs, u);
    DecodeAllEncoded(t, s);
  }

  /** UTF-8 to Mac Roman and back, for every valid text of the repertoire. */
  lemma {:induction false} Utf8RoundTrip(t: seq<int>, us: seq<int>)
    requires IsCodeTable(t)
    requires forall i :: 0 <= i < |us| ==> InRepertoire(t, us[i])
    ensures AllBytes(Bytes(t, us)) && Unicodes(t, Bytes(t, us)) == us
    ensures DecodeAll(t, BLANK, EncodeAll(us)).out == Bytes(t, us)
    ensures EncodeAll(Unicodes(t, DecodeAll(t, BLANK, EncodeAll(us)).out)) == EncodeAll(us)
  {
    var s := Bytes(t, us);
    forall i | 0 <= i < |us| ensures IsByte(s[i]) && ToUnicode(t, s[i]) == us[i] {
      assert InRepertoire(t, us[i]);
    }
    assert Unicodes(t, s) == us;
    DecodeAllEncoded(t, s);
  }
}
