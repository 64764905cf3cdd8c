/** What the decoder makes of texts that are not in Mac Roman, or not UTF-8. */
module MacRomanLaws {
  import opened MacRoman

  /** A byte that continues nothing, or that no code point begins with, is
      skipped. */
  lemma {:induction false} StrayBytesAreSkipped(t: seq<int>, out: seq<int>, tmp: int, c: int)
    requires 0x80 <= c < 0xc0 || 0xf8 <= c < 0x100
    ensures DecodeAll(t, Decoder(0, tmp, out), [c]) == Decoder(0, tmp, out)
  {
    assert [c][..0] == [];
  }

  /** What a code point adds to the bytes written so far. */
  ghost predicate Adds(t: seq<int>, before: seq<int>, after: seq<int>, u: int) {
    && (0 < u < 0x80 ==> after == before + [u])
    && (forall i :: 0 <= i < |t| && t[i] == u && u >= 0x80 ==> after == before + [0x80 + i])
    && (u == 0 || (u >= 0x80 && forall i :: 0 <= i < |t| ==> t[i] != u) ==> after == before)
  }

  lemma {:induction false} AppendAdds(t: seq<int>, out: seq<int>, u: int)
    requires IsCodeTable(t) && 0 <= u
    ensures Adds(t, out, Append(t, out, u), u)
  {
    if u >= 0x80 {
      var b := Search(t, u, 0);
      forall i | 0 <= i < |t| && t[i] == u ensures b == 0x80 + i {
        assert b != 0;
        assert t[b - LOW] == t[i];
      }
    }
  }

  /** A code point of two or three bytes that the table does not have is dropped. */
  lemma {:induction false} EncodedAdds(t: seq<int>, d: Decoder, u: int)
    requires IsCodeTable(t) && d.cs == 0 && 0x80 <= u < 0x1_0000
    ensures var d' := DecodeAll(t, d, Encode(u));
            d'.cs == 0 && Adds(t, d.out, d'.out, u)
  {
    hide Append, Adds;
    DecodeEncoded(t, d, u);
    AppendAdds(t, d.out, u);
  }

  lemma {:induction false} DecodeFour(t: seq<int>, d: Decoder, a: int, b: int, c: int, e: int)
    requires IsByte(a) && IsByte(b) && IsByte(c) && IsByte(e)
    ensures DecodeAll(t, d, [a, b, c, e]) == Decode(t, Decode(t, Decode(t, Decode(t, d, a), b), c), e)
  {
    assert [a, b, c, e][..3] == [a, b, c];
    DecodeThree(t, d, a, b, c);
    hide Decode;
  }

  lemma {:induction false} LowBits(u: int)
    requires 0x1_0000 <= u < 0x20_0000
    ensures var t1 := u / 0x4_0000;
            var t2 := (t1 * 0x40 + u / 0x1000 % 0x40) % 0x1_0000;
            var t3 := (t2 * 0x40 + u / 0x40 % 0x40) % 0x1_0000;
            (t3 * 0x40 + u % 0x40) % 0x1_0000 == u % 0x1_0000
  {
    var x, y := u / 0x1000, u / 0x40;
    Nested(u);
    Whole(x);
    Whole(y);
    Whole(u);
    Small(x);
    Small(y);
  }

  lemma {:induction false} Nested(u: int)
    requires 0x1_0000 <= u < 0x20_0000
    ensures u / 0x1000 / 0x40 == u / 0x4_0000 && u / 0x40 / 0x40 == u / 0x1000
    ensures 0 <= u / 0x1000 < 0x200 && 0 <= u / 0x40 < 0x8000
  {
  }

  lemma {:induction false} Whole(x: int)
    ensures x / 0x40 * 0x40 + x % 0x40 == x
  {
  }

  lemma {:induction false} Small(x: int)
    requires 0 <= x < 0x1_0000
    ensures x % 0x1_0000 == x
  {
  }

  lemma {:induction false} FourDecoded(t: seq<int>, d: Decoder, a: int, b: int, c: int, e: int)
    requires d.cs == 0 && 0xf0 <= a < 0xf8 && IsByte(b) && IsByte(c) && IsByte(e)
    ensures var t2 := (a % 8 * 0x40 + b % 0x40) % 0x1_0000;
            var t3 := (t2 * 0x40 + c % 0x40) % 0x1_0000;
            var u := (t3 * 0x40 + e % 0x40) % 0x1_0000;
            DecodeAll(t, d, [a, b, c, e]) == Decoder(0, u, Append(t, d.out, u))
  {
    hide Append, DecodeAll;
    DecodeFour(t, d, a, b, c, e);
  }

  lemma {:induction false} Sextet(x: int)
    ensures (0x80 + x % 0x40) % 0x40 == x % 0x40 && 0x80 <= 0x80 + x % 0x40 < 0xc0
  {
  }

  lemma {:induction false} Leader(u: int)
    requires 0x1_0000 <= u < 0x20_0000
    ensures 0xf0 <= 0xf0 + u / 0x4_0000 < 0xf8 && (0xf0 + u / 0x4_0000) % 8 == u / 0x4_0000
  {
  }

  lemma {:induction false} FourAdd(t: seq<int>, d: Decoder, u: int, a: int, b: int, c: int, e: int)
    requires IsCodeTable(t) && d.cs == 0 && 0 <= u && 0xf0 <= a < 0xf8
    requires 0x80 <= b < 0xc0 && 0x80 <= c < 0xc0 && 0x80 <= e < 0xc0
    requires var t2 := (a % 8 * 0x40 + b % 0x40) % 0x1_0000;
             var t3 := (t2 * 0x40 + c % 0x40) % 0x1_0000;
             (t3 * 0x40 + e % 0x40) % 0x1_0000 == u % 0x1_0000
    ensures AllBytes([a, b, c, e])
    ensures var d' := DecodeAll(t, d, [a, b, c, e]);
            d'.cs == 0 && Adds(t, d.out, d'.out, u % 0x1_0000)
  {
    hide Append, Adds, DecodeAll, Decode, IsCodeTable;
    FourDecoded(t, d, a, b, c, e);
    AppendAdds(t, d.out, u % 0x1_0000);
  }

  /** A code point of four bytes is taken for the one with its low 16 bits. */
  lemma {:induction false} FourBytesWrap(t: seq<int>, d: Decoder, u: int)
    requires IsCodeTable(t) && d.cs == 0 && 0x1_0000 <= u < 0x20_0000
    ensures var bytes := [0xf0 + u / 0x4_0000, 0x80 + u / 0x1000 % 0x40, 0x80 + u / 0x40 % 0x40, 0x80 + u % 0x40];
            && AllBytes(bytes)
            && var d' := DecodeAll(t, d, bytes);
               d'.cs == 0 && Adds(t, d.out, d'.out, u % 0x1_0000)
  {
    hide Append, Adds, DecodeAll, Decode, IsCodeTable;
    Leader(u);
    Sextet(u / 0x1000);
    Sextet(u / 0x40);
    Sextet(u);
    LowBits(u);
    FourAdd(t, d, u, 0xf0 + u / 0x4_0000, 0x80 + u / 0x1000 % 0x40, 0x80 + u / 0x40 % 0x40, 0x80 + u % 0x40);
  }
}
