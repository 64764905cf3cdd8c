/** The code table of macroman.x, and that it is one. */
module MacRomanTable {
  import opened MacRoman

  // Eight bytes a row, from 0x80 on.
  const ROW0: seq<int> := [0x00C4, 0x00C5, 0x00C7, 0x00C9, 0x00D1, 0x00D6, 0x00DC, 0x00E1]
  const ROW1: seq<int> := [0x00E0, 0x00E2, 0x00E4, 0x00E3, 0x00E5, 0x00E7, 0x00E9, 0x00E8]
  const ROW2: seq<int> := [0x00EA, 0x00EB, 0x00ED, 0x00EC, 0x00EE, 0x00EF, 0x00F1, 0x00F3]
  const ROW3: seq<int> := [0x00F2, 0x00F4, 0x00F6, 0x00F5, 0x00FA, 0x00F9, 0x00FB, 0x00FC]
  const ROW4: seq<int> := [0x2020, 0x00B0, 0x00A2, 0x00A3, 0x00A7, 0x2022, 0x00B6, 0x00DF]
  const ROW5: seq<int> := [0x00AE, 0x00A9, 0x2122, 0x00B4, 0x00A8, 0x2260, 0x00C6, 0x00D8]
  const ROW6: seq<int> := [0x221E, 0x00B1, 0x2264, 0x2265, 0x00A5, 0x00B5, 0x2202, 0x2211]
  const ROW7: seq<int> := [0x220F, 0x03C0, 0x222B, 0x00AA, 0x00BA, 0x03A9, 0x00E6, 0x00F8]
  const ROW8: seq<int> := [0x00BF, 0x00A1, 0x00AC, 0x221A, 0x0192, 0x2248, 0x2206, 0x00AB]
  const ROW9: seq<int> := [0x00BB, 0x2026, 0x00A0, 0x00C0, 0x00C3, 0x00D5, 0x0152, 0x0153]
  const ROWA: seq<int> := [0x2013, 0x2014, 0x201C, 0x201D, 0x2018, 0x2019, 0x00F7, 0x25CA]
  const ROWB: seq<int> := [0x00FF, 0x0178, 0x2044, 0x20AC, 0x2039, 0x203A, 0xFB01, 0xFB02]
  const ROWC: seq<int> := [0x2021, 0x00B7, 0x201A, 0x201E, 0x2030, 0x00C2, 0x00CA, 0x00C1]
  const ROWD: seq<int> := [0x00CB, 0x00C8, 0x00CD, 0x00CE, 0x00CF, 0x00CC, 0x00D3, 0x00D4]
  const ROWE: seq<int> := [0xF8FF, 0x00D2, 0x00DA, 0x00DB, 0x00D9, 0x0131, 0x02C6, 0x02DC]
  const ROWF: seq<int> := [0x00AF, 0x02D8, 0x02D9, 0x02DA, 0x00B8, 0x02DD, 0x02DB, 0x02C7]

  function Row(r: nat): (row: seq<int>)
    requires r < 16
    ensures |row| == 8
  {
    if r == 0 then ROW0
    else if r == 1 then ROW1
    else if r == 2 then ROW2
    else if r == 3 then ROW3
    else if r == 4 then ROW4
    else if r == 5 then ROW5
    else if r == 6 then ROW6
    else if r == 7 then ROW7
    else if r == 8 then ROW8
    else if r == 9 then ROW9
    else if r == 10 then ROWA
    else if r == 11 then ROWB
    else if r == 12 then ROWC
    else if r == 13 then ROWD
    else if r == 14 then ROWE
    else ROWF
  }

  const TABLE: seq<int> := seq(LOW, i requires 0 <= i < LOW => Row(i / 8)[i % 8])

  /** The byte of a code point of the table. */
  function ByteFor(u: int): int {
    match u
    case 0x00A0 => 0xCA case 0x00A1 => 0xC1 case 0x00A2 => 0xA2 case 0x00A3 => 0xA3 case 0x00A5 => 0xB4
    case 0x00A7 => 0xA4 case 0x00A8 => 0xAC case 0x00A9 => 0xA9 case 0x00AA => 0xBB case 0x00AB => 0xC7
    case 0x00AC => 0xC2 case 0x00AE => 0xA8 case 0x00AF => 0xF8 case 0x00B0 => 0xA1 case 0x00B1 => 0xB1
    case 0x00B4 => 0xAB case 0x00B5 => 0xB5 case 0x00B6 => 0xA6 case 0x00B7 => 0xE1 case 0x00B8 => 0xFC
    case 0x00BA => 0xBC case 0x00BB => 0xC8 case 0x00BF => 0xC0 case 0x00C0 => 0xCB case 0x00C1 => 0xE7
    case 0x00C2 => 0xE5 case 0x00C3 => 0xCC case 0x00C4 => 0x80 case 0x00C5 => 0x81 case 0x00C6 => 0xAE
    case 0x00C7 => 0x82 case 0x00C8 => 0xE9 case 0x00C9 => 0x83 case 0x00CA => 0xE6 case 0x00CB => 0xE8
    case 0x00CC => 0xED case 0x00CD => 0xEA case 0x00CE => 0xEB case 0x00CF => 0xEC case 0x00D1 => 0x84
    case 0x00D2 => 0xF1 case 0x00D3 => 0xEE case 0x00D4 => 0xEF case 0x00D5 => 0xCD case 0x00D6 => 0x85
    case 0x00D8 => 0xAF case 0x00D9 => 0xF4 case 0x00DA => 0xF2 case 0x00DB => 0xF3 case 0x00DC => 0x86
    case 0x00DF => 0xA7 case 0x00E0 => 0x88 case 0x00E1 => 0x87 case 0x00E2 => 0x89 case 0x00E3 => 0x8B
    case 0x00E4 => 0x8A case 0x00E5 => 0x8C case 0x00E6 => 0xBE case 0x00E7 => 0x8D case 0x00E8 => 0x8F
    case 0x00E9 => 0x8E case 0x00EA => 0x90 case 0x00EB => 0x91 case 0x00EC => 0x93 case 0x00ED => 0x92
    case 0x00EE => 0x94 case 0x00EF => 0x95 case 0x00F1 => 0x96 case 0x00F2 => 0x98 case 0x00F3 => 0x97
    case 0x00F4 => 0x99 case 0x00F5 => 0x9B case 0x00F6 => 0x9A case 0x00F7 => 0xD6 case 0x00F8 => 0xBF
    case 0x00F9 => 0x9D case 0x00FA => 0x9C case 0x00FB => 0x9E case 0x00FC => 0x9F case 0x00FF => 0xD8
    case 0x0131 => 0xF5 case 0x0152 => 0xCE case 0x0153 => 0xCF case 0x0178 => 0xD9 case 0x0192 => 0xC4
    case 0x02C6 => 0xF6 case 0x02C7 => 0xFF case 0x02D8 => 0xF9 case 0x02D9 => 0xFA case 0x02DA => 0xFB
    case 0x02DB => 0xFE case 0x02DC => 0xF7 case 0x02DD => 0xFD case 0x03A9 => 0xBD case 0x03C0 => 0xB9
    case 0x2013 => 0xD0 case 0x2014 => 0xD1 case 0x2018 => 0xD4 case 0x2019 => 0xD5 case 0x201A => 0xE2
    case 0x201C => 0xD2 case 0x201D => 0xD3 case 0x201E => 0xE3 case 0x2020 => 0xA0 case 0x2021 => 0xE0
    case 0x2022 => 0xA5 case 0x2026 => 0xC9 case 0x2030 => 0xE4 case 0x2039 => 0xDC case 0x203A => 0xDD
    case 0x2044 => 0xDA case 0x20AC => 0xDB case 0x2122 => 0xAA case 0x2202 => 0xB6 case 0x2206 => 0xC6
    case 0x220F => 0xB8 case 0x2211 => 0xB7 case 0x221A => 0xC3 case 0x221E => 0xB0 case 0x222B => 0xBA
    case 0x2248 => 0xC5 case 0x2260 => 0xAD case 0x2264 => 0xB2 case 0x2265 => 0xB3 case 0x25CA => 0xD7
    case 0xF8FF => 0xF0 case 0xFB01 => 0xDE case 0xFB02 => 0xDF
    case _ => 0
  }

  /** Every entry is found again by its code point. */
  lemma {:induction false} EntryInverted(r: nat, k: nat)
    requires r < 16 && k < 8
    ensures LOW <= Row(r)[k] < 0x1_0000 && ByteFor(Row(r)[k]) == LOW + 8 * r + k
  {
    if r < 8 {
      if r < 4 {
        assert r == 0 || r == 1 || r == 2 || r == 3;
      } else {
        assert r == 4 || r == 5 || r == 6 || r == 7;
      }
    } else if r < 12 {
      assert r == 8 || r == 9 || r == 10 || r == 11;
    } else {
      assert r == 12 || r == 13 || r == 14 || r == 15;
    }
    if k < 4 {
      assert k == 0 || k == 1 || k == 2 || k == 3;
    } else {
      assert k == 4 || k == 5 || k == 6 || k == 7;
    }
  }

  lemma {:induction false} Inverted(i: nat)
    requires i < LOW
    ensures LOW <= TABLE[i] < 0x1_0000 && ByteFor(TABLE[i]) == LOW + i
  {
    hide ByteFor, Row;
    EntryInverted(i / 8, i % 8);
  }

  /** The table of the program is a code table, so that everything proved of
      code tables holds of it. */
  lemma {:induction false} TableIsCodeTable()
    ensures IsCodeTable(TABLE)
  {
    forall i | 0 <= i < |TABLE| ensures LOW <= TABLE[i] < 0x1_0000 {
      Inverted(i);
    }
    forall i, j | 0 <= i < j < |TABLE| ensures TABLE[i] != TABLE[j] {
      Inverted(i);
      Inverted(j);
    }
  }
}
