/**
 * The table of Code 128 (ISO/IEC 15417, Table 1). Each entry gives the widths of a symbol's bars and spaces in turn. Every
 * data symbol spans eleven modules, and no two symbols have the same widths: the widths, read as a number, lead back to
 * the symbol. The table is proved in bands to keep each proof small.
 */
module Code128Table {
  import opened Code128

  // Bar and space widths of the symbol values, in four parts

  function Pattern0(v: nat): string
    requires 0 <= v < 27
  {
    match v
    case 0 => "212222" case 1 => "222122" case 2 => "222221" case 3 => "121223" case 4 => "121322"
    case 5 => "131222" case 6 => "122213" case 7 => "122312" case 8 => "132212" case 9 => "221213"
    case 10 => "221312" case 11 => "231212" case 12 => "112232" case 13 => "122132" case 14 => "122231"
    case 15 => "113222" case 16 => "123122" case 17 => "123221" case 18 => "223211" case 19 => "221132"
    case 20 => "221231" case 21 => "213212" case 22 => "223112" case 23 => "312131" case 24 => "311222"
    case 25 => "321122"
    case _ => "321221"
  }

  function Pattern27(v: nat): string
    requires 27 <= v < 54
  {
    match v
    case 27 => "312212" case 28 => "322112" case 29 => "322211" case 30 => "212123" case 31 => "212321"
    case 32 => "232121" case 33 => "111323" case 34 => "131123" case 35 => "131321" case 36 => "112313"
    case 37 => "132113" case 38 => "132311" case 39 => "211313" case 40 => "231113" case 41 => "231311"
    case 42 => "112133" case 43 => "112331" case 44 => "132131" case 45 => "113123" case 46 => "113321"
    case 47 => "133121" case 48 => "313121" case 49 => "211331" case 50 => "231131" case 51 => "213113"
    case 52 => "213311"
    case _ => "213131"
  }

  function Pattern54(v: nat): string
    requires 54 <= v < 81
  {
    match v
    case 54 => "311123" case 55 => "311321" case 56 => "331121" case 57 => "312113" case 58 => "312311"
    case 59 => "332111" case 60 => "314111" case 61 => "221411" case 62 => "431111" case 63 => "111224"
    case 64 => "111422" case 65 => "121124" case 66 => "121421" case 67 => "141122" case 68 => "141221"
    case 69 => "112214" case 70 => "112412" case 71 => "122114" case 72 => "122411" case 73 => "142112"
    case 74 => "142211" case 75 => "241211" case 76 => "221114" case 77 => "413111" case 78 => "241112"
    case 79 => "134111"
    case _ => "111242"
  }

  function Pattern81(v: nat): string
    requires 81 <= v < 107
  {
    match v
    case 81 => "121142" case 82 => "121241" case 83 => "114212" case 84 => "124112" case 85 => "124211"
    case 86 => "411212" case 87 => "421112" case 88 => "421211" case 89 => "212141" case 90 => "214121"
    case 91 => "412121" case 92 => "111143" case 93 => "111341" case 94 => "131141" case 95 => "114113"
    case 96 => "114311" case 97 => "411113" case 98 => "411311" case 99 => "113141" case 100 => "114131"
    case 101 => "311141" case 102 => "411131" case 103 => "211412" case 104 => "211214" case 105 => "211232"
    case _ => "2331112"
  }

  function Pattern(v: nat): string
    requires v <= STOP
  {
    if v < 27 then Pattern0(v) else if v < 54 then Pattern27(v) else if v < 81 then Pattern54(v) else Pattern81(v)
  }

  function Patterns(): Table {
    seq(STOP + 1, v requires 0 <= v <= STOP => Pattern(v))
  }

  function Digit(c: char): int {
    c as int - '0' as int
  }

  function Key(p: string): int
    requires |p| == 6
  {
    100000 * Digit(p[0]) + 10000 * Digit(p[1]) + 1000 * Digit(p[2]) + 100 * Digit(p[3]) + 10 * Digit(p[4])
    + Digit(p[5])
  }

  /** The symbol whose widths read as the number `key`. */
  function SymbolOf(key: int): int {
    match key
    case 212222 => 0 case 222122 => 1 case 222221 => 2 case 121223 => 3 case 121322 => 4 case 131222 => 5
    case 122213 => 6 case 122312 => 7 case 132212 => 8 case 221213 => 9 case 221312 => 10 case 231212 => 11
    case 112232 => 12 case 122132 => 13 case 122231 => 14 case 113222 => 15 case 123122 => 16 case 123221 => 17
    case 223211 => 18 case 221132 => 19 case 221231 => 20 case 213212 => 21 case 223112 => 22 case 312131 => 23
    case 311222 => 24 case 321122 => 25 case 321221 => 26 case 312212 => 27 case 322112 => 28 case 322211 => 29
    case 212123 => 30 case 212321 => 31 case 232121 => 32 case 111323 => 33 case 131123 => 34 case 131321 => 35
    case 112313 => 36 case 132113 => 37 case 132311 => 38 case 211313 => 39 case 231113 => 40 case 231311 => 41
    case 112133 => 42 case 112331 => 43 case 132131 => 44 case 113123 => 45 case 113321 => 46 case 133121 => 47
    case 313121 => 48 case 211331 => 49 case 231131 => 50 case 213113 => 51 case 213311 => 52 case 213131 => 53
    case 311123 => 54 case 311321 => 55 case 331121 => 56 case 312113 => 57 case 312311 => 58 case 332111 => 59
    case 314111 => 60 case 221411 => 61 case 431111 => 62 case 111224 => 63 case 111422 => 64 case 121124 => 65
    case 121421 => 66 case 141122 => 67 case 141221 => 68 case 112214 => 69 case 112412 => 70 case 122114 => 71
    case 122411 => 72 case 142112 => 73 case 142211 => 74 case 241211 => 75 case 221114 => 76 case 413111 => 77
    case 241112 => 78 case 134111 => 79 case 111242 => 80 case 121142 => 81 case 121241 => 82 case 114212 => 83
    case 124112 => 84 case 124211 => 85 case 411212 => 86 case 421112 => 87 case 421211 => 88 case 212141 => 89
    case 214121 => 90 case 412121 => 91 case 111143 => 92 case 111341 => 93 case 131141 => 94 case 114113 => 95
    case 114311 => 96 case 411113 => 97 case 411311 => 98 case 113141 => 99 case 114131 => 100 case 311141 => 101
    case 411131 => 102 case 211412 => 103 case 211214 => 104 case 211232 => 105
    case _ => -1
  }

  predicate AreWidths(p: string)
    requires |p| == 6
  {
    '1' <= p[0] <= '4' && '1' <= p[1] <= '4' && '1' <= p[2] <= '4' && '1' <= p[3] <= '4' && '1' <= p[4] <= '4' && '1' <= p[5] <= '4'
  }

  function TotalWidth(p: string): int
    requires |p| == 6
  {
    Digit(p[0]) + Digit(p[1]) + Digit(p[2]) + Digit(p[3]) + Digit(p[4]) + Digit(p[5])
  }

  lemma Patterns0To12(v: nat)
    requires 0 <= v < 13
    ensures var p := Pattern0(v); |p| == 6 && AreWidths(p) && TotalWidth(p) == 11 && SymbolOf(Key(p)) == v
  {
  }

  lemma Patterns13To26(v: nat)
    requires 13 <= v < 27
    ensures var p := Pattern0(v); |p| == 6 && AreWidths(p) && TotalWidth(p) == 11 && SymbolOf(Key(p)) == v
  {
  }

  lemma Patterns27To39(v: nat)
    requires 27 <= v < 40
    ensures var p := Pattern27(v); |p| == 6 && AreWidths(p) && TotalWidth(p) == 11 && SymbolOf(Key(p)) == v
  {
  }

  lemma Patterns40To53(v: nat)
    requires 40 <= v < 54
    ensures var p := Pattern27(v); |p| == 6 && AreWidths(p) && TotalWidth(p) == 11 && SymbolOf(Key(p)) == v
  {
  }

  lemma Patterns54To66(v: nat)
    requires 54 <= v < 67
    ensures var p := Pattern54(v); |p| == 6 && AreWidths(p) && TotalWidth(p) == 11 && SymbolOf(Key(p)) == v
  {
  }

  lemma Patterns67To80(v: nat)
    requires 67 <= v < 81
    ensures var p := Pattern54(v); |p| == 6 && AreWidths(p) && TotalWidth(p) == 11 && SymbolOf(Key(p)) == v
  {
  }

  lemma Patterns81To93(v: nat)
    requires 81 <= v < 94
    ensures var p := Pattern81(v); |p| == 6 && AreWidths(p) && TotalWidth(p) == 11 && SymbolOf(Key(p)) == v
  {
  }

  lemma Patterns94To105(v: nat)
    requires 94 <= v < 106
    ensures var p := Pattern81(v); |p| == 6 && AreWidths(p) && TotalWidth(p) == 11 && SymbolOf(Key(p)) == v
  {
  }

  /** Every pattern but STOP has six widths of 1 to 4 over eleven modules, and its own symbol only. */
  lemma EveryPattern(v: nat)
    requires v < STOP
    ensures var p := Patterns()[v]; |p| == 6 && AreWidths(p) && TotalWidth(p) == 11 && SymbolOf(Key(p)) == v
  {
    if v < 13 {
      Patterns0To12(v);
    } else if v < 27 {
      Patterns13To26(v);
    } else if v < 40 {
      Patterns27To39(v);
    } else if v < 54 {
      Patterns40To53(v);
    } else if v < 67 {
      Patterns54To66(v);
    } else if v < 81 {
      Patterns67To80(v);
    } else if v < 94 {
      Patterns81To93(v);
    } else {
      Patterns94To105(v);
    }
  }
}
