/** Code 128, code set B (ISO/IEC 15417). */
module Code128 {
  // Code 128, code set B (ISO/IEC 15417): the encoder and the decoder. A symbol is three bars and
  // three spaces over eleven modules; STOP has a fourth bar. A module string writes '1' for bar and
  // '0' for space. The table of bar and space widths is a parameter here; `Code128Table` holds it.

  import opened Wrappers

  const START_B := 104
  const STOP := 106
  const QUIET_ZONE_MODULES := 10
  const FIRST_B := 0x20
  const LAST_B := 0x7e

  // Values

  predicate IsEncodable(value: string) {
    value != "" && forall i | 0 <= i < |value| :: FIRST_B <= value[i] as int <= LAST_B
  }

  method IsCode128BEncodable(value: string) returns (yes: bool)
    ensures yes <==> IsEncodable(value)
  {
    if |value| == 0 {
      return false;
    }
    for i := 0 to |value|
      invariant forall k | 0 <= k < i :: FIRST_B <= value[k] as int <= LAST_B
    {
      var code := value[i] as int;
      if code < FIRST_B || code > LAST_B {
        return false;
      }
    }
    return true;
  }

  // The symbol check character (ISO/IEC 15417, Annex A)

  function ValueOf(c: char): int {
    c as int - FIRST_B
  }

  /** The symbol values of `value`, each times its position counted from one. */
  function Weighted(value: string): int {
    if value == "" then 0 else Weighted(value[..|value| - 1]) + |value| * ValueOf(value[|value| - 1])
  }

  /** The remainder that takes the sign of its dividend. */
  function Rem(a: int, b: nat): int
    requires b > 0
  {
    if a >= 0 then a % b else -(-a % b)
  }

  function Checksum(value: string): int {
    Rem(START_B + Weighted(value), 103)
  }

  method Code128BChecksum(value: string) returns (checksum: int)
    ensures checksum == Checksum(value)
  {
    var sum := START_B;
    for i := 0 to |value|
      invariant sum == START_B + Weighted(value[..i])
    {
      assert value[..i + 1][..i] == value[..i];
      sum := sum + (i + 1) * ValueOf(value[i]);
    }
    assert value[..|value|] == value;
    return Rem(sum, 103);
  }

  // Modules

  function WidthOf(c: char): nat {
    if '0' <= c <= '9' then c as int - '0' as int else 0
  }

  function Repeat(c: char, n: nat): (s: string)
    ensures |s| == n && forall i | 0 <= i < n :: s[i] == c
  {
    seq(n, i => c)
  }

  function Other(colour: char): char {
    if colour == '1' then '0' else '1'
  }

  /** The runs of a pattern, the first in `colour` and each next one in the other. */
  function Runs(pattern: string, colour: char): string {
    if pattern == "" then "" else Repeat(colour, WidthOf(pattern[0])) + Runs(pattern[1..], Other(colour))
  }

  method PatternModules(pattern: string) returns (out: string)
    ensures out == Runs(pattern, '1')
  {
    out := "";
    for i := 0 to |pattern|
      invariant Runs(pattern, '1') == out + Runs(pattern[i..], if i % 2 == 0 then '1' else '0')
    {
      ghost var left := pattern[i..];
      assert left[0] == pattern[i] && left[1..] == pattern[i + 1..];
      var colour := if i % 2 == 0 then '1' else '0';
      ghost var rest := Runs(pattern[i + 1..], Other(colour));
      assert out + (Repeat(colour, WidthOf(pattern[i])) + rest) == out + Repeat(colour, WidthOf(pattern[i])) + rest;
      out := out + Repeat(colour, WidthOf(pattern[i]));
    }
  }

  /** A pattern for every symbol value from 0 to STOP. */
  type Table = t: seq<string> | |t| == STOP + 1 witness seq(STOP + 1, i => "")

  function SymbolModules(table: Table, v: int): string
    requires 0 <= v <= STOP
  {
    Runs(table[v], '1')
  }

  function AllModules(table: Table, symbols: seq<int>): string
    requires forall i | 0 <= i < |symbols| :: 0 <= symbols[i] <= STOP
  {
    if symbols == [] then "" else SymbolModules(table, symbols[0]) + AllModules(table, symbols[1..])
  }

  // Encoding

  datatype Encoding = Encoding(symbols: seq<int>, checksum: int, modules: string)

  function DataOf(value: string): (data: seq<int>)
    ensures |data| == |value|
  {
    seq(|value|, i requires 0 <= i < |value| => ValueOf(value[i]))
  }

  function SymbolsOf(value: string): seq<int> {
    [START_B] + DataOf(value) + [Checksum(value), STOP]
  }

  predicate AreValues(value: string) {
    forall i | 0 <= i < |value| :: FIRST_B <= value[i] as int
  }

  lemma {:induction false} WeightedIsPositive(value: string)
    requires AreValues(value)
    ensures Weighted(value) >= 0
    decreases |value|
  {
    if value != "" {
      WeightedIsPositive(value[..|value| - 1]);
    }
  }

  lemma ChecksumRange(value: string)
    requires AreValues(value)
    ensures 0 <= Checksum(value) <= 102
    ensures Checksum(value) == (START_B + Weighted(value)) % 103
  {
    WeightedIsPositive(value);
  }

  /** Printable ASCII, encoded exactly as given; anything else is refused. */
  function Encode(table: Table, value: string): Option<Encoding> {
    if !IsEncodable(value) then None
    else
      ChecksumRange(value);
      Some(Encoding(SymbolsOf(value), Checksum(value), AllModules(table, SymbolsOf(value))))
  }

  // Decoding

  /** The last of the symbols below `n` whose modules are `chunk`, as a map filled in table order finds it. */
  function Lookup(table: Table, chunk: string, n: nat): (v: Option<int>)
    requires n <= STOP
    ensures v.Some? ==> 0 <= v.value < n && SymbolModules(table, v.value) == chunk
  {
    if n == 0 then None
    else if SymbolModules(table, n - 1) == chunk then Some(n - 1)
    else Lookup(table, chunk, n - 1)
  }

  /** The symbols of the whole chunks of eleven modules, if each is in the table. */
  function ChunkSymbols(table: Table, modules: string): (symbols: Option<seq<int>>)
    ensures symbols.Some? ==> forall i | 0 <= i < |symbols.value| :: 0 <= symbols.value[i] < STOP
  {
    if |modules| < 11 then Some([])
    else
      var first, rest := Lookup(table, modules[..11], STOP), ChunkSymbols(table, modules[11..]);
      if first.None? || rest.None? then None else Some([first.value] + rest.value)
  }

  /** `String.fromCharCode` of the symbol values. */
  function TextOf(data: seq<int>): (text: string)
    requires forall i | 0 <= i < |data| :: 0 <= data[i] < STOP
    ensures |text| == |data|
  {
    seq(|data|, i requires 0 <= i < |data| => (data[i] + FIRST_B) as char)
  }

  function TextOfSymbols(symbols: seq<int>): Option<string>
    requires forall i | 0 <= i < |symbols| :: 0 <= symbols[i] < STOP
  {
    if |symbols| < 3 || symbols[0] != START_B then None
    else
      var text := TextOf(symbols[1..|symbols| - 1]);
      if Checksum(text) == symbols[|symbols| - 1] then Some(text) else None
  }

  predicate EndsWith(s: string, tail: string) {
    |s| >= |tail| && s[|s| - |tail|..] == tail
  }

  function Decode(table: Table, modules: string): Option<string> {
    var stop := SymbolModules(table, STOP);
    if !EndsWith(modules, stop) || (|modules| - |stop|) % 11 != 0 then None
    else
      match ChunkSymbols(table, modules[..|modules| - |stop|])
      case None => None
      case Some(symbols) => TextOfSymbols(symbols)
  }

  /** The decoder's loop over the chunks. */
  method ReadChunks(table: Table, body: string) returns (symbols: Option<seq<int>>)
    requires |body| % 11 == 0
    ensures symbols == ChunkSymbols(table, body)
  {
    var read: seq<int> := [];
    var i := 0;
    assert body[0..] == body;
    ThenNothing(ChunkSymbols(table, body));
    while i < |body|
      invariant 0 <= i <= |body| && (|body| - i) % 11 == 0
      invariant ChunkSymbols(table, body) == Then(read, ChunkSymbols(table, body[i..]))
    {
      assert body[i..][..11] == body[i..i + 11] && body[i..][11..] == body[i + 11..];
      var value := Lookup(table, body[i..i + 11], STOP);
      if value.None? {
        return None;
      }
      ThenTwice(read, [value.value], ChunkSymbols(table, body[i + 11..]));
      read := read + [value.value];
      i := i + 11;
    }
    assert body[i..] == "" && read + [] == read;
    return Some(read);
  }

  method DecodeCode128B(table: Table, modules: string) returns (text: Option<string>)
    ensures text == Decode(table, modules)
  {
    var stop := PatternModules(table[STOP]);
    if !EndsWith(modules, stop) || (|modules| - |stop|) % 11 != 0 {
      return None;
    }
    var symbols := ReadChunks(table, modules[..|modules| - |stop|]);
    if symbols.None? || |symbols.value| < 3 || symbols.value[0] != START_B {
      return None;
    }
    var decoded := TextOf(symbols.value[1..|symbols.value| - 1]);
    var checksum := Code128BChecksum(decoded);
    return if checksum == symbols.value[|symbols.value| - 1] then Some(decoded) else None;
  }
}
