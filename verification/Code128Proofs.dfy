/** The barcode carries exactly its value, in both directions, and its check character catches the usual misreadings. */
module Code128Proofs {
  import opened Wrappers
  import opened Code128
  import opened Code128Table

  // Modules determine their pattern

  predicate HasWidths(pattern: string) {
    forall i | 0 <= i < |pattern| :: WidthOf(pattern[i]) > 0
  }

  function Total(pattern: string): nat {
    if pattern == "" then 0 else WidthOf(pattern[0]) + Total(pattern[1..])
  }

  lemma {:induction false} RunsLength(pattern: string, colour: char)
    ensures |Runs(pattern, colour)| == Total(pattern)
    decreases |pattern|
  {
    if pattern != "" {
      RunsLength(pattern[1..], Other(colour));
    }
  }

  lemma {:induction false} WidthGivesDigit(a: char, b: char)
    requires WidthOf(a) == WidthOf(b) > 0
    ensures a == b
  {
  }

  lemma {:induction false} RunEnds(pattern: string, colour: char, k: nat)
    requires pattern != "" && HasWidths(pattern) && colour in {'0', '1'} && k < |Runs(pattern, colour)|
    ensures k < WidthOf(pattern[0]) ==> Runs(pattern, colour)[k] == colour
    ensures k == WidthOf(pattern[0]) ==> Runs(pattern, colour)[k] != colour
  {
    if k == WidthOf(pattern[0]) {
      var rest := pattern[1..];
      assert Runs(pattern, colour)[k] == Runs(rest, Other(colour))[0];
      assert rest[0] == pattern[1] && WidthOf(pattern[1]) > 0;
    }
  }

  lemma {:induction false} SomeRuns(pattern: string, colour: char)
    requires HasWidths(pattern)
    ensures Runs(pattern, colour) == "" <==> pattern == ""
  {
    if pattern != "" {
      assert WidthOf(pattern[0]) > 0;
    }
  }

  lemma {:induction false} RunsAreInjective(p: string, q: string, colour: char)
    requires HasWidths(p) && HasWidths(q) && colour in {'0', '1'}
    requires Runs(p, colour) == Runs(q, colour)
    ensures p == q
    decreases |p|
  {
    SomeRuns(p, colour);
    SomeRuns(q, colour);
    if p != "" {
      var a, b := WidthOf(p[0]), WidthOf(q[0]);
      if a < b {
        RunEnds(p, colour, a);
        RunEnds(q, colour, a);
      } else if b < a {
        RunEnds(p, colour, b);
        RunEnds(q, colour, b);
      }
      assert a == b;
      WidthGivesDigit(p[0], q[0]);
      assert Runs(p, colour)[a..] == Runs(p[1..], Other(colour));
      assert Runs(q, colour)[a..] == Runs(q[1..], Other(colour));
      assert forall i | 0 <= i < |p[1..]| :: p[1..][i] == p[i + 1];
      assert forall i | 0 <= i < |q[1..]| :: q[1..][i] == q[i + 1];
      RunsAreInjective(p[1..], q[1..], Other(colour));
      assert p == [p[0]] + p[1..] && q == [q[0]] + q[1..];
    }
  }

  // What the proofs need of a table

  predicate IsWellFormed(table: Table) {
    && (forall v | 0 <= v < STOP :: |table[v]| == 6 && HasWidths(table[v]) && Total(table[v]) == 11)
    && |table[STOP]| == 7 && HasWidths(table[STOP]) && Total(table[STOP]) == 13
    && forall v, w | 0 <= v < STOP && 0 <= w < STOP && table[v] == table[w] :: v == w
  }

  lemma {:induction false} TotalOfSix(p: string)
    requires |p| == 6
    ensures Total(p) == WidthOf(p[0]) + WidthOf(p[1]) + WidthOf(p[2]) + WidthOf(p[3]) + WidthOf(p[4]) + WidthOf(p[5])
  {
    var a, b, c, d, e := p[1..], p[2..], p[3..], p[4..], p[5..];
    assert a[1..] == b && b[1..] == c && c[1..] == d && d[1..] == e && e[1..] == "";
    assert Total(e) == WidthOf(p[5]) && Total(d) == WidthOf(p[4]) + Total(e) && Total(c) == WidthOf(p[3]) + Total(d);
    assert Total(b) == WidthOf(p[2]) + Total(c) && Total(a) == WidthOf(p[1]) + Total(b);
  }

  /** Code 128's own table has eleven modules a symbol and no two symbols alike. */
  lemma {:induction false} TheTableIsWellFormed()
    ensures IsWellFormed(Patterns())
  {
    var table := Patterns();
    forall v | 0 <= v < STOP
      ensures |table[v]| == 6 && HasWidths(table[v]) && Total(table[v]) == 11 && SymbolOf(Key(table[v])) == v
    {
      PatternIsGood(v);
    }
    StopPattern();
  }

  lemma {:induction false} PatternIsGood(v: nat)
    requires v < STOP
    ensures var p := Patterns()[v]; |p| == 6 && HasWidths(p) && Total(p) == 11 && SymbolOf(Key(p)) == v
  {
    EveryPattern(v);
    WidthsAreGood(Patterns()[v]);
  }

  lemma {:induction false} WidthsAreGood(p: string)
    requires |p| == 6 && AreWidths(p) && TotalWidth(p) == 11
    ensures HasWidths(p) && Total(p) == 11
  {
    TotalOfSix(p);
  }

  lemma {:induction false} StopPattern()
    ensures var p := Patterns()[STOP]; |p| == 7 && HasWidths(p) && Total(p) == 13
  {
    var p := Patterns()[STOP];
    assert p == "2331112";
    TotalOfSix(p[1..]);
  }

  lemma {:induction false} SymbolLength(table: Table, v: int)
    requires IsWellFormed(table) && 0 <= v <= STOP
    ensures |SymbolModules(table, v)| == if v == STOP then 13 else 11
  {
    RunsLength(table[v], '1');
  }

  /** The table lookup inverts the module writer. */
  lemma {:induction false} LookupFinds(table: Table, v: int, n: nat)
    requires IsWellFormed(table) && 0 <= v < n <= STOP
    ensures Lookup(table, SymbolModules(table, v), n) == Some(v)
    decreases n
  {
    if v != n - 1 {
      if SymbolModules(table, n - 1) == SymbolModules(table, v) {
        RunsAreInjective(table[n - 1], table[v], '1');
      }
      LookupFinds(table, v, n - 1);
    }
  }

  predicate AreData(symbols: seq<int>) {
    forall i | 0 <= i < |symbols| :: 0 <= symbols[i] < STOP
  }

  /** One chunk is read and the rest after it. */
  lemma {:induction false} FirstChunkIsRead(table: Table, v: int, others: string)
    requires IsWellFormed(table) && 0 <= v < STOP && ChunkSymbols(table, others).Some?
    ensures |SymbolModules(table, v)| == 11
    ensures ChunkSymbols(table, SymbolModules(table, v) + others) == Some([v] + ChunkSymbols(table, others).value)
  {
    SymbolLength(table, v);
    LookupFinds(table, v, STOP);
    var m := SymbolModules(table, v) + others;
    assert m[..11] == SymbolModules(table, v) && m[11..] == others;
  }

  lemma {:induction false} ModulesLength(table: Table, symbols: seq<int>)
    requires IsWellFormed(table) && AreData(symbols)
    ensures |AllModules(table, symbols)| == 11 * |symbols|
    decreases |symbols|
  {
    if symbols != [] {
      SymbolLength(table, symbols[0]);
      ModulesLength(table, symbols[1..]);
    }
  }

  lemma {:induction false} ModulesAreChunks(table: Table, symbols: seq<int>)
    requires IsWellFormed(table) && AreData(symbols)
    ensures |AllModules(table, symbols)| % 11 == 0
  {
    ModulesLength(table, symbols);
  }

  lemma {:induction false} ModulesAreRead(table: Table, symbols: seq<int>)
    requires IsWellFormed(table) && AreData(symbols)
    ensures ChunkSymbols(table, AllModules(table, symbols)) == Some(symbols)
    decreases |symbols|
  {
    if symbols != [] {
      var v, rest := symbols[0], symbols[1..];
      assert symbols == [v] + rest;
      ModulesAreRead(table, rest);
      FirstChunkIsRead(table, v, AllModules(table, rest));
    }
  }

  lemma {:induction false} ReadModulesAreThose(table: Table, modules: string)
    requires |modules| % 11 == 0 && ChunkSymbols(table, modules).Some?
    ensures AllModules(table, ChunkSymbols(table, modules).value) == modules
    decreases |modules|
  {
    if |modules| >= 11 {
      ReadModulesAreThose(table, modules[11..]);
      var symbols := ChunkSymbols(table, modules).value;
      assert symbols[1..] == ChunkSymbols(table, modules[11..]).value;
      assert modules == modules[..11] + modules[11..];
    }
  }

  lemma {:induction false} ModulesOfConcat(table: Table, a: seq<int>, b: seq<int>)
    requires forall i | 0 <= i < |a| :: 0 <= a[i] <= STOP
    requires forall i | 0 <= i < |b| :: 0 <= b[i] <= STOP
    ensures AllModules(table, a + b) == AllModules(table, a) + AllModules(table, b)
    decreases |a|
  {
    if a == [] {
      assert a + b == b;
    } else {
      assert (a + b)[1..] == a[1..] + b;
      ModulesOfConcat(table, a[1..], b);
    }
  }

  // The decoder and the encoder

  /** A text that symbol values below STOP can spell. */
  predicate IsSpellable(text: string) {
    text != "" && forall i | 0 <= i < |text| :: 0 <= ValueOf(text[i]) < STOP
  }

  lemma {:induction false} SpelledText(text: string)
    requires forall i | 0 <= i < |text| :: 0 <= ValueOf(text[i]) < STOP
    ensures TextOf(DataOf(text)) == text
  {
  }

  lemma {:induction false} DataOfText(data: seq<int>)
    requires AreData(data)
    ensures DataOf(TextOf(data)) == data
  {
  }

  /** The symbols before STOP. */
  function BodyOf(text: string): seq<int> {
    [START_B] + DataOf(text) + [Checksum(text)]
  }

  lemma {:induction false} BodyIsData(text: string)
    requires IsSpellable(text)
    ensures AreData(BodyOf(text)) && SymbolsOf(text) == BodyOf(text) + [STOP]
  {
    ChecksumRange(text);
  }

  lemma {:induction false} TextOfBody(text: string)
    requires IsSpellable(text)
    ensures AreData(BodyOf(text)) && TextOfSymbols(BodyOf(text)) == Some(text)
  {
    BodyIsData(text);
    var body := BodyOf(text);
    assert body[1..|body| - 1] == DataOf(text);
    SpelledText(text);
  }

  lemma {:induction false} BodyOfText(symbols: seq<int>, text: string)
    requires AreData(symbols) && TextOfSymbols(symbols) == Some(text)
    ensures IsSpellable(text) && BodyOf(text) == symbols
  {
    var data := symbols[1..|symbols| - 1];
    assert AreData(data);
    DataOfText(data);
    assert symbols == [symbols[0]] + data + [symbols[|symbols| - 1]];
  }

  function ModulesOf(table: Table, text: string): string
    requires IsSpellable(text)
  {
    BodyIsData(text);
    AllModules(table, SymbolsOf(text))
  }

  lemma {:induction false} ModulesEndInStop(table: Table, text: string)
    requires IsWellFormed(table) && IsSpellable(text) && AreData(BodyOf(text))
    ensures ModulesOf(table, text) == AllModules(table, BodyOf(text)) + SymbolModules(table, STOP)
  {
    BodyIsData(text);
    ModulesOfConcat(table, BodyOf(text), [STOP]);
    assert AllModules(table, [STOP]) == SymbolModules(table, STOP) + AllModules(table, [STOP][1..]);
    assert AllModules(table, [STOP][1..]) == "";
  }

  lemma {:induction false} DecodeBody(table: Table, body: string)
    requires |body| % 11 == 0 && ChunkSymbols(table, body).Some?
    ensures Decode(table, body + SymbolModules(table, STOP)) == TextOfSymbols(ChunkSymbols(table, body).value)
  {
    var modules := body + SymbolModules(table, STOP);
    assert modules[..|body|] == body;
  }

  lemma {:induction false} SymbolDecodes(table: Table, text: string)
    requires IsWellFormed(table) && IsSpellable(text)
    ensures Decode(table, ModulesOf(table, text)) == Some(text)
  {
    var body := BodyOf(text);
    TextOfBody(text);
    ModulesEndInStop(table, text);
    ModulesAreRead(table, body);
    ModulesAreChunks(table, body);
    DecodeBody(table, AllModules(table, body));
  }

  lemma {:induction false} DecodedIsASymbol(table: Table, modules: string, text: string)
    requires IsWellFormed(table) && Decode(table, modules) == Some(text)
    ensures IsSpellable(text) && modules == ModulesOf(table, text)
  {
    var n := |modules| - |SymbolModules(table, STOP)|;
    var body := modules[..n];
    assert modules == body + modules[n..];
    ReadModulesAreThose(table, body);
    BodyOfText(ChunkSymbols(table, body).value, text);
    ModulesEndInStop(table, text);
  }

  /** A module string decodes to `text` exactly when it is the symbol of `text`, whatever the string. */
  lemma {:induction false} DecodesExactly(table: Table, modules: string, text: string)
    requires IsWellFormed(table)
    ensures Decode(table, modules) == Some(text) <==> IsSpellable(text) && modules == ModulesOf(table, text)
  {
    if Decode(table, modules) == Some(text) {
      DecodedIsASymbol(table, modules, text);
    } else if IsSpellable(text) {
      SymbolDecodes(table, text);
    }
  }

  lemma {:induction false} EncodableIsSpellable(text: string)
    requires IsEncodable(text)
    ensures IsSpellable(text)
  {
  }

  /** What is encoded decodes to itself, and a barcode that decodes to an encodable text is that text's only encoding. */
  lemma {:induction false} Code128RoundTrip(modules: string, text: string)
    requires IsEncodable(text)
    ensures Decode(Patterns(), modules) == Some(text) <==> modules == Encode(Patterns(), text).value.modules
  {
    TheTableIsWellFormed();
    EncodableIsSpellable(text);
    DecodesExactly(Patterns(), modules, text);
  }

  /** The decoder also reads barcodes that the encoder never writes: DEL, symbol value 95, is one such text. */
  lemma {:induction false} DecodesMoreThanItEncodes() returns (modules: string, text: string)
    ensures Decode(Patterns(), modules) == Some(text) && Encode(Patterns(), text).None?
  {
    text := "\U{007F}";
    TheTableIsWellFormed();
    assert ValueOf(text[0]) == 95;
    modules := ModulesOf(Patterns(), text);
    DecodesExactly(Patterns(), modules, text);
  }

  // The check character

  lemma {:induction false} WeightedUpdate(value: string, i: nat, c: char)
    requires i < |value|
    ensures Weighted(value[i := c]) == Weighted(value) + (i + 1) * (ValueOf(c) - ValueOf(value[i]))
    decreases |value|
  {
    var changed := value[i := c];
    if i == |value| - 1 {
      assert changed[..i] == value[..i];
      assert (i + 1) * ValueOf(c) - (i + 1) * ValueOf(value[i]) == (i + 1) * (ValueOf(c) - ValueOf(value[i]));
    } else {
      assert changed[..|value| - 1] == value[..|value| - 1][i := c];
      WeightedUpdate(value[..|value| - 1], i, c);
    }
  }

  lemma {:induction false} SameRemainder(a: nat, b: nat)
    ensures a % 103 == b % 103 <==> (a - b) % 103 == 0
  {
  }

  lemma {:induction false} NoDivisor(d: nat)
    requires 2 <= d <= 102
    ensures 103 % d != 0
  {
  }

  /** 103 is prime: it divides a product with a smaller positive factor only by dividing the other one. */
  lemma {:induction false} DividesTheOther(d: nat, n: int)
    requires 0 < d < 103 && (d * n) % 103 == 0
    ensures n % 103 == 0
    decreases d
  {
    if d > 1 {
      var q, r, k := 103 / d, 103 % d, d * n / 103;
      NoDivisor(d);
      RemainderTimes(d, q, r, n, k);
      MultipleOf103(n - q * k);
      DividesTheOther(r, n);
    }
  }

  lemma {:induction false} MultipleOf103(m: int)
    ensures (103 * m) % 103 == 0
  {
  }

  lemma {:induction false} RemainderTimes(d: int, q: int, r: int, n: int, k: int)
    requires 103 == q * d + r && d * n == 103 * k
    ensures r * n == 103 * (n - q * k)
  {
    calc {
      103 * n;
      (q * d + r) * n;
      q * d * n + r * n;
      q * (d * n) + r * n;
      q * (103 * k) + r * n;
      103 * (q * k) + r * n;
    }
  }

  /** The product of a position and a difference of values is a multiple of 103 only where the position is. */
  lemma {:induction false} PositionDivides(n: nat, difference: int)
    requires -103 < difference < 103 && difference != 0
    ensures (n * difference) % 103 == 0 <==> n % 103 == 0
  {
    if (n * difference) % 103 == 0 {
      if difference > 0 {
        assert difference * n == n * difference;
        DividesTheOther(difference, n);
      } else {
        assert -difference * n == -(n * difference);
        NegatedMultiple(n * difference);
        DividesTheOther(-difference, n);
      }
    }
    if n % 103 == 0 {
      var k := n / 103;
      assert n * difference == 103 * k * difference == 103 * (k * difference);
      MultipleOf103(k * difference);
    }
  }

  lemma {:induction false} NegatedMultiple(a: int)
    requires a % 103 == 0
    ensures -a % 103 == 0
  {
  }

  lemma {:induction false} ChecksumsAgree(a: string, b: string)
    requires AreValues(a) && AreValues(b)
    ensures Checksum(a) == Checksum(b) <==> (Weighted(b) - Weighted(a)) % 103 == 0
  {
    ChecksumRange(a);
    ChecksumRange(b);
    WeightedIsPositive(a);
    WeightedIsPositive(b);
    SameRemainder(START_B + Weighted(b), START_B + Weighted(a));
  }

  lemma {:induction false} UpdateKeepsEncodable(value: string, i: nat, c: char)
    requires IsEncodable(value) && i < |value| && FIRST_B <= c as int <= LAST_B
    ensures IsEncodable(value[i := c])
  {
  }

  /** One character replaced changes the check character unless its position is a multiple of 103. */
  lemma {:induction false} ReplacementIsCaught(value: string, i: nat, c: char)
    requires IsEncodable(value) && i < |value| && FIRST_B <= c as int <= LAST_B && c != value[i]
    ensures Checksum(value[i := c]) == Checksum(value) <==> (i + 1) % 103 == 0
  {
    WeightedUpdate(value, i, c);
    UpdateKeepsEncodable(value, i, c);
    ChecksumsAgree(value, value[i := c]);
    PositionDivides(i + 1, ValueOf(c) - ValueOf(value[i]));
  }

  function Swapped(value: string, i: nat, j: nat): string
    requires i < j < |value|
  {
    value[i := value[j]][j := value[i]]
  }

  lemma {:induction false} SecondMove(value: string, i: nat, j: nat)
    requires i < j < |value|
    ensures Weighted(Swapped(value, i, j))
         == Weighted(value[i := value[j]]) + (j + 1) * (ValueOf(value[i]) - ValueOf(value[j]))
  {
    var once := value[i := value[j]];
    assert once[j] == value[j];
    WeightedUpdate(once, j, value[i]);
  }

  lemma {:induction false} SwapWeight(value: string, i: nat, j: nat)
    requires i < j < |value|
    ensures Weighted(Swapped(value, i, j)) - Weighted(value) == (j - i) * (ValueOf(value[i]) - ValueOf(value[j]))
  {
    var once := value[i := value[j]];
    WeightedUpdate(value, i, value[j]);
    SecondMove(value, i, j);
    TwoMoves(i, j, ValueOf(value[i]), ValueOf(value[j]), Weighted(value), Weighted(once), Weighted(Swapped(value, i, j)));
  }

  lemma {:induction false} TwoMoves(i: int, j: int, a: int, b: int, before: int, between: int, after: int)
    requires between == before + (i + 1) * (b - a) && after == between + (j + 1) * (a - b)
    ensures after - before == (j - i) * (a - b)
  {
    assert (i + 1) * (b - a) == -(i + 1) * (a - b);
    assert (j + 1) * (a - b) - (i + 1) * (a - b) == (j - i) * (a - b);
  }

  /** Two different characters exchanged change the check character unless 103 divides their distance. */
  lemma {:induction false} SwapIsCaught(value: string, i: nat, j: nat)
    requires IsEncodable(value) && i < j < |value| && value[i] != value[j]
    ensures Checksum(Swapped(value, i, j)) == Checksum(value) <==> (j - i) % 103 == 0
  {
    SwapWeight(value, i, j);
    UpdateKeepsEncodable(value, i, value[j]);
    UpdateKeepsEncodable(value[i := value[j]], j, value[i]);
    ChecksumsAgree(value, Swapped(value, i, j));
    PositionDivides(j - i, ValueOf(value[i]) - ValueOf(value[j]));
  }

  /** Adjacent characters exchanged are caught in a value of any length. */
  lemma {:induction false} AdjacentSwapIsCaught(value: string, i: nat)
    requires IsEncodable(value) && i + 1 < |value| && value[i] != value[i + 1]
    ensures Checksum(Swapped(value, i, i + 1)) != Checksum(value)
  {
    SwapIsCaught(value, i, i + 1);
  }
}
