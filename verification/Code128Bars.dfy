/**
 * The bars that are drawn for a string of modules: exactly its maximal runs of '1', each moved by the quiet zone. They paint
 * every '1' and nothing else, have a width, are in order and never touch; no other list of bars does that, and an encoded
 * value has three bars for each symbol and four for STOP.
 */
module Code128Bars {
  import opened Wrappers
  import opened Code128
  import opened Code128Table
  import opened Code128Proofs

  datatype Bar = Bar(start: int, width: int)

  predicate Covers(b: Bar, k: int) {
    b.start <= k < b.start + b.width
  }

  ghost predicate IsCovered(bars: seq<Bar>, k: int) {
    exists i | 0 <= i < |bars| :: Covers(bars[i], k)
  }

  /** The bars paint the modules below `n`, shifted by `quiet`: they have a width, and neither overlap nor touch. */
  ghost predicate Paint(bars: seq<Bar>, modules: string, quiet: int, n: nat)
    requires n <= |modules|
  {
    && (forall i | 0 <= i < |bars| :: bars[i].width > 0 && quiet <= bars[i].start && bars[i].start + bars[i].width <= quiet + n)
    && (forall i, j | 0 <= i < j < |bars| :: bars[i].start + bars[i].width < bars[j].start)
    && (forall k | 0 <= k < n :: modules[k] == '1' <==> IsCovered(bars, k + quiet))
  }

  /** Where the runs of '1' begin. */
  function Starts(modules: string): nat {
    if modules == "" then 0
    else
      var n := |modules| - 1;
      Starts(modules[..n]) + if modules[n] == '1' && (n == 0 || modules[n - 1] != '1') then 1 else 0
  }

  lemma {:induction false} StartsOneMore(modules: string, n: nat)
    requires n < |modules|
    ensures Starts(modules[..n + 1])
         == Starts(modules[..n]) + if modules[n] == '1' && (n == 0 || modules[n - 1] != '1') then 1 else 0
  {
    assert modules[..n + 1][..n] == modules[..n];
  }

  lemma {:induction false} PaintSpace(bars: seq<Bar>, modules: string, quiet: int, n: nat)
    requires n < |modules| && Paint(bars, modules, quiet, n) && modules[n] != '1'
    ensures Paint(bars, modules, quiet, n + 1)
  {
  }

  lemma {:induction false} PaintBar(bars: seq<Bar>, modules: string, quiet: int, i: nat, j: nat)
    requires i < j <= |modules| && Paint(bars, modules, quiet, i)
    requires forall k | i <= k < j :: modules[k] == '1'
    requires i > 0 ==> modules[i - 1] != '1'
    ensures Paint(bars + [Bar(i + quiet, j - i)], modules, quiet, j)
  {
    var bar := Bar(i + quiet, j - i);
    var all := bars + [bar];
    if bars != [] {
      var last := bars[|bars| - 1];
      if last.start + last.width == quiet + i {
        assert Covers(last, i - 1 + quiet);
        assert IsCovered(bars, i - 1 + quiet);
      }
    }
    forall k | 0 <= k < j
      ensures modules[k] == '1' <==> IsCovered(all, k + quiet)
    {
      if k < i {
        if IsCovered(bars, k + quiet) {
          var b :| 0 <= b < |bars| && Covers(bars[b], k + quiet);
          assert Covers(all[b], k + quiet);
        }
      } else {
        assert Covers(all[|bars|], k + quiet);
      }
    }
  }

  /** The bar finder: one bar a run of '1', as many as there are run starts. */
  method Bars(modules: string, quietZone: int) returns (bars: seq<Bar>)
    ensures Paint(bars, modules, quietZone, |modules|)
    ensures |bars| == Starts(modules)
  {
    bars := [];
    var i := 0;
    while i < |modules|
      invariant 0 <= i <= |modules|
      invariant Paint(bars, modules, quietZone, i)
      invariant |bars| == Starts(modules[..i])
      invariant 0 < i < |modules| && modules[i] == '1' ==> modules[i - 1] != '1'
    {
      StartsOneMore(modules, i);
      if modules[i] == '1' {
        var j := i;
        while j < |modules| && modules[j] == '1'
          invariant i <= j <= |modules|
          invariant forall k | i <= k < j :: modules[k] == '1'
          invariant Starts(modules[..j]) == |bars| + if j > i then 1 else 0
        {
          StartsOneMore(modules, j);
          j := j + 1;
        }
        PaintBar(bars, modules, quietZone, i, j);
        bars := bars + [Bar(i + quietZone, j - i)];
        i := j;
      } else {
        PaintSpace(bars, modules, quietZone, i);
        i := i + 1;
      }
    }
    assert modules[..i] == modules;
  }

  // The painting has only one list of bars

  lemma {:induction false} PaintingIsUnique(a: seq<Bar>, b: seq<Bar>, modules: string, quiet: int, n: nat)
    requires n <= |modules| && Paint(a, modules, quiet, n) && Paint(b, modules, quiet, n)
    ensures a == b
    decreases |a|
  {
    SomeBars(a, b, modules, quiet, n);
    SomeBars(b, a, modules, quiet, n);
    if a != [] {
      var last := a[|a| - 1];
      LastBarReaches(a, b, modules, quiet, n);
      LastBarReaches(b, a, modules, quiet, n);
      LastBarBegins(a, b, modules, quiet, n);
      LastBarBegins(b, a, modules, quiet, n);
      PaintFront(a, modules, quiet, n);
      PaintFront(b, modules, quiet, n);
      PaintingIsUnique(a[..|a| - 1], b[..|b| - 1], modules, quiet, last.start - quiet);
      assert a == a[..|a| - 1] + [last] && b == b[..|b| - 1] + [last];
    }
  }

  lemma {:induction false} SameCover(a: seq<Bar>, b: seq<Bar>, modules: string, quiet: int, n: nat, k: int)
    requires n <= |modules| && Paint(a, modules, quiet, n) && Paint(b, modules, quiet, n) && quiet <= k < quiet + n
    ensures IsCovered(a, k) <==> IsCovered(b, k)
  {
    var m := k - quiet;
    assert modules[m] == '1' <==> IsCovered(a, m + quiet);
    assert modules[m] == '1' <==> IsCovered(b, m + quiet);
  }

  lemma {:induction false} SomeBars(a: seq<Bar>, b: seq<Bar>, modules: string, quiet: int, n: nat)
    requires n <= |modules| && Paint(a, modules, quiet, n) && Paint(b, modules, quiet, n)
    ensures a != [] ==> b != []
  {
    if a != [] {
      assert Covers(a[0], a[0].start);
      assert IsCovered(a, a[0].start);
      SameCover(a, b, modules, quiet, n, a[0].start);
    }
  }

  lemma {:induction false} LastBarReaches(a: seq<Bar>, b: seq<Bar>, modules: string, quiet: int, n: nat)
    requires n <= |modules| && Paint(a, modules, quiet, n) && Paint(b, modules, quiet, n) && a != [] && b != []
    ensures a[|a| - 1].start + a[|a| - 1].width <= b[|b| - 1].start + b[|b| - 1].width
  {
    var k := a[|a| - 1].start + a[|a| - 1].width - 1;
    assert Covers(a[|a| - 1], k);
    assert IsCovered(a, k);
    SameCover(a, b, modules, quiet, n, k);
    var i :| 0 <= i < |b| && Covers(b[i], k);
    assert i < |b| - 1 ==> b[i].start + b[i].width < b[|b| - 1].start;
  }

  lemma {:induction false} NothingJustBefore(bars: seq<Bar>, modules: string, quiet: int, n: nat)
    requires n <= |modules| && Paint(bars, modules, quiet, n) && bars != []
    ensures !IsCovered(bars, bars[|bars| - 1].start - 1)
  {
    forall i | 0 <= i < |bars|
      ensures !Covers(bars[i], bars[|bars| - 1].start - 1)
    {
      assert i < |bars| - 1 ==> bars[i].start + bars[i].width < bars[|bars| - 1].start;
    }
  }

  lemma {:induction false} LastBarBegins(a: seq<Bar>, b: seq<Bar>, modules: string, quiet: int, n: nat)
    requires n <= |modules| && Paint(a, modules, quiet, n) && Paint(b, modules, quiet, n) && a != [] && b != []
    requires a[|a| - 1].start + a[|a| - 1].width == b[|b| - 1].start + b[|b| - 1].width
    ensures b[|b| - 1].start <= a[|a| - 1].start
  {
    var x, y := a[|a| - 1], b[|b| - 1];
    if x.start < y.start {
      var k := y.start - 1;
      assert Covers(x, k);
      assert IsCovered(a, k);
      SameCover(a, b, modules, quiet, n, k);
      NothingJustBefore(b, modules, quiet, n);
    }
  }

  lemma {:induction false} PaintFront(bars: seq<Bar>, modules: string, quiet: int, n: nat)
    requires n <= |modules| && Paint(bars, modules, quiet, n) && bars != []
    ensures Paint(bars[..|bars| - 1], modules, quiet, bars[|bars| - 1].start - quiet)
  {
    var front, last := bars[..|bars| - 1], bars[|bars| - 1];
    forall k | 0 <= k < last.start - quiet
      ensures modules[k] == '1' <==> IsCovered(front, k + quiet)
    {
      if IsCovered(bars, k + quiet) {
        var i :| 0 <= i < |bars| && Covers(bars[i], k + quiet);
        assert Covers(front[i], k + quiet);
      }
      if IsCovered(front, k + quiet) {
        var i :| 0 <= i < |front| && Covers(front[i], k + quiet);
        assert Covers(bars[i], k + quiet);
      }
    }
  }

  // How many bars an encoded value has

  predicate Ends(modules: string, colour: char) {
    modules != "" && modules[|modules| - 1] == colour
  }

  predicate Begins(modules: string, colour: char) {
    modules != "" && modules[0] == colour
  }

  lemma {:induction false} StartsConcat(a: string, b: string)
    requires !(Ends(a, '1') && Begins(b, '1'))
    ensures Starts(a + b) == Starts(a) + Starts(b)
    decreases |b|
  {
    if b == "" {
      assert a + b == a;
    } else {
      var n := |b| - 1;
      StartsConcat(a, b[..n]);
      assert (a + b)[..|a| + n] == a + b[..n];
    }
  }

  lemma {:induction false} StartsOfRun(colour: char, n: nat)
    requires n > 0
    ensures Starts(Repeat(colour, n)) == if colour == '1' then 1 else 0
    decreases n
  {
    var run := Repeat(colour, n);
    assert run[..n - 1] == Repeat(colour, n - 1);
    if n > 1 {
      StartsOfRun(colour, n - 1);
    }
  }

  /** Every second run of a pattern is a bar. */
  /** Of `n` alternating runs, those that are bars. */
  function BarRuns(n: nat, barFirst: bool): nat {
    if n == 0 then 0 else (if barFirst then 1 else 0) + BarRuns(n - 1, !barFirst)
  }

  lemma {:induction false} BarRunsIsHalf(n: nat, barFirst: bool)
    ensures BarRuns(n, barFirst) == (n + if barFirst then 1 else 0) / 2
  {
    if n > 0 {
      BarRunsIsHalf(n - 1, !barFirst);
    }
  }

  lemma {:induction false} RunsBegin(pattern: string, colour: char)
    requires HasWidths(pattern) && pattern != "" && colour in {'0', '1'}
    ensures Begins(Runs(pattern, colour), colour)
  {
    assert WidthOf(pattern[0]) > 0;
  }

  lemma {:induction false} RestHasWidths(pattern: string)
    requires HasWidths(pattern) && pattern != ""
    ensures HasWidths(pattern[1..]) && WidthOf(pattern[0]) > 0
  {
    assert forall i | 0 <= i < |pattern[1..]| :: pattern[1..][i] == pattern[i + 1];
  }

  lemma {:induction false} StartsOfRuns(pattern: string, colour: char)
    requires HasWidths(pattern) && colour in {'0', '1'}
    ensures Starts(Runs(pattern, colour)) == BarRuns(|pattern|, colour == '1')
    ensures Ends(Runs(pattern, colour), '1') <==> pattern != "" && (|pattern| % 2 == 1 <==> colour == '1')
    decreases |pattern|
  {
    if pattern != "" {
      var rest := pattern[1..];
      RestHasWidths(pattern);
      StartsOfRuns(rest, Other(colour));
      if rest != "" {
        RunsBegin(rest, Other(colour));
      }
      RunBefore(colour, WidthOf(pattern[0]), Runs(rest, Other(colour)));
    }
  }

  lemma {:induction false} RunBefore(colour: char, n: nat, rest: string)
    requires colour in {'0', '1'} && n > 0 && !Begins(rest, colour)
    ensures Starts(Repeat(colour, n) + rest) == Starts(rest) + if colour == '1' then 1 else 0
    ensures Begins(Repeat(colour, n) + rest, colour)
    ensures Ends(Repeat(colour, n) + rest, '1') <==> if rest == "" then colour == '1' else Ends(rest, '1')
  {
    StartsOfRun(colour, n);
    StartsConcat(Repeat(colour, n), rest);
  }

  lemma {:induction false} StartsOfData(table: Table, symbols: seq<int>)
    requires IsWellFormed(table) && AreData(symbols)
    ensures Starts(AllModules(table, symbols)) == 3 * |symbols|
    ensures !Ends(AllModules(table, symbols), '1')
    decreases |symbols|
  {
    if symbols != [] {
      var v, rest := symbols[0], symbols[1..];
      StartsOfSymbol(table, v);
      StartsOfData(table, rest);
      StartsConcat(SymbolModules(table, v), AllModules(table, rest));
      EndsConcat(SymbolModules(table, v), AllModules(table, rest));
    }
  }

  lemma {:induction false} StartsOfSymbol(table: Table, v: int)
    requires IsWellFormed(table) && 0 <= v < STOP
    ensures Starts(SymbolModules(table, v)) == 3 && !Ends(SymbolModules(table, v), '1')
  {
    StartsOfRuns(table[v], '1');
    BarRunsIsHalf(|table[v]|, true);
  }

  lemma {:induction false} EndsConcat(a: string, b: string)
    ensures Ends(a + b, '1') <==> if b == "" then Ends(a, '1') else Ends(b, '1')
  {
    assert b == "" ==> a + b == a;
  }

  /** The bars of an encoded value of length n: three a symbol for START, the data and the check character, four for STOP. */
  lemma {:induction false} BarsOfAnEncoding(value: string)
    requires IsEncodable(value)
    ensures Starts(Encode(Patterns(), value).value.modules) == 3 * (|value| + 2) + 4
  {
    var table := Patterns();
    TheTableIsWellFormed();
    EncodableIsSpellable(value);
    BodyIsData(value);
    ModulesEndInStop(table, value);
    StartsOfData(table, BodyOf(value));
    StartsOfRuns(table[STOP], '1');
    BarRunsIsHalf(|table[STOP]|, true);
    RunsBegin(table[STOP], '1');
    StartsConcat(AllModules(table, BodyOf(value)), SymbolModules(table, STOP));
  }

  /** A value drawn: the only bars that paint its symbol, and their number. */
  method Draw(value: string) returns (bars: seq<Bar>)
    requires IsEncodable(value)
    ensures Paint(bars, Encode(Patterns(), value).value.modules, QUIET_ZONE_MODULES,
                  |Encode(Patterns(), value).value.modules|)
    ensures |bars| == 3 * (|value| + 2) + 4
  {
    var encoding := Encode(Patterns(), value);
    bars := Bars(encoding.value.modules, QUIET_ZONE_MODULES);
    BarsOfAnEncoding(value);
  }
}
