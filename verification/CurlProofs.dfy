/** The exported command is faithful. */
module CurlProofs {
  // The exported command is faithful: the shell turns its words back into what was stored exactly
  // when the operator fills in the values that were cut out, and the cut leaves nothing of those
  // values behind.

  import opened Wrappers
  import opened CurlExport
  import Text

  // Words of the shell (sections 2.2.2 and 2.2.3 of the POSIX.1-2017 Shell Command Language)

  datatype Quoting = Bare | InSingle | InDouble

  predicate StartsName(c: char) {
    'A' <= c <= 'Z' || 'a' <= c <= 'z' || c == '_'
  }

  predicate InName(c: char) {
    StartsName(c) || '0' <= c <= '9'
  }

  predicate IsName(s: string) {
    s != "" && StartsName(s[0]) && forall i | 0 <= i < |s| :: InName(s[i])
  }

  /** How many characters from the start belong to a name. */
  function NameLength(s: string): (n: nat)
    ensures n <= |s|
  {
    if s == "" || !InName(s[0]) then 0 else 1 + NameLength(s[1..])
  }

  /** Characters that end a word or mean something else to the shell when no quotes protect them. */
  predicate IsSpecialBare(c: char) {
    c in {'|', '&', ';', '<', '>', '(', ')', '$', '`', ' ', '\t', '\n', '*', '?', '[', '#', '~', '=', '%'}
  }

  function Value(env: map<string, string>, name: string): string {
    if name in env then env[name] else ""
  }

  /**
   * What one word expands to. Single quotes keep every character; double quotes keep all but the quote, the backslash
   * before one of its specials, and a parameter; outside quotes a backslash keeps the next character. None for what is
   * not one plain word: an open quote, a bare special, or an expansion other than of a named parameter.
   */
  function Expand(word: string, quoting: Quoting, env: map<string, string>): Option<string>
    decreases |word|
  {
    if word == "" then if quoting.Bare? then Some("") else None
    else
      var c, rest := word[0], word[1..];
      match quoting
      case InSingle => if c == '\'' then Expand(rest, Bare, env) else Then([c], Expand(rest, InSingle, env))
      case InDouble =>
        if c == '"' then Expand(rest, Bare, env)
        else if c == '$' then
          if rest == "" || !StartsName(rest[0]) then None
          else
            var n := NameLength(rest);
            Then(Value(env, rest[..n]), Expand(rest[n..], InDouble, env))
        else if c == '`' then None
        else if c == '\\' && rest != "" && rest[0] == '\n' then Expand(rest[1..], InDouble, env)
        else if c == '\\' && rest != "" && rest[0] in {'$', '`', '"', '\\'} then
          Then([rest[0]], Expand(rest[1..], InDouble, env))
        else Then([c], Expand(rest, InDouble, env))
      case Bare =>
        if c == '\'' then Expand(rest, InSingle, env)
        else if c == '"' then Expand(rest, InDouble, env)
        else if c == '\\' then
          if rest == "" then None
          else if rest[0] == '\n' then Expand(rest[1..], Bare, env)
          else Then([rest[0]], Expand(rest[1..], Bare, env))
        else if IsSpecialBare(c) then None
        else Then([c], Expand(rest, Bare, env))
  }

  // A quoted text expands to itself

  lemma {:induction false} QuoteInside(s: string, env: map<string, string>)
    ensures Expand("'\\''" + s, InSingle, env) == Then("'", Expand(s, InSingle, env))
  {
    var w := "'\\''" + s;
    assert w[1..] == "\\''" + s;
    assert ("\\''" + s)[1..] == "''" + s;
    assert ("''" + s)[1..] == "'" + s;
    assert ("'" + s)[1..] == s;
    assert Expand("'" + s, Bare, env) == Expand(s, InSingle, env);
    assert Expand("\\''" + s, Bare, env) == Then(['\''], Expand("'" + s, Bare, env));
    assert ['\''] == "'";
  }

  lemma {:induction false} EscapedTextExpands(text: string, rest: string, env: map<string, string>)
    ensures Expand(EscapeQuotes(text) + "'" + rest, InSingle, env) == Then(text, Expand(rest, Bare, env))
    decreases |text|
  {
    if text == "" {
      assert (EscapeQuotes(text) + "'" + rest)[1..] == rest;
      ThenNothing(Expand(rest, Bare, env));
    } else {
      var tail := EscapeQuotes(text[1..]) + "'" + rest;
      EscapedTextExpands(text[1..], rest, env);
      ThenTwice([text[0]], text[1..], Expand(rest, Bare, env));
      assert [text[0]] + text[1..] == text;
      if text[0] == '\'' {
        assert EscapeQuotes(text) + "'" + rest == "'\\''" + tail;
        QuoteInside(tail, env);
      } else {
        var w := EscapeQuotes(text) + "'" + rest;
        assert w[0] == text[0] && w[1..] == tail;
      }
    }
  }

  lemma {:induction false} QuotedTextExpands(text: string, rest: string, env: map<string, string>)
    ensures Expand(SingleQuote(text) + rest, Bare, env) == Then(text, Expand(rest, Bare, env))
  {
    var w := SingleQuote(text) + rest;
    assert w[0] == '\'' && w[1..] == EscapeQuotes(text) + "'" + rest;
    EscapedTextExpands(text, rest, env);
  }

  lemma {:induction false} NameEnds(name: string, rest: string)
    requires forall i | 0 <= i < |name| :: InName(name[i])
    requires rest != "" && !InName(rest[0])
    ensures NameLength(name + rest) == |name|
    decreases |name|
  {
    if name == "" {
      assert name + rest == rest;
    } else {
      assert forall i | 0 <= i < |name[1..]| :: name[1..][i] == name[i + 1];
      assert (name + rest)[1..] == name[1..] + rest;
      NameEnds(name[1..], rest);
    }
  }

  lemma {:induction false} VariableExpands(name: string, rest: string, env: map<string, string>)
    requires IsName(name)
    ensures Expand("\"$" + name + "\"" + rest, Bare, env) == Then(Value(env, name), Expand(rest, Bare, env))
  {
    var w := "\"$" + name + "\"" + rest;
    var inner := name + ("\"" + rest);
    assert w[0] == '"' && w[1..] == "$" + inner;
    assert ("$" + inner)[0] == '$' && ("$" + inner)[1..] == inner;
    NameEnds(name, "\"" + rest);
    assert inner[0] == name[0] && inner[..|name|] == name && inner[|name|..] == "\"" + rest;
    assert ("\"" + rest)[1..] == rest;
    assert Expand("\"" + rest, InDouble, env) == Expand(rest, Bare, env);
    assert Expand("$" + inner, InDouble, env) == Then(Value(env, name), Expand("\"" + rest, InDouble, env));
    assert Expand(w, Bare, env) == Expand("$" + inner, InDouble, env);
  }

  /** Literal texts and the values of the variables, one after the other. */
  function Filled(parts: seq<Part>, env: map<string, string>): string {
    if parts == [] then ""
    else (if parts[0].Variable? then Value(env, parts[0].name) else parts[0].text) + Filled(parts[1..], env)
  }

  predicate AreNamed(parts: seq<Part>) {
    forall i | 0 <= i < |parts| :: parts[i].Variable? ==> IsName(parts[i].name)
  }

  lemma {:induction false} WordsExpand(parts: seq<Part>, env: map<string, string>)
    requires AreNamed(parts)
    ensures Expand(PartWords(parts), Bare, env) == Some(Filled(parts, env))
    decreases |parts|
  {
    if parts != [] {
      var p, rest := parts[0], parts[1..];
      assert forall i | 0 <= i < |rest| :: rest[i] == parts[i + 1];
      WordsExpand(rest, env);
      if p.Variable? {
        VariableExpands(p.name, PartWords(rest), env);
      } else {
        QuotedTextExpands(p.text, PartWords(rest), env);
      }
    }
  }

  /** The shell word of any parts is one word, and expands to the texts and the variables' values. */
  lemma {:induction false} ShellWordIsLossless(parts: seq<Part>, env: map<string, string>)
    requires AreNamed(parts)
    ensures Expand(ShellArg(parts), Bare, env) == Some(Filled(parts, env))
  {
    WordsExpand(parts, env);
    if parts == [] {
      QuotedTextExpands("", "", env);
      assert SingleQuote("") + "" == "''";
    }
  }

  /** The Postman word is one word, and is the template itself whatever the environment. */
  lemma {:induction false} PostmanWordIsLossless(parts: seq<Part>, env: map<string, string>)
    ensures Expand(PostmanArg(parts), Bare, env) == Some(Template(parts))
  {
    QuotedTextExpands(Template(parts), "", env);
    assert SingleQuote(Template(parts)) + "" == SingleQuote(Template(parts));
    assert Template(parts) + "" == Template(parts);
  }

  // Merging keeps the meaning

  lemma {:induction false} FilledMore(parts: seq<Part>, more: seq<Part>, env: map<string, string>)
    ensures Filled(parts + more, env) == Filled(parts, env) + Filled(more, env)
    decreases |parts|
  {
    if parts == [] {
      assert parts + more == more;
    } else {
      assert (parts + more)[1..] == parts[1..] + more;
      FilledMore(parts[1..], more, env);
    }
  }

  lemma {:induction false} FilledOne(p: Part, env: map<string, string>)
    ensures Filled([p], env) == if p.Variable? then Value(env, p.name) else p.text
  {
    assert [p][1..] == [];
  }

  lemma {:induction false} AppendFills(out: seq<Part>, p: Part, env: map<string, string>)
    ensures Filled(Append(out, p), env) == Filled(out, env) + Filled([p], env)
  {
    FilledOne(p, env);
    if p != Literal("") && p.Literal? && IsLiteral(out) {
      var front, last := out[..|out| - 1], out[|out| - 1];
      var joined := Literal(last.text + p.text);
      assert out == front + [last] && Append(out, p) == front + [joined];
      FilledMore(front, [last], env);
      FilledMore(front, [joined], env);
      FilledOne(last, env);
      FilledOne(joined, env);
    } else if p != Literal("") {
      FilledMore(out, [p], env);
    }
  }

  /** Merged parts fill to the same text in every environment. */
  lemma {:induction false} MergeKeepsTheText(parts: seq<Part>, env: map<string, string>)
    ensures Filled(Merged(parts), env) == Filled(parts, env)
    decreases |parts|
  {
    if parts != [] {
      var front, last := parts[..|parts| - 1], parts[|parts| - 1];
      MergeKeepsTheText(front, env);
      AppendFills(Merged(front), last, env);
      FilledMore(front, [last], env);
      assert front + [last] == parts;
    }
  }

  /** No text part is empty, and no two are adjacent. */
  predicate IsTight(parts: seq<Part>) {
    && (forall i | 0 <= i < |parts| :: parts[i] != Literal(""))
    && (forall i | 0 < i < |parts| :: !(parts[i - 1].Literal? && parts[i].Literal?))
  }

  predicate VariablesAmong(parts: seq<Part>, all: seq<Part>) {
    forall i | 0 <= i < |parts| :: parts[i].Variable? ==> parts[i] in all
  }

  lemma {:induction false} MergeIsTight(parts: seq<Part>)
    ensures IsTight(Merged(parts)) && VariablesAmong(Merged(parts), parts)
    decreases |parts|
  {
    if parts != [] {
      MergeIsTight(parts[..|parts| - 1]);
      assert parts == parts[..|parts| - 1] + [parts[|parts| - 1]];
    }
  }

  // The pairs put back

  lemma {:induction false} PairIsItsHalves(segment: string)
    requires IsPair(segment)
    ensures segment == RawKey(segment) + "=" + ValueOf(segment)
  {
  }

  /** A pair with its credential replaced by the operator's value. */
  function FilledPair(segment: string, rules: Rules, env: map<string, string>): string
    requires IsPair(segment) && Decodes(segment, rules)
  {
    if HasCredential(segment, rules) then RawKey(segment) + "=" + Value(env, VariableOf(segment, rules)) else segment
  }

  predicate AllDecode(segments: seq<string>, rules: Rules)
    requires IsForm(segments)
  {
    forall i | 0 <= i < |segments| :: Decodes(segments[i], rules)
  }

  function FilledPairs(segments: seq<string>, rules: Rules, env: map<string, string>): (filled: seq<string>)
    requires IsForm(segments) && AllDecode(segments, rules)
    ensures |filled| == |segments|
  {
    seq(|segments|, i requires 0 <= i < |segments| => FilledPair(segments[i], rules, env))
  }

  /** The pieces with a '&' between any two. */
  function Joined(segments: seq<string>): string {
    if segments == [] then ""
    else Joined(segments[..|segments| - 1]) + (if |segments| == 1 then "" else "&") + segments[|segments| - 1]
  }

  lemma {:induction false} PairFills(separator: string, segment: string, rules: Rules, env: map<string, string>)
    requires IsPair(segment) && Decodes(segment, rules)
    ensures Filled(PartsOf(separator, segment, rules), env) == separator + FilledPair(segment, rules, env)
  {
    if HasCredential(segment, rules) {
      var head, variable := Literal(separator + RawKey(segment) + "="), Variable(VariableOf(segment, rules));
      assert PartsOf(separator, segment, rules) == [head] + [variable];
      FilledMore([head], [variable], env);
      FilledOne(head, env);
      FilledOne(variable, env);
    } else {
      FilledOne(Literal(separator + segment), env);
    }
  }

  lemma {:induction false} RawPartsDecode(segments: seq<string>, rules: Rules)
    requires IsForm(segments)
    ensures RawParts(segments, rules).Some? <==> AllDecode(segments, rules)
    decreases |segments|
  {
    if segments != [] {
      RawPartsDecode(segments[..|segments| - 1], rules);
    }
  }

  lemma {:induction false} OnePairMore(segments: seq<string>, rules: Rules, env: map<string, string>)
    requires segments != [] && IsForm(segments) && AllDecode(segments, rules)
    ensures var n := |segments| - 1;
      Joined(FilledPairs(segments, rules, env))
      == Joined(FilledPairs(segments[..n], rules, env)) + (if n == 0 then "" else "&") + FilledPair(segments[n], rules, env)
  {
    var n := |segments| - 1;
    assert FilledPairs(segments, rules, env)[..n] == FilledPairs(segments[..n], rules, env);
  }

  lemma {:induction false} RawPartsFill(segments: seq<string>, rules: Rules, env: map<string, string>)
    requires IsForm(segments) && AllDecode(segments, rules) && RawParts(segments, rules).Some?
    ensures Filled(RawParts(segments, rules).value, env) == Joined(FilledPairs(segments, rules, env))
    decreases |segments|
  {
    if segments != [] {
      var n := |segments| - 1;
      var front, last, separator := segments[..n], segments[n], if n == 0 then "" else "&";
      RawPartsDecode(front, rules);
      RawPartsFill(front, rules, env);
      OnePairMore(segments, rules, env);
      FilledMore(RawParts(front, rules).value, PartsOf(separator, last, rules), env);
      PairFills(separator, last, rules, env);
      Regroup(Joined(FilledPairs(front, rules, env)), separator, FilledPair(last, rules, env));
    }
  }

  lemma {:induction false} Regroup(a: string, b: string, c: string)
    ensures a + (b + c) == a + b + c
  {
  }

  // Pieces and their joins

  function Ampersands(s: string): nat {
    if s == "" then 0 else Ampersands(s[..|s| - 1]) + if s[|s| - 1] == '&' then 1 else 0
  }

  lemma {:induction false} AmpersandsOfTwo(a: string, b: string)
    ensures Ampersands(a + b) == Ampersands(a) + Ampersands(b)
    decreases |b|
  {
    if b == "" {
      assert a + b == a;
    } else {
      assert (a + b)[..|a| + |b| - 1] == a + b[..|b| - 1];
      AmpersandsOfTwo(a, b[..|b| - 1]);
    }
  }

  predicate LacksAmpersand(s: string) {
    forall i | 0 <= i < |s| :: s[i] != '&'
  }

  lemma {:induction false} NoAmpersands(s: string)
    ensures Ampersands(s) == 0 <==> LacksAmpersand(s)
    decreases |s|
  {
    if s != "" {
      NoAmpersands(s[..|s| - 1]);
    }
  }

  function Total(pieces: seq<string>): nat {
    if pieces == [] then 0 else Total(pieces[..|pieces| - 1]) + Ampersands(pieces[|pieces| - 1])
  }

  lemma {:induction false} AmpersandsOfJoin(pieces: seq<string>)
    requires pieces != []
    ensures Ampersands(Joined(pieces)) == |pieces| - 1 + Total(pieces)
    decreases |pieces|
  {
    var front, last := pieces[..|pieces| - 1], pieces[|pieces| - 1];
    if front == [] {
      assert Joined(front) == "" && Joined(pieces) == last;
      assert Total(front) == 0;
    } else {
      AmpersandsOfJoin(front);
      AmpersandsOfTwo(Joined(front), "&");
      AmpersandsOfTwo(Joined(front) + "&", last);
      assert Ampersands("&") == 1;
    }
  }

  lemma {:induction false} NoneInTotal(pieces: seq<string>)
    ensures Total(pieces) == 0 <==> forall i | 0 <= i < |pieces| :: LacksAmpersand(pieces[i])
    decreases |pieces|
  {
    if pieces != [] {
      var front := pieces[..|pieces| - 1];
      NoneInTotal(front);
      NoAmpersands(pieces[|pieces| - 1]);
      assert forall i | 0 <= i < |front| :: front[i] == pieces[i];
    }
  }

  lemma {:induction false} LastAmpersand(a: string, x: string, k: nat)
    requires LacksAmpersand(x) && |a| <= k < |a| + 1 + |x|
    ensures (a + "&" + x)[k] == '&' <==> k == |a|
  {
    if k > |a| {
      assert (a + "&" + x)[k] == x[k - |a| - 1];
    }
  }

  lemma {:induction false} LastPiece(a: string, b: string, x: string, y: string)
    requires a + "&" + x == b + "&" + y && LacksAmpersand(x) && LacksAmpersand(y)
    ensures a == b && x == y
  {
    var s := a + "&" + x;
    assert s[|a|] == '&' && s[|b|] == '&';
    if |a| <= |b| {
      LastAmpersand(a, x, |b|);
    }
    assert a == s[..|a|] && b == s[..|b|];
    assert x == s[|a| + 1..] && y == s[|b| + 1..];
  }

  /** As many pieces, of which the ones on the right have no '&': equal joins have equal pieces. */
  lemma {:induction false} JoinIsInjective(a: seq<string>, b: seq<string>)
    requires |a| == |b| && Joined(a) == Joined(b)
    requires forall i | 0 <= i < |a| :: LacksAmpersand(a[i]) && LacksAmpersand(b[i])
    ensures a == b
    decreases |a|
  {
    if |a| == 1 {
      assert a[..0] == [] && b[..0] == [];
      assert Joined(a) == "" + "" + a[0] == a[0] && Joined(b) == "" + "" + b[0] == b[0];
      assert a == [a[0]] && b == [b[0]];
    } else if |a| > 1 {
      var n := |a| - 1;
      LastPiece(Joined(a[..n]), Joined(b[..n]), a[n], b[n]);
      JoinIsInjective(a[..n], b[..n]);
      assert a == a[..n] + [a[n]] && b == b[..n] + [b[n]];
    }
  }

  lemma {:induction false} JoinedOneLast(front: seq<string>, last: string)
    ensures Joined(front + [last]) == if front == [] then last else Joined(front) + "&" + last
  {
    assert (front + [last])[..|front|] == front;
    assert "" + "" + last == last;
  }

  lemma {:induction false} JoinedOneFirst(first: string, rest: seq<string>)
    requires rest != []
    ensures Joined([first] + rest) == first + "&" + Joined(rest)
    decreases |rest|
  {
    var n := |rest| - 1;
    var front, last := rest[..n], rest[n];
    assert rest == front + [last];
    JoinedOneLast(front, last);
    assert [first] + rest == ([first] + front) + [last];
    JoinedOneLast([first] + front, last);
    if n == 0 {
      assert [first] + front == [] + [first];
      JoinedOneLast([], first);
    } else {
      JoinedOneFirst(first, front);
      assert first + "&" + Joined(front) + "&" + last == first + "&" + (Joined(front) + "&" + last);
    }
  }

  /** Splitting at every '&' leaves pieces whose join is the text. */
  lemma {:induction false} SplitJoins(text: string)
    ensures Joined(Text.Split(text, '&')) == text
    decreases |text|
  {
    if text == "" {
      assert [""][..0] == [];
    } else {
      var rest := Text.Split(text[1..], '&');
      SplitJoins(text[1..]);
      if text[0] == '&' {
        JoinedOneFirst("", rest);
        AmpersandFirst(text);
      } else {
        JoinedLonger(text[0], rest);
        assert [text[0]] + text[1..] == text;
      }
    }
  }

  lemma {:induction false} AmpersandFirst(text: string)
    requires text != "" && text[0] == '&'
    ensures "" + "&" + text[1..] == text
  {
  }

  /** No piece has one. */
  lemma {:induction false} SplitPiecesLack(text: string)
    ensures forall i | 0 <= i < |Text.Split(text, '&')| :: LacksAmpersand(Text.Split(text, '&')[i])
    decreases |text|
  {
    if text != "" {
      SplitPiecesLack(text[1..]);
    }
  }

  lemma {:induction false} JoinedLonger(c: char, rest: seq<string>)
    requires rest != []
    ensures Joined([[c] + rest[0]] + rest[1..]) == [c] + Joined(rest)
  {
    var all := [[c] + rest[0]] + rest[1..];
    if |rest| == 1 {
      assert rest[..0] == [] && all[..0] == [];
      assert Joined(rest) == "" + "" + rest[0] && Joined(all) == "" + "" + all[0];
    } else {
      assert rest == [rest[0]] + rest[1..];
      JoinedOneFirst(rest[0], rest[1..]);
      JoinedOneFirst([c] + rest[0], rest[1..]);
    }
  }

  // The command is faithful

  /** The operator has filled in, for every cut value, that very value. */
  predicate FillsIn(segments: seq<string>, rules: Rules, env: map<string, string>)
    requires IsForm(segments) && AllDecode(segments, rules)
  {
    forall i | 0 <= i < |segments| && HasCredential(segments[i], rules) ::
      Value(env, VariableOf(segments[i], rules)) == ValueOf(segments[i])
  }

  /** What `pairParts` accepts. */
  predicate IsPairText(text: string, rules: Rules) {
    var segments := Text.Split(text, '&');
    IsForm(segments) && AllDecode(segments, rules)
  }

  lemma {:induction false} PartsFill(text: string, rules: Rules, env: map<string, string>)
    requires text != "" && IsPairText(text, rules)
    ensures PairParts(text, rules).Some?
    ensures Filled(PairParts(text, rules).value, env) == Joined(FilledPairs(Text.Split(text, '&'), rules, env))
  {
    var segments := Text.Split(text, '&');
    RawPartsDecode(segments, rules);
    RawPartsFill(segments, rules, env);
    MergeKeepsTheText(RawParts(segments, rules).value, env);
  }

  lemma {:induction false} FilledPairIsThePair(segment: string, rules: Rules, env: map<string, string>)
    requires IsPair(segment) && Decodes(segment, rules)
    ensures FilledPair(segment, rules, env) == segment
       <==> (HasCredential(segment, rules) ==> Value(env, VariableOf(segment, rules)) == ValueOf(segment))
  {
    PairIsItsHalves(segment);
    var head, value := RawKey(segment) + "=", Value(env, VariableOf(segment, rules));
    if HasCredential(segment, rules) && head + value == segment {
      assert (head + value)[|head|..] == value && segment[|head|..] == ValueOf(segment);
    }
  }

  lemma {:induction false} FilledPairsAreThePairs(segments: seq<string>, rules: Rules, env: map<string, string>)
    requires IsForm(segments) && AllDecode(segments, rules)
    ensures FilledPairs(segments, rules, env) == segments <==> FillsIn(segments, rules, env)
  {
    var filled := FilledPairs(segments, rules, env);
    forall i | 0 <= i < |segments|
      ensures filled[i] == segments[i]
         <==> (HasCredential(segments[i], rules) ==> Value(env, VariableOf(segments[i], rules)) == ValueOf(segments[i]))
    {
      FilledPairIsThePair(segments[i], rules, env);
    }
    if FillsIn(segments, rules, env) {
      assert forall i | 0 <= i < |segments| :: filled[i] == segments[i];
    }
  }

  /** The parts give the stored text back exactly when every variable has the value that it replaced. */
  lemma {:induction false} PartsRefillExactly(text: string, rules: Rules, env: map<string, string>)
    requires text != "" && IsPairText(text, rules)
    ensures PairParts(text, rules).Some?
    ensures Filled(PairParts(text, rules).value, env) == text <==> FillsIn(Text.Split(text, '&'), rules, env)
  {
    var segments := Text.Split(text, '&');
    var filled := FilledPairs(segments, rules, env);
    PartsFill(text, rules, env);
    SplitJoins(text);
    SplitPiecesLack(text);
    FilledPairsAreThePairs(segments, rules, env);
    if Joined(filled) == text {
      AmpersandsOfJoin(filled);
      AmpersandsOfJoin(segments);
      NoneInTotal(segments);
      NoneInTotal(filled);
      JoinIsInjective(filled, segments);
    }
  }

  /** No two cut values that differ share a variable. */
  predicate IsConsistent(segments: seq<string>, rules: Rules)
    requires IsForm(segments) && AllDecode(segments, rules)
  {
    forall i, j | 0 <= i < j < |segments| && HasCredential(segments[i], rules) && HasCredential(segments[j], rules) ::
      VariableOf(segments[i], rules) == VariableOf(segments[j], rules) ==> ValueOf(segments[i]) == ValueOf(segments[j])
  }

  /** Each variable with the last value that it replaced. */
  function Values(segments: seq<string>, rules: Rules): map<string, string>
    requires IsForm(segments) && AllDecode(segments, rules)
  {
    if segments == [] then map[]
    else
      var before, last := Values(segments[..|segments| - 1], rules), segments[|segments| - 1];
      if HasCredential(last, rules) then before[VariableOf(last, rules) := ValueOf(last)] else before
  }

  lemma {:induction false} ConsistentValuesFillIn(segments: seq<string>, rules: Rules)
    requires IsForm(segments) && AllDecode(segments, rules) && IsConsistent(segments, rules)
    ensures FillsIn(segments, rules, Values(segments, rules))
    decreases |segments|
  {
    if segments != [] {
      var front := segments[..|segments| - 1];
      assert forall i | 0 <= i < |front| :: front[i] == segments[i];
      ConsistentValuesFillIn(front, rules);
    }
  }

  /** Some environment reproduces the text exactly when no credential key repeats with another value. */
  lemma {:induction false} CanBeReproducedExactly(text: string, rules: Rules)
    requires text != "" && IsPairText(text, rules)
    ensures PairParts(text, rules).Some?
    ensures (exists env :: Filled(PairParts(text, rules).value, env) == text) <==> IsConsistent(Text.Split(text, '&'), rules)
  {
    var segments := Text.Split(text, '&');
    RawPartsDecode(segments, rules);
    if IsConsistent(segments, rules) {
      var env := Values(segments, rules);
      ConsistentValuesFillIn(segments, rules);
      PartsRefillExactly(text, rules, env);
    }
    if env :| Filled(PairParts(text, rules).value, env) == text {
      PartsRefillExactly(text, rules, env);
    }
  }

  /** The naming gives names that a shell accepts. */
  ghost predicate NamesAreValid(rules: Rules) {
    forall key :: IsName(rules.variableFor(key))
  }

  lemma {:induction false} RawPartsAreNamed(segments: seq<string>, rules: Rules)
    requires IsForm(segments) && NamesAreValid(rules) && RawParts(segments, rules).Some?
    ensures AreNamed(RawParts(segments, rules).value)
    decreases |segments|
  {
    if segments != [] {
      RawPartsAreNamed(segments[..|segments| - 1], rules);
    }
  }

  /** The `--data-raw` word of a stored form expands to that form exactly when the operator has filled in its credentials. */
  lemma {:induction false} ShellReproducesTheForm(text: string, rules: Rules, env: map<string, string>)
    requires text != "" && IsPairText(text, rules) && NamesAreValid(rules)
    ensures PairParts(text, rules).Some?
    ensures Expand(ShellArg(PairParts(text, rules).value), Bare, env) == Some(text)
       <==> FillsIn(Text.Split(text, '&'), rules, env)
  {
    var segments := Text.Split(text, '&');
    PartsRefillExactly(text, rules, env);
    var raw := RawParts(segments, rules).value;
    RawPartsAreNamed(segments, rules);
    MergeIsTight(raw);
    ShellWordIsLossless(PairParts(text, rules).value, env);
  }

  // Nothing of a credential is left

  /** The same pairs but for the values of credentials. */
  predicate SameButForCredentials(a: seq<string>, b: seq<string>, rules: Rules)
    requires IsForm(a) && AllDecode(a, rules) && IsForm(b) && AllDecode(b, rules)
  {
    && |a| == |b|
    && forall i | 0 <= i < |a| :: RawKey(a[i]) == RawKey(b[i]) && (HasCredential(a[i], rules) || a[i] == b[i])
  }

  lemma {:induction false} SameRawParts(a: seq<string>, b: seq<string>, rules: Rules)
    requires IsForm(a) && AllDecode(a, rules) && IsForm(b) && AllDecode(b, rules) && SameButForCredentials(a, b, rules)
    ensures RawParts(a, rules) == RawParts(b, rules)
    decreases |a|
  {
    if a != [] {
      SameRawParts(a[..|a| - 1], b[..|b| - 1], rules);
    }
  }

  /** Two texts that differ only in the values of credentials make the same parts: none of those values is in them. */
  lemma {:induction false} CredentialsLeaveNoTrace(a: string, b: string, rules: Rules)
    requires a != "" && b != "" && IsPairText(a, rules) && IsPairText(b, rules)
    requires SameButForCredentials(Text.Split(a, '&'), Text.Split(b, '&'), rules)
    ensures PairParts(a, rules) == PairParts(b, rules)
  {
    SameRawParts(Text.Split(a, '&'), Text.Split(b, '&'), rules);
  }

  // The names

  predicate AreNameChars(s: string) {
    forall i | 0 <= i < |s| :: IsUpperOrDigit(s[i]) || s[i] == '_'
  }

  lemma {:induction false} UnderscoredChars(s: string)
    ensures AreNameChars(Underscored(s))
    ensures s != "" && IsUpperOrDigit(s[0]) ==> Underscored(s) != "" && Underscored(s)[0] == s[0]
    decreases |s|
  {
    if s != "" {
      UnderscoredChars(s[..|s| - 1]);
    }
  }

  lemma {:induction false} StripEndKeeps(s: string)
    requires AreNameChars(s)
    ensures AreNameChars(StripEnd(s))
    ensures s != "" && s[0] != '_' ==> StripEnd(s) != "" && StripEnd(s)[0] == s[0]
    decreases |s|
  {
    if s != "" && s[|s| - 1] == '_' {
      StripEndKeeps(s[..|s| - 1]);
    }
  }

  /** For a provider whose name begins with a letter every variable is a name that a shell accepts. */
  lemma {:induction false} VariablesAreNames(provider: string, key: string)
    requires provider != "" && Text.IsUpper(Text.UpperChar(provider[0]))
    ensures IsName(VariableFor(provider, key))
  {
    var upper := Text.Upper(provider + "_" + key);
    assert upper[0] == Text.UpperChar(provider[0]);
    UnderscoredChars(upper);
    var name := Underscored(upper);
    assert StripStart(name) == name;
    StripEndKeeps(name);
  }
}
