/** The pieces of the cURL export. */
module CurlExport {
  // The pieces of the cURL export: a stored query string or form body cut into literal text and
  // credential variables, and the one shell word that such a list becomes. Percent-decoding, the
  // credential-key test and the naming of variables come in as a `Rules` value.

  import opened Wrappers
  import Text

  datatype Part = Literal(text: string) | Variable(name: string)

  /** `decode` is the form decoder, `isSensitive` and `variableFor` take the decoded key. */
  datatype Rules = Rules(decode: string -> Option<string>, isSensitive: string -> bool, variableFor: string -> string)

  // Quoting

  /** Every single quote written as: close, an escaped quote, open again. */
  function EscapeQuotes(text: string): string {
    if text == "" then ""
    else (if text[0] == '\'' then "'\\''" else [text[0]]) + EscapeQuotes(text[1..])
  }

  function SingleQuote(text: string): string {
    "'" + EscapeQuotes(text) + "'"
  }

  function PartWord(p: Part): string {
    match p
    case Variable(name) => "\"$" + name + "\""
    case Literal(text) => SingleQuote(text)
  }

  function PartWords(parts: seq<Part>): string {
    if parts == [] then "" else PartWord(parts[0]) + PartWords(parts[1..])
  }

  function ShellArg(parts: seq<Part>): string {
    if parts == [] then "''" else PartWords(parts)
  }

  function Template(parts: seq<Part>): string {
    if parts == [] then ""
    else (if parts[0].Variable? then "{{" + parts[0].name + "}}" else parts[0].text) + Template(parts[1..])
  }

  function PostmanArg(parts: seq<Part>): string {
    SingleQuote(Template(parts))
  }

  // Merging

  predicate IsLiteral(parts: seq<Part>) {
    parts != [] && parts[|parts| - 1].Literal?
  }

  /** `p` after the merged parts: empty text goes, text after text joins it. */
  function Append(out: seq<Part>, p: Part): seq<Part> {
    if p == Literal("") then out
    else if p.Literal? && IsLiteral(out) then out[|out| - 1 := Literal(out[|out| - 1].text + p.text)]
    else out + [p]
  }

  function Merged(parts: seq<Part>): seq<Part> {
    if parts == [] then [] else Append(Merged(parts[..|parts| - 1]), parts[|parts| - 1])
  }

  method MergeText(parts: seq<Part>) returns (out: seq<Part>)
    ensures out == Merged(parts)
  {
    out := [];
    for i := 0 to |parts|
      invariant out == Merged(parts[..i])
    {
      assert parts[..i + 1][..i] == parts[..i];
      var p := parts[i];
      if p.Literal? && p.text == "" {
      } else if p.Literal? && |out| > 0 && out[|out| - 1].Literal? {
        out := out[|out| - 1 := Literal(out[|out| - 1].text + p.text)];
      } else {
        out := out + [p];
      }
    }
    assert parts[..|parts|] == parts;
  }

  // Pairs

  /** The index of the first '=', or the length. */
  function FirstEquals(s: string): (k: nat)
    ensures k <= |s| && (k < |s| ==> s[k] == '=') && forall i | 0 <= i < k :: s[i] != '='
  {
    if s == "" || s[0] == '=' then 0 else 1 + FirstEquals(s[1..])
  }

  /** A non-empty key, '=', a value, and no white space. */
  predicate IsPair(segment: string) {
    && 0 < FirstEquals(segment) < |segment|
    && forall i | 0 <= i < |segment| :: !Text.IsSpace(segment[i])
  }

  predicate IsForm(segments: seq<string>) {
    forall i | 0 <= i < |segments| :: IsPair(segments[i])
  }

  function RawKey(segment: string): string {
    segment[..FirstEquals(segment)]
  }

  function ValueOf(segment: string): string
    requires IsPair(segment)
  {
    segment[FirstEquals(segment) + 1..]
  }

  predicate Decodes(segment: string, rules: Rules)
    requires IsPair(segment)
  {
    rules.decode(RawKey(segment)).Some? && rules.decode(ValueOf(segment)).Some?
  }

  predicate HasCredential(segment: string, rules: Rules)
    requires IsPair(segment) && Decodes(segment, rules)
  {
    rules.isSensitive(rules.decode(RawKey(segment)).value)
  }

  function VariableOf(segment: string, rules: Rules): string
    requires IsPair(segment) && Decodes(segment, rules)
  {
    rules.variableFor(rules.decode(RawKey(segment)).value)
  }

  /** One pair as parts: kept as it is, or with the value cut out. */
  function PartsOf(separator: string, segment: string, rules: Rules): seq<Part>
    requires IsPair(segment) && Decodes(segment, rules)
  {
    if HasCredential(segment, rules) then
      [Literal(separator + RawKey(segment) + "="), Variable(VariableOf(segment, rules))]
    else [Literal(separator + segment)]
  }

  function RawParts(segments: seq<string>, rules: Rules): Option<seq<Part>>
    requires IsForm(segments)
  {
    if segments == [] then Some([])
    else
      var n := |segments| - 1;
      match RawParts(segments[..n], rules)
      case None => None
      case Some(before) =>
        if !Decodes(segments[n], rules) then None
        else Some(before + PartsOf(if n == 0 then "" else "&", segments[n], rules))
  }

  function PairParts(text: string, rules: Rules): Option<seq<Part>> {
    var segments := Text.Split(text, '&');
    if text == "" then Some([])
    else if !IsForm(segments) then None
    else
      match RawParts(segments, rules)
      case None => None
      case Some(parts) => Some(Merged(parts))
  }

  method CutPairs(text: string, rules: Rules) returns (result: Option<seq<Part>>)
    ensures result == PairParts(text, rules)
  {
    if text == "" {
      return Some([]);
    }
    var segments := Text.Split(text, '&');
    if !IsForm(segments) {
      return None;
    }
    var parts: seq<Part> := [];
    for i := 0 to |segments|
      invariant RawParts(segments[..i], rules) == Some(parts)
    {
      RawPartsOneMore(segments, i, rules);
      var segment := segments[i];
      var key := rules.decode(RawKey(segment));
      if key.None? || rules.decode(ValueOf(segment)).None? {
        UndecodedIsFinal(segments, i, rules);
        return None;
      }
      var sep := if i == 0 then "" else "&";
      if rules.isSensitive(key.value) {
        parts := parts + [Literal(sep + RawKey(segment) + "="), Variable(rules.variableFor(key.value))];
      } else {
        parts := parts + [Literal(sep + segment)];
      }
    }
    assert segments[..|segments|] == segments;
    var merged := MergeText(parts);
    return Some(merged);
  }

  lemma {:induction false} RawPartsOneMore(segments: seq<string>, i: nat, rules: Rules)
    requires IsForm(segments) && i < |segments|
    ensures RawParts(segments[..i + 1], rules)
         == match RawParts(segments[..i], rules)
            case None => None
            case Some(before) =>
              if !Decodes(segments[i], rules) then None
              else Some(before + PartsOf(if i == 0 then "" else "&", segments[i], rules))
  {
    assert segments[..i + 1][..i] == segments[..i];
  }

  lemma {:induction false} UndecodedIsFinal(segments: seq<string>, i: nat, rules: Rules)
    requires IsForm(segments) && i < |segments| && !Decodes(segments[i], rules)
    ensures RawParts(segments, rules).None?
    decreases |segments|
  {
    if i < |segments| - 1 {
      UndecodedIsFinal(segments[..|segments| - 1], i, rules);
    }
  }

  // The names of variables

  predicate IsUpperOrDigit(c: char) {
    Text.IsUpper(c) || Text.IsDigit(c)
  }

  /** Every run of other characters replaced by one underscore. */
  function Underscored(s: string): string {
    if s == "" then ""
    else
      var before, c := Underscored(s[..|s| - 1]), s[|s| - 1];
      if IsUpperOrDigit(c) then before + [c]
      else if |s| > 1 && !IsUpperOrDigit(s[|s| - 2]) then before
      else before + "_"
  }

  function StripStart(s: string): string {
    if s != "" && s[0] == '_' then StripStart(s[1..]) else s
  }

  function StripEnd(s: string): string {
    if s != "" && s[|s| - 1] == '_' then StripEnd(s[..|s| - 1]) else s
  }

  function VariableFor(provider: string, key: string): string {
    StripEnd(StripStart(Underscored(Text.Upper(provider + "_" + key))))
  }
}
