/**
 * Administrative codes (`31`, `31.74`, `31.74.07`, `31.74.07.1001`): their levels, their parents and their string order.
 * A code of the right shape has as many dots as its level, its parent is its prefix one level up, and whatever sorts
 * between a prefix and a code that begins with it begins with that prefix too. The sort is a plain insertion sort.
 */
module RegionCodes {
  import Text

  // Shapes

  /** The length of a code of each level. */
  function Width(level: nat): nat {
    match level
    case 0 => 2
    case 1 => 5
    case 2 => 8
    case _ => 13
  }

  /** Two digits, then up to two groups of two and one of four, each after a dot. */
  predicate HasShape(level: nat, code: string) {
    && level <= 3
    && |code| == Width(level)
    && forall i | 0 <= i < |code| :: if i in {2, 5, 8} then code[i] == '.' else Text.IsDigit(code[i])
  }

  function LevelOf(code: string): nat {
    |Text.Split(code, '.')| - 1
  }

  /** The pattern that the tool keeps for the code's own level, if it keeps one. */
  predicate IsCode(code: string) {
    HasShape(LevelOf(code), code)
  }

  /** `lastIndexOf('.')`, -1 when there is none. */
  function LastDot(code: string): (k: int)
    ensures -1 <= k < |code|
    ensures k >= 0 ==> code[k] == '.'
    ensures forall i | k < i < |code| :: code[i] != '.'
  {
    if code == "" then -1
    else if code[|code| - 1] == '.' then |code| - 1
    else LastDot(code[..|code| - 1])
  }

  /** `slice(0, k)`, which for -1 leaves the last character out. */
  function ParentOf(code: string): string {
    var k := LastDot(code);
    if k >= 0 then code[..k] else if code == "" then "" else code[..|code| - 1]
  }

  lemma {:induction false} SplitPast(s: string, k: nat)
    requires k <= |s| && forall i | 0 <= i < k :: s[i] != '.'
    ensures k == |s| ==> |Text.Split(s, '.')| == 1
    ensures k < |s| && s[k] == '.' ==> |Text.Split(s, '.')| == 1 + |Text.Split(s[k + 1..], '.')|
    decreases k
  {
    if k > 0 {
      SplitPast(s[1..], k - 1);
      if k < |s| {
        assert s[1..][k..] == s[k + 1..];
      }
    }
  }

  lemma NotADot(level: nat, code: string, i: nat)
    requires HasShape(level, code) && i < |code| && i !in {2, 5, 8}
    ensures code[i] != '.'
  {
  }

  /** A well-shaped code has the level of its shape: one for every dot. */
  lemma ShapeGivesLevel(level: nat, code: string)
    requires HasShape(level, code)
    ensures LevelOf(code) == level
  {
    forall i | 0 <= i < |code| && i !in {2, 5, 8}
      ensures code[i] != '.'
    {
      NotADot(level, code, i);
    }
    SplitPast(code, 2);
    if level > 0 {
      var second := code[3..];
      assert forall i | 0 <= i < |second| :: second[i] == code[i + 3];
      SplitPast(second, 2);
      if level > 1 {
        var third := second[3..];
        assert forall i | 0 <= i < |third| :: third[i] == code[i + 6];
        SplitPast(third, 2);
        if level > 2 {
          var fourth := third[3..];
          assert forall i | 0 <= i < |fourth| :: fourth[i] == code[i + 9];
          SplitPast(fourth, 4);
        }
      }
    }
  }

  /** The parent of a code is its prefix one level up, and a code itself. */
  lemma ParentIsThePrefix(code: string)
    requires IsCode(code) && LevelOf(code) > 0
    ensures ParentOf(code) == code[..Width(LevelOf(code) - 1)]
    ensures IsCode(ParentOf(code)) && LevelOf(ParentOf(code)) == LevelOf(code) - 1
  {
    var level := LevelOf(code);
    var k := Width(level - 1);
    assert code[k] == '.';
    var d := LastDot(code);
    if d > k {
      NotADot(level, code, d);
    }
    assert d == k;
    assert HasShape(level - 1, ParentOf(code));
    ShapeGivesLevel(level - 1, ParentOf(code));
  }

  lemma {:induction false} SplitJoined(a: string, b: string)
    ensures |Text.Split(a + b, '.')| == |Text.Split(a, '.')| + |Text.Split(b, '.')| - 1
    decreases |a|
  {
    if a == "" {
      assert a + b == b;
    } else {
      assert (a + b)[0] == a[0] && (a + b)[1..] == a[1..] + b;
      SplitJoined(a[1..], b);
    }
  }

  /** The parent of any code with a dot is one level up. */
  lemma ParentIsOneUp(code: string)
    requires LevelOf(code) > 0
    ensures LevelOf(ParentOf(code)) == LevelOf(code) - 1
  {
    var k := LastDot(code);
    if k < 0 {
      SplitPast(code, |code|);
    } else {
      var tail := code[k + 1..];
      assert forall i | 0 <= i < |tail| :: tail[i] == code[k + 1 + i];
      SplitPast(tail, |tail|);
      assert code == code[..k] + (['.'] + tail);
      SplitJoined(code[..k], ['.'] + tail);
      assert (['.'] + tail)[1..] == tail;
    }
  }

  // The order of strings

  predicate Less(a: string, b: string) {
    if b == "" then false
    else if a == "" then true
    else a[0] < b[0] || (a[0] == b[0] && Less(a[1..], b[1..]))
  }

  lemma {:induction false} LessIsTotal(a: string, b: string)
    ensures Less(a, b) || a == b || Less(b, a)
    ensures !(Less(a, b) && Less(b, a)) && !Less(a, a)
    decreases |a|
  {
    if a != "" && b != "" {
      LessIsTotal(a[1..], b[1..]);
      assert a == [a[0]] + a[1..] && b == [b[0]] + b[1..];
    }
    if a != "" {
      LessIsTotal(a[1..], a[1..]);
    }
  }

  lemma {:induction false} LessIsTransitive(a: string, b: string, c: string)
    requires Less(a, b) && Less(b, c)
    ensures Less(a, c)
    decreases |a|
  {
    if a != "" && a[0] == b[0] && b[0] == c[0] {
      LessIsTransitive(a[1..], b[1..], c[1..]);
    }
  }

  lemma {:induction false} PrefixIsLess(p: string, c: string)
    requires p < c
    ensures Less(p, c)
    decreases |p|
  {
    if p != "" {
      assert p[0] == c[0];
      assert p[1..] < c[1..];
      PrefixIsLess(p[1..], c[1..]);
    }
  }

  /** Whatever sorts between a prefix and a string that it begins also begins with it. */
  lemma {:induction false} BetweenKeepsPrefix(p: string, x: string, c: string)
    requires p <= c && Less(x, c) && (p == x || Less(p, x))
    ensures p <= x
    decreases |p|
  {
    if p != "" && p != x {
      assert x[0] == p[0] == c[0];
      assert p[1..] <= c[1..];
      if p[1..] != x[1..] {
        BetweenKeepsPrefix(p[1..], x[1..], c[1..]);
      }
      assert p == [p[0]] + p[1..] && x == [x[0]] + x[1..];
    }
  }

  ghost predicate Sorted(codes: seq<string>) {
    forall i, j | 0 <= i < j < |codes| :: Less(codes[i], codes[j])
  }

  function Insert(code: string, codes: seq<string>): seq<string> {
    if codes == [] || Less(code, codes[0]) then [code] + codes else [codes[0]] + Insert(code, codes[1..])
  }

  /** The codes in code-unit order, as the default `sort` leaves them. */
  function SortCodes(codes: seq<string>): seq<string> {
    if codes == [] then [] else Insert(codes[0], SortCodes(codes[1..]))
  }

  lemma {:induction false} SortedWithFirst(first: string, rest: seq<string>)
    requires Sorted(rest) && forall j | 0 <= j < |rest| :: Less(first, rest[j])
    ensures Sorted([first] + rest)
  {
    var all := [first] + rest;
    assert forall j | 0 < j < |all| :: all[j] == rest[j - 1];
  }

  lemma {:induction false} FirstIsLeast(codes: seq<string>)
    requires Sorted(codes) && codes != []
    ensures Sorted(codes[1..]) && forall j | 0 <= j < |codes[1..]| :: Less(codes[0], codes[1..][j])
  {
    assert forall j | 0 <= j < |codes[1..]| :: codes[1..][j] == codes[j + 1];
  }

  lemma {:induction false} InsertMembers(code: string, codes: seq<string>)
    ensures multiset(Insert(code, codes)) == multiset{code} + multiset(codes)
    decreases |codes|
  {
    if codes != [] {
      assert codes == [codes[0]] + codes[1..];
      if !Less(code, codes[0]) {
        InsertMembers(code, codes[1..]);
      }
    }
  }

  lemma {:induction false} LessThanInserted(first: string, code: string, codes: seq<string>)
    requires Less(first, code) && forall j | 0 <= j < |codes| :: Less(first, codes[j])
    ensures forall j | 0 <= j < |Insert(code, codes)| :: Less(first, Insert(code, codes)[j])
  {
    var all := Insert(code, codes);
    InsertMembers(code, codes);
    forall j | 0 <= j < |all|
      ensures Less(first, all[j])
    {
      assert all[j] in multiset(all);
      if all[j] != code {
        assert all[j] in codes;
      }
    }
  }

  lemma {:induction false} LessThanAll(code: string, codes: seq<string>)
    requires Sorted(codes) && codes != [] && Less(code, codes[0])
    ensures forall j | 0 <= j < |codes| :: Less(code, codes[j])
  {
    forall j | 0 <= j < |codes|
      ensures Less(code, codes[j])
    {
      if j > 0 {
        LessIsTransitive(code, codes[0], codes[j]);
      }
    }
  }

  lemma {:induction false} InsertKeepsSorted(code: string, codes: seq<string>)
    requires Sorted(codes) && code !in codes
    ensures Sorted(Insert(code, codes))
    ensures multiset(Insert(code, codes)) == multiset{code} + multiset(codes)
    decreases |codes|
  {
    InsertMembers(code, codes);
    if codes != [] {
      if Less(code, codes[0]) {
        LessThanAll(code, codes);
        SortedWithFirst(code, codes);
      } else {
        FirstIsLeast(codes);
        InsertKeepsSorted(code, codes[1..]);
        LessIsTotal(code, codes[0]);
        LessThanInserted(codes[0], code, codes[1..]);
        SortedWithFirst(codes[0], Insert(code, codes[1..]));
      }
    }
  }

  /** Sorting distinct codes keeps them all, once each, in strictly increasing order. */
  lemma {:induction false} SortSorts(codes: seq<string>)
    requires forall i, j | 0 <= i < j < |codes| :: codes[i] != codes[j]
    ensures Sorted(SortCodes(codes))
    ensures multiset(SortCodes(codes)) == multiset(codes)
    decreases |codes|
  {
    if codes != [] {
      var rest := codes[1..];
      SortSorts(rest);
      assert codes == [codes[0]] + rest;
      assert forall m | 0 <= m < |rest| :: rest[m] == codes[m + 1];
      assert codes[0] !in multiset(rest);
      assert codes[0] !in multiset(SortCodes(rest));
      InsertKeepsSorted(codes[0], SortCodes(rest));
    }
  }
}
