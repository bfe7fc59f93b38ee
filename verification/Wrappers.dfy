/** Results that may be absent, and results that may be refused. */
module Wrappers {

  datatype Option<+T> = None | Some(value: T)

  datatype Result<+T, +E> = Success(value: T) | Failure(error: E)

  /** What was read already, in front of what the rest reads as. */
  function Then<T>(before: seq<T>, rest: Option<seq<T>>): Option<seq<T>> {
    if rest.None? then None else Some(before + rest.value)
  }

  lemma {:induction false} ThenNothing<T>(rest: Option<seq<T>>)
    ensures Then([], rest) == rest
  {
    if rest.Some? {
      assert [] + rest.value == rest.value;
    }
  }

  lemma {:induction false} ThenTwice<T>(a: seq<T>, b: seq<T>, rest: Option<seq<T>>)
    ensures Then(a, Then(b, rest)) == Then(a + b, rest)
  {
    if rest.Some? {
      assert a + (b + rest.value) == a + b + rest.value;
    }
  }

  lemma {:induction false} TakeAll<T>(s: seq<T>)
    ensures s[..|s|] == s
  {
  }
}
