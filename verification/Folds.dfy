/** A loop over a sequence that may stop with an error, as a function of its step. */
module Folds {
  import opened Wrappers

  function Fold<S, P, E>(step: (S, P) -> Result<S, E>, s: S, items: seq<P>): Result<S, E> {
    if items == [] then Ok(s)
    else
      match step(s, items[0])
      case Err(e) => Err(e)
      case Ok(t) => Fold(step, t, items[1..])
  }

  lemma FoldNext<S, P, E>(step: (S, P) -> Result<S, E>, s: S, items: seq<P>, i: nat)
    requires i < |items|
    ensures Fold(step, s, items[i..]) ==
            match step(s, items[i])
            case Err(e) => Err(e)
            case Ok(t) => Fold(step, t, items[i + 1..])
  {
    assert items[i..][1..] == items[i + 1..];
  }

  lemma {:induction false} FoldConcat<S, P, E>(step: (S, P) -> Result<S, E>, s: S, a: seq<P>, b: seq<P>)
    ensures Fold(step, s, a + b) ==
            match Fold(step, s, a)
            case Err(e) => Err(e)
            case Ok(t) => Fold(step, t, b)
  {
    if a == [] {
      assert a + b == b;
    } else {
      assert (a + b)[1..] == a[1..] + b;
      var r := step(s, a[0]);
      if r.Ok? {
        FoldConcat(step, r.value, a[1..], b);
      }
    }
  }

  /** chain[i] is the state before items[i]. */
  lemma {:induction false} FoldChain<S, P, E>(step: (S, P) -> Result<S, E>, items: seq<P>, chain: seq<S>)
    requires |chain| == |items| + 1
    requires forall i :: 0 <= i < |items| ==> step(chain[i], items[i]) == Ok(chain[i + 1])
    ensures Fold(step, chain[0], items) == Ok(chain[|items|])
  {
    if items != [] {
      FoldChain(step, items[1..], chain[1..]);
    }
  }
}
