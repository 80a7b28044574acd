/**
 Traces: what one call did, step by step, with the steps of others in between. A method that works in several
 statements returns the trace of its run as a ghost result.
 */
module Traces {
  datatype Act<E> = Own(step: E) | Other(step: E)

  function Steps<E>(acts: seq<Act<E>>): (es: seq<E>)
    ensures |es| == |acts| && forall i | 0 <= i < |acts| :: es[i] == acts[i].step
  {
    seq(|acts|, i requires 0 <= i < |acts| => acts[i].step)
  }

  /** The call's own steps. */
  function Owned<E>(acts: seq<Act<E>>): seq<E> {
    if acts == [] then []
    else Owned(acts[..|acts| - 1]) + (if acts[|acts| - 1].Own? then [acts[|acts| - 1].step] else [])
  }

  /** Nobody else came in between. */
  predicate AllOwn<E>(acts: seq<Act<E>>) {
    forall k | 0 <= k < |acts| :: acts[k].Own?
  }

  lemma AllOwnPart<E>(a: seq<Act<E>>, b: seq<Act<E>>)
    ensures AllOwn(a + b) <==> AllOwn(a) && AllOwn(b)
  {
    assert forall k | 0 <= k < |a| :: (a + b)[k] == a[k];
    assert forall k | 0 <= k < |b| :: (a + b)[|a| + k] == b[k];
  }

  lemma AllOwnPrefix<E>(before: seq<Act<E>>, acts: seq<Act<E>>)
    requires before <= acts
    ensures AllOwn(acts) ==> AllOwn(before)
  {
    assert forall k | 0 <= k < |before| :: acts[k] == before[k];
  }

  lemma StepsConcat<E>(a: seq<Act<E>>, b: seq<Act<E>>)
    ensures Steps(a + b) == Steps(a) + Steps(b)
  {
  }

  lemma OwnedOwn<E>(acts: seq<Act<E>>, e: E)
    ensures Steps(acts + [Own(e)]) == Steps(acts) + [e] && Owned(acts + [Own(e)]) == Owned(acts) + [e]
  {
    assert (acts + [Own(e)])[..|acts|] == acts;
  }

  lemma {:induction false} OwnedOthers<E>(acts: seq<Act<E>>, more: seq<Act<E>>)
    requires forall a | a in more :: a.Other?
    ensures Owned(acts + more) == Owned(acts)
    decreases |more|
  {
    if more == [] {
      assert acts + more == acts;
    } else {
      var front := more[..|more| - 1];
      OwnedOthers(acts, front);
      assert (acts + more)[..|acts + more| - 1] == acts + front;
      assert more[|more| - 1] in more;
    }
  }
}
