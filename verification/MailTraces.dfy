/** Traces of the mail tables: what a call and the sessions beside it did to them. */
module MailTraces {
  import opened MailStates
  import opened Traces

  /** A step inside transaction `t`. */
  predicate Concerns(e: Step, t: nat) {
    match e
    case Lock(o, _, _) => o == t
    case Capture(o) => o == t
    case Allocate(o) => o == t
    case Commit(o) => o == t
    case Abort(o) => o == t
    case _ => false
  }

  /** What other sessions can do while a call waits: anything but step inside its transaction. */
  predicate Foreign(acts: seq<Act<Step>>, t: nat) {
    forall a | a in acts :: a.Other? && !Concerns(a.step, t)
  }

  /** The call led from `s` to `r`. */
  ghost predicate Ran(s: State, acts: seq<Act<Step>>, r: State) {
    r == Exec(s, Steps(acts))
  }

  /** Some run leads from `a` to `b`. */
  ghost predicate Leads(a: State, b: State) {
    exists steps: seq<Step> :: b == Exec(a, steps)
  }

  lemma RanLeads(s: State, acts: seq<Act<Step>>, r: State)
    requires Ran(s, acts, r)
    ensures Leads(s, r)
  {
  }

  lemma LeadsNowhere(s: State)
    ensures Leads(s, s)
  {
    assert s == Exec(s, []);
  }

  lemma LeadsThrough(a: State, b: State, c: State)
    requires Leads(a, b) && Leads(b, c)
    ensures Leads(a, c)
  {
    var x: seq<Step> :| b == Exec(a, x);
    var y: seq<Step> :| c == Exec(b, y);
    ExecConcat(a, x, y);
  }

  /** A run, as the doings of others. */
  lemma OthersLead(a: State, b: State) returns (acts: seq<Act<Step>>)
    requires Leads(a, b)
    ensures Ran(a, acts, b) && Owned(acts) == []
  {
    var steps: seq<Step> :| b == Exec(a, steps);
    acts := seq(|steps|, i requires 0 <= i < |steps| => Act<Step>.Other(steps[i]));
    assert Steps(acts) == steps;
    OwnedOthers([], acts);
    assert [] + acts == acts;
  }

  lemma RanIs(s: State, acts: seq<Act<Step>>, r: State)
    requires Ran(s, acts, r)
    ensures Exec(s, Steps(acts)) == r
  {
  }

  lemma RanNothing(s: State)
    ensures Ran(s, [], s) && Owned<Step>([]) == []
  {
  }

  lemma RanOwn(s: State, acts: seq<Act<Step>>, r: State, e: Step)
    requires Ran(s, acts, r)
    ensures Ran(s, acts + [Own(e)], Apply(r, e)) && Owned(acts + [Own(e)]) == Owned(acts) + [e]
  {
    OwnedOwn(acts, e);
    ExecLast(s, Steps(acts), e);
  }

  lemma RanThen(s: State, acts: seq<Act<Step>>, mid: State, more: seq<Act<Step>>, r: State)
    requires Ran(s, acts, mid) && Ran(mid, more, r)
    ensures Ran(s, acts + more, r)
  {
    StepsConcat(acts, more);
    ExecConcat(s, Steps(acts), Steps(more));
  }

  lemma RanOthers(s: State, acts: seq<Act<Step>>, mid: State, more: seq<Act<Step>>, r: State)
    requires Ran(s, acts, mid) && Ran(mid, more, r) && forall a | a in more :: a.Other?
    ensures Ran(s, acts + more, r) && Owned(acts + more) == Owned(acts)
  {
    RanThen(s, acts, mid, more, r);
    OwnedOthers(acts, more);
  }

  /** Nobody else steps inside a transaction: it stays open, as it was. */
  lemma {:induction false} ForeignKeepsTx(s: State, acts: seq<Act<Step>>, t: nat)
    requires Foreign(acts, t)
    ensures var r := Exec(s, Steps(acts));
            (t in r.txs <==> t in s.txs) && (t in s.txs ==> r.txs[t] == s.txs[t])
    decreases |acts|
  {
    if acts != [] {
      var front := acts[..|acts| - 1];
      ForeignKeepsTx(s, front, t);
      assert Steps(acts)[..|acts| - 1] == Steps(front);
      assert acts[|acts| - 1] in acts;
      OthersKeepTx(Exec(s, Steps(front)), acts[|acts| - 1].step, t);
    }
  }

  lemma OthersKeepTx(s: State, e: Step, t: nat)
    requires !Concerns(e, t)
    ensures (t in Apply(s, e).txs <==> t in s.txs) && (t in s.txs ==> Apply(s, e).txs[t] == s.txs[t])
  {
  }
}
