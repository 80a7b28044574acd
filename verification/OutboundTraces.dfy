/** Traces of the outbound tables, and what they leave alone. */
module OutboundTraces {
  import opened OutboundInvariant
  import opened OutboundStates
  import opened Traces

  predicate Concerns(e: Step, run: nat) {
    match e
    case Claim(o, _) => o == run
    case Answer(o, _) => o == run
    case Record(o) => o == run
    case Drop(o) => o == run
    case _ => false
  }

  /** What others can do while a call waits: anything but step inside its run. */
  predicate Foreign(acts: seq<Act<Step>>, run: nat) {
    forall a | a in acts :: a.Other? && !Concerns(a.step, run)
  }

  /** The call led from `s` to `r`. */
  ghost predicate Ran(s: State, acts: seq<Act<Step>>, r: State) {
    r == Exec(s, Steps(acts))
  }

  lemma RanNothing(s: State)
    ensures Ran(s, [], s) && Owned<Step>([]) == []
  {
  }

  lemma RanOwn(s: State, acts: seq<Act<Step>>, r: State, e: Step)
    requires Ran(s, acts, r)
    ensures Ran(s, acts + [Own(e)], Apply(r, e)) && Owned(acts + [Own(e)]) == Owned(acts) + [e]
  {
    OwnedOwn(acts, e);
    ExecLast(s, Steps(acts), e);
  }

  lemma RanThen(s: State, acts: seq<Act<Step>>, mid: State, more: seq<Act<Step>>, r: State)
    requires Ran(s, acts, mid) && Ran(mid, more, r)
    ensures Ran(s, acts + more, r)
  {
    StepsConcat(acts, more);
    ExecConcat(s, Steps(acts), Steps(more));
  }

  lemma RanOthers(s: State, acts: seq<Act<Step>>, mid: State, more: seq<Act<Step>>, r: State)
    requires Ran(s, acts, mid) && Ran(mid, more, r) && forall a | a in more :: a.Other?
    ensures Ran(s, acts + more, r) && Owned(acts + more) == Owned(acts)
  {
    RanThen(s, acts, mid, more, r);
    OwnedOthers(acts, more);
  }

  lemma RanKeeps(s: State, acts: seq<Act<Step>>, r: State)
    requires Valid(s) && Ran(s, acts, r)
    ensures Valid(r) && Proceeds(s, r)
  {
    RunKeeps(s, Steps(acts));
    RunProceeds(s, Steps(acts));
  }

  /** A step that neither claims email `id` nor closes its workspace. */
  predicate Spares(e: Step, id: nat, workspace: nat) {
    match e
    case Claim(_, o) => o != id
    case ClaimUnheard(o) => o != id
    case CloseWorkspace(w) => w != workspace
    case _ => true
  }

  predicate Spared(acts: seq<Act<Step>>, id: nat, workspace: nat) {
    forall a | a in acts && a.Other? :: Spares(a.step, id, workspace)
  }

  /** No run but `run` has the email. */
  ghost predicate Alone(s: State, run: nat, id: nat) {
    forall t | t in s.runs && t != run :: s.runs[t].email != id
  }

  lemma StepSpares(s: State, e: Step, run: nat, id: nat)
    requires id in s.emails && id < |s.made| && Spares(e, id, s.emails[id].workspace)
    requires !Concerns(e, run) && Alone(s, run, id)
    ensures var r := Apply(s, e);
            && id in r.emails && id < |r.made| && r.emails[id] == s.emails[id] && Alone(r, run, id)
            && (run in r.runs <==> run in s.runs) && (run in s.runs ==> r.runs[run] == s.runs[run])
  {
  }

  /** A pause in which nobody claims the email or closes its workspace leaves its row and its run as they were. */
  lemma {:induction false} PauseSpares(s: State, acts: seq<Act<Step>>, run: nat, id: nat)
    requires id in s.emails && id < |s.made| && Alone(s, run, id)
    requires Foreign(acts, run) && Spared(acts, id, s.emails[id].workspace)
    ensures var r := Exec(s, Steps(acts));
            && id in r.emails && id < |r.made| && r.emails[id] == s.emails[id] && Alone(r, run, id)
            && (run in r.runs <==> run in s.runs) && (run in s.runs ==> r.runs[run] == s.runs[run])
    decreases |acts|
  {
    if acts != [] {
      var front, last := acts[..|acts| - 1], acts[|acts| - 1];
      assert last in acts;
      PauseSpares(s, front, run, id);
      assert Steps(acts)[..|acts| - 1] == Steps(front);
      StepSpares(Exec(s, Steps(front)), last.step, run, id);
    }
  }

  /** In a pause nobody else steps inside the run. */
  lemma {:induction false} ForeignKeepsRun(s: State, acts: seq<Act<Step>>, run: nat)
    requires Foreign(acts, run)
    ensures var r := Exec(s, Steps(acts));
            (run in r.runs <==> run in s.runs) && (run in s.runs ==> r.runs[run] == s.runs[run])
    decreases |acts|
  {
    if acts != [] {
      var front, last := acts[..|acts| - 1], acts[|acts| - 1];
      assert last in acts;
      ForeignKeepsRun(s, front, run);
      assert Steps(acts)[..|acts| - 1] == Steps(front);
      OthersKeepRun(Exec(s, Steps(front)), last.step, run);
    }
  }

  lemma OthersKeepRun(s: State, e: Step, run: nat)
    requires !Concerns(e, run)
    ensures (run in Apply(s, e).runs <==> run in s.runs) && (run in s.runs ==> Apply(s, e).runs[run] == s.runs[run])
  {
  }
}
