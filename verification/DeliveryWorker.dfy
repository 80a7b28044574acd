/**
 The delivery worker over the outbound tables. Every store call may fail, with or without its effect, and others run
 between any two of them. `Deliver` refines the state machine; `RunTask` is the queue's retry loop around it.
 */
module DeliveryWorker {
  import opened Ascending
  import opened OutboundInvariant
  import opened OutboundStates
  import opened OutboundTraces
  import opened Traces
  import opened Wrappers

  const MAX_ATTEMPTS := 8

  /** What the queue is told: nothing more to do, or try again. */
  datatype Outcome = Done | Retry

  datatype Claiming = Got | Missing | Broken

  /** How a write went: in effect and known to be, in effect unheard, without effect, or still on its way. */
  datatype Writing = Written | Unheard | Lost | Late {
    predicate Lands() { Written? || Unheard? }
  }

  /** What one delivery meets outside this program. */
  datatype World = World(readable: bool, claim: Writing, prepared: bool, sent: bool, text: string, mark: Writing) {
    /** The delivery gets as far as an attempt, if the email is there to be claimed. */
    predicate Attempts() { readable && claim.Written? }

    /** Its read fails, or its claim fails without effect: nothing happens, and it asks for a retry. */
    predicate Idle() { !readable || claim.Lost? || claim.Late? }

    /** Its claim is not left without an owner, and its mark is not lost. */
    predicate Clean() { Idle() || (Attempts() && mark.Lands()) }

    /** Attachments and the DKIM key come first; a failure there counts like one at the provider. */
    function Verdict(last: bool): Verdict {
      if prepared && sent then Accepted(text) else if last then Final(text) else Retryable(text)
    }
  }

  /** The own steps of one delivery. */
  predicate Attempted(own: seq<Step>, run: nat, id: nat, v: Verdict, r: Outcome) {
    || own == []
    || (own == [ClaimUnheard(id)] && r.Retry?)
    || (own == [Claim(run, id), Answer(run, v)] && (r.Retry? <==> v.Retryable?))
    || (own == [Claim(run, id), Answer(run, v), Record(run)] && (r.Retry? <==> v.Retryable?))
    || (own == [Claim(run, id), Answer(run, v), Drop(run)] && (r.Retry? <==> v.Retryable?))
  }

  /** The row was marked, and nobody has it any more. */
  ghost predicate Ended(e: Email, v: Verdict, now: State, id: nat) {
    && id in now.emails && now.emails[id] == Marked(e, v)
    && (forall t | t in now.runs :: now.runs[t].email != id)
  }

  /** The row is as it was, and nobody has it. */
  ghost predicate Untouched(e: Email, now: State, id: nat) {
    && id in now.emails && now.emails[id] == e
    && (forall t | t in now.runs :: now.runs[t].email != id)
  }

  /** The run has the email, whose row is `e`, unless somebody took either away. */
  ghost predicate Holding(s: State, run: nat, id: nat, e: Email) {
    id in s.emails && id < |s.made| && s.emails[id] == e && Alone(s, run, id)
  }

  class Outbox {
    var workspaces: set<nat>
    var nextWorkspace: nat
    var emails: map<nat, Email>
    var made: seq<Origin>
    var uploads: map<nat, Upload>
    var nextUpload: nat
    var tasks: set<nat>
    var runs: map<nat, Run>
    var accepted: seq<nat>

    function Model(): State
      reads this
    {
      State(workspaces, nextWorkspace, emails, made, uploads, nextUpload, tasks, runs, accepted)
    }

    /** Everything else that happens between two calls of run `run`. */
    method Interfere(ghost run: nat) returns (ghost acts: seq<Act<Step>>)
      modifies this
      ensures Ran(old(Model()), acts, Model()) && Foreign(acts, run)
    {
      acts := [];
    }

    /** The same, carried on a trace. */
    method Pause(ghost run: nat, ghost start: State, ghost before: seq<Act<Step>>) returns (ghost trace: seq<Act<Step>>)
      requires Ran(start, before, Model())
      modifies this
      ensures Ran(start, trace, Model()) && Owned(trace) == Owned(before)
      ensures (run in runs <==> run in old(runs)) && (run in runs ==> runs[run] == old(runs)[run])
      ensures before <= trace
      ensures forall id, e :: Holding(old(Model()), run, id, e) && Spared(trace, id, e.workspace) ==>
                Holding(Model(), run, id, e)
    {
      ghost var mid := Model();
      ghost var acts := Interfere(run);
      RanOthers(start, before, mid, acts, Model());
      ForeignKeepsRun(mid, acts, run);
      trace := before + acts;
      forall id, e | Holding(mid, run, id, e) && Spared(trace, id, e.workspace) ensures Holding(Model(), run, id, e) {
        forall a | a in acts ensures a in trace { }
        PauseSpares(mid, acts, run, id);
      }
    }

    /** The compare-and-set on the status, and its event, in one transaction. */
    method MarkProcessing(run: nat, id: nat, luck: Writing, ghost start: State, ghost before: seq<Act<Step>>)
      returns (r: Claiming, ghost trace: seq<Act<Step>>)
      requires run !in runs && Ran(start, before, Model())
      modifies this
      ensures Ran(start, trace, Model()) && before <= trace && forall k | |before| <= k < |trace| :: trace[k].Own?
      ensures r.Got? <==> luck.Written? && Claimable(old(Model()), id)
      ensures r.Got? ==>
                Model() == Apply(old(Model()), Claim(run, id)) && Owned(trace) == Owned(before) + [Claim(run, id)]
      ensures r.Missing? <==> luck.Written? && !Claimable(old(Model()), id)
      ensures r.Missing? ==> Model() == old(Model()) && trace == before
      ensures r.Broken? ==> Owned(trace) == Owned(before) || Owned(trace) == Owned(before) + [ClaimUnheard(id)]
      ensures luck.Lost? || luck.Late? ==> r.Broken? && Model() == old(Model())
    {
      hide Ran, Owned;
      trace := before;
      var matched := id in emails && (emails[id].status.Queued? || emails[id].status.Failed?);
      if luck.Lost? || luck.Late? {
        return Broken, trace;
      }
      if !matched {
        return if luck.Written? then Missing else Broken, trace;
      }
      ghost var step := if luck.Written? then Claim(run, id) else ClaimUnheard(id);
      RanOwn(start, before, Model(), step);
      trace := before + [Own(step)];
      emails := emails[id := emails[id].(status := Processing, events := emails[id].events + [EventProcessing])];
      if luck.Unheard? {
        return Broken, trace;
      }
      runs := runs[run := Run(id, None)];
      r := Got;
    }

    /** The attempt itself. */
    method Attempt(run: nat, id: nat, last: bool, world: World, ghost start: State, ghost before: seq<Act<Step>>)
      returns (v: Verdict, ghost trace: seq<Act<Step>>)
      requires run in runs && runs[run] == Run(id, None) && Ran(start, before, Model())
      modifies this
      ensures v == world.Verdict(last) && trace == before + [Own(Answer(run, v))]
      ensures Owned(trace) == Owned(before) + [Answer(run, v)]
      ensures Ran(start, trace, Model()) && Model() == Apply(old(Model()), Answer(run, v))
      ensures run in runs && runs[run] == Run(id, Some(v))
    {
      if world.prepared && world.sent {
        v := Accepted(world.text);
        accepted := accepted + [id];
      } else if last {
        v := Final(world.text);
      } else {
        v := Retryable(world.text);
      }
      RanOwn(start, before, old(Model()), Answer(run, v));
      trace := before + [Own(Answer(run, v))];
      runs := runs[run := Run(id, Some(v))];
    }

    /**
     `MarkSent`, `MarkFailed` or `MarkDead`: status, counters and event in one transaction, whatever the status was.
     */
    method Mark(run: nat, luck: Writing, ghost start: State, ghost before: seq<Act<Step>>)
      returns (ghost trace: seq<Act<Step>>)
      requires run in runs && runs[run].verdict.Some? && Ran(start, before, Model())
      modifies this
      ensures Ran(start, trace, Model()) && before <= trace && forall k | |before| <= k < |trace| :: trace[k].Own?
      ensures luck.Written? || luck.Unheard? ==>
                Model() == Apply(old(Model()), Record(run)) && Owned(trace) == Owned(before) + [Record(run)]
      ensures luck.Lost? ==> Model() == Apply(old(Model()), Drop(run)) && Owned(trace) == Owned(before) + [Drop(run)]
      ensures luck.Late? ==> Model() == old(Model()) && trace == before
    {
      trace := before;
      if luck.Late? {
        return;
      }
      ghost var step := if luck.Lost? then Drop(run) else Record(run);
      RanOwn(start, before, Model(), step);
      trace := before + [Own(step)];
      var id, v := runs[run].email, runs[run].verdict.value;
      if !luck.Lost? && id in emails {
        Finish(id, v);
      }
      runs := runs - {run};
    }

    /** The UPDATE of the row and the INSERT of its event. */
    method Finish(id: nat, v: Verdict)
      requires id in emails
      modifies this`emails
      ensures emails == old(emails)[id := Marked(old(emails)[id], v)]
    {
      var e := emails[id];
      match v {
        case Accepted(p) => e := e.(status := Sent, providerId := Some(p), lastError := None,
                                    events := e.events + [EventSent(p)]);
        case Retryable(why) => e := e.(status := Failed, lastError := Some(why),
                                       events := e.events + [EventFailed(why, false)]);
        case Final(why) => e := e.(status := Dead, lastError := Some(why),
                                   events := e.events + [EventFailed(why, true)]);
      }
      emails := emails[id := e.(attempts := e.attempts + 1)];
    }

    /**
     One delivery. Left alone, if its read and its writes succeed, it adds one whole attempt to a queued or failed email
     and asks for a retry exactly when that attempt leaves the email in `failed`; if its read or its claim fails, it
     changes nothing and asks for a retry. The row and its trail end with what the provider answered.
     */
    method Deliver(id: nat, retried: nat, maxRetry: nat, world: World)
      returns (r: Outcome, ghost run: nat, ghost trace: seq<Act<Step>>)
      requires Valid(Model())
      modifies this
      ensures Ran(old(Model()), trace, Model())
      ensures Attempted(Owned(trace), run, id, world.Verdict(retried >= maxRetry), r)
      ensures world.Attempts() && world.mark.Lands() && Claimable(old(Model()), id)
              && Spared(trace, id, old(emails)[id].workspace) ==>
                Ended(Started(old(emails)[id]), world.Verdict(retried >= maxRetry), Model(), id)
                && (r.Retry? <==> emails[id].status.Failed?)
      ensures world.Idle() && Claimable(old(Model()), id) && Spared(trace, id, old(emails)[id].workspace) ==>
                r.Retry? && Untouched(old(emails)[id], Model(), id)
      ensures world.readable && (id !in old(emails) || old(emails)[id].status in {Sent, Dead}) ==>
                r.Done? && trace == [] && Model() == old(Model())
      ensures world.readable && world.claim.Written? && (world.mark.Written? || world.mark.Unheard?)
              && id in old(emails) && old(emails)[id].status in {Queued, Failed}
              && Spared(trace, id, old(emails)[id].workspace) ==>
                && id in emails
                && emails[id].request == old(emails)[id].request
                && emails[id].attempts == old(emails)[id].attempts + 1
                && (world.prepared && world.sent ==>
                      && emails[id].status == Sent
                      && emails[id].providerId == Some(world.text) && emails[id].lastError == None
                      && emails[id].events == old(emails)[id].events + [EventProcessing, EventSent(world.text)])
                && (!world.prepared || !world.sent ==>
                      && emails[id].status == (if retried >= maxRetry then Dead else Failed)
                      && emails[id].providerId == old(emails)[id].providerId
                      && emails[id].lastError == Some(world.text)
                      && emails[id].events ==
                         old(emails)[id].events + [EventProcessing, EventFailed(world.text, retried >= maxRetry)])
    {
      hide Owned, Spared, Ran;
      ghost var start := Model();
      trace := [];
      RanNothing(start);
      var mine := NewId(runs.Keys);
      run := mine;
      if !world.readable {
        if Claimable(start, id) { StartedKeepsRuns(start, id); }
        return Retry, run, trace;
      }
      if id !in emails || emails[id].status.Terminal() {
        return Done, run, trace;
      }
      ghost var e := emails[id];
      var claim;
      claim, trace := Take(mine, id, world.claim, e, start, trace);
      if claim.Missing? {
        return Done, run, trace;
      }
      if claim.Broken? {
        return Retry, run, trace;
      }
      ghost var t1 := trace;
      r, trace := Carry(mine, id, retried >= maxRetry, world, Started(e), start, trace);
      SparedPrefix(t1, trace, id, e.workspace);
    }

    /** Others may come first; if none does, the claim of a queued or failed email succeeds. */
    method Take(run: nat, id: nat, luck: Writing, ghost e: Email, ghost start: State, ghost before: seq<Act<Step>>)
      returns (claim: Claiming, ghost trace: seq<Act<Step>>)
      requires run !in runs && Ran(start, before, Model()) && Valid(Model()) && id in emails && emails[id] == e
      modifies this
      ensures Ran(start, trace, Model()) && before <= trace
      ensures claim.Got? ==>
                run in runs && runs[run] == Run(id, None) && Owned(trace) == Owned(before) + [Claim(run, id)]
      ensures claim.Missing? ==> Owned(trace) == Owned(before)
      ensures claim.Broken? ==> Owned(trace) == Owned(before) || Owned(trace) == Owned(before) + [ClaimUnheard(id)]
      ensures luck.Written? && Claimable(old(Model()), id) && Spared(trace, id, e.workspace) ==>
                claim.Got? && Holding(Model(), run, id, Started(e))
      ensures (luck.Lost? || luck.Late?) && Claimable(old(Model()), id) && Spared(trace, id, e.workspace) ==>
                claim.Broken? && Untouched(e, Model(), id)
    {
      hide Ran, Owned;
      if Claimable(Model(), id) {
        StartedKeepsRuns(Model(), id);
        assert Holding(Model(), run, id, e);
      }
      trace := Pause(run, start, before);
      ghost var t1 := trace;
      claim, trace := MarkProcessing(run, id, luck, start, trace);
      SparedPrefix(t1, trace, id, e.workspace);
    }

    /** From the claim to the mark. */
    method Carry(run: nat, id: nat, last: bool, world: World, ghost e: Email, ghost start: State,
          ghost before: seq<Act<Step>>)
      returns (r: Outcome, ghost trace: seq<Act<Step>>)
      requires run in runs && runs[run] == Run(id, None) && Ran(start, before, Model())
      modifies this
      ensures Ran(start, trace, Model()) && before <= trace && (r.Retry? <==> world.Verdict(last).Retryable?)
      ensures Owned(before) == [Claim(run, id)] ==> Attempted(Owned(trace), run, id, world.Verdict(last), r)
      ensures world.mark.Lands() && Holding(old(Model()), run, id, e) && Spared(trace, id, e.workspace) ==>
                Ended(e, world.Verdict(last), Model(), id)
    {
      hide Ran;
      trace := Pause(run, start, before);
      ghost var t1 := trace;
      var v;
      v, trace := Attempt(run, id, last, world, start, trace);
      ghost var mid := Model();
      assert Holding(old(Model()), run, id, e) && Spared(t1, id, e.workspace) ==> Holding(mid, run, id, e);
      trace := Conclude(run, id, v, world.mark, e, start, trace);
      r := if v.Retryable? then Retry else Done;
      SparedPrefix(t1, trace, id, e.workspace);
    }

    method Conclude(run: nat, id: nat, v: Verdict, luck: Writing, ghost e: Email, ghost start: State,
          ghost before: seq<Act<Step>>)
      returns (ghost trace: seq<Act<Step>>)
      requires run in runs && runs[run] == Run(id, Some(v)) && Ran(start, before, Model())
      modifies this
      ensures Ran(start, trace, Model()) && before <= trace
      ensures Owned(trace) == Owned(before) || Owned(trace) == Owned(before) + [Record(run)] ||
              Owned(trace) == Owned(before) + [Drop(run)]
      ensures luck.Lands() && Holding(old(Model()), run, id, e) && Spared(trace, id, e.workspace) ==>
                Ended(e, v, Model(), id)
    {
      trace := Pause(run, start, before);
      ghost var t1 := trace;
      trace := Mark(run, luck, start, trace);
      SparedPrefix(t1, trace, id, e.workspace);
    }

    /** The task handler: an unreadable payload is not worth a retry, and without a budget the configured one holds. */
    method HandleSend(payload: Option<nat>, retried: nat, maxRetry: Option<nat>, world: World)
      returns (r: Option<Outcome>, ghost run: nat, ghost trace: seq<Act<Step>>)
      requires Valid(Model())
      modifies this
      ensures Ran(old(Model()), trace, Model()) && (r.None? <==> payload.None?)
      ensures (payload.None? ==> Model() == old(Model()))
      ensures var budget := if maxRetry.Some? then maxRetry.value else 8;
              payload.Some? ==> Attempted(Owned(trace), run, payload.value, world.Verdict(retried >= budget), r.value)
    {
      trace, run := [], 0;
      RanNothing(Model());
      if payload.None? {
        return None, run, trace;
      }
      var outcome;
      outcome, run, trace :=
        Deliver(payload.value, retried, if maxRetry.Some? then maxRetry.value else MAX_ATTEMPTS, world);
      r := Some(outcome);
    }

    /**
     The queue's loop around one task: run, and while the delivery asks for it and budget is left, run again. Left
     alone, with no claim left without an owner and no mark lost, the email ends in `sent` or `dead`, within
     `maxRetry + 1` runs, exactly if the last run got as far as an attempt; its attempts are the runs that did. So
     reads and claims may fail, except in the last permitted run.
     */
    method RunTask(id: nat, maxRetry: nat, worlds: nat -> World) returns (tries: nat, ghost trace: seq<Act<Step>>)
      requires Valid(Model()) && id in emails && emails[id].status.Queued?
      modifies this
      ensures Ran(old(Model()), trace, Model()) && 1 <= tries <= maxRetry + 1
      ensures AllClean(worlds, tries) && Spared(trace, id, old(emails)[id].workspace) ==>
                && id in emails && emails[id].attempts == AttemptsOf(worlds, tries)
                && (emails[id].status.Terminal() <==> worlds(tries - 1).Attempts())
                && (!emails[id].status.Terminal() ==> Claimable(Model(), id) && tries == maxRetry + 1)
                && (emails[id].status.Dead? ==> tries == maxRetry + 1)
    {
      hide Ran, Valid, Spared;
      ghost var start, w := Model(), emails[id].workspace;
      trace, tries := [], 0;
      RanNothing(start);
      QueuedIsUntried(start, id);
      var r := Retry;
      while r.Retry? && tries <= maxRetry
        invariant tries <= maxRetry + 1 && (tries == 0 ==> r.Retry?)
        invariant Ran(start, trace, Model()) && Valid(Model())
        invariant AllClean(worlds, tries) && Spared(trace, id, w) ==>
                    && Trying(Model(), id, w, AttemptsOf(worlds, tries), tries, maxRetry, r)
                    && (tries > 0 ==> Answers(worlds(tries - 1), tries - 1, maxRetry, r))
        decreases maxRetry + 1 - tries
      {
        ghost var before := trace;
        r, trace := TryAgain(id, AttemptsOf(worlds, tries), tries, maxRetry, worlds(tries), w, start, trace);
        SparedPrefix(before, trace, id, w);
        tries := tries + 1;
      }
    }

    /** The backoff, then one more delivery. */
    method TryAgain(id: nat, ghost attempts: nat, retried: nat, maxRetry: nat, world: World, ghost w: nat,
          ghost start: State,
          ghost before: seq<Act<Step>>)
      returns (r: Outcome, ghost trace: seq<Act<Step>>)
      requires Valid(start) && Ran(start, before, Model()) && retried <= maxRetry
      modifies this
      ensures Ran(start, trace, Model()) && Valid(Model()) && before <= trace
      ensures Trying(old(Model()), id, w, attempts, retried, maxRetry, Retry) && world.Clean() &&
              Spared(trace, id, w) ==>
                && Trying(Model(), id, w, attempts + (if world.Attempts() then 1 else 0), retried + 1, maxRetry, r)
                && Answers(world, retried, maxRetry, r)
    {
      hide Ran, Valid;
      trace := Backoff(id, attempts, retried, maxRetry, w, start, before);
      ghost var t1, mid := trace, Model();
      ghost var run, more;
      r, run, more := Deliver(id, retried, maxRetry, world);
      RanThen(start, trace, mid, more, Model());
      trace := trace + more;
      RanKeeps(start, trace, Model());
      RanKeeps(mid, more, Model());
      SparedPrefix(t1, trace, id, w);
      SparedRest(t1, more, id, w);
      SparedPrefix(before, t1, id, w);
    }

    /** Others, while the task waits in the queue. */
    method Backoff(id: nat, ghost attempts: nat, ghost retried: nat, ghost maxRetry: nat, ghost w: nat,
          ghost start: State,
          ghost before: seq<Act<Step>>)
      returns (ghost trace: seq<Act<Step>>)
      requires Valid(start) && Ran(start, before, Model())
      modifies this
      ensures Ran(start, trace, Model()) && Valid(Model()) && before <= trace
      ensures Trying(old(Model()), id, w, attempts, retried, maxRetry, Retry) && Spared(trace, id, w) ==>
                Trying(Model(), id, w, attempts, retried, maxRetry, Retry)
    {
      ghost var free := NewId(runs.Keys);
      trace := Pause(free, start, before);
      RanKeeps(start, trace, Model());
      if Trying(old(Model()), id, w, attempts, retried, maxRetry, Retry) && Spared(trace, id, w) {
        assert Holding(old(Model()), free, id, old(emails)[id]);
      }
    }
  }

  /** How many of the first `n` runs got as far as an attempt. */
  function AttemptsOf(worlds: nat -> World, n: nat): nat {
    if n == 0 then 0 else AttemptsOf(worlds, n - 1) + (if worlds(n - 1).Attempts() then 1 else 0)
  }

  predicate AllClean(worlds: nat -> World, n: nat) {
    n == 0 || (AllClean(worlds, n - 1) && worlds(n - 1).Clean())
  }

  /** Without an attempt a run asks for a retry; with one, the last permitted run does not. */
  predicate Answers(world: World, retried: nat, maxRetry: nat, r: Outcome) {
    (world.Idle() ==> r.Retry?) && (world.Attempts() && retried >= maxRetry ==> r.Done?)
  }

  /** After `tries` runs nobody holds the email; it is done, or waits for the next run. */
  ghost predicate Trying(s: State, id: nat, w: nat, attempts: nat, tries: nat, maxRetry: nat, r: Outcome) {
    && id in s.emails && id < |s.made| && s.emails[id].workspace == w && s.emails[id].attempts == attempts
    && (forall t | t in s.runs :: s.runs[t].email != id)
    && (if r.Retry? then Claimable(s, id) else s.emails[id].status.Terminal())
    && (s.emails[id].status.Dead? ==> tries == maxRetry + 1)
  }

  lemma QueuedIsUntried(s: State, id: nat)
    requires Valid(s) && id in s.emails && s.emails[id].status.Queued?
    ensures forall maxRetry: nat :: Trying(s, id, s.emails[id].workspace, 0, 0, maxRetry, Retry)
  {
    AttemptsOfTrail(s.emails[id].events);
    StartedKeepsRuns(s, id);
  }

  lemma SparedPrefix(before: seq<Act<Step>>, trace: seq<Act<Step>>, id: nat, w: nat)
    requires before <= trace
    ensures Spared(trace, id, w) ==> Spared(before, id, w)
  {
    forall a | a in before ensures a in trace { }
  }

  lemma SparedRest(before: seq<Act<Step>>, more: seq<Act<Step>>, id: nat, w: nat)
    ensures Spared(before + more, id, w) ==> Spared(more, id, w)
  {
    forall a | a in more ensures a in before + more { }
  }
}
