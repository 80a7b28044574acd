/**
 What every run of the delivery protocol keeps, whatever its workers, crashes and lost writes.

 The marks at the end of an attempt are unguarded updates, so at-most-once delivery rests on ownership: an email in
 `processing` has at most one run, and only a run may ask the provider. From it follow `AtMostOneSuccess`, the shape
 of every event trail (`EveryTrail`) and one email per idempotency key (`OneEmailPerKey`).
 */
module OutboundInvariant {
  import opened OutboundStates
  import opened Wrappers

  // ---------------------------------------------------------------- event trails

  predicate IsOutcome(e: Event) { e.EventSent? || e.EventFailed? }

  /** queued (processing failed)* [processing [sent | failed-final]] */
  predicate Trail(es: seq<Event>) {
    && |es| >= 1 && es[0].EventQueued?
    && forall i | 1 <= i < |es| ::
         if i % 2 == 1 then es[i].EventProcessing?
         else IsOutcome(es[i]) && (i < |es| - 1 ==> es[i].EventFailed? && !es[i].final)
  }

  function StatusAfter(e: Event): Status {
    match e
    case EventQueued => Queued
    case EventProcessing => Processing
    case EventSent(_) => Sent
    case EventFailed(_, final) => if final then Dead else Failed
  }

  function Attempts(es: seq<Event>): nat {
    if es == [] then 0 else Attempts(es[..|es| - 1]) + (if IsOutcome(es[|es| - 1]) then 1 else 0)
  }

  function LastError(es: seq<Event>): Option<string> {
    if es == [] then None
    else
      var last := es[|es| - 1];
      if last.EventFailed? then Some(last.reason) else if last.EventSent? then None else LastError(es[..|es| - 1])
  }

  /** The row is what its trail says. */
  predicate Told(e: Email) {
    && Trail(e.events)
    && e.status == StatusAfter(e.events[|e.events| - 1])
    && e.attempts == Attempts(e.events)
    && e.lastError == LastError(e.events)
    && e.providerId == (if e.events[|e.events| - 1].EventSent? then Some(e.events[|e.events| - 1].providerId) else None)
  }

  lemma FreshTold(w: nat, key: string, request: Request)
    ensures Told(Fresh(w, key, request))
  {
    assert Fresh(w, key, request).events[..0] == [];
  }

  lemma StartedTold(e: Email)
    requires Told(e) && (e.status.Queued? || e.status.Failed?)
    ensures Told(Started(e))
  {
    hide Trail, Attempts, LastError;
    StartedEvents(e.events);
  }

  lemma StartedEvents(events: seq<Event>)
    requires Trail(events) && !events[|events| - 1].EventProcessing?
    requires var s := StatusAfter(events[|events| - 1]); s.Queued? || s.Failed?
    ensures var more := events + [EventProcessing];
            && Trail(more) && Attempts(more) == Attempts(events) && LastError(more) == LastError(events)
  {
    assert (events + [EventProcessing])[..|events|] == events;
  }

  lemma MarkedTold(e: Email, v: Verdict)
    requires Told(e) && e.status.Processing?
    ensures Told(Marked(e, v))
  {
    assert Marked(e, v).events[..|e.events|] == e.events;
  }

  /** In a trail, an attempt is a started and finished pair; so the counter can be read off its length. */
  lemma {:induction false} AttemptsOfTrail(es: seq<Event>)
    requires Trail(es)
    ensures Attempts(es) == (|es| - 1) / 2
    decreases |es|
  {
    if |es| > 1 {
      AttemptsOfTrail(es[..|es| - 1]);
    } else {
      assert es[..0] == [];
    }
  }

  // ---------------------------------------------------------------- the invariant

  /** Rows agree with their origin and their trail; ids of open workspaces keep their row. */
  ghost predicate EmailsOk(s: State) {
    && (forall id | id in s.emails ::
          id < |s.made| && s.made[id] == Origin(s.emails[id].workspace, s.emails[id].key) && Told(s.emails[id]))
    && (forall id | id in s.emails :: s.emails[id].workspace in s.workspaces)
    && (forall id: nat | id < |s.made| && s.made[id].workspace in s.workspaces :: id in s.emails)
  }

  ghost predicate WorkspacesOk(s: State) {
    && (forall w | w in s.workspaces :: w < s.nextWorkspace)
    && (forall o | o in s.made :: o.workspace < s.nextWorkspace)
  }

  predicate SameKey(made: seq<Origin>, a: nat, b: nat) {
    a < |made| && b < |made| && made[a] == made[b] && made[a].key != ""
  }

  ghost predicate KeysOk(made: seq<Origin>) {
    forall a, b :: SameKey(made, a, b) ==> a == b
  }

  /** A run owns its email: nobody else runs it, it is in `processing`, and only its own verdict can be a success. */
  ghost predicate RunOk(s: State, r: Run) {
    && r.email < |s.made|
    && (r.email in s.emails ==> s.emails[r.email].status.Processing?)
    && (r.email in s.accepted <==> r.verdict.Some? && r.verdict.value.Accepted?)
  }

  ghost predicate RunsOk(s: State) {
    && (forall t | t in s.runs :: RunOk(s, s.runs[t]))
    && (forall t, o | t in s.runs && o in s.runs && s.runs[t].email == s.runs[o].email :: t == o)
  }

  ghost predicate AcceptedOk(s: State) {
    && (forall i, j | 0 <= i < j < |s.accepted| :: s.accepted[i] != s.accepted[j])
    && (forall id | id in s.accepted :: id < |s.made|)
    && (forall id | id in s.emails && !s.emails[id].status.Processing? ::
          id in s.accepted <==> s.emails[id].status.Sent?)
  }

  ghost predicate UploadsOk(s: State) {
    && (forall u | u in s.uploads ::
          u < s.nextUpload && s.uploads[u].size > 0 && s.uploads[u].workspace in s.workspaces)
    && (forall u | u in s.uploads && s.uploads[u].owner.Some? :: s.uploads[u].owner.value in s.emails)
  }

  ghost predicate Valid(s: State) {
    EmailsOk(s) && WorkspacesOk(s) && KeysOk(s.made) && RunsOk(s) && AcceptedOk(s) && UploadsOk(s)
  }

  // ---------------------------------------------------------------- each step keeps it

  lemma ClosedKeeps(s: State, w: nat)
    requires Valid(s)
    ensures Valid(Closed(s, w))
  {
    var r := Closed(s, w);
    forall u | u in r.uploads && r.uploads[u].owner.Some? ensures r.uploads[u].owner.value in r.emails {
      assert s.uploads[u].owner.value in s.emails;
    }
    forall t | t in r.runs ensures RunOk(r, r.runs[t]) { assert RunOk(s, s.runs[t]); }
  }

  lemma OpenedKeeps(s: State)
    requires Valid(s)
    ensures Valid(Opened(s))
  {
    var r := Opened(s);
    forall id: nat | id < |r.made| && r.made[id].workspace in r.workspaces ensures id in r.emails {
      assert r.made[id] in s.made;
    }
    forall t | t in r.runs ensures RunOk(r, r.runs[t]) { assert RunOk(s, s.runs[t]); }
  }

  lemma CreatedKeeps(s: State, w: nat, key: string, request: Request)
    requires Valid(s) && w in s.workspaces && !KeyTaken(s, w, key)
    ensures Valid(Created(s, w, key, request))
  {
    var r := Created(s, w, key, request);
    CreatedKeepsEmails(s, w, key, request);
    CreatedKeepsKeys(s, w, key, request);
    forall t | t in r.runs ensures RunOk(r, r.runs[t]) { assert RunOk(s, s.runs[t]); }
  }

  lemma CreatedKeepsEmails(s: State, w: nat, key: string, request: Request)
    requires EmailsOk(s) && WorkspacesOk(s) && w in s.workspaces && !KeyTaken(s, w, key)
    ensures EmailsOk(Created(s, w, key, request)) && WorkspacesOk(Created(s, w, key, request))
  {
    FreshTold(w, key, request);
  }

  lemma CreatedKeepsKeys(s: State, w: nat, key: string, request: Request)
    requires EmailsOk(s) && KeysOk(s.made) && w in s.workspaces && !KeyTaken(s, w, key)
    ensures KeysOk(Created(s, w, key, request).made)
  {
    var r := Created(s, w, key, request);
    forall a: nat, b: nat | SameKey(r.made, a, b) ensures a == b {
      var added := |s.made|;
      assert a < added && b == added ==> a in s.emails;
      assert b < added && a == added ==> b in s.emails;
      assert a < added && b < added ==> SameKey(s.made, a, b);
    }
  }

  /** Replacing a row by one that its trail tells as well. */
  lemma RewrittenKeeps(s: State, id: nat, e: Email)
    requires EmailsOk(s) && UploadsOk(s) && id in s.emails
    requires Told(e) && e.workspace == s.emails[id].workspace && e.key == s.emails[id].key
    ensures var r := s.(emails := s.emails[id := e]); EmailsOk(r) && UploadsOk(r)
  {
  }

  lemma StartedKeeps(s: State, id: nat)
    requires Valid(s) && Claimable(s, id)
    ensures Valid(ClaimedUnheard(s, id)) && forall t | t in s.runs :: s.runs[t].email != id
  {
    StartedTold(s.emails[id]);
    RewrittenKeeps(s, id, Started(s.emails[id]));
    StartedKeepsRuns(s, id);
  }

  lemma StartedKeepsRuns(s: State, id: nat)
    requires RunsOk(s) && AcceptedOk(s) && Claimable(s, id)
    ensures RunsOk(ClaimedUnheard(s, id)) && AcceptedOk(ClaimedUnheard(s, id))
    ensures forall t | t in s.runs :: s.runs[t].email != id
  {
    var r := ClaimedUnheard(s, id);
    forall t | t in s.runs ensures s.runs[t].email != id && RunOk(r, r.runs[t]) { assert RunOk(s, s.runs[t]); }
  }

  /** The compare-and-set is what makes the new run the only one. */
  lemma ClaimedKeeps(s: State, run: nat, id: nat)
    requires Valid(s) && run !in s.runs && Claimable(s, id)
    ensures Valid(Claimed(s, run, id))
  {
    StartedKeeps(s, id);
    ClaimedKeepsRuns(ClaimedUnheard(s, id), run, id);
    assert Claimed(s, run, id) == ClaimedUnheard(s, id).(runs := s.runs[run := Run(id, None)]);
  }

  lemma ClaimedKeepsRuns(s: State, run: nat, id: nat)
    requires EmailsOk(s) && RunsOk(s) && run !in s.runs && id in s.emails
    requires s.emails[id].status.Processing? && id !in s.accepted
    requires forall t | t in s.runs :: s.runs[t].email != id
    ensures RunsOk(s.(runs := s.runs[run := Run(id, None)]))
  {
    var r := s.(runs := s.runs[run := Run(id, None)]);
    forall t | t in r.runs ensures RunOk(r, r.runs[t]) {
      if t != run { assert RunOk(s, s.runs[t]); }
    }
  }

  lemma AnsweredKeeps(s: State, run: nat, v: Verdict)
    requires RunsOk(s) && AcceptedOk(s) && run in s.runs && s.runs[run].verdict.None?
    ensures RunsOk(Answered(s, run, v)) && AcceptedOk(Answered(s, run, v))
  {
    var r := Answered(s, run, v);
    assert RunOk(s, s.runs[run]);
    forall t | t in r.runs ensures RunOk(r, r.runs[t]) {
      assert RunOk(s, s.runs[t]);
      if t != run { assert s.runs[t].email != s.runs[run].email; }
    }
  }

  /** The mark is unguarded, but its run is the row's only owner, and the row is still in `processing`. */
  lemma RecordedKeeps(s: State, run: nat)
    requires Valid(s) && run in s.runs && s.runs[run].verdict.Some?
    ensures Valid(Recorded(s, run))
  {
    var id, v := s.runs[run].email, s.runs[run].verdict.value;
    assert RunOk(s, s.runs[run]);
    if id in s.emails {
      MarkedTold(s.emails[id], v);
      RewrittenKeeps(s, id, Marked(s.emails[id], v));
    }
    RecordedKeepsRuns(s, run);
  }

  lemma RecordedKeepsRuns(s: State, run: nat)
    requires RunsOk(s) && AcceptedOk(s) && run in s.runs && s.runs[run].verdict.Some?
    ensures RunsOk(Recorded(s, run)) && AcceptedOk(Recorded(s, run))
  {
    var r, id := Recorded(s, run), s.runs[run].email;
    assert RunOk(s, s.runs[run]);
    forall t | t in r.runs ensures RunOk(r, r.runs[t]) {
      assert RunOk(s, s.runs[t]) && s.runs[t].email != id;
    }
  }

  lemma AttachedKeeps(s: State, id: nat, w: nat, ids: set<nat>)
    requires Valid(s)
    ensures Valid(Attached(s, id, w, ids))
  {
    var r := Attached(s, id, w, ids);
    forall t | t in r.runs ensures RunOk(r, r.runs[t]) { assert RunOk(s, s.runs[t]); }
  }

  lemma DroppedKeeps(s: State, run: nat)
    requires Valid(s)
    ensures Valid(s.(runs := s.runs - {run}))
  {
    var r := s.(runs := s.runs - {run});
    forall t | t in r.runs ensures RunOk(r, r.runs[t]) { assert RunOk(s, s.runs[t]); }
  }

  lemma UploadedKeeps(s: State, w: nat, size: nat)
    requires Valid(s)
    ensures Valid(Uploaded(s, w, size))
  {
    var r := Uploaded(s, w, size);
    forall t | t in r.runs ensures RunOk(r, r.runs[t]) { assert RunOk(s, s.runs[t]); }
  }

  lemma StepKeeps(s: State, e: Step)
    requires Valid(s)
    ensures Valid(Apply(s, e))
  {
    match e {
      case OpenWorkspace => OpenedKeeps(s);
      case CloseWorkspace(w) => ClosedKeeps(s, w);
      case StoreUpload(w, size) => UploadedKeeps(s, w, size);
      case Create(w, key, request) => if w in s.workspaces && !KeyTaken(s, w, key) { CreatedKeeps(s, w, key, request); }
      case Attach(id, w, ids) => AttachedKeeps(s, id, w, ids);
      case Claim(run, id) => if run !in s.runs && Claimable(s, id) { ClaimedKeeps(s, run, id); }
      case ClaimUnheard(id) => if Claimable(s, id) { StartedKeeps(s, id); }
      case Answer(run, v) => if run in s.runs && s.runs[run].verdict.None? { AnsweredKeeps(s, run, v); }
      case Record(run) => if run in s.runs && s.runs[run].verdict.Some? { RecordedKeeps(s, run); }
      case Drop(run) => DroppedKeeps(s, run);
      case _ => TasksKeep(s, e);
    }
  }

  lemma TasksKeep(s: State, e: Step)
    requires Valid(s) && (e.Enqueue? || e.Dequeue?)
    ensures Valid(Apply(s, e))
  {
    var r := Apply(s, e);
    forall t | t in r.runs ensures RunOk(r, r.runs[t]) { assert RunOk(s, s.runs[t]); }
  }

  lemma {:induction false} RunKeeps(s: State, steps: seq<Step>)
    requires Valid(s)
    ensures Valid(Exec(s, steps))
    decreases |steps|
  {
    if steps != [] {
      RunKeeps(s, steps[..|steps| - 1]);
      StepKeeps(Exec(s, steps[..|steps| - 1]), steps[|steps| - 1]);
    }
  }

  // ---------------------------------------------------------------- what holds after every run

  /**
   However workers, duplicate tasks, crashes and lost writes interleave, the provider accepts each email at most once.
   */
  lemma {:induction false} AtMostOneSuccess(steps: seq<Step>)
    ensures var s := Exec(Initial, steps);
            && (forall i, j | 0 <= i < j < |s.accepted| :: s.accepted[i] != s.accepted[j])
            && (forall id | id in s.emails && id in s.accepted ::
                  s.emails[id].status.Sent? || s.emails[id].status.Processing?)
            && (forall id | id in s.emails && s.emails[id].status.Sent? :: id in s.accepted)
  {
    RunKeeps(Initial, steps);
  }

  /** Every email at every time: its trail has the documented form and tells its status, attempts and last error. */
  lemma {:induction false} EveryTrail(steps: seq<Step>, id: nat)
    requires id in Exec(Initial, steps).emails
    ensures var e := Exec(Initial, steps).emails[id];
            Told(e) && e.attempts == (|e.events| - 1) / 2
  {
    RunKeeps(Initial, steps);
    AttemptsOfTrail(Exec(Initial, steps).emails[id].events);
  }

  /** Under one workspace and key there is at most one email, ever, and so at most one success. */
  lemma {:induction false} OneEmailPerKey(steps: seq<Step>)
    ensures var s := Exec(Initial, steps);
            && (forall a, b :: SameKey(s.made, a, b) ==> a == b)
            && (forall i, j | 0 <= i < |s.accepted| && 0 <= j < |s.accepted|
                              && SameKey(s.made, s.accepted[i], s.accepted[j]) :: i == j)
  {
    RunKeeps(Initial, steps);
  }

  // ---------------------------------------------------------------- what never changes again

  ghost predicate EmailsProceed(s: State, r: State) {
    s.made <= r.made && s.accepted <= r.accepted
    && forall id | id in r.emails && id < |s.made| :: id in s.emails && EmailProceeds(s.emails[id], r.emails[id])
  }

  ghost predicate UploadsProceed(s: State, r: State) {
    s.nextUpload <= r.nextUpload
    && forall u | u in r.uploads && u < s.nextUpload :: u in s.uploads && UploadProceeds(s.uploads[u], r.uploads[u])
  }

  /** From one state to a later one: rows and claims only move forward, and what is gone stays gone. */
  ghost predicate Proceeds(s: State, r: State) {
    EmailsProceed(s, r) && UploadsProceed(s, r)
  }

  predicate EmailProceeds(a: Email, b: Email) {
    && b.workspace == a.workspace && b.key == a.key && b.request == a.request
    && a.events <= b.events && (a.status.Terminal() ==> b == a)
  }

  predicate UploadProceeds(a: Upload, b: Upload) {
    b.workspace == a.workspace && b.size == a.size && (a.owner.Some? ==> b.owner == a.owner)
  }

  lemma RecordProceeds(s: State, run: nat)
    requires RunsOk(s)
    ensures EmailsProceed(s, Recorded(s, run))
  {
    if run in s.runs { assert RunOk(s, s.runs[run]); }
  }

  lemma EmailStepProceeds(s: State, e: Step)
    requires RunsOk(s)
    ensures EmailsProceed(s, Apply(s, e))
  {
    match e {
      case Record(run) => RecordProceeds(s, run);
      case CloseWorkspace(w) => assert EmailsProceed(s, Closed(s, w));
      case Create(w, key, request) => assert EmailsProceed(s, Created(s, w, key, request));
      case Claim(run, id) => assert EmailsProceed(s, Claimed(s, run, id));
      case ClaimUnheard(id) => assert EmailsProceed(s, ClaimedUnheard(s, id));
      case _ => assert Apply(s, e).emails == s.emails;
    }
  }

  lemma UploadStepProceeds(s: State, e: Step)
    ensures UploadsProceed(s, Apply(s, e))
  {
    match e {
      case CloseWorkspace(w) => assert UploadsProceed(s, Closed(s, w));
      case Attach(id, w, ids) => assert UploadsProceed(s, Attached(s, id, w, ids));
      case _ =>
    }
  }

  lemma StepProceeds(s: State, e: Step)
    requires Valid(s)
    ensures Proceeds(s, Apply(s, e))
  {
    EmailStepProceeds(s, e);
    UploadStepProceeds(s, e);
  }

  /**
   Requests, workspaces, keys and sizes never change, trails only grow, a sent or dead email and a claimed upload stay
   as they are.
   */
  lemma {:induction false} RunProceeds(s: State, steps: seq<Step>)
    requires Valid(s)
    ensures Proceeds(s, Exec(s, steps))
    decreases |steps|
  {
    if steps != [] {
      var front, mid, r := steps[..|steps| - 1], Exec(s, steps[..|steps| - 1]), Exec(s, steps);
      RunProceeds(s, front);
      RunKeeps(s, front);
      StepProceeds(mid, steps[|steps| - 1]);
      forall id | id in r.emails && id < |s.made| ensures id in s.emails && EmailProceeds(s.emails[id], r.emails[id]) {
        assert EmailProceeds(mid.emails[id], r.emails[id]) && EmailProceeds(s.emails[id], mid.emails[id]);
      }
    }
  }

  /** An upload is never attached to a second email. */
  lemma {:induction false} OwnerIsForever(s: State, steps: seq<Step>, u: nat)
    requires Valid(s) && u in s.uploads && s.uploads[u].owner.Some? && u in Exec(s, steps).uploads
    ensures Exec(s, steps).uploads[u].owner == s.uploads[u].owner
  {
    RunProceeds(s, steps);
  }

  // ---------------------------------------------------------------- the price of not knowing

  predicate Abandoned(s: State, id: nat) {
    id in s.emails && s.emails[id].status.Processing? && forall t | t in s.runs :: s.runs[t].email != id
  }

  lemma StepAbandons(s: State, e: Step, id: nat)
    requires Abandoned(s, id) && id in Apply(s, e).emails && id < |s.made|
    ensures Abandoned(Apply(s, e), id) && Apply(s, e).emails[id] == s.emails[id]
    ensures id in Apply(s, e).accepted <==> id in s.accepted
  {
  }

  /**
   A claim or a mark that is lost leaves its email in `processing` with no run. Nothing looks at such an email again:
   it is never sent, failed or given up, however many tasks for it run.
   */
  lemma {:induction false} AbandonedIsStuck(s: State, steps: seq<Step>, id: nat)
    requires Valid(s) && Abandoned(s, id) && id in Exec(s, steps).emails
    ensures var r := Exec(s, steps);
            Abandoned(r, id) && r.emails[id] == s.emails[id] && (id in r.accepted <==> id in s.accepted)
    decreases |steps|
  {
    if steps != [] {
      var front := steps[..|steps| - 1];
      var mid := Exec(s, front);
      RunKeeps(s, front);
      RunProceeds(s, front);
      StepProceeds(mid, steps[|steps| - 1]);
      AbandonedIsStuck(s, front, id);
      StepAbandons(mid, steps[|steps| - 1], id);
    }
  }
}
