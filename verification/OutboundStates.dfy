/**
 Outbound mail as a state machine: the tables `emails`, `email_events` and `attachments`, the task queue, the
 delivery runs in flight, and what the provider has accepted.

 A step is one transaction, one answer of the provider, or a crash. Several workers may run the same task, a run may
 stop anywhere, and a write may fail, take effect unheard, or take effect long after its caller gave up: a run whose
 answer is in stays in `runs` until its mark is written or lost. A step the tables would refuse changes nothing.
 */
module OutboundStates {
  import opened Wrappers

  datatype Status = Queued | Processing | Sent | Failed | Dead {
    predicate Terminal() { Sent? || Dead? }
  }

  datatype Event = EventQueued | EventProcessing | EventSent(providerId: string)
    | EventFailed(reason: string, final: bool)

  datatype Request = Request(
    from: string, to: seq<string>, cc: seq<string>, bcc: seq<string>,
    subject: string, text: string, html: string, inReplyTo: string, references: string)

  datatype Email = Email(
    workspace: nat, key: string, request: Request,
    status: Status, providerId: Option<string>, attempts: nat, lastError: Option<string>, events: seq<Event>)

  datatype Upload = Upload(workspace: nat, size: nat, owner: Option<nat>)

  /** How one attempt ended. Without a verdict the run has claimed its email and not heard back. */
  datatype Verdict = Accepted(providerId: string) | Retryable(reason: string) | Final(reason: string)
  datatype Run = Run(email: nat, verdict: Option<Verdict>)

  /** Where an email came from, kept after its row is gone. */
  datatype Origin = Origin(workspace: nat, key: string)

  datatype State = State(
    workspaces: set<nat>,
    nextWorkspace: nat,
    emails: map<nat, Email>,
    made: seq<Origin>,        // one per email id ever given
    uploads: map<nat, Upload>,
    nextUpload: nat,
    tasks: set<nat>,          // task ids are email ids, so a queued task is not queued twice
    runs: map<nat, Run>,
    accepted: seq<nat>        // emails the provider said yes to, in order
  )

  datatype Step =
    | OpenWorkspace
    | CloseWorkspace(workspace: nat)
    | StoreUpload(workspace: nat, size: nat)
    | Create(workspace: nat, key: string, request: Request)
    | Attach(email: nat, workspace: nat, ids: set<nat>)
    | Enqueue(email: nat)
    | Dequeue(email: nat)
    | Claim(run: nat, email: nat)
    | ClaimUnheard(email: nat)
    | Answer(run: nat, verdict: Verdict)
    | Record(run: nat)
    | Drop(run: nat)

  const Initial := State({}, 0, map[], [], map[], 0, {}, map[], [])

  // ------------------------------------------------------------------ one function per step

  function Opened(s: State): State {
    s.(workspaces := s.workspaces + {s.nextWorkspace}, nextWorkspace := s.nextWorkspace + 1)
  }

  predicate GoesWith(s: State, w: nat, u: Upload) {
    u.workspace == w || (u.owner.Some? && u.owner.value in s.emails && s.emails[u.owner.value].workspace == w)
  }

  /** Everything a workspace owns goes with it, and with an email what is attached to it. */
  function Closed(s: State, w: nat): State {
    s.(workspaces := s.workspaces - {w},
       emails := map id | id in s.emails && s.emails[id].workspace != w :: s.emails[id],
       uploads := map u | u in s.uploads && !GoesWith(s, w, s.uploads[u]) :: s.uploads[u])
  }

  function Uploaded(s: State, w: nat, size: nat): State {
    if w !in s.workspaces || size == 0 then s
    else s.(uploads := s.uploads[s.nextUpload := Upload(w, size, None)], nextUpload := s.nextUpload + 1)
  }

  /** The unique index on (workspace_id, idempotency_key); an empty key is stored as NULL. */
  predicate KeyTaken(s: State, w: nat, key: string) {
    key != "" && exists id | id in s.emails :: s.emails[id].workspace == w && s.emails[id].key == key
  }

  function Fresh(w: nat, key: string, request: Request): Email {
    Email(w, key, request, Queued, None, 0, None, [EventQueued])
  }

  function Created(s: State, w: nat, key: string, request: Request): State {
    if w !in s.workspaces || KeyTaken(s, w, key) then s
    else s.(emails := s.emails[|s.made| := Fresh(w, key, request)], made := s.made + [Origin(w, key)])
  }

  /** The uploads `ids` names that the workspace owns and no email has. */
  function Loose(s: State, w: nat, ids: set<nat>): set<nat> {
    set u | u in ids && u in s.uploads && s.uploads[u].workspace == w && s.uploads[u].owner.None?
  }

  function Attached(s: State, id: nat, w: nat, ids: set<nat>): State {
    if id !in s.emails then s
    else
      var loose := Loose(s, w, ids);
      s.(uploads := map u | u in s.uploads :: if u in loose then s.uploads[u].(owner := Some(id)) else s.uploads[u])
  }

  predicate Claimable(s: State, id: nat) {
    id in s.emails && (s.emails[id].status.Queued? || s.emails[id].status.Failed?)
  }

  function Started(e: Email): Email {
    e.(status := Processing, events := e.events + [EventProcessing])
  }

  function Marked(e: Email, v: Verdict): Email {
    match v
    case Accepted(p) =>
      e.(status := Sent, providerId := Some(p), attempts := e.attempts + 1, lastError := None,
         events := e.events + [EventSent(p)])
    case Retryable(why) =>
      e.(status := Failed, attempts := e.attempts + 1, lastError := Some(why),
         events := e.events + [EventFailed(why, false)])
    case Final(why) =>
      e.(status := Dead, attempts := e.attempts + 1, lastError := Some(why),
         events := e.events + [EventFailed(why, true)])
  }

  function Claimed(s: State, run: nat, id: nat): State {
    if run in s.runs || !Claimable(s, id) then s
    else s.(emails := s.emails[id := Started(s.emails[id])], runs := s.runs[run := Run(id, None)])
  }

  function ClaimedUnheard(s: State, id: nat): State {
    if !Claimable(s, id) then s else s.(emails := s.emails[id := Started(s.emails[id])])
  }

  function Answered(s: State, run: nat, v: Verdict): State {
    if run !in s.runs || s.runs[run].verdict.Some? then s
    else s.(runs := s.runs[run := s.runs[run].(verdict := Some(v))],
            accepted := if v.Accepted? then s.accepted + [s.runs[run].email] else s.accepted)
  }

  /** The marks carry no guard on the status: they write whatever row has the id. */
  function Recorded(s: State, run: nat): State {
    if run !in s.runs || s.runs[run].verdict.None? then s
    else
      var id, done := s.runs[run].email, s.(runs := s.runs - {run});
      if id in s.emails then done.(emails := s.emails[id := Marked(s.emails[id], s.runs[run].verdict.value)]) else done
  }

  function Apply(s: State, e: Step): State {
    match e
    case OpenWorkspace => Opened(s)
    case CloseWorkspace(w) => Closed(s, w)
    case StoreUpload(w, size) => Uploaded(s, w, size)
    case Create(w, key, request) => Created(s, w, key, request)
    case Attach(id, w, ids) => Attached(s, id, w, ids)
    case Enqueue(id) => s.(tasks := s.tasks + {id})
    case Dequeue(id) => s.(tasks := s.tasks - {id})
    case Claim(run, id) => Claimed(s, run, id)
    case ClaimUnheard(id) => ClaimedUnheard(s, id)
    case Answer(run, v) => Answered(s, run, v)
    case Record(run) => Recorded(s, run)
    case Drop(run) => s.(runs := s.runs - {run})
  }

  /** The state after a run. */
  function Exec(s: State, steps: seq<Step>): State
    decreases |steps|
  {
    if steps == [] then s else Apply(Exec(s, steps[..|steps| - 1]), steps[|steps| - 1])
  }

  lemma ExecLast(s: State, steps: seq<Step>, e: Step)
    ensures Exec(s, steps + [e]) == Apply(Exec(s, steps), e)
  {
    assert (steps + [e])[..|steps + [e]| - 1] == steps;
  }

  /** Runs compose. */
  lemma {:induction false} ExecConcat(s: State, a: seq<Step>, b: seq<Step>)
    ensures Exec(s, a + b) == Exec(Exec(s, a), b)
    decreases |b|
  {
    if b == [] {
      assert a + b == a;
    } else {
      var front := b[..|b| - 1];
      assert (a + b)[..|a + b| - 1] == a + front;
      ExecConcat(s, a, front);
    }
  }
}
