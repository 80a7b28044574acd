/**
 Accepting a message: the idempotency lookup, the attachment check, the row, the attachment claim and the task, each
 its own statement, with anything in between. A `Send` that keeps a message it was asked to compare or create leaves
 that message owning exactly what was named, whoever raced it.
 */
module SendService {
  import opened Ascending
  import opened DeliveryWorker
  import opened OutboundInvariant
  import opened OutboundStates
  import opened OutboundTraces
  import opened Text
  import opened Traces
  import opened Wrappers

  const MAX_RECIPIENTS := 50

  datatype Why = Invalid | Forbidden | Mismatch | Unavailable | NoAttachment | TooLarge | NotQueued

  /** A kept message is the one just created, an equal one created before, or the winner of a race for the key. */
  datatype How = New | Same | Winner

  datatype Reply = Kept(email: nat, how: How) | Stuck(email: nat, why: Why) | Refused(why: Why)

  /** What one `Send` meets outside this program: validator, sender check, and how each statement goes. */
  datatype Luck = Luck(wellFormed: bool, allowed: bool, readable: bool, create: Writing, attach: Writing,
        enqueue: Writing) {
    predicate AllWell() { wellFormed && allowed && readable && create.Written? && attach.Written? && enqueue.Written? }
  }

  predicate Acceptable(req: Request) {
    |req.to| + |req.cc| + |req.bcc| <= MAX_RECIPIENTS && !(Blank(req.text) && Blank(req.html))
  }

  /** At most fifty recipients, and something other than white space to read. */
  lemma AcceptableIs(req: Request)
    ensures Acceptable(req) <==>
            && |req.to| + |req.cc| + |req.bcc| <= 50
            && exists c :: c in req.text + req.html && c !in {' ', '\t', '\n', '\U{0B}', '\U{0C}', '\r'}
  {
    forall c: char ensures IsSpace(c) <==> c in {' ', '\t', '\n', '\U{0B}', '\U{0C}', '\r'} { IsSpaceIs(c); }
    forall c ensures c in req.text + req.html <==> c in req.text || c in req.html { }
  }

  // ---------------------------------------------------------------- lists of ids

  predicate Distinct(ids: seq<nat>) {
    forall i, j | 0 <= i < j < |ids| :: ids[i] != ids[j]
  }

  lemma {:induction false} SetIsSmaller(ids: seq<nat>)
    ensures |Members(ids)| <= |ids| && (|Members(ids)| == |ids| <==> Distinct(ids))
  {
    if ids != [] {
      var rest := ids[1..];
      SetIsSmaller(rest);
      assert ids == [ids[0]] + rest;
      if ids[0] in rest {
        assert Members(ids) == Members(rest);
        var j :| 0 <= j < |rest| && rest[j] == ids[0];
        assert ids[j + 1] == ids[0];
      } else {
        assert Members(ids) == Members(rest) + {ids[0]};
        assert Distinct(ids) ==> Distinct(rest);
      }
    }
  }

  predicate AllLoose(s: State, w: nat, ids: seq<nat>) {
    forall u | u in ids :: u in s.uploads && s.uploads[u].workspace == w && s.uploads[u].owner.None?
  }

  /** Comparing two counts is enough: it also catches an id named twice. */
  lemma CountMeansAll(s: State, w: nat, ids: seq<nat>)
    ensures |Loose(s, w, Members(ids))| == |ids| <==> Distinct(ids) && AllLoose(s, w, ids)
  {
    var all, loose := Members(ids), Loose(s, w, Members(ids));
    SetIsSmaller(ids);
    SubsetSize(loose, all);
    if AllLoose(s, w, ids) { assert loose == all; }
    if loose == all { forall u | u in ids ensures u in loose { assert u in all; } }
  }

  lemma SubsetSize(a: set<nat>, b: set<nat>)
    requires a <= b
    ensures |a| <= |b| && (|a| == |b| <==> a == b)
  {
    assert b == a + (b - a) && a !! (b - a);
    assert |b| == |a| + |b - a|;
  }

  function Total(uploads: map<nat, Upload>, ids: seq<nat>): nat
    requires forall u | u in ids :: u in uploads
  {
    if ids == [] then 0 else uploads[ids[0]].size + Total(uploads, ids[1..])
  }

  lemma {:induction false} TotalSplit(uploads: map<nat, Upload>, a: seq<nat>, b: seq<nat>)
    requires forall u | u in a + b :: u in uploads
    ensures (forall u | u in a :: u in uploads) && (forall u | u in b :: u in uploads)
    ensures Total(uploads, a + b) == Total(uploads, a) + Total(uploads, b)
  {
    forall u | u in a || u in b ensures u in uploads { assert u in a + b; }
    if a == [] {
      assert a + b == b;
    } else {
      assert (a + b)[1..] == a[1..] + b;
      TotalSplit(uploads, a[1..], b);
    }
  }

  /** The sizes of all ids named, each as often as it is named. */
  lemma TotalIs(uploads: map<nat, Upload>, a: seq<nat>, u: nat, b: seq<nat>)
    requires forall v | v in a + [u] + b :: v in uploads
    ensures (forall v | v in a :: v in uploads) && (forall v | v in b :: v in uploads) && u in uploads
    ensures Total(uploads, []) == 0
    ensures Total(uploads, a + [u] + b) == Total(uploads, a) + uploads[u].size + Total(uploads, b)
  {
    assert (a + [u] + b)[|a|] == u;
    TotalSplit(uploads, a + [u], b);
    TotalSplit(uploads, a, [u]);
  }

  lemma WithoutOne(b: seq<nat>, j: nat)
    requires j < |b|
    ensures multiset(b[..j] + b[j + 1..]) == multiset(b) - multiset{b[j]}
  {
    assert b == b[..j] + [b[j]] + b[j + 1..];
  }

  lemma TotalWithout(uploads: map<nat, Upload>, b: seq<nat>, j: nat)
    requires j < |b| && forall u | u in b :: u in uploads
    ensures forall u | u in b[..j] + b[j + 1..] :: u in uploads
    ensures Total(uploads, b) == uploads[b[j]].size + Total(uploads, b[..j] + b[j + 1..])
  {
    assert b == b[..j] + b[j..] && b[j..][1..] == b[j + 1..];
    TotalSplit(uploads, b[..j], b[j..]);
    TotalSplit(uploads, b[..j], b[j + 1..]);
  }

  /** The order in which the rows come back does not matter. */
  lemma {:induction false} TotalPermutes(uploads: map<nat, Upload>, a: seq<nat>, b: seq<nat>)
    requires multiset(a) == multiset(b) && (forall u | u in a :: u in uploads) && (forall u | u in b :: u in uploads)
    ensures Total(uploads, a) == Total(uploads, b)
  {
    if a == [] {
      assert |multiset(b)| == |multiset(a)| == 0;
    } else {
      assert a[0] in multiset(b);
      var j :| 0 <= j < |b| && b[j] == a[0];
      var rest := b[..j] + b[j + 1..];
      WithoutOne(b, j);
      WithoutOne(a, 0);
      assert a[..0] + a[1..] == a[1..];
      TotalWithout(uploads, b, j);
      TotalPermutes(uploads, a[1..], rest);
    }
  }

  lemma {:induction false} SameSizes(a: map<nat, Upload>, b: map<nat, Upload>, ids: seq<nat>)
    requires forall u | u in ids :: u in a && u in b && a[u].size == b[u].size
    ensures Total(a, ids) == Total(b, ids)
  {
    if ids != [] { SameSizes(a, b, ids[1..]); }
  }

  lemma DistinctMultiset(ids: seq<nat>, sorted: seq<nat>)
    requires Distinct(ids) && Distinct(sorted) && Members(ids) == Members(sorted)
    ensures multiset(ids) == multiset(sorted)
  {
    forall u: nat ensures multiset(ids)[u] == multiset(sorted)[u] {
      OnceAtMost(ids, u);
      OnceAtMost(sorted, u);
      assert u in ids <==> u in Members(ids);
      assert u in sorted <==> u in Members(sorted);
    }
  }

  lemma {:induction false} OnceAtMost(ids: seq<nat>, u: nat)
    requires Distinct(ids)
    ensures multiset(ids)[u] == if u in ids then 1 else 0
  {
    if ids != [] {
      assert ids == [ids[0]] + ids[1..];
      OnceAtMost(ids[1..], u);
    }
  }

  // ---------------------------------------------------------------- what a kept message owns

  ghost predicate Belongs(s: State, id: nat, w: nat, key: string) {
    id < |s.made| && s.made[id] == Origin(w, key)
  }

  /** The row, while it exists, is the request's; and every upload named is its own, while it exists. */
  ghost predicate Owns(s: State, id: nat, w: nat, key: string, req: Request, ids: seq<nat>) {
    && Belongs(s, id, w, key) && Distinct(ids)
    && (id in s.emails ==> s.emails[id].request == req)
    && (forall u | u in ids :: u < s.nextUpload && (u in s.uploads ==> s.uploads[u].owner == Some(id)))
  }

  ghost predicate Fits(s: State, ids: seq<nat>, cap: nat) {
    && (forall u | u in ids :: u < s.nextUpload)
    && ((forall u | u in ids :: u in s.uploads) ==> Total(s.uploads, ids) <= cap)
  }

  lemma OwnsLater(s: State, r: State, id: nat, w: nat, key: string, req: Request, ids: seq<nat>)
    requires Proceeds(s, r) && Owns(s, id, w, key, req, ids)
    ensures Owns(r, id, w, key, req, ids) && Belongs(r, id, w, key)
  {
  }

  /** The workspace and key of a row are those it was made with. */
  lemma StillBelongs(s: State, r: State, id: nat)
    requires Valid(s) && id in s.emails && Valid(r) && Proceeds(s, r)
    ensures Belongs(r, id, s.emails[id].workspace, s.emails[id].key)
    ensures id in r.emails ==> r.emails[id].request == s.emails[id].request
  {
  }

  lemma FitsLater(s: State, r: State, ids: seq<nat>, cap: nat)
    requires Proceeds(s, r) && Fits(s, ids, cap)
    ensures Fits(r, ids, cap)
  {
    if forall u | u in ids :: u in r.uploads {
      SameSizes(s.uploads, r.uploads, ids);
    }
  }

  lemma ProceedsThen(s: State, m: State, r: State)
    requires Proceeds(s, m) && Proceeds(m, r)
    ensures Proceeds(s, r)
  {
    forall id | id in r.emails && id < |s.made| ensures id in s.emails && EmailProceeds(s.emails[id], r.emails[id]) {
      assert EmailProceeds(m.emails[id], r.emails[id]);
    }
  }

  lemma AttachOwns(s: State, id: nat, w: nat, key: string, req: Request, ids: seq<nat>)
    requires UploadsOk(s) && Owns(s, id, w, key, req, []) && id in s.emails && Distinct(ids) && AllLoose(s, w, ids)
    ensures Owns(Attached(s, id, w, Members(ids)), id, w, key, req, ids)
  {
    var r := Attached(s, id, w, Members(ids));
    forall u | u in ids ensures u in r.uploads && r.uploads[u].owner == Some(id) { assert u in Members(ids); }
  }

  /** A count that says all of them means owning all of them. */
  lemma AttachSettles(s: State, id: nat, w: nat, key: string, req: Request, ids: seq<nat>)
    requires Valid(s) && Owns(s, id, w, key, req, [])
    ensures var r := Apply(s, Attach(id, w, Members(ids)));
            && Proceeds(s, r)
            && (|Loose(s, w, Members(ids))| == |ids| <==> Distinct(ids) && AllLoose(s, w, ids))
            && (|Loose(s, w, Members(ids))| == |ids| && id in s.emails ==> Owns(r, id, w, key, req, ids))
  {
    hide Owns, Proceeds, Distinct, AllLoose, Loose;
    StepProceeds(s, Attach(id, w, Members(ids)));
    CountMeansAll(s, w, ids);
    if |Loose(s, w, Members(ids))| == |ids| && id in s.emails { AttachOwns(s, id, w, key, req, ids); }
  }

  /** Uploads attached to an email. */
  function AttachedTo(s: State, id: nat): set<nat> {
    set u | u in s.uploads && s.uploads[u].owner == Some(id)
  }

  datatype Creation = Made(email: nat) | Duplicate | Failing

  function Claims(id: nat, w: nat, ids: seq<nat>): seq<Step> {
    if ids == [] then [] else [Attach(id, w, Members(ids))]
  }

  /** Nothing in the tables stands against a new message. */
  predicate Free(s: State, w: nat, key: string, ids: seq<nat>) {
    w in s.workspaces && !KeyTaken(s, w, key) && Distinct(ids) && AllLoose(s, w, ids)
  }

  /** The email is the one asked for, in every compared field and every attachment. */
  ghost predicate SameMessage(s: State, id: nat, req: Request, ids: seq<nat>) {
    id in s.emails && s.emails[id].request == req && multiset(Sorted(AttachedTo(s, id))) == multiset(ids)
  }

  /** An earlier request under the key asked for the same. */
  ghost predicate Repeats(s: State, w: nat, key: string, req: Request, ids: seq<nat>) {
    && key != ""
    && (exists id ::
          id in s.emails && s.emails[id].workspace == w && s.emails[id].key == key && SameMessage(s, id, req, ids))
  }

  class Service {
    const box: Outbox
    const cap: nat

    constructor (box: Outbox, cap: nat)
      ensures this.box == box && this.cap == cap
    {
      this.box, this.cap := box, cap;
    }

    /** Other requests, workers and workspace changes between two statements. */
    method Yield(ghost start: State, ghost before: seq<Act<Step>>) returns (ghost trace: seq<Act<Step>>)
      requires Valid(start) && Ran(start, before, box.Model())
      modifies box
      ensures Ran(start, trace, box.Model()) && Owned(trace) == Owned(before) && before <= trace
      ensures Valid(box.Model()) && Proceeds(old(box.Model()), box.Model())
      ensures AllOwn(trace) ==> box.Model() == old(box.Model())
    {
      ghost var mid := box.Model();
      ghost var acts: seq<Act<Step>> := [];
      RanKeeps(start, before, mid);
      RanOthers(start, before, mid, acts, box.Model());
      RanKeeps(mid, acts, box.Model());
      trace := before + acts;
    }

    method FindByKey(w: nat, key: string) returns (found: Option<nat>)
      requires key != ""
      ensures found.None? <==> !KeyTaken(box.Model(), w, key)
      ensures found.Some? ==>
                found.value in box.emails && box.emails[found.value].workspace == w &&
                  box.emails[found.value].key == key
    {
      if id :| id in box.emails && box.emails[id].workspace == w && box.emails[id].key == key {
        found := Some(id);
      } else {
        found := None;
      }
    }

    method SumSizes(found: seq<nat>) returns (total: nat)
      requires forall u | u in found :: u in box.uploads
      ensures total == Total(box.uploads, found)
    {
      total := 0;
      for i := 0 to |found|
        invariant (forall u | u in found[..i] :: u in box.uploads) && total == Total(box.uploads, found[..i])
      {
        assert found[..i + 1] == found[..i] + [found[i]];
        TotalSplit(box.uploads, found[..i], [found[i]]);
        total := total + box.uploads[found[i]].size;
      }
      assert found[..|found|] == found;
    }

    /** `AttachmentsByIDs`, the count, and the sum of the sizes. */
    method CheckUploads(w: nat, ids: seq<nat>) returns (why: Option<Why>)
      ensures why.None? <==> Distinct(ids) && AllLoose(box.Model(), w, ids) && Total(box.uploads, ids) <= cap
      ensures why == Some(NoAttachment) <==> !(Distinct(ids) && AllLoose(box.Model(), w, ids))
    {
      var found := SortedList(Loose(box.Model(), w, Members(ids)));
      FoundMeansAll(box.Model(), w, ids);
      if |found| != |ids| {
        return Some(NoAttachment);
      }
      TotalPermutes(box.uploads, ids, found);
      var total := SumSizes(found);
      why := if total > cap then Some(TooLarge) else None;
    }

    /** An earlier request under the key did the work: compare, and make sure a waiting message has a task. */
    method Replay(id: nat, req: Request, ids: seq<nat>, luck: Luck, ghost start: State, ghost before: seq<Act<Step>>)
      returns (reply: Reply, ghost trace: seq<Act<Step>>)
      requires Valid(start) && Ran(start, before, box.Model()) && Valid(box.Model()) && id in box.emails
      modifies box
      ensures Ran(start, trace, box.Model()) && before <= trace && (reply.Kept? ==> reply.how.Same?)
      ensures !reply.Refused? ==>
                reply.email == id &&
                  Owns(box.Model(), id, old(box.emails)[id].workspace, old(box.emails)[id].key, req, ids)
      ensures !reply.Refused? ==> Belongs(box.Model(), id, old(box.emails)[id].workspace, old(box.emails)[id].key)
      ensures Owned(trace) == Owned(before) || (!reply.Refused? && Owned(trace) == Owned(before) + [Enqueue(id)])
      ensures reply.Kept? && old(box.emails)[id].status.Queued? ==> Owned(trace) == Owned(before) + [Enqueue(id)]
      ensures luck.AllWell() && AllOwn(trace) ==>
                reply == if SameMessage(old(box.Model()), id, req, ids) then Kept(id, Same) else Refused(Mismatch)
    {
      hide Ran, Owned, Owns, Proceeds, Valid;
      var e := box.emails[id];
      trace := before;
      if e.request != req {
        return Refused(Mismatch), trace;
      }
      var same;
      same, trace := SameUploads(id, req, ids, luck.readable, start, trace);
      if same != Some(true) {
        return Refused(if same.None? then Unavailable else Mismatch), trace;
      }
      ghost var mid, compared := box.Model(), trace;
      var ok;
      ok, trace := EnqueueIfQueued(id, e.status.Queued?, luck.enqueue, start, trace);
      OwnsLater(mid, box.Model(), id, e.workspace, e.key, req, ids);
      AllOwnPrefix(compared, trace);
      reply := if ok then Kept(id, Same) else Stuck(id, NotQueued);
    }

    /** Compares the uploads an email has with those named. */
    method SameUploads(id: nat, req: Request, ids: seq<nat>, readable: bool, ghost start: State,
          ghost before: seq<Act<Step>>)
      returns (same: Option<bool>, ghost trace: seq<Act<Step>>)
      requires Valid(start) && Ran(start, before, box.Model()) && Valid(box.Model())
      requires id in box.emails && box.emails[id].request == req
      modifies box
      ensures Ran(start, trace, box.Model()) && before <= trace && Owned(trace) == Owned(before)
      ensures same == Some(true) ==>
                Owns(box.Model(), id, old(box.emails)[id].workspace, old(box.emails)[id].key, req, ids)
      ensures readable && AllOwn(trace) ==> same == Some(SameMessage(old(box.Model()), id, req, ids))
    {
      hide Ran, Owned;
      ghost var first := box.Model();
      trace := Yield(start, before);
      if !readable {
        return None, trace;
      }
      var attached := SortedList(AttachedTo(box.Model(), id));
      same := Some(multiset(attached) == multiset(ids));
      if same.value {
        StillBelongs(first, box.Model(), id);
        SameListOwns(box.Model(), id, first.emails[id].workspace, first.emails[id].key, req, ids);
      }
    }

    method EnqueueIfQueued(id: nat, queued: bool, luck: Writing, ghost start: State, ghost before: seq<Act<Step>>)
      returns (ok: bool, ghost trace: seq<Act<Step>>)
      requires Valid(start) && Ran(start, before, box.Model())
      modifies box
      ensures Ran(start, trace, box.Model()) && before <= trace && Proceeds(old(box.Model()), box.Model())
      ensures ok <==> !queued || luck.Written?
      ensures Owned(trace) == Owned(before) + (if queued && luck.Lands() then [Enqueue(id)] else [])
    {
      hide Ran, Owned, Valid;
      trace, ok := before, true;
      if queued {
        trace := Yield(start, before);
        ok, trace := EnqueueSend(id, luck, start, trace);
      }
    }

    method EnqueueSend(id: nat, luck: Writing, ghost start: State, ghost before: seq<Act<Step>>)
      returns (ok: bool, ghost trace: seq<Act<Step>>)
      requires Ran(start, before, box.Model())
      modifies box
      ensures Ran(start, trace, box.Model()) && before <= trace && (ok <==> luck.Written?)
      ensures Owned(trace) == Owned(before) + (if luck.Written? || luck.Unheard? then [Enqueue(id)] else [])
      ensures box.Model() ==
              old(box.Model()).(tasks := old(box.tasks) + (if luck.Written? || luck.Unheard? then {id} else {}))
    {
      trace := before;
      ok := luck.Written?;
      if luck.Written? || luck.Unheard? {
        RanOwn(start, before, box.Model(), Enqueue(id));
        trace := before + [Own(Enqueue(id))];
        box.tasks := box.tasks + {id};
      }
    }

    method Create(w: nat, key: string, req: Request, luck: Writing, ghost start: State, ghost before: seq<Act<Step>>)
      returns (r: Creation, ghost trace: seq<Act<Step>>)
      requires Ran(start, before, box.Model())
      modifies box
      ensures Ran(start, trace, box.Model()) && before <= trace
      ensures r.Made? <==> luck.Written? && w in old(box.workspaces) && !KeyTaken(old(box.Model()), w, key)
      ensures r.Made? ==> r.email == |old(box.made)| && box.Model() == Apply(old(box.Model()), Step.Create(w, key, req))
                          && Owned(trace) == Owned(before) + [Step.Create(w, key, req)]
      ensures r.Made? ==>
                && box.emails == old(box.emails)[r.email := Email(w, key, req, Queued, None, 0, None, [EventQueued])]
      ensures r.Duplicate? <==> luck.Written? && w in old(box.workspaces) && KeyTaken(old(box.Model()), w, key)
      ensures r.Duplicate? ==> trace == before && box.Model() == old(box.Model())
      ensures r.Failing? ==> (box.Model() == old(box.Model()) && trace == before)
                             || (&& box.Model() == Apply(old(box.Model()), Step.Create(w, key, req))
                                 && Owned(trace) == Owned(before) + [Step.Create(w, key, req)])
    {
      trace := before;
      if luck.Lost? || luck.Late? || w !in box.workspaces {
        return Failing, trace;
      }
      if KeyTaken(box.Model(), w, key) {
        return if luck.Written? then Duplicate else Failing, trace;
      }
      RanOwn(start, before, box.Model(), Step.Create(w, key, req));
      trace := before + [Own(Step.Create(w, key, req))];
      var id := |box.made|;
      box.emails := box.emails[id := Email(w, key, req, Queued, None, 0, None, [EventQueued])];
      box.made := box.made + [Origin(w, key)];
      r := if luck.Written? then Made(id) else Failing;
    }

    /** The guarded UPDATE; the number of rows it changed tells whether it got them all. */
    method AttachToEmail(id: nat, w: nat, ids: set<nat>, luck: Writing, ghost start: State,
          ghost before: seq<Act<Step>>)
      returns (claimed: Option<nat>, ghost trace: seq<Act<Step>>)
      requires Ran(start, before, box.Model())
      modifies box
      ensures Ran(start, trace, box.Model()) && before <= trace
      ensures claimed.Some? <==> luck.Written? && id in old(box.emails)
      ensures claimed.Some? ==> claimed.value == |Loose(old(box.Model()), w, ids)|
      ensures Owned(trace) == Owned(before) + (if luck.Written? || luck.Unheard? then [Attach(id, w, ids)] else [])
      ensures box.Model() == if luck.Lands() then Apply(old(box.Model()), Attach(id, w, ids)) else old(box.Model())
    {
      trace := before;
      if luck.Lost? || luck.Late? {
        return None, trace;
      }
      RanOwn(start, before, box.Model(), Attach(id, w, ids));
      trace := before + [Own(Attach(id, w, ids))];
      if id !in box.emails {
        return None, trace;
      }
      var loose := Loose(box.Model(), w, ids);
      box.uploads := map u | u in box.uploads ::
        if u in loose then box.uploads[u].(owner := Some(id)) else box.uploads[u];
      claimed := if luck.Written? then Some(|loose|) else None;
    }

    /** The attachment claim: all of them, or the message stays without a task. */
    method ClaimUploads(id: nat, w: nat, ids: seq<nat>, luck: Writing, ghost key: string, ghost req: Request,
          ghost start: State, ghost before: seq<Act<Step>>)
      returns (why: Option<Why>, ghost trace: seq<Act<Step>>)
      requires Ran(start, before, box.Model()) && Valid(box.Model())
      requires Owns(box.Model(), id, w, key, req, [])
      modifies box
      ensures Ran(start, trace, box.Model()) && before <= trace && Proceeds(old(box.Model()), box.Model())
      ensures why.None? ==>
                Owns(box.Model(), id, w, key, req, ids) && Owned(trace) == Owned(before) + Claims(id, w, ids)
      ensures luck.Written? && id in old(box.emails) && Distinct(ids) && AllLoose(old(box.Model()), w, ids) ==>
                why.None?
    {
      trace := before;
      if ids == [] {
        return None, trace;
      }
      ghost var mid := box.Model();
      AttachSettles(mid, id, w, key, req, ids);
      var claimed;
      claimed, trace := AttachToEmail(id, w, Members(ids), luck, start, before);
      if claimed.None? {
        return Some(Unavailable), trace;
      }
      if claimed.value != |ids| {
        return Some(NoAttachment), trace;
      }
      why := None;
    }

    method FindWinner(w: nat, key: string, luck: Luck, ghost start: State, ghost before: seq<Act<Step>>)
      returns (reply: Reply, ghost trace: seq<Act<Step>>)
      requires Valid(start) && Ran(start, before, box.Model()) && key != ""
      modifies box
      ensures Ran(start, trace, box.Model()) && before <= trace
      ensures Proceeds(old(box.Model()), box.Model()) && Owned(trace) == Owned(before)
      ensures reply.Refused? || (reply.Kept? && reply.how.Winner? && Belongs(box.Model(), reply.email, w, key))
      ensures luck.readable && AllOwn(trace) && KeyTaken(old(box.Model()), w, key) ==> reply.Kept?
    {
      trace := Yield(start, before);
      if !luck.readable {
        return Refused(Unavailable), trace;
      }
      var winner := FindByKey(w, key);
      reply := if winner.Some? then Kept(winner.value, Winner) else Refused(Unavailable);
    }

    /**
     The row, its attachments, its task. A key already taken gives its message back, whatever this request asks for.
     */
    method Place(w: nat, key: string, req: Request, ids: seq<nat>, luck: Luck, ghost start: State,
          ghost before: seq<Act<Step>>)
      returns (reply: Reply, ghost trace: seq<Act<Step>>)
      requires Valid(start) && Ran(start, before, box.Model())
      modifies box
      ensures Ran(start, trace, box.Model()) && before <= trace && Proceeds(old(box.Model()), box.Model())
      ensures reply.Kept? && reply.how.New? ==> Owns(box.Model(), reply.email, w, key, req, ids)
      ensures reply.Kept? && !reply.how.New? ==> reply.how.Winner? && Belongs(box.Model(), reply.email, w, key)
      ensures reply.Kept? && reply.how.New? ==>
                Owned(trace) ==
                  Owned(before) + [Step.Create(w, key, req)] + Claims(reply.email, w, ids) + [Enqueue(reply.email)]
      ensures reply.Kept? && reply.how.Winner? ==> key != "" && Owned(trace) == Owned(before)
      ensures luck.AllWell() && AllOwn(trace) && w in old(box.workspaces) && KeyTaken(old(box.Model()), w, key) ==>
                reply.Kept? && reply.how.Winner?
      ensures luck.AllWell() && AllOwn(trace) && Free(old(box.Model()), w, key, ids) ==>
                reply == Kept(|old(box.made)|, New)
    {
      hide Ran, Valid;
      RanKeeps(start, before, box.Model());
      ghost var first := box.Model();
      var r;
      r, trace := Create(w, key, req, luck.create, start, before);
      RanKeeps(start, trace, box.Model());
      StepProceeds(first, Step.Create(w, key, req));
      if r.Failing? {
        return Refused(Unavailable), trace;
      }
      if r.Duplicate? {
        reply, trace := FindWinner(w, key, luck, start, trace);
        return;
      }
      assert Owns(box.Model(), r.email, w, key, req, []);
      ghost var made := box.Model();
      reply, trace := Equip(r.email, w, key, req, ids, luck, start, trace);
      ProceedsThen(first, made, box.Model());
    }

    method Equip(id: nat, w: nat, key: string, req: Request, ids: seq<nat>, luck: Luck, ghost start: State,
          ghost before: seq<Act<Step>>)
      returns (reply: Reply, ghost trace: seq<Act<Step>>)
      requires Valid(start) && Ran(start, before, box.Model())
      requires Valid(box.Model()) && Owns(box.Model(), id, w, key, req, [])
      modifies box
      ensures Ran(start, trace, box.Model()) && before <= trace && Proceeds(old(box.Model()), box.Model())
      ensures !reply.Refused? && reply.email == id && (reply.Kept? ==> reply.how.New?)
      ensures reply.Kept? ==>
                Owns(box.Model(), id, w, key, req, ids) &&
                  Owned(trace) == Owned(before) + Claims(id, w, ids) + [Enqueue(id)]
      ensures luck.AllWell() && AllOwn(trace) && id in old(box.emails) && Distinct(ids) &&
              AllLoose(old(box.Model()), w, ids) ==>
                reply.Kept?
    {
      hide Ran, Valid, Proceeds, Owns, Owned;
      ghost var s0 := box.Model();
      trace := Yield(start, before);
      ghost var s1, t1 := box.Model(), trace;
      OwnsLater(s0, s1, id, w, key, req, []);
      var why;
      why, trace := ClaimUploads(id, w, ids, luck.attach, key, req, start, trace);
      ghost var s2, t2 := box.Model(), trace;
      AllOwnPrefix(t1, t2);
      ProceedsThen(s0, s1, s2);
      if why.Some? {
        return Stuck(id, why.value), trace;
      }
      var queued;
      queued, trace := EnqueueIfQueued(id, true, luck.enqueue, start, trace);
      AllOwnPrefix(t2, trace);
      ProceedsThen(s0, s2, box.Model());
      OwnsLater(s2, box.Model(), id, w, key, req, ids);
      reply := if queued then Kept(id, New) else Stuck(id, NotQueued);
    }

    /** Everything checked before the tables are touched. */
    method Admit(req: Request, luck: Luck) returns (why: Option<Why>)
      ensures why.None? <==> luck.wellFormed && Acceptable(req) && luck.allowed
      ensures why == Some(Forbidden) <==> luck.wellFormed && Acceptable(req) && !luck.allowed
      ensures why.None? || why.value.Invalid? || why.value.Forbidden?
    {
      if !luck.wellFormed || |req.to| + |req.cc| + |req.bcc| > MAX_RECIPIENTS {
        return Some(Invalid);
      }
      if Blank(req.text) && Blank(req.html) {
        return Some(Invalid);
      }
      why := if luck.allowed then None else Some(Forbidden);
    }

    /** Attachments are resolved before the row is written: a bad id fails cleanly. */
    method Resolve(w: nat, ids: seq<nat>, luck: Luck) returns (why: Option<Why>)
      requires Valid(box.Model())
      ensures why.None? ==> Fits(box.Model(), ids, cap) && Distinct(ids) && AllLoose(box.Model(), w, ids)
      ensures luck.readable && Distinct(ids) && AllLoose(box.Model(), w, ids) && Total(box.uploads, ids) <= cap ==>
                why.None?
    {
      if ids == [] {
        return None;
      }
      if !luck.readable {
        return Some(Unavailable);
      }
      why := CheckUploads(w, ids);
    }

    method Accept(w: nat, key: string, req: Request, ids: seq<nat>, luck: Luck, ghost start: State,
          ghost before: seq<Act<Step>>)
      returns (reply: Reply, ghost trace: seq<Act<Step>>)
      requires Valid(start) && Ran(start, before, box.Model()) && Valid(box.Model())
      modifies box
      ensures Ran(start, trace, box.Model()) && before <= trace
      ensures reply.Kept? && reply.how.New? ==> Owns(box.Model(), reply.email, w, key, req, ids)
      ensures reply.Kept? && !reply.how.New? ==> Belongs(box.Model(), reply.email, w, key)
      ensures reply.Kept? && reply.how.New? ==> Fits(box.Model(), ids, cap)
      ensures reply.Kept? && reply.how.New? ==>
                Owned(trace) ==
                  Owned(before) + [Step.Create(w, key, req)] + Claims(reply.email, w, ids) + [Enqueue(reply.email)]
      ensures reply.Kept? && !reply.how.New? ==> reply.how.Winner? && key != ""
      ensures luck.AllWell() && AllOwn(trace) && Free(old(box.Model()), w, key, ids) &&
              Total(old(box.uploads), ids) <= cap ==>
                reply == Kept(|old(box.made)|, New)
    {
      ghost var first := box.Model();
      trace := before;
      var why := Resolve(w, ids, luck);
      if why.Some? {
        return Refused(why.value), trace;
      }
      trace := Yield(start, before);
      ghost var second := box.Model();
      reply, trace := Place(w, key, req, ids, luck, start, trace);
      ProceedsThen(first, second, box.Model());
      FitsLater(first, box.Model(), ids, cap);
    }

    /**
     One request. A message it created, or found equal, has the request's content and owns every upload named, all
     different; a new one was within the size limit and has its task. Only the winner of a race for the key is
     returned uncompared. Undisturbed, with all going well, a free key and loose uploads give a new message; and under
     a taken key a request gets the first message again if and only if that is the message it asks for.
     */
    method Send(w: nat, key: string, req: Request, ids: seq<nat>, luck: Luck)
      returns (reply: Reply, ghost trace: seq<Act<Step>>)
      requires Valid(box.Model())
      modifies box
      ensures Ran(old(box.Model()), trace, box.Model())
      ensures reply.Kept? && !reply.how.Winner? ==> Owns(box.Model(), reply.email, w, key, req, ids)
      ensures reply.Kept? && reply.how.New? ==> Fits(box.Model(), ids, cap)
      ensures reply.Kept? && reply.how.New? ==>
                Owned(trace) == [Step.Create(w, key, req)] + Claims(reply.email, w, ids) + [Enqueue(reply.email)]
      ensures reply.Kept? && !reply.how.New? ==> key != "" && Belongs(box.Model(), reply.email, w, key)
      ensures !luck.wellFormed || |req.to| + |req.cc| + |req.bcc| > 50 ||
              (forall c | c in req.text + req.html :: c in {' ', '\t', '\n', '\U{0B}', '\U{0C}', '\r'}) ==>
                reply == Refused(Invalid) && trace == [] && box.Model() == old(box.Model())
      ensures luck.wellFormed && Acceptable(req) && !luck.allowed ==>
                reply == Refused(Forbidden) && trace == [] && box.Model() == old(box.Model())
      ensures luck.AllWell() && Acceptable(req) && AllOwn(trace)
              && Free(old(box.Model()), w, key, ids) && Total(old(box.uploads), ids) <= cap
              ==> reply == Kept(|old(box.made)|, New)
      ensures luck.AllWell() && Acceptable(req) && AllOwn(trace) && KeyTaken(old(box.Model()), w, key) ==>
                if Repeats(old(box.Model()), w, key, req, ids) then reply.Kept? && reply.how.Same?
                else reply == Refused(Mismatch)
    {
      hide Ran, Belongs, Owns, Total;
      ghost var start := box.Model();
      trace := [];
      RanNothing(start);
      AcceptableIs(req);
      var why := Admit(req, luck);
      if why.Some? {
        return Refused(why.value), trace;
      }
      if key != "" {
        if !luck.readable {
          return Refused(Unavailable), trace;
        }
        var existing := FindByKey(w, key);
        if existing.Some? {
          OneRowPerKey(start, existing.value, w, key);
          reply, trace := Replay(existing.value, req, ids, luck, start, trace);
          return;
        }
        trace := Yield(start, trace);
      }
      reply, trace := Accept(w, key, req, ids, luck, start, trace);
    }
  }

  // ---------------------------------------------------------------- a request cut short

  /** Nothing in a run gives the email an upload. */
  predicate NeverAttached(steps: seq<Step>, id: nat) {
    forall e | e in steps :: !(e.Attach? && e.email == id)
  }

  lemma {:induction false} StaysWithoutUploads(s: State, steps: seq<Step>, id: nat)
    requires AttachedTo(s, id) == {} && NeverAttached(steps, id)
    ensures AttachedTo(Exec(s, steps), id) == {}
    decreases |steps|
  {
    if steps != [] {
      var front, e := steps[..|steps| - 1], steps[|steps| - 1];
      StaysWithoutUploads(s, front, id);
      assert e in steps;
      NoNewUploads(Exec(s, front), e, id);
    }
  }

  lemma NoNewUploads(s: State, e: Step, id: nat)
    requires AttachedTo(s, id) == {} && !(e.Attach? && e.email == id)
    ensures AttachedTo(Apply(s, e), id) == {}
  {
    var r := Apply(s, e);
    forall u | u in r.uploads ensures r.uploads[u].owner != Some(id) {
      assert u in s.uploads ==> u in AttachedTo(s, id) || s.uploads[u].owner != Some(id);
    }
  }

  /**
   A request with uploads that stops between the row and the claim leaves its key to a message without them. Whatever
   runs then, as long as nobody attaches any, the same request is no repetition of it: by `Send`, it is refused.
   */
  lemma {:induction false} CutShortIsNoRepetition(s: State, w: nat, key: string, req: Request, ids: seq<nat>,
        steps: seq<Step>)
    requires Valid(s) && w in s.workspaces && key != "" && !KeyTaken(s, w, key) && ids != []
    requires NeverAttached(steps, |s.made|)
    ensures !Repeats(Exec(Apply(s, Step.Create(w, key, req)), steps), w, key, req, ids)
  {
    var id, made := |s.made|, Apply(s, Step.Create(w, key, req));
    StepKeeps(s, Step.Create(w, key, req));
    assert AttachedTo(made, id) == {};
    StaysWithoutUploads(made, steps, id);
    OnlyRowOfKey(made, steps, id, w, key);
    assert ids[0] in multiset(ids);
  }

  /** The key stays that row's, while it exists and after. */
  lemma OnlyRowOfKey(s: State, steps: seq<Step>, id: nat, w: nat, key: string)
    requires Valid(s) && id in s.emails && s.emails[id].workspace == w && s.emails[id].key == key != ""
    ensures var r := Exec(s, steps);
            forall o | o in r.emails && r.emails[o].workspace == w && r.emails[o].key == key :: o == id
  {
    var r := Exec(s, steps);
    RunKeeps(s, steps);
    RunProceeds(s, steps);
    forall o | o in r.emails && r.emails[o].workspace == w && r.emails[o].key == key ensures o == id {
      assert SameKey(r.made, o, id);
    }
  }

  /** A key finds the row, not a row. */
  lemma OneRowPerKey(s: State, id: nat, w: nat, key: string)
    requires Valid(s) && key != "" && id in s.emails && s.emails[id].workspace == w && s.emails[id].key == key
    ensures forall o | o in s.emails && s.emails[o].workspace == w && s.emails[o].key == key :: o == id
  {
    forall o | o in s.emails && s.emails[o].workspace == w && s.emails[o].key == key ensures o == id {
      assert SameKey(s.made, o, id);
    }
  }

  /** The ids an email has are the ids named: then it owns them. */
  lemma SameListOwns(s: State, id: nat, w: nat, key: string, req: Request, ids: seq<nat>)
    requires UploadsOk(s) && Belongs(s, id, w, key) && (id in s.emails ==> s.emails[id].request == req)
    requires multiset(Sorted(AttachedTo(s, id))) == multiset(ids)
    ensures Owns(s, id, w, key, req, ids)
  {
    var attached := Sorted(AttachedTo(s, id));
    SameListDistinct(attached, ids);
    forall u | u in ids ensures u in attached { assert u in multiset(ids); }
  }

  lemma SameListDistinct(a: seq<nat>, b: seq<nat>)
    requires multiset(a) == multiset(b) && Distinct(a)
    ensures Distinct(b)
  {
    assert |a| == |multiset(a)| == |multiset(b)| == |b|;
    assert Members(a) == Members(b) by {
      forall u ensures u in a <==> u in b { assert u in multiset(a) <==> u in multiset(b); }
    }
    SetIsSmaller(a);
    SetIsSmaller(b);
  }

  lemma FoundMeansAll(s: State, w: nat, ids: seq<nat>)
    ensures var found := Sorted(Loose(s, w, Members(ids)));
            && (|found| == |ids| <==> Distinct(ids) && AllLoose(s, w, ids))
            && (|found| == |ids| ==> multiset(found) == multiset(ids))
  {
    var loose := Loose(s, w, Members(ids));
    var found := Sorted(loose);
    CountMeansAll(s, w, ids);
    SetIsSmaller(found);
    assert Members(found) == loose;
    if |found| == |ids| {
      SetIsSmaller(ids);
      SubsetSize(loose, Members(ids));
      DistinctMultiset(ids, found);
    }
  }
}
