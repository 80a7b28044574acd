/**
 Local delivery. The sending server retries a whole transaction until it is accepted, so an attempt may find
 any part of its work already done. `Data` ends with one SMTP copy per recipient, whatever earlier attempts reached.
 */
module LmtpDelivery {
  import opened Ascending
  import opened FolderListings
  import opened MailDatabase
  import opened MailInvariant
  import opened MailMoves
  import opened MailStates
  import opened MailTraces
  import MimeTrees
  import opened Text
  import opened Traces
  import opened Wrappers

  /** A parsed message: its bytes, its Message-ID, and the values of its spam verdict header if its headers parse. */
  datatype Incoming = Incoming(source: string, messageId: string, verdicts: Option<seq<string>>, received: int)

  function BeforeComma(s: string): string {
    if s == "" || s[0] == ',' then "" else [s[0]] + BeforeComma(s[1..])
  }

  /** Exactly one verdict header, saying yes. */
  function DeliveryFolder(m: Incoming): string {
    if m.verdicts.Some? && |m.verdicts.value| == 1 && EqualFold(TrimSpace(BeforeComma(m.verdicts.value[0])), "Yes")
    then JUNK else INBOX
  }

  /** White space, the word yes in any case, white space, and then nothing, or a comma and anything. */
  ghost predicate SaysYes(verdict: string) {
    exists before: string, yes: string, after: string, rest: string ::
      && verdict == before + yes + after + rest
      && (forall c | c in before + after :: c in {' ', '\t', '\n', '\U{0B}', '\U{0C}', '\r'})
      && |yes| == 3 && yes[0] in {'y', 'Y'} && yes[1] in {'e', 'E'} && yes[2] in {'s', 'S'}
      && (rest == "" || rest[0] == ',')
  }

  lemma {:induction false} BeforeCommaIs(text: string, rest: string)
    requires ',' !in text && (rest == "" || rest[0] == ',')
    ensures BeforeComma(text + rest) == text
  {
    if text == "" {
      assert text + rest == rest;
    } else {
      assert (text + rest)[1..] == text[1..] + rest;
      assert text[0] in text && forall c | c in text[1..] :: c in text;
      BeforeCommaIs(text[1..], rest);
      assert text == [text[0]] + text[1..];
    }
  }

  lemma {:induction false} AfterComma(s: string) returns (rest: string)
    ensures s == BeforeComma(s) + rest && (rest == "" || rest[0] == ',')
  {
    rest := s;
    if s != "" && s[0] != ',' {
      rest := AfterComma(s[1..]);
      assert s == [s[0]] + s[1..];
    }
  }

  lemma YesIs(word: string)
    ensures EqualFold(word, "Yes") <==>
            |word| == 3 && word[0] in {'y', 'Y'} && word[1] in {'e', 'E'} && word[2] in {'s', 'S'}
  {
    if EqualFold(word, "Yes") {
      assert forall i | 0 <= i < 3 :: Lower(word[i]) == Lower("Yes"[i]);
      assert Lower(word[0]) == 'y' && Lower(word[1]) == 'e' && Lower(word[2]) == 's';
    }
  }

  lemma VerdictIs(verdict: string)
    ensures EqualFold(TrimSpace(BeforeComma(verdict)), "Yes") <==> SaysYes(verdict)
  {
    if EqualFold(TrimSpace(BeforeComma(verdict)), "Yes") {
      var text := BeforeComma(verdict);
      var rest := AfterComma(verdict);
      var before, after := TrimParts(text);
      YesIs(TrimSpace(text));
      forall c | c in before + after ensures c in {' ', '\t', '\n', '\U{0B}', '\U{0C}', '\r'} { IsSpaceIs(c); }
      assert verdict == before + TrimSpace(text) + after + rest;
    }
    if SaysYes(verdict) {
      var before: string, yes: string, after: string, rest: string :|
        && verdict == before + yes + after + rest
        && (forall c | c in before + after :: c in {' ', '\t', '\n', '\U{0B}', '\U{0C}', '\r'})
        && |yes| == 3 && yes[0] in {'y', 'Y'} && yes[1] in {'e', 'E'} && yes[2] in {'s', 'S'}
        && (rest == "" || rest[0] == ',');
      forall c | c in before + after ensures IsSpace(c) { IsSpaceIs(c); }
      assert Blank(before) by { forall c | c in before ensures c in before + after { } }
      assert Blank(after) by { forall c | c in after ensures c in before + after { } }
      BeforeCommaIs(before + yes + after, rest);
      TrimSpaceIs(before, yes, after);
      YesIs(yes);
    }
  }

  /** Junk takes a message with exactly one verdict that says yes; every other goes to INBOX. */
  lemma FolderIs(m: Incoming)
    ensures DeliveryFolder(m) ==
            if m.verdicts.Some? && |m.verdicts.value| == 1 && SaysYes(m.verdicts.value[0]) then "Junk" else "INBOX"
  {
    if m.verdicts.Some? && |m.verdicts.value| == 1 { VerdictIs(m.verdicts.value[0]); }
  }

  function Delivered(m: Incoming): Payload {
    Payload(m.source, m.messageId, [], false, m.received, true)
  }

  // ---------------------------------------------------------------- copies

  predicate IsCopy(s: State, u: nat, box: Box, messageId: string) {
    u in s.rows && s.rows[u].box == box && s.rows[u].payload.smtp && s.rows[u].payload.messageId == messageId
  }

  function SmtpCopies(s: State, box: Box, messageId: string): set<nat> {
    set u | u in s.rows && IsCopy(s, u, box, messageId)
  }

  predicate Holds(s: State, box: Box, messageId: string) {
    exists u | u in s.rows :: IsCopy(s, u, box, messageId)
  }

  /** The unique index leaves room for one copy; so holding it means holding exactly one. */
  lemma HoldsExactlyOne(s: State, box: Box, messageId: string)
    requires Deduplicated(s) && messageId != "" && Holds(s, box, messageId)
    ensures |SmtpCopies(s, box, messageId)| == 1
  {
    var u :| u in s.rows && IsCopy(s, u, box, messageId);
    forall v | v in SmtpCopies(s, box, messageId) ensures v == u { assert Twins(s.rows[u], s.rows[v]); }
    assert SmtpCopies(s, box, messageId) == {u};
  }

  /**
   A step that takes a delivered copy of this message out of this mailbox: its EXPUNGE, its MOVE, or its folder's
   deletion.
   */
  ghost predicate TakesAway(s: State, e: Step, box: Box, messageId: string) {
    match e
    case Expunge(key, ids) => exists u | u in Picked(s, key, ids) :: IsCopy(s, u, box, messageId)
    case DeleteFolder(key) => key.name != INBOX && exists u | u in UidsIn(s, key) :: IsCopy(s, u, box, messageId)
    case Commit(t) =>
      t in s.txs && s.txs[t].job.Move? && CanCommit(s, t) && exists u | u in Found(s, t) :: IsCopy(s, u, box, messageId)
    case _ => false
  }

  /** No step of a run does so. */
  ghost predicate GentleRun(s: State, steps: seq<Step>, box: Box, messageId: string)
    decreases |steps|
  {
    steps == [] || (&& GentleRun(s, steps[..|steps| - 1], box, messageId)
                    && !TakesAway(Exec(s, steps[..|steps| - 1]), steps[|steps| - 1], box, messageId))
  }

  lemma {:induction false} GentleSplit(s: State, a: seq<Step>, b: seq<Step>, box: Box, messageId: string)
    ensures GentleRun(s, a + b, box, messageId) <==>
            GentleRun(s, a, box, messageId) && GentleRun(Exec(s, a), b, box, messageId)
    decreases |b|
  {
    if b == [] {
      assert a + b == a;
    } else {
      var front := b[..|b| - 1];
      assert (a + b)[..|a + b| - 1] == a + front;
      GentleSplit(s, a, front, box, messageId);
      ExecConcat(s, a, front);
    }
  }

  lemma HoldsQuiet(s: State, e: Step, box: Box, messageId: string)
    requires RowsOk(s) && IsQuiet(e) && !TakesAway(s, e, box, messageId) && Holds(s, box, messageId)
    ensures Holds(Apply(s, e), box, messageId)
  {
    var r := Apply(s, e);
    var u :| u in s.rows && IsCopy(s, u, box, messageId);
    QuietSteps(s, e);
    assert u in r.rows && SameMail(s.rows[u], r.rows[u]);
  }

  lemma HoldsCommit(s: State, t: nat, box: Box, messageId: string)
    requires t in s.txs && PendingOk(s, s.txs[t]) && CanCommit(s, t)
    requires !TakesAway(s, Commit(t), box, messageId) && Holds(s, box, messageId)
    ensures Holds(Committed(s, t), box, messageId)
  {
    var tx, r := s.txs[t], Committed(s, t);
    var u :| u in s.rows && IsCopy(s, u, box, messageId);
    match tx.job {
      case Append(folder, _) =>
        InsertRows(s.rows, tx.uids, tx.wanted, tx.box, folder, s.nextId);
        assert r.rows[u] == s.rows[u];
      case Move(_, _, _) =>
        MoveExchanges(s, t);
        assert u !in Found(s, t) && r.rows[u] == s.rows[u];
      case Relocate(id, folder) =>
        var v := if u == UidOf(s, tx.box, id) && s.rows[u].folder != folder then tx.uids[0] else u;
        assert tx.uids != [] ==> tx.uids[0] in tx.uids;
        assert v in r.rows && r.rows[v].payload == s.rows[u].payload && r.rows[v].box == box;
      case Look =>
        assert r.rows[u] == s.rows[u];
    }
  }

  lemma HoldsStep(s: State, e: Step, box: Box, messageId: string)
    requires Valid(s) && Holds(s, box, messageId) && !TakesAway(s, e, box, messageId)
    ensures Holds(Apply(s, e), box, messageId)
  {
    if e.Commit? {
      if e.tx in s.txs && CanCommit(s, e.tx) {
        assert PendingOk(s, s.txs[e.tx]);
        HoldsCommit(s, e.tx, box, messageId);
      }
    } else if IsQuiet(e) {
      HoldsQuiet(s, e, box, messageId);
    } else {
      assert Apply(s, e).rows == s.rows;
    }
  }

  /** What a MOVE brings is no SMTP delivery, so a copy it takes is not replaced. */
  lemma MovedCopiesAreNone(s: State, t: nat, box: Box, messageId: string)
    requires t in s.txs && PendingOk(s, s.txs[t]) && CanCommit(s, t) && s.txs[t].job.Move?
    ensures forall v | IsCopy(Committed(s, t), v, box, messageId) :: v !in Found(s, t) && IsCopy(s, v, box, messageId)
  {
    var tx := s.txs[t];
    MoveExchanges(s, t);
    assert forall i | 0 <= i < |tx.uids| :: tx.wanted[i] in tx.wanted && !Committed(s, t).rows[tx.uids[i]].payload.smtp;
  }

  /** Step by step that is exact: a delivered message stops being held when a step takes it away, and only then. */
  lemma HoldsStepExactly(s: State, e: Step, box: Box, messageId: string)
    requires Valid(s) && messageId != "" && Holds(s, box, messageId)
    ensures Holds(Apply(s, e), box, messageId) <==> !TakesAway(s, e, box, messageId)
  {
    if TakesAway(s, e, box, messageId) {
      var r := Apply(s, e);
      forall v | v in r.rows ensures !IsCopy(r, v, box, messageId) {
        if IsCopy(r, v, box, messageId) { TakenIsGone(s, e, box, messageId, v); }
      }
    } else {
      HoldsStep(s, e, box, messageId);
    }
  }

  lemma TakenIsGone(s: State, e: Step, box: Box, messageId: string, v: nat)
    requires Valid(s) && messageId != "" && TakesAway(s, e, box, messageId)
    ensures !IsCopy(Apply(s, e), v, box, messageId)
  {
    var gone := match e
      case Expunge(key, ids) => Picked(s, key, ids)
      case DeleteFolder(key) => UidsIn(s, key)
      case Commit(t) => Found(s, t);
    var u :| u in gone && IsCopy(s, u, box, messageId);
    if IsCopy(Apply(s, e), v, box, messageId) {
      if e.Commit? {
        assert PendingOk(s, s.txs[e.tx]);
        MovedCopiesAreNone(s, e.tx, box, messageId);
      }
      assert v !in gone && IsCopy(s, v, box, messageId);
      assert Twins(s.rows[u], s.rows[v]);
    }
  }

  lemma {:induction false} HoldsRun(s: State, steps: seq<Step>, box: Box, messageId: string)
    requires Valid(s) && GentleRun(s, steps, box, messageId) && Holds(s, box, messageId)
    ensures Holds(Exec(s, steps), box, messageId)
    decreases |steps|
  {
    if steps != [] {
      var front := steps[..|steps| - 1];
      HoldsRun(s, front, box, messageId);
      RunKeeps(s, front);
      HoldsStep(Exec(s, front), steps[|steps| - 1], box, messageId);
    }
  }

  /** A stored or duplicate insert leaves its message held. */
  lemma SettledHolds(s: State, trace: seq<Act<Step>>, t: nat, box: Box, folder: string, p: Payload, r: Insertion)
    requires Valid(s) && trace != [] && Settled(s, trace, t, box, Append(folder, p), r) && !r.Failed? && p.smtp
    ensures Holds(Exec(s, Steps(trace)), box, p.messageId)
  {
    var front := Steps(trace)[..|trace| - 1];
    assert front == Steps(trace[..|trace| - 1]);
    var last := Exec(s, front);
    RunKeeps(s, front);
    assert PendingOk(last, last.txs[t]);
    if r.Stored? {
      var tx := last.txs[t];
      InsertRows(last.rows, tx.uids, tx.wanted, tx.box, folder, last.nextId);
      var done := Committed(last, t);
      assert done.rows[tx.uids[0]].payload == p;
    }
  }

  function Once(t: nat, box: Box, p: Payload): seq<Step> {
    [Lock(t, box, Append(INBOX, p)), Allocate(t), Commit(t)]
  }

  /** The six steps of storing a message and, its acknowledgement lost, storing it again. */
  function Twice(t: nat, box: Box, p: Payload): seq<Step> {
    Once(t, box, p) + Once(t, box, p)
  }

  /** Without a Message-ID nothing recognises a retry: the same message is stored again. */
  lemma RetryWithoutMessageIdStoresTwice(s: State, t: nat, box: Box, p: Payload)
    requires Valid(s) && box in s.boxes && t !in s.txs && LockFree(s, box) && p.messageId == ""
    requires s.uidSeq.Issued() + 2 <= MAX_SEQUENCE
    ensures var r, u := Exec(s, Twice(t, box, p)), s.uidSeq.Issued();
            u + 1 in r.rows && u + 2 in r.rows && r.rows[u + 1].payload == r.rows[u + 2].payload == p
            && r.rows[u + 1].box == r.rows[u + 2].box == box && r.rows.Keys == s.rows.Keys + {u + 1, u + 2}
  {
    StoresTwice(s, t, box, p);
    var u := s.uidSeq.Issued();
    assert u + 1 !in s.rows && u + 2 !in s.rows;
  }

  lemma StoresTwice(s: State, t: nat, box: Box, p: Payload)
    requires Key(box, INBOX) in s.folders && box in s.boxes && t !in s.txs && LockFree(s, box) && p.messageId == ""
    requires s.uidSeq.Issued() + 2 <= MAX_SEQUENCE
    ensures Exec(s, Twice(t, box, p)).rows ==
            s.rows[s.uidSeq.Issued() + 1 := Row(s.nextId, box, INBOX, p)]
                  [s.uidSeq.Issued() + 2 := Row(Exec(s, Once(t, box, p)).nextId, box, INBOX, p)]
  {
    hide Exec, Once;
    var once := Once(t, box, p);
    ExecConcat(s, once, once);
    StoresOnce(s, t, box, p);
    var mid := Exec(s, once);
    assert mid.uidSeq.Issued() == s.uidSeq.Issued() + 1 && LockFree(mid, box);
    StoresOnce(mid, t, box, p);
  }

  lemma StoresOnce(s: State, t: nat, box: Box, p: Payload)
    requires Key(box, INBOX) in s.folders && box in s.boxes && t !in s.txs && LockFree(s, box) && p.messageId == ""
    requires !s.uidSeq.Exhausted()
    ensures var r := Exec(s, Once(t, box, p));
            && r.rows == s.rows[s.uidSeq.Issued() + 1 := Row(s.nextId, box, INBOX, p)]
            && r.folders == s.folders && r.boxes == s.boxes && r.txs == s.txs && r.uidSeq == s.uidSeq.Next()
  {
    ExecThree(s, Lock(t, box, Append(INBOX, p)), Allocate(t), Commit(t));
    FirstMessage(s, Key(box, INBOX), t, p);
  }

  // ---------------------------------------------------------------- the LMTP session

  /** Every recipient holds the message at the end of a trace none of whose steps takes it away from that recipient. */
  ghost predicate AllHold(start: State, trace: seq<Act<Step>>, now: State, boxes: seq<Box>, messageId: string) {
    forall box | box in boxes && GentleRun(start, Steps(trace), box, messageId) :: Holds(now, box, messageId)
  }

  lemma AllHoldLater(start: State, before: seq<Act<Step>>, mid: State, more: seq<Act<Step>>, now: State,
        boxes: seq<Box>, messageId: string)
    requires Valid(start) && Ran(start, before, mid) && Ran(mid, more, now)
    requires AllHold(start, before, mid, boxes, messageId)
    ensures AllHold(start, before + more, now, boxes, messageId)
  {
    StepsConcat(before, more);
    RunKeeps(start, Steps(before));
    forall box | box in boxes && GentleRun(start, Steps(before + more), box, messageId)
      ensures Holds(now, box, messageId)
    {
      GentleSplit(start, Steps(before), Steps(more), box, messageId);
      HoldsRun(mid, Steps(more), box, messageId);
    }
  }

  /** A step that stores the message in its folder, or finds that a delivery of it is already there. */
  ghost predicate Serves(s: State, e: Step, box: Box, m: Incoming) {
    || (exists u: nat ::
          u !in s.rows && Apply(s, e).rows == s.rows[u := Row(s.nextId, box, DeliveryFolder(m), Delivered(m))])
    || (m.messageId != "" && Holds(s, box, m.messageId))
  }

  ghost predicate Served(start: State, trace: seq<Act<Step>>, box: Box, m: Incoming) {
    exists k | 0 <= k < |trace| :: trace[k].Own? && Serves(Exec(start, Steps(trace[..k])), trace[k].step, box, m)
  }

  lemma ServedLater(start: State, before: seq<Act<Step>>, mid: State, more: seq<Act<Step>>, box: Box, m: Incoming)
    requires Ran(start, before, mid)
    ensures Served(start, before, box, m) || Served(mid, more, box, m) ==> Served(start, before + more, box, m)
  {
    var all := before + more;
    if Served(start, before, box, m) {
      var k :| 0 <= k < |before| && before[k].Own? &&
               Serves(Exec(start, Steps(before[..k])), before[k].step, box, m);
      assert all[..k] == before[..k] && all[k] == before[k];
    } else if Served(mid, more, box, m) {
      var k :| 0 <= k < |more| && more[k].Own? && Serves(Exec(mid, Steps(more[..k])), more[k].step, box, m);
      assert all[..|before| + k] == before + more[..k] && all[|before| + k] == more[k];
      StepsConcat(before, more[..k]);
      ExecConcat(start, Steps(before), Steps(more[..k]));
    }
  }

  /** The row that a stored message adds, in the state just before its commit. */
  ghost predicate StoredAs(last: State, rows: map<nat, Row>, uid: nat, box: Box, folder: string, p: Payload) {
    && uid !in last.rows && (forall v | v in last.rows && last.rows[v].box == box :: v < uid)
    && rows == last.rows[uid := Row(last.nextId, box, folder, p)]
  }

  lemma SettledServes(s: State, trace: seq<Act<Step>>, t: nat, box: Box, m: Incoming, r: Insertion, now: State)
    requires Valid(s) && trace != [] && !r.Failed? && Ran(s, trace, now)
    requires Settled(s, trace, t, box, Append(DeliveryFolder(m), Delivered(m)), r)
    ensures Served(s, trace, box, m)
    ensures var last := Exec(s, Steps(trace[..|trace| - 1]));
            r.Stored? ==> t in last.txs && |last.txs[t].uids| == 1 &&
                          StoredAs(last, now.rows, last.txs[t].uids[0], box, DeliveryFolder(m), Delivered(m))
  {
    var n := |trace| - 1;
    var front := Steps(trace)[..n];
    assert front == Steps(trace[..n]);
    var last := Exec(s, front);
    RunKeeps(s, front);
    assert PendingOk(last, last.txs[t]);
    if r.Stored? {
      var tx := last.txs[t];
      InsertOne(last.rows, tx.uids, tx.wanted, box, DeliveryFolder(m), last.nextId);
      assert now == Committed(last, t) && tx.uids[0] in tx.uids;
    } else {
      assert Holds(last, box, m.messageId);
    }
    assert trace[n].Own? && Serves(last, trace[n].step, box, m);
  }

  /**
   One recipient: its folder in one statement, the row in another; a commit's acknowledgement may be lost. The row is
   the message itself, unread and without flags, last in Junk or INBOX.
   */
  method Deliver(db: Database, box: Box, m: Incoming, acknowledged: bool)
    returns (r: Insertion, ghost trace: seq<Act<Step>>, ghost uid: nat)
    requires box in db.boxes && Valid(db.Model())
    modifies db
    ensures Ran(old(db.Model()), trace, db.Model())
    ensures !r.Failed? ==> Holds(db.Model(), box, m.messageId) && Served(old(db.Model()), trace, box, m)
    ensures r.Stored? ==>
              && trace != []
              && var last := Exec(old(db.Model()), Steps(trace[..|trace| - 1]));
                 var junk := m.verdicts.Some? && |m.verdicts.value| == 1 && SaysYes(m.verdicts.value[0]);
                 && uid !in last.rows && (forall v | v in last.rows && last.rows[v].box == box :: v < uid)
                 && db.rows == last.rows[uid := Row(last.nextId, box, if junk then "Junk" else "INBOX",
                                                    Payload(m.source, m.messageId, [], false, m.received, true))]
    ensures AllOwn(trace) && acknowledged && Roomy(old(db.Model()), box, 1) ==> !r.Failed?
    ensures AllOwn(trace) ==> Less(old(db.Model()), db.Model(), 1)
  {
    hide Ran, Valid, Served, Holds, AllOwn, Exec, StoredAs, DeliveryFolder, SaysYes;
    ghost var start := db.Model();
    var folder := DeliveryFolder(m);
    trace, uid := [Own(CreateFolder(Key(box, folder)))], 0;
    RanNothing(start);
    RanOwn(start, [], start, CreateFolder(Key(box, folder)));
    assert [] + trace == trace;
    r := Failed;
    var made := EnsureFolderRow(db, box, folder);
    if !made {
      return;
    }
    ghost var first := trace;
    trace := db.Yield(start, trace);
    MailboxesStay(start, Steps(trace));
    RanKept(start, trace, db.Model());
    ghost var mid, more := db.Model(), [];
    r, more, uid := StoreRow(db, box, m, acknowledged);
    RanThen(start, trace, mid, more, db.Model());
    ServedLater(start, trace, mid, more, box, m);
    AllOwnPart(trace, more);
    LastOf(start, trace, mid, more);
    FolderIs(m);
    StoredIs(Exec(mid, Steps(more[..if more == [] then 0 else |more| - 1])), db.rows, uid, box, folder, Delivered(m));
    trace := trace + more;
  }

  lemma StoredIs(last: State, rows: map<nat, Row>, uid: nat, box: Box, folder: string, p: Payload)
    ensures StoredAs(last, rows, uid, box, folder, p) ==>
              && uid !in last.rows && (forall v | v in last.rows && last.rows[v].box == box :: v < uid)
              && rows == last.rows[uid := Row(last.nextId, box, folder, p)]
  {
  }

  lemma RanKept(s: State, acts: seq<Act<Step>>, r: State)
    requires Valid(s) && Ran(s, acts, r)
    ensures Valid(r)
  {
    RunKeeps(s, Steps(acts));
  }

  /** The state before the last step, seen from further back. */
  lemma LastOf(start: State, before: seq<Act<Step>>, mid: State, more: seq<Act<Step>>)
    requires Ran(start, before, mid)
    ensures more != [] ==>
              Exec(start, Steps((before + more)[..|before + more| - 1])) == Exec(mid, Steps(more[..|more| - 1]))
  {
    if more != [] {
      assert (before + more)[..|before + more| - 1] == before + more[..|more| - 1];
      StepsConcat(before, more[..|more| - 1]);
      ExecConcat(start, Steps(before), Steps(more[..|more| - 1]));
    }
  }

  /** The mailbox is not locked, and UIDs and uidvalidities are left for `n` more messages. */
  predicate Roomy(s: State, box: Box, n: nat) {
    && (forall t | t in s.txs :: s.txs[t].box != box)
    && s.uidSeq.Issued() + n <= 4294967294 && s.validitySeq.Issued() + n <= 4294967294
  }

  /** At most `n` of each were taken, and no lock is left behind. */
  predicate Less(s: State, r: State, n: nat) {
    && r.txs == s.txs
    && r.uidSeq.Issued() <= s.uidSeq.Issued() + n && r.validitySeq.Issued() <= s.validitySeq.Issued() + n
  }

  /** The row; the commit's acknowledgement may be lost. */
  method StoreRow(db: Database, box: Box, m: Incoming, acknowledged: bool)
    returns (r: Insertion, ghost trace: seq<Act<Step>>, ghost uid: nat)
    requires box in db.boxes && Valid(db.Model())
    modifies db
    ensures Ran(old(db.Model()), trace, db.Model())
    ensures !r.Failed? ==> trace != [] && Holds(db.Model(), box, m.messageId) && Served(old(db.Model()), trace, box, m)
    ensures r.Stored? ==>
              StoredAs(Exec(old(db.Model()), Steps(trace[..|trace| - 1])), db.rows, uid, box, DeliveryFolder(m),
                       Delivered(m))
    ensures AllOwn(trace) && acknowledged && Key(box, DeliveryFolder(m)) in old(db.folders) &&
            (forall t | t in old(db.txs) :: old(db.txs)[t].box != box) && old(db.uidSeq).Issued() < 4294967294 ==>
              !r.Failed?
    ensures AllOwn(trace) ==>
              && db.txs == old(db.txs) && db.validitySeq == old(db.validitySeq)
              && db.uidSeq.Issued() <= old(db.uidSeq).Issued() + 1
  {
    hide Served, StoredAs, Holds, DeliveryFolder, Valid, AllOwn, Collides, Settled;
    ghost var start := db.Model();
    var t := NewId(db.txs.Keys);
    uid := 0;
    r, trace := db.InsertMessage(t, box, DeliveryFolder(m), Delivered(m));
    if !r.Failed? {
      SettledHolds(start, trace, t, box, DeliveryFolder(m), Delivered(m), r);
      SettledServes(start, trace, t, box, m, r, db.Model());
      if r.Stored? { uid := Exec(start, Steps(trace[..|trace| - 1])).txs[t].uids[0]; }
    }
    if !acknowledged {
      r := Failed;
    }
  }

  method EnsureFolderRow(db: Database, box: Box, folder: string) returns (ok: bool)
    requires box in db.boxes
    modifies db
    ensures db.Model() == Apply(old(db.Model()), CreateFolder(Key(box, folder)))
    ensures ok ==> Key(box, folder) in db.folders
    ensures ok <==> old(db.validitySeq).Issued() < 4294967294
  {
    ok := !db.validitySeq.Exhausted();
    if ok {
      db.validitySeq := db.validitySeq.Next();
      if Key(box, folder) !in db.folders {
        db.folders := db.folders[Key(box, folder) := db.validitySeq.value];
      }
    }
  }

  class Session {
    const db: Database
    var from: string
    var recipients: seq<Box>

    constructor (db: Database)
      ensures this.db == db && from == "" && recipients == []
    {
      this.db, from, recipients := db, "", [];
    }

    method Mail(sender: string)
      modifies this
      ensures from == sender && recipients == old(recipients)
    {
      from := sender;
    }

    /** `resolved` is what looking the address up found; an unknown address is refused here. */
    method Rcpt(resolved: Option<Box>) returns (ok: bool)
      modifies this
      ensures from == old(from) && ok == resolved.Some?
      ensures recipients == if resolved.Some? then old(recipients) + [resolved.value] else old(recipients)
    {
      ok := resolved.Some?;
      if ok {
        recipients := recipients + [resolved.value];
      }
    }

    method Reset()
      modifies this
      ensures from == "" && recipients == []
    {
      from, recipients := "", [];
    }

    /**
     The delivery loop. On success every recipient was given the message, now or by an earlier attempt, and every one
     from whom nobody took this very message away meanwhile holds exactly one SMTP copy of it, however much of this an
     earlier attempt had done. Left alone, with free locks and numbers left, and heard of, it succeeds. A message over
     25 MiB is refused before the tables are touched.
     */
    method Data(m: Incoming, acks: nat -> bool) returns (accepted: bool, ghost trace: seq<Act<Step>>)
      requires Valid(db.Model()) && forall box | box in recipients :: box in db.boxes
      modifies db
      ensures Ran(old(db.Model()), trace, db.Model())
      ensures accepted ==> forall box | box in recipients :: Served(old(db.Model()), trace, box, m)
      ensures accepted && m.messageId != "" ==>
                forall box | box in recipients && GentleRun(old(db.Model()), Steps(trace), box, m.messageId) ::
                  |SmtpCopies(db.Model(), box, m.messageId)| == 1
      ensures AllOwn(trace) && (forall i | 0 <= i < |recipients| :: acks(i)) &&
              (forall box | box in recipients :: Roomy(old(db.Model()), box, |recipients|)) &&
              |m.source| <= 26214400 ==>
                accepted
      ensures |m.source| > 26214400 ==> !accepted && trace == [] && db.Model() == old(db.Model())
    {
      hide Served, AllOwn, Valid, Ran, Roomy, Less;
      ghost var start := db.Model();
      trace := [];
      RanNothing(start);
      LessNothing(start);
      if |m.source| > MimeTrees.MAX_MESSAGE_BYTES {
        return false, trace;
      }
      accepted := true;
      for i := 0 to |recipients|
        invariant Ran(start, trace, db.Model())
        invariant AllHold(start, trace, db.Model(), recipients[..i], m.messageId)
        invariant forall box | box in recipients[..i] :: Served(start, trace, box, m)
        invariant AllOwn(trace) ==> Less(start, db.Model(), i)
      {
        var r;
        ghost var before, mid := trace, db.Model();
        r, trace := DeliverNext(recipients[i], m, acks(i), start, trace, recipients[..i]);
        LessMore(start, mid, db.Model(), i, recipients[i], |recipients|);
        AllOwnPrefix(before, trace);
        if r.Failed? {
          return false, trace;
        }
        assert recipients[..i + 1] == recipients[..i] + [recipients[i]];
      }
      assert recipients[..|recipients|] == recipients;
      RanKept(start, trace, db.Model());
      if m.messageId != "" {
        forall box | box in recipients && GentleRun(start, Steps(trace), box, m.messageId)
          ensures |SmtpCopies(db.Model(), box, m.messageId)| == 1
        {
          IsDeduplicated(db.Model());
          HoldsExactlyOne(db.Model(), box, m.messageId);
        }
      }
    }

    method DeliverNext(box: Box, m: Incoming, acknowledged: bool, ghost start: State, ghost before: seq<Act<Step>>,
          ghost done: seq<Box>)
      returns (r: Insertion, ghost trace: seq<Act<Step>>)
      requires Valid(start) && Ran(start, before, db.Model()) && AllHold(start, before, db.Model(), done, m.messageId)
      requires forall b | b in done :: Served(start, before, b, m)
      requires box in start.boxes
      modifies db
      ensures Ran(start, trace, db.Model()) && before <= trace
      ensures !r.Failed? ==> AllHold(start, trace, db.Model(), done + [box], m.messageId)
      ensures !r.Failed? ==> forall b | b in done + [box] :: Served(start, trace, b, m)
      ensures AllOwn(trace) && acknowledged && Roomy(old(db.Model()), box, 1) ==> !r.Failed?
      ensures AllOwn(trace) ==> Less(old(db.Model()), db.Model(), 1)
    {
      hide Served, AllOwn, Valid, Ran, Roomy, Less, Exec;
      ghost var mid := db.Model();
      MailboxesStay(start, Steps(before));
      RanIs(start, before, mid);
      RanKept(start, before, mid);
      ghost var more, uid;
      r, more, uid := Deliver(db, box, m, acknowledged);
      AllHoldLater(start, before, mid, more, db.Model(), done, m.messageId);
      RanThen(start, before, mid, more, db.Model());
      AllOwnPart(before, more);
      forall b | b in done + [box] && (b in done || !r.Failed?) ensures Served(start, before + more, b, m) {
        ServedLater(start, before, mid, more, b, m);
      }
      trace := before + more;
    }
  }

  lemma LessNothing(s: State)
    ensures Less(s, s, 0)
  {
  }

  lemma LessMore(s: State, mid: State, r: State, i: nat, box: Box, n: nat)
    ensures Less(s, mid, i) && Less(mid, r, 1) ==> Less(s, r, i + 1)
    ensures Less(s, mid, i) && i < n && Roomy(s, box, n) ==> Roomy(mid, box, 1)
  {
  }

  lemma IsDeduplicated(s: State)
    requires Valid(s)
    ensures Deduplicated(s)
  {
  }
}
