/**
 Whole IMAP sessions: one connection's snapshot and its client's view, while the mail tables run on.

 `SessionAgreesExactly` says when, through any interleaving, the client's numbering is the snapshot's: as long as
 each Poll meets the condition of `PollReplaysExactly`. `SessionAgrees` says that each does, provided each EXPUNGE of
 the session deletes while the selected name still means the folder the snapshot was read from.
 `RenamedAwayExpungeMisleads` is a run that breaks it when that proviso fails.
 */
module ImapSessions {
  import opened Ascending
  import opened FolderListings
  import opened MailInvariant
  import opened MailMoves
  import opened MailStates
  import opened PollReplay
  import opened Traces

  const SEEN := "\\Seen"
  const DELETED := "\\Deleted"

  /** Flags as a client is told them: \Seen is kept apart, in read_at. */
  function FlagsOf(p: Payload): seq<string> {
    p.flags + (if p.seen then [SEEN] else [])
  }

  /** What `loadRecords` returns. */
  ghost function RecordsOf(s: State, key: Key): (rs: seq<Record>)
    ensures Uids(rs) == Listing(s, key)
  {
    var us := Listing(s, key);
    var rs := seq(|us|, i requires 0 <= i < |us| => Record(us[i], FlagsOf(s.rows[us[i]].payload)));
    assert Uids(rs) == us;
    rs
  }

  /** The rows of the folder, each once, by rising UID, \Seen last among their flags. */
  lemma RecordsAre(s: State, key: Key)
    ensures forall i, j | 0 <= i < j < |RecordsOf(s, key)| :: RecordsOf(s, key)[i].uid < RecordsOf(s, key)[j].uid
    ensures forall r :: r in RecordsOf(s, key) <==>
              && r.uid in s.rows && s.rows[r.uid].box == key.box && s.rows[r.uid].folder == key.name
              && r.flags == s.rows[r.uid].payload.flags + (if s.rows[r.uid].payload.seen then ["\\Seen"] else [])
  {
    var rs := RecordsOf(s, key);
    assert forall i | 0 <= i < |rs| :: rs[i].uid == Uids(rs)[i] && Uids(rs)[i] in Listing(s, key);
    forall r: Record | r.uid in UidsIn(s, key) && r.flags == FlagsOf(s.rows[r.uid].payload) ensures r in rs {
      assert r.uid in Listing(s, key);
      var i :| 0 <= i < |rs| && Listing(s, key)[i] == r.uid;
      assert rs[i] == r;
    }
  }

  /** `records`: the snapshot's UIDs, each with its current flags where the row is still in the folder. */
  function Refreshed(s: State, key: Key, snapshot: seq<Record>): (rs: seq<Record>)
    ensures Uids(rs) == Uids(snapshot)
  {
    var rs := seq(|snapshot|, i requires 0 <= i < |snapshot| =>
      var u := snapshot[i].uid;
      if u in UidsIn(s, key) then Record(u, FlagsOf(s.rows[u].payload)) else snapshot[i]);
    assert Uids(rs) == Uids(snapshot);
    rs
  }

  predicate MarkedDeleted(r: Record) { DELETED in r.flags }

  function Doomed(rs: seq<Record>): set<nat> {
    set r | r in rs && MarkedDeleted(r) :: r.uid
  }

  /** The records that stay, and the view entries beside them. */
  function Staying(rs: seq<Record>): (kept: seq<Record>)
    ensures |kept| <= |rs|
  {
    if rs == [] then [] else (if MarkedDeleted(rs[0]) then [] else [rs[0]]) + Staying(rs[1..])
  }

  lemma {:induction false} StayingAre(rs: seq<Record>)
    ensures forall r :: r in Staying(rs) <==> r in rs && "\\Deleted" !in r.flags
  {
    if rs != [] {
      StayingAre(rs[1..]);
      assert rs == [rs[0]] + rs[1..];
    }
  }

  function StayingEntries(rs: seq<Record>, view: seq<Entry>): seq<Entry>
    requires |view| == |rs|
  {
    if rs == [] then [] else (if MarkedDeleted(rs[0]) then [] else [view[0]]) + StayingEntries(rs[1..], view[1..])
  }

  // ---------------------------------------------------------------- sessions

  /** `base` is the state the snapshot was last read from. */
  datatype Session = Session(key: Key, base: State, db: State, snapshot: seq<Record>, view: seq<Entry>)

  datatype Event =
    | Db(step: Step)                           // anyone's step, this connection's own included
    | Told(n: nat, flags: seq<string>)         // a FETCH response to FETCH or STORE
    | Polled
    | Expunged(rs: seq<Record>)                // this session's DELETE; `rs` is what it read of its messages before

  ghost function Select(db: State, key: Key): Session {
    Session(key, db, db, RecordsOf(db, key), View(RecordsOf(db, key)))
  }

  /** The selected name means the folder the snapshot was read from. */
  ghost predicate StillBound(s: Session) {
    s.key in s.base.folders ==> s.key in s.db.folders && s.db.folders[s.key] == s.base.folders[s.key]
  }

  ghost function React(s: Session, e: Event): Session {
    match e
    case Db(step) => s.(db := Apply(s.db, step))
    case Told(n, flags) =>
      if 1 <= n <= |s.view| && n <= |s.snapshot|
        then s.(view := s.view[n - 1 := Known(Record(s.snapshot[n - 1].uid, flags))]) else s
    case Polled =>
      var rows := RecordsOf(s.db, s.key);
      var v := Replay(s.view, PollResponses(s.snapshot, rows));
      s.(base := s.db, snapshot := rows, view := if v.Some? then v.value else s.view)
    case Expunged(rs) =>
      if Uids(rs) != Uids(s.snapshot) then s
      else s.(db := Apply(s.db, Expunge(s.key, Doomed(rs))), snapshot := Staying(rs),
         view := if |s.view| == |rs| then StayingEntries(rs, s.view) else s.view)
  }

  ghost function Play(s: Session, es: seq<Event>): Session
    decreases |es|
  {
    if es == [] then s else React(Play(s, es[..|es| - 1]), es[|es| - 1])
  }

  /** Every EXPUNGE of the session meets the proviso when it deletes, whenever it read. */
  ghost predicate Careful(s: Session, es: seq<Event>) {
    forall n | 0 <= n < |es| && es[n].Expunged? :: StillBound(Play(s, es[..n]))
  }

  /** Every Poll of the session finds no unchanged message above one its snapshot lacks. */
  ghost predicate PolledInOrder(s: Session, es: seq<Event>) {
    forall n | 0 <= n < |es| && es[n].Polled? :: PollInOrder(Play(s, es[..n]))
  }

  ghost predicate PollInOrder(s: Session) { NewOnesLast(s.snapshot, RecordsOf(s.db, s.key)) }

  /** The client's numbering is the snapshot's. */
  predicate InStep(s: Session) { Agrees(s.snapshot, s.view) }

  /** ... and has been all along. */
  ghost predicate AlwaysInStep(s: Session, es: seq<Event>) {
    forall n | 0 <= n <= |es| :: InStep(Play(s, es[..n]))
  }

  // ---------------------------------------------------------------- the invariant

  /** Expunged by this session: its row is gone, or in another folder for good. */
  ghost predicate Dropped(s: State, validity: nat, u: nat)
    requires RowsOk(s)
  {
    && u <= s.uidSeq.Issued()
    && (forall t | t in s.txs :: u !in s.txs[t].uids)
    && (u in s.rows ==> FolderOf(s, u) != validity)
  }

  ghost predicate SessionOk(s: Session) {
    && Valid(s.base) && Valid(s.db) && Continues(s.base, s.db)
    && Ordered(s.snapshot) && Agrees(s.snapshot, s.view)
    && (forall u | u in Uids(s.snapshot) :: u in Listing(s.base, s.key))
    && (forall u | u in Listing(s.base, s.key) && u !in Uids(s.snapshot) :: Dropped(s.db, s.base.folders[s.key], u))
  }

  lemma SelectOk(db: State, key: Key)
    requires Valid(db)
    ensures SessionOk(Select(db, key))
  {
    ContinuesRun(db, []);
    assert Uids(Select(db, key).snapshot) == Listing(db, key);
    AgreesAtFirst(Select(db, key).snapshot);
  }

  lemma AgreesAtFirst(rs: seq<Record>)
    ensures Agrees(rs, View(rs))
  {
  }

  lemma DroppedCommit(s: State, t: nat, validity: nat, u: nat)
    requires Valid(s) && t in s.txs && CanCommit(s, t) && RowsOk(Committed(s, t))
    requires validity <= s.validitySeq.Issued() && Dropped(s, validity, u)
    ensures Dropped(Committed(s, t), validity, u)
  {
    assert PendingOk(s, s.txs[t]);
    CommitRows(s, t);
    CommitKeepsOldFolders(s, t);
    if u in Committed(s, t).rows { assert s.rows[u].Home() in s.folders; }
  }

  lemma DroppedQuiet(s: State, e: Step, validity: nat, u: nat)
    requires RowsOk(s) && FoldersOk(s) && InboxesOk(s) && IsQuiet(e) && RowsOk(Apply(s, e))
    requires validity <= s.validitySeq.Issued() && Dropped(s, validity, u)
    ensures Dropped(Apply(s, e), validity, u)
  {
    QuietSteps(s, e);
    QuietHomes(s, e);
    if u in Apply(s, e).rows { assert HomeKept(s, Apply(s, e), u); }
  }

  lemma DroppedInside(s: State, e: Step, validity: nat, u: nat)
    requires RowsOk(s) && RowsOk(Apply(s, e)) && (e.Lock? || e.Capture? || e.Allocate? || e.Abort?) &&
             Dropped(s, validity, u)
    ensures Dropped(Apply(s, e), validity, u)
  {
    assert Apply(s, e).rows == s.rows && Apply(s, e).folders == s.folders;
  }

  lemma DroppedStep(s: State, e: Step, validity: nat, u: nat)
    requires Valid(s) && RowsOk(Apply(s, e)) && validity <= s.validitySeq.Issued() && Dropped(s, validity, u)
    ensures Dropped(Apply(s, e), validity, u)
  {
    hide Dropped, CanCommit, RowsOk;
    if e.Commit? {
      if e.tx in s.txs && CanCommit(s, e.tx) { DroppedCommit(s, e.tx, validity, u); }
    } else if IsQuiet(e) {
      DroppedQuiet(s, e, validity, u);
    } else {
      DroppedInside(s, e, validity, u);
    }
  }

  lemma DbEventOk(s: Session, step: Step)
    requires SessionOk(s)
    ensures SessionOk(React(s, Db(step)))
  {
    ContinuesStep(s.base, s.db, step);
    forall u | u in Listing(s.base, s.key) && u !in Uids(s.snapshot)
      ensures Dropped(Apply(s.db, step), s.base.folders[s.key], u)
    {
      DroppedStep(s.db, step, s.base.folders[s.key], u);
    }
  }

  /** Between two Polls a folder only loses messages and gains newer ones, even for a session that expunges. */
  lemma SnapshotAppendOnly(s: Session)
    requires SessionOk(s)
    ensures AppendOnly(Uids(s.snapshot), Listing(s.db, s.key))
  {
    forall u, v | u in Listing(s.db, s.key) && u in Uids(s.snapshot) && v in Listing(s.db, s.key) &&
      v !in Uids(s.snapshot)
      ensures u < v
    {
      KeptMeansSameFolder(s.base, s.db, s.key, u);
      assert v in Listing(s.base, s.key) ==> Dropped(s.db, s.base.folders[s.key], v);
      AddedIsNewer(s.base, s.db, s.key, u, v);
    }
  }

  /** A client in step is in step with the folder after a Poll exactly when the Poll is in order. */
  lemma PollKeepsStep(s: Session)
    requires Ordered(s.snapshot) && InStep(s)
    ensures Replay(s.view, PollResponses(s.snapshot, RecordsOf(s.db, s.key))).Some?
    ensures InStep(React(s, Polled)) <==> PollInOrder(s)
    ensures React(s, Polled).snapshot == RecordsOf(s.db, s.key) && Ordered(RecordsOf(s.db, s.key))
  {
    PollNumbersExactly(s.snapshot, s.view, RecordsOf(s.db, s.key));
  }

  /**
   Flags: after a Poll the client sees exactly the folder if and only if the Poll is in order and the client was shown
   every message that has not changed since the snapshot as it was then. A flag it was told of and that was then taken
   back is not: `snapshot` never learned of it, so Poll is silent.
   */
  lemma {:induction false} PollShowsFolder(s: Session)
    requires Ordered(s.snapshot) && InStep(s)
    ensures React(s, Polled).view == View(RecordsOf(s.db, s.key))
            <==> PollInOrder(s) && ShowsUnchanged(s.snapshot, s.view, RecordsOf(s.db, s.key))
  {
    PollShowsExactly(s.snapshot, s.view, RecordsOf(s.db, s.key));
    PollNumbersExactly(s.snapshot, s.view, RecordsOf(s.db, s.key));
  }

  lemma PolledOk(s: Session)
    requires SessionOk(s)
    ensures SessionOk(React(s, Polled)) && PollInOrder(s)
  {
    SnapshotAppendOnly(s);
    AppendOnlyPutsNewOnesLast(s.snapshot, RecordsOf(s.db, s.key));
    PollKeepsStep(s);
    ContinuesRun(s.db, []);
  }

  lemma {:induction false} StayingIs(rs: seq<Record>, view: seq<Entry>)
    requires Agrees(rs, view)
    ensures Agrees(Staying(rs), StayingEntries(rs, view))
    ensures forall r :: r in Staying(rs) <==> r in rs && !MarkedDeleted(r)
  {
    if rs != [] {
      StayingIs(rs[1..], view[1..]);
      assert rs == [rs[0]] + rs[1..];
      var kept := Staying(rs[1..]);
      assert Staying(rs) == if MarkedDeleted(rs[0]) then kept else [rs[0]] + kept;
      var entries := StayingEntries(rs[1..], view[1..]);
      assert StayingEntries(rs, view) == if MarkedDeleted(rs[0]) then entries else [view[0]] + entries;
    }
  }

  lemma {:induction false} StayingAscends(rs: seq<Record>)
    requires Ordered(rs)
    ensures Ordered(Staying(rs))
    ensures forall u | u in Uids(Staying(rs)) :: u in Uids(rs)
  {
    if rs != [] {
      assert Uids(rs) == [rs[0].uid] + Uids(rs[1..]);
      StayingAscends(rs[1..]);
      var rest := Staying(rs[1..]);
      assert Uids([rs[0]] + rest) == [rs[0].uid] + Uids(rest);
      forall u | u in Uids(rest) ensures rs[0].uid < u {
        var i :| 0 <= i < |rs[1..]| && Uids(rs[1..])[i] == u;
        assert Uids(rs)[i + 1] == u;
      }
      ConcatAscending([rs[0].uid], Uids(rest));
    }
  }

  lemma StayingOrDoomed(rs: seq<Record>, u: nat)
    requires u in Uids(rs)
    requires forall r :: r in Staying(rs) <==> r in rs && !MarkedDeleted(r)
    ensures u in Uids(Staying(rs)) || u in Doomed(rs)
  {
    var i :| 0 <= i < |rs| && Uids(rs)[i] == u;
    if !MarkedDeleted(rs[i]) {
      assert rs[i] in Staying(rs);
      var j :| 0 <= j < |Staying(rs)| && Staying(rs)[j] == rs[i];
      assert Uids(Staying(rs))[j] == u;
    }
  }

  /** Whatever flags it read, EXPUNGE drops the same entries from the snapshot and the view. */
  lemma ExpungeKeepsStep(s: Session, rs: seq<Record>)
    requires Ordered(s.snapshot) && InStep(s) && Uids(rs) == Uids(s.snapshot)
    ensures var r := React(s, Expunged(rs));
            && InStep(r) && Ordered(r.snapshot) && r.snapshot == Staying(rs)
            && (forall o :: o in r.snapshot <==> o in rs && !MarkedDeleted(o))
            && (forall u | u in Uids(r.snapshot) :: u in Uids(s.snapshot))
  {
    forall i | 0 <= i < |rs| ensures rs[i].uid == s.snapshot[i].uid { assert Uids(rs)[i] == Uids(s.snapshot)[i]; }
    assert Agrees(rs, s.view);
    StayingIs(rs, s.view);
    StayingAscends(rs);
  }

  lemma ExpungedOk(s: Session, rs: seq<Record>)
    requires SessionOk(s) && StillBound(s) && Uids(rs) == Uids(s.snapshot)
    ensures SessionOk(React(s, Expunged(rs)))
  {
    var step := Expunge(s.key, Doomed(rs));
    ContinuesStep(s.base, s.db, step);
    ExpungeKeepsStep(s, rs);
    var r := Apply(s.db, step);
    forall u | u in Listing(s.base, s.key) && u !in Uids(Staying(rs)) ensures Dropped(r, s.base.folders[s.key], u) {
      if u in Uids(s.snapshot) {
        StayingOrDoomed(rs, u);
        assert s.base.rows[u].Home() == s.key;
        DoomedIsDropped(s.base, s.db, s.key, Doomed(rs), u);
      } else {
        DroppedStep(s.db, step, s.base.folders[s.key], u);
      }
    }
  }

  lemma DoomedIsDropped(base: State, db: State, key: Key, ids: set<nat>, u: nat)
    requires RowsOk(base) && RowsOk(db) && FoldersOk(db) && Continues(base, db) && u in UidsIn(base, key) && u in ids
    requires key in base.folders && key in db.folders && db.folders[key] == base.folders[key]
    requires RowsOk(Apply(db, Expunge(key, ids)))
    ensures Dropped(Apply(db, Expunge(key, ids)), base.folders[key], u)
  {
    forall t | t in db.txs ensures u !in db.txs[t].uids {
      assert u in db.txs[t].uids ==> Unseen(base, db.txs[t].box, u);
    }
  }

  lemma ToldOk(s: Session, n: nat, flags: seq<string>)
    requires SessionOk(s)
    ensures SessionOk(React(s, Told(n, flags)))
  {
    hide Valid, Continues, Dropped, Ordered;
    var r := React(s, Told(n, flags));
    assert r == s.(view := r.view);
    assert Agrees(s.snapshot, r.view);
  }

  lemma EventOk(s: Session, e: Event)
    requires SessionOk(s) && (e.Expunged? ==> StillBound(s))
    ensures SessionOk(React(s, e))
  {
    match e {
      case Db(step) => DbEventOk(s, step);
      case Told(n, flags) => ToldOk(s, n, flags);
      case Polled => PolledOk(s);
      case Expunged(rs) => if Uids(rs) == Uids(s.snapshot) { ExpungedOk(s, rs); }
    }
  }

  lemma StepKept(s: Session, e: Event)
    requires Ordered(s.snapshot) && InStep(s)
    ensures Ordered(React(s, e).snapshot)
    ensures InStep(React(s, e)) <==> (e.Polled? ==> PollInOrder(s))
  {
    match e {
      case Db(_) =>
      case Told(n, flags) => assert React(s, e) == s.(view := React(s, e).view);
      case Polled => PollKeepsStep(s);
      case Expunged(rs) => if Uids(rs) == Uids(s.snapshot) { ExpungeKeepsStep(s, rs); }
    }
  }

  /**
   Through any session at all, the client's numbering is the snapshot's throughout, if and only if every Poll is in
   order.
   */
  lemma {:induction false} SessionAgreesExactly(db: State, key: Key, es: seq<Event>)
    ensures AlwaysInStep(Select(db, key), es) <==> PolledInOrder(Select(db, key), es)
    ensures AlwaysInStep(Select(db, key), es) ==> Ordered(Play(Select(db, key), es).snapshot)
    decreases |es|
  {
    var s := Select(db, key);
    if es == [] {
      AgreesAtFirst(s.snapshot);
      assert Play(s, es[..0]) == s;
    } else {
      var front, e := es[..|es| - 1], es[|es| - 1];
      SessionAgreesExactly(db, key, front);
      StepsOfFront(s, es);
      if AlwaysInStep(s, front) {
        assert front[..|front|] == front && InStep(Play(s, front[..|front|]));
        StepKept(Play(s, front), e);
      }
    }
  }

  /** The three, one event shorter. */
  lemma StepsOfFront(s: Session, es: seq<Event>)
    requires es != []
    ensures var front := es[..|es| - 1];
            && (AlwaysInStep(s, es) <==> AlwaysInStep(s, front) && InStep(Play(s, es)))
            && (PolledInOrder(s, es) <==>
                PolledInOrder(s, front) && (es[|es| - 1].Polled? ==> PollInOrder(Play(s, front))))
            && (Careful(s, es) <==> Careful(s, front) && (es[|es| - 1].Expunged? ==> StillBound(Play(s, front))))
  {
    InStepOfFront(s, es);
    PollsOfFront(s, es);
    ExpungesOfFront(s, es);
  }

  lemma InStepOfFront(s: Session, es: seq<Event>)
    requires es != []
    ensures AlwaysInStep(s, es) <==> AlwaysInStep(s, es[..|es| - 1]) && InStep(Play(s, es))
  {
    hide Play, InStep;
    var front := es[..|es| - 1];
    assert es[..|es|] == es;
    if AlwaysInStep(s, es) {
      forall n | 0 <= n <= |front| ensures InStep(Play(s, front[..n])) { assert front[..n] == es[..n]; }
    }
    if AlwaysInStep(s, front) && InStep(Play(s, es)) {
      forall n | 0 <= n <= |es| ensures InStep(Play(s, es[..n])) { if n < |es| { assert front[..n] == es[..n]; } }
    }
  }

  lemma PollsOfFront(s: Session, es: seq<Event>)
    requires es != []
    ensures var front := es[..|es| - 1];
            PolledInOrder(s, es) <==> PolledInOrder(s, front) && (es[|es| - 1].Polled? ==> PollInOrder(Play(s, front)))
  {
    hide Play, PollInOrder;
    var front := es[..|es| - 1];
    if PolledInOrder(s, es) {
      forall n | 0 <= n < |front| && front[n].Polled? ensures PollInOrder(Play(s, front[..n])) {
        assert es[n].Polled? && front[..n] == es[..n];
      }
    }
    if PolledInOrder(s, front) && (es[|es| - 1].Polled? ==> PollInOrder(Play(s, front))) {
      forall n | 0 <= n < |es| && es[n].Polled? ensures PollInOrder(Play(s, es[..n])) {
        if n < |front| { assert front[n].Polled? && front[..n] == es[..n]; }
      }
    }
  }

  lemma ExpungesOfFront(s: Session, es: seq<Event>)
    requires es != []
    ensures var front := es[..|es| - 1];
            Careful(s, es) <==> Careful(s, front) && (es[|es| - 1].Expunged? ==> StillBound(Play(s, front)))
  {
    hide Play, StillBound;
    var front := es[..|es| - 1];
    if Careful(s, es) {
      forall n | 0 <= n < |front| && front[n].Expunged? ensures StillBound(Play(s, front[..n])) {
        assert es[n].Expunged? && front[..n] == es[..n];
      }
    }
    if Careful(s, front) && (es[|es| - 1].Expunged? ==> StillBound(Play(s, front))) {
      forall n | 0 <= n < |es| && es[n].Expunged? ensures StillBound(Play(s, es[..n])) {
        if n < |front| { assert front[n].Expunged? && front[..n] == es[..n]; }
      }
    }
  }

  /**
   After any careful session the client's numbering is the snapshot's, and the next Poll brings it to the folder's.
   */
  lemma {:induction false} SessionAgrees(db: State, key: Key, es: seq<Event>)
    requires Valid(db) && Careful(Select(db, key), es)
    ensures SessionOk(Play(Select(db, key), es)) && PolledInOrder(Select(db, key), es)
    ensures InStep(Play(Select(db, key), es))
    ensures var s := React(Play(Select(db, key), es), Polled); Agrees(RecordsOf(s.db, key), s.view)
    decreases |es|
  {
    var start := Select(db, key);
    if es == [] {
      SelectOk(db, key);
    } else {
      var front := es[..|es| - 1];
      StepsOfFront(start, es);
      SessionAgrees(db, key, front);
      EventOk(Play(start, front), es[|es| - 1]);
      if es[|es| - 1].Polled? { PolledOk(Play(start, front)); }
    }
    KeyKept(start, es);
    PolledOk(Play(start, es));
  }

  lemma {:induction false} KeyKept(s: Session, es: seq<Event>)
    ensures Play(s, es).key == s.key
    decreases |es|
  {
    if es != [] { KeyKept(s, es[..|es| - 1]); }
  }

  // ---------------------------------------------------------------- the proviso is needed

  const WORK := Key(0, "A")
  const AWAY := Key(0, "B")

  function Memo(source: string, flags: seq<string>): Payload { Payload(source, "", flags, false, 0, false) }

  /** One mailbox, two messages in folder A, the first marked \Deleted. */
  function Sample(): State {
    State({0}, map[Key(0, INBOX) := 1, Key(0, JUNK) := 2, WORK := 3],
          map[1 := Row(0, 0, "A", Memo("first", [DELETED])), 2 := Row(1, 0, "A", Memo("second", []))],
          Last(2), Last(3), 2, map[])
  }

  /** What the session reads of its messages at first, while the name means their folder. */
  function ReadBefore(): seq<Record> { [Record(1, [DELETED]), Record(2, [])] }

  /** The session reads; A is renamed away; the session deletes; A gets its name back. */
  function Misleading(): seq<Event> {
    [Db(RenameFolder(WORK, "B")), Expunged(ReadBefore()), Db(RenameFolder(AWAY, "A")), Polled]
  }

  lemma SampleValid()
    ensures Valid(Sample())
  {
    SampleTables();
    SampleRest();
  }

  lemma SampleTables()
    ensures FoldersOk(Sample()) && InboxesOk(Sample())
  {
  }

  lemma SampleRest()
    ensures var s := Sample(); RowsOk(s) && IdsOk(s) && AllPendingOk(s) && LocksOk(s) && Deduplicated(s)
  {
  }

  lemma SampleRecords(s: State)
    requires s.rows == Sample().rows
    ensures RecordsOf(s, WORK) == [Record(1, [DELETED]), Record(2, [])]
  {
    assert UidsIn(s, WORK) == {1, 2};
    SameMembersSameOrder(Listing(s, WORK), [1, 2]);
    hide Listing, UidsIn, Sample;
    assert s.rows[1].payload == Memo("first", [DELETED]) && s.rows[2].payload == Memo("second", []);
    FlagsUnseen("first", [DELETED]);
    FlagsUnseen("second", []);
  }

  lemma FlagsUnseen(source: string, flags: seq<string>)
    ensures FlagsOf(Memo(source, flags)) == flags
  {
  }

  /** Away from its name the DELETE finds nothing, and the snapshot forgets the first message all the same. */
  lemma ExpungeMissesRows(s: Session)
    requires s.key == WORK && s.snapshot == ReadBefore() && s.view == View(s.snapshot)
    requires UidsIn(s.db, WORK) == {}
    ensures var r := React(s, Expunged(ReadBefore()));
            r == s.(snapshot := [Record(2, [])], view := View([Record(2, [])]))
  {
    var rs := ReadBefore();
    assert Picked(s.db, WORK, Doomed(rs)) == {} && Without(s.db.rows, {}) == s.db.rows;
    ForgetsFirst();
  }

  lemma ForgetsFirst()
    ensures Staying(ReadBefore()) == [Record(2, [])]
    ensures StayingEntries(ReadBefore(), View(ReadBefore())) == View([Record(2, [])])
  {
    var rs, view := ReadBefore(), View(ReadBefore());
    assert rs[1..] == [Record(2, [])] && rs[1..][1..] == [] && DELETED in rs[0].flags;
    assert Staying(rs) == [] + Staying(rs[1..]) && Staying(rs[1..]) == [Record(2, [])] + Staying([]);
    assert StayingEntries(rs, view) == [] + StayingEntries(rs[1..], view[1..]);
    assert StayingEntries(rs[1..], view[1..]) == [view[1]] + StayingEntries([], []);
  }

  /** The tables while the messages are away: they lie in B, and nothing is called A. */
  function Away(): State {
    Sample().(
      folders := map[Key(0, INBOX) := 1, Key(0, JUNK) := 2, AWAY := 3],
      rows := map[1 := Row(0, 0, "B", Memo("first", [DELETED])), 2 := Row(1, 0, "B", Memo("second", []))])
  }

  lemma GoesAway()
    ensures Apply(Sample(), RenameFolder(WORK, "B")) == Away() && UidsIn(Away(), WORK) == {}
  {
    assert Sample().folders - {WORK} == map[Key(0, INBOX) := 1, Key(0, JUNK) := 2];
    assert Refolder(Sample().rows, WORK, "B") == Away().rows;
  }

  lemma ComesBack()
    ensures Apply(Away(), RenameFolder(AWAY, "A")) == Sample()
  {
    assert Away().folders - {AWAY} == map[Key(0, INBOX) := 1, Key(0, JUNK) := 2];
    assert Refolder(Away().rows, AWAY, "A") == Sample().rows;
  }

  /** A snapshot without the first message, polled against both. */
  lemma PollMisleads(s: Session)
    requires s.key == WORK && s.snapshot == [Record(2, [])] && s.view == View(s.snapshot) && s.db.rows == Sample().rows
    ensures !PollInOrder(s) && !Agrees(RecordsOf(s.db, WORK), React(s, Polled).view)
  {
    SampleRecords(s.db);
    var rows := RecordsOf(s.db, WORK);
    assert Unchanged(s.snapshot, rows[1]) && rows[0].uid !in Members(Uids(s.snapshot));
    assert !NewOnesLast(s.snapshot, rows);
    PollKeepsStep(s);
  }

  /**
   The session reads its flags while the name is bound, deletes while it is not, and forgets a message that is still
   there: once the name is back, Poll leaves the client with the wrong numbering.
   */
  lemma {:induction false} RenamedAwayExpungeMisleads()
    ensures Valid(Sample()) && Refreshed(Sample(), WORK, Select(Sample(), WORK).snapshot) == ReadBefore()
    ensures !Careful(Select(Sample(), WORK), Misleading())
    ensures var s := Play(Select(Sample(), WORK), Misleading()); s.key == WORK && !Agrees(RecordsOf(s.db, WORK), s.view)
  {
    hide Play, React, Valid, Apply;
    SampleValid();
    var s0, es := Select(Sample(), WORK), Misleading();
    ReadsBefore();
    PlayFour(s0, es);
    GoesAway();
    ComesBack();
    ReactDb(s0, RenameFolder(WORK, "B"));
    var s1 := s0.(db := Away());
    DeletesUnbound(s0, es);
    ExpungeMissesRows(s1);
    var s2 := s1.(snapshot := [Record(2, [])], view := View([Record(2, [])]));
    ReactDb(s2, RenameFolder(AWAY, "A"));
    var s3 := s2.(db := Sample());
    PollMisleads(s3);
    ReactPolled(s3);
  }

  lemma ReadsBefore()
    ensures Select(Sample(), WORK).snapshot == ReadBefore()
    ensures Refreshed(Sample(), WORK, ReadBefore()) == ReadBefore()
  {
    SampleRecords(Sample());
    FlagsUnseen("first", [DELETED]);
    FlagsUnseen("second", []);
    SameFlagsSameRecords(Sample(), WORK, ReadBefore());
  }

  lemma SameFlagsSameRecords(s: State, key: Key, rs: seq<Record>)
    requires forall r | r in rs && r.uid in UidsIn(s, key) :: FlagsOf(s.rows[r.uid].payload) == r.flags
    ensures Refreshed(s, key, rs) == rs
  {
    forall i | 0 <= i < |rs| ensures Refreshed(s, key, rs)[i] == rs[i] {
      assert rs[i] in rs;
    }
  }

  lemma ReactDb(s: Session, step: Step)
    ensures React(s, Db(step)) == s.(db := Apply(s.db, step))
  {
  }

  lemma ReactPolled(s: Session)
    ensures React(s, Polled).db == s.db && React(s, Polled).key == s.key
  {
  }

  /** Its DELETE runs while the name means no folder. */
  lemma DeletesUnbound(s: Session, es: seq<Event>)
    requires es == Misleading() && s.base == Sample() && s.key == WORK && React(s, es[0]) == s.(db := Away())
    ensures !Careful(s, es)
  {
    PlayNext(s, es, 0);
    assert es[..0] == [] && es[1].Expunged? && !StillBound(Play(s, es[..1]));
  }

  lemma PlayNext(s: Session, es: seq<Event>, n: nat)
    requires n < |es|
    ensures Play(s, es[..n + 1]) == React(Play(s, es[..n]), es[n])
  {
    assert es[..n + 1][..n] == es[..n];
  }

  lemma PlayFour(s: Session, es: seq<Event>)
    requires |es| == 4
    ensures Play(s, es) == React(React(React(React(s, es[0]), es[1]), es[2]), es[3])
  {
    assert es[..0] == [] && es[..4] == es;
    PlayNext(s, es, 0);
    PlayNext(s, es, 1);
    PlayNext(s, es, 2);
    PlayNext(s, es, 3);
  }

  // ---------------------------------------------------------------- sessions from traces

  lemma PlayLast(s: Session, es: seq<Event>, e: Event)
    ensures Play(s, es + [e]) == React(Play(s, es), e)
  {
    assert (es + [e])[..|es + [e]| - 1] == es;
  }

  /** Sessions compose. */
  lemma {:induction false} PlayConcat(s: Session, a: seq<Event>, b: seq<Event>)
    ensures Play(s, a + b) == Play(Play(s, a), b)
    decreases |b|
  {
    if b == [] {
      assert a + b == a;
    } else {
      var front := b[..|b| - 1];
      assert (a + b)[..|a + b| - 1] == a + front;
      PlayConcat(s, a, front);
    }
  }

  /** Steps of anyone, as events of a session. */
  function Happenings(acts: seq<Act<Step>>): (es: seq<Event>)
    ensures |es| == |acts|
  {
    seq(|acts|, i requires 0 <= i < |acts| => Db(acts[i].step))
  }

  /** The same, but for the session's own DELETE, which goes with what it read. */
  function EventOf(act: Act<Step>, rs: seq<Record>): Event {
    if act.Own? && act.step.Expunge? then Expunged(rs) else Db(act.step)
  }

  function Events(acts: seq<Act<Step>>, rs: seq<Record>): (es: seq<Event>)
    ensures |es| == |acts|
  {
    seq(|acts|, i requires 0 <= i < |acts| => EventOf(acts[i], rs))
  }

  lemma EventsLast(acts: seq<Act<Step>>, rs: seq<Record>)
    requires acts != []
    ensures var front := acts[..|acts| - 1];
            && Events(acts, rs)[..|acts| - 1] == Events(front, rs) &&
               Happenings(acts)[..|acts| - 1] == Happenings(front)
            && Steps(acts)[..|acts| - 1] == Steps(front)
  {
  }

  /** A call that forgets no message leaves snapshot and view, and takes the tables where its trace leads. */
  lemma {:induction false} CallPlays(s: Session, acts: seq<Act<Step>>)
    ensures Play(s, Happenings(acts)) == s.(db := Exec(s.db, Steps(acts)))
    decreases |acts|
  {
    if acts != [] {
      CallPlays(s, acts[..|acts| - 1]);
      EventsLast(acts, []);
    }
  }

  lemma {:induction false} NoOwnSteps(acts: seq<Act<Step>>, rs: seq<Record>)
    requires Owned(acts) == []
    ensures Events(acts, rs) == Happenings(acts)
    decreases |acts|
  {
    if acts != [] {
      var front := acts[..|acts| - 1];
      assert Owned(front) <= Owned(acts);
      NoOwnSteps(front, rs);
      EventsLast(acts, rs);
    }
  }

  /** A call whose one own step is the DELETE of what it read, and which then forgets that. */
  lemma {:induction false} ExpungePlays(s: Session, acts: seq<Act<Step>>, rs: seq<Record>)
    requires Uids(rs) == Uids(s.snapshot) && Owned(acts) == [Expunge(s.key, Doomed(rs))]
    ensures var r := Play(s, Events(acts, rs));
            && r.key == s.key && r.base == s.base && r.db == Exec(s.db, Steps(acts)) && r.snapshot == Staying(rs)
            && r.view == if |s.view| == |rs| then StayingEntries(rs, s.view) else s.view
    decreases |acts|
  {
    var front, last := acts[..|acts| - 1], acts[|acts| - 1];
    EventsLast(acts, rs);
    if last.Own? {
      assert Owned(acts)[..|Owned(acts)| - 1] == Owned(front);
      NoOwnSteps(front, rs);
      CallPlays(s, front);
    } else {
      assert Owned(acts) == Owned(front) + [];
      ExpungePlays(s, front, rs);
    }
  }

  /** The session after some calls, each given by its events. */
  ghost function PlayCalls(s: Session, calls: seq<seq<Event>>): Session
    decreases |calls|
  {
    if calls == [] then s else Play(PlayCalls(s, calls[..|calls| - 1]), calls[|calls| - 1])
  }

  function Flat(calls: seq<seq<Event>>): seq<Event>
    decreases |calls|
  {
    if calls == [] then [] else Flat(calls[..|calls| - 1]) + calls[|calls| - 1]
  }

  /** Each call's EXPUNGE deletes while the name is bound, in the session as it is when the call begins. */
  ghost predicate CarefulCalls(s: Session, calls: seq<seq<Event>>)
    decreases |calls|
  {
    calls == [] ||
      (CarefulCalls(s, calls[..|calls| - 1]) && Careful(PlayCalls(s, calls[..|calls| - 1]), calls[|calls| - 1]))
  }

  lemma {:induction false} CallsAreOneSession(s: Session, calls: seq<seq<Event>>)
    ensures PlayCalls(s, calls) == Play(s, Flat(calls))
    ensures CarefulCalls(s, calls) ==> Careful(s, Flat(calls))
    decreases |calls|
  {
    if calls != [] {
      var front, last := calls[..|calls| - 1], calls[|calls| - 1];
      CallsAreOneSession(s, front);
      PlayConcat(s, Flat(front), last);
      if CarefulCalls(s, calls) { CarefulConcat(s, Flat(front), last); }
    }
  }

  lemma CarefulConcat(s: Session, a: seq<Event>, b: seq<Event>)
    requires Careful(s, a) && Careful(Play(s, a), b)
    ensures Careful(s, a + b)
  {
    hide Play, StillBound;
    var es := a + b;
    forall n | 0 <= n < |es| && es[n].Expunged? ensures StillBound(Play(s, es[..n])) {
      if n < |a| {
        assert a[n].Expunged? && es[..n] == a[..n];
      } else {
        assert b[n - |a|].Expunged? && es[..n] == a + b[..n - |a|];
        PlayConcat(s, a, b[..n - |a|]);
      }
    }
  }

  /**
   So after any calls of one connection, others running within and between them, what holds of whole sessions holds.
   */
  lemma {:induction false} CallsAgree(db: State, key: Key, calls: seq<seq<Event>>)
    requires Valid(db) && CarefulCalls(Select(db, key), calls)
    ensures InStep(PlayCalls(Select(db, key), calls))
    ensures var s := React(PlayCalls(Select(db, key), calls), Polled); Agrees(RecordsOf(s.db, key), s.view)
  {
    CallsAreOneSession(Select(db, key), calls);
    SessionAgrees(db, key, Flat(calls));
  }

  // ---------------------------------------------------------------- answers

  /** What FETCH and STORE tell of a message under its number is told of the message the client has there. */
  lemma TellsOfItsMessage(s: Session, rs: seq<Record>, n: nat, flags: seq<string>)
    requires InStep(s) && Uids(rs) == Uids(s.snapshot) && 1 <= n <= |rs|
    ensures React(s, Told(n, flags)) == s.(view := s.view[n - 1 := Known(Record(rs[n - 1].uid, flags))])
    ensures InStep(React(s, Told(n, flags)))
  {
    assert Uids(rs)[n - 1] == Uids(s.snapshot)[n - 1];
  }

  /** One answer per message, each under the number of the message it is about. */
  function Answers(fs: seq<(nat, nat)>, flags: seq<seq<string>>): seq<Event>
    requires |fs| == |flags|
  {
    seq(|fs|, i requires 0 <= i < |fs| => Told(fs[i].0, flags[i]))
  }

  /** The answers are about the messages the session's own numbering gives. */
  predicate Numbered(fs: seq<(nat, nat)>, rs: seq<Record>) {
    forall i | 0 <= i < |fs| :: 1 <= fs[i].0 <= |rs| && rs[fs[i].0 - 1].uid == fs[i].1
  }

  lemma AnswersLast(s: Session, fs: seq<(nat, nat)>, flags: seq<seq<string>>)
    requires fs != [] && |fs| == |flags|
    ensures var n := |fs| - 1;
            Play(s, Answers(fs, flags)) == React(Play(s, Answers(fs[..n], flags[..n])), Told(fs[n].0, flags[n]))
  {
    assert Answers(fs, flags)[..|fs| - 1] == Answers(fs[..|fs| - 1], flags[..|fs| - 1]);
  }

  /** After the answers to a command tables and snapshot are as before, and so is the client's numbering. */
  lemma {:induction false} AnswersKeepStep(s: Session, rs: seq<Record>, fs: seq<(nat, nat)>, flags: seq<seq<string>>)
    requires InStep(s) && Uids(rs) == Uids(s.snapshot) && |fs| == |flags| && Numbered(fs, rs)
    ensures var r := Play(s, Answers(fs, flags)); r == s.(view := r.view) && InStep(r)
    decreases |fs|
  {
    if fs != [] {
      hide Play, InStep;
      var n := |fs| - 1;
      AnswersKeepStep(s, rs, fs[..n], flags[..n]);
      AnswersLast(s, fs, flags);
      TellsOfItsMessage(Play(s, Answers(fs[..n], flags[..n])), rs, fs[n].0, flags[n]);
    }
  }

  /** ... and of each message the client has what it was last told of it. */
  lemma {:induction false} AnswersLand(s: Session, rs: seq<Record>, fs: seq<(nat, nat)>, flags: seq<seq<string>>,
        i: nat)
    requires InStep(s) && Uids(rs) == Uids(s.snapshot) && |fs| == |flags| && Numbered(fs, rs)
    requires i < |fs| && forall j | i < j < |fs| :: fs[j].0 != fs[i].0
    ensures var r := Play(s, Answers(fs, flags));
            && r == s.(view := r.view) && InStep(r)
            && fs[i].0 <= |r.view| && r.view[fs[i].0 - 1] == Known(Record(fs[i].1, flags[i]))
    decreases |fs|
  {
    hide Play;
    var n := |fs| - 1;
    var mid := Play(s, Answers(fs[..n], flags[..n]));
    AnswersKeepStep(s, rs, fs, flags);
    AnswersKeepStep(s, rs, fs[..n], flags[..n]);
    AnswersLast(s, fs, flags);
    TellsOfItsMessage(mid, rs, fs[n].0, flags[n]);
    if i < n {
      assert forall j | i < j < n :: fs[..n][j].0 != fs[..n][i].0;
      AnswersLand(s, rs, fs[..n], flags[..n], i);
    }
  }

  // ---------------------------------------------------------------- a session's UIDs

  /** In any session, careful or not, the messages of the snapshot that still exist lie in one folder. */
  lemma {:induction false} SessionTogether(db: State, key: Key, es: seq<Event>)
    requires Valid(db)
    ensures var s := Play(Select(db, key), es); Valid(s.db) && Together(s.db, Members(Uids(s.snapshot)))
    decreases |es|
  {
    if es == [] {
      ListedTogether(db, key);
      ListingMembers(db, key);
    } else {
      SessionTogether(db, key, es[..|es| - 1]);
      TogetherReact(Play(Select(db, key), es[..|es| - 1]), es[|es| - 1]);
    }
  }

  lemma ListingMembers(s: State, key: Key)
    ensures Members(Uids(RecordsOf(s, key))) == UidsIn(s, key)
  {
  }

  lemma TogetherReact(s: Session, e: Event)
    requires Valid(s.db) && Together(s.db, Members(Uids(s.snapshot)))
    ensures var r := React(s, e); Valid(r.db) && Together(r.db, Members(Uids(r.snapshot)))
  {
    hide Together, Valid;
    match e {
      case Db(step) => TogetherNext(s.db, step, Members(Uids(s.snapshot)));
      case Told(_, _) =>
      case Polled =>
        ListedTogether(s.db, s.key);
        ListingMembers(s.db, s.key);
      case Expunged(rs) =>
        if Uids(rs) == Uids(s.snapshot) {
          TogetherNext(s.db, Expunge(s.key, Doomed(rs)), Members(Uids(s.snapshot)));
          StayingWithin(rs);
          FewerTogether(React(s, e).db, Members(Uids(rs)), Members(Uids(Staying(rs))));
        }
    }
  }

  lemma TogetherNext(s: State, e: Step, us: set<nat>)
    requires Valid(s) && Together(s, us)
    ensures Valid(Apply(s, e)) && Together(Apply(s, e), us)
  {
    hide Together;
    StepKeeps(s, e);
    TogetherStep(s, e, us);
  }

  lemma StayingWithin(rs: seq<Record>)
    ensures Members(Uids(Staying(rs))) <= Members(Uids(rs))
  {
    AgreesAtFirst(rs);
    StayingIs(rs, View(rs));
    forall u | u in Uids(Staying(rs)) ensures u in Uids(rs) {
      var i :| 0 <= i < |Staying(rs)| && Uids(Staying(rs))[i] == u;
      assert Staying(rs)[i] in Staying(rs);
      var k :| 0 <= k < |rs| && rs[k] == Staying(rs)[i];
      assert Uids(rs)[k] == u;
    }
  }
}
