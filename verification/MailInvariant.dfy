/** What every run of the mail tables keeps: keys, foreign keys, one lock holder per mailbox, and UID order. */
module MailInvariant {
  import opened Ascending
  import opened MailStates

  // ---------------------------------------------------------------- the invariant

  ghost predicate RowsOk(s: State) {
    forall u | u in s.rows :: 1 <= u <= s.uidSeq.Issued() && s.rows[u].Home() in s.folders && s.rows[u].id < s.nextId
  }

  ghost predicate IdsOk(s: State) {
    forall u, v | u in s.rows && v in s.rows && s.rows[u].id == s.rows[v].id :: u == v
  }

  ghost predicate FoldersOk(s: State) {
    && (forall k | k in s.folders :: k.box in s.boxes && s.folders[k] <= s.validitySeq.Issued())
    && (forall k, l | k in s.folders && l in s.folders && s.folders[k] == s.folders[l] :: k == l)
  }

  ghost predicate InboxesOk(s: State) {
    forall b | b in s.boxes :: Key(b, INBOX) in s.folders
  }

  /** A pending UID is unused, and above every row committed in its mailbox: commits come in UID order. */
  ghost predicate PendingOk(s: State, tx: Tx) {
    && tx.box in s.boxes
    && IsAscending(tx.uids)
    && (forall u | u in tx.uids :: 1 <= u <= s.uidSeq.Issued() && u !in s.rows)
    && (forall u, v | u in tx.uids && v in s.rows && s.rows[v].box == tx.box :: v < u)
    && (tx.job.Append? ==> tx.wanted == [tx.job.payload])
    && (tx.job.Move? ==> forall p | p in tx.wanted :: !p.smtp)
  }

  ghost predicate AllPendingOk(s: State) {
    forall t | t in s.txs :: PendingOk(s, s.txs[t])
  }

  ghost predicate Apart(a: Tx, b: Tx) {
    a.box != b.box && forall u | u in a.uids :: u !in b.uids
  }

  ghost predicate LocksOk(s: State) {
    forall t, r | t in s.txs && r in s.txs && t != r :: Apart(s.txs[t], s.txs[r])
  }

  ghost predicate Twins(a: Row, b: Row) {
    a.box == b.box && a.payload.smtp && b.payload.smtp && a.payload.messageId == b.payload.messageId != ""
  }

  ghost predicate Deduplicated(s: State) {
    forall u, v | u in s.rows && v in s.rows && Twins(s.rows[u], s.rows[v]) :: u == v
  }

  ghost predicate Valid(s: State) {
    RowsOk(s) && IdsOk(s) && FoldersOk(s) && InboxesOk(s) && AllPendingOk(s) && LocksOk(s) && Deduplicated(s)
  }

  // ---------------------------------------------------------------- steps that bring in no message

  /** The same message: folder and flags may differ. */
  ghost predicate SameMail(a: Row, b: Row) {
    a.id == b.id && a.box == b.box && a.payload.source == b.payload.source
    && a.payload.messageId == b.payload.messageId && a.payload.smtp == b.payload.smtp
  }

  /** Rows may go, change folder or flags; none arrives, and transactions are not touched. */
  ghost predicate Quiet(s: State, r: State) {
    && s.boxes <= r.boxes && r.uidSeq == s.uidSeq && r.txs == s.txs && r.nextId == s.nextId
    && (forall u | u in r.rows :: u in s.rows && SameMail(s.rows[u], r.rows[u]))
  }

  ghost predicate IsQuiet(e: Step) {
    !e.Lock? && !e.Capture? && !e.Allocate? && !e.Commit? && !e.Abort?
  }

  lemma RenamesAreQuiet(s: State, key: Key, name: string)
    ensures Quiet(s, Renamed(s, key, name)) && Quiet(s, InboxRenamed(s, key.box, name))
  {
  }

  lemma QuietSteps(s: State, e: Step)
    requires IsQuiet(e)
    ensures Quiet(s, Apply(s, e))
  {
    match e {
      case RenameFolder(key, name) => RenamesAreQuiet(s, key, name);
      case RenameInbox(box, name) => RenamesAreQuiet(s, Key(box, INBOX), name);
      case _ =>
    }
  }

  lemma QuietKeeps(s: State, r: State)
    requires Quiet(s, r) && IdsOk(s) && AllPendingOk(s) && LocksOk(s) && Deduplicated(s)
    ensures IdsOk(r) && AllPendingOk(r) && LocksOk(r) && Deduplicated(r)
  {
    forall u, v | u in r.rows && v in r.rows && Twins(r.rows[u], r.rows[v]) ensures u == v {
      assert Twins(s.rows[u], s.rows[v]);
    }
    forall t | t in r.txs ensures PendingOk(r, r.txs[t]) {
      assert PendingOk(s, s.txs[t]);
    }
  }

  lemma EnsureFolderKeeps(s: State, key: Key)
    requires FoldersOk(s)
    ensures FoldersOk(EnsureFolder(s, key))
  {
  }

  lemma BoxedKeepsFolders(s: State, box: Box)
    requires FoldersOk(s)
    ensures FoldersOk(Boxed(s, box))
  {
  }

  lemma RenamedKeepsFolders(s: State, key: Key, name: string)
    requires FoldersOk(s)
    ensures FoldersOk(Renamed(s, key, name)) && FoldersOk(InboxRenamed(s, key.box, name))
  {
    hide EnsureFolder;
    EnsureFolderKeeps(s, Key(key.box, name));
  }

  lemma QuietKeepsFolders(s: State, e: Step)
    requires FoldersOk(s) && IsQuiet(e)
    ensures FoldersOk(Apply(s, e))
  {
    match e {
      case CreateBox(box) => BoxedKeepsFolders(s, box);
      case CreateFolder(key) => EnsureFolderKeeps(s, key);
      case RenameFolder(key, name) => RenamedKeepsFolders(s, key, name);
      case RenameInbox(box, name) => RenamedKeepsFolders(s, Key(box, INBOX), name);
      case _ =>
    }
  }

  lemma RenamedKeepsRows(s: State, key: Key, name: string)
    requires RowsOk(s) && InboxesOk(s)
    ensures RowsOk(Renamed(s, key, name)) && InboxesOk(Renamed(s, key, name))
    ensures RowsOk(InboxRenamed(s, key.box, name)) && InboxesOk(InboxRenamed(s, key.box, name))
  {
  }

  lemma QuietKeepsRows(s: State, e: Step)
    requires RowsOk(s) && InboxesOk(s) && IsQuiet(e)
    ensures RowsOk(Apply(s, e)) && InboxesOk(Apply(s, e))
  {
    match e {
      case RenameFolder(key, name) => RenamedKeepsRows(s, key, name);
      case RenameInbox(box, name) => RenamedKeepsRows(s, Key(box, INBOX), name);
      case _ =>
    }
  }

  // ---------------------------------------------------------------- steps inside a transaction

  lemma AllocateKeeps(s: State, t: nat)
    requires RowsOk(s) && AllPendingOk(s) && LocksOk(s) && t in s.txs
    ensures RowsOk(Allocated(s, t)) && AllPendingOk(Allocated(s, t)) && LocksOk(Allocated(s, t))
  {
    AllocateKeepsPending(s, t);
    AllocateKeepsLocks(s, t);
  }

  lemma AllocateKeepsPending(s: State, t: nat)
    requires RowsOk(s) && AllPendingOk(s) && t in s.txs
    ensures AllPendingOk(Allocated(s, t))
  {
    var r := Allocated(s, t);
    var drawn := s.uidSeq.Issued() + 1;
    assert r.txs[t].uids == s.txs[t].uids + [drawn];
    forall o | o in r.txs ensures PendingOk(r, r.txs[o]) {
      assert PendingOk(s, s.txs[o]);
      if o == t { ConcatAscending(s.txs[t].uids, [drawn]); }
    }
  }

  lemma AllocateKeepsLocks(s: State, t: nat)
    requires AllPendingOk(s) && LocksOk(s) && t in s.txs
    ensures LocksOk(Allocated(s, t))
  {
    var r := Allocated(s, t);
    assert r.txs[t].uids == s.txs[t].uids + [s.uidSeq.Issued() + 1];
    forall o, q | o in r.txs && q in r.txs && o != q ensures Apart(r.txs[o], r.txs[q]) {
      assert PendingOk(s, s.txs[o]) && PendingOk(s, s.txs[q]) && Apart(s.txs[o], s.txs[q]);
    }
  }

  lemma LockKeeps(s: State, t: nat, box: Box, job: Job)
    requires AllPendingOk(s) && LocksOk(s) && t !in s.txs && box in s.boxes && LockFree(s, box)
    ensures var r := s.(txs := s.txs[t := StartTx(box, job)]); AllPendingOk(r) && LocksOk(r)
  {
    var r := s.(txs := s.txs[t := StartTx(box, job)]);
    forall o | o in r.txs ensures PendingOk(r, r.txs[o]) {
      if o != t { assert PendingOk(s, s.txs[o]); }
    }
  }

  /** Changing what a transaction wants, not its mailbox or UIDs. */
  lemma RewantKeeps(s: State, t: nat, tx: Tx)
    requires AllPendingOk(s) && LocksOk(s) && t in s.txs
    requires tx.box == s.txs[t].box && tx.uids == s.txs[t].uids
    requires tx.job.Move? && forall p | p in tx.wanted :: !p.smtp
    ensures var r := s.(txs := s.txs[t := tx]); AllPendingOk(r) && LocksOk(r)
  {
    var r := s.(txs := s.txs[t := tx]);
    forall o | o in r.txs ensures PendingOk(r, r.txs[o]) {
      assert PendingOk(s, s.txs[o]);
    }
    forall o, q | o in r.txs && q in r.txs && o != q ensures Apart(r.txs[o], r.txs[q]) {
      assert Apart(s.txs[o], s.txs[q]);
    }
  }

  lemma AbortKeeps(s: State, t: nat)
    requires AllPendingOk(s) && LocksOk(s)
    ensures var r := s.(txs := s.txs - {t}); AllPendingOk(r) && LocksOk(r)
  {
    var r := s.(txs := s.txs - {t});
    forall o | o in r.txs ensures PendingOk(r, r.txs[o]) {
      assert PendingOk(s, s.txs[o]);
    }
  }

  // ---------------------------------------------------------------- commits

  /** Arriving rows: the transaction's own UIDs, in its own mailbox. */
  ghost predicate Arrives(s: State, r: State, tx: Tx) {
    && r.boxes == s.boxes && r.uidSeq == s.uidSeq && s.nextId <= r.nextId
    && (forall u | u in r.rows && u !in tx.uids :: u in s.rows && s.rows[u] == r.rows[u])
    && (forall u | u in r.rows && u in tx.uids :: r.rows[u].box == tx.box)
  }

  lemma CommitRows(s: State, t: nat)
    requires t in s.txs && CanCommit(s, t) && PendingOk(s, s.txs[t])
    ensures Arrives(s, Committed(s, t), s.txs[t])
    ensures Committed(s, t).txs == s.txs - {t}
  {
    var tx := s.txs[t];
    match tx.job {
      case Append(folder, _) => InsertRows(s.rows, tx.uids, tx.wanted, tx.box, folder, s.nextId);
      case Move(source, dest, ids) =>
        InsertRows(Without(s.rows, Picked(s, Key(tx.box, source), ids)), tx.uids, tx.wanted, tx.box, dest, s.nextId);
      case Relocate(id, folder) => if s.rows[UidOf(s, tx.box, id)].folder != folder { assert tx.uids == [tx.uids[0]]; }
      case Look =>
    }
  }

  lemma ArrivalKeepsPending(s: State, r: State, t: nat)
    requires AllPendingOk(s) && LocksOk(s) && t in s.txs && Arrives(s, r, s.txs[t]) && r.txs == s.txs - {t}
    ensures AllPendingOk(r) && LocksOk(r)
  {
    forall o | o in r.txs ensures PendingOk(r, r.txs[o]) {
      assert PendingOk(s, s.txs[o]) && Apart(s.txs[o], s.txs[t]);
    }
  }

  lemma AppendKeepsIds(s: State, t: nat)
    requires RowsOk(s) && IdsOk(s) && t in s.txs && PendingOk(s, s.txs[t]) && CanCommit(s, t) && s.txs[t].job.Append?
    ensures RowsOk(Committed(s, t)) && IdsOk(Committed(s, t))
  {
    var tx := s.txs[t];
    InsertRows(s.rows, tx.uids, tx.wanted, tx.box, tx.job.folder, s.nextId);
    assert tx.uids == [tx.uids[0]];
  }

  lemma MoveKeepsIds(s: State, t: nat)
    requires RowsOk(s) && IdsOk(s) && t in s.txs && PendingOk(s, s.txs[t]) && CanCommit(s, t) && s.txs[t].job.Move?
    ensures RowsOk(Committed(s, t)) && IdsOk(Committed(s, t))
  {
    var tx, r := s.txs[t], Committed(s, t);
    var left := Without(s.rows, Picked(s, Key(tx.box, tx.job.source), tx.job.ids));
    InsertRows(left, tx.uids, tx.wanted, tx.box, tx.job.dest, s.nextId);
    forall u | u in r.rows
      ensures 1 <= u <= r.uidSeq.Issued() && r.rows[u].Home() in r.folders && r.rows[u].id < r.nextId
    {
      if u !in left {
        var i :| 0 <= i < |tx.uids| && tx.uids[i] == u;
        assert r.rows[tx.uids[i]].id == s.nextId + i;
      }
    }
    forall u, v | u in r.rows && v in r.rows && r.rows[u].id == r.rows[v].id ensures u == v {
      if u !in left {
        var i :| 0 <= i < |tx.uids| && tx.uids[i] == u;
        assert r.rows[tx.uids[i]].id == s.nextId + i;
      }
      if v !in left {
        var j :| 0 <= j < |tx.uids| && tx.uids[j] == v;
        assert r.rows[tx.uids[j]].id == s.nextId + j;
      }
    }
  }

  lemma RelocateKeepsIds(s: State, t: nat)
    requires RowsOk(s) && IdsOk(s) && t in s.txs && PendingOk(s, s.txs[t]) && CanCommit(s, t) && s.txs[t].job.Relocate?
    ensures RowsOk(Committed(s, t)) && IdsOk(Committed(s, t))
  {
    var tx := s.txs[t];
    var u := UidOf(s, tx.box, tx.job.id);
    var ready := EnsureFolder(s.(txs := s.txs - {t}), Key(tx.box, tx.job.folder));
    assert Key(tx.box, tx.job.folder) in ready.folders;
    if s.rows[u].folder != tx.job.folder { assert tx.uids[0] in tx.uids; }
  }

  lemma CommitKeepsFolders(s: State, t: nat)
    requires FoldersOk(s) && InboxesOk(s) && t in s.txs && CanCommit(s, t)
    ensures FoldersOk(Committed(s, t)) && InboxesOk(Committed(s, t))
  {
    if s.txs[t].job.Relocate? {
      EnsureFolderKeeps(s.(txs := s.txs - {t}), Key(s.txs[t].box, s.txs[t].job.folder));
    }
  }

  lemma CommitDeduplicates(s: State, t: nat)
    requires IdsOk(s) && Deduplicated(s) && t in s.txs && PendingOk(s, s.txs[t]) && CanCommit(s, t)
    ensures Deduplicated(Committed(s, t))
  {
    var tx, r := s.txs[t], Committed(s, t);
    match tx.job {
      case Append(folder, p) =>
        InsertRows(s.rows, tx.uids, tx.wanted, tx.box, folder, s.nextId);
        assert tx.uids == [tx.uids[0]];
        forall u, v | u in r.rows && v in r.rows && Twins(r.rows[u], r.rows[v]) ensures u == v {
          if u in s.rows && v in s.rows { assert Twins(s.rows[u], s.rows[v]); }
        }
      case Move(source, dest, ids) =>
        var left := Without(s.rows, Picked(s, Key(tx.box, source), ids));
        InsertRows(left, tx.uids, tx.wanted, tx.box, dest, s.nextId);
        forall u | u in r.rows && u !in left ensures !r.rows[u].payload.smtp {
          var i :| 0 <= i < |tx.uids| && tx.uids[i] == u;
          assert r.rows[tx.uids[i]].payload == tx.wanted[i];
        }
        forall u, v | u in r.rows && v in r.rows && Twins(r.rows[u], r.rows[v]) ensures u == v {
          assert Twins(s.rows[u], s.rows[v]);
        }
      case Relocate(id, folder) => RelocateDeduplicates(s, t);
      case Look =>
    }
  }

  lemma RelocateDeduplicates(s: State, t: nat)
    requires IdsOk(s) && Deduplicated(s) && t in s.txs && PendingOk(s, s.txs[t])
    requires CanCommit(s, t) && s.txs[t].job.Relocate?
    ensures Deduplicated(Committed(s, t))
  {
    var tx, r := s.txs[t], Committed(s, t);
    var moved := UidOf(s, tx.box, tx.job.id);
    forall u, v | u in r.rows && v in r.rows && Twins(r.rows[u], r.rows[v]) ensures u == v {
      if u in s.rows && v in s.rows { assert Twins(s.rows[u], s.rows[v]); }
      else if u in s.rows { assert Twins(s.rows[u], s.rows[moved]); }
      else if v in s.rows { assert Twins(s.rows[moved], s.rows[v]); }
    }
  }

  // ---------------------------------------------------------------- every step, every run

  lemma CommitKeeps(s: State, t: nat)
    requires Valid(s) && t in s.txs && CanCommit(s, t)
    ensures Valid(Committed(s, t))
  {
    assert PendingOk(s, s.txs[t]);
    CommitRows(s, t);
    ArrivalKeepsPending(s, Committed(s, t), t);
    CommitKeepsFolders(s, t);
    CommitDeduplicates(s, t);
    match s.txs[t].job {
      case Append(_, _) => AppendKeepsIds(s, t);
      case Move(_, _, _) => MoveKeepsIds(s, t);
      case Relocate(_, _) => RelocateKeepsIds(s, t);
      case Look =>
    }
  }

  lemma StepKeeps(s: State, e: Step)
    requires Valid(s)
    ensures Valid(Apply(s, e))
  {
    match e {
      case Lock(t, box, job) => if t !in s.txs && box in s.boxes && LockFree(s, box) { LockKeeps(s, t, box, job); }
      case Capture(t) =>
        if t in s.txs && s.txs[t].job.Move? && s.txs[t].uids == [] { RewantKeeps(s, t, Captured(s, s.txs[t])); }
      case Allocate(t) => if t in s.txs && !s.uidSeq.Exhausted() { AllocateKeeps(s, t); }
      case Abort(t) => AbortKeeps(s, t);
      case Commit(t) => if t in s.txs && CanCommit(s, t) { CommitKeeps(s, t); }
      case _ =>
        QuietSteps(s, e);
        QuietKeeps(s, Apply(s, e));
        QuietKeepsFolders(s, e);
        QuietKeepsRows(s, e);
    }
  }

  lemma {:induction false} RunKeeps(s: State, steps: seq<Step>)
    requires Valid(s)
    ensures Valid(Exec(s, steps))
    decreases |steps|
  {
    if steps != [] {
      RunKeeps(s, steps[..|steps| - 1]);
      StepKeeps(Exec(s, steps[..|steps| - 1]), steps[|steps| - 1]);
    }
  }

  /** No mailbox, no message, no sequence used. */
  const Empty := State({}, map[], map[], Unused, Unused, 0, map[])

  lemma {:induction false} EveryRunIsValid(steps: seq<Step>)
    ensures Valid(Exec(Empty, steps))
  {
    RunKeeps(Empty, steps);
  }
}
