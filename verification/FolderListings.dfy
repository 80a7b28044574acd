/**
 What an IMAP client may rely on between two looks at a folder, whatever ran in between.

 `Continues(s0, s)` relates any state to any later one. From it follow: listings only lose messages
 and gain newer ones at the end (`LaterListing`), a UID never names a second message and a
 uidvalidity never a second folder (`UidNamesOneMessage`, `ValidityNamesOneFolder`), and UIDNEXT is a
 true bound exactly when the UID sequence has been used (`UidNextBound`).
 */
module FolderListings {
  import opened Ascending
  import opened MailInvariant
  import opened MailStates

  /** Not used at `s0`, and above every message its mailbox then held. */
  ghost predicate Unseen(s0: State, box: Box, u: nat) {
    u !in s0.rows && forall v | v in s0.rows && s0.rows[v].box == box :: v < u
  }

  /** The uidvalidity of the folder a row lies in. */
  function FolderOf(s: State, u: nat): nat
    requires u in s.rows && s.rows[u].Home() in s.folders
  {
    s.folders[s.rows[u].Home()]
  }

  /** An old row is still the same message, in the same folder unless INBOX was renamed from under it. */
  ghost predicate Survives(s0: State, s: State, u: nat)
    requires RowsOk(s0) && RowsOk(s) && u in s.rows
  {
    && u in s0.rows
    && SameMail(s0.rows[u], s.rows[u])
    && (FolderOf(s, u) == FolderOf(s0, u) || (s0.rows[u].folder == INBOX && FolderOf(s, u) > s0.validitySeq.Issued()))
  }

  ghost predicate RowsContinue(s0: State, s: State)
    requires RowsOk(s0) && RowsOk(s)
  {
    forall u | u in s.rows :: Survives(s0, s, u) || Unseen(s0, s.rows[u].box, u)
  }

  ghost predicate PendingContinues(s0: State, s: State) {
    forall t, u | t in s.txs && u in s.txs[t].uids :: Unseen(s0, s.txs[t].box, u)
  }

  /** One folder, seen twice: the mailbox is the same, and INBOX is INBOX both times. */
  predicate SameFolder(k: Key, k0: Key) {
    k.box == k0.box && (k.name == INBOX <==> k0.name == INBOX)
  }

  ghost predicate FoldersContinue(s0: State, s: State) {
    && s0.validitySeq.Issued() <= s.validitySeq.Issued()
    && (forall k, k0 | k in s.folders && k0 in s0.folders && s.folders[k] == s0.folders[k0] :: SameFolder(k, k0))
  }

  ghost predicate InboxContinues(s0: State, s: State) {
    && s0.boxes <= s.boxes
    && (forall k | k in s0.folders && k.name == INBOX :: k in s.folders && s.folders[k] == s0.folders[k])
  }

  ghost predicate Continues(s0: State, s: State)
    requires RowsOk(s0) && RowsOk(s)
  {
    && s0.uidSeq.Issued() <= s.uidSeq.Issued()
    && RowsContinue(s0, s) && PendingContinues(s0, s) && FoldersContinue(s0, s) && InboxContinues(s0, s)
  }

  // ---------------------------------------------------------------- folders, one more step

  lemma EnsureFolderContinues(s0: State, s: State, key: Key)
    requires FoldersOk(s0) && FoldersContinue(s0, s) && InboxContinues(s0, s)
    ensures FoldersContinue(s0, EnsureFolder(s, key)) && InboxContinues(s0, EnsureFolder(s, key))
  {
  }

  lemma RenamedContinues(s0: State, s: State, key: Key, name: string)
    requires FoldersOk(s0) && FoldersContinue(s0, s) && InboxContinues(s0, s)
    ensures FoldersContinue(s0, Renamed(s, key, name)) && InboxContinues(s0, Renamed(s, key, name))
    ensures FoldersContinue(s0, InboxRenamed(s, key.box, name)) && InboxContinues(s0, InboxRenamed(s, key.box, name))
  {
    EnsureFolderContinues(s0, s, Key(key.box, name));
    var r := Renamed(s, key, name);
    forall k, k0 | k in r.folders && k0 in s0.folders && r.folders[k] == s0.folders[k0] ensures SameFolder(k, k0) {
      if key in s.folders && s.folders[key] == s0.folders[k0] { assert SameFolder(key, k0); }
    }
  }

  lemma BoxedContinues(s0: State, s: State, box: Box)
    requires FoldersOk(s0) && FoldersContinue(s0, s) && InboxContinues(s0, s)
    ensures FoldersContinue(s0, Boxed(s, box)) && InboxContinues(s0, Boxed(s, box))
  {
    var r := Boxed(s, box);
    forall k | k in s0.folders && k.name == INBOX ensures k in r.folders && r.folders[k] == s0.folders[k] {
      assert k.box in s0.boxes;
    }
  }

  lemma FoldersStep(s0: State, s: State, e: Step)
    requires FoldersOk(s0) && FoldersContinue(s0, s) && InboxContinues(s0, s)
    ensures FoldersContinue(s0, Apply(s, e)) && InboxContinues(s0, Apply(s, e))
  {
    hide Renamed, InboxRenamed, Boxed, EnsureFolder, Committed, Deleted, FoldersOk, FoldersContinue, InboxContinues;
    match e {
      case CreateBox(box) => BoxedContinues(s0, s, box);
      case CreateFolder(key) => EnsureFolderContinues(s0, s, key);
      case RenameFolder(key, name) => RenamedContinues(s0, s, key, name);
      case RenameInbox(box, name) => RenamedContinues(s0, s, Key(box, INBOX), name);
      case Commit(t) => if t in s.txs && CanCommit(s, t) { CommitFolders(s0, s, t); }
      case DeleteFolder(key) => DeletedContinues(s0, s, key);
      case _ => SameFoldersContinue(s0, s, Apply(s, e));
    }
  }

  lemma DeletedContinues(s0: State, s: State, key: Key)
    requires FoldersContinue(s0, s) && InboxContinues(s0, s)
    ensures FoldersContinue(s0, Deleted(s, key)) && InboxContinues(s0, Deleted(s, key))
  {
  }

  lemma SameFoldersContinue(s0: State, s: State, r: State)
    requires FoldersContinue(s0, s) && InboxContinues(s0, s)
    requires r.boxes == s.boxes && r.folders == s.folders && r.validitySeq == s.validitySeq
    ensures FoldersContinue(s0, r) && InboxContinues(s0, r)
  {
  }

  lemma CommitFolders(s0: State, s: State, t: nat)
    requires FoldersOk(s0) && FoldersContinue(s0, s) && InboxContinues(s0, s) && t in s.txs && CanCommit(s, t)
    ensures FoldersContinue(s0, Committed(s, t)) && InboxContinues(s0, Committed(s, t))
  {
    if s.txs[t].job.Relocate? {
      EnsureFolderContinues(s0, s.(txs := s.txs - {t}), Key(s.txs[t].box, s.txs[t].job.folder));
    }
  }

  // ---------------------------------------------------------------- rows, one more step

  /** No step but a commit takes a row to another folder, except renaming INBOX, and then to a new one. */
  ghost predicate HomeKept(s: State, r: State, u: nat)
    requires RowsOk(s) && RowsOk(r) && u in r.rows
  {
    && u in s.rows
    && SameMail(s.rows[u], r.rows[u])
    && (FolderOf(r, u) == FolderOf(s, u) || (s.rows[u].folder == INBOX && FolderOf(r, u) > s.validitySeq.Issued()))
  }

  lemma RenamedHomes(s: State, key: Key, name: string)
    requires RowsOk(s) && InboxesOk(s)
    ensures RowsOk(Renamed(s, key, name)) && RowsOk(InboxRenamed(s, key.box, name))
    ensures forall u | u in Renamed(s, key, name).rows :: HomeKept(s, Renamed(s, key, name), u)
    ensures forall u | u in InboxRenamed(s, key.box, name).rows :: HomeKept(s, InboxRenamed(s, key.box, name), u)
  {
    RenamedKeepsRows(s, key, name);
  }

  lemma BoxedHomes(s: State, box: Box)
    requires RowsOk(s) && FoldersOk(s)
    ensures RowsOk(Boxed(s, box)) && forall u | u in Boxed(s, box).rows :: HomeKept(s, Boxed(s, box), u)
  {
    var r := Boxed(s, box);
    forall u | u in r.rows
      ensures r.rows[u].Home() in r.folders && r.folders[r.rows[u].Home()] == s.folders[s.rows[u].Home()]
    {
      assert s.rows[u].Home() in s.folders;
    }
  }

  lemma OtherHomes(s: State, e: Step)
    requires RowsOk(s) && RowsOk(Apply(s, e))
    requires e.CreateFolder? || e.DeleteFolder? || e.Expunge? || e.SetFlags? || e.MarkRead?
    ensures forall u | u in Apply(s, e).rows :: HomeKept(s, Apply(s, e), u)
  {
    var r := Apply(s, e);
    forall u | u in r.rows ensures HomeKept(s, r, u) {
      assert s.rows[u].Home() == r.rows[u].Home();
    }
  }

  lemma QuietHomes(s: State, e: Step)
    requires RowsOk(s) && FoldersOk(s) && InboxesOk(s) && IsQuiet(e)
    ensures RowsOk(Apply(s, e)) && forall u | u in Apply(s, e).rows :: HomeKept(s, Apply(s, e), u)
  {
    QuietKeepsRows(s, e);
    match e {
      case CreateBox(box) => BoxedHomes(s, box);
      case RenameFolder(key, name) => RenamedHomes(s, key, name);
      case RenameInbox(box, name) => RenamedHomes(s, Key(box, INBOX), name);
      case _ => OtherHomes(s, e);
    }
  }

  /** A row that was in INBOX from the start and is in INBOX now has never left. */
  lemma QuietRows(s0: State, s: State, r: State)
    requires RowsOk(s0) && RowsOk(s) && RowsOk(r) && FoldersContinue(s0, s) && RowsContinue(s0, s)
    requires forall u | u in r.rows :: HomeKept(s, r, u)
    ensures RowsContinue(s0, r)
  {
    forall u | u in r.rows ensures Survives(s0, r, u) || Unseen(s0, r.rows[u].box, u) {
      assert HomeKept(s, r, u);
      if Survives(s0, s, u) && FolderOf(r, u) != FolderOf(s, u) && FolderOf(s, u) == FolderOf(s0, u) {
        assert SameFolder(s.rows[u].Home(), s0.rows[u].Home());
      }
    }
  }

  lemma CommitRowsContinue(s0: State, s: State, r: State, t: nat)
    requires RowsOk(s0) && RowsOk(s) && RowsOk(r) && RowsContinue(s0, s) && PendingContinues(s0, s)
    requires t in s.txs && Arrives(s, r, s.txs[t])
    requires forall k | k in s.folders :: k in r.folders && r.folders[k] == s.folders[k]
    ensures RowsContinue(s0, r)
  {
    forall u | u in r.rows ensures Survives(s0, r, u) || Unseen(s0, r.rows[u].box, u) {
      if u !in s.txs[t].uids {
        assert Survives(s0, s, u) || Unseen(s0, s.rows[u].box, u);
        assert s.rows[u].Home() in s.folders;
      }
    }
  }

  lemma CommitKeepsOldFolders(s: State, t: nat)
    requires t in s.txs && CanCommit(s, t)
    ensures forall k | k in s.folders :: k in Committed(s, t).folders && Committed(s, t).folders[k] == s.folders[k]
  {
  }

  lemma InsideContinues(s0: State, s: State, e: Step)
    requires RowsOk(s0) && RowsOk(s) && PendingContinues(s0, s) && s0.uidSeq.Issued() <= s.uidSeq.Issued()
    requires e.Lock? || e.Capture? || e.Allocate? || e.Abort?
    ensures PendingContinues(s0, Apply(s, e)) && s0.uidSeq.Issued() <= Apply(s, e).uidSeq.Issued()
    ensures Apply(s, e).rows == s.rows && Apply(s, e).folders == s.folders
  {
    if e.Allocate? && e.tx in s.txs && !s.uidSeq.Exhausted() {
      var r := Allocated(s, e.tx);
      var drawn := s.uidSeq.Issued() + 1;
      assert r.txs[e.tx].uids == s.txs[e.tx].uids + [drawn];
      assert forall box :: Unseen(s0, box, drawn);
    }
  }

  lemma CommitContinues(s0: State, s: State, t: nat)
    requires Valid(s0) && Valid(s) && Continues(s0, s) && t in s.txs && CanCommit(s, t) && RowsOk(Committed(s, t))
    ensures RowsContinue(s0, Committed(s, t)) && PendingContinues(s0, Committed(s, t))
    ensures Committed(s, t).uidSeq == s.uidSeq
  {
    assert PendingOk(s, s.txs[t]);
    CommitRows(s, t);
    CommitKeepsOldFolders(s, t);
    CommitRowsContinue(s0, s, Committed(s, t), t);
  }

  lemma ContinuesStep(s0: State, s: State, e: Step)
    requires Valid(s0) && Valid(s) && Continues(s0, s)
    ensures Valid(Apply(s, e)) && Continues(s0, Apply(s, e))
  {
    StepKeeps(s, e);
    FoldersStep(s0, s, e);
    if e.Commit? {
      if e.tx in s.txs && CanCommit(s, e.tx) { CommitContinues(s0, s, e.tx); }
    } else if IsQuiet(e) {
      QuietSteps(s, e);
      QuietHomes(s, e);
      QuietRows(s0, s, Apply(s, e));
    } else {
      InsideContinues(s0, s, e);
      QuietRows(s0, s, Apply(s, e));
    }
  }

  /** Every later state continues every earlier one. */
  lemma {:induction false} ContinuesRun(s0: State, steps: seq<Step>)
    requires Valid(s0)
    ensures Valid(Exec(s0, steps)) && Continues(s0, Exec(s0, steps))
    decreases |steps|
  {
    if steps == [] {
      forall t, u | t in s0.txs && u in s0.txs[t].uids ensures Unseen(s0, s0.txs[t].box, u) {
        assert PendingOk(s0, s0.txs[t]);
      }
    } else {
      var front := steps[..|steps| - 1];
      ContinuesRun(s0, front);
      ContinuesStep(s0, Exec(s0, front), steps[|steps| - 1]);
    }
  }

  lemma MailboxesStay(s: State, steps: seq<Step>)
    requires Valid(s)
    ensures Valid(Exec(s, steps)) && s.boxes <= Exec(s, steps).boxes
  {
    ContinuesRun(s, steps);
  }

  // ---------------------------------------------------------------- what a client sees

  /** Messages of the first listing that are still in the second, and those the second adds. */
  ghost function Kept(s0: State, s: State, key: Key): seq<nat> {
    Restrict(Listing(s0, key), UidsIn(s, key))
  }

  ghost function Added(s0: State, s: State, key: Key): seq<nat> {
    Restrict(Listing(s, key), UidsIn(s, key) - UidsIn(s0, key))
  }

  lemma KeptMeansSameFolder(s0: State, s: State, key: Key, u: nat)
    requires Valid(s0) && Valid(s) && Continues(s0, s)
    requires u in UidsIn(s0, key) && u in UidsIn(s, key)
    ensures key in s0.folders && key in s.folders && s0.folders[key] == s.folders[key]
  {
    assert Survives(s0, s, u);
  }

  lemma AddedIsNewer(s0: State, s: State, key: Key, u: nat, v: nat)
    requires Valid(s0) && Valid(s) && Continues(s0, s)
    requires key in s0.folders && key in s.folders && s0.folders[key] == s.folders[key]
    requires u in UidsIn(s0, key) && v in UidsIn(s, key) - UidsIn(s0, key)
    ensures u < v
  {
    assert Survives(s0, s, v) || Unseen(s0, key.box, v);
  }

  /**
   Any later listing of a folder name is the survivors of an earlier one, in order, followed by messages
   with larger UIDs only. If the name still means the same folder, the new UIDs exceed even the UIDs that
   are gone; if it means another folder, nothing survives.
   */
  lemma {:induction false} LaterListing(s0: State, steps: seq<Step>, key: Key)
    requires Valid(s0)
    ensures var s := Exec(s0, steps);
            && Listing(s, key) == Kept(s0, s, key) + Added(s0, s, key)
            && (forall u, v | u in Kept(s0, s, key) && v in Added(s0, s, key) :: u < v)
            && (key in s0.folders && key in s.folders && s0.folders[key] == s.folders[key] ==>
                  forall u, v | u in Listing(s0, key) && v in Added(s0, s, key) :: u < v)
            && (key in s0.folders && key in s.folders && s0.folders[key] != s.folders[key] ==> Kept(s0, s, key) == [])
  {
    var s := Exec(s0, steps);
    ContinuesRun(s0, steps);
    var kept, added := Kept(s0, s, key), Added(s0, s, key);
    RestrictAscending(Listing(s0, key), UidsIn(s, key));
    RestrictAscending(Listing(s, key), UidsIn(s, key) - UidsIn(s0, key));
    forall u, v | u in kept && v in added ensures u < v {
      KeptMeansSameFolder(s0, s, key, u);
      AddedIsNewer(s0, s, key, u, v);
    }
    ConcatAscending(kept, added);
    SameMembersSameOrder(Listing(s, key), kept + added);
    if key in s0.folders && key in s.folders {
      if s0.folders[key] == s.folders[key] {
        forall u, v | u in Listing(s0, key) && v in added ensures u < v { AddedIsNewer(s0, s, key, u, v); }
      } else if kept != [] {
        assert kept[0] in kept;
        KeptMeansSameFolder(s0, s, key, kept[0]);
      }
    }
  }

  /** Two states of one run agree on what a UID names, through moves, renames, aborts and re-creations. */
  lemma {:induction false} UidNamesOneMessage(s0: State, steps: seq<Step>, u: nat)
    requires Valid(s0) && u in s0.rows && u in Exec(s0, steps).rows
    ensures SameMail(s0.rows[u], Exec(s0, steps).rows[u])
  {
    ContinuesRun(s0, steps);
    assert !Unseen(s0, Exec(s0, steps).rows[u].box, u);
  }

  ghost predicate Pending(s: State, box: Box, u: nat) {
    exists t :: t in s.txs && s.txs[t].box == box && u in s.txs[t].uids
  }

  /** A message that arrived after `s0` took a UID pending in its mailbox at `s0`, or one drawn since. */
  ghost predicate Accounted(s0: State, s: State) {
    && s0.uidSeq.Issued() <= s.uidSeq.Issued()
    && (forall u | u in s.rows && u !in s0.rows :: Pending(s0, s.rows[u].box, u) || u > s0.uidSeq.Issued())
    && (forall t, u | t in s.txs && u in s.txs[t].uids :: Pending(s0, s.txs[t].box, u) || u > s0.uidSeq.Issued())
  }

  lemma AccountedCommit(s0: State, s: State, t: nat)
    requires AllPendingOk(s) && Accounted(s0, s) && t in s.txs && CanCommit(s, t)
    ensures Accounted(s0, Committed(s, t))
  {
    hide Pending, CanCommit;
    assert PendingOk(s, s.txs[t]);
    CommitRows(s, t);
  }

  lemma AccountedInside(s0: State, s: State, e: Step)
    requires Accounted(s0, s) && (e.Lock? || e.Capture? || e.Allocate? || e.Abort?)
    ensures Accounted(s0, Apply(s, e))
  {
    hide Pending;
    assert Apply(s, e).rows == s.rows;
  }

  lemma AccountedStep(s0: State, s: State, e: Step)
    requires Valid(s) && Accounted(s0, s)
    ensures Accounted(s0, Apply(s, e))
  {
    hide Pending;
    if e.Commit? {
      if e.tx in s.txs && CanCommit(s, e.tx) { AccountedCommit(s0, s, e.tx); }
    } else if IsQuiet(e) {
      QuietSteps(s, e);
    } else {
      AccountedInside(s0, s, e);
    }
  }

  lemma {:induction false} AccountedRun(s0: State, steps: seq<Step>)
    requires Valid(s0)
    ensures Accounted(s0, Exec(s0, steps))
    decreases |steps|
  {
    if steps != [] {
      var front := steps[..|steps| - 1];
      AccountedRun(s0, front);
      RunKeeps(s0, front);
      AccountedStep(s0, Exec(s0, front), steps[|steps| - 1]);
    }
  }

  /** A UID drawn and lost to an abort is never handed out again: a new message's UID was pending or is new. */
  lemma {:induction false} LostUidStaysLost(s0: State, steps: seq<Step>, u: nat)
    requires Valid(s0) && u <= s0.uidSeq.Issued() && u !in s0.rows
    requires forall box :: !Pending(s0, box, u)
    ensures u !in Exec(s0, steps).rows
  {
    AccountedRun(s0, steps);
  }

  /** No two folders share a uidvalidity, at one moment or at two. */
  lemma {:induction false} ValidityNamesOneFolder(s0: State, steps: seq<Step>, k0: Key, k: Key)
    requires Valid(s0) && k0 in s0.folders && k in Exec(s0, steps).folders
    requires s0.folders[k0] == Exec(s0, steps).folders[k]
    ensures SameFolder(k, k0)
    ensures steps == [] ==> k == k0
  {
    ContinuesRun(s0, steps);
  }

  // ---------------------------------------------------------------- UIDNEXT

  /** What Status reads as UIDNEXT: last_value + 1. */
  function UidNext(s: State): nat { s.uidSeq.LastValue() + 1 }

  /** The promise behind UIDNEXT: no later arrival in a folder with this uidvalidity has a smaller UID. */
  ghost predicate BoundsArrivals(s: State, key: Key)
    requires key in s.folders
  {
    forall steps: seq<Step>, u :: ArrivesLater(s, key, steps, u) ==> UidNext(s) <= u
  }

  ghost predicate ArrivesLater(s: State, key: Key, steps: seq<Step>, u: nat)
    requires key in s.folders
  {
    var r := Exec(s, steps);
    u in r.rows && u !in s.rows && r.rows[u].Home() in r.folders && r.folders[r.rows[u].Home()] == s.folders[key]
  }

  /** Status has the mailbox's lock, so nothing is pending there. */
  ghost predicate Looking(s: State, t: nat, box: Box) {
    t in s.txs && s.txs[t] == StartTx(box, Look)
  }

  /**
   Read under the mailbox's lock, UIDNEXT exceeds every listed UID, and bounds every later arrival exactly
   when the sequence has been used: an unused sequence reads as 1, so Status says 2 and the first message gets 1.
   */
  lemma {:induction false} UidNextBound(s: State, key: Key, t: nat)
    requires Valid(s) && key in s.folders && Looking(s, t, key.box)
    ensures forall u | u in Listing(s, key) :: u < UidNext(s)
    ensures BoundsArrivals(s, key) <==> s.uidSeq.Last?
  {
    if s.uidSeq.Last? {
      forall steps: seq<Step>, u | ArrivesLater(s, key, steps, u) ensures UidNext(s) <= u {
        ContinuesRun(s, steps);
        AccountedRun(s, steps);
        var r := Exec(s, steps);
        assert SameFolder(r.rows[u].Home(), key);
        forall o | o in s.txs && s.txs[o].box == key.box ensures o == t { }
      }
    } else {
      FirstUidBelowUidNext(s, key, t);
    }
  }

  lemma FirstUidBelowUidNext(s: State, key: Key, t: nat)
    requires Valid(s) && key in s.folders && Looking(s, t, key.box) && s.uidSeq.Unused?
    ensures !BoundsArrivals(s, key)
  {
    var p := Payload("m", "", [], false, 0, false);
    var job := Append(key.name, p);
    var steps := [Abort(t), Lock(t, key.box, job), Allocate(t), Commit(t)];
    var s1 := Apply(s, Abort(t));
    forall o | o in s1.txs ensures s1.txs[o].box != key.box { assert Apart(s.txs[o], s.txs[t]); }
    ExecFour(s, steps[0], steps[1], steps[2], steps[3]);
    FirstMessage(s1, key, t, p);
    assert ArrivesLater(s, key, steps, 1);
  }

  /** An undisturbed insert: the next UID, at the end of its folder. */
  lemma FirstMessage(s: State, key: Key, t: nat, p: Payload)
    requires key in s.folders && key.box in s.boxes && t !in s.txs && LockFree(s, key.box)
    requires !s.uidSeq.Exhausted() && !Collides(s, key.box, p)
    ensures var r := Apply(Apply(Apply(s, Lock(t, key.box, Append(key.name, p))), Allocate(t)), Commit(t));
            && r.rows == s.rows[s.uidSeq.Issued() + 1 := Row(s.nextId, key.box, key.name, p)]
            && r.folders == s.folders && r.boxes == s.boxes && r.txs == s.txs && r.uidSeq == s.uidSeq.Next()
  {
    var s2 := Apply(s, Lock(t, key.box, Append(key.name, p)));
    var s3 := Apply(s2, Allocate(t));
    var u := s.uidSeq.Issued() + 1;
    assert s3.txs[t] == Tx(key.box, Append(key.name, p), [p], [], [u]);
    assert s3.txs - {t} == s.txs;
    assert !Collides(s3, key.box, p) && CanCommit(s3, t);
    var more := s.rows[u := Row(s.nextId, key.box, key.name, p)];
    assert Insert(more, [], [], key.box, key.name, s.nextId + 1) == more;
    assert [u][1..] == [] && [p][1..] == [];
    assert Insert(s.rows, [u], [p], key.box, key.name, s.nextId) == more;
  }
}
