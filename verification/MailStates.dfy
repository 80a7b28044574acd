/**
 The received-mail tables as a state machine.

 A state holds the committed rows of `messages` and `imap_folders`, the two sequences, and the
 transactions in flight. A step is one SQL statement or commit. Inserting a message takes several
 steps: the trigger first takes the mailbox's advisory lock, then draws a UID, and the row shows
 only at commit; an abort releases the lock but never gives the UID back. A step that the database
 would refuse leaves the state as it was, so every list of steps is a run.
 */
module MailStates {
  import opened Ascending

  type Box = nat

  const INBOX := "INBOX"
  const JUNK := "Junk"
  const MAX_SEQUENCE: nat := 4294967294

  /** A Postgres sequence. Before its first `nextval` it already reads as 1, though 1 is not yet used. */
  datatype Sequence = Unused | Last(value: nat) {
    function LastValue(): nat { if Unused? then 1 else value }
    function Issued(): nat { if Unused? then 0 else value }
    predicate Exhausted() { Issued() >= MAX_SEQUENCE }
    function Next(): Sequence { Last(Issued() + 1) }
  }

  /** What a message carries from row to row: its bytes and everything derived from them or set on it. */
  datatype Payload = Payload(source: string, messageId: string, flags: seq<string>, seen: bool, received: int,
        smtp: bool)

  datatype Row = Row(id: nat, box: Box, folder: string, payload: Payload) {
    function Home(): Key { Key(box, folder) }
  }

  /** Primary key of `imap_folders`. */
  datatype Key = Key(box: Box, name: string)

  datatype Job =
    | Append(folder: string, payload: Payload)
    | Move(source: string, dest: string, ids: set<nat>)
    | Relocate(id: nat, folder: string)
    | Look

  /** An open transaction; it holds the advisory lock of `box` from its first step to its last. */
  datatype Tx = Tx(box: Box, job: Job, wanted: seq<Payload>, origin: seq<nat>, uids: seq<nat>)

  datatype State = State(
    boxes: set<Box>,
    folders: map<Key, nat>,  // to uidvalidity
    rows: map<nat, Row>,     // by imap_uid, which is unique
    uidSeq: Sequence,
    validitySeq: Sequence,
    nextId: nat,
    txs: map<nat, Tx>
  )

  datatype Step =
    | Lock(tx: nat, box: Box, job: Job)
    | Capture(tx: nat)
    | Allocate(tx: nat)
    | Commit(tx: nat)
    | Abort(tx: nat)
    | CreateBox(box: Box)
    | CreateFolder(key: Key)
    | DeleteFolder(key: Key)
    | RenameFolder(key: Key, name: string)
    | RenameInbox(box: Box, name: string)
    | Expunge(key: Key, ids: set<nat>)
    | SetFlags(key: Key, uid: nat, flags: seq<string>, seen: bool)
    | MarkRead(id: nat)

  // ------------------------------------------------------------------ reading

  predicate LockFree(s: State, box: Box) {
    forall t | t in s.txs :: s.txs[t].box != box
  }

  /** UIDs of the rows in one folder. */
  function UidsIn(s: State, key: Key): (us: set<nat>)
    ensures forall u :: u in us <==> u in s.rows && s.rows[u].Home() == key
  {
    set u | u in s.rows && s.rows[u].Home() == key
  }

  /** What `SELECT imap_uid ... ORDER BY imap_uid` returns for a folder. */
  ghost function Listing(s: State, key: Key): seq<nat> {
    Sorted(UidsIn(s, key))
  }

  /** The unique index on (mailbox_id, message_id) over SMTP deliveries that have a Message-ID. */
  predicate Collides(s: State, box: Box, p: Payload) {
    p.smtp && p.messageId != "" &&
    exists u | u in s.rows :: s.rows[u].box == box && s.rows[u].payload.smtp &&
      s.rows[u].payload.messageId == p.messageId
  }

  ghost predicate HasId(s: State, box: Box, id: nat, u: nat) {
    u in s.rows && s.rows[u].box == box && s.rows[u].id == id
  }

  ghost function UidOf(s: State, box: Box, id: nat): (u: nat)
    requires exists u :: HasId(s, box, id, u)
    ensures HasId(s, box, id, u)
  {
    var u :| HasId(s, box, id, u);
    u
  }

  predicate ValidFolder(name: string) {
    name != "" && |name| <= 200 && '\r' !in name && '\n' !in name && '\0' !in name && '/' !in name
  }

  // ------------------------------------------------------------------ writing

  /** Adds one row per UID, in order. */
  function Insert(rows: map<nat, Row>, uids: seq<nat>, ps: seq<Payload>, box: Box, folder: string,
        id: nat): (r: map<nat, Row>)
    requires |uids| == |ps|
    decreases |uids|
  {
    if uids == [] then rows
    else Insert(rows[uids[0] := Row(id, box, folder, ps[0])], uids[1..], ps[1..], box, folder, id + 1)
  }

  function Without(rows: map<nat, Row>, gone: set<nat>): map<nat, Row> {
    rows - gone
  }

  function Refolder(rows: map<nat, Row>, from: Key, to: string): map<nat, Row> {
    map u | u in rows :: if rows[u].Home() == from then rows[u].(folder := to) else rows[u]
  }

  /** `INSERT INTO imap_folders ... ON CONFLICT DO NOTHING`: a uidvalidity is drawn even when the folder exists. */
  function EnsureFolder(s: State, key: Key): State {
    if key.box !in s.boxes || s.validitySeq.Exhausted() then s
    else
      var drawn := s.(validitySeq := s.validitySeq.Next());
      if key in s.folders then drawn else drawn.(folders := s.folders[key := drawn.validitySeq.value])
  }

  function StartTx(box: Box, job: Job): Tx {
    Tx(box, job, if job.Append? then [job.payload] else [], [], [])
  }

  function Copies(s: State, us: seq<nat>): (ps: seq<Payload>)
    requires forall u | u in us :: u in s.rows
    ensures |ps| == |us|
    ensures forall i | 0 <= i < |us| :: ps[i] == s.rows[us[i]].payload.(smtp := false)
  {
    seq(|us|, i requires 0 <= i < |us| => s.rows[us[i]].payload.(smtp := false))
  }

  /** Rows a MOVE reads and later deletes: the named UIDs still in the source folder. */
  function Picked(s: State, key: Key, ids: set<nat>): set<nat> {
    set u | u in ids && u in s.rows && s.rows[u].Home() == key
  }

  /** The `INSERT ... SELECT` of a MOVE reads its rows, in UID order. */
  ghost function Captured(s: State, tx: Tx): Tx
    requires tx.job.Move?
  {
    var us := Sorted(Picked(s, Key(tx.box, tx.job.source), tx.job.ids));
    tx.(origin := us, wanted := Copies(s, us))
  }

  function Allocated(s: State, t: nat): State
    requires t in s.txs
  {
    s.(uidSeq := s.uidSeq.Next(), txs := s.txs[t := s.txs[t].(uids := s.txs[t].uids + [s.uidSeq.Issued() + 1])])
  }

  /** The effect of a commit, given that `CanCommit`. */
  ghost function Committed(s: State, t: nat): State
    requires t in s.txs && CanCommit(s, t)
  {
    var tx := s.txs[t];
    var closed := s.(txs := s.txs - {t});
    match tx.job
    case Append(folder, _) =>
      closed.(rows := Insert(s.rows, tx.uids, tx.wanted, tx.box, folder, s.nextId), nextId := s.nextId + |tx.uids|)
    case Move(source, dest, ids) =>
      var left := Without(s.rows, Picked(s, Key(tx.box, source), ids));
      closed.(rows := Insert(left, tx.uids, tx.wanted, tx.box, dest, s.nextId), nextId := s.nextId + |tx.uids|)
    case Relocate(id, folder) =>
      var u := UidOf(s, tx.box, id);
      var ready := EnsureFolder(closed, Key(tx.box, folder));
      if s.rows[u].folder == folder then ready
      else ready.(rows := Without(s.rows, {u})[tx.uids[0] := s.rows[u].(folder := folder)])
    case Look => closed
  }

  /** Foreign key, unique index and statement order at commit. */
  ghost predicate CanCommit(s: State, t: nat)
    requires t in s.txs
  {
    var tx := s.txs[t];
    match tx.job
    case Append(folder, p) => |tx.uids| == |tx.wanted| && Key(tx.box, folder) in s.folders && !Collides(s, tx.box, p)
    case Move(source, dest, _) => source != dest && |tx.uids| == |tx.wanted| && Key(tx.box, dest) in s.folders
    case Relocate(id, folder) =>
      (folder == INBOX || folder == JUNK) && !s.validitySeq.Exhausted() &&
      (exists u :: HasId(s, tx.box, id, u)) && (s.rows[UidOf(s, tx.box, id)].folder != folder ==> |tx.uids| == 1)
    case Look => true
  }

  // One function per step that changes folders or rows on its own.

  function Boxed(s: State, box: Box): State {
    if box in s.boxes || s.validitySeq.Issued() + 2 > MAX_SEQUENCE then s
    else
      var inbox := s.validitySeq.Issued() + 1;
      s.(boxes := s.boxes + {box}, validitySeq := Last(inbox + 1),
         folders := s.folders[Key(box, INBOX) := inbox][Key(box, JUNK) := inbox + 1])
  }

  function Deleted(s: State, key: Key): State {
    if key.name == INBOX || key !in s.folders then s
    else s.(folders := s.folders - {key}, rows := Without(s.rows, UidsIn(s, key)))
  }

  /** The foreign key carries the new name to the rows; their UIDs and the folder's uidvalidity stay. */
  function Renamed(s: State, key: Key, name: string): State {
    var to := Key(key.box, name);
    if key.name == INBOX || name == INBOX || !ValidFolder(name) || key !in s.folders || (to in s.folders && to != key)
      then s
    else s.(folders := (s.folders - {key})[to := s.folders[key]], rows := Refolder(s.rows, key, name))
  }

  /** INBOX stays; its rows, with their UIDs, go to a new folder. */
  function InboxRenamed(s: State, box: Box, name: string): State {
    var to := Key(box, name);
    if box !in s.boxes || name == INBOX || !ValidFolder(name) || s.validitySeq.Exhausted() then s
    else
      var ready := EnsureFolder(s, to);
      if to in s.folders then ready else ready.(rows := Refolder(s.rows, Key(box, INBOX), name))
  }

  function Flagged(s: State, key: Key, uid: nat, flags: seq<string>, seen: bool): State {
    if uid in s.rows && s.rows[uid].Home() == key then
      s.(rows := s.rows[uid := s.rows[uid].(payload := s.rows[uid].payload.(flags := flags, seen := seen))])
    else s
  }

  function Read(s: State, id: nat): State {
    s.(rows := map u | u in s.rows ::
         if s.rows[u].id == id then s.rows[u].(payload := s.rows[u].payload.(seen := true)) else s.rows[u])
  }

  ghost function Apply(s: State, e: Step): State {
    match e
    case Lock(t, box, job) =>
      if t !in s.txs && box in s.boxes && LockFree(s, box) then s.(txs := s.txs[t := StartTx(box, job)]) else s
    case Capture(t) =>
      if t in s.txs && s.txs[t].job.Move? && s.txs[t].uids == [] then s.(txs := s.txs[t := Captured(s, s.txs[t])])
      else s
    case Allocate(t) =>
      if t in s.txs && !s.uidSeq.Exhausted() then Allocated(s, t) else s
    case Commit(t) => if t in s.txs && CanCommit(s, t) then Committed(s, t) else s
    case Abort(t) => s.(txs := s.txs - {t})
    case CreateBox(box) => Boxed(s, box)
    case CreateFolder(key) => EnsureFolder(s, key)
    case DeleteFolder(key) => Deleted(s, key)
    case RenameFolder(key, name) => Renamed(s, key, name)
    case RenameInbox(box, name) => InboxRenamed(s, box, name)
    case Expunge(key, ids) => s.(rows := Without(s.rows, Picked(s, key, ids)))
    case SetFlags(key, uid, flags, seen) => Flagged(s, key, uid, flags, seen)
    case MarkRead(id) => Read(s, id)
  }

  /** The state after a run. */
  ghost function Exec(s: State, steps: seq<Step>): State
    decreases |steps|
  {
    if steps == [] then s else Apply(Exec(s, steps[..|steps| - 1]), steps[|steps| - 1])
  }

  lemma ExecLast(s: State, steps: seq<Step>, e: Step)
    ensures Exec(s, steps + [e]) == Apply(Exec(s, steps), e)
  {
    assert (steps + [e])[..|steps + [e]| - 1] == steps;
  }

  lemma ExecThree(s: State, a: Step, b: Step, c: Step)
    ensures Exec(s, [a, b, c]) == Apply(Apply(Apply(s, a), b), c)
  {
    assert [] + [a] == [a] && [a] + [b] == [a, b] && [a, b] + [c] == [a, b, c];
    ExecLast(s, [], a);
    ExecLast(s, [a], b);
    ExecLast(s, [a, b], c);
  }

  lemma ExecFour(s: State, a: Step, b: Step, c: Step, d: Step)
    ensures Exec(s, [a, b, c, d]) == Apply(Apply(Apply(Apply(s, a), b), c), d)
  {
    ExecThree(s, a, b, c);
    assert [a, b, c] + [d] == [a, b, c, d];
    ExecLast(s, [a, b, c], d);
  }

  /** Runs compose. */
  lemma {:induction false} ExecConcat(s: State, a: seq<Step>, b: seq<Step>)
    ensures Exec(s, a + b) == Exec(Exec(s, a), b)
    decreases |b|
  {
    if b == [] {
      assert a + b == a;
    } else {
      var front := b[..|b| - 1];
      assert (a + b)[..|a + b| - 1] == a + front;
      ExecConcat(s, a, front);
    }
  }

  /** What `Insert` leaves behind, for distinct UIDs none of which is taken. */
  lemma {:induction false} InsertRows(rows: map<nat, Row>, uids: seq<nat>, ps: seq<Payload>, box: Box,
        folder: string, id: nat)
    requires |uids| == |ps| && IsAscending(uids)
    requires forall u | u in uids :: u !in rows
    ensures var r := Insert(rows, uids, ps, box, folder, id);
            && (forall u :: u in r <==> u in rows || u in uids)
            && (forall u | u in rows :: r[u] == rows[u])
            && (forall i | 0 <= i < |uids| :: r[uids[i]] == Row(id + i, box, folder, ps[i]))
    decreases |uids|
  {
    if uids != [] {
      var more := rows[uids[0] := Row(id, box, folder, ps[0])];
      assert forall i | 0 <= i < |uids| - 1 :: uids[1..][i] == uids[i + 1];
      InsertRows(more, uids[1..], ps[1..], box, folder, id + 1);
      var r := Insert(more, uids[1..], ps[1..], box, folder, id + 1);
      assert uids == [uids[0]] + uids[1..];
      assert r[uids[0]] == more[uids[0]];
      forall i | 0 <= i < |uids| ensures r[uids[i]] == Row(id + i, box, folder, ps[i]) {
        if i > 0 { assert uids[1..][i - 1] == uids[i] && ps[1..][i - 1] == ps[i]; }
      }
    }
  }
}
