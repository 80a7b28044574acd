/**
 MOVE and its bookkeeping. A MOVE reads its rows in one statement and deletes what it finds under the same name
 and UIDs in the next, holding a lock that EXPUNGE, folder renames and folder deletion do not take. Mail is
 conserved exactly when the second statement deletes the rows the first one read; otherwise it can be lost
 (`MoveLosesMail`) or doubled (`MoveDoublesMail`).
 */
module MailMoves {
  import opened Ascending
  import opened FolderListings
  import opened MailInvariant
  import opened MailStates

  // ---------------------------------------------------------------- what was read stays what was written

  /** The copies a MOVE holds are of the rows it read, wherever those rows still exist. */
  ghost predicate CopiesOk(s: State, tx: Tx) {
    && |tx.wanted| == |tx.origin|
    && IsAscending(tx.origin)
    && (forall u | u in tx.origin :: u <= s.uidSeq.Issued())
    && (forall t, u | t in s.txs && u in tx.origin :: u !in s.txs[t].uids)
    && (forall i | 0 <= i < |tx.origin| && tx.origin[i] in s.rows ::
          s.rows[tx.origin[i]].payload.source == tx.wanted[i].source)
  }

  ghost predicate CopiesKept(s: State, t: nat) {
    t in s.txs && s.txs[t].job.Move? ==> CopiesOk(s, s.txs[t])
  }

  /** Old rows carry the same message; new rows have UIDs the MOVE never read. */
  lemma CopiesSurvive(s: State, r: State, tx: Tx, arrived: seq<nat>)
    requires CopiesOk(s, tx) && r.uidSeq == s.uidSeq
    requires forall t | t in r.txs :: t in s.txs && r.txs[t] == s.txs[t]
    requires arrived == [] || exists t :: t in s.txs && s.txs[t].uids == arrived
    requires forall u | u in r.rows && u !in arrived ::
               u in s.rows && r.rows[u].payload.source == s.rows[u].payload.source
    ensures CopiesOk(r, tx)
  {
    forall i | 0 <= i < |tx.origin| && tx.origin[i] in r.rows
      ensures r.rows[tx.origin[i]].payload.source == tx.wanted[i].source
    {
      assert tx.origin[i] in tx.origin && tx.origin[i] !in arrived;
    }
  }

  lemma CopiesStep(s: State, e: Step, t: nat)
    requires Valid(s) && CopiesKept(s, t)
    ensures CopiesKept(Apply(s, e), t)
  {
    var r := Apply(s, e);
    if e.Commit? {
      if e.tx in s.txs && CanCommit(s, e.tx) {
        assert PendingOk(s, s.txs[e.tx]);
        CommitRows(s, e.tx);
        if t in r.txs && r.txs[t].job.Move? { CopiesSurvive(s, r, s.txs[t], s.txs[e.tx].uids); }
      }
    } else if IsQuiet(e) {
      QuietSteps(s, e);
      if t in r.txs && r.txs[t].job.Move? { CopiesSurvive(s, r, s.txs[t], []); }
    } else {
      CopiesInside(s, e, t);
    }
  }

  lemma CopiesRead(s: State, t: nat)
    requires RowsOk(s) && AllPendingOk(s) && t in s.txs && s.txs[t].job.Move?
    ensures CopiesOk(s.(txs := s.txs[t := Captured(s, s.txs[t])]), Captured(s, s.txs[t]))
  {
    var tx := Captured(s, s.txs[t]);
    forall o, u | o in s.txs && u in tx.origin ensures u !in s.txs[o].uids {
      assert PendingOk(s, s.txs[o]);
    }
  }

  lemma CopiesInside(s: State, e: Step, t: nat)
    requires RowsOk(s) && AllPendingOk(s) && CopiesKept(s, t) && (e.Lock? || e.Capture? || e.Allocate? || e.Abort?)
    ensures CopiesKept(Apply(s, e), t)
  {
    hide RowsOk, AllPendingOk;
    var r := Apply(s, e);
    assert r.rows == s.rows;
    if e.Capture? && t == e.tx && t in s.txs && s.txs[t].job.Move? && s.txs[t].uids == [] {
      CopiesRead(s, t);
    }
  }

  lemma {:induction false} CopiesRun(s: State, steps: seq<Step>, t: nat)
    requires Valid(s) && CopiesKept(s, t)
    ensures CopiesKept(Exec(s, steps), t)
    decreases |steps|
  {
    if steps != [] {
      var front := steps[..|steps| - 1];
      CopiesRun(s, front, t);
      RunKeeps(s, front);
      CopiesStep(Exec(s, front), steps[|steps| - 1], t);
    }
  }

  // ---------------------------------------------------------------- counting messages

  /** The messages of some rows, with repetition. */
  ghost function Contents(rows: map<nat, Row>, us: set<nat>): multiset<string>
    requires us <= rows.Keys
  {
    if us == {} then multiset{}
    else
      var u :| u in us;
      multiset{rows[u].payload.source} + Contents(rows, us - {u})
  }

  lemma {:induction false} ContentsOne(rows: map<nat, Row>, us: set<nat>, u: nat)
    requires us <= rows.Keys && u in us
    ensures Contents(rows, us) == multiset{rows[u].payload.source} + Contents(rows, us - {u})
    decreases |us|
  {
    var v :| v in us && Contents(rows, us) == multiset{rows[v].payload.source} + Contents(rows, us - {v});
    if v != u {
      ContentsOne(rows, us - {v}, u);
      ContentsOne(rows, us - {u}, v);
      assert us - {v} - {u} == us - {u} - {v};
    }
  }

  lemma {:induction false} ContentsSplit(rows: map<nat, Row>, a: set<nat>, b: set<nat>)
    requires a + b <= rows.Keys && a !! b
    ensures Contents(rows, a + b) == Contents(rows, a) + Contents(rows, b)
    decreases |a|
  {
    if a == {} {
      assert a + b == b;
    } else {
      var u :| u in a;
      assert a + b - {u} == (a - {u}) + b;
      ContentsSplit(rows, a - {u}, b);
      ContentsOne(rows, a, u);
      ContentsOne(rows, a + b, u);
    }
  }

  lemma {:induction false} ContentsSame(rows: map<nat, Row>, more: map<nat, Row>, us: set<nat>)
    requires us <= rows.Keys && us <= more.Keys
    requires forall u | u in us :: rows[u].payload.source == more[u].payload.source
    ensures Contents(rows, us) == Contents(more, us)
    decreases |us|
  {
    if us != {} {
      var u :| u in us;
      ContentsOne(rows, us, u);
      ContentsOne(more, us, u);
      ContentsSame(rows, more, us - {u});
    }
  }

  function Sources(ps: seq<Payload>): multiset<string> {
    if ps == [] then multiset{} else multiset{ps[0].source} + Sources(ps[1..])
  }

  lemma {:induction false} ContentsOfRun(rows: map<nat, Row>, uids: seq<nat>, ps: seq<Payload>)
    requires |uids| == |ps| && IsAscending(uids)
    requires forall i | 0 <= i < |uids| :: uids[i] in rows && rows[uids[i]].payload.source == ps[i].source
    ensures Members(uids) <= rows.Keys
    ensures Contents(rows, Members(uids)) == Sources(ps)
  {
    if uids != [] {
      assert forall i | 0 <= i < |uids| - 1 :: uids[1..][i] == uids[i + 1] && ps[1..][i] == ps[i + 1];
      ContentsOfRun(rows, uids[1..], ps[1..]);
      assert uids == [uids[0]] + uids[1..] && uids[0] !in uids[1..];
      assert Members(uids) - {uids[0]} == Members(uids[1..]);
      ContentsOne(rows, Members(uids), uids[0]);
      assert Sources(ps) == multiset{ps[0].source} + Sources(ps[1..]);
    }
  }

  lemma {:induction false} ContentsSize(rows: map<nat, Row>, us: set<nat>)
    requires us <= rows.Keys
    ensures |Contents(rows, us)| == |us|
    decreases |us|
  {
    if us != {} {
      var u :| u in us && Contents(rows, us) == multiset{rows[u].payload.source} + Contents(rows, us - {u});
      ContentsSize(rows, us - {u});
    }
  }

  lemma {:induction false} SourcesSize(ps: seq<Payload>)
    ensures |Sources(ps)| == |ps|
  {
    if ps != [] { SourcesSize(ps[1..]); }
  }

  lemma {:induction false} MembersSize(us: seq<nat>)
    requires IsAscending(us)
    ensures |Members(us)| == |us|
  {
    if us != [] {
      MembersSize(us[1..]);
      assert us == [us[0]] + us[1..] && us[0] !in us[1..];
      assert Members(us) == {us[0]} + Members(us[1..]);
    }
  }

  function UidsOf(s: State, box: Box): set<nat> {
    set u | u in s.rows && s.rows[u].box == box
  }

  /** All mail of a mailbox, over all its folders. */
  ghost function Mail(s: State, box: Box): multiset<string> {
    Contents(s.rows, UidsOf(s, box))
  }

  /** Each message counts as often as the mailbox has rows of it. */
  lemma MailCounts(s: State, box: Box, source: string)
    ensures Mail(s, box)[source] ==
            |set u | u in s.rows && s.rows[u].box == box && s.rows[u].payload.source == source|
  {
    ContentsCount(s.rows, UidsOf(s, box), source);
    assert Bearing(s.rows, UidsOf(s, box), source) ==
           set u | u in s.rows && s.rows[u].box == box && s.rows[u].payload.source == source;
  }

  function Bearing(rows: map<nat, Row>, us: set<nat>, source: string): set<nat>
    requires us <= rows.Keys
  {
    set u | u in us && rows[u].payload.source == source
  }

  lemma {:induction false} ContentsCount(rows: map<nat, Row>, us: set<nat>, source: string)
    requires us <= rows.Keys
    ensures Contents(rows, us)[source] == |Bearing(rows, us, source)|
    decreases |us|
  {
    if us != {} {
      var u :| u in us && Contents(rows, us) == multiset{rows[u].payload.source} + Contents(rows, us - {u});
      var rest := Bearing(rows, us - {u}, source);
      ContentsCount(rows, us - {u}, source);
      if rows[u].payload.source == source {
        assert Bearing(rows, us, source) == rest + {u} && u !in rest;
      } else {
        assert Bearing(rows, us, source) == rest;
      }
    }
  }

  // ---------------------------------------------------------------- the move itself

  /** Some rows go, and rows with new UIDs come. */
  ghost predicate Exchanged(rows: map<nat, Row>, more: map<nat, Row>, gone: set<nat>, come: seq<nat>) {
    && (forall u | u in come :: u !in rows && u in more)
    && (forall u :: u in more <==> (u in rows && u !in gone) || u in come)
    && (forall u | u in rows && u !in gone :: more[u] == rows[u])
  }

  lemma MoveExchanges(s: State, t: nat)
    requires t in s.txs && PendingOk(s, s.txs[t]) && s.txs[t].job.Move? && CanCommit(s, t)
    ensures var tx, r := s.txs[t], Committed(s, t);
            && IsAscending(tx.uids)
            && Exchanged(s.rows, r.rows, Picked(s, Key(tx.box, tx.job.source), tx.job.ids), tx.uids)
            && (forall i | 0 <= i < |tx.uids| ::
                  r.rows[tx.uids[i]] == Row(s.nextId + i, tx.box, tx.job.dest, tx.wanted[i]))
            && (forall u, v | u in tx.uids && v in s.rows && s.rows[v].box == tx.box :: v < u)
  {
    var tx := s.txs[t];
    InsertRows(Without(s.rows, Picked(s, Key(tx.box, tx.job.source), tx.job.ids)), tx.uids, tx.wanted, tx.box,
               tx.job.dest, s.nextId);
  }

  lemma Shuffle(a: multiset<string>, b: multiset<string>, c: multiset<string>)
    ensures (a + b) + c == (a + c) + b
  {
  }

  lemma ExchangeContents(rows: map<nat, Row>, more: map<nat, Row>, all: set<nat>, gone: set<nat>, come: seq<nat>,
        ps: seq<Payload>)
    requires Exchanged(rows, more, gone, come) && gone <= all <= rows.Keys
    requires |come| == |ps| && IsAscending(come)
    requires forall i | 0 <= i < |come| :: more[come[i]].payload.source == ps[i].source
    ensures (all - gone) + Members(come) <= more.Keys
    ensures Contents(more, (all - gone) + Members(come)) + Contents(rows, gone) == Contents(rows, all) + Sources(ps)
  {
    var stay := all - gone;
    assert Contents(more, stay + Members(come)) == Contents(rows, stay) + Sources(ps) by {
      ContentsSplit(more, stay, Members(come));
      ContentsSame(rows, more, stay);
      ContentsOfRun(more, come, ps);
    }
    assert Contents(rows, all) == Contents(rows, stay) + Contents(rows, gone) by {
      assert all == stay + gone;
      ContentsSplit(rows, stay, gone);
    }
    Shuffle(Contents(rows, stay), Sources(ps), Contents(rows, gone));
  }

  /** `r` is `s` after a MOVE by `tx` that deleted `gone`. */
  ghost predicate MovedBy(s: State, r: State, tx: Tx, gone: set<nat>) {
    && tx.job.Move? && |tx.wanted| == |tx.uids| && IsAscending(tx.uids)
    && gone == Picked(s, Key(tx.box, tx.job.source), tx.job.ids)
    && Exchanged(s.rows, r.rows, gone, tx.uids)
    && (forall i | 0 <= i < |tx.uids| :: r.rows[tx.uids[i]].payload == tx.wanted[i])
    && (forall u | u in tx.uids :: r.rows[u].Home() == Key(tx.box, tx.job.dest))
    && (forall u, v | u in tx.uids && v in s.rows && s.rows[v].box == tx.box :: v < u)
  }

  lemma CommitMoves(s: State, t: nat)
    requires t in s.txs && PendingOk(s, s.txs[t]) && s.txs[t].job.Move? && CanCommit(s, t)
    ensures MovedBy(s, Committed(s, t), s.txs[t], Picked(s, Key(s.txs[t].box, s.txs[t].job.source), s.txs[t].job.ids))
  {
    MoveExchanges(s, t);
    var tx, r := s.txs[t], Committed(s, t);
    forall u | u in tx.uids ensures r.rows[u].Home() == Key(tx.box, tx.job.dest) {
      var i :| 0 <= i < |tx.uids| && tx.uids[i] == u;
    }
  }

  lemma MovedMail(s: State, r: State, tx: Tx, gone: set<nat>)
    requires tx.job.Move? && MovedBy(s, r, tx, gone)
    ensures Mail(r, tx.box) + Contents(s.rows, gone) == Mail(s, tx.box) + Sources(tx.wanted)
  {
    ExchangeContents(s.rows, r.rows, UidsOf(s, tx.box), gone, tx.uids, tx.wanted);
    assert UidsOf(r, tx.box) == (UidsOf(s, tx.box) - gone) + Members(tx.uids);
  }

  /** What the DELETE finds: the rows of the named UIDs that are now in the folder of that name. */
  function Found(s: State, t: nat): set<nat>
    requires t in s.txs && s.txs[t].job.Move?
  {
    Picked(s, Source(s, t), s.txs[t].job.ids)
  }

  function Source(s: State, t: nat): Key
    requires t in s.txs && s.txs[t].job.Move?
  {
    Key(s.txs[t].box, s.txs[t].job.source)
  }

  /**
   The mailbox gains a copy of every row read and loses every row found. So a difference in number always shows;
   and if nothing is found that was not read, mail is conserved exactly when every row read is found.
   */
  lemma MoveConserves(s: State, t: nat)
    requires t in s.txs && PendingOk(s, s.txs[t]) && s.txs[t].job.Move? && CopiesOk(s, s.txs[t]) && CanCommit(s, t)
    ensures var tx, r := s.txs[t], Committed(s, t);
            && Mail(r, tx.box) + Contents(s.rows, Found(s, t)) == Mail(s, tx.box) + Sources(tx.wanted)
            && |Mail(r, tx.box)| + |Found(s, t)| == |Mail(s, tx.box)| + |tx.origin|
            && (|Found(s, t)| != |tx.origin| ==> Mail(r, tx.box) != Mail(s, tx.box))
            && (Found(s, t) <= Members(tx.origin) ==>
                  (Mail(r, tx.box) == Mail(s, tx.box) <==> Found(s, t) == Members(tx.origin)))
  {
    var tx, r, found := s.txs[t], Committed(s, t), Found(s, t);
    CommitMoves(s, t);
    MovedMail(s, r, tx, found);
    Sizes(Mail(r, tx.box), Contents(s.rows, found), Mail(s, tx.box), Sources(tx.wanted));
    ContentsSize(s.rows, found);
    SourcesSize(tx.wanted);
    MembersSize(tx.origin);
    if found == Members(tx.origin) {
      UndisturbedMoveConserves(s, t);
    } else if found < Members(tx.origin) {
      FewerIsLess(found, Members(tx.origin));
    }
  }

  lemma Sizes(a: multiset<string>, b: multiset<string>, c: multiset<string>, d: multiset<string>)
    requires a + b == c + d
    ensures |a| + |b| == |c| + |d|
  {
    assert |a + b| == |c + d|;
  }

  lemma FewerIsLess(a: set<nat>, b: set<nat>)
    requires a < b
    ensures |a| < |b|
  {
    assert b == a + (b - a) && |b| == |a| + |b - a|;
  }

  /** In particular, if the rows found are the rows read, nothing is lost or doubled. */
  lemma UndisturbedMoveConserves(s: State, t: nat)
    requires t in s.txs && PendingOk(s, s.txs[t]) && s.txs[t].job.Move? && CopiesOk(s, s.txs[t]) && CanCommit(s, t)
    requires Members(s.txs[t].origin) == Found(s, t)
    ensures Mail(Committed(s, t), s.txs[t].box) == Mail(s, s.txs[t].box)
  {
    var tx, r := s.txs[t], Committed(s, t);
    forall i | 0 <= i < |tx.origin| ensures tx.origin[i] in s.rows {
      assert tx.origin[i] in Members(tx.origin);
    }
    ContentsOfRun(s.rows, tx.origin, tx.wanted);
    CommitMoves(s, t);
    MovedMail(s, r, tx, Found(s, t));
    Cancel(Mail(r, tx.box), Mail(s, tx.box), Sources(tx.wanted));
  }

  lemma Cancel(a: multiset<string>, b: multiset<string>, c: multiset<string>)
    requires a + c == b + c
    ensures a == b
  {
    assert a == (a + c) - c && b == (b + c) - c;
  }

  // ---------------------------------------------------------------- from the read to the commit

  /** Not a step of the MOVE itself between its read and its commit. */
  predicate BySomeone(e: Step, t: nat) {
    match e
    case Capture(o) => o != t
    case Commit(o) => o != t
    case Abort(o) => o != t
    case _ => true
  }

  /** A step that can put old rows under a folder's name: only a rename onto it. */
  predicate BringsTo(e: Step, source: Key) {
    match e
    case RenameFolder(key, name) => Key(key.box, name) == source
    case RenameInbox(box, name) => Key(box, name) == source
    case _ => false
  }

  /** A step that can take one of the named messages from under the folder's name. */
  predicate TakesFrom(e: Step, source: Key, ids: set<nat>) {
    match e
    case Expunge(key, gone) => key == source && gone * ids != {}
    case DeleteFolder(key) => key == source
    case RenameFolder(key, _) => key == source
    case RenameInbox(box, _) => Key(box, INBOX) == source
    case _ => false
  }

  /** The MOVE stays open, after what it read. */
  ghost predicate StaysOpen(s: State, r: State, t: nat)
    requires t in s.txs
  {
    && t in r.txs && r.txs[t].job == s.txs[t].job && r.txs[t].box == s.txs[t].box
    && r.txs[t].origin == s.txs[t].origin && r.txs[t].wanted == s.txs[t].wanted
  }

  lemma FoundQuiet(s: State, e: Step, t: nat)
    requires t in s.txs && s.txs[t].job.Move? && IsQuiet(e) && !BringsTo(e, Source(s, t))
    ensures StaysOpen(s, Apply(s, e), t) && Found(Apply(s, e), t) <= Found(s, t)
    ensures !TakesFrom(e, Source(s, t), s.txs[t].job.ids) ==> Found(Apply(s, e), t) == Found(s, t)
  {
    QuietSteps(s, e);
    if e.Expunge? && !TakesFrom(e, Source(s, t), s.txs[t].job.ids) && e.key == Source(s, t) {
      forall u | u in Found(s, t) ensures u in Found(Apply(s, e), t) {
        assert u !in e.ids * s.txs[t].job.ids;
      }
    }
  }

  lemma FoundCommit(s: State, o: nat, t: nat)
    requires AllPendingOk(s) && LocksOk(s) && t in s.txs && s.txs[t].job.Move? && o != t && o in s.txs &&
             CanCommit(s, o)
    ensures StaysOpen(s, Committed(s, o), t) && Found(Committed(s, o), t) == Found(s, t)
  {
    assert PendingOk(s, s.txs[o]) && Apart(s.txs[o], s.txs[t]);
    CommitElsewhere(s, o, s.txs[t].box);
  }

  lemma FoundStep(s: State, e: Step, t: nat)
    requires AllPendingOk(s) && LocksOk(s) && t in s.txs && s.txs[t].job.Move?
    requires BySomeone(e, t) && !BringsTo(e, Source(s, t))
    ensures StaysOpen(s, Apply(s, e), t) && Found(Apply(s, e), t) <= Found(s, t)
    ensures !TakesFrom(e, Source(s, t), s.txs[t].job.ids) ==> Found(Apply(s, e), t) == Found(s, t)
  {
    if e.Commit? {
      if e.tx in s.txs && CanCommit(s, e.tx) { FoundCommit(s, e.tx, t); }
    } else if IsQuiet(e) {
      FoundQuiet(s, e, t);
    } else {
      assert Apply(s, e).rows == s.rows;
    }
  }

  lemma CommitElsewhere(s: State, t: nat, box: Box)
    requires t in s.txs && PendingOk(s, s.txs[t]) && CanCommit(s, t) && s.txs[t].box != box
    ensures var r := Committed(s, t);
            && (forall u | u in s.rows && s.rows[u].box == box :: u in r.rows && r.rows[u] == s.rows[u])
            && (forall u | u in r.rows && r.rows[u].box == box :: u in s.rows && s.rows[u].box == box)
            && r.txs == s.txs - {t}
  {
    var tx := s.txs[t];
    CommitRows(s, t);
    match tx.job {
      case Append(folder, _) => InsertRows(s.rows, tx.uids, tx.wanted, tx.box, folder, s.nextId);
      case Move(source, dest, ids) =>
        InsertRows(Without(s.rows, Picked(s, Key(tx.box, source), ids)), tx.uids, tx.wanted, tx.box, dest, s.nextId);
      case Relocate(_, _) => RelocateRow(s, t);
      case Look =>
    }
  }

  /** Nothing comes back under the name, so from the read on the DELETE can only find less. */
  lemma {:induction false} FoundRun(s: State, steps: seq<Step>, t: nat)
    requires Valid(s) && t in s.txs && s.txs[t].job.Move?
    requires forall e | e in steps :: BySomeone(e, t) && !BringsTo(e, Source(s, t))
    ensures var r := Exec(s, steps);
            && StaysOpen(s, r, t) && Found(r, t) <= Found(s, t)
            && ((forall e | e in steps :: !TakesFrom(e, Source(s, t), s.txs[t].job.ids)) ==> Found(r, t) == Found(s, t))
    decreases |steps|
  {
    if steps != [] {
      var front := steps[..|steps| - 1];
      FoundRun(s, front, t);
      RunKeeps(s, front);
      assert steps[|steps| - 1] in steps;
      FoundStep(Exec(s, front), steps[|steps| - 1], t);
    }
  }

  /** A MOVE about to read, in a run that began before it. */
  ghost predicate AboutToRead(s: State, before: seq<Step>, t: nat) {
    && Valid(s) && t !in s.txs
    && var mid := Exec(s, before);
       t in mid.txs && mid.txs[t].job.Move? && mid.txs[t].uids == []
  }

  lemma ReadsAll(s: State, before: seq<Step>, t: nat)
    requires AboutToRead(s, before, t)
    ensures var mid, r := Exec(s, before), Exec(s, before + [Capture(t)]);
            && StaysOpen(mid.(txs := mid.txs[t := Captured(mid, mid.txs[t])]), r, t) && r.txs[t].job == mid.txs[t].job
            && r.txs[t].box == mid.txs[t].box && Valid(r) && CopiesKept(r, t) && Members(r.txs[t].origin) == Found(r, t)
  {
    ExecLast(s, before, Capture(t));
    RunKeeps(s, before + [Capture(t)]);
    CopiesRun(s, before + [Capture(t)], t);
  }

  /**
   Wherever its UIDs come from, as long as no folder is renamed onto the source's name: a MOVE conserves mail if and
   only if every row it read is still in the folder of that name. A row that is not was expunged, and comes back as a
   copy, or was renamed away, and is doubled.
   */
  lemma {:induction false} MoveConservesUnrenamed(s: State, before: seq<Step>, after: seq<Step>, t: nat)
    requires AboutToRead(s, before, t)
    requires forall e | e in after :: BySomeone(e, t) && !BringsTo(e, Source(Exec(s, before), t))
    ensures var r := Exec(s, before + [Capture(t)] + after);
            && t in r.txs && r.txs[t].job == Exec(s, before).txs[t].job && r.txs[t].box == Exec(s, before).txs[t].box
            && (CanCommit(r, t) ==>
                  (Mail(Apply(r, Commit(t)), r.txs[t].box) == Mail(r, r.txs[t].box) <==>
                   Members(r.txs[t].origin) <= UidsIn(r, Source(r, t))))
  {
    ReadsAll(s, before, t);
    var read := Exec(s, before + [Capture(t)]);
    ExecConcat(s, before + [Capture(t)], after);
    FoundRun(read, after, t);
    RunKeeps(read, after);
    CopiesRun(read, after, t);
    ConservesIfFound(Exec(read, after), t);
  }

  lemma ConservesIfFound(s: State, t: nat)
    requires AllPendingOk(s) && CopiesKept(s, t) && t in s.txs && s.txs[t].job.Move?
    requires Found(s, t) <= Members(s.txs[t].origin) <= s.txs[t].job.ids
    ensures Members(s.txs[t].origin) <= UidsIn(s, Source(s, t)) <==> Members(s.txs[t].origin) == Found(s, t)
    ensures CanCommit(s, t) ==>
              (Mail(Apply(s, Commit(t)), s.txs[t].box) == Mail(s, s.txs[t].box) <==>
               Members(s.txs[t].origin) <= UidsIn(s, Source(s, t)))
  {
    if CanCommit(s, t) {
      assert PendingOk(s, s.txs[t]);
      MoveConserves(s, t);
    }
  }

  /**
   Against deliveries, appends, HTTP moves, flag changes, EXPUNGE of other messages, and everything in other folders and
   mailboxes, in any interleaving, the lock is enough: from its read to its commit a MOVE conserves mail.
   */
  lemma {:induction false} LockedMoveConserves(s: State, before: seq<Step>, after: seq<Step>, t: nat)
    requires AboutToRead(s, before, t)
    requires var mid := Exec(s, before);
             forall e | e in after ::
               BySomeone(e, t) && !BringsTo(e, Source(mid, t)) && !TakesFrom(e, Source(mid, t), mid.txs[t].job.ids)
    ensures var r := Exec(s, before + [Capture(t)] + after);
            t in r.txs && r.txs[t].job.Move? &&
            (CanCommit(r, t) ==> Mail(Apply(r, Commit(t)), r.txs[t].box) == Mail(r, r.txs[t].box))
  {
    ReadsAll(s, before, t);
    ExecConcat(s, before + [Capture(t)], after);
    FoundRun(Exec(s, before + [Capture(t)]), after, t);
    MoveConservesUnrenamed(s, before, after, t);
  }

  // ---------------------------------------------------------------- UIDs of one listing

  /** UIDs once listed in one folder: they name nothing else, and those that still name a message lie together. */
  ghost predicate Together(s: State, us: set<nat>) {
    && (forall u | u in us :: u <= s.uidSeq.Issued())
    && (forall u, t | u in us && t in s.txs :: u !in s.txs[t].uids)
    && (forall u, v | u in us && v in us && u in s.rows && v in s.rows :: s.rows[u].Home() == s.rows[v].Home())
  }

  lemma ListedTogether(s: State, key: Key)
    requires Valid(s)
    ensures Together(s, UidsIn(s, key))
  {
    forall u, t | u in UidsIn(s, key) && t in s.txs ensures u !in s.txs[t].uids { assert PendingOk(s, s.txs[t]); }
  }

  lemma FewerTogether(s: State, us: set<nat>, vs: set<nat>)
    requires Together(s, us) && vs <= us
    ensures Together(s, vs)
  {
  }

  /** A rename takes all rows of a folder along; nothing else takes an old UID to another folder. */
  lemma TogetherQuiet(s: State, e: Step, us: set<nat>)
    requires Together(s, us) && IsQuiet(e)
    ensures Together(Apply(s, e), us)
  {
    QuietSteps(s, e);
    var r := Apply(s, e);
    forall u, v | u in us && v in us && u in r.rows && v in r.rows ensures r.rows[u].Home() == r.rows[v].Home() {
      assert s.rows[u].Home() == s.rows[v].Home();
    }
  }

  lemma TogetherCommit(s: State, t: nat, us: set<nat>)
    requires Together(s, us) && t in s.txs && PendingOk(s, s.txs[t]) && CanCommit(s, t)
    ensures Together(Committed(s, t), us)
  {
    CommitRows(s, t);
    var r := Committed(s, t);
    forall u, v | u in us && v in us && u in r.rows && v in r.rows ensures r.rows[u].Home() == r.rows[v].Home() {
      assert u !in s.txs[t].uids && v !in s.txs[t].uids;
    }
  }

  lemma TogetherInside(s: State, e: Step, us: set<nat>)
    requires Together(s, us) && (e.Lock? || e.Capture? || e.Allocate? || e.Abort?)
    ensures Together(Apply(s, e), us)
  {
    assert Apply(s, e).rows == s.rows;
  }

  lemma TogetherStep(s: State, e: Step, us: set<nat>)
    requires AllPendingOk(s) && Together(s, us)
    ensures Together(Apply(s, e), us)
  {
    hide Together;
    if e.Commit? {
      if e.tx in s.txs && CanCommit(s, e.tx) { TogetherCommit(s, e.tx, us); }
    } else if IsQuiet(e) {
      TogetherQuiet(s, e, us);
    } else {
      TogetherInside(s, e, us);
    }
  }

  lemma {:induction false} TogetherRun(s: State, steps: seq<Step>, us: set<nat>)
    requires Valid(s) && Together(s, us)
    ensures Together(Exec(s, steps), us)
    decreases |steps|
  {
    if steps != [] {
      var front := steps[..|steps| - 1];
      TogetherRun(s, front, us);
      RunKeeps(s, front);
      TogetherStep(Exec(s, front), steps[|steps| - 1], us);
    }
  }

  /** If a MOVE read anything, it later finds nothing that it did not read. */
  lemma {:induction false} FindsOnlyRead(s: State, steps: seq<Step>, t: nat, us: set<nat>)
    requires Valid(s) && Together(s, us) && t in s.txs && s.txs[t].job.Move? && us == s.txs[t].job.ids &&
             Found(s, t) != {}
    requires t in Exec(s, steps).txs && Exec(s, steps).txs[t].job == s.txs[t].job &&
             Exec(s, steps).txs[t].box == s.txs[t].box
    ensures Found(Exec(s, steps), t) <= Found(s, t)
  {
    var r := Exec(s, steps);
    var u :| u in Found(s, t);
    forall v | v in Found(r, t) ensures v in Found(s, t) {
      if v !in s.rows {
        LostUidStaysLost(s, steps, v);
      } else {
        assert s.rows[u].Home() == s.rows[v].Home();
      }
    }
  }

  /** The MOVE stays open until somebody ends it. */
  lemma {:induction false} OpenRun(s: State, steps: seq<Step>, t: nat)
    requires t in s.txs && forall e | e in steps :: BySomeone(e, t)
    ensures StaysOpen(s, Exec(s, steps), t)
    decreases |steps|
  {
    if steps != [] {
      hide BySomeone;
      var front, e := steps[..|steps| - 1], steps[|steps| - 1];
      OpenRun(s, front, t);
      assert e in steps;
      OpenStep(Exec(s, front), e, t);
    }
  }

  lemma OpenStep(s: State, e: Step, t: nat)
    requires t in s.txs && BySomeone(e, t)
    ensures StaysOpen(s, Apply(s, e), t)
  {
  }

  /**
   From its read to its commit, through any interleaving whatever, a MOVE of UIDs from one listing conserves mail if and
   only if its DELETE finds exactly the rows it read; and for that their numbers need only be equal, so it is enough to
   compare what the two statements report.
   */
  lemma {:induction false} MoveConservesExactly(s: State, before: seq<Step>, after: seq<Step>, t: nat)
    requires AboutToRead(s, before, t) && Together(s, Exec(s, before).txs[t].job.ids)
    requires forall e | e in after :: BySomeone(e, t)
    ensures var r := Exec(s, before + [Capture(t)] + after);
            && t in r.txs && r.txs[t].job == Exec(s, before).txs[t].job && r.txs[t].box == Exec(s, before).txs[t].box
            && (CanCommit(r, t) ==>
                  && (Mail(Apply(r, Commit(t)), r.txs[t].box) == Mail(r, r.txs[t].box) <==>
                      Found(r, t) == Members(r.txs[t].origin))
                  && (Mail(Apply(r, Commit(t)), r.txs[t].box) == Mail(r, r.txs[t].box) <==>
                      |Found(r, t)| == |r.txs[t].origin|))
  {
    ReadsAll(s, before, t);
    var read := Exec(s, before + [Capture(t)]);
    ExecConcat(s, before + [Capture(t)], after);
    OpenRun(read, after, t);
    RunKeeps(read, after);
    CopiesRun(read, after, t);
    TogetherRun(s, before + [Capture(t)], read.txs[t].job.ids);
    if Found(read, t) != {} { FindsOnlyRead(read, after, t, read.txs[t].job.ids); }
    ConservesByNumber(Exec(read, after), t);
  }

  lemma ConservesByNumber(s: State, t: nat)
    requires AllPendingOk(s) && CopiesKept(s, t) && t in s.txs && s.txs[t].job.Move?
    requires Members(s.txs[t].origin) == {} || Found(s, t) <= Members(s.txs[t].origin)
    ensures CanCommit(s, t) ==>
              && (Mail(Apply(s, Commit(t)), s.txs[t].box) == Mail(s, s.txs[t].box) <==>
                  Found(s, t) == Members(s.txs[t].origin))
              && (Mail(Apply(s, Commit(t)), s.txs[t].box) == Mail(s, s.txs[t].box) <==>
                  |Found(s, t)| == |s.txs[t].origin|)
  {
    hide Mail, CanCommit, Found;
    if CanCommit(s, t) {
      assert PendingOk(s, s.txs[t]);
      MoveConserves(s, t);
      MembersSize(s.txs[t].origin);
      SameNumberSameRows(Found(s, t), Members(s.txs[t].origin));
    }
  }

  lemma SameNumberSameRows(found: set<nat>, read: set<nat>)
    requires read == {} || found <= read
    ensures found == read <==> |found| == |read|
  {
    if found < read { FewerIsLess(found, read); }
  }

  // ---------------------------------------------------------------- mail can be lost, and can be doubled

  const A := Key(0, "A")
  const B := Key(0, "B")
  const WANTED := Move("A", INBOX, {1})

  function Letter(): Payload { Payload("letter", "", [], false, 0, false) }

  /** One mailbox with one message, in folder `name`, which has uidvalidity 3. */
  function Desk(name: string): State {
    State({0}, map[Key(0, INBOX) := 1, Key(0, JUNK) := 2, Key(0, name) := 3], map[1 := Row(0, 0, name, Letter())],
          Last(1), Last(3), 1, map[])
  }

  /** The same, with the MOVE open. */
  function Moving(name: string, origin: seq<nat>, uids: seq<nat>): State {
    var s := Desk(name);
    s.(uidSeq := Last(1 + |uids|),
       txs := map[7 := Tx(0, WANTED, if origin == [] then [] else [Letter()], origin, uids)])
  }

  lemma DeskValid()
    ensures Valid(Desk("A"))
  {
    var s := Desk("A");
    assert FoldersOk(s) && InboxesOk(s);
  }

  lemma MoveOpens(name: string)
    requires name == "A" || name == "B"
    ensures Apply(Desk(name), Lock(7, 0, WANTED)) == Moving(name, [], [])
  {
  }

  lemma MoveReads(name: string)
    requires name == "A" || name == "B"
    ensures Apply(Moving(name, [], []), Capture(7)) == Moving(name, if name == "A" then [1] else [], [])
  {
    var s := Moving(name, [], []);
    var us: seq<nat> := if name == "A" then [1] else [];
    assert Picked(s, A, {1}) == Members(us);
    SameMembersSameOrder(Sorted(Picked(s, A, {1})), us);
    assert name == "A" ==> Copies(s, us) == [Letter()];
  }

  lemma DeskRenamed(s: State, from: string, to: string)
    requires (from == "A" && to == "B") || (from == "B" && to == "A")
    requires s.folders == Desk(from).folders && s.rows == Desk(from).rows
    ensures Apply(s, RenameFolder(Key(0, from), to)) == s.(folders := Desk(to).folders, rows := Desk(to).rows)
  {
    assert s.folders - {Key(0, from)} == map[Key(0, INBOX) := 1, Key(0, JUNK) := 2];
    assert Refolder(s.rows, Key(0, from), to) == Desk(to).rows;
  }

  /** The name is away when the MOVE reads, and back when it deletes. */
  function Losing(): seq<Step> {
    [RenameFolder(A, "B"), Lock(7, 0, WANTED), Capture(7), RenameFolder(B, "A")]
  }

  lemma LosingRuns()
    ensures Exec(Desk("A"), Losing()) == Moving("A", [], [])
  {
    DeskRenamed(Desk("A"), "A", "B");
    MoveOpens("B");
    MoveReads("B");
    DeskRenamed(Moving("B", [], []), "B", "A");
    ExecFour(Desk("A"), Losing()[0], Losing()[1], Losing()[2], Losing()[3]);
  }

  /** A MOVE that copies nothing, deletes the only message, and succeeds: the message is lost. */
  lemma {:induction false} MoveLosesMail()
    ensures var s, r := Desk("A"), Exec(Desk("A"), Losing());
            && Valid(s) && s.rows.Keys == {1} && r.rows == s.rows && 7 in r.txs && CanCommit(r, 7)
            && Apply(r, Commit(7)).rows == map[]
  {
    hide Exec, Valid;
    DeskValid();
    LosingRuns();
    var r := Moving("A", [], []);
    assert Found(r, 7) == {1} && Without(r.rows, {1}) == map[];
  }

  /** The name goes away between the read and the DELETE. */
  function Doubling(): seq<Step> {
    [Lock(7, 0, WANTED), Capture(7), RenameFolder(A, "B"), Allocate(7)]
  }

  lemma MoveDraws()
    ensures Apply(Moving("B", [1], []), Allocate(7)) == Moving("B", [1], [2])
  {
    var s := Moving("B", [1], []);
    assert s.txs[7].uids + [2] == [2];
    assert Allocated(s, 7).txs == Moving("B", [1], [2]).txs;
  }

  lemma DoublingRuns()
    ensures Exec(Desk("A"), Doubling()) == Moving("B", [1], [2])
  {
    MoveOpens("A");
    MoveReads("A");
    DeskRenamed(Moving("A", [1], []), "A", "B");
    MoveDraws();
    ExecFour(Desk("A"), Doubling()[0], Doubling()[1], Doubling()[2], Doubling()[3]);
  }

  /** A MOVE that copies the only message, deletes nothing, and succeeds: the message is doubled. */
  lemma {:induction false} MoveDoublesMail()
    ensures var s, r := Desk("A"), Exec(Desk("A"), Doubling());
            && Valid(s) && s.rows.Keys == {1} && r.rows.Keys == {1} && 7 in r.txs && CanCommit(r, 7)
            && var done := Apply(r, Commit(7)).rows;
               && done.Keys == {1, 2} && done[1].Home() == B && done[2].Home() == Key(0, INBOX)
               && done[1].payload.source == done[2].payload.source
  {
    hide Exec, Valid;
    DeskValid();
    DoublingRuns();
    var r := Moving("B", [1], [2]);
    assert Found(r, 7) == {} && Without(r.rows, {}) == r.rows;
    InsertRows(r.rows, [2], [Letter()], 0, INBOX, 1);
    assert Apply(r, Commit(7)).rows == Insert(r.rows, [2], [Letter()], 0, INBOX, 1);
  }

  /** Where the rows are afterwards. */
  lemma MoveListings(s: State, t: nat)
    requires t in s.txs && PendingOk(s, s.txs[t]) && s.txs[t].job.Move? && CanCommit(s, t)
    ensures var tx, r := s.txs[t], Committed(s, t);
            var source, dest := Key(tx.box, tx.job.source), Key(tx.box, tx.job.dest);
            && Listing(r, source) == Restrict(Listing(s, source), UidsIn(s, source) - tx.job.ids)
            && Listing(r, dest) == Listing(s, dest) + tx.uids
            && (forall key | key != source && key != dest :: Listing(r, key) == Listing(s, key))
  {
    var tx := s.txs[t];
    CommitMoves(s, t);
    MovedListings(s, Committed(s, t), tx, Picked(s, Key(tx.box, tx.job.source), tx.job.ids));
  }

  /** What the arriving rows hold. */
  lemma MoveCopies(s: State, t: nat)
    requires t in s.txs && PendingOk(s, s.txs[t]) && s.txs[t].job.Move? && CanCommit(s, t)
    ensures var tx, r := s.txs[t], Committed(s, t);
            forall i | 0 <= i < |tx.uids| :: tx.uids[i] in r.rows && r.rows[tx.uids[i]].payload == tx.wanted[i]
  {
    CommitMoves(s, t);
  }

  /**
   Through any interleaving, each arriving row has all that the row it was copied from had when the MOVE read it, but
   counts as no delivery; and what was read are the named messages the source then had, in their order.
   */
  lemma {:induction false} MoveCarries(s: State, before: seq<Step>, after: seq<Step>, t: nat)
    requires AboutToRead(s, before, t) && forall e | e in after :: BySomeone(e, t)
    ensures var mid, last := Exec(s, before), Exec(s, before + [Capture(t)] + after);
            && t in last.txs && IsAscending(last.txs[t].origin)
            && (forall u :: u in last.txs[t].origin <==>
                  u in mid.rows && u in mid.txs[t].job.ids && mid.rows[u].box == mid.txs[t].box &&
                  mid.rows[u].folder == mid.txs[t].job.source)
            && (CanCommit(last, t) ==>
                  Carries(mid.rows, last.txs[t].origin, Apply(last, Commit(t)).rows, last.txs[t].uids, mid.txs[t].box,
                          mid.txs[t].job.dest))
  {
    hide Exec, Captured, CopiesKept, Found, Valid, Carries, CanCommit;
    ReadsAll(s, before, t);
    var mid, read := Exec(s, before), Exec(s, before + [Capture(t)]);
    ExecConcat(s, before + [Capture(t)], after);
    ExecLast(s, before, Capture(t));
    OpenRun(read, after, t);
    RunKeeps(read, after);
    CaptureReads(mid, t);
    CommitWrites(Exec(read, after), mid, t);
  }

  /** Row by row: the same message, message id, flags, read mark and date, in `folder`. */
  ghost predicate Carries(rows: map<nat, Row>, from: seq<nat>, more: map<nat, Row>, to: seq<nat>, box: Box,
        folder: string)
  {
    && |to| == |from|
    && forall i | 0 <= i < |from| ::
         && from[i] in rows && to[i] in more && more[to[i]].box == box && more[to[i]].folder == folder
         && var was := rows[from[i]].payload;
            more[to[i]].payload == Payload(was.source, was.messageId, was.flags, was.seen, was.received, false)
  }

  /** What a MOVE has read. */
  ghost predicate HasCopies(s: State, tx: Tx) {
    |tx.wanted| == |tx.origin| && forall i | 0 <= i < |tx.origin| ::
      tx.origin[i] in s.rows && tx.wanted[i] == s.rows[tx.origin[i]].payload.(smtp := false)
  }

  lemma CaptureReads(s: State, t: nat)
    requires t in s.txs && s.txs[t].job.Move? && s.txs[t].uids == []
    ensures var tx := Apply(s, Capture(t)).txs[t];
            && HasCopies(s, tx) && tx.box == s.txs[t].box && tx.job == s.txs[t].job && IsAscending(tx.origin)
            && forall u :: u in tx.origin <==> u in Picked(s, Key(tx.box, tx.job.source), tx.job.ids)
  {
    var us := Sorted(Picked(s, Key(s.txs[t].box, s.txs[t].job.source), s.txs[t].job.ids));
    assert forall i | 0 <= i < |us| :: us[i] in us;
  }

  lemma CommitWrites(s: State, mid: State, t: nat)
    requires AllPendingOk(s) && t in s.txs && s.txs[t].job.Move? && HasCopies(mid, s.txs[t])
    ensures CanCommit(s, t) ==>
              Carries(mid.rows, s.txs[t].origin, Apply(s, Commit(t)).rows, s.txs[t].uids, s.txs[t].box,
                      s.txs[t].job.dest)
  {
    if CanCommit(s, t) {
      assert PendingOk(s, s.txs[t]);
      MoveExchanges(s, t);
    }
  }

  lemma MovedSets(s: State, r: State, tx: Tx, gone: set<nat>, key: Key)
    requires MovedBy(s, r, tx, gone) && tx.job.source != tx.job.dest
    ensures UidsIn(r, key) == if key == Key(tx.box, tx.job.source) then UidsIn(s, key) - tx.job.ids
                              else if key == Key(tx.box, tx.job.dest) then UidsIn(s, key) + Members(tx.uids)
                              else UidsIn(s, key)
  {
  }

  lemma MovedListings(s: State, r: State, tx: Tx, gone: set<nat>)
    requires MovedBy(s, r, tx, gone) && tx.job.source != tx.job.dest
    ensures Listing(r, Key(tx.box, tx.job.source)) ==
              Restrict(Listing(s, Key(tx.box, tx.job.source)), UidsIn(s, Key(tx.box, tx.job.source)) - tx.job.ids)
    ensures Listing(r, Key(tx.box, tx.job.dest)) == Listing(s, Key(tx.box, tx.job.dest)) + tx.uids
    ensures forall key | key != Key(tx.box, tx.job.source) && key != Key(tx.box, tx.job.dest) ::
              Listing(r, key) == Listing(s, key)
  {
    var source, dest := Key(tx.box, tx.job.source), Key(tx.box, tx.job.dest);
    MovedSets(s, r, tx, gone, source);
    ListingShrinks(s, r, source, tx.job.ids);
    MovedSets(s, r, tx, gone, dest);
    ListingGrows(s, r, dest, tx.uids);
    forall key | key != source && key != dest ensures Listing(r, key) == Listing(s, key) {
      MovedSets(s, r, tx, gone, key);
    }
  }

  lemma ListingShrinks(s: State, r: State, key: Key, ids: set<nat>)
    requires UidsIn(r, key) == UidsIn(s, key) - ids
    ensures Listing(r, key) == Restrict(Listing(s, key), UidsIn(s, key) - ids)
  {
    RestrictAscending(Listing(s, key), UidsIn(s, key) - ids);
    SameMembersSameOrder(Listing(r, key), Restrict(Listing(s, key), UidsIn(s, key) - ids));
  }

  lemma ListingGrows(s: State, r: State, key: Key, uids: seq<nat>)
    requires UidsIn(r, key) == UidsIn(s, key) + Members(uids) && IsAscending(uids)
    requires forall u, v | u in uids && v in UidsIn(s, key) :: v < u
    ensures Listing(r, key) == Listing(s, key) + uids
  {
    ConcatAscending(Listing(s, key), uids);
    SameMembersSameOrder(Listing(r, key), Listing(s, key) + uids);
  }

  lemma RelocateRow(s: State, t: nat)
    requires t in s.txs && PendingOk(s, s.txs[t]) && s.txs[t].job.Relocate? && CanCommit(s, t)
    ensures var tx, r := s.txs[t], Committed(s, t);
            var u := UidOf(s, tx.box, tx.job.id);
            if s.rows[u].folder == tx.job.folder then r.rows == s.rows
            else
              && |tx.uids| == 1 && tx.uids[0] !in s.rows
              && r.rows == Without(s.rows, {u})[tx.uids[0] := s.rows[u].(folder := tx.job.folder)]
              && forall v | v in s.rows && s.rows[v].box == tx.box :: v < tx.uids[0]
  {
    if |s.txs[t].uids| == 1 { assert s.txs[t].uids[0] in s.txs[t].uids; }
  }

  /** The HTTP move loses nothing either: one row, the same mail, last in its new folder unless it was there already. */
  lemma RelocateConserves(s: State, t: nat)
    requires t in s.txs && PendingOk(s, s.txs[t]) && s.txs[t].job.Relocate? && CanCommit(s, t)
    ensures var tx, r := s.txs[t], Committed(s, t);
            var u := UidOf(s, tx.box, tx.job.id);
            && Mail(r, tx.box) == Mail(s, tx.box)
            && Listing(r, Key(tx.box, tx.job.folder)) ==
                 Listing(s, Key(tx.box, tx.job.folder)) + (if s.rows[u].folder == tx.job.folder then [] else tx.uids)
            && u in s.rows && s.rows[u].box == tx.box && s.rows[u].id == tx.job.id
            && var moved := Row(tx.job.id, tx.box, tx.job.folder, s.rows[u].payload);
               if s.rows[u].folder == tx.job.folder then r.rows == s.rows
               else |tx.uids| == 1 && r.rows == (s.rows - {u})[tx.uids[0] := moved]
  {
    var tx, r := s.txs[t], Committed(s, t);
    var u := UidOf(s, tx.box, tx.job.id);
    RelocateRow(s, t);
    if s.rows[u].folder == tx.job.folder {
      assert UidsIn(r, Key(tx.box, tx.job.folder)) == UidsIn(s, Key(tx.box, tx.job.folder));
    } else {
      RelocatedListing(s, r, tx.box, tx.job.folder, u, tx.uids[0]);
      assert tx.uids == [tx.uids[0]];
    }
  }

  lemma RelocatedListing(s: State, r: State, box: Box, folder: string, u: nat, v: nat)
    requires u in s.rows && s.rows[u].box == box && s.rows[u].folder != folder && v !in s.rows
    requires r.rows == Without(s.rows, {u})[v := s.rows[u].(folder := folder)]
    requires forall w | w in s.rows && s.rows[w].box == box :: w < v
    ensures Mail(r, box) == Mail(s, box)
    ensures Listing(r, Key(box, folder)) == Listing(s, Key(box, folder)) + [v]
  {
    RelocatedContents(s.rows, r.rows, UidsOf(s, box), u, v);
    assert UidsOf(r, box) == (UidsOf(s, box) - {u}) + {v};
    assert UidsIn(r, Key(box, folder)) == UidsIn(s, Key(box, folder)) + Members([v]);
    ListingGrows(s, r, Key(box, folder), [v]);
  }

  lemma RelocatedContents(rows: map<nat, Row>, more: map<nat, Row>, all: set<nat>, u: nat, v: nat)
    requires u in all && all <= rows.Keys && v !in rows && v in more
    requires forall w | w in all && w != u :: w in more && more[w] == rows[w]
    requires more[v].payload.source == rows[u].payload.source
    ensures Contents(more, (all - {u}) + {v}) == Contents(rows, all)
  {
    ContentsOne(rows, all, u);
    ContentsSame(rows, more, all - {u});
    ContentsOne(more, (all - {u}) + {v}, v);
    assert (all - {u}) + {v} - {v} == all - {u};
  }
}
