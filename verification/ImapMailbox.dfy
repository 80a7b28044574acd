/** One connection's selected mailbox: its private snapshot, and the commands that work from it. */
module ImapMailbox {
  import opened Ascending
  import opened FolderListings
  import opened ImapSessions
  import opened MailDatabase
  import opened MailInvariant
  import opened MailMoves
  import opened MailStates
  import opened MailTraces
  import opened PollReplay
  import opened SequenceSets
  import opened Traces
  import opened Wrappers

  /** The client's connection; a write may fail. */
  class Connection {
    var sent: seq<Response>
    var room: nat

    constructor (room: nat)
      ensures sent == [] && this.room == room
    {
      sent := [];
      this.room := room;
    }

    method WriteResp(r: Response) returns (ok: bool)
      modifies this
      ensures ok <==> old(room) > 0
      ensures sent == if ok then old(sent) + [r] else old(sent)
      ensures room == if ok then old(room) - 1 else 0
    {
      ok := room > 0;
      if ok {
        sent, room := sent + [r], room - 1;
      }
    }
  }

  /** How a DELETE outside any transaction went: not at all, done but not heard of, or done. */
  datatype Deletion = Undone | Unheard | Heard

  /** What STATUS and SELECT report. */
  datatype Report = Report(listing: seq<Record>, messages: nat, unseen: nat, firstUnseen: nat, uidValidity: nat,
        uidNext: nat)

  function UnseenCount(rs: seq<Record>): nat {
    if rs == [] then 0 else UnseenCount(rs[..|rs| - 1]) + (if SEEN in rs[|rs| - 1].flags then 0 else 1)
  }

  /** As many as there are places in the list without \Seen. */
  lemma {:induction false} UnseenCountIs(rs: seq<Record>)
    ensures UnseenCount(rs) == |set i | 0 <= i < |rs| && "\\Seen" !in rs[i].flags|
  {
    UnseenPlacesCount(rs);
    assert UnseenPlaces(rs) == set i | 0 <= i < |rs| && "\\Seen" !in rs[i].flags;
  }

  function UnseenPlaces(rs: seq<Record>): set<nat> {
    set i | 0 <= i < |rs| && SEEN !in rs[i].flags
  }

  lemma {:induction false} UnseenPlacesCount(rs: seq<Record>)
    ensures UnseenCount(rs) == |UnseenPlaces(rs)|
    decreases |rs|
  {
    if rs != [] {
      var front, last := rs[..|rs| - 1], rs[|rs| - 1];
      UnseenPlacesCount(front);
      assert forall i | 0 <= i < |front| :: front[i] == rs[i];
      if SEEN in last.flags {
        assert UnseenPlaces(rs) == UnseenPlaces(front);
      } else {
        assert |rs| - 1 !in UnseenPlaces(front);
        assert UnseenPlaces(rs) == UnseenPlaces(front) + {|rs| - 1};
      }
    }
  }

  /** Sequence number of the first unseen message, 0 if there is none. */
  predicate IsFirstUnseen(rs: seq<Record>, n: nat) {
    && n <= |rs|
    && (n > 0 ==> SEEN !in rs[n - 1].flags)
    && forall i | 0 <= i < |rs| && SEEN !in rs[i].flags :: 0 < n <= i + 1
  }

  ghost function UnseenIn(rs: seq<Record>): set<nat> {
    set r | r in rs && SEEN !in r.flags :: r.uid
  }

  lemma UnseenAt(rs: seq<Record>, i: nat)
    requires Ordered(rs) && i < |rs|
    ensures rs[i].uid in UnseenIn(rs) <==> SEEN !in rs[i].flags
  {
    if rs[i].uid in UnseenIn(rs) {
      var r :| r in rs && SEEN !in r.flags && r.uid == rs[i].uid;
      var j :| 0 <= j < |rs| && rs[j] == r;
      SameUidSameRecord(rs, i, j);
    }
  }

  lemma {:induction false} RestrictNone(us: seq<nat>)
    ensures Restrict(us, {}) == []
  {
    if us != [] { RestrictNone(us[1..]); }
  }

  lemma RestrictAll(ranges: seq<Range>, byUid: bool, rows: seq<Record>, keep: set<nat>)
    ensures [] + Restrict(TargetsFrom(ranges, byUid, rows, 0), keep) == Restrict(Targets(ranges, byUid, rows), keep)
    ensures Restrict(TargetsFrom(ranges, byUid, rows, |rows|), keep) == []
  {
  }

  lemma RestrictFrom(ranges: seq<Range>, byUid: bool, rows: seq<Record>, i: nat, keep: set<nat>)
    requires i < |rows|
    ensures Restrict(TargetsFrom(ranges, byUid, rows, i), keep) ==
            (if Selects(ranges, byUid, i, rows) && rows[i].uid in keep then [rows[i].uid] else [])
            + Restrict(TargetsFrom(ranges, byUid, rows, i + 1), keep)
  {
    var rest := TargetsFrom(ranges, byUid, rows, i + 1);
    if Selects(ranges, byUid, i, rows) {
      assert ([rows[i].uid] + rest)[1..] == rest;
    } else {
      assert TargetsFrom(ranges, byUid, rows, i) == [] + rest == rest;
    }
  }

  /** A message that is marked \Seen keeps its other flags. */
  lemma SeenStamps(s: State, r: State, key: Key, uids: seq<nat>)
    requires Restamped(s, r, key, uids, AddSeen)
    ensures forall u | u in s.rows ::
              var p := s.rows[u].payload;
              r.rows[u] == if u !in uids then s.rows[u]
                           else s.rows[u].(payload := p.(flags := Storable(p.flags), seen := true))
  {
    forall u | u in s.rows
      ensures Stamped(s.rows[u], AddSeen) ==
              s.rows[u].(payload := s.rows[u].payload.(flags := Storable(s.rows[u].payload.flags), seen := true))
    {
      var p := s.rows[u].payload;
      StorableConcat(FlagsOf(p), [SEEN]);
      assert [SEEN][..0] == [];
      StorableConcat(p.flags, if p.seen then [SEEN] else []);
    }
  }

  function AddSeen(flags: seq<string>): seq<string> { flags + [SEEN] }

  /** Own steps that set flags, one per UID, in order. */
  predicate FlagsEach(steps: seq<Step>, key: Key, uids: seq<nat>) {
    && |steps| == |uids|
    && (forall i | 0 <= i < |steps| :: steps[i].SetFlags? && steps[i].key == key && steps[i].uid == uids[i])
  }

  lemma FlagsEachLast(steps: seq<Step>, key: Key, uids: seq<nat>, step: Step)
    requires FlagsEach(steps, key, uids) && step.SetFlags? && step.key == key
    ensures FlagsEach(steps + [step], key, uids + [step.uid])
  {
  }

  lemma {:induction false} StayingConcat(a: seq<Record>, b: seq<Record>)
    ensures Staying(a + b) == Staying(a) + Staying(b)
  {
    if a == [] {
      assert a + b == b;
    } else {
      assert (a + b)[1..] == a[1..] + b;
      StayingConcat(a[1..], b);
    }
  }

  lemma SplitAt(rs: seq<Record>, i: nat)
    requires i < |rs|
    ensures Staying(rs[..i + 1]) == Staying(rs[..i]) + (if MarkedDeleted(rs[i]) then [] else [rs[i]])
    ensures Doomed(rs[..i + 1]) == Doomed(rs[..i]) + (if MarkedDeleted(rs[i]) then {rs[i].uid} else {})
  {
    assert rs[..i + 1] == rs[..i] + [rs[i]];
    StayingConcat(rs[..i], [rs[i]]);
    assert [rs[i]][1..] == [];
    DoomedLast(rs[..i], rs[i]);
  }

  /** `update` was run once on each of `uids`, and nothing else happened. */
  ghost predicate Restamped(s: State, r: State, key: Key, uids: seq<nat>, update: seq<string> -> seq<string>) {
    && r == s.(rows := r.rows) && r.rows.Keys == s.rows.Keys
    && (forall u | u in uids :: u in UidsIn(s, key))
    && forall u | u in s.rows :: r.rows[u] == if u in uids then Stamped(s.rows[u], update) else s.rows[u]
  }

  ghost function Stamped(row: Row, update: seq<string> -> seq<string>): Row {
    var told := update(FlagsOf(row.payload));
    row.(payload := row.payload.(flags := Storable(told), seen := SEEN in told))
  }

  lemma RestampedNone(s: State, key: Key, update: seq<string> -> seq<string>)
    ensures Restamped(s, s, key, [], update)
  {
  }

  lemma RestampedNext(s: State, mid: State, key: Key, uids: seq<nat>, step: Step, update: seq<string> -> seq<string>)
    requires Restamped(s, mid, key, uids, update)
    requires step.SetFlags? && step.key == key && step.uid !in uids && Updates(mid, step, update)
    ensures Restamped(s, Apply(mid, step), key, uids + [step.uid], update)
  {
    var r, more := Apply(mid, step), uids + [step.uid];
    assert step.uid in UidsIn(s, key);
    forall u | u in s.rows ensures r.rows[u] == if u in more then Stamped(s.rows[u], update) else s.rows[u] {
      assert u in more <==> u in uids || u == step.uid;
    }
  }

  lemma RestampedFolder(s: State, r: State, key: Key, uids: seq<nat>, update: seq<string> -> seq<string>)
    requires Restamped(s, r, key, uids, update)
    ensures UidsIn(r, key) == UidsIn(s, key)
  {
    assert forall u | u in s.rows :: r.rows[u].Home() == s.rows[u].Home();
  }

  /** UIDs of rows before `i`. */
  ghost predicate Earlier(uids: seq<nat>, rows: seq<Record>, i: nat)
    requires i <= |rows|
  {
    forall u | u in uids :: exists j :: 0 <= j < i && rows[j].uid == u
  }

  lemma EarlierNone(rows: seq<Record>)
    ensures Earlier([], rows, 0)
  {
  }

  lemma NotEarlier(uids: seq<nat>, rows: seq<Record>, i: nat)
    requires Ordered(rows) && i < |rows| && Earlier(uids, rows, i)
    ensures rows[i].uid !in uids && Earlier(uids + [rows[i].uid], rows, i + 1) && Earlier(uids, rows, i + 1)
  {
    assert forall j | 0 <= j < |rows| :: Uids(rows)[j] == rows[j].uid;
    forall u | u in uids + [rows[i].uid] ensures exists j :: 0 <= j < i + 1 && rows[j].uid == u {
      if u in uids {
        var j :| 0 <= j < i && rows[j].uid == u;
      } else {
        assert rows[i].uid == u;
      }
    }
  }

  /** A fetched message is reported under the number the session gives it. */
  predicate Numbers(f: (nat, nat), rows: seq<Record>) {
    1 <= f.0 <= |rows| && rows[f.0 - 1].uid == f.1
  }

  function Seconds(ps: seq<(nat, nat)>): seq<nat> {
    seq(|ps|, i requires 0 <= i < |ps| => ps[i].1)
  }

  predicate AllNumbered(fs: seq<(nat, nat)>, rows: seq<Record>) {
    forall k | 0 <= k < |fs| :: Numbers(fs[k], rows)
  }

  /** Of the rows before `i`, those selected were fetched, under their numbers. */
  predicate FetchedTo(fs: seq<(nat, nat)>, rows: seq<Record>, byUid: bool, ranges: seq<Range>, i: nat)
    requires i <= |rows|
  {
    AllNumbered(fs, rows) && Seconds(fs) + TargetsFrom(ranges, byUid, rows, i) == Targets(ranges, byUid, rows)
  }

  lemma FetchedNone(rows: seq<Record>, byUid: bool, ranges: seq<Range>)
    ensures FetchedTo([], rows, byUid, ranges, 0)
  {
  }

  lemma FetchedNext(fs: seq<(nat, nat)>, rows: seq<Record>, byUid: bool, ranges: seq<Range>, i: nat)
    requires i < |rows| && FetchedTo(fs, rows, byUid, ranges, i)
    ensures var more := if Selects(ranges, byUid, i, rows) then fs + [(i + 1, rows[i].uid)] else fs;
            FetchedTo(more, rows, byUid, ranges, i + 1)
  {
    hide Selects, Targets, TargetsFrom, Seconds, AllNumbered;
    SecondsMore(fs, (i + 1, rows[i].uid), rows);
    TargetsMore(Seconds(fs), rows, byUid, ranges, i);
  }

  lemma TargetsMore(told: seq<nat>, rows: seq<Record>, byUid: bool, ranges: seq<Range>, i: nat)
    requires i < |rows|
    ensures told + TargetsFrom(ranges, byUid, rows, i) ==
            (if Selects(ranges, byUid, i, rows) then told + [rows[i].uid] else told)
            + TargetsFrom(ranges, byUid, rows, i + 1)
  {
    hide Selects;
    var rest := TargetsFrom(ranges, byUid, rows, i + 1);
    assert told + ([rows[i].uid] + rest) == told + [rows[i].uid] + rest;
  }

  lemma SecondsMore(fs: seq<(nat, nat)>, f: (nat, nat), rows: seq<Record>)
    ensures Seconds(fs + [f]) == Seconds(fs) + [f.1]
    ensures AllNumbered(fs, rows) && Numbers(f, rows) ==> AllNumbered(fs + [f], rows)
  {
  }

  lemma FetchedAll(fs: seq<(nat, nat)>, rows: seq<Record>, byUid: bool, ranges: seq<Range>, i: nat)
    requires i <= |rows| && FetchedTo(fs, rows, byUid, ranges, i)
    ensures AllNumbered(fs, rows) && (i == |rows| ==> Seconds(fs) == Targets(ranges, byUid, rows))
  {
  }

  lemma SelectedIsTarget(rows: seq<Record>, byUid: bool, ranges: seq<Range>, i: nat)
    requires i < |rows| && Selects(ranges, byUid, i, rows)
    ensures rows[i].uid in Targets(ranges, byUid, rows)
  {
    TargetsFromMembers(ranges, byUid, rows, 0, rows[i].uid);
  }

  lemma DoomedLast(rs: seq<Record>, r: Record)
    ensures Doomed(rs + [r]) == Doomed(rs) + (if MarkedDeleted(r) then {r.uid} else {})
  {
  }

  lemma SameUidSameRecord(rs: seq<Record>, i: nat, j: nat)
    requires Ordered(rs) && i < |rs| && j < |rs| && rs[i].uid == rs[j].uid
    ensures i == j
  {
    assert Uids(rs)[i] == rs[i].uid && Uids(rs)[j] == rs[j].uid;
  }

  lemma RefreshedAt(s: State, key: Key, snapshot: seq<Record>, u: nat)
    requires u in UidsIn(s, key)
    ensures u in Doomed(Refreshed(s, key, snapshot)) <==>
            u in Uids(snapshot) && DELETED in s.rows[u].payload.flags
  {
    var rs := Refreshed(s, key, snapshot);
    if u in Uids(snapshot) {
      var i :| 0 <= i < |rs| && Uids(rs)[i] == u;
      assert rs[i] == Record(u, FlagsOf(s.rows[u].payload)) && rs[i] in rs;
    }
    if u in Doomed(rs) {
      var i :| 0 <= i < |rs| && rs[i].uid == u && MarkedDeleted(rs[i]);
      assert Uids(rs)[i] == u;
    }
  }

  lemma RecordsAt(s: State, key: Key, u: nat)
    requires u in UidsIn(s, key)
    ensures u in Doomed(RecordsOf(s, key)) <==> DELETED in s.rows[u].payload.flags
  {
    hide RecordsOf;
    RecordsAre(s, key);
    var now := Record(u, FlagsOf(s.rows[u].payload));
    assert now in RecordsOf(s, key);
  }

  /** Whatever other sessions committed, a command means the messages of the session's own snapshot. */
  lemma CommandsMeanOwnMessages(s: State, key: Key, snapshot: seq<Record>, byUid: bool, ranges: seq<Range>)
    ensures Targets(ranges, byUid, Refreshed(s, key, snapshot)) == Targets(ranges, byUid, snapshot)
  {
    TargetsFollowUids(ranges, byUid, Refreshed(s, key, snapshot), snapshot, 0);
  }

  /** EXPUNGE names only messages of the snapshot, and splits it into those and the rest. */
  lemma ExpungeSplitsSnapshot(s: State, key: Key, snapshot: seq<Record>)
    requires Ordered(snapshot)
    ensures var rs := Refreshed(s, key, snapshot);
            forall u :: (u in Uids(snapshot) <==> u in Doomed(rs) || u in Uids(Staying(rs)))
                        && !(u in Doomed(rs) && u in Uids(Staying(rs)))
  {
    var rs := Refreshed(s, key, snapshot);
    assert Agrees(rs, View(rs));
    StayingIs(rs, View(rs));
    forall u ensures u in Uids(snapshot) <==> u in Doomed(rs) || u in Uids(Staying(rs)) {
      StayingAscends(rs);
      if u in Uids(snapshot) { StayingOrDoomed(rs, u); }
      if u in Doomed(rs) {
        var r :| r in rs && r.uid == u;
        var i :| 0 <= i < |rs| && rs[i] == r;
        assert Uids(rs)[i] == u;
      }
    }
    forall u | u in Doomed(rs) ensures u !in Uids(Staying(rs)) {
      var i :| 0 <= i < |rs| && rs[i].uid == u && MarkedDeleted(rs[i]);
      if j :| 0 <= j < |Staying(rs)| && Uids(Staying(rs))[j] == u {
        assert Staying(rs)[j] in Staying(rs);
        var k :| 0 <= k < |rs| && rs[k] == Staying(rs)[j];
        SameUidSameRecord(rs, i, k);
      }
    }
  }

  /** A command's messages are among the session's. */
  lemma TargetsWithin(ranges: seq<Range>, byUid: bool, rows: seq<Record>)
    ensures Members(Targets(ranges, byUid, rows)) <= Members(Uids(rows))
  {
    forall u | u in Targets(ranges, byUid, rows) ensures u in Uids(rows) {
      TargetsFromMembers(ranges, byUid, rows, 0, u);
      var j :| 0 <= j < |rows| && rows[j].uid == u;
      assert Uids(rows)[j] == u;
    }
  }

  /**
   MOVE in a session, after any calls of it and whatever others did before, between and during its statements: it
   conserves mail if and only if its DELETE finds exactly what its INSERT copied, so if and only if their numbers agree.
   */
  lemma {:induction false} SessionMoveConserves(db: State, key: Key, es: seq<Event>, trace: seq<Act<Step>>, read: nat,
        t: nat,
        byUid: bool, ranges: seq<Range>, dest: string)
    requires Valid(db)
    requires var s := Play(Select(db, key), es);
             var ids := Members(Targets(ranges, byUid, Refreshed(s.db, key, s.snapshot)));
             MoveTrace(s.db, trace, read, t, key.box, Move(key.name, dest, ids))
    ensures var s := Play(Select(db, key), es);
            var last, r := Exec(s.db, Steps(trace[..|trace| - 1])), Exec(s.db, Steps(trace));
            && t in last.txs && last.txs[t].job.Move?
            && (MailMoves.Mail(r, key.box) == MailMoves.Mail(last, key.box) <==>
                Found(last, t) == Members(last.txs[t].origin))
            && (MailMoves.Mail(r, key.box) == MailMoves.Mail(last, key.box) <==>
                |Found(last, t)| == |last.txs[t].origin|)
  {
    hide Exec, Play, Found, Together, MoveTrace, Valid;
    var s := Play(Select(db, key), es);
    var ids := Members(Targets(ranges, byUid, Refreshed(s.db, key, s.snapshot)));
    SessionTogether(db, key, es);
    TargetsWithin(ranges, byUid, Refreshed(s.db, key, s.snapshot));
    FewerTogether(s.db, Members(Uids(s.snapshot)), ids);
    MoveTraceConserves(s.db, trace, read, t, key.box, Move(key.name, dest, ids));
  }

  lemma {:induction false} FewPicked(s: State, key: Key, ids: seq<nat>)
    ensures |Picked(s, key, Members(ids))| <= |ids|
  {
    MembersFew(ids);
    Fewer(Picked(s, key, Members(ids)), Members(ids));
  }

  lemma {:induction false} MembersFew(us: seq<nat>)
    ensures |Members(us)| <= |us|
  {
    if us != [] {
      MembersFew(us[1..]);
      assert us == [us[0]] + us[1..];
      assert Members(us) == Members(us[1..]) + {us[0]};
    }
  }

  lemma Fewer(a: set<nat>, b: set<nat>)
    requires a <= b
    ensures |a| <= |b|
  {
    assert b == a + (b - a);
  }

  /** One record of the snapshot: an EXPUNGE response, or a survivor. */
  lemma ExpungesNext(held: seq<Record>, current: set<nat>, i: nat, removed: nat)
    requires removed <= i < |held|
    ensures Expunges(held, current, i, removed) ==
            if held[i].uid !in current then [ExpungeAt(i + 1 - removed)] + Expunges(held, current, i + 1, removed + 1)
            else Expunges(held, current, i + 1, removed)
    ensures |Survivors(held[i..], current)| ==
            |Survivors(held[i + 1..], current)| + (if held[i].uid in current then 1 else 0)
  {
    assert held[i..][0] == held[i] && held[i..][1..] == held[i + 1..];
  }

  lemma ExpungesEnd(held: seq<Record>, current: set<nat>)
    ensures forall removed: nat | removed <= |held| :: Expunges(held, current, |held|, removed) == []
    ensures Survivors(held[|held|..], current) == []
  {
  }

  lemma FetchesNext(held: seq<Record>, rows: seq<Record>, i: nat)
    requires i < |rows|
    ensures Fetches(held, rows, i) ==
            (if rows[i] in held then [] else [Fetch(i + 1, rows[i].uid, rows[i].flags)]) + Fetches(held, rows, i + 1)
  {
    assert [] + Fetches(held, rows, i + 1) == Fetches(held, rows, i + 1);
  }

  lemma FetchesEnd(held: seq<Record>, rows: seq<Record>)
    ensures Fetches(held, rows, |rows|) == []
  {
  }

  lemma PresentUids(rows: seq<Record>)
    ensures (set r | r in rows :: r.uid) == Members(Uids(rows))
  {
    forall r | r in rows ensures r.uid in Uids(rows) {
      var i :| 0 <= i < |rows| && rows[i] == r;
      assert Uids(rows)[i] == r.uid;
    }
  }

  lemma Shorter<T>(part: seq<T>, whole: seq<T>, rest: seq<T>)
    requires part <= whole
    ensures part <= whole + rest
  {
  }

  class Mailbox {
    const db: Database
    const box: Box
    const name: string
    var readOnly: bool
    var conn: Connection?
    var snapshot: Option<seq<Record>>

    constructor (db: Database, box: Box, name: string)
      ensures this.db == db && this.box == box && this.name == name
      ensures !readOnly && conn == null && snapshot == None
    {
      this.db, this.box, this.name := db, box, name;
      readOnly, conn, snapshot := false, null, None;
    }

    function Folder(): Key { Key(box, name) }

    function Held(): seq<Record>
      reads this
    {
      if snapshot.Some? then snapshot.value else []
    }

    ghost predicate WellFormed()
      reads this
    {
      Ordered(Held())
    }

    /** The session is this connection's, and stands where the tables and the snapshot stand. */
    ghost predicate Stands(s: ImapSessions.Session)
      reads this, db
    {
      s.key == Folder() && s.db == db.Model() && snapshot == Some(s.snapshot)
    }

    // -------------------------------------------------------------- Poll

    /**
     Sends this connection the difference between its snapshot and the folder, then takes the folder as snapshot. It
     succeeds exactly if it may run and every one of its responses can be written.
     */
    method Poll(allowed: bool) returns (ok: bool)
      requires WellFormed()
      modifies this, conn
      ensures conn == old(conn) && readOnly == old(readOnly) && WellFormed()
      ensures ok ==> allowed
      ensures allowed && conn == null ==> ok
      ensures allowed && conn != null ==>
                (ok <==> old(conn.room) >= |PollResponses(old(Held()), RecordsOf(db.Model(), Folder()))|)
      ensures ok ==> snapshot == Some(RecordsOf(db.Model(), Folder()))
      ensures ok && conn != null ==>
                conn.sent == old(conn.sent) + PollResponses(old(Held()), RecordsOf(db.Model(), Folder()))
      ensures !ok ==> snapshot == old(snapshot)
      ensures !ok && conn != null ==>
                conn.sent <= old(conn.sent) + PollResponses(old(Held()), RecordsOf(db.Model(), Folder()))
      ensures forall s | old(Stands(s)) && ok :: Stands(React(s, Polled))
    {
      if !allowed {
        return false;
      }
      var rows := db.LoadRecords(Folder());
      if conn == null {
        snapshot := Some(rows);
        return true;
      }
      ok := Announce(Held(), rows);
      if ok {
        snapshot := Some(rows);
      }
    }

    method Announce(held: seq<Record>, rows: seq<Record>) returns (ok: bool)
      requires conn != null && Ordered(held)
      modifies conn
      ensures ok <==> old(conn.room) >= |PollResponses(held, rows)|
      ensures ok ==> conn.sent == old(conn.sent) + PollResponses(held, rows)
      ensures !ok ==> conn.sent <= old(conn.sent) + PollResponses(held, rows)
    {
      ghost var before := conn.sent;
      ghost var gone := Expunges(held, Members(Uids(rows)), 0, 0);
      ghost var count, told := ExistsIfChanged(held, rows), Fetches(held, rows, 0);
      assert before + PollResponses(held, rows) == before + gone + count + told;
      var removed;
      ok, removed := SendExpunges(held, rows);
      if !ok {
        Shorter(conn.sent, before + gone, count);
        Shorter(conn.sent, before + gone + count, told);
        return;
      }
      if |rows| != |held| || removed > 0 {
        ok := conn.WriteResp(Exists(|rows|));
        if !ok {
          Shorter(conn.sent, conn.sent, count);
          Shorter(conn.sent, before + gone + count, told);
          return;
        }
      }
      assert conn.sent == before + gone + count;
      ok := SendFetches(held, rows);
    }

    method SendExpunges(held: seq<Record>, rows: seq<Record>) returns (ok: bool, removed: nat)
      requires conn != null
      modifies conn
      ensures ok <==> old(conn.room) >= |Expunges(held, Members(Uids(rows)), 0, 0)|
      ensures ok ==> conn.sent == old(conn.sent) + Expunges(held, Members(Uids(rows)), 0, 0)
      ensures conn.room + |conn.sent| == old(conn.room + |conn.sent|)
      ensures ok ==> removed + |Survivors(held, Members(Uids(rows)))| == |held|
      ensures !ok ==> conn.sent <= old(conn.sent) + Expunges(held, Members(Uids(rows)), 0, 0)
    {
      hide Expunges, Survivors, Members;
      ghost var current := Members(Uids(rows));
      ghost var before := conn.sent;
      ghost var all := Expunges(held, current, 0, 0);
      ExpungesEnd(held, current);
      var present := set r | r in rows :: r.uid;
      PresentUids(rows);
      removed := 0;
      assert held[0..] == held;
      for i := 0 to |held|
        invariant removed <= i
        invariant before + all == conn.sent + Expunges(held, current, i, removed)
        invariant conn.room + |conn.sent| == old(conn.room + |conn.sent|)
        invariant |Survivors(held[i..], current)| + (i - removed) == |Survivors(held, current)|
      {
        ExpungesNext(held, current, i, removed);
        if held[i].uid !in present {
          ok := conn.WriteResp(ExpungeAt(i + 1 - removed));
          if !ok {
            return;
          }
          removed := removed + 1;
        }
      }
      ok := true;
    }

    method SendFetches(held: seq<Record>, rows: seq<Record>) returns (ok: bool)
      requires conn != null && Ordered(held)
      modifies conn
      ensures ok <==> old(conn.room) >= |Fetches(held, rows, 0)|
      ensures ok ==> conn.sent == old(conn.sent) + Fetches(held, rows, 0)
      ensures conn.room + |conn.sent| == old(conn.room + |conn.sent|)
      ensures !ok ==> conn.sent <= old(conn.sent) + Fetches(held, rows, 0)
    {
      hide Ordered, Fetches;
      ghost var before := conn.sent;
      ghost var all := Fetches(held, rows, 0);
      FetchesEnd(held, rows);
      for i := 0 to |rows|
        invariant before + all == conn.sent + Fetches(held, rows, i)
        invariant conn.room + |conn.sent| == old(conn.room + |conn.sent|)
      {
        FetchesNext(held, rows, i);
        if exists r | r in held :: r.uid == rows[i].uid && r.flags == rows[i].flags {
          assert rows[i] in held;
        } else {
          assert rows[i] !in held;
          ok := conn.WriteResp(Fetch(i + 1, rows[i].uid, rows[i].flags));
          if !ok {
            return false;
          }
        }
      }
      ok := true;
    }

    // -------------------------------------------------------------- the session's own numbering

    /** The rows a command works on: the snapshot's messages with current flags, or the folder before any snapshot. */
    ghost function Current(s: State): seq<Record>
      reads this
    {
      if snapshot.Some? then Refreshed(s, Folder(), snapshot.value) else RecordsOf(s, Folder())
    }

    method Records(allowed: bool) returns (rs: Option<seq<Record>>)
      requires WellFormed()
      ensures rs.Some? <==> allowed
      ensures rs.Some? ==> rs.value == Current(db.Model())
      ensures rs.Some? && snapshot.Some? ==> Uids(rs.value) == Uids(snapshot.value)
      ensures rs.Some? ==> Ordered(rs.value)
    {
      if !allowed {
        return None;
      }
      var rows := db.LoadRecords(Folder());
      if snapshot.None? {
        return Some(rows);
      }
      var out := snapshot.value;
      for i := 0 to |out|
        invariant |out| == |snapshot.value|
        invariant forall j | 0 <= j < |out| :: out[j] == if j < i then Current(db.Model())[j] else snapshot.value[j]
      {
        assert out[i] == snapshot.value[i];
        var now := FindUid(rows, out[i].uid);
        if now.Some? {
          out := out[i := now.value];
        }
      }
      assert out == Current(db.Model());
      rs := Some(out);
    }

    method FindUid(rows: seq<Record>, uid: nat) returns (r: Option<Record>)
      requires rows == RecordsOf(db.Model(), Folder())
      ensures r == if uid in UidsIn(db.Model(), Folder()) then Some(Record(uid, FlagsOf(db.rows[uid].payload)))
                   else None
    {
      for i := 0 to |rows|
        invariant forall j | 0 <= j < i :: rows[j].uid != uid
      {
        assert Uids(rows)[i] == rows[i].uid;
        if rows[i].uid == uid {
          return Some(rows[i]);
        }
      }
      assert uid in UidsIn(db.Model(), Folder()) ==> uid in Uids(rows);
      r := None;
    }

    method Choose(byUid: bool, ranges: seq<Range>, rows: seq<Record>) returns (ids: seq<nat>)
      ensures ids == Targets(ranges, byUid, rows)
    {
      ids := [];
      for i := 0 to |rows|
        invariant ids + TargetsFrom(ranges, byUid, rows, i) == Targets(ranges, byUid, rows)
      {
        var hit := Selected(ranges, byUid, i, rows);
        if hit {
          ids := ids + [rows[i].uid];
        }
      }
    }

    /** A call that forgets no message takes every session along that stood here before it. */
    lemma CallStands(start: State, trace: seq<Act<Step>>)
      requires Ran(start, trace, db.Model())
      ensures forall s: ImapSessions.Session | s.key == Folder() && s.db == start && snapshot == Some(s.snapshot) ::
                Stands(Play(s, Happenings(trace)))
    {
      forall s: ImapSessions.Session | s.key == Folder() && s.db == start && snapshot == Some(s.snapshot)
        ensures Stands(Play(s, Happenings(trace)))
      {
        CallPlays(s, trace);
      }
    }

    // -------------------------------------------------------------- STORE and FETCH

    /**
     STORE: each message the client's numbering selects, in order, until one is gone. With nobody in between it goes
     through if they are all there, and then exactly those messages have the flags the client's update makes of theirs.
     */
    method UpdateMessagesFlags(allowed: bool, byUid: bool, ranges: seq<Range>, update: seq<string> -> seq<string>)
      returns (r: Reply, touched: seq<nat>, ghost trace: seq<Act<Step>>)
      requires WellFormed()
      modifies db
      ensures Ran(old(db.Model()), trace, db.Model())
      ensures FlagsEach(Owned(trace), Folder(), touched)
      ensures AllUpdate(old(db.Model()), trace, update)
      ensures touched <= Targets(ranges, byUid, old(Current(db.Model())))
      ensures r.Done? ==> touched == Targets(ranges, byUid, old(Current(db.Model())))
      ensures AllOwn(trace) && allowed &&
              (forall u | u in Targets(ranges, byUid, old(Current(db.Model()))) ::
                 u in UidsIn(old(db.Model()), Folder())) ==>
                r.Done?
      ensures AllOwn(trace) ==>
                && db.folders == old(db.folders) && db.rows.Keys == old(db.rows).Keys
                && forall u | u in db.rows ::
                     var p := old(db.rows)[u].payload;
                     var told := update(p.flags + (if p.seen then ["\\Seen"] else []));
                     db.rows[u] == if u !in touched then old(db.rows)[u] else
                                     old(db.rows)[u].(payload := p.(flags := Storable(told), seen := "\\Seen" in told))
      ensures forall s | old(Stands(s)) :: Stands(Play(s, Happenings(trace)))
    {
      ghost var start := db.Model();
      var rows := Records(allowed);
      if rows.None? {
        RanNothing(start);
        CallStands(start, []);
        return Refused, [], [];
      }
      r, touched, trace := StoreEach(rows.value, byUid, ranges, update);
      CallStands(start, trace);
    }

    method StoreEach(rows: seq<Record>, byUid: bool, ranges: seq<Range>, update: seq<string> -> seq<string>)
      returns (r: Reply, touched: seq<nat>, ghost trace: seq<Act<Step>>)
      requires Ordered(rows)
      modifies db
      ensures Ran(old(db.Model()), trace, db.Model())
      ensures FlagsEach(Owned(trace), Folder(), touched)
      ensures AllUpdate(old(db.Model()), trace, update)
      ensures touched <= Targets(ranges, byUid, rows)
      ensures r.Done? ==> touched == Targets(ranges, byUid, rows)
      ensures AllOwn(trace) ==> Restamped(old(db.Model()), db.Model(), Folder(), touched, update)
      ensures AllOwn(trace) && r.Refused? ==>
                exists u :: u in Targets(ranges, byUid, rows) && u !in UidsIn(old(db.Model()), Folder())
    {
      hide Ran, AllUpdate, Owned, Selects, Restamped, AllOwn, Ordered, Earlier, Apply;
      ghost var start := db.Model();
      touched, trace := [], [];
      RanNothing(start);
      AllUpdateNothing(start, update);
      RestampedNone(start, Folder(), update);
      EarlierNone(rows);
      for i := 0 to |rows|
        invariant Ran(start, trace, db.Model()) && FlagsEach(Owned(trace), Folder(), touched)
        invariant AllUpdate(start, trace, update)
        invariant touched + TargetsFrom(ranges, byUid, rows, i) == Targets(ranges, byUid, rows)
        invariant AllOwn(trace) ==> Restamped(start, db.Model(), Folder(), touched, update)
        invariant Earlier(touched, rows, i)
      {
        var hit := Selected(ranges, byUid, i, rows);
        NotEarlier(touched, rows, i);
        if hit {
          SelectedIsTarget(rows, byUid, ranges, i);
          r, trace := StoreOne(rows[i].uid, update, touched, start, trace);
          if r.Refused? {
            return;
          }
          touched := touched + [rows[i].uid];
        }
      }
      r := Done;
    }

    method StoreOne(uid: nat, update: seq<string> -> seq<string>, ghost touched: seq<nat>, ghost start: State,
          ghost before: seq<Act<Step>>)
      returns (r: Reply, ghost trace: seq<Act<Step>>)
      requires Ran(start, before, db.Model()) && AllUpdate(start, before, update)
      requires FlagsEach(Owned(before), Folder(), touched) && uid !in touched
      requires AllOwn(before) ==> Restamped(start, db.Model(), Folder(), touched, update)
      modifies db
      ensures Ran(start, trace, db.Model()) && AllUpdate(start, trace, update) && before <= trace
      ensures var done := if r.Done? then touched + [uid] else touched;
              && FlagsEach(Owned(trace), Folder(), done)
              && |Owned(trace)| == |Owned(before)| + |done| - |touched|
              && (AllOwn(trace) ==>
                    Restamped(start, db.Model(), Folder(), done, update) &&
                    (r.Refused? ==> uid !in UidsIn(start, Folder())))
    {
      hide Ran, AllUpdate, Owned, Restamped, AllOwn, Apply;
      ghost var step, mid := MarkRead(0), db.Model();
      r, trace, step := db.FlagsLater(Folder(), uid, update, start, before);
      AllOwnPrefix(before, trace);
      if AllOwn(trace) {
        RestampedFolder(start, mid, Folder(), touched, update);
        if r.Done? { RestampedNext(start, mid, Folder(), touched, step, update); }
      }
      if r.Done? { FlagsEachLast(Owned(before), Folder(), touched, step); }
    }

    /**
     FETCH: what it returns, and the \Seen marks it sets on the way: if asked to, and unless the folder is opened
     read-only, one on each selected message that did not have it. With nobody in between it goes through if they are
     all there.
     */
    method ListMessages(allowed: bool, byUid: bool, ranges: seq<Range>, needsRaw: bool, markSeen: bool)
      returns (r: Reply, fetched: seq<(nat, nat)>, ghost trace: seq<Act<Step>>, ghost marked: seq<nat>)
      requires WellFormed()
      modifies db
      ensures Ran(old(db.Model()), trace, db.Model())
      ensures FlagsEach(Owned(trace), Folder(), marked) && AllUpdate(old(db.Model()), trace, AddSeen)
      ensures var rows := old(Current(db.Model()));
              var unseen := set r | r in rows && "\\Seen" !in r.flags :: r.uid;
              var wanted := if markSeen && !readOnly then Restrict(Targets(ranges, byUid, rows), unseen) else [];
              marked <= wanted && (r.Done? ==> marked == wanted)
      ensures AllNumbered(fetched, old(Current(db.Model())))
      ensures r.Done? ==> Seconds(fetched) == Targets(ranges, byUid, old(Current(db.Model())))
      ensures AllOwn(trace) && allowed &&
              (forall u | u in Targets(ranges, byUid, old(Current(db.Model()))) ::
                 u in UidsIn(old(db.Model()), Folder())) ==>
                r.Done?
      ensures AllOwn(trace) ==>
                && db.folders == old(db.folders) && db.rows.Keys == old(db.rows).Keys
                && forall u | u in db.rows ::
                     var p := old(db.rows)[u].payload;
                     db.rows[u] == if u !in marked then old(db.rows)[u] else
                                     old(db.rows)[u].(payload := p.(flags := Storable(p.flags), seen := true))
      ensures forall s | old(Stands(s)) :: Stands(Play(s, Happenings(trace)))
    {
      ghost var start := db.Model();
      var rows := Records(allowed);
      if rows.None? {
        RanNothing(start);
        CallStands(start, []);
        return Refused, [], [], [];
      }
      r, fetched, trace, marked := FetchEach(rows.value, byUid, ranges, needsRaw, markSeen && !readOnly);
      CallStands(start, trace);
      if AllOwn(trace) { SeenStamps(start, db.Model(), Folder(), marked); }
    }

    method FetchEach(rows: seq<Record>, byUid: bool, ranges: seq<Range>, needsRaw: bool, marking: bool)
      returns (r: Reply, fetched: seq<(nat, nat)>, ghost trace: seq<Act<Step>>, ghost marked: seq<nat>)
      requires Ordered(rows)
      modifies db
      ensures Marked(old(db.Model()), trace, marked)
      ensures var wanted := if marking then Restrict(Targets(ranges, byUid, rows), UnseenIn(rows)) else [];
              marked <= wanted && (r.Done? ==> marked == wanted)
      ensures AllNumbered(fetched, rows)
      ensures r.Done? ==> Seconds(fetched) == Targets(ranges, byUid, rows)
      ensures AllOwn(trace) && r.Refused? ==>
                exists u :: u in Targets(ranges, byUid, rows) && u !in UidsIn(old(db.Model()), Folder())
    {
      hide FetchedTo, AllNumbered, Targets, TargetsFrom, Selects, Restrict, Seconds, Marked, Ordered, Earlier, UnseenIn;
      ghost var start, unseen := db.Model(), if marking then UnseenIn(rows) else {};
      fetched, trace, marked := [], [], [];
      MarkedNone(start);
      EarlierNone(rows);
      FetchedNone(rows, byUid, ranges);
      RestrictNone(Targets(ranges, byUid, rows));
      RestrictAll(ranges, byUid, rows, unseen);
      for i := 0 to |rows|
        invariant Marked(start, trace, marked) && FetchedTo(fetched, rows, byUid, ranges, i)
        invariant marked + Restrict(TargetsFrom(ranges, byUid, rows, i), unseen) ==
                  Restrict(Targets(ranges, byUid, rows), unseen)
        invariant Earlier(marked, rows, i)
      {
        FetchedAll(fetched, rows, byUid, ranges, i);
        NotEarlier(marked, rows, i);
        UnseenAt(rows, i);
        RestrictFrom(ranges, byUid, rows, i, unseen);
        var hit := Selected(ranges, byUid, i, rows);
        if hit {
          SelectedIsTarget(rows, byUid, ranges, i);
          r, trace := FetchOne(rows[i], needsRaw, marking, marked, start, trace);
          if r.Refused? {
            return;
          }
          marked := if marking && SEEN !in rows[i].flags then marked + [rows[i].uid] else marked;
        }
        FetchedNext(fetched, rows, byUid, ranges, i);
        fetched := if hit then fetched + [(i + 1, rows[i].uid)] else fetched;
      }
      FetchedAll(fetched, rows, byUid, ranges, |rows|);
      r := Done;
    }

    /** So far only \Seen was added, once to each of `marked`. */
    ghost predicate Marked(start: State, trace: seq<Act<Step>>, marked: seq<nat>)
      reads db
    {
      && Ran(start, trace, db.Model()) && AllUpdate(start, trace, AddSeen)
      && FlagsEach(Owned(trace), Folder(), marked)
      && (AllOwn(trace) ==> Restamped(start, db.Model(), Folder(), marked, AddSeen))
    }

    lemma MarkedNone(start: State)
      requires start == db.Model()
      ensures Marked(start, [], [])
    {
      RanNothing(start);
      AllUpdateNothing(start, AddSeen);
      RestampedNone(start, Folder(), AddSeen);
    }

    /** One message: its source is read if asked for, and it is marked \Seen if it was not. */
    method FetchOne(record: Record, needsRaw: bool, marking: bool, ghost marked: seq<nat>, ghost start: State,
          ghost before: seq<Act<Step>>)
      returns (r: Reply, ghost trace: seq<Act<Step>>)
      requires Marked(start, before, marked) && record.uid !in marked
      modifies db
      ensures Marked(start, trace,
                     if r.Done? && marking && SEEN !in record.flags then marked + [record.uid] else marked)
      ensures AllOwn(trace) && r.Refused? ==> record.uid !in UidsIn(start, Folder())
    {
      hide Ran, AllUpdate, Owned, Restamped, AllOwn;
      trace := before;
      ghost var mid := db.Model();
      if needsRaw {
        trace := db.Yield(start, before);
        AllUpdateOthers(start, before, trace, AddSeen);
        AllOwnPrefix(before, trace);
        if AllOwn(trace) { RestampedFolder(start, mid, Folder(), marked, AddSeen); }
        if record.uid !in UidsIn(db.Model(), Folder()) {
          return Refused, trace;
        }
      }
      r := Done;
      if marking && SEEN !in record.flags {
        r, trace := StoreOne(record.uid, AddSeen, marked, start, trace);
      }
    }

    // -------------------------------------------------------------- EXPUNGE

    /**
     Deletes the session's own messages marked \Deleted, and forgets exactly those. If the DELETE fails, or is done but
     not heard of, nothing is forgotten.
     */
    method Expunge(allowed: bool, luck: Deletion) returns (r: Reply, ghost trace: seq<Act<Step>>)
      requires WellFormed()
      modifies this`snapshot, db
      ensures WellFormed()
      ensures Ran(old(db.Model()), trace, db.Model())
      ensures readOnly ==> r.Done? && trace == [] && snapshot == old(snapshot)
      ensures !readOnly ==> (r.Done? <==> allowed && luck.Heard?)
      ensures Owned(trace) == if !readOnly && allowed && !luck.Undone?
                              then [MailStates.Expunge(Folder(), Doomed(old(Current(db.Model()))))] else []
      ensures snapshot == if !readOnly && r.Done? && old(snapshot).Some? then Some(Staying(old(Current(db.Model()))))
                          else old(snapshot)
      ensures !readOnly && r.Done? && snapshot.Some? ==>
                forall m :: m in snapshot.value <==> m in old(Current(db.Model())) && "\\Deleted" !in m.flags
      ensures AllOwn(trace) && !readOnly && r.Done? ==>
                && (forall u | u in db.rows :: u in old(db.rows) && db.rows[u] == old(db.rows)[u])
                && forall u | u in old(db.rows) ::
                     u !in db.rows <==>
                     (old(db.rows)[u].box == box && old(db.rows)[u].folder == name &&
                      "\\Deleted" in old(db.rows)[u].payload.flags &&
                      (old(snapshot).None? || u in Uids(old(snapshot).value)))
      ensures forall s | old(Stands(s)) ::
                Stands(Play(s, if r.Done? then Events(trace, old(Current(db.Model()))) else Happenings(trace)))
    {
      hide Ran, Owned;
      ghost var start := db.Model();
      var rows: Option<seq<Record>> := None;
      if !readOnly {
        rows := Records(allowed);
      }
      if rows.None? {
        RanNothing(start);
        CallStands(start, []);
        return if readOnly then Done else Refused, [];
      }
      var kept, ids := Partition(rows.value);
      trace := RemoveLater(ids, luck);
      DoomedNow(start, rows.value);
      if !luck.Heard? {
        CallStands(start, trace);
        return Refused, trace;
      }
      ExpungeStands(start, trace, rows.value);
      if snapshot.Some? {
        StayingAscends(rows.value);
        StayingAre(rows.value);
        snapshot := Some(kept);
      }
      r := Done;
    }

    /** Of the rows in the folder, those marked \Deleted, if the session has them. */
    lemma DoomedNow(s: State, rs: seq<Record>)
      requires rs == Current(s)
      ensures forall u | u in UidsIn(s, Folder()) ::
                u in Doomed(rs) <==>
                "\\Deleted" in s.rows[u].payload.flags && (snapshot.None? || u in Uids(snapshot.value))
    {
      forall u | u in UidsIn(s, Folder())
        ensures u in Doomed(rs) <==>
                "\\Deleted" in s.rows[u].payload.flags && (snapshot.None? || u in Uids(snapshot.value))
      {
        if snapshot.Some? {
          RefreshedAt(s, Folder(), snapshot.value, u);
        } else {
          RecordsAt(s, Folder(), u);
        }
      }
    }

    /** Where a session of this folder stands after an EXPUNGE that deleted what `rs` says. */
    lemma ExpungeStands(start: State, trace: seq<Act<Step>>, rs: seq<Record>)
      requires Ran(start, trace, db.Model()) && Owned(trace) == [MailStates.Expunge(Folder(), Doomed(rs))]
      ensures forall s: ImapSessions.Session | s.key == Folder() && s.db == start && Uids(s.snapshot) == Uids(rs) ::
                var r := Play(s, Events(trace, rs));
                r.key == Folder() && r.db == db.Model() && r.snapshot == Staying(rs)
    {
      forall s: ImapSessions.Session | s.key == Folder() && s.db == start && Uids(s.snapshot) == Uids(rs)
        ensures var r := Play(s, Events(trace, rs));
                r.key == Folder() && r.db == db.Model() && r.snapshot == Staying(rs)
      {
        ExpungePlays(s, trace, rs);
      }
    }

    method Partition(rs: seq<Record>) returns (kept: seq<Record>, ids: set<nat>)
      ensures kept == Staying(rs) && ids == Doomed(rs)
    {
      kept, ids := [], {};
      for i := 0 to |rs|
        invariant kept == Staying(rs[..i]) && ids == Doomed(rs[..i])
      {
        SplitAt(rs, i);
        if DELETED in rs[i].flags {
          ids := ids + {rs[i].uid};
        } else {
          kept := kept + [rs[i]];
        }
      }
      assert rs[..|rs|] == rs;
    }

    method RemoveLater(ids: set<nat>, luck: Deletion) returns (ghost trace: seq<Act<Step>>)
      modifies db
      ensures Ran(old(db.Model()), trace, db.Model())
      ensures Owned(trace) == if luck.Undone? then [] else [MailStates.Expunge(Folder(), ids)]
      ensures AllOwn(trace) && !luck.Undone? ==>
                && (forall u :: u in db.rows <==>
                      u in old(db.rows) && !(u in ids && u in UidsIn(old(db.Model()), Folder())))
                && (forall u | u in db.rows :: db.rows[u] == old(db.rows)[u])
    {
      ghost var start := db.Model();
      RanNothing(start);
      trace := db.Yield(start, []);
      ghost var mid := db.Model();
      if !luck.Undone? {
        db.DeleteRows(Folder(), ids);
        RanOwn(start, trace, mid, MailStates.Expunge(Folder(), ids));
        AllOwnPart(trace, [Own(MailStates.Expunge(Folder(), ids))]);
        trace := trace + [Own(MailStates.Expunge(Folder(), ids))];
      }
    }

    // -------------------------------------------------------------- MOVE

    /**
     MOVE: the messages the client's numbering selects, then a Poll. A failed Poll does not undo the move. Others run
     between reading the messages and taking the lock, from then to the commit, and from there to the Poll;
     `SessionMoveConserves` says what of that keeps the mail. If none do, it goes through when the mailbox is not
     locked, the other folder is there and UIDs are left.
     */
    method MoveMessages(t: nat, allowed: bool, byUid: bool, ranges: seq<Range>, to: string)
      returns (moved: bool, ok: bool, ghost trace: seq<Act<Step>>, ghost read: nat, ghost done: nat)
      requires WellFormed() && box in db.boxes && t !in db.txs && Valid(db.Model())
      modifies this, db, conn
      ensures conn == old(conn) && readOnly == old(readOnly) && WellFormed()
      ensures Ran(old(db.Model()), trace, db.Model())
      ensures old(readOnly) || Canonical(to) == name ==> !moved && trace == []
      ensures ok ==> moved
      ensures Inside(Owned(trace), t)
      ensures var job := Move(name, Canonical(to), Members(Targets(ranges, byUid, old(Current(db.Model())))));
              moved ==> MoveSteps(Owned(trace), t, box, job) && done <= |trace|
                        && MoveTrace(old(db.Model()), trace[..done], read, t, box, job)
      ensures AllOwn(trace) && allowed && !old(readOnly) && Canonical(to) != name &&
              Key(box, Canonical(to)) in old(db.folders) && LockFree(old(db.Model()), box) &&
              old(db.uidSeq).Issued() + |Targets(ranges, byUid, old(Current(db.Model())))| <= 4294967294 ==>
                moved && (conn == null ==> ok)
      ensures ok ==> snapshot == Some(RecordsOf(db.Model(), Folder()))
      ensures !ok ==> snapshot == old(snapshot)
      ensures forall s | old(Stands(s)) :: Stands(Play(s, Happenings(trace) + (if ok then [Polled] else [])))
    {
      ghost var start := db.Model();
      moved, ok, trace, read, done := false, false, [], 0, 0;
      RanNothing(start);
      var dest := Canonical(to);
      var rows: Option<seq<Record>> := None;
      if !readOnly && dest != name && Key(box, dest) in db.folders {
        rows := Records(allowed);
      }
      if rows.Some? {
        var ids := Choose(byUid, ranges, rows.value);
        moved, trace, read, done := MoveChosen(t, ids, dest);
        FewPicked(start, Folder(), ids);
      }
      CallStands(start, trace);
      if moved {
        ok := Poll(allowed);
      }
      PollAfter(trace, ok);
    }

    /** The move, and whatever others do before the Poll. */
    method MoveChosen(t: nat, ids: seq<nat>, dest: string)
      returns (moved: bool, ghost trace: seq<Act<Step>>, ghost read: nat, ghost done: nat)
      requires box in db.boxes && t !in db.txs && dest != name && Valid(db.Model())
      modifies db
      ensures Ran(old(db.Model()), trace, db.Model()) && Inside(Owned(trace), t) && done <= |trace|
      ensures moved ==> MoveSteps(Owned(trace), t, box, Move(name, dest, Members(ids)))
      ensures moved ==> MoveTrace(old(db.Model()), trace[..done], read, t, box, Move(name, dest, Members(ids)))
      ensures AllOwn(trace) && Key(box, dest) in old(db.folders) && LockFree(old(db.Model()), box) &&
              old(db.uidSeq).Issued() + |Picked(old(db.Model()), Folder(), Members(ids))| <= 4294967294 ==>
                moved
    {
      hide Ran, MoveTrace, MoveSteps, Owned, AllOwn, Picked;
      ghost var start := db.Model();
      RanNothing(start);
      trace := db.Pause(t, start, []);
      RanBoxes(start, trace, db.Model());
      ghost var paused := trace;
      moved, trace, read := db.MoveRows(t, box, name, dest, Members(ids), start, trace);
      done := |trace|;
      ghost var ended := trace;
      trace := db.Yield(start, trace);
      assert trace[..done] == ended;
      AllOwnPrefix(ended, trace);
      AllOwnPrefix(paused, ended);
    }

    lemma RanBoxes(start: State, trace: seq<Act<Step>>, now: State)
      requires Valid(start) && Ran(start, trace, now)
      ensures start.boxes <= now.boxes
    {
      MailboxesStay(start, Steps(trace));
    }

    /** A call, and perhaps the Poll it ends with. */
    lemma PollAfter(trace: seq<Act<Step>>, polled: bool)
      ensures forall s: ImapSessions.Session ::
                Play(s, Happenings(trace) + (if polled then [Polled] else [])) ==
                (if polled then React(Play(s, Happenings(trace)), Polled) else Play(s, Happenings(trace)))
    {
      assert Happenings(trace) + [] == Happenings(trace);
      forall s: ImapSessions.Session
        ensures Play(s, Happenings(trace) + [Polled]) == React(Play(s, Happenings(trace)), Polled)
      {
        PlayLast(s, Happenings(trace), Polled);
      }
    }

    // -------------------------------------------------------------- STATUS

    /**
     STATUS and SELECT, under the mailbox's lock: the listing is read in one statement (in state `first`),
     uidvalidity and UIDNEXT in the next (in `second`), and other sessions may run between the two. With nobody in
     between it reports on every folder there is.
     */
    method Status(t: nat, allowed: bool)
      returns (r: Option<Report>, ghost trace: seq<Act<Step>>, ghost first: State, ghost second: State)
      requires WellFormed() && box in db.boxes && t !in db.txs && Valid(db.Model())
      modifies this`snapshot, db
      ensures WellFormed() && Ran(old(db.Model()), trace, db.Model())
      ensures r.Some? ==> Owned(trace) == [Lock(t, box, Look), Commit(t)]
      ensures Leads(old(db.Model()), first) && Leads(first, second) && Leads(second, db.Model())
      ensures r.Some? ==> Reports(r.value, first, second, t)
      ensures !allowed ==> r.None?
      ensures AllOwn(trace) && allowed && LockFree(old(db.Model()), box) ==> (r.Some? <==> Folder() in old(db.folders))
      ensures snapshot == if r.Some? && conn == null then Some(r.value.listing) else old(snapshot)
      ensures r.Some? && conn == null ==> Opens(first)
    {
      hide Ran, Reports, Opens, Leads, Valid, AllOwn;
      var rs: Option<seq<Record>> := None;
      if allowed {
        rs, trace, first, second := ReadUnderLock(t);
      } else {
        trace, first, second := [], db.Model(), db.Model();
        RanNothing(db.Model());
      }
      if rs.None? {
        LeadsNowhere(db.Model());
        return None, trace, first, second;
      }
      r := Tell(rs.value, first, t);
      ghost var read := trace;
      trace := CloseLook(t, r.Some?, old(db.Model()), trace);
      AllOwnPrefix(read, trace);
      if r.Some? && conn == null {
        snapshot := Some(r.value.listing);
        OpensSession(first, second);
      }
    }

    /** A session selected in state `first` stands here once what has happened since is played. */
    ghost predicate Opens(first: State)
      reads this, db
    {
      exists acts: seq<Act<Step>> :: Owned(acts) == [] && Stands(Play(Select(first, Folder()), Happenings(acts)))
    }

    lemma OpensSession(first: State, second: State)
      requires Leads(first, second) && Leads(second, db.Model()) && snapshot == Some(RecordsOf(first, Folder()))
      ensures Opens(first)
    {
      hide Leads;
      LeadsThrough(first, second, db.Model());
      var acts := OthersLead(first, db.Model());
      CallPlays(Select(first, Folder()), acts);
    }

    method ReadUnderLock(t: nat)
      returns (rs: Option<seq<Record>>, ghost trace: seq<Act<Step>>, ghost first: State, ghost second: State)
      requires box in db.boxes && t !in db.txs && Valid(db.Model())
      modifies db
      ensures Ran(old(db.Model()), trace, db.Model()) && second == db.Model()
      ensures Leads(old(db.Model()), first) && Valid(first) && Leads(first, second)
      ensures rs.Some? ==>
                rs.value == RecordsOf(first, Folder()) && Looking(second, t, box) &&
                  Owned(trace) == [Lock(t, box, Look)]
      ensures AllOwn(trace) ==> (rs.Some? <==> LockFree(old(db.Model()), box)) && db.folders == old(db.folders)
    {
      hide AllOwn;
      ghost var start := db.Model();
      trace, first, second := [], start, start;
      RanNothing(start);
      RanLeads(start, [], start);
      var ok := db.TakeLock(t, box, Look);
      if !ok {
        return None, trace, first, second;
      }
      RanOwn(start, [], start, Lock(t, box, Look));
      trace := db.Pause(t, start, [] + [Own(Lock(t, box, Look))]);
      first := db.Model();
      RanLeads(start, trace, first);
      RunKeeps(start, Steps(trace));
      var out := db.LoadRecords(Folder());
      ghost var paused := trace;
      trace := db.Pause(t, start, trace);
      AllOwnPrefix(paused, trace);
      second := db.Model();
      rs := Some(out);
    }

    method CloseLook(t: nat, done: bool, ghost start: State, ghost before: seq<Act<Step>>)
      returns (ghost trace: seq<Act<Step>>)
      requires Ran(start, before, db.Model()) && Looking(db.Model(), t, box)
      modifies db
      ensures Ran(start, trace, db.Model()) && Leads(old(db.Model()), db.Model())
      ensures Owned(trace) == Owned(before) + [if done then Commit(t) else Abort(t)] && before <= trace
    {
      ghost var s := db.Model();
      ghost var last := if done then Commit(t) else Abort(t);
      db.Rollback(t);
      RanOwn(start, before, s, last);
      LeadsOne(s, last);
      trace := before + [Own(last)];
    }

    lemma LeadsOne(s: State, e: Step)
      ensures Leads(s, Apply(s, e))
    {
      hide Apply;
      ExecLast(s, [], e);
      assert [] + [e] == [e];
    }

    /** The second statement, and the counting. */
    method Tell(rs: seq<Record>, ghost first: State, t: nat) returns (r: Option<Report>)
      requires Valid(first) && rs == RecordsOf(first, Folder())
      requires Leads(first, db.Model()) && Looking(db.Model(), t, box)
      ensures r.Some? ==> Reports(r.value, first, db.Model(), t) && r.value.listing == rs
      ensures r.Some? <==> Folder() in db.folders
    {
      if Folder() !in db.folders {
        return None;
      }
      var unseen, firstUnseen := CountUnseen(rs);
      ListedBelowNext(first, db.Model(), t);
      r := Some(Report(rs, |rs|, unseen, firstUnseen, db.folders[Folder()], db.uidSeq.LastValue() + 1));
    }

    ghost predicate Reports(report: Report, first: State, second: State, t: nat) {
      && Valid(second) && Looking(second, t, box) && Folder() in second.folders
      && report.listing == RecordsOf(first, Folder())
      && report.messages == |report.listing|
      && report.unseen == UnseenCount(report.listing) && IsFirstUnseen(report.listing, report.firstUnseen)
      && report.uidValidity == second.folders[Folder()]
      && report.uidNext == UidNext(second)
      && (forall u | u in Uids(report.listing) :: u < report.uidNext)
      && (BoundsArrivals(second, Folder()) <==> second.uidSeq.Last?)
    }

    lemma ListedBelowNext(first: State, second: State, t: nat)
      requires Valid(first) && Leads(first, second) && Looking(second, t, box) && Folder() in second.folders
      ensures Valid(second) && (forall u | u in Uids(RecordsOf(first, Folder())) :: u < UidNext(second))
      ensures BoundsArrivals(second, Folder()) <==> second.uidSeq.Last?
    {
      var steps :| second == Exec(first, steps);
      ContinuesRun(first, steps);
      UidNextBound(second, Folder(), t);
      forall u | u in Uids(RecordsOf(first, Folder())) ensures u < UidNext(second) {
        assert u in Listing(first, Folder());
      }
    }

    method CountUnseen(rs: seq<Record>) returns (unseen: nat, first: nat)
      ensures unseen == UnseenCount(rs) && IsFirstUnseen(rs, first)
    {
      unseen, first := 0, 0;
      for i := 0 to |rs|
        invariant unseen == UnseenCount(rs[..i]) && IsFirstUnseen(rs[..i], first)
      {
        assert rs[..i + 1][..i] == rs[..i];
        if SEEN !in rs[i].flags {
          unseen := unseen + 1;
          if first == 0 {
            first := i + 1;
          }
        }
      }
      assert rs[..|rs|] == rs;
    }
  }
}
