/**
 The mail tables as the Go code changes them: one method per statement or transaction, each tied to the
 step of the state machine it takes. `Interfere` stands between two statements of a call; to its caller it
 is any run of other sessions.
 */
module MailDatabase {
  import opened Ascending
  import opened ImapSessions
  import opened MailInvariant
  import opened MailMoves
  import opened MailStates
  import opened MailTraces
  import opened PollReplay
  import opened Text
  import opened Traces

  datatype Reply = Done | Refused
  datatype Insertion = Stored | Duplicate | Failed

  const RECENT := "\\Recent"

  function Canonical(name: string): string {
    if EqualFold(name, INBOX) then INBOX else name
  }

  /** INBOX is INBOX in any case; other names are left alone. */
  lemma CanonicalIs(name: string)
    ensures Canonical(name) ==
            if |name| == 5 && name[0] in {'i', 'I'} && name[1] in {'n', 'N'} && name[2] in {'b', 'B'} &&
               name[3] in {'o', 'O'} && name[4] in {'x', 'X'}
            then "INBOX" else name
  {
    assert INBOX == ['I', 'N', 'B', 'O', 'X'];
    if EqualFold(name, INBOX) {
      assert forall i | 0 <= i < 5 :: Lower(name[i]) == Lower(INBOX[i]);
      assert |name| == 5 && Lower(name[0]) == 'i' && Lower(name[1]) == 'n' && Lower(name[2]) == 'b';
      assert Lower(name[3]) == 'o' && Lower(name[4]) == 'x';
    }
  }

  /** Flags kept in the array: \Seen has its own column and \Recent is never stored. */
  function Storable(flags: seq<string>): seq<string> {
    if flags == [] then []
    else
      var last := flags[|flags| - 1];
      Storable(flags[..|flags| - 1]) + (if last == SEEN || last == RECENT then [] else [last])
  }

  /** All flags but those two, in their order. */
  lemma StorableIs(a: seq<string>, flag: string, b: seq<string>)
    ensures Storable(a + [flag] + b) ==
            Storable(a) + (if flag == "\\Seen" || flag == "\\Recent" then [] else [flag]) + Storable(b)
    ensures Storable([]) == []
  {
    StorableConcat(a + [flag], b);
    assert (a + [flag])[..|a|] == a;
  }

  lemma {:induction false} StorableConcat(a: seq<string>, b: seq<string>)
    ensures Storable(a + b) == Storable(a) + Storable(b)
    decreases |b|
  {
    if b == [] {
      assert a + b == a;
    } else {
      var front := b[..|b| - 1];
      assert (a + b)[..|a + b| - 1] == a + front;
      StorableConcat(a, front);
    }
  }

  lemma {:induction false} StorableMembers(flags: seq<string>, flag: string)
    ensures flag in Storable(flags) <==> flag in flags && flag != SEEN && flag != RECENT
    decreases |flags|
  {
    if flags != [] {
      StorableMembers(flags[..|flags| - 1], flag);
      assert flags == flags[..|flags| - 1] + [flags[|flags| - 1]];
    }
  }

  /** Flags a client sets are the flags it is then told, \Recent excepted. */
  lemma FlagsComeBack(p: Payload, flags: seq<string>, flag: string)
    ensures flag in FlagsOf(p.(flags := Storable(flags), seen := SEEN in flags)) <==>
            flag in flags && flag != "\\Recent"
  {
    StorableMembers(flags, flag);
  }

  method CleanFlags(flags: seq<string>) returns (clean: seq<string>, seen: bool)
    ensures clean == Storable(flags) && seen == (SEEN in flags)
  {
    clean, seen := [], false;
    for i := 0 to |flags|
      invariant clean == Storable(flags[..i]) && seen == (SEEN in flags[..i])
    {
      assert flags[..i + 1][..i] == flags[..i];
      if flags[i] == SEEN {
        seen := true;
      } else if flags[i] != RECENT {
        clean := clean + [flags[i]];
      }
    }
    assert flags[..|flags|] == flags;
  }

  /** How an insert ended: its last step, and why, in the state just before it. */
  ghost predicate Settled(s: State, trace: seq<Act<Step>>, t: nat, box: Box, job: Job, r: Insertion)
    requires trace != [] && job.Append?
  {
    var last := Exec(s, Steps(trace[..|trace| - 1]));
    && trace[|trace| - 1] == Own(if r.Stored? then Commit(t) else Abort(t))
    && t in last.txs && last.txs[t].box == box && last.txs[t].job == job
    && (r.Stored? <==> CanCommit(last, t))
    && (r.Duplicate? <==> Key(box, job.folder) in last.folders && Collides(last, box, job.payload))
  }

  /** `step` sets on its row what `update` makes of the flags the row then has. */
  ghost predicate Updates(s: State, step: Step, update: seq<string> -> seq<string>) {
    && step.SetFlags? && step.uid in UidsIn(s, step.key)
    && var told := update(FlagsOf(s.rows[step.uid].payload));
       step.flags == Storable(told) && step.seen == (SEEN in told)
  }

  /** Every own step of a trace does so, in the state it runs in. */
  ghost predicate AllUpdate(start: State, trace: seq<Act<Step>>, update: seq<string> -> seq<string>) {
    forall k | 0 <= k < |trace| && trace[k].Own? :: Updates(Exec(start, Steps(trace[..k])), trace[k].step, update)
  }

  lemma AllUpdateNothing(start: State, update: seq<string> -> seq<string>)
    ensures AllUpdate(start, [], update)
  {
  }

  lemma AllUpdateOthers(start: State, before: seq<Act<Step>>, trace: seq<Act<Step>>, update: seq<string> -> seq<string>)
    requires AllUpdate(start, before, update) && before <= trace
    requires forall k | |before| <= k < |trace| :: trace[k].Other?
    ensures AllUpdate(start, trace, update)
  {
    forall k | 0 <= k < |trace| && trace[k].Own?
      ensures Updates(Exec(start, Steps(trace[..k])), trace[k].step, update)
    {
      assert trace[..k] == before[..k];
    }
  }

  lemma AllUpdateOwn(start: State, trace: seq<Act<Step>>, mid: State, step: Step, update: seq<string> -> seq<string>)
    requires AllUpdate(start, trace, update) && Ran(start, trace, mid) && Updates(mid, step, update)
    ensures AllUpdate(start, trace + [Own(step)], update)
  {
    var more := trace + [Own(step)];
    forall k | 0 <= k < |more| && more[k].Own? ensures Updates(Exec(start, Steps(more[..k])), more[k].step, update) {
      assert more[..k] == trace[..k];
      assert trace[..|trace|] == trace;
    }
  }

  /** Steps inside transaction `t` only. */
  predicate Inside(steps: seq<Step>, t: nat) {
    forall e | e in steps :: Concerns(e, t)
  }

  /** The own steps of an IMAP MOVE that went through. */
  predicate MoveSteps(steps: seq<Step>, t: nat, box: Box, job: Job) {
    |steps| >= 3 && steps == [Lock(t, box, job), Capture(t)] + Draws(t, |steps| - 3) + [Commit(t)]
  }

  function Draws(t: nat, n: nat): seq<Step> {
    seq(n, _ => Allocate(t))
  }

  /** `trace` goes on after `before` with steps of anyone, but transaction `t` neither reads again nor ends. */
  predicate GoesOn(before: seq<Act<Step>>, trace: seq<Act<Step>>, t: nat) {
    before <= trace && forall k | |before| <= k < |trace| :: BySomeone(trace[k].step, t)
  }

  /** A MOVE's trace: it reads at `read`, and its last step is its commit. */
  ghost predicate MoveTrace(start: State, trace: seq<Act<Step>>, read: nat, t: nat, box: Box, job: Job) {
    && read < |trace| - 1 && trace[read] == Own(Capture(t)) && trace[|trace| - 1] == Own(Commit(t))
    && AboutToRead(start, Steps(trace[..read]), t)
    && Exec(start, Steps(trace[..read])).txs[t].box == box && Exec(start, Steps(trace[..read])).txs[t].job == job
    && (forall k | read < k < |trace| - 1 :: BySomeone(trace[k].step, t))
    && t in Exec(start, Steps(trace[..|trace| - 1])).txs && CanCommit(Exec(start, Steps(trace[..|trace| - 1])), t)
  }

  /** Between its read and its commit, nobody renamed a folder onto the source's name. */
  predicate NothingBrought(trace: seq<Act<Step>>, read: nat, source: Key) {
    forall k | read < k < |trace| - 1 :: !BringsTo(trace[k].step, source)
  }

  /** ... nor took a named message from under it. */
  predicate NothingTaken(trace: seq<Act<Step>>, read: nat, source: Key, ids: set<nat>) {
    forall k | read < k < |trace| - 1 :: !TakesFrom(trace[k].step, source, ids)
  }

  lemma MoveTraceSplits(trace: seq<Act<Step>>, read: nat, t: nat)
    requires read < |trace| - 1 && trace[read] == Own(Capture(t)) && trace[|trace| - 1] == Own(Commit(t))
    ensures Steps(trace[..|trace| - 1]) == Steps(trace[..read]) + [Capture(t)] + Steps(trace[read + 1..|trace| - 1])
    ensures Steps(trace) == Steps(trace[..|trace| - 1]) + [Commit(t)]
  {
  }

  lemma StepsBetween(trace: seq<Act<Step>>, read: nat, e: Step)
    requires read < |trace| - 1 && e in Steps(trace[read + 1..|trace| - 1])
    ensures exists k :: read < k < |trace| - 1 && trace[k].step == e
  {
    var after := trace[read + 1..|trace| - 1];
    var k :| 0 <= k < |after| && Steps(after)[k] == e;
    assert trace[read + 1 + k].step == e;
  }

  /**
   The commit that ends a MOVE's trace conserves mail exactly when its DELETE finds as many rows as its INSERT read, if
   the UIDs it names come from one listing.
   */
  lemma {:induction false} MoveTraceConserves(start: State, trace: seq<Act<Step>>, read: nat, t: nat, box: Box,
        job: Job)
    requires MoveTrace(start, trace, read, t, box, job) && Together(start, job.ids)
    ensures var last, r := Exec(start, Steps(trace[..|trace| - 1])), Exec(start, Steps(trace));
            && t in last.txs && last.txs[t].job == job && last.txs[t].box == box
            && (Mail(r, box) == Mail(last, box) <==> Found(last, t) == Members(last.txs[t].origin))
            && (Mail(r, box) == Mail(last, box) <==> |Found(last, t)| == |last.txs[t].origin|)
  {
    hide Exec, Steps, Found, Together;
    var before, after := Steps(trace[..read]), Steps(trace[read + 1..|trace| - 1]);
    MoveTraceSplits(trace, read, t);
    ExecLast(start, Steps(trace[..|trace| - 1]), Commit(t));
    forall e | e in after ensures BySomeone(e, t) {
      StepsBetween(trace, read, e);
    }
    MoveConservesExactly(start, before, after, t);
  }

  /**
   Without a rename onto the source's name: exactly when every row read is still under it, wherever the UIDs come from.
   */
  lemma {:induction false} UnrenamedTraceConserves(start: State, trace: seq<Act<Step>>, read: nat, t: nat, box: Box,
        job: Job)
    requires MoveTrace(start, trace, read, t, box, job) && NothingBrought(trace, read, Key(box, job.source))
    ensures var last, r := Exec(start, Steps(trace[..|trace| - 1])), Exec(start, Steps(trace));
            && t in last.txs && last.txs[t].job == job && last.txs[t].box == box
            && (Mail(r, box) == Mail(last, box) <==> Members(last.txs[t].origin) <= UidsIn(last, Key(box, job.source)))
            && (NothingTaken(trace, read, Key(box, job.source), job.ids) ==> Mail(r, box) == Mail(last, box))
  {
    hide Exec, Steps, UidsIn;
    var before, after := Steps(trace[..read]), Steps(trace[read + 1..|trace| - 1]);
    MoveTraceSplits(trace, read, t);
    ExecLast(start, Steps(trace[..|trace| - 1]), Commit(t));
    forall e | e in after ensures BySomeone(e, t) && !BringsTo(e, Key(box, job.source)) {
      StepsBetween(trace, read, e);
    }
    MoveConservesUnrenamed(start, before, after, t);
    if NothingTaken(trace, read, Key(box, job.source), job.ids) {
      forall e | e in after ensures !TakesFrom(e, Key(box, job.source), job.ids) {
        StepsBetween(trace, read, e);
      }
      LockedMoveConserves(start, before, after, t);
    }
  }

  /** The rows that arrive carry what the rows named under the source's name had when they were read. */
  lemma {:induction false} MoveTraceCarries(start: State, trace: seq<Act<Step>>, read: nat, t: nat, box: Box, job: Job)
    requires MoveTrace(start, trace, read, t, box, job)
    ensures var mid, last := Exec(start, Steps(trace[..read])), Exec(start, Steps(trace[..|trace| - 1]));
            && t in last.txs && IsAscending(last.txs[t].origin)
            && (forall u :: u in last.txs[t].origin <==>
                  u in mid.rows && u in job.ids && mid.rows[u].box == box && mid.rows[u].folder == job.source)
            && Carries(mid.rows, last.txs[t].origin, Exec(start, Steps(trace)).rows, last.txs[t].uids, box, job.dest)
  {
    hide Exec, Steps, Carries;
    var before, after := Steps(trace[..read]), Steps(trace[read + 1..|trace| - 1]);
    MoveTraceSplits(trace, read, t);
    ExecLast(start, Steps(trace[..|trace| - 1]), Commit(t));
    forall e | e in after ensures BySomeone(e, t) {
      StepsBetween(trace, read, e);
    }
    MoveCarries(start, before, after, t);
  }

  /** A MOVE that has read, and goes on to its commit. */
  ghost predicate HasRead(start: State, trace: seq<Act<Step>>, read: nat, t: nat, box: Box, job: Job) {
    && read < |trace| && trace[read] == Own(Capture(t)) && GoesOn(trace[..read + 1], trace, t)
    && AboutToRead(start, Steps(trace[..read]), t)
    && Exec(start, Steps(trace[..read])).txs[t] == StartTx(box, job)
  }

  lemma ReadsOn(start: State, before: seq<Act<Step>>, trace: seq<Act<Step>>, read: nat, t: nat, box: Box, job: Job)
    requires HasRead(start, before, read, t, box, job) && GoesOn(before, trace, t)
    ensures HasRead(start, trace, read, t, box, job)
  {
    assert trace[..read] == before[..read] && trace[..read + 1] == before[..read + 1];
  }

  lemma ReadsNow(start: State, before: seq<Act<Step>>, mid: State, t: nat, box: Box, job: Job)
    requires Valid(start) && t !in start.txs && Ran(start, before, mid)
    requires job.Move? && t in mid.txs && mid.txs[t] == StartTx(box, job)
    ensures HasRead(start, before + [Own(Capture(t))], |before|, t, box, job)
  {
    var trace := before + [Own(Capture(t))];
    assert trace[..|before|] == before && trace[..|before| + 1] == trace;
  }

  lemma EndsMove(start: State, before: seq<Act<Step>>, last: State, read: nat, t: nat, box: Box, job: Job)
    requires HasRead(start, before, read, t, box, job) && Ran(start, before, last) && t in last.txs &&
             CanCommit(last, t)
    ensures MoveTrace(start, before + [Own(Commit(t))], read, t, box, job)
  {
    hide Exec, Steps, CanCommit;
    var trace := before + [Own(Commit(t))];
    assert trace[..|trace| - 1] == before && trace[..read] == before[..read];
  }

  lemma SamePicked(s: State, r: State, key: Key, ids: set<nat>)
    ensures s.rows == r.rows ==> Picked(s, key, ids) == Picked(r, key, ids)
  {
  }

  lemma InsertOne(rows: map<nat, Row>, uids: seq<nat>, ps: seq<Payload>, box: Box, folder: string, id: nat)
    requires |uids| == |ps| == 1
    ensures Insert(rows, uids, ps, box, folder, id) == rows[uids[0] := Row(id, box, folder, ps[0])]
  {
    assert uids[1..] == [];
  }

  class Database {
    var boxes: set<Box>
    var folders: map<Key, nat>
    var rows: map<nat, Row>
    var uidSeq: Sequence
    var validitySeq: Sequence
    var nextId: nat
    var txs: map<nat, Tx>

    function Model(): State
      reads this
    {
      State(boxes, folders, rows, uidSeq, validitySeq, nextId, txs)
    }

    /** Everything else that happens between two statements of a call holding transaction `t`. */
    method Interfere(t: nat) returns (ghost acts: seq<Act<Step>>)
      modifies this
      ensures Ran(old(Model()), acts, Model()) && Foreign(acts, t)
    {
      acts := [];
    }

    /** The same between two statements outside any transaction, carried on a trace. */
    method Yield(ghost start: State, ghost before: seq<Act<Step>>) returns (ghost trace: seq<Act<Step>>)
      requires Ran(start, before, Model())
      modifies this
      ensures Ran(start, trace, Model()) && Owned(trace) == Owned(before)
      ensures before <= trace && forall k | |before| <= k < |trace| :: trace[k].Other?
      ensures AllOwn(trace) ==> trace == before && Model() == old(Model())
    {
      ghost var acts: seq<Act<Step>> := [];
      RanOthers(start, before, Model(), acts, Model());
      trace := before + acts;
    }

    // -------------------------------------------------------------- folders

    method CreateMailbox(box: Box, name: string) returns (r: Reply)
      requires box in boxes
      modifies this
      ensures var key := Key(box, Canonical(name));
              if ValidFolder(Canonical(name)) then Model() == Apply(old(Model()), CreateFolder(key))
              else Model() == old(Model())
      ensures var n := Canonical(name);
              r.Done? <==>
              (n != "" && |n| <= 200 && '\r' !in n && '\n' !in n && '\0' !in n && '/' !in n
               && old(validitySeq).Issued() < 4294967294 && Key(box, n) !in old(folders))
      ensures folders == if r.Done? then old(folders)[Key(box, Canonical(name)) := old(validitySeq).Issued() + 1]
                         else old(folders)
      ensures rows == old(rows)
    {
      var key := Key(box, Canonical(name));
      if !ValidFolder(key.name) || validitySeq.Exhausted() {
        return Refused;
      }
      validitySeq := validitySeq.Next();
      if key in folders {
        return Refused;
      }
      folders := folders[key := validitySeq.value];
      r := Done;
    }

    method DeleteMailbox(box: Box, name: string) returns (r: Reply)
      modifies this
      ensures Model() == Apply(old(Model()), DeleteFolder(Key(box, Canonical(name))))
      ensures r.Done? <==> Canonical(name) != "INBOX" && Key(box, Canonical(name)) in old(folders)
      ensures r.Done? ==> folders == old(folders) - {Key(box, Canonical(name))}
      ensures r.Done? ==>
                && (forall u | u in rows :: rows[u].box != box || rows[u].folder != Canonical(name))
                && (forall u | u in old(rows) && (old(rows)[u].box != box || old(rows)[u].folder != Canonical(name)) ::
                      u in rows && rows[u] == old(rows)[u])
      ensures r.Refused? ==> folders == old(folders) && rows == old(rows)
    {
      var key := Key(box, Canonical(name));
      if key.name == INBOX || key !in folders {
        return Refused;
      }
      rows := Without(rows, UidsIn(Model(), key));
      folders := folders - {key};
      r := Done;
    }

    /**
     A folder takes its rows and its uidvalidity to the new name. INBOX stays: a new folder takes its rows. No other row
     changes, and a refused rename changes no row and no folder.
     */
    method RenameMailbox(box: Box, from: string, to: string) returns (r: Reply)
      requires box in boxes && Key(box, INBOX) in folders
      modifies this
      ensures Canonical(to) == INBOX || !ValidFolder(Canonical(to)) ==> r.Refused? && Model() == old(Model())
      ensures Canonical(to) != INBOX && ValidFolder(Canonical(to)) ==>
                Model() == Apply(old(Model()), if Canonical(from) == INBOX then RenameInbox(box, Canonical(to))
                                               else RenameFolder(Key(box, Canonical(from)), Canonical(to)))
      ensures var n := Canonical(to);
              var named := n != "" && |n| <= 200 && '\r' !in n && '\n' !in n && '\0' !in n && '/' !in n && n != "INBOX";
              r.Done? <==>
              (named && (if Canonical(from) == "INBOX"
                         then old(validitySeq).Issued() < 4294967294 && Key(box, n) !in old(folders)
                         else Key(box, Canonical(from)) in old(folders) &&
                              (Key(box, n) !in old(folders) || n == Canonical(from))))
      ensures r.Done? && Canonical(from) == "INBOX" ==>
                folders == old(folders)[Key(box, Canonical(to)) := old(validitySeq).Issued() + 1]
      ensures r.Done? && Canonical(from) != "INBOX" ==>
                && Key(box, Canonical(from)) in old(folders)
                && folders == (old(folders) - {Key(box, Canonical(from))})
                              [Key(box, Canonical(to)) := old(folders)[Key(box, Canonical(from))]]
      ensures r.Done? ==> Key(box, "INBOX") in folders
      ensures r.Done? ==>
                && rows.Keys == old(rows).Keys
                && forall u | u in rows ::
                     rows[u] == if old(rows)[u].box == box && old(rows)[u].folder == Canonical(from)
                                then old(rows)[u].(folder := Canonical(to)) else old(rows)[u]
      ensures r.Refused? ==> folders == old(folders) && rows == old(rows)
    {
      var source, target := Key(box, Canonical(from)), Key(box, Canonical(to));
      if !ValidFolder(target.name) || target.name == INBOX {
        return Refused;
      }
      if source.name == INBOX {
        if validitySeq.Exhausted() {
          return Refused;
        }
        validitySeq := validitySeq.Next();
        if target in folders {
          return Refused;
        }
        folders := folders[target := validitySeq.value];
        rows := Refolder(rows, source, target.name);
      } else {
        if source !in folders || (target in folders && target != source) {
          return Refused;
        }
        folders := (folders - {source})[target := folders[source]];
        rows := Refolder(rows, source, target.name);
      }
      r := Done;
    }

    // -------------------------------------------------------------- reading and flags

    lemma RecordAt(key: Key, i: nat)
      requires i < |Listing(Model(), key)|
      ensures var us, told := Listing(Model(), key), RecordsOf(Model(), key);
              |told| == |us| && us[i] in rows &&
                told[..i + 1] == told[..i] + [Record(us[i], FlagsOf(rows[us[i]].payload))]
    {
      assert Uids(RecordsOf(Model(), key)) == Listing(Model(), key);
      assert Listing(Model(), key)[i] in Listing(Model(), key);
    }

    method LoadRecords(key: Key) returns (rs: seq<Record>)
      ensures rs == RecordsOf(Model(), key)
    {
      var us := SortedList(UidsIn(Model(), key));
      ghost var told := RecordsOf(Model(), key);
      rs := [];
      for i := 0 to |us|
        invariant i <= |told| && rs == told[..i]
      {
        RecordAt(key, i);
        rs := rs + [Record(us[i], FlagsOf(rows[us[i]].payload))];
      }
      assert |Uids(told)| == |us| && told[..|us|] == told;
    }

    /** One row, locked, its flags updated; `update` is the effect of the client's operation. */
    method Flags(key: Key, uid: nat, update: seq<string> -> seq<string>) returns (r: Reply, ghost step: Step)
      modifies this
      ensures r.Done? <==> uid in UidsIn(old(Model()), key)
      ensures Model() == if r.Done? then Apply(old(Model()), step) else old(Model())
      ensures step.SetFlags? && step.key == key && step.uid == uid
      ensures r.Done? ==> var told := update(FlagsOf(old(rows)[uid].payload));
                          step.flags == Storable(told) && step.seen == (SEEN in told)
      ensures r.Done? ==>
                && var p := old(rows)[uid].payload;
                   var told := update(p.flags + (if p.seen then ["\\Seen"] else []));
                   rows == old(rows)[uid := old(rows)[uid].(payload :=
                                              p.(flags := Storable(told), seen := "\\Seen" in told))]
    {
      step := SetFlags(key, uid, [], false);
      if uid !in rows || rows[uid].Home() != key {
        return Refused, step;
      }
      var told := update(FlagsOf(rows[uid].payload));
      var clean, seen := CleanFlags(told);
      step := SetFlags(key, uid, clean, seen);
      rows := rows[uid := rows[uid].(payload := rows[uid].payload.(flags := clean, seen := seen))];
      r := Done;
    }

    /** `Flags` after others have run, carried on a trace. */
    method FlagsLater(key: Key, uid: nat, update: seq<string> -> seq<string>, ghost start: State,
          ghost before: seq<Act<Step>>)
      returns (r: Reply, ghost trace: seq<Act<Step>>, ghost step: Step)
      requires Ran(start, before, Model()) && AllUpdate(start, before, update)
      modifies this
      ensures Ran(start, trace, Model()) && AllUpdate(start, trace, update)
      ensures step.SetFlags? && step.key == key && step.uid == uid
      ensures Owned(trace) == Owned(before) + (if r.Done? then [step] else [])
      ensures before <= trace
      ensures AllOwn(trace) ==>
                && (r.Done? <==> uid in UidsIn(old(Model()), key))
                && Model() == (if r.Done? then Apply(old(Model()), step) else old(Model()))
                && (r.Done? ==> Updates(old(Model()), step, update))
    {
      hide Ran, AllUpdate, Owned, Apply;
      trace := Yield(start, before);
      AllUpdateOthers(start, before, trace, update);
      ghost var mid := Model();
      r, step := Flags(key, uid, update);
      if r.Done? {
        RanOwn(start, trace, mid, step);
        AllUpdateOwn(start, trace, mid, step, update);
        AllOwnPart(trace, [Own(step)]);
        trace := trace + [Own(step)];
      }
    }

    method DeleteRows(key: Key, ids: set<nat>)
      modifies this
      ensures Model() == Apply(old(Model()), Expunge(key, ids))
      ensures forall u :: u in rows <==>
                u in old(rows) && !(u in ids && old(rows)[u].box == key.box && old(rows)[u].folder == key.name)
      ensures forall u | u in rows :: rows[u] == old(rows)[u]
    {
      rows := Without(rows, Picked(Model(), key, ids));
    }

    // -------------------------------------------------------------- transactions

    /** Waiting for the advisory lock may time out. */
    method TakeLock(t: nat, box: Box, job: Job) returns (ok: bool)
      requires box in boxes && t !in txs
      modifies this
      ensures Model() == (if ok then Apply(old(Model()), Lock(t, box, job)) else old(Model()))
      ensures ok ==> t in txs && txs[t] == StartTx(box, job)
      ensures ok <==> LockFree(old(Model()), box)
    {
      ok := forall o | o in txs :: txs[o].box != box;
      if ok {
        txs := txs[t := StartTx(box, job)];
      }
    }

    method Draw(t: nat) returns (ok: bool)
      requires t in txs
      modifies this
      ensures Model() == Apply(old(Model()), Allocate(t)) && t in txs
      ensures ok ==> txs[t] == old(txs)[t].(uids := old(txs)[t].uids + [uidSeq.Issued()])
      ensures !ok ==> Model() == old(Model())
      ensures ok <==> old(uidSeq).Issued() < 4294967294
    {
      ok := !uidSeq.Exhausted();
      if ok {
        uidSeq := uidSeq.Next();
        txs := txs[t := txs[t].(uids := txs[t].uids + [uidSeq.value])];
      }
    }

    method Rollback(t: nat)
      modifies this
      ensures Model() == Apply(old(Model()), Abort(t))
    {
      txs := txs - {t};
    }

    /** The insert's own checks, then the commit. A refused insert rolls its transaction back. */
    method FinishInsert(t: nat) returns (r: Insertion)
      requires t in txs && txs[t].job.Append? && |txs[t].uids| == |txs[t].wanted| == 1
      modifies this
      ensures r.Stored? <==> CanCommit(old(Model()), t)
      ensures r.Duplicate? <==> Key(old(txs)[t].box, old(txs)[t].job.folder) in old(folders)
                                && Collides(old(Model()), old(txs)[t].box, old(txs)[t].job.payload)
      ensures Model() == Apply(old(Model()), if r.Stored? then Commit(t) else Abort(t))
      ensures rows == if r.Stored? then old(rows)[old(txs)[t].uids[0] := Row(old(nextId), old(txs)[t].box,
                                                    old(txs)[t].job.folder, old(txs)[t].wanted[0])]
                      else old(rows)
    {
      var tx := txs[t];
      if Key(tx.box, tx.job.folder) !in folders {
        r := Failed;
      } else if Collides(Model(), tx.box, tx.job.payload) {
        r := Duplicate;
      } else {
        InsertOne(rows, tx.uids, tx.wanted, tx.box, tx.job.folder, nextId);
        rows := Insert(rows, tx.uids, tx.wanted, tx.box, tx.job.folder, nextId);
        nextId := nextId + |tx.uids|;
        r := Stored;
      }
      txs := txs - {t};
    }

    /** A wait inside a transaction: others run, the transaction stays as it was. */
    method Pause(t: nat, ghost start: State, ghost before: seq<Act<Step>>) returns (ghost trace: seq<Act<Step>>)
      requires Ran(start, before, Model())
      modifies this
      ensures Ran(start, trace, Model()) && Owned(trace) == Owned(before) && Leads(old(Model()), Model())
      ensures GoesOn(before, trace, t)
      ensures (t in txs <==> t in old(txs)) && (t in txs ==> txs[t] == old(txs)[t])
      ensures AllOwn(trace) ==> trace == before && Model() == old(Model())
    {
      ghost var mid := Model();
      ghost var acts := Interfere(t);
      RanOthers(start, before, mid, acts, Model());
      ForeignKeepsTx(mid, acts, t);
      trace := before + acts;
      if acts != [] { assert acts[0] in acts && trace[|before|] == acts[0]; }
    }

    /** Lock, then draw one UID: the trigger's part of an INSERT. */
    method Reserve(t: nat, box: Box, job: Job) returns (ok: bool, ghost trace: seq<Act<Step>>)
      requires box in boxes && t !in txs
      modifies this
      ensures Ran(old(Model()), trace, Model())
      ensures ok ==> Owned(trace) == [Lock(t, box, job), Allocate(t)]
      ensures ok ==>
                t in txs && txs[t].box == box && txs[t].job == job && txs[t].wanted == StartTx(box, job).wanted &&
                  |txs[t].uids| == 1
      ensures AllOwn(trace) ==>
                && (ok <==> LockFree(old(Model()), box) && old(uidSeq).Issued() < 4294967294)
                && (ok ==> Model() == Apply(Apply(old(Model()), Lock(t, box, job)), Allocate(t)))
                && (!ok ==> Model() == old(Model()))
    {
      hide Ran, Owned;
      ghost var start := Model();
      trace := [];
      RanNothing(start);
      ok := TakeLock(t, box, job);
      if !ok {
        return;
      }
      RanOwn(start, [], start, Lock(t, box, job));
      trace := Pause(t, start, [] + [Own(Lock(t, box, job))]);
      ghost var paused := trace;
      ok, trace := DrawNext(t, start, trace);
      AllOwnPrefix(paused, trace);
    }

    /**
     The trigger's steps around an INSERT, then the row itself. With the mailbox to itself and a UID left, it stores the
     message exactly if the folder is there and no delivery of the same Message-ID.
     */
    method InsertMessage(t: nat, box: Box, folder: string, p: Payload)
      returns (r: Insertion, ghost trace: seq<Act<Step>>)
      requires box in boxes && t !in txs
      modifies this
      ensures Ran(old(Model()), trace, Model())
      ensures r.Stored? ==> Owned(trace) == [Lock(t, box, Append(folder, p)), Allocate(t), Commit(t)]
      ensures !r.Failed? ==> trace != [] && Settled(old(Model()), trace, t, box, Append(folder, p), r)
      ensures r.Stored? ==> var last := Exec(old(Model()), Steps(trace[..|trace| - 1]));
                            && t in last.txs && |last.txs[t].uids| == 1
                            && rows == last.rows[last.txs[t].uids[0] := Row(last.nextId, box, folder, p)]
      ensures AllOwn(trace) && LockFree(old(Model()), box) && old(uidSeq).Issued() < 4294967294 ==>
                && (r.Stored? <==> Key(box, folder) in old(folders) && !Collides(old(Model()), box, p))
                && (r.Duplicate? <==> Key(box, folder) in old(folders) && Collides(old(Model()), box, p))
                && (r.Stored? ==>
                      rows == old(rows)[old(uidSeq).Issued() + 1 := Row(old(nextId), box, folder, p)])
      ensures AllOwn(trace) ==>
                && txs == old(txs) && folders == old(folders) && validitySeq == old(validitySeq)
                && uidSeq.Issued() <= old(uidSeq).Issued() + 1 && (!r.Stored? ==> rows == old(rows))
    {
      hide Ran, Owned, Settled, AllOwn, Exec;
      ghost var start := Model();
      var ok;
      ok, trace := Reserve(t, box, Append(folder, p));
      if !ok {
        return Failed, trace;
      }
      ghost var reserved := trace;
      trace := Pause(t, start, trace);
      AllOwnPrefix(reserved, trace);
      r, trace := SettleInsert(t, folder, p, start, trace);
    }

    method SettleInsert(t: nat, folder: string, p: Payload, ghost start: State, ghost before: seq<Act<Step>>)
      returns (r: Insertion, ghost trace: seq<Act<Step>>)
      requires t in txs && txs[t].job == Append(folder, p) && txs[t].wanted == [p] && |txs[t].uids| == 1
      requires Ran(start, before, Model())
      modifies this
      ensures Ran(start, trace, Model())
      ensures trace == before + [Own(if r.Stored? then Commit(t) else Abort(t))]
      ensures Owned(trace) == Owned(before) + [if r.Stored? then Commit(t) else Abort(t)]
      ensures AllOwn(trace) <==> AllOwn(before)
      ensures !r.Failed? ==> Settled(start, trace, t, old(txs)[t].box, Append(folder, p), r)
      ensures Exec(start, Steps(trace[..|trace| - 1])) == old(Model())
      ensures r.Stored? <==> Key(old(txs)[t].box, folder) in old(folders) && !Collides(old(Model()), old(txs)[t].box, p)
      ensures r.Duplicate? <==>
              Key(old(txs)[t].box, folder) in old(folders) && Collides(old(Model()), old(txs)[t].box, p)
      ensures txs == old(txs) - {t} && folders == old(folders) && validitySeq == old(validitySeq)
      ensures uidSeq == old(uidSeq)
      ensures rows == if r.Stored?
                      then old(rows)[old(txs)[t].uids[0] := Row(old(nextId), old(txs)[t].box, folder, p)]
                      else old(rows)
    {
      ghost var mid := Model();
      r := FinishInsert(t);
      ghost var last := if r.Stored? then Commit(t) else Abort(t);
      RanOwn(start, before, mid, last);
      trace := before + [Own(last)];
      assert trace[..|trace| - 1] == before;
      AllOwnPart(before, [Own(last)]);
    }

    /** APPEND: outside SMTP deduplication, \Seen turned into a read mark, \Recent dropped. */
    method AppendIMAP(t: nat, box: Box, folder: string, source: string, messageId: string, flags: seq<string>,
          date: int)
      returns (r: Insertion, ghost trace: seq<Act<Step>>)
      requires box in boxes && t !in txs
      modifies this
      ensures Ran(old(Model()), trace, Model()) && !r.Duplicate?
      ensures var p := Payload(source, messageId, Storable(flags), "\\Seen" in flags, date, false);
              r.Stored? ==>
                && Owned(trace) == [Lock(t, box, Append(folder, p)), Allocate(t), Commit(t)]
                && trace != []
                && var last := Exec(old(Model()), Steps(trace[..|trace| - 1]));
                   && t in last.txs && |last.txs[t].uids| == 1
                   && rows == last.rows[last.txs[t].uids[0] := Row(last.nextId, box, folder, p)]
      ensures AllOwn(trace) && LockFree(old(Model()), box) && old(uidSeq).Issued() < 4294967294 ==>
                (r.Stored? <==> Key(box, folder) in old(folders))
    {
      var clean, seen := CleanFlags(flags);
      r, trace := InsertMessage(t, box, folder, Payload(source, messageId, clean, seen, date, false));
    }

    // -------------------------------------------------------------- moving

    /** The `INSERT ... SELECT` of an IMAP MOVE reads its rows. */
    method ReadForMove(t: nat)
      requires t in txs && txs[t].job.Move? && txs[t].uids == []
      modifies this
      ensures Model() == Apply(old(Model()), Capture(t))
      ensures t in txs && txs[t].box == old(txs)[t].box && txs[t].job == old(txs)[t].job && txs[t].uids == []
      ensures folders == old(folders) && uidSeq == old(uidSeq)
      ensures |txs[t].wanted| ==
              |Picked(old(Model()), Key(old(txs)[t].box, old(txs)[t].job.source), old(txs)[t].job.ids)|
    {
      var tx := txs[t];
      var us := SortedList(Picked(Model(), Key(tx.box, tx.job.source), tx.job.ids));
      txs := txs[t := tx.(origin := us, wanted := Copies(Model(), us))];
    }

    /** ... and after its copies, the DELETE and the commit. */
    method FinishMove(t: nat) returns (ok: bool)
      requires t in txs && txs[t].job.Move? && |txs[t].uids| == |txs[t].wanted| && txs[t].job.source != txs[t].job.dest
      modifies this
      ensures ok <==> CanCommit(old(Model()), t)
      ensures ok <==> Key(old(txs)[t].box, old(txs)[t].job.dest) in old(folders)
      ensures Model() == Apply(old(Model()), if ok then Commit(t) else Abort(t))
    {
      var tx := txs[t];
      ok := Key(tx.box, tx.job.dest) in folders;
      if ok {
        var left := Without(rows, Picked(Model(), Key(tx.box, tx.job.source), tx.job.ids));
        rows := Insert(left, tx.uids, tx.wanted, tx.box, tx.job.dest, nextId);
        nextId := nextId + |tx.uids|;
      }
      txs := txs - {t};
    }

    /**
     An IMAP MOVE: lock, read, one UID per copy, then delete and commit; others run in between. If none do, it goes
     through when the lock is free, the destination is there and UIDs are left for the rows to move.
     */
    method MoveRows(t: nat, box: Box, source: string, dest: string, ids: set<nat>, ghost start: State,
          ghost before: seq<Act<Step>>)
      returns (ok: bool, ghost trace: seq<Act<Step>>, ghost read: nat)
      requires box in boxes && t !in txs && source != dest
      requires Valid(start) && t !in start.txs && Ran(start, before, Model()) && Owned(before) == []
      modifies this
      ensures Ran(start, trace, Model())
      ensures ok ==> MoveSteps(Owned(trace), t, box, Move(source, dest, ids))
      ensures ok ==> MoveTrace(start, trace, read, t, box, Move(source, dest, ids))
      ensures Inside(Owned(trace), t) && before <= trace
      ensures AllOwn(trace) && LockFree(old(Model()), box) && Key(box, dest) in old(folders) &&
              old(uidSeq).Issued() + |Picked(old(Model()), Key(box, source), ids)| <= 4294967294 ==>
                ok
    {
      hide Ran, Owned, HasRead, MoveTrace, CanCommit, AllOwn, Picked;
      ghost var n;
      ok, trace, read, n := ReserveMove(t, box, source, dest, ids, start, before);
      if !ok {
        return;
      }
      ghost var drawn := trace;
      trace := Pause(t, start, trace);
      ReadsOn(start, drawn, trace, read, t, box, Move(source, dest, ids));
      ghost var mid := Model();
      ok := FinishMove(t);
      ghost var end := if ok then Commit(t) else Abort(t);
      RanOwn(start, trace, mid, end);
      if ok { EndsMove(start, trace, mid, read, t, box, Move(source, dest, ids)); }
      AllOwnPart(trace, [Own(end)]);
      AllOwnPrefix(drawn, trace);
      trace := trace + [Own(end)];
      assert ok ==> Owned(trace) == [Lock(t, box, Move(source, dest, ids)), Capture(t)] + Draws(t, n) + [Commit(t)];
    }

    method ReserveMove(t: nat, box: Box, source: string, dest: string, ids: set<nat>, ghost start: State,
          ghost before: seq<Act<Step>>)
      returns (ok: bool, ghost trace: seq<Act<Step>>, ghost read: nat, ghost n: nat)
      requires box in boxes && t !in txs
      requires Valid(start) && t !in start.txs && Ran(start, before, Model()) && Owned(before) == []
      modifies this
      ensures Ran(start, trace, Model())
      ensures ok ==> Owned(trace) == [Lock(t, box, Move(source, dest, ids)), Capture(t)] + Draws(t, n)
      ensures ok ==>
                t in txs && txs[t].box == box && txs[t].job == Move(source, dest, ids) &&
                  |txs[t].uids| == |txs[t].wanted|
      ensures ok ==> HasRead(start, trace, read, t, box, Move(source, dest, ids))
      ensures Inside(Owned(trace), t) && before <= trace
      ensures AllOwn(trace) && LockFree(old(Model()), box) &&
              old(uidSeq).Issued() + |Picked(old(Model()), Key(box, source), ids)| <= 4294967294 ==>
                ok && folders == old(folders)
    {
      hide Ran, Owned, HasRead, Valid, AllOwn, Picked;
      n := 0;
      ok, trace, read := BeginMove(t, box, source, dest, ids, start, before);
      if !ok {
        return;
      }
      ghost var done := trace;
      ok, trace, n := DrawAll(t, start, trace);
      AllOwnPrefix(done, trace);
      if ok { ReadsOn(start, done, trace, read, t, box, Move(source, dest, ids)); }
    }

    /** The lock and the read. */
    method BeginMove(t: nat, box: Box, source: string, dest: string, ids: set<nat>, ghost start: State,
          ghost before: seq<Act<Step>>)
      returns (ok: bool, ghost trace: seq<Act<Step>>, ghost read: nat)
      requires box in boxes && t !in txs
      requires Valid(start) && t !in start.txs && Ran(start, before, Model()) && Owned(before) == []
      modifies this
      ensures Ran(start, trace, Model()) && Inside(Owned(trace), t) && before <= trace && (!ok ==> trace == before)
      ensures ok ==>
                && Owned(trace) == [Lock(t, box, Move(source, dest, ids)), Capture(t)]
                && t in txs && txs[t].box == box && txs[t].job == Move(source, dest, ids) && txs[t].uids == []
                && HasRead(start, trace, read, t, box, Move(source, dest, ids))
      ensures AllOwn(trace) ==>
                && (ok <==> LockFree(old(Model()), box))
                && (ok ==> folders == old(folders) && uidSeq == old(uidSeq) &&
                           |txs[t].wanted| == |Picked(old(Model()), Key(box, source), ids)|)
    {
      hide Ran, Owned, HasRead, Valid, AllOwn, Picked;
      trace, read := before, 0;
      var job := Move(source, dest, ids);
      ok := TakeLock(t, box, job);
      if !ok {
        return;
      }
      RanOwn(start, before, old(Model()), Lock(t, box, job));
      trace := Pause(t, start, before + [Own(Lock(t, box, job))]);
      read := |trace|;
      ghost var mid := Model();
      SamePicked(old(Model()), mid, Key(box, source), ids);
      ReadsNow(start, trace, mid, t, box, job);
      ReadForMove(t);
      RanOwn(start, trace, mid, Capture(t));
      AllOwnPart(trace, [Own(Capture(t))]);
      trace := trace + [Own(Capture(t))];
    }

    /** One UID per copy. */
    method DrawAll(t: nat, ghost start: State, ghost before: seq<Act<Step>>)
      returns (ok: bool, ghost trace: seq<Act<Step>>, ghost n: nat)
      requires t in txs && txs[t].uids == [] && Ran(start, before, Model())
      modifies this
      ensures Ran(start, trace, Model()) && before <= trace
      ensures ok ==> Owned(trace) == Owned(before) + Draws(t, n) && GoesOn(before, trace, t)
      ensures Inside(Owned(before), t) ==> Inside(Owned(trace), t)
      ensures ok ==>
                t in txs && txs[t].box == old(txs)[t].box && txs[t].job == old(txs)[t].job &&
                  |txs[t].uids| == |txs[t].wanted|
      ensures AllOwn(trace) && old(uidSeq).Issued() + |old(txs)[t].wanted| <= 4294967294 ==>
                ok && folders == old(folders)
    {
      hide Ran, Owned, AllOwn;
      trace, n := before, 0;
      assert Owned(trace) == Owned(before) + Draws(t, 0);
      while |txs[t].uids| < |txs[t].wanted|
        invariant t in txs && txs[t] == old(txs)[t].(uids := txs[t].uids) && |txs[t].uids| <= |txs[t].wanted|
        invariant Ran(start, trace, Model()) && Owned(trace) == Owned(before) + Draws(t, n) && GoesOn(before, trace, t)
        invariant AllOwn(trace) ==>
                    uidSeq.Issued() == old(uidSeq).Issued() + |txs[t].uids| && folders == old(folders)
        decreases |old(txs)[t].wanted| - |txs[t].uids|
      {
        ghost var drawn := trace;
        trace := Pause(t, start, trace);
        ghost var paused := trace;
        ok, trace := DrawNext(t, start, trace);
        AllOwnPrefix(paused, trace);
        AllOwnPrefix(drawn, paused);
        if !ok {
          return;
        }
        assert Draws(t, n + 1) == Draws(t, n) + [Allocate(t)];
        n := n + 1;
      }
      ok := true;
    }

    /** One UID; an exhausted sequence rolls the transaction back. */
    method DrawNext(t: nat, ghost start: State, ghost before: seq<Act<Step>>)
      returns (ok: bool, ghost trace: seq<Act<Step>>)
      requires t in txs && Ran(start, before, Model())
      modifies this
      ensures Ran(start, trace, Model()) && before + [Own(Allocate(t))] <= trace
      ensures ok ==> trace == before + [Own(Allocate(t))] && Owned(trace) == Owned(before) + [Allocate(t)]
      ensures ok ==> t in txs && txs[t] == old(txs)[t].(uids := old(txs)[t].uids + [uidSeq.Issued()])
      ensures !ok ==> Owned(trace) == Owned(before) + [Allocate(t), Abort(t)]
      ensures ok <==> old(uidSeq).Issued() < 4294967294
      ensures Model() == if ok then Apply(old(Model()), Allocate(t)) else Apply(old(Model()), Abort(t))
    {
      ghost var mid := Model();
      ok := Draw(t);
      RanOwn(start, before, mid, Allocate(t));
      trace := before + [Own(Allocate(t))];
      if !ok {
        mid := Model();
        Rollback(t);
        RanOwn(start, trace, mid, Abort(t));
        trace := trace + [Own(Abort(t))];
      }
    }

    /** The UPDATE of an HTTP move and its commit; row ids are unique. */
    method FinishRelocate(t: nat) returns (r: Reply)
      requires t in txs && txs[t].job.Relocate? && IdsOk(Model())
      modifies this
      ensures r.Done? <==> CanCommit(old(Model()), t)
      ensures Model() == Apply(old(Model()), if r.Done? then Commit(t) else Abort(t))
    {
      var tx := txs[t];
      var key := Key(tx.box, tx.job.folder);
      var found := set u | u in rows && rows[u].box == tx.box && rows[u].id == tx.job.id;
      assert forall u :: HasId(Model(), tx.box, tx.job.id, u) <==> u in found;
      if (key.name != INBOX && key.name != JUNK) || validitySeq.Exhausted() || found == {} {
        txs := txs - {t};
        return Refused;
      }
      var u :| u in found;
      assert HasId(Model(), tx.box, tx.job.id, u) && u == UidOf(Model(), tx.box, tx.job.id);
      if rows[u].folder != tx.job.folder && |tx.uids| != 1 {
        txs := txs - {t};
        return Refused;
      }
      if rows[u].folder != tx.job.folder {
        rows := Without(rows, {u})[tx.uids[0] := rows[u].(folder := tx.job.folder)];
      }
      txs := txs - {t};
      var ready := EnsureFolder(Model(), key);
      folders, validitySeq := ready.folders, ready.validitySeq;
      r := Done;
    }

    /**
     HTTP move into INBOX or Junk: the row stays, and draws a fresh UID exactly if, when it is looked up, it lies in
     another folder. A row that lies elsewhere at the commit has therefore drawn one. With nobody in between, a free
     lock and numbers left, it moves every message there is.
     */
    method MoveMessage(t: nat, box: Box, id: nat, folder: string)
      returns (r: Reply, ghost trace: seq<Act<Step>>, ghost look: nat)
      requires box in boxes && t !in txs && Valid(Model())
      modifies this
      ensures Ran(old(Model()), trace, Model())
      ensures r.Done? ==> (folder == INBOX || folder == JUNK) && look < |trace| && trace[|trace| - 1] == Own(Commit(t))
      ensures r.Done? ==>
                Owned(trace) == [Lock(t, box, Relocate(id, folder))]
                                + DrawIf(t, Elsewhere(Exec(old(Model()), Steps(trace[..look])), box, id, folder))
                                + [Commit(t)]
      ensures r.Done? ==> var last := Exec(old(Model()), Steps(trace[..|trace| - 1]));
                          && t in last.txs && last.txs[t].box == box && last.txs[t].job == Relocate(id, folder) &&
                             CanCommit(last, t)
                          && (Elsewhere(last, box, id, folder) ==> Allocate(t) in Owned(trace))
      ensures !r.Done? ==> Commit(t) !in Owned(trace)
      ensures AllOwn(trace) && folder in {"INBOX", "Junk"} && LockFree(old(Model()), box) &&
              old(uidSeq).Issued() < 4294967294 && old(validitySeq).Issued() < 4294967294 &&
              (exists u | u in old(rows) :: old(rows)[u].box == box && old(rows)[u].id == id) ==>
                r.Done?
    {
      hide Ran, Valid, AllOwn, CanCommit, Elsewhere, Exec, Owned;
      ghost var start := Model();
      trace, look := [], 0;
      RanNothing(start);
      if folder != INBOX && folder != JUNK {
        return Refused, trace, look;
      }
      var ok := TakeLock(t, box, Relocate(id, folder));
      if !ok {
        return Refused, trace, look;
      }
      RanOwn(start, [], start, Lock(t, box, Relocate(id, folder)));
      trace := Pause(t, start, [] + [Own(Lock(t, box, Relocate(id, folder)))]);
      ghost var locked := trace;
      SameRow(start, Model(), box, id, folder);
      r, trace, look := LookAndMove(t, box, id, folder, start, trace);
      AllOwnPrefix(locked, trace);
    }

    /** The row's folder decides whether a UID is drawn. */
    method LookAndMove(t: nat, box: Box, id: nat, folder: string, ghost start: State, ghost before: seq<Act<Step>>)
      returns (r: Reply, ghost trace: seq<Act<Step>>, ghost look: nat)
      requires t in txs && txs[t] == StartTx(box, Relocate(id, folder)) && Valid(start) && Ran(start, before, Model())
      requires Owned(before) == [Lock(t, box, Relocate(id, folder))]
      modifies this
      ensures Ran(start, trace, Model()) && look < |trace| &&
              trace[|trace| - 1] == Own(if r.Done? then Commit(t) else Abort(t))
      ensures Owned(trace) == Owned(before)
                              + DrawIf(t, Elsewhere(Exec(start, Steps(trace[..look])), box, id, folder))
                              + [if r.Done? then Commit(t) else Abort(t)]
      ensures r.Done? ==> var last := Exec(start, Steps(trace[..|trace| - 1]));
                          && t in last.txs && last.txs[t].box == box && last.txs[t].job == Relocate(id, folder) &&
                             CanCommit(last, t)
                          && (Elsewhere(last, box, id, folder) ==> Allocate(t) in Owned(trace))
      ensures before <= trace
      ensures AllOwn(trace) && (folder == INBOX || folder == JUNK) && !old(validitySeq).Exhausted() &&
              old(uidSeq).Issued() < 4294967294 && (exists u :: HasId(old(Model()), box, id, u)) ==>
                r.Done?
    {
      hide Valid, Owned, CanCommit, Ran, AllOwn, UidOf, Elsewhere, Exec;
      look := |before|;
      ghost var seen := Model();
      trace := DrawIfElsewhere(t, box, id, folder, start, before);
      ghost var drawn := trace;
      trace := Pause(t, start, trace);
      ghost var last, end := trace, Model();
      SameRow(seen, end, box, id, folder);
      CanRelocate(end, t);
      r, trace := SettleRelocate(t, start, trace);
      AllOwnPrefix(last, trace);
      AllOwnPrefix(drawn, last);
      assert trace[..|trace| - 1] == last && trace[..look] == before;
      RanIs(start, before, seen);
      RanIs(start, last, end);
      if r.Done? && Elsewhere(end, box, id, folder) {
        RelocatesWithUid(end, t, box, id, folder);
      }
    }

    method DrawIfElsewhere(t: nat, box: Box, id: nat, folder: string, ghost start: State, ghost before: seq<Act<Step>>)
      returns (ghost trace: seq<Act<Step>>)
      requires t in txs && txs[t] == StartTx(box, Relocate(id, folder)) && Ran(start, before, Model())
      modifies this
      ensures Ran(start, trace, Model()) && before <= trace
      ensures Owned(trace) == Owned(before) + DrawIf(t, Elsewhere(old(Model()), box, id, folder))
      ensures t in txs && txs[t].box == box && txs[t].job == Relocate(id, folder)
      ensures |txs[t].uids| <= |DrawIf(t, Elsewhere(old(Model()), box, id, folder))|
      ensures rows == old(rows) && validitySeq == old(validitySeq)
      ensures old(uidSeq).Issued() < 4294967294 && Elsewhere(old(Model()), box, id, folder) ==> |txs[t].uids| == 1
    {
      hide Ran, Owned;
      trace := before;
      if exists u | u in rows :: rows[u].box == box && rows[u].id == id && rows[u].folder != folder {
        assert Elsewhere(Model(), box, id, folder) by {
          var u :| u in rows && rows[u].box == box && rows[u].id == id && rows[u].folder != folder;
          assert HasId(Model(), box, id, u);
        }
        ghost var seen := Model();
        var ok := Draw(t);
        RanOwn(start, before, seen, Allocate(t));
        trace := before + [Own(Allocate(t))];
      }
    }

    lemma CanRelocate(s: State, t: nat)
      ensures t in s.txs && s.txs[t].job.Relocate? && !s.validitySeq.Exhausted() &&
              (s.txs[t].job.folder == INBOX || s.txs[t].job.folder == JUNK) &&
              (exists u :: HasId(s, s.txs[t].box, s.txs[t].job.id, u)) &&
              (Elsewhere(s, s.txs[t].box, s.txs[t].job.id, s.txs[t].job.folder) ==> |s.txs[t].uids| == 1) ==>
                CanCommit(s, t)
    {
    }

    lemma RelocatesWithUid(s: State, t: nat, box: Box, id: nat, folder: string)
      requires IdsOk(s) && t in s.txs && s.txs[t].box == box && s.txs[t].job == Relocate(id, folder) && CanCommit(s, t)
      requires Elsewhere(s, box, id, folder)
      ensures |s.txs[t].uids| == 1
    {
      var u :| HasId(s, box, id, u) && s.rows[u].folder != folder;
      assert u == UidOf(s, box, id);
    }

    method SettleRelocate(t: nat, ghost start: State, ghost before: seq<Act<Step>>)
      returns (r: Reply, ghost trace: seq<Act<Step>>)
      requires t in txs && txs[t].job.Relocate? && Valid(start) && Ran(start, before, Model())
      modifies this
      ensures Ran(start, trace, Model()) && IdsOk(old(Model())) && (r.Done? <==> CanCommit(old(Model()), t))
      ensures trace == before + [Own(if r.Done? then Commit(t) else Abort(t))]
      ensures Owned(trace) == Owned(before) + [if r.Done? then Commit(t) else Abort(t)]
    {
      RunKeeps(start, Steps(before));
      ghost var mid := Model();
      r := FinishRelocate(t);
      ghost var last := if r.Done? then Commit(t) else Abort(t);
      RanOwn(start, before, mid, last);
      trace := before + [Own(last)];
    }
  }

  ghost function DrawIf(t: nat, elsewhere: bool): seq<Step> { if elsewhere then [Allocate(t)] else [] }

  lemma SameRow(s: State, r: State, box: Box, id: nat, folder: string)
    ensures s.rows == r.rows ==>
              && Elsewhere(s, box, id, folder) == Elsewhere(r, box, id, folder)
              && ((exists u :: HasId(s, box, id, u)) <==> exists u :: HasId(r, box, id, u))
              && ((exists u | u in s.rows :: s.rows[u].box == box && s.rows[u].id == id) <==>
                  exists u :: HasId(r, box, id, u))
  {
    if s.rows != r.rows { return; }
    forall u ensures HasId(s, box, id, u) == HasId(r, box, id, u) { }
    if u :| u in s.rows && s.rows[u].box == box && s.rows[u].id == id { assert HasId(s, box, id, u); }
  }

  /** The row lies in another folder. */
  ghost predicate Elsewhere(s: State, box: Box, id: nat, folder: string) {
    exists u :: HasId(s, box, id, u) && s.rows[u].folder != folder
  }
}
