/**
 Signing in against a password change. A login reads the hash, compares the password outside any transaction, and only
 then opens a session; a change may come in between. Each transaction takes the user's row lock first and is broken
 into its statements here: its writes show at commit, and its revocation reaches the sessions committed when it ran.
 */
module PasswordSessions {
  import opened Ascending
  import opened Traces
  import opened Wrappers

  datatype Account = Account(hash: Option<string>, mustChange: bool)

  /** `provedBy` is the stored hash a login was checked against; other ways to sign in have none. */
  datatype Session = Session(user: nat, provedBy: Option<string>, revoked: bool)

  /** An open transaction, holding its user's row lock. */
  datatype Tx = Minting(user: nat, proved: Option<string>)
    | Changing(user: nat, hash: Option<string>, doomed: Option<set<nat>>)

  datatype State = State(accounts: map<nat, Account>, sessions: map<nat, Session>, nextSession: nat, txs: map<nat, Tx>)

  datatype Step =
    | Register(user: nat, account: Account)
    | LockUser(tx: nat, start: Tx)
    | Prove(tx: nat, verified: string)
    | SetHash(tx: nat, hash: string)
    | Doom(tx: nat)
    | Commit(tx: nat)
    | Abort(tx: nat)
    | StartSession(user: nat)
    | Revoke(session: nat)
    | RevokeAll(user: nat)

  predicate LockFree(s: State, user: nat) {
    forall t | t in s.txs :: s.txs[t].user != user
  }

  predicate IsBlank(tx: Tx) {
    tx == Minting(tx.user, None) || tx == Changing(tx.user, None, None)
  }

  function Open(s: State, user: nat): set<nat> {
    set i | i in s.sessions && s.sessions[i].user == user && !s.sessions[i].revoked
  }

  function Revoked(sessions: map<nat, Session>, ids: set<nat>): map<nat, Session> {
    map i | i in sessions :: if i in ids then sessions[i].(revoked := true) else sessions[i]
  }

  function Proved(s: State, t: nat, verified: string): State {
    if t in s.txs && s.txs[t].Minting? && s.txs[t].user in s.accounts &&
      s.accounts[s.txs[t].user].hash == Some(verified)
    then s.(txs := s.txs[t := s.txs[t].(proved := Some(verified))]) else s
  }

  function Committed(s: State, t: nat): State
    requires t in s.txs
  {
    var tx, done := s.txs[t], s.(txs := s.txs - {t});
    match tx
    case Minting(user, proved) =>
      if proved.None? then done
      else done.(sessions := s.sessions[s.nextSession := Session(user, proved, false)],
                 nextSession := s.nextSession + 1)
    case Changing(user, hash, doomed) =>
      if hash.None? || doomed.None? then done
      else done.(accounts := s.accounts[user := Account(hash, false)], sessions := Revoked(s.sessions, doomed.value))
  }

  function Apply(s: State, e: Step): State {
    match e
    case Register(user, account) => if user in s.accounts then s else s.(accounts := s.accounts[user := account])
    case LockUser(t, tx) =>
      if t !in s.txs && tx.user in s.accounts && LockFree(s, tx.user) && IsBlank(tx) then s.(txs := s.txs[t := tx])
      else s
    case Prove(t, verified) => Proved(s, t, verified)
    case SetHash(t, hash) =>
      if t in s.txs && s.txs[t].Changing? then s.(txs := s.txs[t := s.txs[t].(hash := Some(hash))]) else s
    case Doom(t) =>
      if t in s.txs && s.txs[t].Changing? then s.(txs := s.txs[t := s.txs[t].(doomed := Some(Open(s, s.txs[t].user)))])
      else s
    case Commit(t) => if t in s.txs then Committed(s, t) else s
    case Abort(t) => s.(txs := s.txs - {t})
    case StartSession(user) =>
      s.(sessions := s.sessions[s.nextSession := Session(user, None, false)], nextSession := s.nextSession + 1)
    case Revoke(i) => s.(sessions := Revoked(s.sessions, {i}))
    case RevokeAll(user) => s.(sessions := Revoked(s.sessions, Open(s, user)))
  }

  function Exec(s: State, steps: seq<Step>): State
    decreases |steps|
  {
    if steps == [] then s else Apply(Exec(s, steps[..|steps| - 1]), steps[|steps| - 1])
  }

  // ---------------------------------------------------------------- the invariant

  /** What the lock protects: a proof stays true, and a revocation complete, until its transaction ends. */
  ghost predicate TxOk(s: State, tx: Tx) {
    && tx.user in s.accounts
    && (tx.Minting? && tx.proved.Some? ==> s.accounts[tx.user].hash == tx.proved)
    && (tx.Changing? && tx.doomed.Some? ==> forall i | i in tx.doomed.value :: i < s.nextSession)
    && (tx.Changing? && tx.doomed.Some? ==>
          forall i | i in s.sessions && s.sessions[i].user == tx.user && s.sessions[i].provedBy.Some? ::
            s.sessions[i].revoked || i in tx.doomed.value)
  }

  /** Every open session a login minted was minted against the hash now stored. */
  ghost predicate SessionsCurrent(s: State) {
    forall i | i in s.sessions && s.sessions[i].provedBy.Some? && !s.sessions[i].revoked ::
      s.sessions[i].user in s.accounts && s.accounts[s.sessions[i].user].hash == s.sessions[i].provedBy
  }

  ghost predicate Valid(s: State) {
    && SessionsCurrent(s)
    && (forall i | i in s.sessions :: i < s.nextSession)
    && (forall t | t in s.txs :: TxOk(s, s.txs[t]))
    && (forall t, o | t in s.txs && o in s.txs && s.txs[t].user == s.txs[o].user :: t == o)
  }

  lemma CommitKeeps(s: State, t: nat)
    requires Valid(s) && t in s.txs
    ensures Valid(Committed(s, t))
  {
    var r := Committed(s, t);
    assert TxOk(s, s.txs[t]);
    forall o | o in r.txs ensures TxOk(r, r.txs[o]) {
      assert TxOk(s, s.txs[o]) && s.txs[o].user != s.txs[t].user;
    }
  }

  lemma StepKeeps(s: State, e: Step)
    requires Valid(s)
    ensures Valid(Apply(s, e))
  {
    if e.Commit? && e.tx in s.txs {
      CommitKeeps(s, e.tx);
    } else {
      var r := Apply(s, e);
      forall o | o in r.txs ensures TxOk(r, r.txs[o]) {
        assert o in s.txs ==> TxOk(s, s.txs[o]);
      }
    }
  }

  lemma {:induction false} RunKeeps(s: State, steps: seq<Step>)
    requires Valid(s)
    ensures Valid(Exec(s, steps))
    decreases |steps|
  {
    if steps != [] {
      RunKeeps(s, steps[..|steps| - 1]);
      StepKeeps(Exec(s, steps[..|steps| - 1]), steps[|steps| - 1]);
    }
  }

  const Initial := State(map[], map[], 0, map[])

  /** In every interleaving of logins with password changes. */
  lemma {:induction false} LoginsAreCurrent(steps: seq<Step>)
    ensures SessionsCurrent(Exec(Initial, steps))
  {
    RunKeeps(Initial, steps);
  }

  lemma ExecLast(s: State, steps: seq<Step>, e: Step)
    ensures Exec(s, steps + [e]) == Apply(Exec(s, steps), e)
  {
    assert (steps + [e])[..|steps + [e]| - 1] == steps;
  }

  lemma {:induction false} ExecConcat(s: State, a: seq<Step>, b: seq<Step>)
    ensures Exec(s, a + b) == Exec(Exec(s, a), b)
    decreases |b|
  {
    if b == [] {
      assert a + b == a;
    } else {
      assert (a + b)[..|a + b| - 1] == a + b[..|b| - 1];
      ExecConcat(s, a, b[..|b| - 1]);
    }
  }

  /** The lock is what this rests on: a session opened without it, after the revocation ran, stays open. */
  lemma UnlockedSessionSlipsIn(s: State, t: nat)
    requires Valid(s) && t in s.txs && s.txs[t].Changing? && s.txs[t].hash.Some? && s.txs[t].doomed.Some?
    ensures var user, r := s.txs[t].user, Exec(s, [StartSession(s.txs[t].user), Commit(t)]);
            user in r.accounts && r.accounts[user].hash == s.txs[t].hash && s.nextSession in Open(r, user)
  {
    hide Exec;
    var start := StartSession(s.txs[t].user);
    ExecTwo(s, start, Commit(t));
    assert TxOk(s, s.txs[t]);
  }

  lemma ExecTwo(s: State, a: Step, b: Step)
    ensures Exec(s, [a, b]) == Apply(Apply(s, a), b)
  {
    assert [] + [a] == [a] && [a] + [b] == [a, b];
    ExecLast(s, [], a);
    ExecLast(s, [a], b);
  }

  // ---------------------------------------------------------------- traces

  ghost predicate Ran(s: State, acts: seq<Act<Step>>, r: State) {
    r == Exec(s, Steps(acts))
  }

  lemma RanNothing(s: State)
    ensures Ran(s, [], s) && Owned<Step>([]) == []
  {
  }

  lemma RanOwn(s: State, acts: seq<Act<Step>>, r: State, e: Step)
    requires Ran(s, acts, r)
    ensures Ran(s, acts + [Own(e)], Apply(r, e)) && Owned(acts + [Own(e)]) == Owned(acts) + [e]
  {
    OwnedOwn(acts, e);
    ExecLast(s, Steps(acts), e);
  }

  lemma RanThen(s: State, acts: seq<Act<Step>>, mid: State, more: seq<Act<Step>>, r: State)
    requires Ran(s, acts, mid) && Ran(mid, more, r)
    ensures Ran(s, acts + more, r)
  {
    StepsConcat(acts, more);
    ExecConcat(s, Steps(acts), Steps(more));
  }

  lemma RanOthers(s: State, acts: seq<Act<Step>>, mid: State, more: seq<Act<Step>>, r: State)
    requires Ran(s, acts, mid) && Ran(mid, more, r) && forall a | a in more :: a.Other?
    ensures Ran(s, acts + more, r) && Owned(acts + more) == Owned(acts)
  {
    RanThen(s, acts, mid, more, r);
    OwnedOthers(acts, more);
  }

  predicate Concerns(e: Step, t: nat) {
    (e.LockUser? || e.Prove? || e.SetHash? || e.Doom? || e.Commit? || e.Abort?) && e.tx == t
  }

  predicate Foreign(acts: seq<Act<Step>>, t: nat) {
    forall a | a in acts :: a.Other? && !Concerns(a.step, t)
  }

  /** While a transaction holds the row lock nobody else changes the account; and nobody else steps inside it. */
  lemma {:induction false} LockHolds(s: State, acts: seq<Act<Step>>, t: nat)
    requires Valid(s) && Foreign(acts, t)
    ensures var r := Exec(s, Steps(acts));
            && Valid(r) && (t in r.txs <==> t in s.txs)
            && (t in s.txs ==> r.txs[t] == s.txs[t] && s.txs[t].user in r.accounts
                               && r.accounts[s.txs[t].user] == s.accounts[s.txs[t].user])
    decreases |acts|
  {
    if acts != [] {
      var front, last := acts[..|acts| - 1], acts[|acts| - 1];
      assert last in acts;
      LockHolds(s, front, t);
      assert Steps(acts)[..|acts| - 1] == Steps(front);
      StepKeeps(Exec(s, Steps(front)), last.step);
      LockHoldsStep(Exec(s, Steps(front)), last.step, t);
    } else if t in s.txs {
      assert TxOk(s, s.txs[t]);
    }
  }

  lemma LockHoldsStep(s: State, e: Step, t: nat)
    requires Valid(s) && !Concerns(e, t)
    ensures var r := Apply(s, e);
            && (t in r.txs <==> t in s.txs)
            && (t in s.txs ==> r.txs[t] == s.txs[t] && s.txs[t].user in r.accounts
                               && r.accounts[s.txs[t].user] == s.accounts[s.txs[t].user])
  {
    if t in s.txs { assert TxOk(s, s.txs[t]); }
  }

  /** All sessions of the user are over, the others as they were. */
  ghost predicate RevokedOf(before: map<nat, Session>, now: map<nat, Session>, user: nat) {
    now.Keys == before.Keys
    && forall i | i in now :: now[i] == if before[i].user == user then before[i].(revoked := true) else before[i]
  }

  // ---------------------------------------------------------------- the service

  datatype Outcome = Done | Denied | Failed

  class Accounts {
    var accounts: map<nat, Account>
    var sessions: map<nat, Session>
    var nextSession: nat
    var txs: map<nat, Tx>
    const matches: (string, string) -> bool  // hash and password; bcrypt is not part of this model

    constructor (matches: (string, string) -> bool)
      ensures Model() == Initial && this.matches == matches
    {
      accounts, sessions, nextSession, txs := map[], map[], 0, map[];
      this.matches := matches;
    }

    function Model(): State
      reads this
    {
      State(accounts, sessions, nextSession, txs)
    }

    /** Everything else that happens between two statements. */
    method Interfere(ghost t: nat) returns (ghost acts: seq<Act<Step>>)
      modifies this
      ensures Ran(old(Model()), acts, Model()) && Foreign(acts, t)
    {
      acts := [];
    }

    /** The same, carried on a trace. */
    method Pause(ghost t: nat, ghost start: State, ghost before: seq<Act<Step>>) returns (ghost trace: seq<Act<Step>>)
      requires Valid(start) && Ran(start, before, Model())
      modifies this
      ensures Ran(start, trace, Model()) && Owned(trace) == Owned(before) && Valid(Model()) && before <= trace
      ensures AllOwn(trace) ==> trace == before && Model() == old(Model())
      ensures t in txs <==> t in old(txs)
      ensures t in txs ==> txs[t] == old(txs)[t] && txs[t].user in accounts && txs[t].user in old(accounts)
                           && accounts[txs[t].user] == old(accounts)[txs[t].user]
    {
      ghost var mid := Model();
      RunKeeps(start, Steps(before));
      if t in txs { assert TxOk(mid, txs[t]); }
      ghost var acts := Interfere(t);
      RanOthers(start, before, mid, acts, Model());
      LockHolds(mid, acts, t);
      trace := before + acts;
      if acts != [] { assert acts[0] in acts && trace[|before|] == acts[0]; }
    }

    /** `SELECT ... FROM users WHERE id=$1 FOR UPDATE`; waiting may end in an error. */
    method Lock(t: nat, tx: Tx, ghost start: State, ghost before: seq<Act<Step>>)
      returns (ok: bool, ghost trace: seq<Act<Step>>)
      requires Valid(start) && Ran(start, before, Model()) && t !in txs && IsBlank(tx)
      modifies this
      ensures Ran(start, trace, Model()) && before <= trace && Valid(Model())
      ensures (ok <==> tx.user in old(accounts) && LockFree(old(Model()), tx.user))
      ensures ok ==> t in txs && txs[t] == tx && Model() == Apply(old(Model()), LockUser(t, tx))
      ensures ok ==> Owned(trace) == Owned(before) + [LockUser(t, tx)]
      ensures !ok ==> trace == before && Model() == old(Model())
    {
      RunKeeps(start, Steps(before));
      trace := before;
      ok := tx.user in accounts && forall o | o in txs :: txs[o].user != tx.user;
      if ok {
        RanOwn(start, before, Model(), LockUser(t, tx));
        trace := before + [Own(LockUser(t, tx))];
        StepKeeps(Model(), LockUser(t, tx));
        txs := txs[t := tx];
      }
    }

    method Rollback(t: nat, ghost start: State, ghost before: seq<Act<Step>>) returns (ghost trace: seq<Act<Step>>)
      requires Ran(start, before, Model())
      modifies this
      ensures Ran(start, trace, Model()) && Owned(trace) == Owned(before) + [Abort(t)] && before <= trace
      ensures accounts == old(accounts) && sessions == old(sessions) && nextSession == old(nextSession)
    {
      RanOwn(start, before, Model(), Abort(t));
      trace := before + [Own(Abort(t))];
      txs := txs - {t};
    }

    /** Opens a session only if the hash that was verified is still the one stored. */
    method StartPasswordSession(user: nat, verified: string, ghost start: State, ghost before: seq<Act<Step>>)
      returns (r: Outcome, session: nat, ghost t: nat, ghost trace: seq<Act<Step>>)
      requires Valid(start) && Ran(start, before, Model())
      modifies this
      ensures Ran(start, trace, Model()) && before <= trace
      ensures Owned(trace) ==
              Owned(before) + (if r.Done? then [LockUser(t, Minting(user, None)), Prove(t, verified), Commit(t)]
                               else if r.Denied? then [LockUser(t, Minting(user, None)), Abort(t)]
                               else [])
      ensures AllOwn(trace) && user in old(accounts) && LockFree(old(Model()), user) &&
              old(accounts)[user].hash == Some(verified) ==>
                r.Done?
      ensures r.Done? ==> user in accounts && accounts[user].hash == Some(verified)
                          && session in sessions && sessions[session] == Session(user, Some(verified), false)
    {
      session := 0;
      var tx := NewId(txs.Keys);
      t := tx;
      var ok;
      ok, trace := Lock(tx, Minting(user, None), start, before);
      if !ok {
        return Failed, session, t, trace;
      }
      trace := Pause(tx, start, trace);
      if accounts[user].hash != Some(verified) {
        trace := Rollback(tx, start, trace);
        return Denied, session, t, trace;
      }
      session, trace := Mint(tx, user, verified, start, trace);
      r := Done;
    }

    /** The comparison under the lock, and the session. */
    method Mint(t: nat, user: nat, verified: string, ghost start: State, ghost before: seq<Act<Step>>)
      returns (session: nat, ghost trace: seq<Act<Step>>)
      requires Valid(start) && Ran(start, before, Model()) && Valid(Model())
      requires t in txs && txs[t] == Minting(user, None) && user in accounts && accounts[user].hash == Some(verified)
      modifies this
      ensures Ran(start, trace, Model())
      ensures Owned(trace) == Owned(before) + [Prove(t, verified), Commit(t)] && before <= trace
      ensures user in accounts && accounts[user].hash == Some(verified)
      ensures session in sessions && sessions[session] == Session(user, Some(verified), false)
    {
      RanOwn(start, before, Model(), Prove(t, verified));
      trace := before + [Own(Prove(t, verified))];
      txs := txs[t := Minting(user, Some(verified))];
      trace := Pause(t, start, trace);
      session, trace := CommitSession(t, user, verified, start, trace);
    }

    /** The INSERT of the session and the commit. */
    method CommitSession(t: nat, user: nat, verified: string, ghost start: State, ghost before: seq<Act<Step>>)
      returns (session: nat, ghost trace: seq<Act<Step>>)
      requires Ran(start, before, Model()) && t in txs && txs[t] == Minting(user, Some(verified))
      modifies this
      ensures Ran(start, trace, Model()) && Owned(trace) == Owned(before) + [Commit(t)]
      ensures before <= trace && accounts == old(accounts)
      ensures session == old(nextSession) && sessions == old(sessions)[session := Session(user, Some(verified), false)]
    {
      RanOwn(start, before, Model(), Commit(t));
      trace := before + [Own(Commit(t))];
      session := nextSession;
      sessions := sessions[session := Session(user, Some(verified), false)];
      nextSession := nextSession + 1;
      txs := txs - {t};
    }

    predicate MayLogIn(s: State, user: nat, password: string) {
      user in s.accounts && LockFree(s, user) && s.accounts[user].hash.Some? &&
        matches(s.accounts[user].hash.value, password)
    }

    /** Read, verify, then the transaction; the password may change in between. */
    method Login(user: Option<nat>, password: string)
      returns (r: Outcome, session: nat, ghost t: nat, ghost trace: seq<Act<Step>>)
      requires Valid(Model())
      modifies this
      ensures Ran(old(Model()), trace, Model())
      ensures r.Done? ==> user.Some? && user.value in old(accounts) && old(accounts)[user.value].hash.Some?
                          && user.value in accounts && accounts[user.value].hash == old(accounts)[user.value].hash
                          && matches(accounts[user.value].hash.value, password)
                          && session in sessions &&
                             sessions[session] == Session(user.value, accounts[user.value].hash, false)
      ensures r.Done? ==>
                Owned(trace) ==
                  [LockUser(t, Minting(user.value, None)), Prove(t, old(accounts)[user.value].hash.value), Commit(t)]
      ensures !r.Done? ==> forall e | e in Owned(trace) :: !e.Commit?
      ensures AllOwn(trace) && user.Some? && MayLogIn(old(Model()), user.value, password) ==> r.Done?
    {
      trace, session, t := [], 0, 0;
      ghost var start := Model();
      if user.None? || user.value !in accounts || accounts[user.value].hash.None? {
        return Denied, session, t, trace;
      }
      var hash := accounts[user.value].hash.value;
      if !matches(hash, password) {
        return Denied, session, t, trace;
      }
      trace := Pause(0, start, trace);
      r, session, t, trace := StartPasswordSession(user.value, hash, start, trace);
    }

    /** Under the row lock: the new hash, the flag, and the revocation, at one commit. */
    method ReplaceHash(t: nat, user: nat, hash: string, ghost start: State, ghost before: seq<Act<Step>>)
      returns (ghost trace: seq<Act<Step>>)
      requires Valid(start) && Ran(start, before, Model()) && Valid(Model())
      requires t in txs && txs[t] == Changing(user, None, None)
      modifies this
      ensures Ran(start, trace, Model()) && Owned(trace) == Owned(before) + [SetHash(t, hash), Doom(t), Commit(t)]
      ensures before + [Own(SetHash(t, hash))] <= trace
      ensures user in accounts && accounts[user] == Account(Some(hash), false)
      ensures forall i | i in sessions && sessions[i].user == user && sessions[i].provedBy.Some? :: sessions[i].revoked
      ensures AllOwn(trace) ==>
                && accounts == old(accounts)[user := Account(Some(hash), false)]
                && RevokedOf(old(sessions), sessions, user) && nextSession == old(nextSession)
    {
      hide Ran, Owned, AllOwn;
      RanOwn(start, before, Model(), SetHash(t, hash));
      trace := before + [Own(SetHash(t, hash))];
      txs := txs[t := Changing(user, Some(hash), None)];
      trace := Pause(t, start, trace);
      ghost var paused := trace;
      var doomed;
      doomed, trace := RevokeOpen(t, user, hash, start, trace);
      ghost var revoked := trace;
      trace := CommitHash(t, user, hash, doomed, start, trace);
      AllOwnPrefix(revoked, trace);
      AllOwnPrefix(paused, revoked);
    }

    /** The statement that revokes, and whatever runs before the commit. */
    method RevokeOpen(t: nat, user: nat, hash: string, ghost start: State, ghost before: seq<Act<Step>>)
      returns (doomed: set<nat>, ghost trace: seq<Act<Step>>)
      requires Valid(start) && Ran(start, before, Model()) && Valid(Model())
      requires t in txs && txs[t] == Changing(user, Some(hash), None)
      modifies this
      ensures Ran(start, trace, Model()) && Valid(Model()) && before <= trace &&
              Owned(trace) == Owned(before) + [Doom(t)]
      ensures t in txs && txs[t] == Changing(user, Some(hash), Some(doomed))
      ensures AllOwn(trace) ==>
                && accounts == old(accounts) && sessions == old(sessions) && nextSession == old(nextSession)
                && doomed == Open(old(Model()), user)
    {
      RanOwn(start, before, Model(), Doom(t));
      trace := before + [Own(Doom(t))];
      doomed := Open(Model(), user);
      txs := txs[t := Changing(user, Some(hash), Some(doomed))];
      trace := Pause(t, start, trace);
    }

    method CommitHash(t: nat, user: nat, hash: string, doomed: set<nat>, ghost start: State,
          ghost before: seq<Act<Step>>)
      returns (ghost trace: seq<Act<Step>>)
      requires Ran(start, before, Model()) && Valid(Model()) && t in txs
      requires txs[t] == Changing(user, Some(hash), Some(doomed))
      modifies this
      ensures Ran(start, trace, Model()) && Owned(trace) == Owned(before) + [Commit(t)] && before <= trace
      ensures user in accounts && accounts[user] == Account(Some(hash), false)
      ensures forall i | i in sessions && sessions[i].user == user && sessions[i].provedBy.Some? :: sessions[i].revoked
      ensures accounts == old(accounts)[user := Account(Some(hash), false)] && nextSession == old(nextSession)
      ensures doomed == Open(old(Model()), user) ==> RevokedOf(old(sessions), sessions, user)
    {
      assert TxOk(Model(), txs[t]);
      RanOwn(start, before, Model(), Commit(t));
      trace := before + [Own(Commit(t))];
      accounts := accounts[user := Account(Some(hash), false)];
      sessions := map i | i in sessions :: if i in doomed then sessions[i].(revoked := true) else sessions[i];
      txs := txs - {t};
    }

    /**
     A new password for an account that has one; every session a login opened is over when it takes effect. With a free
     lock and nobody in between it succeeds for every such account, and ends all its sessions and no other.
     */
    method UpdatePassword(user: nat, hash: string) returns (r: Outcome, ghost t: nat, ghost trace: seq<Act<Step>>)
      requires Valid(Model())
      modifies this
      ensures Ran(old(Model()), trace, Model())
      ensures r.Done? ==>
                Owned(trace) == [LockUser(t, Changing(user, None, None)), SetHash(t, hash), Doom(t), Commit(t)]
      ensures r.Done? ==> user in accounts && accounts[user] == Account(Some(hash), false)
                          && forall i | i in sessions && sessions[i].user == user && sessions[i].provedBy.Some? ::
                               sessions[i].revoked
      ensures !r.Done? ==> Owned(trace) == [] || Owned(trace) == [LockUser(t, Changing(user, None, None)), Abort(t)]
      ensures AllOwn(trace) && user in old(accounts) && (forall o | o in old(txs) :: old(txs)[o].user != user) ==>
                (r.Done? <==> old(accounts)[user].hash.Some?)
      ensures AllOwn(trace) && r.Done? ==>
                && accounts == old(accounts)[user := Account(Some(hash), false)] && sessions.Keys == old(sessions).Keys
                && forall i | i in sessions :: sessions[i] == if old(sessions)[i].user == user
                                                              then old(sessions)[i].(revoked := true)
                                                              else old(sessions)[i]
      ensures AllOwn(trace) && !r.Done? ==> accounts == old(accounts) && sessions == old(sessions)
    {
      hide Ran, Owned, AllOwn;
      ghost var start := Model();
      var tx := NewId(txs.Keys);
      t := tx;
      var ok;
      assert Ran(start, [], start) && Owned<Step>([]) == [] by { RanNothing(start); }
      ok, trace := Lock(tx, Changing(user, None, None), start, []);
      if !ok {
        return Failed, t, trace;
      }
      trace := Pause(tx, start, trace);
      ghost var paused := trace;
      if accounts[user].hash.None? {
        trace := Rollback(tx, start, trace);
        AllOwnPrefix(paused, trace);
        return Denied, t, trace;
      }
      trace := ReplaceHash(tx, user, hash, start, trace);
      AllOwnPrefix(paused, trace);
      r := Done;
    }

    /** The initial password is still in force, and the caller knows it. */
    predicate MayReplace(s: State, user: nat, current: string) {
      user in s.accounts && s.accounts[user].mustChange && s.accounts[user].hash.Some? &&
        matches(s.accounts[user].hash.value, current)
    }

    /**
     The same for an initial password, which must still be in force, be known to the caller, and be changed. The
     caller's fresh session is then the user's only open one.
     */
    method ChangeInitialPassword(user: nat, current: string, password: string, hash: string)
      returns (r: Outcome, session: nat, ghost t: nat, ghost trace: seq<Act<Step>>)
      requires Valid(Model())
      modifies this
      ensures Ran(old(Model()), trace, Model())
      ensures r.Done? ==> current != password
      ensures r.Done? ==>
                Owned(trace) ==
                  [LockUser(t, Changing(user, None, None)), SetHash(t, hash), Doom(t), Commit(t), StartSession(user)]
      ensures r.Done? ==> Checked(old(Model()), trace, Own(SetHash(t, hash)), user, current)
      ensures r.Done? ==> session in sessions && sessions[session] == Session(user, None, false)
      ensures !r.Done? ==> Owned(trace) == [] || Owned(trace) == [LockUser(t, Changing(user, None, None)), Abort(t)]
      ensures AllOwn(trace) && user in old(accounts) && (forall o | o in old(txs) :: old(txs)[o].user != user) ==>
                (r.Done? <==> && current != password && old(accounts)[user].mustChange
                              && old(accounts)[user].hash.Some? && matches(old(accounts)[user].hash.value, current))
      ensures AllOwn(trace) && r.Done? ==>
                && accounts == old(accounts)[user := Account(Some(hash), false)]
                && session !in old(sessions) && sessions.Keys == old(sessions).Keys + {session}
                && forall i | i in old(sessions) :: sessions[i] == if old(sessions)[i].user == user
                                                                   then old(sessions)[i].(revoked := true)
                                                                   else old(sessions)[i]
      ensures AllOwn(trace) && !r.Done? ==> accounts == old(accounts) && sessions == old(sessions)
    {
      hide Ran, Owned, AllOwn, Checked;
      session, t, trace := 0, 0, [];
      assert Ran(Model(), [], Model()) && Owned<Step>([]) == [] by { RanNothing(Model()); }
      if current == password {
        return Denied, session, t, trace;
      }
      ghost var start := Model();
      r, t, trace := ReplaceInitial(user, current, hash);
      if r.Done? {
        ghost var done := trace;
        trace := Pause(t, start, trace);
        ghost var paused := trace;
        session, trace := OpenSession(user, start, trace);
        AllOwnPrefix(paused, trace);
        CheckedLater(start, done, trace, Own(SetHash(t, hash)), user, current);
      }
    }

    /** What a change leaves, if it went through, and what it leaves alone. */
    ghost predicate Replaced(s: State, user: nat, hash: string, done: bool)
      reads this
    {
      && nextSession == s.nextSession
      && (if done then accounts == s.accounts[user := Account(Some(hash), false)] &&
                       RevokedOf(s.sessions, sessions, user)
          else accounts == s.accounts && sessions == s.sessions)
    }

    /** The transaction of an initial password change. */
    method ReplaceInitial(user: nat, current: string, hash: string)
      returns (r: Outcome, ghost t: nat, ghost trace: seq<Act<Step>>)
      requires Valid(Model())
      modifies this
      ensures Ran(old(Model()), trace, Model())
      ensures r.Done? ==>
                Owned(trace) == [LockUser(t, Changing(user, None, None)), SetHash(t, hash), Doom(t), Commit(t)]
      ensures r.Done? ==> Checked(old(Model()), trace, Own(SetHash(t, hash)), user, current)
      ensures !r.Done? ==> Owned(trace) == [] || Owned(trace) == [LockUser(t, Changing(user, None, None)), Abort(t)]
      ensures AllOwn(trace) && LockFree(old(Model()), user) && user in old(accounts) ==>
                (r.Done? <==> MayReplace(old(Model()), user, current))
      ensures AllOwn(trace) ==> Replaced(old(Model()), user, hash, r.Done?)
    {
      hide Ran, Owned, AllOwn, Checked;
      ghost var start := Model();
      var tx := NewId(txs.Keys);
      t := tx;
      var ok;
      assert Ran(start, [], start) && Owned<Step>([]) == [] by { RanNothing(start); }
      ok, trace := Lock(tx, Changing(user, None, None), start, []);
      if !ok {
        return Failed, t, trace;
      }
      ghost var locked := trace;
      ok, trace := CheckAndReplace(tx, user, current, hash, start, trace);
      AllOwnPrefix(locked, trace);
      r := if ok then Done else Denied;
    }

    method CheckAndReplace(t: nat, user: nat, current: string, hash: string, ghost start: State,
          ghost before: seq<Act<Step>>)
      returns (ok: bool, ghost trace: seq<Act<Step>>)
      requires Valid(start) && Ran(start, before, Model()) && Valid(Model())
      requires t in txs && txs[t] == Changing(user, None, None)
      modifies this
      ensures Ran(start, trace, Model())
      ensures Owned(trace) == Owned(before) + (if ok then [SetHash(t, hash), Doom(t), Commit(t)] else [Abort(t)])
      ensures ok ==> Checked(start, trace, Own(SetHash(t, hash)), user, current)
      ensures before <= trace
      ensures AllOwn(trace) ==> (ok <==> MayReplace(old(Model()), user, current))
      ensures AllOwn(trace) ==> Replaced(old(Model()), user, hash, ok)
    {
      hide Owned, AllOwn;
      trace := Pause(t, start, before);
      ghost var paused := trace;
      if !accounts[user].mustChange || accounts[user].hash.None? || !matches(accounts[user].hash.value, current) {
        trace := Rollback(t, start, trace);
        AllOwnPrefix(paused, trace);
        return false, trace;
      }
      ghost var checked := trace;
      trace := ReplaceHash(t, user, hash, start, trace);
      assert trace[|checked|] == Own(SetHash(t, hash)) && trace[..|checked|] == checked;
      AllOwnPrefix(paused, trace);
      ok := true;
    }

    /** When the write was made, the initial password was still in force and known to the caller. */
    ghost predicate Checked(start: State, trace: seq<Act<Step>>, write: Act<Step>, user: nat, current: string) {
      exists k | 0 <= k < |trace| && trace[k] == write :: MayReplace(Exec(start, Steps(trace[..k])), user, current)
    }

    lemma CheckedLater(start: State, before: seq<Act<Step>>, trace: seq<Act<Step>>, write: Act<Step>, user: nat,
          current: string)
      requires before <= trace && Checked(start, before, write, user, current)
      ensures Checked(start, trace, write, user, current)
    {
      var k :| 0 <= k < |before| && before[k] == write && MayReplace(Exec(start, Steps(before[..k])), user, current);
      assert trace[k] == write && trace[..k] == before[..k];
    }

    /** A session that no password was checked for. */
    method OpenSession(user: nat, ghost start: State, ghost before: seq<Act<Step>>)
      returns (session: nat, ghost trace: seq<Act<Step>>)
      requires Ran(start, before, Model())
      modifies this
      ensures Ran(start, trace, Model()) && Owned(trace) == Owned(before) + [StartSession(user)] && before <= trace
      ensures session == old(nextSession) && sessions == old(sessions)[session := Session(user, None, false)]
      ensures accounts == old(accounts)
    {
      RanOwn(start, before, Model(), StartSession(user));
      trace := before + [Own(StartSession(user))];
      session := nextSession;
      sessions := sessions[session := Session(user, None, false)];
      nextSession := nextSession + 1;
    }
  }
}
