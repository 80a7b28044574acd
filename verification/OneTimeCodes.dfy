/**
 One-time codes: how often a code can be guessed, and what a lockout is worth.

 A call reads two clocks. Whether the code has expired is the database's `now()`, the time its transaction began; the
 lock is compared with the time after the row lock was granted. `wait` bounds the difference. The row lock puts the
 calls against one code in a sequence, in which the second clock never goes back.
 */
module OneTimeCodes {
  import opened Rounding
  import opened Wrappers

  const MINUTE := 60
  const VERIFICATION_TTL := 15 * MINUTE
  const OTP_LOCKOUT := 15 * MINUTE
  const MAX_OTP_ATTEMPTS := 7

  datatype Token = Token(digest: string, expires: int, attempts: nat, lockedUntil: Option<int>)

  datatype Policy = Policy(maxAttempts: nat, lockFor: int)

  const DEPLOYED := Policy(MAX_OTP_ATTEMPTS, OTP_LOCKOUT)

  datatype Call = Call(began: int, checked: int, digest: string)

  datatype Reply = NotFound | Locked(until: int) | Right | Wrong(remaining: nat, lockedUntil: Option<int>)

  function Issued(digest: string, at: int, ttl: int): Token {
    Token(digest, at + ttl, 0, None)
  }

  predicate IsLocked(t: Token, c: Call) { t.lockedUntil.Some? && t.lockedUntil.value > c.checked }

  /** The digests are compared only on a live, unlocked, unexpired code. */
  predicate Compares(t: Token, c: Call) { !IsLocked(t, c) && t.expires > c.began }

  /** A passed lock gives a fresh budget. */
  function Spent(t: Token): nat { if t.lockedUntil.Some? then 0 else t.attempts }

  function Counted(t: Token, c: Call, p: Policy): Token {
    t.(attempts := Spent(t) + 1,
       lockedUntil := if Spent(t) + 1 >= p.maxAttempts then Some(c.checked + p.lockFor) else None)
  }

  /** The live code after a call, if it is still live, and the reply. */
  function Consume(t: Token, c: Call, p: Policy): (Option<Token>, Reply) {
    if IsLocked(t, c) then (Some(t), Locked(t.lockedUntil.value))
    else if t.expires <= c.began then (Some(t), NotFound)
    else if t.digest == c.digest then (None, Right)
    else
      var after := Counted(t, c, p);
      (Some(after),
       Wrong(if p.maxAttempts > after.attempts then p.maxAttempts - after.attempts else 0, after.lockedUntil))
  }

  // ---------------------------------------------------------------- runs against one issued code

  function After(t: Token, calls: seq<Call>, p: Policy): Option<Token> {
    if calls == [] then Some(t)
    else
      var before := After(t, calls[..|calls| - 1], p);
      if before.None? then None else Consume(before.value, calls[|calls| - 1], p).0
  }

  /** The reply to call `i`; a consumed code is not found. */
  function ReplyTo(t: Token, calls: seq<Call>, i: nat, p: Policy): Reply
    requires i < |calls|
  {
    var before := After(t, calls[..i], p);
    if before.None? then NotFound else Consume(before.value, calls[i], p).1
  }

  function WrongGuesses(t: Token, calls: seq<Call>, p: Policy): nat {
    if calls == [] then 0
    else
      WrongGuesses(t, calls[..|calls| - 1], p) + (if ReplyTo(t, calls, |calls| - 1, p).Wrong? then 1 else 0)
  }

  function Lockouts(t: Token, calls: seq<Call>, p: Policy): nat {
    if calls == [] then 0
    else
      var last := ReplyTo(t, calls, |calls| - 1, p);
      Lockouts(t, calls[..|calls| - 1], p) + (if last.Wrong? && last.lockedUntil.Some? then 1 else 0)
  }

  predicate OneClock(calls: seq<Call>, at: int, wait: int) {
    && (forall i | 0 <= i < |calls| ::
          at <= calls[i].checked && calls[i].began <= calls[i].checked <= calls[i].began + wait)
    && (forall i, j | 0 <= i < j < |calls| :: calls[i].checked <= calls[j].checked)
  }

  /** The wrong guesses so far fill one budget per lockout, and the current one in part; each lockout took its time. */
  ghost predicate Accounts(t: Token, wrong: nat, locks: nat, at: int, last: int, life: int, p: Policy) {
    && wrong == p.maxAttempts * locks + Spent(t)
    && (t.lockedUntil.None? ==> t.attempts < p.maxAttempts)
    && (t.lockedUntil.None? && t.attempts > 0 ==> locks * p.lockFor < life && last >= at + locks * p.lockFor)
    && (t.lockedUntil.None? && t.attempts == 0 ==> locks == 0)
    && (t.lockedUntil.Some? ==>
          locks > 0 && t.lockedUntil.value >= at + locks * p.lockFor && (locks - 1) * p.lockFor < life)
  }

  lemma AccountsAdvance(t: Token, c: Call, wrong: nat, locks: nat, at: int, last: int, ttl: int, wait: int, p: Policy)
    requires p.maxAttempts >= 1 && p.lockFor > 0 && t.expires == at + ttl
    requires Accounts(t, wrong, locks, at, last, ttl + wait, p)
    requires last <= c.checked && at <= c.checked <= c.began + wait
    requires Compares(t, c)
    ensures var more := if Counted(t, c, p).lockedUntil.Some? then locks + 1 else locks;
            Accounts(Counted(t, c, p), wrong + 1, more, at, c.checked, ttl + wait, p)
  {
    assert c.checked >= at + locks * p.lockFor;
    assert (locks + 1) * p.lockFor == locks * p.lockFor + p.lockFor;
    assert p.maxAttempts * (locks + 1) == p.maxAttempts * locks + p.maxAttempts;
  }

  lemma {:induction false} AccountsRun(t: Token, calls: seq<Call>, at: int, ttl: int, wait: int, p: Policy)
    requires p.maxAttempts >= 1 && p.lockFor > 0 && t == Issued(t.digest, at, ttl) && OneClock(calls, at, wait)
    ensures var r, last := After(t, calls, p), if calls == [] then at else calls[|calls| - 1].checked;
            r.Some? ==> r.value.expires == t.expires && r.value.digest == t.digest
                        && Accounts(r.value, WrongGuesses(t, calls, p), Lockouts(t, calls, p), at, last, ttl + wait, p)
    decreases |calls|
  {
    if calls != [] {
      var front, c := calls[..|calls| - 1], calls[|calls| - 1];
      AccountsRun(t, front, at, ttl, wait, p);
      var before := After(t, front, p);
      if before.Some? && Compares(before.value, c) {
        hide Accounts;
        var last := if front == [] then at else front[|front| - 1].checked;
        AccountsAdvance(before.value, c, WrongGuesses(t, front, p), Lockouts(t, front, p), at, last, ttl, wait, p);
      }
    }
  }

  /** Wrong guesses against one issued code, over any run of calls: one budget per lockout period its life begins. */
  lemma {:induction false} GuessesBounded(t: Token, calls: seq<Call>, at: int, ttl: int, wait: int, p: Policy)
    requires p.maxAttempts >= 1 && p.lockFor > 0 && ttl >= 0 && wait >= 0
    requires t == Issued(t.digest, at, ttl) && OneClock(calls, at, wait)
    ensures WrongGuesses(t, calls, p) <= p.maxAttempts * Ceil(ttl + wait, p.lockFor)
    decreases |calls|
  {
    var r := After(t, calls, p);
    AccountsRun(t, calls, at, ttl, wait, p);
    if r.Some? {
      var last := if calls == [] then at else calls[|calls| - 1].checked;
      AccountsBound(r.value, WrongGuesses(t, calls, p), Lockouts(t, calls, p), at, last, ttl + wait, p);
    } else {
      GuessesBounded(t, calls[..|calls| - 1], at, ttl, wait, p);
    }
  }

  lemma Scale(k: nat, a: int, b: int)
    requires a <= b
    ensures k * a <= k * b
  {
  }

  lemma AccountsBound(t: Token, wrong: nat, locks: nat, at: int, last: int, life: int, p: Policy)
    requires p.maxAttempts >= 1 && p.lockFor > 0 && life >= 0 && Accounts(t, wrong, locks, at, last, life, p)
    ensures wrong <= p.maxAttempts * Ceil(life, p.lockFor)
  {
    var periods := if t.lockedUntil.Some? then locks else if t.attempts > 0 then locks + 1 else 0;
    if periods > 0 { CeilCovers(periods - 1, life, p.lockFor); }
    assert p.maxAttempts * (locks + 1) == p.maxAttempts * locks + p.maxAttempts;
    assert p.maxAttempts * periods <= p.maxAttempts * Ceil(life, p.lockFor) by {
      assert Ceil(life, p.lockFor) >= periods;
      Scale(p.maxAttempts, periods, Ceil(life, p.lockFor));
    }
  }

  // ---------------------------------------------------------------- the bound is reached

  function Repeat(c: Call, n: nat): seq<Call> { seq(n, _ => c) }

  lemma OneCall(t: Token, calls: seq<Call>, c: Call, p: Policy)
    requires After(t, calls, p).Some?
    ensures var (after, reply) := Consume(After(t, calls, p).value, c, p);
            && After(t, calls + [c], p) == after
            && WrongGuesses(t, calls + [c], p) == WrongGuesses(t, calls, p) + (if reply.Wrong? then 1 else 0)
  {
    assert (calls + [c])[..|calls|] == calls;
  }

  /** After `n` wrong guesses in an open budget. */
  function Bursting(t: Token, c: Call, n: nat, p: Policy): Token {
    if n == 0 then t
    else t.(attempts := n, lockedUntil := if n >= p.maxAttempts then Some(c.checked + p.lockFor) else None)
  }

  lemma BurstingStep(t: Token, c: Call, n: nat, p: Policy)
    requires c.digest != t.digest && Spent(t) == 0 && Compares(t, c) && 1 <= n <= p.maxAttempts
    ensures Consume(Bursting(t, c, n - 1, p), c, p).0 == Some(Bursting(t, c, n, p))
    ensures Consume(Bursting(t, c, n - 1, p), c, p).1.Wrong?
  {
  }

  /** A whole budget of wrong guesses at one moment, and the lockout that ends it. */
  lemma {:induction false} Burst(t: Token, calls: seq<Call>, u: Token, c: Call, n: nat, p: Policy)
    requires After(t, calls, p) == Some(u) && c.digest != u.digest
    requires Spent(u) == 0 && Compares(u, c) && n <= p.maxAttempts
    ensures WrongGuesses(t, calls + Repeat(c, n), p) == WrongGuesses(t, calls, p) + n
    ensures After(t, calls + Repeat(c, n), p) == Some(Bursting(u, c, n, p))
    decreases n
  {
    if n == 0 {
      assert calls + Repeat(c, 0) == calls;
    } else {
      Burst(t, calls, u, c, n - 1, p);
      assert calls + Repeat(c, n) == calls + Repeat(c, n - 1) + [c];
      OneCall(t, calls + Repeat(c, n - 1), c, p);
      BurstingStep(u, c, n, p);
    }
  }

  /** `passed` is `n` lockouts long. */
  predicate Whole(passed: int, n: nat, p: Policy)
    decreases n
  {
    if n == 0 then passed == 0 else passed >= p.lockFor && Whole(passed - p.lockFor, n - 1, p)
  }

  lemma WholeIsNatural(passed: int, n: nat, p: Policy)
    requires p.lockFor > 0 && Whole(passed, n, p)
    ensures passed >= 0
  {
  }

  lemma {:induction false} WholeIs(n: nat, p: Policy)
    requires p.lockFor > 0
    ensures Whole(n * p.lockFor, n, p)
  {
    if n > 0 {
      WholeIs(n - 1, p);
      assert n * p.lockFor == (n - 1) * p.lockFor + p.lockFor;
    }
  }

  /** A burst comes the moment the lockout before it passes; its calls may have begun up to `wait` before. */
  function Strike(at: int, passed: int, wait: nat, wrong: string): Call {
    Call(at + passed - (if wait <= passed then wait else passed), at + passed, wrong)
  }

  /** `n` bursts, a lockout apart, the last one `passed - p.lockFor` after issue. */
  function Siege(at: int, passed: int, n: nat, wait: nat, wrong: string, p: Policy): seq<Call>
    decreases n
  {
    if n == 0 then []
    else
      var earlier := passed - p.lockFor;
      Siege(at, earlier, n - 1, wait, wrong, p) + Repeat(Strike(at, earlier, wait, wrong), p.maxAttempts)
  }

  lemma {:induction false} SiegeIsOneClock(at: int, passed: int, n: nat, wait: nat, wrong: string, p: Policy)
    requires p.lockFor > 0 && Whole(passed, n, p)
    ensures OneClock(Siege(at, passed, n, wait, wrong, p), at, wait) && passed >= 0
    ensures forall c | c in Siege(at, passed, n, wait, wrong, p) :: c.checked <= at + passed
    decreases n
  {
    if n > 0 {
      var earlier := passed - p.lockFor;
      var before := Siege(at, earlier, n - 1, wait, wrong, p);
      SiegeIsOneClock(at, earlier, n - 1, wait, wrong, p);
      forall i | 0 <= i < |before| ensures before[i].checked <= at + earlier { assert before[i] in before; }
    }
  }

  function Budgets(n: nat, p: Policy): nat {
    if n == 0 then 0 else Budgets(n - 1, p) + p.maxAttempts
  }

  lemma {:induction false} BudgetsAre(n: nat, p: Policy)
    ensures Budgets(n, p) == p.maxAttempts * n
  {
    if n > 0 {
      BudgetsAre(n - 1, p);
      assert p.maxAttempts * n == p.maxAttempts * (n - 1) + p.maxAttempts;
    }
  }

  /** The code once `n` bursts, ending when `passed` has passed, have hit it. */
  function Besieged(t: Token, at: int, passed: int, n: nat, p: Policy): Token {
    if n == 0 then t else t.(attempts := p.maxAttempts, lockedUntil := Some(at + passed))
  }

  lemma StrikeLands(t: Token, at: int, earlier: int, n: nat, wait: nat, wrong: string, p: Policy)
    requires p.maxAttempts >= 1 && t.attempts == 0 && t.lockedUntil.None?
    requires earlier >= 0 && at < t.expires && at + earlier < t.expires + wait
    ensures var u, c := Besieged(t, at, earlier, n, p), Strike(at, earlier, wait, wrong);
            Spent(u) == 0 && Compares(u, c) &&
              Bursting(u, c, p.maxAttempts, p) == Besieged(t, at, earlier + p.lockFor, n + 1, p)
  {
  }

  lemma {:induction false} SiegeGuesses(t: Token, at: int, passed: int, n: nat, wait: nat, wrong: string, p: Policy)
    requires p.maxAttempts >= 1 && p.lockFor > 0 && Whole(passed, n, p) && wrong != t.digest
    requires t.attempts == 0 && t.lockedUntil.None? && at < t.expires
    requires (n > 0 ==> at + passed - p.lockFor < t.expires + wait)
    ensures WrongGuesses(t, Siege(at, passed, n, wait, wrong, p), p) == Budgets(n, p)
    ensures After(t, Siege(at, passed, n, wait, wrong, p), p) == Some(Besieged(t, at, passed, n, p))
    decreases n
  {
    hide After, WrongGuesses, Besieged;
    if n == 0 {
      NoBurst(t, at, passed, p);
    } else {
      var earlier := passed - p.lockFor;
      WholeIsNatural(earlier, n - 1, p);
      SiegeGuesses(t, at, earlier, n - 1, wait, wrong, p);
      OneMoreBurst(t, at, Siege(at, earlier, n - 1, wait, wrong, p), earlier, n - 1, wait, wrong, p);
      assert Budgets(n, p) == Budgets(n - 1, p) + p.maxAttempts;
    }
  }

  lemma NoBurst(t: Token, at: int, passed: int, p: Policy)
    ensures WrongGuesses(t, [], p) == 0 && After(t, [], p) == Some(t) && Besieged(t, at, passed, 0, p) == t
  {
  }

  lemma OneMoreBurst(t: Token, at: int, calls: seq<Call>, earlier: int, n: nat, wait: nat, wrong: string, p: Policy)
    requires p.maxAttempts >= 1 && t.attempts == 0 && t.lockedUntil.None? && wrong != t.digest
    requires earlier >= 0 && at < t.expires && at + earlier < t.expires + wait
    requires After(t, calls, p) == Some(Besieged(t, at, earlier, n, p))
    ensures var more := calls + Repeat(Strike(at, earlier, wait, wrong), p.maxAttempts);
            && WrongGuesses(t, more, p) == WrongGuesses(t, calls, p) + p.maxAttempts
            && After(t, more, p) == Some(Besieged(t, at, earlier + p.lockFor, n + 1, p))
  {
    StrikeLands(t, at, earlier, n, wait, wrong, p);
    Burst(t, calls, Besieged(t, at, earlier, n, p), Strike(at, earlier, wait, wrong), p.maxAttempts, p);
  }

  /** There is a run with exactly as many wrong guesses as the bound allows. */
  lemma {:induction false} BoundIsReached(t: Token, at: int, ttl: int, wait: nat, wrong: string, p: Policy)
    requires p.maxAttempts >= 1 && p.lockFor > 0 && ttl > 0 && t == Issued(t.digest, at, ttl) && wrong != t.digest
    ensures var n := Ceil(ttl + wait, p.lockFor);
            && n >= 1
            && OneClock(Siege(at, n * p.lockFor, n, wait, wrong, p), at, wait)
            && WrongGuesses(t, Siege(at, n * p.lockFor, n, wait, wrong, p), p) == p.maxAttempts * n
  {
    var n := Ceil(ttl + wait, p.lockFor);
    CeilCovers(0, ttl + wait, p.lockFor);
    CeilTight(ttl + wait, p.lockFor);
    assert n * p.lockFor - p.lockFor == (n - 1) * p.lockFor;
    WholeIs(n, p);
    BudgetsAre(n, p);
    SiegeIsOneClock(at, n * p.lockFor, n, wait, wrong, p);
    SiegeGuesses(t, at, n * p.lockFor, n, wait, wrong, p);
  }

  /**
   The deployed policy: seven guesses if no call waits for its row lock, fourteen if one may wait up to 15 minutes.
   */
  lemma {:induction false} DeployedBound(t: Token, calls: seq<Call>, at: int, wait: int)
    requires t == Issued(t.digest, at, VERIFICATION_TTL) && 0 <= wait <= OTP_LOCKOUT && OneClock(calls, at, wait)
    ensures WrongGuesses(t, calls, DEPLOYED) <= if wait == 0 then 7 else 14
  {
    GuessesBounded(t, calls, at, VERIFICATION_TTL, wait, DEPLOYED);
    assert Ceil(VERIFICATION_TTL + wait, OTP_LOCKOUT) <= if wait == 0 then 1 else 2;
  }

  // ---------------------------------------------------------------- after a lockout

  /** Call `i` locked the code and call `j` was accepted all the same. */
  ghost predicate Outlived(t: Token, calls: seq<Call>, i: nat, j: nat, p: Policy) {
    i < j < |calls| && ReplyTo(t, calls, i, p).Wrong? && ReplyTo(t, calls, i, p).lockedUntil.Some? &&
      ReplyTo(t, calls, j, p).Right?
  }

  /** No run of calls sees a code accepted after it locked. */
  ghost predicate LockIsFinal(digest: string, at: int, ttl: int, wait: int, p: Policy) {
    forall calls, i, j | OneClock(calls, at, wait) :: !Outlived(Issued(digest, at, ttl), calls, i, j, p)
  }

  /** Locked beyond its life: expired, as every call sees it, before the lock passes. */
  lemma {:induction false} StaysLocked(t: Token, calls: seq<Call>, i: nat, n: nat, at: int, ttl: int, wait: int,
        p: Policy)
    requires p.maxAttempts >= 1 && p.lockFor > 0 && ttl + wait <= p.lockFor
    requires t == Issued(t.digest, at, ttl) && OneClock(calls, at, wait) && i < n <= |calls|
    requires ReplyTo(t, calls, i, p).Wrong? && ReplyTo(t, calls, i, p).lockedUntil.Some?
    ensures After(t, calls[..n], p) == After(t, calls[..i + 1], p)
    ensures var r := After(t, calls[..n], p);
            r.Some? && r.value.expires == t.expires && r.value.lockedUntil.Some? &&
              r.value.lockedUntil.value >= at + p.lockFor
  {
    assert calls[..n][..n - 1] == calls[..n - 1] && calls[..n][n - 1] == calls[n - 1];
    if n == i + 1 {
      AccountsRun(t, calls[..i], at, ttl, wait, p);
    } else {
      StaysLocked(t, calls, i, n - 1, at, ttl, wait, p);
    }
  }

  /** `n` wrong guesses at the moment of issue. */
  lemma WrongAtOnce(t: Token, at: int, ttl: int, wrong: string, n: nat, p: Policy)
    requires t == Issued(t.digest, at, ttl) && ttl > 0 && wrong != t.digest && n <= p.maxAttempts && p.maxAttempts >= 1
    ensures After(t, Repeat(Call(at, at, wrong), n), p) ==
            Some(t.(attempts := n, lockedUntil := if n == p.maxAttempts then Some(at + p.lockFor) else None))
  {
    Burst(t, [], t, Call(at, at, wrong), n, p);
    assert [] + Repeat(Call(at, at, wrong), n) == Repeat(Call(at, at, wrong), n);
  }

  /** A call that began before expiry and got its row lock after the lockout. */
  lemma LockOutlived(digest: string, at: int, ttl: int, wait: int, p: Policy)
    requires p.maxAttempts >= 1 && p.lockFor > 0 && ttl > 0 && wait >= 0 && ttl + wait > p.lockFor
    ensures !LockIsFinal(digest, at, ttl, wait, p)
  {
    var t, n, wrong := Issued(digest, at, ttl), p.maxAttempts, digest + "x";
    var late := Call(at + p.lockFor - (if wait < p.lockFor then wait else p.lockFor), at + p.lockFor, digest);
    var guesses := Repeat(Call(at, at, wrong), n);
    var calls := guesses + [late];
    assert |wrong| == |digest| + 1;
    WrongAtOnce(t, at, ttl, wrong, n - 1, p);
    WrongAtOnce(t, at, ttl, wrong, n, p);
    assert calls[..n] == guesses && calls[..n - 1] == Repeat(Call(at, at, wrong), n - 1);
    assert OneClock(calls, at, wait);
    assert Outlived(t, calls, n - 1, n, p);
  }

  /** A lockout is final exactly when it lasts as long as a code can be in use. */
  lemma {:induction false} LockIsFinalExactly(digest: string, at: int, ttl: int, wait: int, p: Policy)
    requires p.maxAttempts >= 1 && p.lockFor > 0 && ttl > 0 && wait >= 0
    ensures LockIsFinal(digest, at, ttl, wait, p) <==> ttl + wait <= p.lockFor
  {
    var t := Issued(digest, at, ttl);
    if ttl + wait <= p.lockFor {
      forall calls, i: nat, j: nat | OneClock(calls, at, wait) ensures !Outlived(t, calls, i, j, p) {
        if i < j < |calls| && ReplyTo(t, calls, i, p).Wrong? && ReplyTo(t, calls, i, p).lockedUntil.Some? {
          StaysLocked(t, calls, i, j, at, ttl, wait, p);
        }
      }
    } else {
      LockOutlived(digest, at, ttl, wait, p);
    }
  }

  // ---------------------------------------------------------------- the store

  datatype Purpose = EmailVerification | PasswordReset
  datatype Slot = Slot(user: nat, purpose: Purpose)

  datatype Verification = Verified | Invalid(remaining: nat) | TooManyAttempts(until: int) | Failed

  /** How the write went that marks an address: not at all, done but not heard of, or done. */
  datatype Marking = Unmarked | Unheard | Marked

  class Codes {
    /** Unconsumed codes; a unique index allows one per user and purpose. */
    var live: map<Slot, Token>
    var verified: set<nat>

    constructor ()
      ensures live == map[] && verified == {}
    {
      live, verified := map[], {};
    }

    /** Replaces the live code, and with it its counter and lock. */
    method IssueToken(slot: Slot, digest: string, now: int, ttl: int)
      modifies this`live
      ensures live == old(live)[slot := Issued(digest, now, ttl)]
      ensures live[slot] == Token(digest, now + ttl, 0, None)
    {
      live := live - {slot};
      live := live[slot := Token(digest, now + ttl, 0, None)];
    }

    /**
     Checks a code and counts the attempt, in one transaction. A lock in force answers first, then expiry; a right code
     is used up; a wrong one counts, from one again after a lock has passed, and the last one of a budget locks.
     */
    method ConsumeOTP(slot: Slot, c: Call, p: Policy) returns (r: Reply)
      modifies this`live
      ensures slot !in old(live) ==> r == NotFound && live == old(live)
      ensures slot in old(live) ==>
                var (after, reply) := Consume(old(live)[slot], c, p);
                r == reply && live == if after.Some? then old(live)[slot := after.value] else old(live) - {slot}
      ensures slot in old(live) ==>
                var t := old(live)[slot];
                if t.lockedUntil.Some? && t.lockedUntil.value > c.checked then
                  r == Locked(t.lockedUntil.value) && live == old(live)
                else if t.expires <= c.began then
                  r == NotFound && live == old(live)
                else if t.digest == c.digest then
                  r == Right && live == old(live) - {slot}
                else
                  var n := if t.lockedUntil.Some? then 1 else t.attempts + 1;
                  var until := if n >= p.maxAttempts then Some(c.checked + p.lockFor) else None;
                  && r == Wrong(if n >= p.maxAttempts then 0 else p.maxAttempts - n, until)
                  && live == old(live)[slot := Token(t.digest, t.expires, n, until)]
    {
      if slot !in live {
        return NotFound;
      }
      var t := live[slot];
      var attempts := t.attempts;
      if t.lockedUntil.Some? && t.lockedUntil.value > c.checked {
        assert live[slot := t] == live;
        return Locked(t.lockedUntil.value);
      }
      if t.lockedUntil.Some? {
        attempts := 0;
      }
      if t.expires <= c.began {
        assert live[slot := t] == live;
        return NotFound;
      }
      if t.digest == c.digest {
        live := live - {slot};
        return Right;
      }
      attempts := attempts + 1;
      var until := None;
      if attempts >= p.maxAttempts {
        until := Some(c.checked + p.lockFor);
      }
      live := live[slot := t.(attempts := attempts, lockedUntil := until)];
      r := Wrong(if p.maxAttempts - attempts < 0 then 0 else p.maxAttempts - attempts, until);
    }

    /**
     The code is used up exactly when it is its own live, unlocked, unexpired one, and only then the address is marked
     proven. The two are two writes: if the second fails, the code is gone and the address is not proven. A locked code
     says until when, the seventh wrong guess in a row locks for fifteen minutes, an earlier one says how many are left.
     */
    method VerifyEmail(user: Option<nat>, c: Call, luck: Marking) returns (r: Verification)
      modifies this
      ensures var right := user.Some? && Accepts(old(live), user.value, c);
              && (r.Verified? <==> right && luck.Marked?)
              && (r.Failed? <==> right && !luck.Marked?)
              && verified == old(verified) + (if right && !luck.Unmarked? then {user.value} else {})
              && (right ==> Slot(user.value, EmailVerification) !in live)
      ensures user.None? || Slot(user.value, EmailVerification) !in old(live) ==> r == Invalid(0)
      ensures user.Some? && Slot(user.value, EmailVerification) in old(live) ==>
                var t := old(live)[Slot(user.value, EmailVerification)];
                if t.lockedUntil.Some? && t.lockedUntil.value > c.checked then
                  r == TooManyAttempts(t.lockedUntil.value)
                else if t.expires <= c.began then
                  r == Invalid(0)
                else if t.digest == c.digest then
                  r.Verified? || r.Failed?
                else
                  var n := if t.lockedUntil.Some? then 1 else t.attempts + 1;
                  r == if n >= 7 then TooManyAttempts(c.checked + 15 * 60) else Invalid(7 - n)
      ensures forall slot :: (user.None? || slot != Slot(user.value, EmailVerification)) ==>
                (slot in live <==> slot in old(live)) && (slot in live ==> live[slot] == old(live)[slot])
    {
      if user.None? {
        return Invalid(0);
      }
      var reply := ConsumeOTP(Slot(user.value, EmailVerification), c, DEPLOYED);
      match reply {
        case NotFound => r := Invalid(0);
        case Locked(until) => r := TooManyAttempts(until);
        case Wrong(remaining, until) => r := if until.Some? then TooManyAttempts(until.value) else Invalid(remaining);
        case Right =>
          if !luck.Unmarked? {
            verified := verified + {user.value};
          }
          r := if luck.Marked? then Verified else Failed;
      }
    }

    /** The user's live code for its address, if it may be compared now, is the code given. */
    predicate Accepts(codes: map<Slot, Token>, user: nat, c: Call) {
      var slot := Slot(user, EmailVerification);
      slot in codes && Compares(codes[slot], c) && codes[slot].digest == c.digest
    }
  }
}
