/**
 The fixed-window limiter over a counter store whose keys expire. The counters turn out to count: an action is allowed
 exactly when fewer than `limit` actions with its name and key came before it in its window (`AllowedExactly`). The
 bound over any interval follows, and is reached.
 */
module RateLimiter {
  import opened Rounding

  datatype Rule = Rule(name: string, limit: nat, window: int)
  datatype Result = Result(allowed: bool, retryAfter: int, remaining: nat)

  /** One action charged to one rule. Every count comes with a refreshed expiry. */
  datatype Hit = Hit(rule: Rule, key: string, at: int)

  datatype Slot = Slot(name: string, key: string, bucket: int)
  datatype Counter = Counter(count: nat, expires: int)

  function SlotOf(h: Hit): Slot
    requires h.rule.window > 0
  {
    Slot(h.rule.name, h.key, h.at / h.rule.window)
  }

  function Value(store: map<Slot, Counter>, slot: Slot, at: int): nat {
    if slot in store && at < store[slot].expires then store[slot].count else 0
  }

  function Charge(store: map<Slot, Counter>, h: Hit): map<Slot, Counter>
    requires h.rule.window > 0
  {
    store[SlotOf(h) := Counter(Value(store, SlotOf(h), h.at) + 1, h.at + h.rule.window)]
  }

  /** Time does not go back, and a rule name has one window. */
  predicate Follows(a: Hit, b: Hit) {
    a.at <= b.at && (a.rule.name == b.rule.name ==> a.rule.window == b.rule.window)
  }

  predicate Orderly(hits: seq<Hit>) {
    && (forall i | 0 <= i < |hits| :: hits[i].rule.window > 0 && hits[i].at >= 0)
    && (forall i, j {:trigger Follows(hits[i], hits[j])} | 0 <= i < j < |hits| :: Follows(hits[i], hits[j]))
  }

  lemma OrderlyPrefix(hits: seq<Hit>, n: nat)
    requires Orderly(hits) && n <= |hits|
    ensures Orderly(hits[..n])
  {
    forall i, j | 0 <= i < j < n ensures Follows(hits[..n][i], hits[..n][j]) { assert Follows(hits[i], hits[j]); }
  }

  lemma OrderlyWindow(before: seq<Hit>, h: Hit)
    requires Orderly(before + [h])
    ensures h.rule.window > 0 && h.at >= 0
  {
    assert (before + [h])[|before|] == h;
  }

  function After(hits: seq<Hit>): map<Slot, Counter>
    requires Orderly(hits)
  {
    if hits == [] then map[] else Charge(After(hits[..|hits| - 1]), hits[|hits| - 1])
  }

  lemma AfterOne(before: seq<Hit>, h: Hit)
    requires Orderly(before) && Orderly(before + [h]) && h.rule.window > 0
    ensures After(before + [h]) == Charge(After(before), h)
  {
    assert (before + [h])[..|before|] == before;
  }

  predicate Allowed(hits: seq<Hit>, i: nat)
    requires Orderly(hits) && i < |hits|
  {
    Value(After(hits[..i]), SlotOf(hits[i]), hits[i].at) + 1 <= hits[i].rule.limit
  }

  // ---------------------------------------------------------------- what the counters hold

  /** Actions with this name and key in this bucket. */
  function Charges(hits: seq<Hit>, slot: Slot): nat
    requires forall i | 0 <= i < |hits| :: hits[i].rule.window > 0
  {
    if hits == [] then 0
    else Charges(hits[..|hits| - 1], slot) + (if SlotOf(hits[|hits| - 1]) == slot then 1 else 0)
  }

  predicate AllFollowedBy(hits: seq<Hit>, h: Hit) {
    forall i {:trigger Follows(hits[i], h)} | 0 <= i < |hits| :: Follows(hits[i], h)
  }

  lemma EarlierOnes(hits: seq<Hit>, n: nat)
    requires Orderly(hits) && n < |hits|
    ensures AllFollowedBy(hits[..n], hits[n])
  {
    forall i | 0 <= i < n ensures Follows(hits[..n][i], hits[n]) { assert Follows(hits[i], hits[n]); }
  }

  /** A key never expires inside its own window: there its counter counts. */
  lemma {:induction false} CounterCounts(hits: seq<Hit>, slot: Slot, now: Hit)
    requires Orderly(hits) && AllFollowedBy(hits, now) && now.rule.window > 0
    requires slot.name == now.rule.name && now.at < (slot.bucket + 1) * now.rule.window
    ensures Value(After(hits), slot, now.at) == Charges(hits, slot)
    decreases |hits|
  {
    if hits != [] {
      var front, h, w := hits[..|hits| - 1], hits[|hits| - 1], now.rule.window;
      assert Follows(h, now);
      OrderlyPrefix(hits, |front|);
      if SlotOf(h) == slot {
        assert h.at >= slot.bucket * w && (slot.bucket + 1) * w == slot.bucket * w + w;
        EarlierOnes(hits, |front|);
        CounterCounts(front, slot, h);
      } else {
        forall i | 0 <= i < |front| ensures Follows(front[i], now) { assert Follows(hits[i], now); }
        CounterCounts(front, slot, now);
      }
    }
  }

  lemma BucketEnds(at: int, window: int)
    requires window > 0
    ensures (at / window) * window <= at < (at / window + 1) * window
  {
  }

  /** Fewer than `limit` actions with its name and key came before hit `i` in its window. */
  predicate WithinLimit(hits: seq<Hit>, i: nat)
    requires Orderly(hits) && i < |hits|
  {
    Charges(hits[..i], SlotOf(hits[i])) < hits[i].rule.limit
  }

  /** The limiter decides by the number of actions before it in the window, whatever else shares the store. */
  lemma AllowedExactly(hits: seq<Hit>, i: nat)
    requires Orderly(hits) && i < |hits|
    ensures Allowed(hits, i) <==> WithinLimit(hits, i)
  {
    var h := hits[i];
    BucketEnds(h.at, h.rule.window);
    OrderlyPrefix(hits, i);
    EarlierOnes(hits, i);
    CounterCounts(hits[..i], SlotOf(h), h);
  }

  /** Earlier actions of the same rule name and key, in the same window of the clock. */
  function Same(hits: seq<Hit>, i: nat): set<nat>
    requires Orderly(hits) && i < |hits|
  {
    set j | 0 <= j < i && hits[j].rule.name == hits[i].rule.name && hits[j].key == hits[i].key
            && hits[j].at / hits[i].rule.window == hits[i].at / hits[i].rule.window
  }

  function Placed(hits: seq<Hit>, slot: Slot): set<nat>
    requires forall i | 0 <= i < |hits| :: hits[i].rule.window > 0
  {
    set j | 0 <= j < |hits| && SlotOf(hits[j]) == slot
  }

  lemma {:induction false} ChargesCount(hits: seq<Hit>, slot: Slot)
    requires forall i | 0 <= i < |hits| :: hits[i].rule.window > 0
    ensures Charges(hits, slot) == |Placed(hits, slot)|
    decreases |hits|
  {
    if hits != [] {
      var n := |hits| - 1;
      ChargesCount(hits[..n], slot);
      if SlotOf(hits[n]) == slot {
        assert Placed(hits, slot) == Placed(hits[..n], slot) + {n} && n !in Placed(hits[..n], slot);
      } else {
        assert Placed(hits, slot) == Placed(hits[..n], slot);
      }
    }
  }

  /** The same, counting the earlier actions themselves. */
  lemma AllowedByCount(hits: seq<Hit>, i: nat)
    requires Orderly(hits) && i < |hits|
    ensures Allowed(hits, i) <==> |Same(hits, i)| < hits[i].rule.limit
  {
    hide After;
    AllowedExactly(hits, i);
    ChargesCount(hits[..i], SlotOf(hits[i]));
    forall j | 0 <= j < i
      ensures hits[..i][j] == hits[j]
      ensures hits[j].rule.name == hits[i].rule.name ==> hits[j].rule.window == hits[i].rule.window
    {
      assert Follows(hits[j], hits[i]);
    }
    assert Placed(hits[..i], SlotOf(hits[i])) == Same(hits, i);
  }

  // ---------------------------------------------------------------- how many are admitted

  /** Actions of `rule` and `key` admitted at times in [lo, hi). */
  function Admitted(hits: seq<Hit>, rule: Rule, key: string, lo: int, hi: int): nat
    requires Orderly(hits)
  {
    if hits == [] then 0
    else
      var n := |hits| - 1;
      Admitted(hits[..n], rule, key, lo, hi)
      + (if hits[n].rule == rule && hits[n].key == key && lo <= hits[n].at < hi && Allowed(hits, n) then 1 else 0)
  }

  /** The actions admitted so, by their places in the run. */
  function AdmittedAt(hits: seq<Hit>, n: nat, rule: Rule, key: string, lo: int, hi: int): set<nat>
    requires Orderly(hits) && n <= |hits|
  {
    set j | 0 <= j < n && hits[j].rule == rule && hits[j].key == key && lo <= hits[j].at < hi && Allowed(hits, j)
  }

  lemma AdmittedCounts(hits: seq<Hit>, rule: Rule, key: string, lo: int, hi: int)
    requires Orderly(hits)
    ensures Admitted(hits, rule, key, lo, hi) == |AdmittedAt(hits, |hits|, rule, key, lo, hi)|
  {
    AdmittedPrefixCounts(hits, |hits|, rule, key, lo, hi);
    assert hits[..|hits|] == hits;
  }

  lemma {:induction false} AdmittedPrefixCounts(hits: seq<Hit>, n: nat, rule: Rule, key: string, lo: int, hi: int)
    requires Orderly(hits) && n <= |hits| && Orderly(hits[..n])
    ensures Admitted(hits[..n], rule, key, lo, hi) == |AdmittedAt(hits, n, rule, key, lo, hi)|
    decreases n
  {
    if n > 0 {
      hide Orderly, Allowed, Admitted, AdmittedAt;
      OrderlyPrefix(hits, n - 1);
      AdmittedPrefixCounts(hits, n - 1, rule, key, lo, hi);
      AdmittedLast(hits, n, rule, key, lo, hi);
      AdmittedGrows(hits, n, rule, key, lo, hi);
    }
  }

  lemma AdmittedGrows(hits: seq<Hit>, n: nat, rule: Rule, key: string, lo: int, hi: int)
    requires Orderly(hits) && 0 < n <= |hits|
    ensures var before, now := AdmittedAt(hits, n - 1, rule, key, lo, hi), AdmittedAt(hits, n, rule, key, lo, hi);
            |now| == |before| + (if n - 1 in now then 1 else 0)
  {
    hide Orderly, Allowed;
    var before, now := AdmittedAt(hits, n - 1, rule, key, lo, hi), AdmittedAt(hits, n, rule, key, lo, hi);
    assert n - 1 !in before;
    if n - 1 in now {
      assert now == before + {n - 1};
    } else {
      assert now == before;
    }
  }

  lemma AdmittedLast(hits: seq<Hit>, n: nat, rule: Rule, key: string, lo: int, hi: int)
    requires Orderly(hits) && 0 < n <= |hits| && Orderly(hits[..n]) && Orderly(hits[..n - 1])
    ensures Admitted(hits[..n], rule, key, lo, hi) ==
            Admitted(hits[..n - 1], rule, key, lo, hi) +
            (if n - 1 in AdmittedAt(hits, n, rule, key, lo, hi) then 1 else 0)
  {
    assert hits[..n][..n - 1] == hits[..n - 1];
  }

  lemma {:induction false} AdmittedSplit(hits: seq<Hit>, rule: Rule, key: string, lo: int, mid: int, hi: int)
    requires Orderly(hits) && lo <= mid <= hi
    ensures Admitted(hits, rule, key, lo, hi) == Admitted(hits, rule, key, lo, mid) + Admitted(hits, rule, key, mid, hi)
    decreases |hits|
  {
    if hits != [] { AdmittedSplit(hits[..|hits| - 1], rule, key, lo, mid, hi); }
  }

  /** One window admits what its limit says, and no more than were charged. */
  lemma {:induction false} OneWindow(hits: seq<Hit>, rule: Rule, key: string, bucket: int)
    requires Orderly(hits) && rule.window > 0
    ensures var a := Admitted(hits, rule, key, bucket * rule.window, (bucket + 1) * rule.window);
            a <= rule.limit && a <= Charges(hits, Slot(rule.name, key, bucket))
    decreases |hits|
  {
    if hits != [] {
      var n := |hits| - 1;
      var h := hits[n];
      OneWindow(hits[..n], rule, key, bucket);
      if h.rule == rule && h.key == key && bucket * rule.window <= h.at < (bucket + 1) * rule.window {
        InBucket(h.at, rule.window, bucket);
        AllowedExactly(hits, n);
      }
    }
  }

  lemma InBucket(at: int, window: int, bucket: int)
    requires window > 0 && bucket * window <= at < (bucket + 1) * window
    ensures at / window == bucket
  {
    var q := at / window;
    BucketEnds(at, window);
    if q < bucket {
      Grows(q + 1, bucket, window);
    } else if q > bucket {
      Grows(bucket + 1, q, window);
    }
  }

  lemma {:induction false} SeveralWindows(hits: seq<Hit>, rule: Rule, key: string, first: int, n: nat)
    requires Orderly(hits) && rule.window > 0
    ensures Admitted(hits, rule, key, first * rule.window, (first + n) * rule.window) <= rule.limit * n
    decreases n
  {
    if n == 0 {
      NoneIn(hits, rule, key, first * rule.window);
    } else {
      var w, last := rule.window, first + n - 1;
      SeveralWindows(hits, rule, key, first, n - 1);
      OneWindow(hits, rule, key, last);
      Grows(first, last, w);
      AdmittedSplit(hits, rule, key, first * w, last * w, (last + 1) * w);
      assert rule.limit * n == rule.limit * (n - 1) + rule.limit;
    }
  }

  lemma Grows(a: int, b: int, w: int)
    requires a <= b && w > 0
    ensures a * w <= b * w <= (b + 1) * w
  {
  }

  lemma {:induction false} NoneIn(hits: seq<Hit>, rule: Rule, key: string, lo: int)
    requires Orderly(hits)
    ensures Admitted(hits, rule, key, lo, lo) == 0
    decreases |hits|
  {
    if hits != [] { NoneIn(hits[..|hits| - 1], rule, key, lo); }
  }

  /** Any half-open interval of length `length` meets at most ceil(length / window) + 1 windows. */
  lemma Meets(lo: int, length: int, window: int)
    requires window > 0 && length >= 0
    ensures (lo / window) * window <= lo
    ensures lo + length <= (lo / window + Ceil(length, window) + 1) * window
  {
    var q, c := lo / window, Ceil(length, window);
    BucketEnds(lo, window);
    assert length <= c * window;
    assert (q + c + 1) * window == (q + 1) * window + c * window;
  }

  /** Actions admitted by one rule and key in any interval [lo, lo + length). */
  lemma AdmittedBound(hits: seq<Hit>, rule: Rule, key: string, lo: int, length: int)
    requires Orderly(hits) && rule.window > 0 && length >= 0
    ensures Admitted(hits, rule, key, lo, lo + length) <= rule.limit * (Ceil(length, rule.window) + 1)
    ensures length == rule.window ==> Admitted(hits, rule, key, lo, lo + length) <= 2 * rule.limit
  {
    var w, q, n := rule.window, lo / rule.window, Ceil(length, rule.window) + 1;
    Meets(lo, length, w);
    assert n >= 0;
    SeveralWindows(hits, rule, key, q, n);
    AdmittedSplit(hits, rule, key, q * w, lo, (q + n) * w);
    AdmittedSplit(hits, rule, key, lo, lo + length, (q + n) * w);
    assert length == w ==> n == 2 by { if length == w { InBucket(w + w - 1, w, 1); } }
  }

  // ---------------------------------------------------------------- the bound is reached

  function Burst(rule: Rule, key: string, n: nat, at: int): seq<Hit> {
    seq(n, _ => Hit(rule, key, at))
  }

  lemma OneMore(before: seq<Hit>, h: Hit, lo: int, hi: int)
    requires Orderly(before) && Orderly(before + [h]) && lo <= h.at < hi
    requires h.rule.window > 0 && Charges(before, SlotOf(h)) < h.rule.limit
    ensures Charges(before + [h], SlotOf(h)) == Charges(before, SlotOf(h)) + 1
    ensures Admitted(before + [h], h.rule, h.key, lo, hi) == Admitted(before, h.rule, h.key, lo, hi) + 1
  {
    var hits := before + [h];
    assert hits[..|hits| - 1] == before;
    AllowedExactly(hits, |before|);
  }

  /** A fresh window admits a whole budget at one instant. */
  lemma {:induction false} BurstAdmitted(before: seq<Hit>, h: Hit, n: nat, lo: int, hi: int)
    requires Orderly(before + Burst(h.rule, h.key, h.rule.limit, h.at)) && h.rule.window > 0
    requires n <= h.rule.limit && lo <= h.at < hi
    ensures Orderly(before) && Orderly(before + Burst(h.rule, h.key, n, h.at))
    ensures Charges(before, SlotOf(h)) == 0 ==>
              var hits := before + Burst(h.rule, h.key, n, h.at);
              Charges(hits, SlotOf(h)) == n &&
                Admitted(hits, h.rule, h.key, lo, hi) == Admitted(before, h.rule, h.key, lo, hi) + n
    decreases n
  {
    var all := before + Burst(h.rule, h.key, h.rule.limit, h.at);
    OrderlyPrefix(all, |before|);
    OrderlyPrefix(all, |before| + n);
    assert all[..|before|] == before && all[..|before| + n] == before + Burst(h.rule, h.key, n, h.at);
    if n == 0 {
      assert before + Burst(h.rule, h.key, 0, h.at) == before;
    } else {
      BurstAdmitted(before, h, n - 1, lo, hi);
      var prev := before + Burst(h.rule, h.key, n - 1, h.at);
      assert prev + [h] == before + Burst(h.rule, h.key, n, h.at);
      if Charges(before, SlotOf(h)) == 0 { OneMore(prev, h, lo, hi); }
    }
  }

  lemma {:induction false} OtherWindow(rule: Rule, key: string, n: nat, at: int, slot: Slot)
    requires rule.window > 0 && slot != SlotOf(Hit(rule, key, at))
    ensures Charges(Burst(rule, key, n, at), slot) == 0
    decreases n
  {
    if n > 0 {
      assert Burst(rule, key, n, at)[..n - 1] == Burst(rule, key, n - 1, at);
      OtherWindow(rule, key, n - 1, at, slot);
    }
  }

  lemma BurstsAreOrderly(rule: Rule, key: string, n: nat, a: int, b: int)
    requires rule.window > 0 && 0 <= a <= b
    ensures Orderly(Burst(rule, key, n, a)) && Orderly(Burst(rule, key, n, a) + Burst(rule, key, n, b))
  {
    var hits := Burst(rule, key, n, a) + Burst(rule, key, n, b);
    assert forall i | 0 <= i < |hits| :: hits[i] == Hit(rule, key, if i < n then a else b);
    OrderlyPrefix(hits, n);
    assert hits[..n] == Burst(rule, key, n, a);
  }

  lemma FirstBudget(rule: Rule, key: string)
    requires rule.window > 1 && Orderly(Burst(rule, key, rule.limit, rule.window - 1))
    ensures var w := rule.window;
            Admitted(Burst(rule, key, rule.limit, w - 1), rule, key, w - 1, w - 1 + w) == rule.limit
  {
    var w, n := rule.window, rule.limit;
    var none: seq<Hit> := [];
    assert none + Burst(rule, key, n, w - 1) == Burst(rule, key, n, w - 1);
    BurstAdmitted(none, Hit(rule, key, w - 1), n, w - 1, w - 1 + w);
  }

  lemma SecondBudget(rule: Rule, key: string, first: seq<Hit>)
    requires rule.window > 1 && first == Burst(rule, key, rule.limit, rule.window - 1)
    requires Orderly(first) && Orderly(first + Burst(rule, key, rule.limit, rule.window))
    ensures var w := rule.window;
            Admitted(first + Burst(rule, key, rule.limit, w), rule, key, w - 1, w - 1 + w)
            == Admitted(first, rule, key, w - 1, w - 1 + w) + rule.limit
  {
    var w := rule.window;
    InBucket(w - 1, w, 0);
    InBucket(w, w, 1);
    OtherWindow(rule, key, rule.limit, w - 1, Slot(rule.name, key, 1));
    BurstAdmitted(first, Hit(rule, key, w), rule.limit, w - 1, w - 1 + w);
  }

  /** One budget at the end of a window, another at the start of the next: two within one window's length. */
  lemma TwoBudgets(rule: Rule, key: string)
    requires rule.window > 1
    ensures var w := rule.window;
            var hits := Burst(rule, key, rule.limit, w - 1) + Burst(rule, key, rule.limit, w);
            Orderly(hits) && Admitted(hits, rule, key, w - 1, w - 1 + w) == 2 * rule.limit
  {
    var w := rule.window;
    BurstsAreOrderly(rule, key, rule.limit, w - 1, w);
    FirstBudget(rule, key);
    SecondBudget(rule, key, Burst(rule, key, rule.limit, w - 1));
  }

  // ---------------------------------------------------------------- the limiter

  class Limiter {
    var store: map<Slot, Counter>
    ghost var hits: seq<Hit>

    ghost predicate Valid()
      reads this
    {
      Orderly(hits) && store == After(hits)
    }

    constructor ()
      ensures Valid() && hits == []
    {
      store, hits := map[], [];
    }

    /**
     Counts, then decides. The time to wait is the counter's remaining life as read at `readAt`; as every count has
     just refreshed that life, it is a whole window and not the rest of the current one.
     */
    method Allow(rule: Rule, key: string, at: int, readAt: int) returns (r: Result)
      requires Valid() && Orderly(hits + [Hit(rule, key, at)]) && at <= readAt
      modifies this
      ensures Valid() && hits == old(hits) + [Hit(rule, key, at)]
      ensures r.allowed <==> WithinLimit(hits, |old(hits)|)
      ensures r.allowed ==> r.retryAfter == 0 && r.remaining == rule.limit - Charges(hits, SlotOf(Hit(rule, key, at)))
      ensures !r.allowed ==>
                && r.remaining == 0
                && r.retryAfter == if readAt - at < rule.window then rule.window - (readAt - at) else rule.window
    {
      hide After, Orderly;
      ghost var h, before := Hit(rule, key, at), hits;
      OrderlyWindow(before, h);
      AfterOne(before, h);
      hits := hits + [h];
      assert hits[..|before|] == before && hits[|before|] == h;
      AllowedExactly(hits, |before|);
      EarlierOnes(hits, |before|);
      BucketEnds(at, rule.window);
      CounterCounts(before, SlotOf(h), h);

      var slot := Slot(rule.name, key, at / rule.window);
      var count := 1;
      if slot in store && at < store[slot].expires {
        count := store[slot].count + 1;
      }
      store := store[slot := Counter(count, at + rule.window)];
      if count > rule.limit {
        var ttl := store[slot].expires - readAt;
        return Result(false, if ttl <= 0 then rule.window else ttl, 0);
      }
      r := Result(true, 0, rule.limit - count);
    }

    /** The next of a list of charges. */
    method AllowNext(rule: Rule, key: string, at: int, ghost all: seq<Hit>, ghost m: nat) returns (r: Result)
      requires Valid() && Orderly(all) && m < |all| && all[m] == Hit(rule, key, at) && hits == all[..m]
      modifies this
      ensures Valid() && hits == all[..m + 1] && (r.allowed <==> WithinLimit(all, m))
    {
      OrderlyPrefix(all, m + 1);
      assert hits + [all[m]] == all[..m + 1] && all[..m + 1][..m] == all[..m];
      r := Allow(rule, key, at, at);
    }

    /** Every rule is charged, even after one refused; the longest wait among the refusals is reported. */
    method AllowAll(key: string, rules: seq<Rule>, times: seq<int>) returns (worst: Result, ghost got: seq<Result>)
      requires Valid() && |times| == |rules| && Orderly(hits + Hits(rules, key, times))
      modifies this
      ensures Valid() && hits == old(hits) + Hits(rules, key, times) && |got| == |rules|
      ensures Judged(hits, |old(hits)|, got)
      ensures Worst(worst, got)
    {
      hide After, Orderly, WithinLimit, Judged, Worst;
      ghost var all := hits + Hits(rules, key, times);
      assert all[..|hits|] == hits;
      worst, got := Sweep(key, rules, times, all, |hits|);
      assert all[..|all|] == all;
    }

    /** The loop over the rules; `all` is every charge there will then have been. */
    method Sweep(key: string, rules: seq<Rule>, times: seq<int>, ghost all: seq<Hit>, ghost n: nat)
      returns (worst: Result, ghost got: seq<Result>)
      requires Valid() && |times| == |rules| && Orderly(all) && n + |rules| == |all| && hits == all[..n]
      requires forall i | 0 <= i < |rules| :: all[n + i] == Hit(rules[i], key, times[i])
      modifies this
      ensures Valid() && hits == all[..|all|] && |got| == |rules| && Judged(all, n, got) && Worst(worst, got)
    {
      hide After, Orderly, WithinLimit;
      worst, got := Result(true, 0, 0), [];
      for i := 0 to |rules|
        invariant Valid() && hits == all[..n + i] && |got| == i && Judged(all, n, got) && Worst(worst, got)
      {
        var r := AllowNext(rules[i], key, times[i], all, n + i);
        WorstMore(worst, got, r);
        JudgedMore(all, n, got, r);
        if !r.allowed && (worst.allowed || r.retryAfter > worst.retryAfter) {
          worst := r;
        }
        got := got + [r];
      }
    }
  }

  /** Allowed if all are; otherwise a refusal with the longest wait. */
  predicate Worst(worst: Result, got: seq<Result>) {
    && (worst.allowed <==> forall i | 0 <= i < |got| :: got[i].allowed)
    && (!worst.allowed ==>
          worst in got && forall i | 0 <= i < |got| && !got[i].allowed :: got[i].retryAfter <= worst.retryAfter)
  }

  lemma WorstMore(worst: Result, got: seq<Result>, r: Result)
    requires Worst(worst, got)
    ensures Worst(if !r.allowed && (worst.allowed || r.retryAfter > worst.retryAfter) then r else worst, got + [r])
  {
    var more := got + [r];
    assert more[|got|] == r && forall i | 0 <= i < |got| :: more[i] == got[i];
    if !worst.allowed {
      var k :| 0 <= k < |got| && got[k] == worst;
      assert more[k] == worst;
    }
  }

  /** Each reply says whether its action was within its limit. */
  ghost predicate Judged(all: seq<Hit>, n: nat, got: seq<Result>)
    requires Orderly(all) && n + |got| <= |all|
  {
    forall k | 0 <= k < |got| :: got[k].allowed <==> WithinLimit(all, n + k)
  }

  lemma JudgedMore(all: seq<Hit>, n: nat, got: seq<Result>, r: Result)
    requires Orderly(all) && n + |got| < |all| && Judged(all, n, got) && (r.allowed <==> WithinLimit(all, n + |got|))
    ensures Judged(all, n, got + [r])
  {
  }

  function Hits(rules: seq<Rule>, key: string, times: seq<int>): seq<Hit>
    requires |times| == |rules|
  {
    seq(|rules|, i requires 0 <= i < |rules| => Hit(rules[i], key, times[i]))
  }
}
