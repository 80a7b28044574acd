/**
 IMAP sequence sets. A range names every number between its ends, whichever is larger, and `*` (stored as 0)
 is the largest number in use (RFC 3501, section 9, `seq-range` and `seq-number`).
 */
module SequenceSets {
  import opened PollReplay

  datatype Range = Range(start: nat, stop: nat)

  function Resolve(n: nat, max: nat): nat { if n == 0 then max else n }

  /** The numbers a range stands for. */
  predicate InRange(r: Range, id: nat, max: nat) {
    var a, b := Resolve(r.start, max), Resolve(r.stop, max);
    (a <= id <= b) || (b <= id <= a)
  }

  predicate Denotes(ranges: seq<Range>, id: nat, max: nat) {
    exists k | 0 <= k < |ranges| :: InRange(ranges[k], id, max)
  }

  method InSet(ranges: seq<Range>, id: nat, max: nat) returns (found: bool)
    ensures found == Denotes(ranges, id, max)
  {
    for k := 0 to |ranges|
      invariant forall j | 0 <= j < k :: !InRange(ranges[j], id, max)
    {
      var a, b := ranges[k].start, ranges[k].stop;
      if a == 0 { a := max; }
      if b == 0 { b := max; }
      if a > b { a, b := b, a; }
      if id >= a && id <= b {
        return true;
      }
    }
    return false;
  }

  /** Whether row `i` of a session's own list is meant, by number or by UID. */
  predicate Selects(ranges: seq<Range>, byUid: bool, i: nat, rows: seq<Record>)
    requires i < |rows|
  {
    if byUid then Denotes(ranges, rows[i].uid, rows[|rows| - 1].uid) else Denotes(ranges, i + 1, |rows|)
  }

  method Selected(ranges: seq<Range>, byUid: bool, i: nat, rows: seq<Record>) returns (hit: bool)
    requires i < |rows|
    ensures hit == Selects(ranges, byUid, i, rows)
  {
    var max := |rows|;
    var id := i + 1;
    if byUid {
      id := rows[i].uid;
      if |rows| > 0 {
        max := rows[|rows| - 1].uid;
      }
    }
    hit := InSet(ranges, id, max);
  }

  /** UIDs of the selected rows from position `i` on, in order. */
  function TargetsFrom(ranges: seq<Range>, byUid: bool, rows: seq<Record>, i: nat): seq<nat>
    requires i <= |rows|
    decreases |rows| - i
  {
    if i == |rows| then []
    else (if Selects(ranges, byUid, i, rows) then [rows[i].uid] else []) + TargetsFrom(ranges, byUid, rows, i + 1)
  }

  function Targets(ranges: seq<Range>, byUid: bool, rows: seq<Record>): seq<nat> {
    TargetsFrom(ranges, byUid, rows, 0)
  }

  lemma {:induction false} TargetsFromMembers(ranges: seq<Range>, byUid: bool, rows: seq<Record>, i: nat, u: nat)
    requires i <= |rows|
    ensures u in TargetsFrom(ranges, byUid, rows, i) <==>
            exists j | i <= j < |rows| :: Selects(ranges, byUid, j, rows) && rows[j].uid == u
    decreases |rows| - i
  {
    if i < |rows| {
      TargetsFromMembers(ranges, byUid, rows, i + 1, u);
    }
  }

  /** By number: the message the client itself counts as number n, for each n denoted, with `*` its own last message. */
  lemma NumbersMeanOwnMessages(ranges: seq<Range>, rows: seq<Record>, u: nat)
    ensures u in Targets(ranges, false, rows) <==>
            exists n: nat :: 1 <= n <= |rows| && Denotes(ranges, n, |rows|) && rows[n - 1].uid == u
  {
    TargetsFromMembers(ranges, false, rows, 0, u);
    if u in Targets(ranges, false, rows) {
      var j :| 0 <= j < |rows| && Selects(ranges, false, j, rows) && rows[j].uid == u;
      assert rows[(j + 1) - 1].uid == u && Denotes(ranges, j + 1, |rows|);
    }
    if n: nat :| 1 <= n <= |rows| && Denotes(ranges, n, |rows|) && rows[n - 1].uid == u {
      assert Selects(ranges, false, n - 1, rows);
    }
  }

  /** By UID: the denoted UIDs among the client's own messages, with `*` its own largest UID. */
  lemma UidsMeanOwnMessages(ranges: seq<Range>, rows: seq<Record>, u: nat)
    ensures u in Targets(ranges, true, rows) <==>
            rows != [] && u in Uids(rows) && Denotes(ranges, u, rows[|rows| - 1].uid)
  {
    TargetsFromMembers(ranges, true, rows, 0, u);
    if rows != [] && u in Uids(rows) && Denotes(ranges, u, rows[|rows| - 1].uid) {
      var j :| 0 <= j < |rows| && rows[j].uid == u;
      assert Selects(ranges, true, j, rows);
    }
  }

  /** Only the UIDs and their order matter, not the flags. */
  lemma {:induction false} TargetsFollowUids(ranges: seq<Range>, byUid: bool, a: seq<Record>, b: seq<Record>, i: nat)
    requires Uids(a) == Uids(b) && i <= |a|
    ensures TargetsFrom(ranges, byUid, a, i) == TargetsFrom(ranges, byUid, b, i)
    decreases |a| - i
  {
    assert forall j | 0 <= j < |a| :: a[j].uid == Uids(a)[j] && b[j].uid == Uids(b)[j];
    if i < |a| {
      TargetsFollowUids(ranges, byUid, a, b, i + 1);
    }
  }

  // ---------------------------------------------------------------- what the sets of RFC 3501 mean

  /** Rows selected from one position to another are reported from there to there. */
  lemma {:induction false} RunFrom(ranges: seq<Range>, byUid: bool, rows: seq<Record>, lo: nat, hi: nat, i: nat)
    requires lo <= hi <= |rows| && i <= |rows|
    requires forall j | 0 <= j < |rows| :: Selects(ranges, byUid, j, rows) <==> lo <= j < hi
    ensures TargetsFrom(ranges, byUid, rows, i) == if i < hi then Uids(rows[if i < lo then lo else i..hi]) else []
    decreases |rows| - i
  {
    if i < |rows| {
      RunFrom(ranges, byUid, rows, lo, hi, i + 1);
      if lo <= i < hi {
        assert rows[i..hi] == [rows[i]] + rows[i + 1..hi];
        assert Uids(rows[i..hi]) == [rows[i].uid] + Uids(rows[i + 1..hi]);
      }
    }
  }

  lemma RunIs(ranges: seq<Range>, byUid: bool, rows: seq<Record>, lo: nat, hi: nat)
    requires lo < hi <= |rows|
    requires forall j | 0 <= j < |rows| :: Selects(ranges, byUid, j, rows) <==> lo <= j < hi
    ensures Targets(ranges, byUid, rows) == Uids(rows[lo..hi])
  {
    RunFrom(ranges, byUid, rows, lo, hi, 0);
    if lo == 0 { assert rows[0..hi] == rows[lo..hi]; }
  }

  /** `a:b` by number: rows a to b, both included. */
  lemma NumbersFromTo(a: nat, b: nat, rows: seq<Record>)
    requires 1 <= a <= b <= |rows|
    ensures Targets([Range(a, b)], false, rows) == Uids(rows[a - 1..b])
  {
    forall j | 0 <= j < |rows| ensures Selects([Range(a, b)], false, j, rows) <==> a - 1 <= j < b {
      OneRange(Range(a, b), j + 1, |rows|);
    }
    RunIs([Range(a, b)], false, rows, a - 1, b);
  }

  /** `a:b` by UID: the messages whose UIDs lie from a to b, both included. */
  lemma UidsFromTo(a: nat, b: nat, rows: seq<Record>, u: nat)
    requires 1 <= a <= b
    ensures u in Targets([Range(a, b)], true, rows) <==> u in Uids(rows) && a <= u <= b
  {
    UidsMeanOwnMessages([Range(a, b)], rows, u);
    if rows != [] { OneRange(Range(a, b), u, rows[|rows| - 1].uid); }
  }

  /** `*`: the last message, by number and by UID. */
  lemma StarIsLast(byUid: bool, rows: seq<Record>)
    requires rows != [] && Ordered(rows)
    ensures Targets([Range(0, 0)], byUid, rows) == [rows[|rows| - 1].uid]
  {
    LastAlone([Range(0, 0)], byUid, rows, 0);
  }

  /** `n:*` beyond the last message, by number or by UID: the last message, and no other. */
  lemma BeyondLast(n: nat, byUid: bool, rows: seq<Record>)
    requires rows != [] && Ordered(rows) && n > if byUid then rows[|rows| - 1].uid else |rows|
    ensures Targets([Range(n, 0)], byUid, rows) == [rows[|rows| - 1].uid]
  {
    LastAlone([Range(n, 0)], byUid, rows, n);
  }

  lemma LastAlone(ranges: seq<Range>, byUid: bool, rows: seq<Record>, n: nat)
    requires rows != [] && Ordered(rows) && ranges == [Range(n, 0)]
    requires n == 0 || n > if byUid then rows[|rows| - 1].uid else |rows|
    ensures Targets(ranges, byUid, rows) == [rows[|rows| - 1].uid]
  {
    var last := |rows| - 1;
    forall j | 0 <= j < |rows| ensures Selects(ranges, byUid, j, rows) <==> last <= j < |rows| {
      OneRange(Range(n, 0), if byUid then rows[j].uid else j + 1, if byUid then rows[last].uid else |rows|);
      assert j < last ==> Uids(rows)[j] < Uids(rows)[last];
    }
    RunIs(ranges, byUid, rows, last, |rows|);
    assert rows[last..] == [rows[last]];
  }

  lemma OneRange(r: Range, id: nat, max: nat)
    ensures Denotes([r], id, max) <==> InRange(r, id, max)
  {
    assert [r][0] == r;
  }

  /** A range selects the same with its ends swapped, in any set. */
  lemma {:induction false} SwappedEnds(before: seq<Range>, a: nat, b: nat, after: seq<Range>, byUid: bool,
        rows: seq<Record>)
    ensures Targets(before + [Range(a, b)] + after, byUid, rows) == Targets(before + [Range(b, a)] + after, byUid, rows)
  {
    var x, y := before + [Range(a, b)] + after, before + [Range(b, a)] + after;
    forall id, max ensures Denotes(x, id, max) <==> Denotes(y, id, max) {
      forall k | 0 <= k < |x| ensures InRange(x[k], id, max) <==> InRange(y[k], id, max) { }
    }
    SameSelection(x, y, byUid, rows, 0);
  }

  lemma {:induction false} SameSelection(x: seq<Range>, y: seq<Range>, byUid: bool, rows: seq<Record>, i: nat)
    requires i <= |rows| && forall id, max :: Denotes(x, id, max) <==> Denotes(y, id, max)
    ensures TargetsFrom(x, byUid, rows, i) == TargetsFrom(y, byUid, rows, i)
    decreases |rows| - i
  {
    if i < |rows| { SameSelection(x, y, byUid, rows, i + 1); }
  }

  /** A set selects what any of its parts selects. */
  lemma {:induction false} SetIsUnion(x: seq<Range>, y: seq<Range>, byUid: bool, rows: seq<Record>, u: nat)
    ensures u in Targets(x + y, byUid, rows) <==> u in Targets(x, byUid, rows) || u in Targets(y, byUid, rows)
  {
    TargetsFromMembers(x + y, byUid, rows, 0, u);
    TargetsFromMembers(x, byUid, rows, 0, u);
    TargetsFromMembers(y, byUid, rows, 0, u);
    forall j | 0 <= j < |rows|
      ensures Selects(x + y, byUid, j, rows) <==> Selects(x, byUid, j, rows) || Selects(y, byUid, j, rows)
    {
      UnionDenotes(x, y, if byUid then rows[j].uid else j + 1, if byUid then rows[|rows| - 1].uid else |rows|);
    }
  }

  lemma UnionDenotes(x: seq<Range>, y: seq<Range>, id: nat, max: nat)
    ensures Denotes(x + y, id, max) <==> Denotes(x, id, max) || Denotes(y, id, max)
  {
    if k :| 0 <= k < |x| && InRange(x[k], id, max) { assert (x + y)[k] == x[k]; }
    if k :| 0 <= k < |y| && InRange(y[k], id, max) { assert (x + y)[|x| + k] == y[k]; }
  }
}
