/**
 Poll's untagged responses, and what a client makes of them.

 A client numbers its messages 1, 2, 3, ... and changes that view only by EXPUNGE, EXISTS and FETCH
 (RFC 3501, sections 7.3.1, 7.4.1 and 7.4.2). `PollReplaysExactly` says when replaying Poll's responses on
 a view equal to the old snapshot gives exactly the current rows.
 */
module PollReplay {
  import opened Ascending
  import opened Wrappers

  /** One message as a session knows it. */
  datatype Record = Record(uid: nat, flags: seq<string>)

  datatype Response =
    | ExpungeAt(n: nat)
    | Exists(n: nat)
    | Fetch(n: nat, uid: nat, flags: seq<string>)

  datatype Entry = Unknown | Known(record: Record)

  function Uids(rs: seq<Record>): (us: seq<nat>)
    ensures |us| == |rs| && forall i | 0 <= i < |rs| :: us[i] == rs[i].uid
  {
    seq(|rs|, i requires 0 <= i < |rs| => rs[i].uid)
  }

  predicate Ordered(rs: seq<Record>) { IsAscending(Uids(rs)) }

  // ---------------------------------------------------------------- the client

  function View(rs: seq<Record>): (v: seq<Entry>)
    ensures |v| == |rs| && forall i | 0 <= i < |rs| :: v[i] == Known(rs[i])
  {
    seq(|rs|, i requires 0 <= i < |rs| => Known(rs[i]))
  }

  function Unknowns(n: nat): (v: seq<Entry>)
    ensures |v| == n && forall i | 0 <= i < n :: v[i] == Unknown
  {
    seq(n, _ => Unknown)
  }

  /** One response. A number out of range, or an EXISTS that shrinks the folder, is a protocol error. */
  function Receive(view: seq<Entry>, r: Response): Option<seq<Entry>> {
    match r
    case ExpungeAt(n) => if 1 <= n <= |view| then Some(view[..n - 1] + view[n..]) else None
    case Exists(n) => if |view| <= n then Some(view + Unknowns(n - |view|)) else None
    case Fetch(n, uid, flags) => if 1 <= n <= |view| then Some(view[n - 1 := Known(Record(uid, flags))]) else None
  }

  function Replay(view: seq<Entry>, rs: seq<Response>): Option<seq<Entry>>
    decreases |rs|
  {
    if rs == [] then Some(view)
    else
      var next := Receive(view, rs[0]);
      if next.None? then None else Replay(next.value, rs[1..])
  }

  lemma ExpungeFirst(view: seq<Entry>, n: nat, next: seq<Entry>, rest: seq<Response>)
    requires 1 <= n <= |view| && next == view[..n - 1] + view[n..]
    ensures Replay(view, [ExpungeAt(n)] + rest) == Replay(next, rest)
  {
    assert ([ExpungeAt(n)] + rest)[1..] == rest;
  }

  lemma {:induction false} ReplayConcat(view: seq<Entry>, a: seq<Response>, b: seq<Response>)
    ensures Replay(view, a + b) ==
            if Replay(view, a).None? then None else Replay(Replay(view, a).value, b)
    decreases |a|
  {
    if a == [] {
      assert a + b == b;
    } else {
      assert (a + b)[0] == a[0] && (a + b)[1..] == a[1..] + b;
      var next := Receive(view, a[0]);
      if next.Some? { ReplayConcat(next.value, a[1..], b); }
    }
  }

  // ---------------------------------------------------------------- what Poll writes

  /** EXPUNGE responses for the snapshot from position `i` on, `removed` having been sent already. */
  function Expunges(snapshot: seq<Record>, current: set<nat>, i: nat, removed: nat): seq<Response>
    requires removed <= i <= |snapshot|
    decreases |snapshot| - i
  {
    if i == |snapshot| then []
    else if snapshot[i].uid !in current
      then [ExpungeAt(i + 1 - removed)] + Expunges(snapshot, current, i + 1, removed + 1)
    else Expunges(snapshot, current, i + 1, removed)
  }

  /** A row the snapshot has with the same flags needs no FETCH. */
  predicate Unchanged(snapshot: seq<Record>, r: Record) { r in snapshot }

  function Fetches(snapshot: seq<Record>, rows: seq<Record>, i: nat): seq<Response>
    requires i <= |rows|
    decreases |rows| - i
  {
    if i == |rows| then []
    else if Unchanged(snapshot, rows[i]) then Fetches(snapshot, rows, i + 1)
    else [Fetch(i + 1, rows[i].uid, rows[i].flags)] + Fetches(snapshot, rows, i + 1)
  }

  function Survivors(snapshot: seq<Record>, current: set<nat>): (s: seq<Record>)
    ensures |s| <= |snapshot|
  {
    if snapshot == [] then []
    else if snapshot[0].uid in current then [snapshot[0]] + Survivors(snapshot[1..], current)
    else Survivors(snapshot[1..], current)
  }

  /** What a view has beside the survivors. */
  function SurvivingEntries(snapshot: seq<Record>, view: seq<Entry>, current: set<nat>): (es: seq<Entry>)
    requires |view| == |snapshot|
    ensures |es| == |Survivors(snapshot, current)|
  {
    if snapshot == [] then []
    else if snapshot[0].uid in current then [view[0]] + SurvivingEntries(snapshot[1..], view[1..], current)
    else SurvivingEntries(snapshot[1..], view[1..], current)
  }

  lemma {:induction false} SurvivingView(snapshot: seq<Record>, current: set<nat>)
    ensures SurvivingEntries(snapshot, View(snapshot), current) == View(Survivors(snapshot, current))
  {
    if snapshot != [] {
      SurvivingView(snapshot[1..], current);
      assert View(snapshot)[1..] == View(snapshot[1..]);
    }
  }

  /** Each survivor's entry is the one its message had. */
  lemma {:induction false} SurvivorFrom(snapshot: seq<Record>, view: seq<Entry>, current: set<nat>, i: nat)
    returns (k: nat)
    requires |view| == |snapshot| && i < |Survivors(snapshot, current)|
    ensures k < |snapshot| && snapshot[k] == Survivors(snapshot, current)[i]
    ensures view[k] == SurvivingEntries(snapshot, view, current)[i]
  {
    if snapshot[0].uid in current && i == 0 {
      k := 0;
    } else {
      k := SurvivorFrom(snapshot[1..], view[1..], current, if snapshot[0].uid in current then i - 1 else i);
      k := k + 1;
    }
  }

  function ExistsIfChanged(snapshot: seq<Record>, rows: seq<Record>): seq<Response> {
    if |rows| != |snapshot| || |Survivors(snapshot, Members(Uids(rows)))| < |snapshot| then [Exists(|rows|)] else []
  }

  function PollResponses(snapshot: seq<Record>, rows: seq<Record>): seq<Response> {
    Expunges(snapshot, Members(Uids(rows)), 0, 0) + ExistsIfChanged(snapshot, rows) + Fetches(snapshot, rows, 0)
  }

  // ---------------------------------------------------------------- survivors, as UIDs

  lemma {:induction false} SurvivorUids(snapshot: seq<Record>, current: set<nat>)
    ensures Uids(Survivors(snapshot, current)) == Restrict(Uids(snapshot), current)
    ensures forall r :: r in Survivors(snapshot, current) <==> r in snapshot && r.uid in current
  {
    if snapshot != [] {
      var first, rest := snapshot[0], Survivors(snapshot[1..], current);
      SurvivorUids(snapshot[1..], current);
      assert Uids(snapshot)[1..] == Uids(snapshot[1..]) && Uids(snapshot)[0] == first.uid;
      assert snapshot == [first] + snapshot[1..];
      if first.uid in current {
        assert Survivors(snapshot, current) == [first] + rest;
        assert Uids([first] + rest) == [first.uid] + Uids(rest);
      } else {
        assert Survivors(snapshot, current) == rest;
      }
    }
  }

  /** Dropping members of an ascending run moves the rest forward: position by position the values grow. */
  lemma {:induction false} RestrictAbove(s: seq<nat>, keep: set<nat>, k: nat)
    requires IsAscending(s) && k < |Restrict(s, keep)|
    ensures k < |s| && s[k] <= Restrict(s, keep)[k]
  {
    if s[0] in keep {
      if k > 0 { RestrictAbove(s[1..], keep, k - 1); }
    } else {
      RestrictAbove(s[1..], keep, k);
    }
  }

  /** A kept member keeps its position exactly when everything before it is kept. */
  lemma {:induction false} RestrictInPlace(s: seq<nat>, keep: set<nat>, i: nat)
    requires IsAscending(s) && i < |s| && s[i] in keep
    ensures (i < |Restrict(s, keep)| && Restrict(s, keep)[i] == s[i]) <==> forall j | 0 <= j <= i :: s[j] in keep
  {
    var r := Restrict(s, keep);
    if s[0] in keep {
      if i > 0 {
        RestrictInPlace(s[1..], keep, i - 1);
        assert (forall j | 0 <= j <= i :: s[j] in keep) <==> forall j | 0 <= j <= i - 1 :: s[1..][j] in keep by {
          if forall j | 0 <= j <= i - 1 :: s[1..][j] in keep {
            forall j | 0 <= j <= i ensures s[j] in keep { if j > 0 { assert s[1..][j - 1] in keep; } }
          }
        }
      }
    } else {
      if i < |r| { RestrictAbove(s[1..], keep, i); }
    }
  }

  // ---------------------------------------------------------------- replaying

  /** The replay from position `i` on, after `kept`, leaves the survivors' entries. */
  ghost predicate ExpungesReplay(snapshot: seq<Record>, view: seq<Entry>, current: set<nat>, i: nat, removed: nat,
        kept: seq<Entry>)
    requires removed <= i <= |snapshot| == |view|
  {
    Replay(kept + view[i..], Expunges(snapshot, current, i, removed))
    == Some(kept + SurvivingEntries(snapshot[i..], view[i..], current))
  }

  lemma ReplaySurvivor(snapshot: seq<Record>, view: seq<Entry>, current: set<nat>, i: nat, removed: nat,
        kept: seq<Entry>)
    requires removed <= i < |snapshot| == |view| && snapshot[i].uid in current
    requires ExpungesReplay(snapshot, view, current, i + 1, removed, kept + [view[i]])
    ensures ExpungesReplay(snapshot, view, current, i, removed, kept)
  {
    hide Replay, Survivors;
    var rest := SurvivingEntries(snapshot[i + 1..], view[i + 1..], current);
    assert snapshot[i..][0] == snapshot[i] && snapshot[i..][1..] == snapshot[i + 1..];
    assert view[i..][0] == view[i] && view[i..][1..] == view[i + 1..];
    assert SurvivingEntries(snapshot[i..], view[i..], current) == [view[i]] + rest;
    assert kept + [view[i]] + view[i + 1..] == kept + view[i..] && kept + [view[i]] + rest == kept + ([view[i]] + rest);
  }

  lemma ReplayGone(snapshot: seq<Record>, view: seq<Entry>, current: set<nat>, i: nat, removed: nat, kept: seq<Entry>)
    requires removed <= i < |snapshot| == |view| && |kept| == i - removed && snapshot[i].uid !in current
    requires ExpungesReplay(snapshot, view, current, i + 1, removed + 1, kept)
    ensures ExpungesReplay(snapshot, view, current, i, removed, kept)
  {
    hide Replay, Survivors;
    assert snapshot[i..][0] == snapshot[i] && snapshot[i..][1..] == snapshot[i + 1..];
    assert view[i..][1..] == view[i + 1..];
    var n, now := i + 1 - removed, kept + view[i..];
    assert now[..n - 1] + now[n..] == kept + view[i + 1..];
    ExpungeFirst(now, n, kept + view[i + 1..], Expunges(snapshot, current, i + 1, removed + 1));
  }

  /** Every EXPUNGE number is in range when it is sent, and the survivors' entries remain, in order. */
  lemma {:induction false} ReplayExpunges(snapshot: seq<Record>, view: seq<Entry>, current: set<nat>, i: nat,
        removed: nat, kept: seq<Entry>)
    requires removed <= i <= |snapshot| == |view| && |kept| == i - removed
    ensures ExpungesReplay(snapshot, view, current, i, removed, kept)
    decreases |snapshot| - i
  {
    if i == |snapshot| {
      assert kept + view[i..] == kept && SurvivingEntries(snapshot[i..], view[i..], current) == [];
    } else if snapshot[i].uid in current {
      ReplayExpunges(snapshot, view, current, i + 1, removed, kept + [view[i]]);
      ReplaySurvivor(snapshot, view, current, i, removed, kept);
    } else {
      ReplayExpunges(snapshot, view, current, i + 1, removed + 1, kept);
      ReplayGone(snapshot, view, current, i, removed, kept);
    }
  }

  /** The view after the FETCH responses from position `i` on. */
  lemma {:induction false} ReplayFetches(snapshot: seq<Record>, rows: seq<Record>, i: nat, view: seq<Entry>)
    requires i <= |rows| == |view|
    ensures Replay(view, Fetches(snapshot, rows, i)).Some?
    ensures var v := Replay(view, Fetches(snapshot, rows, i)).value;
            && |v| == |rows|
            && forall j | 0 <= j < |rows| ::
                 v[j] == if j < i || Unchanged(snapshot, rows[j]) then view[j] else Known(rows[j])
    decreases |rows| - i
  {
    if i < |rows| {
      if Unchanged(snapshot, rows[i]) {
        ReplayFetches(snapshot, rows, i + 1, view);
      } else {
        var next := view[i := Known(rows[i])];
        ReplayFetches(snapshot, rows, i + 1, next);
        var rs := Fetches(snapshot, rows, i);
        assert rs[0] == Fetch(i + 1, rows[i].uid, rows[i].flags) && rs[1..] == Fetches(snapshot, rows, i + 1);
        assert rows[i] == Record(rows[i].uid, rows[i].flags);
      }
    }
  }

  lemma ReplayOne(view: seq<Entry>, n: nat)
    requires |view| <= n
    ensures Replay(view, [Exists(n)]) == Some(view + Unknowns(n - |view|))
  {
    assert [Exists(n)][1..] == [];
  }

  /** Before the FETCHes: the survivors, then as many unknown messages as the folder has more. */
  lemma ReplayExists(snapshot: seq<Record>, view: seq<Entry>, rows: seq<Record>)
    requires Ordered(snapshot) && Ordered(rows) && |view| == |snapshot|
    ensures var kept := SurvivingEntries(snapshot, view, Members(Uids(rows)));
            && |kept| <= |rows|
            && Replay(view, Expunges(snapshot, Members(Uids(rows)), 0, 0) + ExistsIfChanged(snapshot, rows))
               == Some(kept + Unknowns(|rows| - |kept|))
  {
    var current := Members(Uids(rows));
    var kept := SurvivingEntries(snapshot, view, current);
    SurvivorsFit(snapshot, rows);
    ReplayExpunges(snapshot, view, current, 0, 0, []);
    assert [] + view[0..] == view && snapshot[0..] == snapshot && view[0..] == view && [] + kept == kept;
    ReplayConcat(view, Expunges(snapshot, current, 0, 0), ExistsIfChanged(snapshot, rows));
    ReplayCount(snapshot, rows, kept);
  }

  lemma ReplayCount(snapshot: seq<Record>, rows: seq<Record>, kept: seq<Entry>)
    requires |kept| == |Survivors(snapshot, Members(Uids(rows)))| <= |rows|
    ensures Replay(kept, ExistsIfChanged(snapshot, rows)) == Some(kept + Unknowns(|rows| - |kept|))
  {
    if |rows| != |snapshot| || |kept| < |snapshot| {
      ReplayOne(kept, |rows|);
    } else {
      assert kept + Unknowns(0) == kept;
    }
  }

  /** The survivors, numbered as the rows number them. */
  lemma SurvivorsFit(snapshot: seq<Record>, rows: seq<Record>)
    requires Ordered(snapshot) && Ordered(rows)
    ensures Uids(Survivors(snapshot, Members(Uids(rows)))) == Restrict(Uids(rows), Members(Uids(snapshot)))
    ensures |Survivors(snapshot, Members(Uids(rows)))| <= |rows|
  {
    var a, b := Uids(snapshot), Uids(rows);
    SurvivorUids(snapshot, Members(b));
    RestrictAscending(a, Members(b));
    RestrictAscending(b, Members(a));
    SameMembersSameOrder(Restrict(a, Members(b)), Restrict(b, Members(a)));
    var r := Restrict(b, Members(a));
    if r != [] { RestrictAbove(b, Members(a), |r| - 1); }
  }

  /** No message the snapshot lacks stands before one it has unchanged. */
  predicate NewOnesLast(snapshot: seq<Record>, rows: seq<Record>) {
    forall i, j | 0 <= j < i < |rows| && Unchanged(snapshot, rows[i]) :: rows[j].uid in Members(Uids(snapshot))
  }

  /** UIDs are unique, so a survivor and a row with the same UID and flags are one record. */
  lemma SurvivorIs(snapshot: seq<Record>, rows: seq<Record>, i: nat)
    requires Ordered(snapshot) && Ordered(rows) && i < |rows| && Unchanged(snapshot, rows[i])
    ensures var kept := Survivors(snapshot, Members(Uids(rows)));
            (i < |kept| && kept[i] == rows[i]) <==> forall j | 0 <= j < i :: rows[j].uid in Members(Uids(snapshot))
  {
    var a, b := Uids(snapshot), Uids(rows);
    var kept := Survivors(snapshot, Members(b));
    SurvivorsFit(snapshot, rows);
    SurvivorUids(snapshot, Members(b));
    var k :| 0 <= k < |snapshot| && snapshot[k] == rows[i];
    assert a[k] == b[i];
    RestrictInPlace(b, Members(a), i);
    if i < |kept| && Uids(kept)[i] == b[i] {
      assert kept[i] in snapshot;
      var m :| 0 <= m < |snapshot| && snapshot[m] == kept[i];
      assert a[m] == a[k];
      assert m == k;
    }
    assert forall j | 0 <= j <= i :: b[j] == rows[j].uid;
  }

  /**
   Entry by entry: a changed or new row is told, an unchanged one is whatever survivor's entry stands in its place.
   */
  lemma PollEntries(snapshot: seq<Record>, view: seq<Entry>, rows: seq<Record>)
    requires Ordered(snapshot) && Ordered(rows) && |view| == |snapshot|
    ensures Replay(view, PollResponses(snapshot, rows)).Some?
    ensures var kept := SurvivingEntries(snapshot, view, Members(Uids(rows)));
            var v := Replay(view, PollResponses(snapshot, rows)).value;
            && |v| == |rows| && |kept| <= |rows|
            && forall i | 0 <= i < |rows| ::
                 v[i] == if !Unchanged(snapshot, rows[i]) then Known(rows[i])
                         else if i < |kept| then kept[i] else Unknown
  {
    hide Expunges, Fetches, ExistsIfChanged, SurvivingEntries, Survivors, Ordered, Replay;
    var kept := SurvivingEntries(snapshot, view, Members(Uids(rows)));
    var head := Expunges(snapshot, Members(Uids(rows)), 0, 0) + ExistsIfChanged(snapshot, rows);
    ReplayExists(snapshot, view, rows);
    ReplayConcat(view, head, Fetches(snapshot, rows, 0));
    ReplayFetches(snapshot, rows, 0, kept + Unknowns(|rows| - |kept|));
  }

  /**
   Replayed on a view equal to the old snapshot, Poll's responses never go out of range and leave one entry
   per row; the view is exactly the rows, in order and with their flags, if and only if no unchanged message
   stands above one the snapshot lacks.
   */
  lemma PollReplaysExactly(snapshot: seq<Record>, rows: seq<Record>)
    requires Ordered(snapshot) && Ordered(rows)
    ensures Replay(View(snapshot), PollResponses(snapshot, rows)).Some?
    ensures |Replay(View(snapshot), PollResponses(snapshot, rows)).value| == |rows|
    ensures Replay(View(snapshot), PollResponses(snapshot, rows)) == Some(View(rows)) <==> NewOnesLast(snapshot, rows)
  {
    PollEntries(snapshot, View(snapshot), rows);
    SurvivingView(snapshot, Members(Uids(rows)));
    var v := Replay(View(snapshot), PollResponses(snapshot, rows)).value;
    forall i | 0 <= i < |rows|
      ensures v[i] == Known(rows[i]) <==>
              (Unchanged(snapshot, rows[i]) ==> forall j | 0 <= j < i :: rows[j].uid in Members(Uids(snapshot)))
    {
      if Unchanged(snapshot, rows[i]) { SurvivorIs(snapshot, rows, i); }
    }
    if NewOnesLast(snapshot, rows) {
      assert v == View(rows);
    } else {
      var i, j :| 0 <= j < i < |rows| && Unchanged(snapshot, rows[i]) && rows[j].uid !in Members(Uids(snapshot));
      assert v[i] != Known(rows[i]);
      assert View(rows)[i] == Known(rows[i]);
    }
  }

  /**
   An unchanged row's place is right exactly when the survivor there is that row, so exactly when all before it survive.
   */
  lemma PollPlaces(snapshot: seq<Record>, view: seq<Entry>, rows: seq<Record>, i: nat)
    requires Ordered(snapshot) && Ordered(rows) && Agrees(snapshot, view) && i < |rows| && Unchanged(snapshot, rows[i])
    ensures var kept := SurvivingEntries(snapshot, view, Members(Uids(rows)));
            (i < |kept| && kept[i].Known? && kept[i].record.uid == rows[i].uid)
            <==> forall j | 0 <= j < i :: rows[j].uid in Members(Uids(snapshot))
  {
    var current := Members(Uids(rows));
    SurvivorIs(snapshot, rows, i);
    if i < |Survivors(snapshot, current)| {
      var k := SurvivorFrom(snapshot, view, current, i);
      if snapshot[k].uid == rows[i].uid { OneRecordPerUid(snapshot, snapshot[k], rows[i]); }
    }
  }

  /**
   Whatever flags it was told since, a client that numbers its messages as the snapshot does numbers them as the rows do
   after a Poll, if and only if no unchanged message stands above one the snapshot lacks.
   */
  lemma PollNumbersExactly(snapshot: seq<Record>, view: seq<Entry>, rows: seq<Record>)
    requires Ordered(snapshot) && Ordered(rows) && Agrees(snapshot, view)
    ensures Replay(view, PollResponses(snapshot, rows)).Some?
    ensures Agrees(rows, Replay(view, PollResponses(snapshot, rows)).value) <==> NewOnesLast(snapshot, rows)
  {
    PollEntries(snapshot, view, rows);
    var v := Replay(view, PollResponses(snapshot, rows)).value;
    forall i | 0 <= i < |rows|
      ensures v[i].Known? && v[i].record.uid == rows[i].uid <==>
              (Unchanged(snapshot, rows[i]) ==> forall j | 0 <= j < i :: rows[j].uid in Members(Uids(snapshot)))
    {
      if Unchanged(snapshot, rows[i]) { PollPlaces(snapshot, view, rows, i); }
    }
  }

  /** The view shows every unchanged message as the snapshot has it. */
  predicate ShowsUnchanged(snapshot: seq<Record>, view: seq<Entry>, rows: seq<Record>)
    requires |view| == |snapshot|
  {
    forall k | 0 <= k < |snapshot| && snapshot[k] in rows :: view[k] == Known(snapshot[k])
  }

  /** ... and shows the rows, flags and all, if and only if besides that it showed every unchanged message as it is. */
  lemma PollShowsExactly(snapshot: seq<Record>, view: seq<Entry>, rows: seq<Record>)
    requires Ordered(snapshot) && Ordered(rows) && Agrees(snapshot, view)
    ensures Replay(view, PollResponses(snapshot, rows)) == Some(View(rows))
            <==> NewOnesLast(snapshot, rows) && ShowsUnchanged(snapshot, view, rows)
  {
    PollEntries(snapshot, view, rows);
    PollNumbersExactly(snapshot, view, rows);
    var v := Replay(view, PollResponses(snapshot, rows)).value;
    if NewOnesLast(snapshot, rows) {
      forall k, i | 0 <= k < |snapshot| && 0 <= i < |rows| && snapshot[k] == rows[i] ensures v[i] == view[k] {
        UnchangedKeepsEntry(snapshot, view, rows, i, k);
      }
      if ShowsUnchanged(snapshot, view, rows) {
        assert v == View(rows);
      } else {
        var k :| 0 <= k < |snapshot| && snapshot[k] in rows && view[k] != Known(snapshot[k]);
        var i :| 0 <= i < |rows| && rows[i] == snapshot[k];
        assert v[i] != View(rows)[i];
      }
    } else if v == View(rows) {
      assert Agrees(rows, v);
    }
  }

  lemma UnchangedKeepsEntry(snapshot: seq<Record>, view: seq<Entry>, rows: seq<Record>, i: nat, k: nat)
    requires Ordered(snapshot) && Ordered(rows) && Agrees(snapshot, view) && NewOnesLast(snapshot, rows)
    requires k < |snapshot| && i < |rows| && snapshot[k] == rows[i]
    ensures var kept := SurvivingEntries(snapshot, view, Members(Uids(rows))); i < |kept| && kept[i] == view[k]
  {
    assert Unchanged(snapshot, rows[i]);
    SurvivorIs(snapshot, rows, i);
    var m := SurvivorFrom(snapshot, view, Members(Uids(rows)), i);
    assert Uids(snapshot)[m] == Uids(snapshot)[k];
  }

  lemma OneRecordPerUid(rs: seq<Record>, a: Record, b: Record)
    requires Ordered(rs) && a in rs && b in rs && a.uid == b.uid
    ensures a == b
  {
    var i :| 0 <= i < |rs| && rs[i] == a;
    var j :| 0 <= j < |rs| && rs[j] == b;
    assert Uids(rs)[i] == Uids(rs)[j];
  }

  /** The client's numbering is that of the rows. */
  predicate Agrees(rows: seq<Record>, view: seq<Entry>) {
    |view| == |rows| && forall i | 0 <= i < |view| :: view[i].Known? && view[i].record.uid == rows[i].uid
  }

  /** The rows are survivors of the snapshot followed by messages with larger UIDs. */
  predicate AppendOnly(snapshot: seq<nat>, rows: seq<nat>) {
    forall u, v | u in rows && u in snapshot && v in rows && v !in snapshot :: u < v
  }

  /** That is what folder listings guarantee, and it is enough. */
  lemma AppendOnlyPutsNewOnesLast(snapshot: seq<Record>, rows: seq<Record>)
    requires Ordered(rows) && AppendOnly(Uids(snapshot), Uids(rows))
    ensures NewOnesLast(snapshot, rows)
  {
    forall i, j | 0 <= j < i < |rows| && Unchanged(snapshot, rows[i]) ensures rows[j].uid in Members(Uids(snapshot)) {
      var k :| 0 <= k < |snapshot| && snapshot[k] == rows[i];
      assert Uids(snapshot)[k] == Uids(rows)[i] && Uids(rows)[j] < Uids(rows)[i];
      assert Uids(rows)[i] in Uids(snapshot) && Uids(rows)[j] in Uids(rows);
    }
  }
}
