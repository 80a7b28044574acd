/**
 Strictly ascending sequences of numbers: what `ORDER BY imap_uid` yields.
 Everything said later about listings rests on one fact, `SameMembersSameOrder`:
 an ascending sequence is determined by its members.
 */
module Ascending {

  predicate IsAscending(s: seq<nat>) {
    forall i, j | 0 <= i < j < |s| :: s[i] < s[j]
  }

  ghost predicate IsLeast(m: nat, us: set<nat>) {
    m in us && forall u | u in us :: m <= u
  }

  lemma {:induction false} LeastExists(us: set<nat>)
    requires us != {}
    ensures exists m :: IsLeast(m, us)
    decreases |us|
  {
    var u :| u in us;
    var rest := us - {u};
    if rest == {} {
      assert us == {u};
      assert IsLeast(u, us);
    } else {
      LeastExists(rest);
      var m :| IsLeast(m, rest);
      var least := if u < m then u else m;
      forall w | w in us ensures least <= w {
        if w != u { assert w in rest; }
      }
      assert IsLeast(least, us);
    }
  }

  /** The members of a set, smallest first. */
  ghost function Sorted(us: set<nat>): (s: seq<nat>)
    ensures IsAscending(s)
    ensures forall u :: u in s <==> u in us
    ensures |s| == |us|
  {
    if us == {} then []
    else
      LeastExists(us);
      var m :| IsLeast(m, us);
      var rest := Sorted(us - {m});
      assert forall i | 0 <= i < |rest| :: rest[i] in us - {m};
      [m] + rest
  }

  lemma {:induction false} SameMembersSameOrder(a: seq<nat>, b: seq<nat>)
    requires IsAscending(a) && IsAscending(b)
    requires forall u :: u in a <==> u in b
    ensures a == b
  {
    if b == [] {
      assert forall i | 0 <= i < |a| :: a[i] in b;
    } else {
      assert b[0] in a;
      assert a[0] in b;
      assert a[0] == b[0];
      forall u ensures u in a[1..] <==> u in b[1..] {
        if u in a[1..] { assert u in a; assert u != a[0]; }
        if u in b[1..] { assert u in b; assert u != b[0]; }
      }
      SameMembersSameOrder(a[1..], b[1..]);
      assert a == [a[0]] + a[1..] && b == [b[0]] + b[1..];
    }
  }

  /** The members of `s` that lie in `keep`, in the order of `s`. */
  function Restrict(s: seq<nat>, keep: set<nat>): (r: seq<nat>)
    ensures forall u :: u in r <==> u in s && u in keep
  {
    if s == [] then []
    else
      var rest := Restrict(s[1..], keep);
      assert s == [s[0]] + s[1..];
      if s[0] in keep then [s[0]] + rest else rest
  }

  lemma {:induction false} RestrictAscending(s: seq<nat>, keep: set<nat>)
    requires IsAscending(s)
    ensures IsAscending(Restrict(s, keep))
  {
    if s != [] {
      RestrictAscending(s[1..], keep);
      var rest := Restrict(s[1..], keep);
      forall i | 0 <= i < |rest| ensures s[0] < rest[i] {
        assert rest[i] in rest;
        assert rest[i] in s[1..];
      }
    }
  }

  function Members(s: seq<nat>): (us: set<nat>)
    ensures forall u :: u in us <==> u in s
  {
    set u | u in s
  }

  /** Two ascending runs, the second entirely above the first, concatenate. */
  lemma ConcatAscending(a: seq<nat>, b: seq<nat>)
    requires IsAscending(a) && IsAscending(b)
    requires forall u, v | u in a && v in b :: u < v
    ensures IsAscending(a + b)
  {
    forall i, j | 0 <= i < j < |a + b| ensures (a + b)[i] < (a + b)[j] {
      if i < |a| <= j {
        assert a[i] in a && b[j - |a|] in b;
      }
    }
  }

  method Least(us: set<nat>) returns (m: nat)
    requires us != {}
    ensures m in us && forall u | u in us :: m <= u
  {
    LeastExists(us);
    ghost var least :| IsLeast(least, us);
    m :| m in us && forall u | u in us :: m <= u;
  }

  /** `Sorted`, computed: take the least member until none is left. */
  method SortedList(us: set<nat>) returns (s: seq<nat>)
    ensures s == Sorted(us)
  {
    s := [];
    var left := us;
    while left != {}
      invariant left <= us && IsAscending(s)
      invariant forall u :: u in us <==> u in s || u in left
      invariant forall u, v | u in s && v in left :: u < v
      decreases |left|
    {
      var m := Least(left);
      assert forall v | v in [m] :: v == m;
      ConcatAscending(s, [m]);
      s := s + [m];
      left := left - {m};
    }
    SameMembersSameOrder(s, Sorted(us));
  }

  /** A number not taken yet. */
  method NewId(taken: set<nat>) returns (n: nat)
    ensures n !in taken
  {
    n := 0;
    var left := taken;
    while left != {}
      invariant forall o | o in taken && o !in left :: o < n
    {
      var o :| o in left;
      if o >= n {
        n := o + 1;
      }
      left := left - {o};
    }
  }
}
