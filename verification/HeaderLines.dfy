/**
 Header blocks as lines: finding a marker, splitting at CRLF, and putting lines together again. A byte is the `char`
 with its code.
 */
module HeaderLines {
  import opened Wrappers

  const CRLF := "\r\n"
  const HEADER_END := "\r\n\r\n"

  predicate At(s: string, i: nat, p: string) {
    i + |p| <= |s| && s[i..i + |p|] == p
  }

  function FindFrom(s: string, p: string, i: nat): (r: Option<nat>)
    requires i <= |s|
    ensures r.Some? ==> i <= r.value && At(s, r.value, p) && forall j | i <= j < r.value :: !At(s, j, p)
    ensures r.None? ==> forall j | i <= j :: !At(s, j, p)
    decreases |s| - i
  {
    if At(s, i, p) then Some(i) else if i == |s| then None else FindFrom(s, p, i + 1)
  }

  /** The first place where `p` stands in `s`. */
  function Find(s: string, p: string): (r: Option<nat>)
    ensures r.Some? ==> At(s, r.value, p) && forall j: nat | j < r.value :: !At(s, j, p)
    ensures r.None? ==> forall j: nat :: !At(s, j, p)
  {
    FindFrom(s, p, 0)
  }

  lemma FindsFirst(s: string, p: string, i: nat)
    requires At(s, i, p) && forall j: nat | j < i :: !At(s, j, p)
    ensures Find(s, p) == Some(i)
  {
  }

  ghost predicate OneLine(s: string) {
    forall i: nat :: !At(s, i, CRLF)
  }

  /** Splitting at every CRLF. */
  function Lines(s: string): (ls: seq<string>)
    ensures |ls| >= 1
    decreases |s|
  {
    match Find(s, CRLF)
    case None => [s]
    case Some(i) => [s[..i]] + Lines(s[i + 2..])
  }

  function Join(ls: seq<string>): string
    requires ls != []
  {
    if |ls| == 1 then ls[0] else ls[0] + CRLF + Join(ls[1..])
  }

  /** Every line with its line end. */
  function Terminated(ls: seq<string>): string {
    if ls == [] then "" else ls[0] + CRLF + Terminated(ls[1..])
  }

  lemma {:induction false} TerminatedIsJoin(ls: seq<string>)
    requires ls != []
    ensures Terminated(ls) == Join(ls) + CRLF
  {
    if |ls| > 1 {
      TerminatedIsJoin(ls[1..]);
    } else {
      assert Terminated(ls[1..]) == "";
    }
  }

  lemma {:induction false} TerminatedMore(ls: seq<string>, l: string)
    ensures Terminated(ls + [l]) == Terminated(ls) + l + CRLF
  {
    if ls == [] {
      assert [l][1..] == [] && ls + [l] == [l];
    } else {
      assert (ls + [l])[1..] == ls[1..] + [l];
      TerminatedMore(ls[1..], l);
    }
  }

  /** After a line without a CRLF, the next CRLF is its end, even if the line ends in a bare CR. */
  lemma LineEndsFirst(l: string, rest: string)
    requires OneLine(l)
    ensures Find(l + CRLF + rest, CRLF) == Some(|l|)
  {
    var s := l + CRLF + rest;
    forall j: nat | j < |l| ensures !At(s, j, CRLF) {
      if j + 2 <= |l| {
        assert !At(l, j, CRLF) && s[j..j + 2] == l[j..j + 2];
      } else {
        assert s[j + 1] == '\r' && (s[j..j + 2])[1] == s[j + 1];
      }
    }
    assert s[|l|..|l| + 2] == CRLF;
    FindsFirst(s, CRLF, |l|);
  }

  lemma {:induction false} LinesAreLines(s: string)
    ensures Join(Lines(s)) == s && forall l | l in Lines(s) :: OneLine(l)
    decreases |s|
  {
    match Find(s, CRLF)
    case None => assert OneLine(s);
    case Some(i) =>
      LinesAreLines(s[i + 2..]);
      assert s == s[..i] + CRLF + s[i + 2..];
      assert Lines(s)[1..] == Lines(s[i + 2..]);
      forall j: nat ensures !At(s[..i], j, CRLF) {
        if j + 2 <= i { assert !At(s, j, CRLF) && s[..i][j..j + 2] == s[j..j + 2]; }
      }
  }

  /** Splitting undoes joining. */
  lemma {:induction false} LinesOfJoin(ls: seq<string>)
    requires ls != [] && forall l | l in ls :: OneLine(l)
    ensures Lines(Join(ls)) == ls
  {
    assert OneLine(ls[0]);
    if |ls| == 1 {
      assert ls == [ls[0]];
    } else {
      LineEndsFirst(ls[0], Join(ls[1..]));
      LinesOfJoin(ls[1..]);
      assert Join(ls)[..|ls[0]|] == ls[0] && Join(ls)[|ls[0]| + 2..] == Join(ls[1..]);
      assert ls == [ls[0]] + ls[1..];
    }
  }

  lemma CrlfAt(s: string, j: nat)
    ensures At(s, j, CRLF) <==> j + 2 <= |s| && s[j] == '\r' && s[j + 1] == '\n'
  {
    if j + 2 <= |s| { assert s[j..j + 2] == [s[j], s[j + 1]]; }
  }

  lemma EndIsTwo(s: string, j: nat)
    ensures At(s, j, HEADER_END) <==> At(s, j, CRLF) && At(s, j + 2, CRLF)
  {
    CrlfAt(s, j);
    CrlfAt(s, j + 2);
    if j + 4 <= |s| { assert s[j..j + 4] == [s[j], s[j + 1], s[j + 2], s[j + 3]]; }
  }

  lemma AfterLine(l: string, rest: string, k: nat)
    ensures At(l + CRLF + rest, |l| + 2 + k, HEADER_END) <==> At(rest, k, HEADER_END)
  {
    var s := l + CRLF + rest;
    if k + 4 <= |rest| { assert s[|l| + 2 + k..|l| + 2 + k + 4] == rest[k..k + 4]; }
  }

  lemma NotAtLineEnd(l: string, rest: string, j: nat)
    requires OneLine(l) && j <= |l| + 1 && (j == |l| ==> !At(rest, 0, CRLF))
    ensures !At(l + CRLF + rest, j, HEADER_END)
  {
    var s := l + CRLF + rest;
    LineEndsFirst(l, rest);
    EndIsTwo(s, j);
    CrlfAt(s, j);
    CrlfAt(s, j + 2);
    CrlfAt(rest, 0);
    assert j == |l| + 1 ==> s[j] == '\n';
    assert j == |l| && j + 4 <= |s| ==> s[j + 2] == rest[0] && s[j + 3] == rest[1];
  }

  lemma {:induction false} NoEarlierEnd(ls: seq<string>, body: string, j: nat)
    requires ls != [] && (forall l | l in ls :: OneLine(l) && l != "") && j < |Join(ls)|
    ensures !At(Join(ls) + HEADER_END + body, j, HEADER_END)
    decreases |ls|
  {
    var l := ls[0];
    var rest := if |ls| == 1 then CRLF + body else Join(ls[1..]) + HEADER_END + body;
    assert Join(ls) + HEADER_END + body == l + CRLF + rest;
    if j <= |l| + 1 {
      if j == |l| {
        NotBlank(ls[1..], HEADER_END + body);
        assert rest == Join(ls[1..]) + (HEADER_END + body);
      }
      NotAtLineEnd(l, rest, j);
    } else {
      NoEarlierEnd(ls[1..], body, j - |l| - 2);
      AfterLine(l, rest, j - |l| - 2);
    }
  }

  /** Text that starts with a line that is not empty does not start with a line end. */
  lemma NotBlank(ls: seq<string>, after: string)
    requires ls != [] && OneLine(ls[0]) && ls[0] != "" && CRLF <= after
    ensures var s := Join(ls) + after; |s| >= 2 && s[..2] != CRLF
  {
    var s := Join(ls) + after;
    var rest := if |ls| == 1 then after[2..] else Join(ls[1..]) + after;
    assert s == ls[0] + CRLF + rest;
    LineEndsFirst(ls[0], rest);
    assert !At(s, 0, CRLF);
  }

  /** A header block of lines, none empty, ends where the first CRLFCRLF stands. */
  lemma HeaderEndsThere(ls: seq<string>, body: string)
    requires ls != [] && forall l | l in ls :: OneLine(l) && l != ""
    ensures Find(Join(ls) + HEADER_END + body, HEADER_END) == Some(|Join(ls)|)
  {
    var s := Join(ls) + HEADER_END + body;
    forall j: nat | j < |Join(ls)| ensures !At(s, j, HEADER_END) {
      NoEarlierEnd(ls, body, j);
    }
    assert s[|Join(ls)|..|Join(ls)| + 4] == HEADER_END;
    FindsFirst(s, HEADER_END, |Join(ls)|);
  }
}
