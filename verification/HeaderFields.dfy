/** Header fields: a line and the continuation lines after it. Dropping a field drops all its lines. */
module HeaderFields {
  import opened HeaderLines
  import opened Text
  import opened Wrappers

  predicate Continues(line: string) { line != "" && (line[0] == ' ' || line[0] == '\t') }

  /** A field's name, in lower case; "" without a colon. */
  function Name(line: string): string {
    match Find(line, ":")
    case None => ""
    case Some(i) => LowerAll(line[..i])
  }

  predicate LineOk(line: string) {
    line != "" && (Continues(line) || (Name(line) != "" && !("resent-" <= Name(line))))
  }

  const BANNED := {"bcc", "return-path", "received", "authentication-results", "dkim-signature"}

  predicate BannedName(name: string) {
    name in BANNED || "arc-" <= name
  }

  predicate AllOk(lines: seq<string>) {
    lines == [] || (AllOk(lines[..|lines| - 1]) && LineOk(lines[|lines| - 1]))
  }

  lemma {:induction false} AllOkPrefix(lines: seq<string>, n: nat)
    requires n <= |lines| && AllOk(lines)
    ensures AllOk(lines[..n])
    decreases |lines|
  {
    if n < |lines| {
      AllOkPrefix(lines[..|lines| - 1], n);
      assert lines[..|lines| - 1][..n] == lines[..n];
    } else {
      assert lines[..n] == lines;
    }
  }

  predicate Banned(line: string) { BannedName(Name(line)) }

  /** The first line of the field the last line belongs to; continuation lines with nothing before them have none. */
  function FieldOfLast(lines: seq<string>): (head: Option<string>)
    ensures head.Some? ==> head.value in lines && !Continues(head.value)
  {
    if lines == [] then None
    else if Continues(lines[|lines| - 1]) then FieldOfLast(lines[..|lines| - 1])
    else Some(lines[|lines| - 1])
  }

  predicate LastGoes(lines: seq<string>) {
    FieldOfLast(lines).Some? && Banned(FieldOfLast(lines).value)
  }

  /** The lines of all fields that stay, in order. */
  function Surviving(lines: seq<string>): (kept: seq<string>)
    ensures forall l | l in kept :: l in lines
  {
    if lines == [] then []
    else Surviving(lines[..|lines| - 1]) + (if LastGoes(lines) then [] else [lines[|lines| - 1]])
  }

  lemma OneMoreLine(lines: seq<string>, l: string)
    ensures FieldOfLast(lines + [l]) == if Continues(l) then FieldOfLast(lines) else Some(l)
    ensures Surviving(lines + [l]) == Surviving(lines) + (if LastGoes(lines + [l]) then [] else [l])
  {
    assert (lines + [l])[..|lines|] == lines;
  }

  /** A line that stays still belongs to the same field. */
  lemma {:induction false} SurvivingField(lines: seq<string>)
    requires !LastGoes(lines)
    ensures FieldOfLast(Surviving(lines)) == FieldOfLast(lines)
    decreases |lines|
  {
    if lines != [] {
      var front, l := lines[..|lines| - 1], lines[|lines| - 1];
      OneMoreLine(Surviving(front), l);
      if Continues(l) { SurvivingField(front); }
    }
  }

  /** What stayed stays. */
  lemma {:induction false} SurvivingTwice(lines: seq<string>)
    ensures Surviving(Surviving(lines)) == Surviving(lines)
    decreases |lines|
  {
    if lines != [] {
      var front, l := lines[..|lines| - 1], lines[|lines| - 1];
      SurvivingTwice(front);
      if LastGoes(lines) {
        assert Surviving(lines) == Surviving(front);
      } else {
        SurvivingField(lines);
        OneMoreLine(Surviving(front), l);
      }
    }
  }

  lemma {:induction false} FieldAfter(added: seq<string>, lines: seq<string>)
    ensures FieldOfLast(lines).Some? ==> FieldOfLast(added + lines) == FieldOfLast(lines)
    ensures FieldOfLast(lines).None? ==> FieldOfLast(added + lines) == FieldOfLast(added)
    decreases |lines|
  {
    if lines == [] {
      assert added + lines == added;
    } else {
      var front, l := lines[..|lines| - 1], lines[|lines| - 1];
      FieldAfter(added, front);
      assert added + lines == added + front + [l] && lines == front + [l];
      OneMoreLine(added + front, l);
      OneMoreLine(front, l);
    }
  }

  lemma LastGoesAfter(added: seq<string>, lines: seq<string>)
    requires forall l | l in added :: !Banned(l)
    ensures LastGoes(added + lines) == LastGoes(lines)
  {
    FieldAfter(added, lines);
  }

  /** Fields put in front that stay, stay in front. */
  lemma {:induction false} SurvivingAfter(added: seq<string>, lines: seq<string>)
    requires forall l | l in added :: !Banned(l)
    ensures Surviving(added + lines) == added + Surviving(lines)
    decreases |lines|
  {
    if lines == [] {
      assert added + lines == added && Surviving(lines) == [];
      AllStay(added);
    } else {
      hide Surviving, LastGoes, Banned;
      var front, l := lines[..|lines| - 1], lines[|lines| - 1];
      assert lines == front + [l];
      SurvivingAfter(added, front);
      LastGoesAfter(added, front + [l]);
      OneMoreAfter(added, front, l);
    }
  }

  lemma OneMoreAfter(added: seq<string>, front: seq<string>, l: string)
    requires Surviving(added + front) == added + Surviving(front)
    requires LastGoes(added + (front + [l])) == LastGoes(front + [l])
    ensures Surviving(added + (front + [l])) == added + Surviving(front + [l])
  {
    hide Surviving, LastGoes;
    assert added + (front + [l]) == (added + front) + [l];
    OneMoreLine(added + front, l);
    OneMoreLine(front, l);
  }

  lemma {:induction false} AllStay(lines: seq<string>)
    requires forall l | l in lines :: !Banned(l)
    ensures Surviving(lines) == lines
    decreases |lines|
  {
    if lines != [] {
      AllStay(lines[..|lines| - 1]);
      assert lines == lines[..|lines| - 1] + [lines[|lines| - 1]];
    }
  }

  // ---------------------------------------------------------------- fields of one name

  predicate LastIs(lines: seq<string>, name: string) {
    FieldOfLast(lines).Some? && Name(FieldOfLast(lines).value) == name
  }

  /** The fields with a name, each with its continuation lines. */
  function Picked(lines: seq<string>, name: string): (fields: seq<seq<string>>)
    ensures LastIs(lines, name) ==> fields != []
    decreases |lines|
  {
    if lines == [] then []
    else
      var before, l := Picked(lines[..|lines| - 1], name), lines[|lines| - 1];
      if !LastIs(lines, name) then before
      else if Continues(l) then before[..|before| - 1] + [before[|before| - 1] + [l]]
      else before + [[l]]
  }

  lemma PickedMore(lines: seq<string>, l: string, name: string)
    ensures var before := Picked(lines, name);
            Picked(lines + [l], name) ==
              if !LastIs(lines + [l], name) then before
              else if Continues(l) then before[..|before| - 1] + [before[|before| - 1] + [l]]
              else before + [[l]]
  {
    assert (lines + [l])[..|lines|] == lines;
  }

  /** Dropping other fields leaves the fields of a name as they are, continuation lines included. */
  lemma {:induction false} PickedSurvive(lines: seq<string>, name: string)
    requires !BannedName(name)
    ensures Picked(Surviving(lines), name) == Picked(lines, name)
    decreases |lines|
  {
    if lines != [] {
      var front, l := lines[..|lines| - 1], lines[|lines| - 1];
      PickedSurvive(front, name);
      if LastGoes(lines) {
        assert Surviving(lines) == Surviving(front);
      } else {
        SurvivingField(lines);
        PickedMore(Surviving(front), l, name);
      }
    }
  }

  /** The filter goes field by field, in order: a field stays whole or goes whole, by its name. */
  lemma {:induction false} FieldByField(before: seq<string>, field: seq<string>)
    requires field != [] && !Continues(field[0]) && forall i | 0 < i < |field| :: Continues(field[i])
    ensures var name := Name(field[0]);
            var goes := name in {"bcc", "return-path", "received", "authentication-results", "dkim-signature"}
                        || "arc-" <= name;
            && FieldOfLast(before + field) == Some(field[0])
            && Surviving(before + field) == Surviving(before) + (if goes then [] else field)
    decreases |field|
  {
    hide Surviving, FieldOfLast, Name, Continues;
    var front, l := field[..|field| - 1], field[|field| - 1];
    assert before + field == before + front + [l];
    OneMoreLine(before + front, l);
    if front == [] {
      assert before + front == before && [l] == field;
    } else {
      FieldByField(before, front);
      assert front + [l] == field;
    }
  }

  /** Continuation lines before any field belong to none, and stay. */
  lemma {:induction false} LeadingLinesStay(lines: seq<string>)
    requires forall i | 0 <= i < |lines| :: lines[i] != "" && lines[i][0] in {' ', '\t'}
    ensures FieldOfLast(lines) == None && Surviving(lines) == lines
    decreases |lines|
  {
    if lines != [] {
      LeadingLinesStay(lines[..|lines| - 1]);
      assert lines == lines[..|lines| - 1] + [lines[|lines| - 1]];
    }
  }

  /** No field of a banned name is left. */
  lemma {:induction false} NoneSurvives(lines: seq<string>, name: string)
    requires BannedName(name)
    ensures Picked(Surviving(lines), name) == []
    decreases |lines|
  {
    if lines != [] {
      var front, l := lines[..|lines| - 1], lines[|lines| - 1];
      NoneSurvives(front, name);
      if LastGoes(lines) {
        assert Surviving(lines) == Surviving(front);
      } else {
        SurvivingField(lines);
        OneMoreLine(Surviving(front), l);
        PickedMore(Surviving(front), l, name);
      }
    }
  }

  /** More lines after some fields leave the first of them first. */
  lemma {:induction false} PickedFirst(a: seq<string>, b: seq<string>, name: string)
    requires Picked(a, name) != [] && Picked(a, name)[0] != []
    ensures var fields := Picked(a + b, name); fields != [] && fields[0] != [] && fields[0][0] == Picked(a, name)[0][0]
    decreases |b|
  {
    if b == [] {
      assert a + b == a;
    } else {
      PickedFirst(a, b[..|b| - 1], name);
      PickedMore(a + b[..|b| - 1], b[|b| - 1], name);
      assert a + b == a + b[..|b| - 1] + [b[|b| - 1]];
    }
  }

  /** Fields of other names in front add nothing. */
  lemma {:induction false} PickedAfter(a: seq<string>, b: seq<string>, name: string)
    requires forall l | l in a :: !Continues(l) && Name(l) != name
    ensures Picked(a + b, name) == Picked(b, name)
    ensures LastIs(a + b, name) == LastIs(b, name)
    decreases |b|
  {
    if b == [] {
      assert a + b == a;
      NonePicked(a, name);
    } else {
      var front, l := b[..|b| - 1], b[|b| - 1];
      PickedAfter(a, front, name);
      assert a + b == a + front + [l] && b == front + [l];
      OneMoreLine(a + front, l);
      OneMoreLine(front, l);
      PickedMore(a + front, l, name);
      PickedMore(front, l, name);
    }
  }

  lemma {:induction false} NonePicked(a: seq<string>, name: string)
    requires forall l | l in a :: !Continues(l) && Name(l) != name
    ensures Picked(a, name) == [] && !LastIs(a, name)
    decreases |a|
  {
    if a != [] { NonePicked(a[..|a| - 1], name); }
  }
}
