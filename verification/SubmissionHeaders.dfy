/**
 What submission does to a message's header. Lines are split at CRLF; a field is a line with its continuation lines.
 `Prepare` walks the lines with one flag; the specification drops whole fields. The parser that reads the author and
 the date is a parameter: it may see other lines than the CRLF split does.
 */
module SubmissionHeaders {
  import opened HeaderFields
  import opened HeaderLines
  import opened Text
  import opened Wrappers

  const MAX_HEADER := 128 * 1024

  /** What the mail parser found under four names. */
  datatype View = View(from: seq<string>, sender: seq<string>, date: seq<string>, messageId: seq<string>)

  /** The clock and the id generator, as the lines they would add. */
  datatype Stamp = Stamp(date: string, messageId: string)

  datatype Prepared = Accepted(out: string) | InvalidHeaders | Unreadable | Denied

  // ---------------------------------------------------------------- the specification

  predicate AuthorOk(v: View, author: string -> bool) {
    |v.from| == 1 && author(v.from[0]) && |v.sender| <= 1 && (|v.sender| == 1 ==> author(v.sender[0]))
  }

  predicate Absent(values: seq<string>) { values == [] || values[0] == "" }

  function DateLine(stamp: Stamp): string { "Date: " + stamp.date }

  function IdLine(stamp: Stamp): string { "Message-ID: <" + stamp.messageId + ">" }

  function Added(v: View, stamp: Stamp): seq<string> {
    (if Absent(v.date) then [DateLine(stamp)] else [])
    + (if Absent(v.messageId) then [IdLine(stamp)] else [])
  }

  function HeaderOf(raw: string): string
    requires Find(raw, HEADER_END).Some?
  {
    raw[..Find(raw, HEADER_END).value]
  }

  function BodyOf(raw: string): string
    requires Find(raw, HEADER_END).Some?
  {
    raw[Find(raw, HEADER_END).value + 4..]
  }

  /** The header lines of the result. */
  function Resulting(raw: string, v: View, stamp: Stamp): seq<string>
    requires Find(raw, HEADER_END).Some?
  {
    Added(v, stamp) + Surviving(Lines(HeaderOf(raw)))
  }

  function Output(raw: string, v: View, stamp: Stamp): string
    requires Find(raw, HEADER_END).Some?
  {
    Terminated(Resulting(raw, v, stamp)) + CRLF + BodyOf(raw)
  }

  predicate HeaderOk(raw: string) {
    Find(raw, HEADER_END).Some? && AllOk(Lines(HeaderOf(raw)))
  }

  function Outcome(raw: string, view: Option<View>, author: string -> bool, stamp: Stamp): Prepared {
    var split := Find(raw, HEADER_END);
    if split.None? || split.value > MAX_HEADER then InvalidHeaders
    else if view.None? then Unreadable
    else if !AuthorOk(view.value, author) || |view.value.date| > 1 || |view.value.messageId| > 1 then Denied
    else if !HeaderOk(raw) then Denied
    else Accepted(Output(raw, view.value, stamp))
  }

  // ---------------------------------------------------------------- the loop

  method Prepare(raw: string, view: Option<View>, author: string -> bool, stamp: Stamp) returns (r: Prepared)
    ensures r == Outcome(raw, view, author, stamp)
  {
    var split := Find(raw, HEADER_END);
    if split.None? || split.value > MAX_HEADER {
      return InvalidHeaders;
    }
    if view.None? {
      return Unreadable;
    }
    var v := view.value;
    if |v.from| != 1 || !author(v.from[0]) || |v.sender| > 1 || (|v.sender| == 1 && !author(v.sender[0])) {
      return Denied;
    }
    if |v.date| > 1 || |v.messageId| > 1 {
      return Denied;
    }
    var out := AddLines(v, stamp);
    var lines := Lines(raw[..split.value]);
    var whole := FilterLines(lines, out, Added(v, stamp));
    if whole.None? {
      return Denied;
    }
    r := Accepted(whole.value + CRLF + raw[split.value + 4..]);
  }

  /** One line: is it well formed, and does the field it belongs to go? */
  method Examine(line: string, before: bool) returns (ok: bool, skip: bool)
    ensures ok == LineOk(line)
    ensures ok ==> skip == if Continues(line) then before else Banned(line)
  {
    ok, skip := true, before;
    if line == "" {
      return false, skip;
    }
    if line[0] != ' ' && line[0] != '\t' {
      var colon := Find(line, ":");
      if colon.None? || colon.value == 0 {
        return false, skip;
      }
      var name := LowerAll(line[..colon.value]);
      if "resent-" <= name {
        return false, skip;
      }
      skip := BannedName(name);
    }
  }

  lemma FilterStep(lines: seq<string>, i: nat)
    requires i < |lines|
    ensures AllOk(lines[..i + 1]) <==> AllOk(lines[..i]) && LineOk(lines[i])
    ensures LastGoes(lines[..i + 1]) == if Continues(lines[i]) then LastGoes(lines[..i]) else Banned(lines[i])
    ensures Surviving(lines[..i + 1]) == Surviving(lines[..i]) + (if LastGoes(lines[..i + 1]) then [] else [lines[i]])
  {
    assert lines[..i + 1] == lines[..i] + [lines[i]] && lines[..i + 1][..i] == lines[..i];
    OneMoreLine(lines[..i], lines[i]);
  }

  /** The loop over the header lines: one flag, one buffer. */
  method FilterLines(lines: seq<string>, before: string, ghost added: seq<string>) returns (r: Option<string>)
    requires before == Terminated(added)
    ensures r == if AllOk(lines) then Some(Terminated(added + Surviving(lines))) else None
  {
    var out, skip := before, false;
    ghost var kept := added;
    assert lines[..0] == [];
    for i := 0 to |lines|
      invariant AllOk(lines[..i]) && skip == LastGoes(lines[..i])
      invariant out == Terminated(kept) && kept == added + Surviving(lines[..i])
    {
      FilterStep(lines, i);
      var ok;
      ok, skip := Examine(lines[i], skip);
      if !ok {
        if AllOk(lines) { AllOkPrefix(lines, i + 1); }
        return None;
      }
      if !skip {
        TerminatedMore(kept, lines[i]);
        out := out + lines[i] + CRLF;
        kept := kept + [lines[i]];
      }
      assert kept == added + Surviving(lines[..i + 1]);
    }
    assert lines[..|lines|] == lines;
    r := Some(out);
  }

  method AddLines(v: View, stamp: Stamp) returns (out: string)
    ensures out == Terminated(Added(v, stamp))
  {
    out := "";
    if Absent(v.date) {
      out := out + "Date: " + stamp.date + CRLF;
      TerminatedMore([], "Date: " + stamp.date);
    }
    if Absent(v.messageId) {
      var before := if Absent(v.date) then [DateLine(stamp)] else [];
      TerminatedMore(before, "Message-ID: <" + stamp.messageId + ">");
      out := out + "Message-ID: <" + stamp.messageId + ">" + CRLF;
    }
  }

  // ---------------------------------------------------------------- the result splits where it should

  ghost predicate Plain(stamp: Stamp) {
    OneLine(DateLine(stamp)) && OneLine(IdLine(stamp))
  }

  lemma AddedNames(stamp: Stamp)
    ensures Name(DateLine(stamp)) == "date" && Name(IdLine(stamp)) == "message-id"
    ensures LineOk(DateLine(stamp)) && LineOk(IdLine(stamp)) && !Continues(DateLine(stamp)) && !Continues(IdLine(stamp))
    ensures !Banned(DateLine(stamp)) && !Banned(IdLine(stamp))
  {
    NameBeforeColon("Date", " " + stamp.date);
    NameBeforeColon("Message-ID", " <" + stamp.messageId + ">");
    assert DateLine(stamp) == "Date" + ":" + (" " + stamp.date);
    assert IdLine(stamp) == "Message-ID" + ":" + (" <" + stamp.messageId + ">");
    assert LowerAll("Date") == "date" && LowerAll("Message-ID") == "message-id";
    NotBanned("date");
    NotBanned("message-id");
    assert !("resent-" <= "date") by { assert "resent-"[0] != "date"[0]; }
    assert !("resent-" <= "message-id") by { assert "resent-"[0] != "message-id"[0]; }
  }

  lemma NotBanned(name: string)
    requires name == "date" || name == "message-id"
    ensures !BannedName(name)
  {
    assert name[0] == 'd' || name[0] == 'm';
    assert |name| == 4 || |name| == 10;
    assert "arc-"[0] == 'a';
  }

  lemma NameBeforeColon(name: string, rest: string)
    requires ':' !in name
    ensures Name(name + ":" + rest) == LowerAll(name)
  {
    var line := name + ":" + rest;
    forall j: nat | j < |name| ensures !At(line, j, ":") {
      assert line[j] == name[j] && line[j..j + 1] == [line[j]];
    }
    assert line[|name|..|name| + 1] == ":";
    FindsFirst(line, ":", |name|);
    assert line[..|name|] == name;
  }

  lemma {:induction false} AllOkLines(lines: seq<string>)
    requires AllOk(lines)
    ensures forall l | l in lines :: LineOk(l)
    decreases |lines|
  {
    if lines != [] {
      AllOkLines(lines[..|lines| - 1]);
      assert lines == lines[..|lines| - 1] + [lines[|lines| - 1]];
    }
  }

  /** Every resulting line is a line, and not empty. */
  lemma ResultingLines(raw: string, v: View, stamp: Stamp)
    requires Find(raw, HEADER_END).Some? && AllOk(Lines(HeaderOf(raw))) && Plain(stamp)
    ensures forall l | l in Resulting(raw, v, stamp) :: OneLine(l) && l != ""
  {
    var lines := Lines(HeaderOf(raw));
    AllOkLines(lines);
    LinesAreLines(HeaderOf(raw));
    forall l | l in Resulting(raw, v, stamp) ensures OneLine(l) && l != "" {
      assert l in Surviving(lines) || l == DateLine(stamp) || l == IdLine(stamp);
    }
  }

  /**
   The first CRLFCRLF of the result is where its header ends, its header lines are the surviving lines of the input's
   after those added, and its body is the input's, exactly when a header line is left at all.
   */
  lemma {:induction false} Resplits(raw: string, v: View, stamp: Stamp)
    requires HeaderOk(raw) && Plain(stamp)
    ensures var out, lines := Output(raw, v, stamp), Resulting(raw, v, stamp);
            && (lines != [] <==>
                Find(out, HEADER_END).Some? && Lines(HeaderOf(out)) == lines && BodyOf(out) == BodyOf(raw))
            && (lines != [] ==> out == Join(lines) + HEADER_END + BodyOf(raw))
            && (lines == [] ==> out == CRLF + BodyOf(raw))
  {
    var out, lines := Output(raw, v, stamp), Resulting(raw, v, stamp);
    if lines != [] {
      ResultingLines(raw, v, stamp);
      TerminatedIsJoin(lines);
      assert Join(lines) + CRLF + CRLF + BodyOf(raw) == Join(lines) + HEADER_END + BodyOf(raw);
      HeaderEndsThere(lines, BodyOf(raw));
      assert HeaderOf(out) == Join(lines) && BodyOf(out) == BodyOf(raw);
      LinesOfJoin(lines);
    }
  }

  /**
   A header that the CRLF split sees as one banned field is lost, although the parser read an author and a date in it.
   */
  lemma HeaderLost(line: string, body: string, v: View, author: string -> bool, stamp: Stamp)
    requires OneLine(line) && LineOk(line) && !Continues(line) && Banned(line) && |line| <= MAX_HEADER
    requires AuthorOk(v, author) && |v.date| == |v.messageId| == 1 && !Absent(v.date) && !Absent(v.messageId)
    ensures Outcome(line + HEADER_END + body, Some(v), author, stamp) == Accepted(CRLF + body)
  {
    OneLineOk(line, body);
    FilterStep([line], 0);
    assert [line][..0] == [] && [line][..1] == [line];
  }

  // ---------------------------------------------------------------- which fields, and which messages

  lemma AddedOthers(v: View, stamp: Stamp, name: string)
    requires name != "date" && name != "message-id"
    ensures forall l | l in Added(v, stamp) :: !Continues(l) && Name(l) != name
  {
    hide Name, Continues;
    AddedNames(stamp);
  }

  /** Of a field that is not banned, the result has what the input had, whole and in order, after what was added. */
  lemma {:induction false} KeptFields(raw: string, v: View, author: string -> bool, stamp: Stamp, name: string)
    requires Outcome(raw, Some(v), author, stamp).Accepted? && Plain(stamp)
    requires name !in {"bcc", "return-path", "received", "authentication-results", "dkim-signature"}
    requires !("arc-" <= name) && name != "date" && name != "message-id"
    ensures var out := Outcome(raw, Some(v), author, stamp).out;
            Find(out, HEADER_END).Some? && Resulting(raw, v, stamp) != [] ==>
              Picked(Lines(HeaderOf(out)), name) == Picked(Lines(HeaderOf(raw)), name)
  {
    hide Picked, Find, Lines, Surviving, Added, AuthorOk, HeaderOk, Plain;
    Resplits(raw, v, stamp);
    AddedOthers(v, stamp, name);
    PickedAfter(Added(v, stamp), Surviving(Lines(HeaderOf(raw))), name);
    PickedSurvive(Lines(HeaderOf(raw)), name);
  }

  /** Of a banned field it has nothing. */
  lemma {:induction false} GoneFields(raw: string, v: View, author: string -> bool, stamp: Stamp, name: string)
    requires Outcome(raw, Some(v), author, stamp).Accepted? && Plain(stamp)
    requires name in {"bcc", "return-path", "received", "authentication-results", "dkim-signature"} || "arc-" <= name
    ensures var out := Outcome(raw, Some(v), author, stamp).out;
            Find(out, HEADER_END).Some? && Resulting(raw, v, stamp) != [] ==> Picked(Lines(HeaderOf(out)), name) == []
  {
    hide Picked, Find, Lines, Surviving, Added, AuthorOk, HeaderOk, Plain;
    Resplits(raw, v, stamp);
    if name == "date" { NotBanned("date"); }
    if name == "message-id" { NotBanned("message-id"); }
    AddedOthers(v, stamp, name);
    PickedAfter(Added(v, stamp), Surviving(Lines(HeaderOf(raw))), name);
    NoneSurvives(Lines(HeaderOf(raw)), name);
  }

  /** Exactly the missing ones of date and Message-ID are added, in front. */
  lemma {:induction false} AddedInFront(raw: string, v: View, author: string -> bool, stamp: Stamp)
    requires Outcome(raw, Some(v), author, stamp).Accepted? && Plain(stamp)
    ensures var out, kept := Outcome(raw, Some(v), author, stamp).out, Surviving(Lines(HeaderOf(raw)));
            var date := if v.date == [] || v.date[0] == "" then ["Date: " + stamp.date] else [];
            var id := if v.messageId == [] || v.messageId[0] == "" then ["Message-ID: <" + stamp.messageId + ">"]
                      else [];
            if date + id + kept == [] then out == CRLF + BodyOf(raw)
            else Find(out, HEADER_END).Some? && Lines(HeaderOf(out)) == date + id + kept && BodyOf(out) == BodyOf(raw)
  {
    hide Find, Lines, Surviving;
    Resplits(raw, v, stamp);
  }

  /** A line may stand in a submitted header: it continues a field, or begins one that has a name and was not resent. */
  lemma LineOkIs(line: string)
    ensures LineOk(line) <==>
            && line != ""
            && (line[0] in {' ', '\t'}
                || exists i | 0 < i < |line| ::
                     line[i] == ':' && ':' !in line[..i] && !("resent-" <= LowerAll(line[..i])))
  {
    if line != "" && line[0] !in {' ', '\t'} {
      ColonAt(line);
      var found := Find(line, ":");
      if i :| 0 < i < |line| && line[i] == ':' && ':' !in line[..i] && !("resent-" <= LowerAll(line[..i])) {
        assert found.Some? && found.value == i;
      }
      if LineOk(line) { assert 0 < found.value && line[found.value] == ':'; }
    }
  }

  lemma ColonAt(line: string)
    ensures var found := Find(line, ":");
            && (found.Some? ==> found.value < |line| && line[found.value] == ':' && ':' !in line[..found.value])
            && (found.None? ==> ':' !in line)
  {
    forall j: nat ensures At(line, j, ":") <==> j < |line| && line[j] == ':' {
      if j < |line| { assert line[j..j + 1] == [line[j]]; }
    }
  }

  /** Exactly which messages are accepted, of those the parser can read. */
  lemma WhenAccepted(raw: string, v: View, author: string -> bool, stamp: Stamp)
    ensures Outcome(raw, Some(v), author, stamp).Accepted? <==>
            && Find(raw, "\r\n\r\n").Some? && Find(raw, "\r\n\r\n").value <= 131072
            && |v.from| == 1 && author(v.from[0])
            && (v.sender == [] || (|v.sender| == 1 && author(v.sender[0])))
            && |v.date| <= 1 && |v.messageId| <= 1
            && forall line | line in Lines(HeaderOf(raw)) :: LineOk(line)
  {
    hide Find, Lines, LineOk, Output;
    if Find(raw, HEADER_END).Some? { AllOkIs(Lines(HeaderOf(raw))); }
  }

  lemma {:induction false} AllOkIs(lines: seq<string>)
    ensures AllOk(lines) <==> forall l | l in lines :: LineOk(l)
    decreases |lines|
  {
    if lines != [] {
      hide LineOk;
      AllOkIs(lines[..|lines| - 1]);
      assert lines == lines[..|lines| - 1] + [lines[|lines| - 1]];
    }
  }

  // ---------------------------------------------------------------- a second pass

  lemma {:induction false} TerminatedConcat(a: seq<string>, b: seq<string>)
    ensures Terminated(a + b) == Terminated(a) + Terminated(b) && (a != [] ==> |Terminated(a)| >= 2)
  {
    if a == [] {
      assert a + b == b;
    } else {
      assert (a + b)[1..] == a[1..] + b;
      TerminatedConcat(a[1..], b);
    }
  }

  lemma SurvivingResult(raw: string, v: View, stamp: Stamp)
    requires Find(raw, HEADER_END).Some?
    ensures Surviving(Resulting(raw, v, stamp)) == Resulting(raw, v, stamp)
  {
    var kept := Surviving(Lines(HeaderOf(raw)));
    AddedNames(stamp);
    SurvivingTwice(Lines(HeaderOf(raw)));
    SurvivingAfter(Added(v, stamp), kept);
  }

  lemma SecondOutput(raw: string, v: View, stamp: Stamp, again: View, later: Stamp)
    requires HeaderOk(raw) && Plain(stamp) && Resulting(raw, v, stamp) != []
    ensures var out, lines := Output(raw, v, stamp), Resulting(raw, v, stamp);
            && Find(out, HEADER_END).Some?
            && Output(out, again, later) == Terminated(Added(again, later) + lines) + CRLF + BodyOf(raw)
  {
    Resplits(raw, v, stamp);
    SurvivingResult(raw, v, stamp);
  }

  /**
   Given its own output again, whatever the parser now reads in it: unchanged exactly when nothing has to be added.
   */
  lemma {:induction false} SecondPass(raw: string, v: View, stamp: Stamp, again: View, later: Stamp)
    requires HeaderOk(raw) && Plain(stamp) && Resulting(raw, v, stamp) != []
    ensures var out := Output(raw, v, stamp);
            && Find(out, HEADER_END).Some?
            && (Output(out, again, later) == out <==> !Absent(again.date) && !Absent(again.messageId))
  {
    SecondOutput(raw, v, stamp, again, later);
    SameOrLonger(Added(again, later), Resulting(raw, v, stamp), BodyOf(raw));
  }

  lemma SameOrLonger(added: seq<string>, lines: seq<string>, body: string)
    ensures Terminated(added + lines) + CRLF + body == Terminated(lines) + CRLF + body <==> added == []
  {
    TerminatedConcat(added, lines);
    if added == [] {
      assert added + lines == lines;
    } else {
      assert |Terminated(added + lines) + CRLF + body| > |Terminated(lines) + CRLF + body|;
    }
  }

  /** What the parser reads under a name: `text` of each field the CRLF split finds under it. */
  function Texts(fields: seq<seq<string>>, text: seq<string> -> string): seq<string> {
    seq(|fields|, i requires 0 <= i < |fields| => text(fields[i]))
  }

  /** The parser sees the fields the CRLF split sees, as it does in a header without bare line feeds. */
  predicate Agrees(v: View, lines: seq<string>, text: seq<string> -> string) {
    v.date == Texts(Picked(lines, "date"), text) && v.messageId == Texts(Picked(lines, "message-id"), text)
  }

  /** An added line does not read as empty. */
  ghost predicate Speaks(line: string, text: seq<string> -> string) {
    forall more: seq<string> :: text([line] + more) != ""
  }

  /** A name present before stays present, and one that was absent was added. */
  lemma NowPresent(raw: string, v: View, stamp: Stamp, text: seq<string> -> string)
    requires Find(raw, HEADER_END).Some? && Agrees(v, Lines(HeaderOf(raw)), text)
    requires Speaks(DateLine(stamp), text) && Speaks(IdLine(stamp), text)
    ensures !Absent(Texts(Picked(Resulting(raw, v, stamp), "date"), text))
    ensures !Absent(Texts(Picked(Resulting(raw, v, stamp), "message-id"), text))
  {
    var lines := Lines(HeaderOf(raw));
    var kept := Surviving(lines);
    NotBanned("date");
    NotBanned("message-id");
    PickedSurvive(lines, "date");
    PickedSurvive(lines, "message-id");
    DatePresent(v, kept, stamp, text);
    IdPresent(v, kept, stamp, text);
  }

  lemma DatePresent(v: View, kept: seq<string>, stamp: Stamp, text: seq<string> -> string)
    requires v.date == Texts(Picked(kept, "date"), text) && Speaks(DateLine(stamp), text)
    ensures !Absent(Texts(Picked(Added(v, stamp) + kept, "date"), text))
  {
    AddedNames(stamp);
    var added := Added(v, stamp);
    if Absent(v.date) {
      var rest := added[1..];
      assert added + kept == [DateLine(stamp)] + (rest + kept);
      AddedFirst(DateLine(stamp), rest + kept, "date", text);
    } else {
      PickedAfter(added, kept, "date");
    }
  }

  lemma IdPresent(v: View, kept: seq<string>, stamp: Stamp, text: seq<string> -> string)
    requires v.messageId == Texts(Picked(kept, "message-id"), text) && Speaks(IdLine(stamp), text)
    ensures !Absent(Texts(Picked(Added(v, stamp) + kept, "message-id"), text))
  {
    AddedNames(stamp);
    var date := if Absent(v.date) then [DateLine(stamp)] else [];
    var rest := if Absent(v.messageId) then [IdLine(stamp)] + kept else kept;
    assert Added(v, stamp) + kept == date + rest;
    PickedAfter(date, rest, "message-id");
    if Absent(v.messageId) { AddedFirst(IdLine(stamp), kept, "message-id", text); }
  }

  lemma AddedFirst(line: string, rest: seq<string>, name: string, text: seq<string> -> string)
    requires !Continues(line) && Name(line) == name && Speaks(line, text)
    ensures !Absent(Texts(Picked([line] + rest, name), text))
  {
    assert [line][..0] == [] && Picked([line], name) == [[line]];
    PickedFirst([line], rest, name);
    var first := Picked([line] + rest, name)[0];
    assert first == [line] + first[1..];
  }

  /**
   If it accepts its own output, `prepare` returns it unchanged, when the parser sees the CRLF split's fields in both.
   */
  lemma {:induction false} PreparesOnce(raw: string, v: View, author: string -> bool, stamp: Stamp, again: View,
        later: Stamp,
        text: seq<string> -> string)
    requires Outcome(raw, Some(v), author, stamp).Accepted? && Plain(stamp)
    requires Speaks(DateLine(stamp), text) && Speaks(IdLine(stamp), text) && Agrees(v, Lines(HeaderOf(raw)), text)
    ensures var out := Outcome(raw, Some(v), author, stamp).out;
            && Find(out, HEADER_END).Some?
            && (Agrees(again, Lines(HeaderOf(out)), text) && Outcome(out, Some(again), author, later).Accepted? ==>
                  Outcome(out, Some(again), author, later) == Accepted(out))
  {
    NowPresent(raw, v, stamp, text);
    assert Picked([], "date") == [];
    Resplits(raw, v, stamp);
    SecondPass(raw, v, stamp, again, later);
  }

  lemma TwoLines(kept: string, gone: string, body: string)
    requires OneLine(kept) && LineOk(kept) && !Continues(kept) && !Banned(kept)
    requires OneLine(gone) && LineOk(gone) && !Continues(gone) && Banned(gone)
    ensures var raw := kept + CRLF + gone + HEADER_END + body;
            && Find(raw, HEADER_END) == Some(|kept| + 2 + |gone|) && BodyOf(raw) == body
            && AllOk(Lines(HeaderOf(raw))) && Surviving(Lines(HeaderOf(raw))) == [kept]
  {
    hide OneLine, Find, Lines, Surviving, Continues, Banned;
    TwoLinesJoined(kept, gone);
    SplitsThere([kept, gone], body);
    TwoLinesFiltered(kept, gone);
  }

  lemma TwoLinesJoined(kept: string, gone: string)
    ensures Join([kept, gone]) == kept + CRLF + gone
  {
    assert [kept, gone][1..] == [gone] && Join([gone]) == gone;
  }

  lemma SplitsThere(lines: seq<string>, body: string)
    requires lines != [] && forall l | l in lines :: OneLine(l) && l != ""
    ensures var raw := Join(lines) + HEADER_END + body;
            Find(raw, HEADER_END) == Some(|Join(lines)|) && Lines(HeaderOf(raw)) == lines && BodyOf(raw) == body
  {
    HeaderEndsThere(lines, body);
    LinesOfJoin(lines);
    var raw := Join(lines) + HEADER_END + body;
    assert HeaderOf(raw) == Join(lines) && BodyOf(raw) == body;
  }

  lemma TwoLinesFiltered(kept: string, gone: string)
    requires LineOk(kept) && !Continues(kept) && !Banned(kept) && LineOk(gone) && !Continues(gone) && Banned(gone)
    ensures AllOk([kept, gone]) && Surviving([kept, gone]) == [kept]
  {
    var lines := [kept, gone];
    FilterStep(lines, 0);
    FilterStep(lines, 1);
    assert lines[..2] == lines && lines[..1] == [kept] && lines[..0] == [];
  }

  /**
   The proviso is needed. A bare line feed can put a date inside what the CRLF split takes for a banned field: the
   parser reads it the first time, the field goes, and the second time a date is added.
   */
  lemma {:induction false} HiddenDate(kept: string, gone: string, body: string, v: View, again: View,
        author: string -> bool,
        stamp: Stamp, later: Stamp)
    requires OneLine(kept) && LineOk(kept) && !Continues(kept) && !Banned(kept) && |kept| + 2 + |gone| <= MAX_HEADER
    requires OneLine(gone) && LineOk(gone) && !Continues(gone) && Banned(gone)
    requires AuthorOk(v, author) && |v.date| == |v.messageId| == 1 && !Absent(v.date) && !Absent(v.messageId)
    requires AuthorOk(again, author) && again.date == [] && |again.messageId| <= 1
    ensures var raw, out := kept + CRLF + gone + HEADER_END + body, kept + HEADER_END + body;
            && Outcome(raw, Some(v), author, stamp) == Accepted(out)
            && Outcome(out, Some(again), author, later).Accepted? && Outcome(out, Some(again), author, later).out != out
  {
    hide OneLine, LineOk, Find, Lines, Banned, Continues;
    DropsOneLine(kept, gone, body, v, author, stamp);
    AddsToOneLine(kept, body, again, later);
    OneLineOk(kept, body);
  }

  lemma DropsOneLine(kept: string, gone: string, body: string, v: View, author: string -> bool, stamp: Stamp)
    requires OneLine(kept) && LineOk(kept) && !Continues(kept) && !Banned(kept) && |kept| + 2 + |gone| <= MAX_HEADER
    requires OneLine(gone) && LineOk(gone) && !Continues(gone) && Banned(gone)
    requires AuthorOk(v, author) && |v.date| == |v.messageId| == 1 && !Absent(v.date) && !Absent(v.messageId)
    ensures Outcome(kept + CRLF + gone + HEADER_END + body, Some(v), author, stamp) ==
            Accepted(kept + HEADER_END + body)
  {
    var raw := kept + CRLF + gone + HEADER_END + body;
    TwoLines(kept, gone, body);
    assert Added(v, stamp) == [];
    OneLineOutput(kept, body);
    assert Output(raw, v, stamp) == Terminated([] + [kept]) + CRLF + body;
  }

  lemma OneLineOutput(line: string, body: string)
    ensures [] + [line] == [line] && Terminated([line]) + CRLF + body == line + HEADER_END + body
  {
    assert [line][1..] == [] && Terminated([line]) == line + CRLF;
  }

  lemma AddsToOneLine(kept: string, body: string, v: View, stamp: Stamp)
    requires OneLine(kept) && LineOk(kept) && !Continues(kept) && !Banned(kept)
    ensures var out := kept + HEADER_END + body;
            && HeaderOk(out) && out == Terminated([kept]) + CRLF + body
            && (Output(out, v, stamp) == out <==> Added(v, stamp) == [])
  {
    hide OneLine, LineOk, Find, Lines;
    OneLineOk(kept, body);
    FilterStep([kept], 0);
    assert [kept][..0] == [] && [kept][..1] == [kept] && [kept][1..] == [];
    var out := kept + HEADER_END + body;
    assert Resulting(out, v, stamp) == Added(v, stamp) + [kept] && BodyOf(out) == body;
    SameOrLonger(Added(v, stamp), [kept], body);
    assert Terminated([kept]) == kept + CRLF;
  }

  lemma OneLineOk(line: string, body: string)
    requires OneLine(line) && LineOk(line)
    ensures var raw := line + HEADER_END + body;
            HeaderOk(raw) && Find(raw, HEADER_END) == Some(|line|) && Lines(HeaderOf(raw)) == [line] &&
              BodyOf(raw) == body
  {
    var raw := line + HEADER_END + body;
    assert Join([line]) == line;
    SplitsThere([line], body);
    FilterStep([line], 0);
    assert [line][..0] == [] && [line][..1] == [line];
  }
}
