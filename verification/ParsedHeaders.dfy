/**
 A reader of header fields as `net/mail` reads them: it ends a line at every line feed, with or without a carriage
 return before it, where `prepare` splits at CRLF only. With it the two messages on which they disagree are whole
 inputs: `HiddenDateIsRead` and `LostHeaderIsRead`.
 */
module ParsedHeaders {
  import opened HeaderFields
  import opened HeaderLines
  import opened SubmissionHeaders
  import opened Text
  import opened Wrappers

  const LF := "\n"

  // ---------------------------------------------------------------- the reader

  function DropCr(line: string): string {
    if line != "" && line[|line| - 1] == '\r' then line[..|line| - 1] else line
  }

  function LfLines(s: string): seq<string>
    decreases |s|
  {
    match Find(s, LF)
    case None => [DropCr(s)]
    case Some(i) => [DropCr(s[..i])] + LfLines(s[i + 1..])
  }

  /** The lines before the first empty one. */
  function HeaderBlock(lines: seq<string>): seq<string> {
    if lines == [] || lines[0] == "" then [] else [lines[0]] + HeaderBlock(lines[1..])
  }

  function ValueOf(line: string): string {
    match Find(line, ":")
    case None => ""
    case Some(i) => TrimSpace(line[i + 1..])
  }

  /** The values of the fields of one name; a continuation line belongs to the field before it. */
  function Values(lines: seq<string>, name: string): seq<string> {
    if lines == [] then []
    else
      var front, last := lines[..|lines| - 1], lines[|lines| - 1];
      var values := Values(front, name);
      if !Continues(last) then values + (if Name(last) == name then [ValueOf(last)] else [])
      else if values != [] && FieldOfLast(front).Some? && Name(FieldOfLast(front).value) == name then
        values[..|values| - 1] + [values[|values| - 1] + " " + TrimSpace(last)]
      else values
  }

  function ViewOf(lines: seq<string>): View {
    View(Values(lines, "from"), Values(lines, "sender"), Values(lines, "date"), Values(lines, "message-id"))
  }

  /** What the reader finds in a message. */
  function Parsed(raw: string): View { ViewOf(HeaderBlock(LfLines(raw))) }

  // ---------------------------------------------------------------- reading a few lines

  lemma FirstLf(line: string, rest: string)
    requires '\n' !in line
    ensures LfLines(line + LF + rest) == [DropCr(line)] + LfLines(rest)
  {
    var s := line + LF + rest;
    forall j: nat | j < |line| ensures !At(s, j, LF) {
      assert s[j] == line[j] && line[j] in line && s[j..j + 1] == [s[j]];
    }
    assert s[|line|..|line| + 1] == LF;
    FindsFirst(s, LF, |line|);
    assert s[..|line|] == line && s[|line| + 1..] == rest;
  }

  /** A line that ends at a line feed, and one that ends at CRLF. */
  lemma FirstLine(line: string, rest: string)
    requires '\n' !in line && '\r' !in line
    ensures LfLines(line + LF + rest) == [line] + LfLines(rest)
    ensures LfLines(line + CRLF + rest) == [line] + LfLines(rest)
  {
    hide LfLines;
    FirstLf(line, rest);
    assert line != "" ==> line[|line| - 1] in line;
    var cr := line + "\r";
    FirstLf(cr, rest);
    assert cr[..|cr| - 1] == line && cr + LF + rest == line + CRLF + rest;
  }

  lemma BlockOf(line: string, more: seq<string>)
    ensures HeaderBlock([line] + more) == if line == "" then [] else [line] + HeaderBlock(more)
  {
    assert ([line] + more)[1..] == more;
  }

  /** A field of one line, its name and its value. */
  predicate Field(line: string, name: string, value: string) {
    && line != "" && '\n' !in line && '\r' !in line && !Continues(line) && name != ""
    && Name(line) == name && ValueOf(line) == value
  }

  lemma FieldIs(name: string, value: string)
    requires name != "" && ':' !in name && name[0] != ' ' && name[0] != '\t'
    requires forall c | c in name + value :: c != '\n' && c != '\r'
    ensures Field(name + ": " + value, LowerAll(name), TrimSpace(" " + value))
  {
    var line := name + ": " + value;
    forall j: nat | j < |name| ensures !At(line, j, ":") {
      assert line[j] == name[j] && name[j] in name && line[j..j + 1] == [line[j]];
    }
    assert line[|name|..|name| + 1] == ":";
    FindsFirst(line, ":", |name|);
    assert line[..|name|] == name && line[|name| + 1..] == " " + value;
    forall c | c in line ensures c != '\n' && c != '\r' { assert c in name + value || c in ": "; }
  }

  lemma ValuesLast(lines: seq<string>, last: string, name: string)
    requires !Continues(last)
    ensures Values(lines + [last], name) == Values(lines, name) + (if Name(last) == name then [ValueOf(last)] else [])
  {
    assert (lines + [last])[..|lines|] == lines;
  }

  /** What one more field adds to what was read. */
  lemma ViewLast(lines: seq<string>, last: string, name: string, value: string)
    requires Field(last, name, value)
    ensures var v, w := ViewOf(lines), ViewOf(lines + [last]);
            && w.from == v.from + (if name == "from" then [value] else [])
            && w.sender == v.sender + (if name == "sender" then [value] else [])
            && w.date == v.date + (if name == "date" then [value] else [])
            && w.messageId == v.messageId + (if name == "message-id" then [value] else [])
  {
    hide Values, Name, ValueOf, Continues;
    ValuesLast(lines, last, "from");
    ValuesLast(lines, last, "sender");
    ValuesLast(lines, last, "date");
    ValuesLast(lines, last, "message-id");
  }

  // ---------------------------------------------------------------- two messages

  /** Four fields: an author, one that is banned, a date and a Message-ID. */
  datatype Fields = Fields(from: string, gone: string, date: string, id: string, author: string, name: string,
        when: string, mark: string)
  {
    ghost predicate Valid() {
      && Field(from, "from", author) && Field(date, "date", when) && Field(id, "message-id", mark)
      && Field(gone, name, ValueOf(gone)) && BannedName(name) && !("resent-" <= name)
      && when != "" && mark != "" && |from| + |gone| + |date| + |id| + 4 <= MAX_HEADER
    }

    /** To the reader three lines; to the CRLF split one, which is banned. */
    function Hiding(): string { gone + LF + date + LF + id }

    function HidingAll(): string { gone + LF + from + LF + date + LF + id }
  }

  lemma BannedIsOther(name: string)
    requires BannedName(name)
    ensures name != "from" && name != "sender" && name != "date" && name != "message-id"
  {
    assert "arc-" <= name ==> name[0] == 'a';
    assert |"bcc"| == 3 && |"return-path"| == 11 && |"received"| == 8 && |"authentication-results"| == 22 &&
      |"dkim-signature"| == 14;
  }

  lemma Views(f: Fields)
    requires f.Valid()
    ensures ViewOf([f.from]) == View([f.author], [], [], [])
    ensures ViewOf([f.from, f.gone, f.date, f.id]) == View([f.author], [], [f.when], [f.mark])
    ensures ViewOf([f.gone, f.from, f.date, f.id]) == View([f.author], [], [f.when], [f.mark])
  {
    hide Field, BannedName, ViewOf;
    ViewFrom(f);
    ViewRest(f, [f.from, f.gone]);
    ViewRest(f, [f.gone, f.from]);
    assert [f.from, f.gone] + [f.date] + [f.id] == [f.from, f.gone, f.date, f.id];
    assert [f.gone, f.from] + [f.date] + [f.id] == [f.gone, f.from, f.date, f.id];
  }

  lemma ViewFrom(f: Fields)
    requires f.Valid()
    ensures var v := View([f.author], [], [], []);
            ViewOf([f.from]) == v && ViewOf([f.from, f.gone]) == v && ViewOf([f.gone, f.from]) == v
  {
    hide Field, BannedName;
    BannedIsOther(f.name);
    ViewLast([], f.from, "from", f.author);
    ViewLast([f.from], f.gone, f.name, ValueOf(f.gone));
    ViewLast([], f.gone, f.name, ValueOf(f.gone));
    ViewLast([f.gone], f.from, "from", f.author);
    assert [] + [f.from] == [f.from] && [f.from] + [f.gone] == [f.from, f.gone];
    assert [] + [f.gone] == [f.gone] && [f.gone] + [f.from] == [f.gone, f.from];
  }

  lemma ViewRest(f: Fields, lines: seq<string>)
    requires f.Valid() && ViewOf(lines) == View([f.author], [], [], [])
    ensures ViewOf(lines + [f.date] + [f.id]) == View([f.author], [], [f.when], [f.mark])
  {
    hide Field, BannedName, ViewOf;
    ViewLast(lines, f.date, "date", f.when);
    ViewLast(lines + [f.date], f.id, "message-id", f.mark);
  }

  /** Two lines and what follows them. */
  lemma ReadsLast(a: string, b: string, body: string)
    requires a != "" && b != "" && forall c | c in a + b :: c != '\n' && c != '\r'
    ensures HeaderBlock(LfLines(a + LF + b + HEADER_END + body)) == [a, b]
    ensures HeaderBlock(LfLines(a + HEADER_END + body)) == [a]
  {
    hide LfLines, HeaderBlock;
    forall c ensures (c in a || c in b) ==> c in a + b { }
    var end := CRLF + body;
    assert a + LF + b + HEADER_END + body == a + LF + (b + CRLF + end) && a + HEADER_END + body == a + CRLF + end;
    FirstLine(a, b + CRLF + end);
    FirstLine(b, end);
    FirstLine(a, end);
    FirstLine("", body);
    assert "" + CRLF + body == end;
    BlockOf("", LfLines(body));
    BlockOf(b, LfLines(end));
    BlockOf(a, [b] + LfLines(end));
    BlockOf(a, LfLines(end));
    assert [a] + ([b] + []) == [a, b] && [a] + [] == [a];
  }

  lemma ReadsFirst(a: string, rest: string)
    requires a != "" && '\n' !in a && '\r' !in a
    ensures HeaderBlock(LfLines(a + LF + rest)) == [a] + HeaderBlock(LfLines(rest))
    ensures HeaderBlock(LfLines(a + CRLF + rest)) == [a] + HeaderBlock(LfLines(rest))
  {
    hide LfLines, HeaderBlock;
    FirstLine(a, rest);
    BlockOf(a, LfLines(rest));
  }

  lemma ReadsAll(f: Fields, body: string)
    requires f.Valid()
    ensures Parsed(f.from + CRLF + f.Hiding() + HEADER_END + body) == View([f.author], [], [f.when], [f.mark])
    ensures Parsed(f.HidingAll() + HEADER_END + body) == View([f.author], [], [f.when], [f.mark])
    ensures Parsed(f.from + HEADER_END + body) == View([f.author], [], [], [])
  {
    hide LfLines, HeaderBlock, ViewOf, Continues, Name, ValueOf, BannedName;
    Views(f);
    var rest := f.date + LF + f.id + HEADER_END + body;
    ReadsLast(f.date, f.id, body);
    ReadsLast(f.from, f.id, body);
    assert f.from + CRLF + f.Hiding() + HEADER_END + body == f.from + CRLF + (f.gone + LF + rest);
    assert f.HidingAll() + HEADER_END + body == f.gone + LF + (f.from + LF + rest);
    ReadsFirst(f.from, f.gone + LF + rest);
    ReadsFirst(f.gone, rest);
    ReadsFirst(f.gone, f.from + LF + rest);
    ReadsFirst(f.from, rest);
    assert [f.from] + ([f.gone] + [f.date, f.id]) == [f.from, f.gone, f.date, f.id];
    assert [f.gone] + ([f.from] + [f.date, f.id]) == [f.gone, f.from, f.date, f.id];
  }

  /** What follows a field's line without a CRLF is the field's, to the CRLF split. */
  lemma StillOneField(line: string, name: string, value: string, more: string)
    requires Field(line, name, value) && !("resent-" <= name) && '\r' !in more
    ensures var all := line + more;
            OneLine(all) && LineOk(all) && !Continues(all) && Name(all) == name
  {
    var all, i := line + more, Find(line, ":").value;
    forall j: nat | j < i ensures !At(all, j, ":") {
      assert !At(line, j, ":") && all[j..j + 1] == line[j..j + 1];
    }
    assert At(line, i, ":") && all[i..i + 1] == line[i..i + 1];
    FindsFirst(all, ":", i);
    assert all[..i] == line[..i];
    forall j: nat ensures !At(all, j, CRLF) { CrlfAt(all, j); }
  }

  lemma HidingIsOneField(f: Fields)
    requires f.Valid()
    ensures OneLine(f.Hiding()) && LineOk(f.Hiding()) && !Continues(f.Hiding())
    ensures OneLine(f.HidingAll()) && LineOk(f.HidingAll()) && !Continues(f.HidingAll())
    ensures OneLine(f.from) && LineOk(f.from) && !Continues(f.from)
    ensures Banned(f.Hiding()) && Banned(f.HidingAll()) && !Banned(f.from)
  {
    hide OneLine, LineOk, Continues, Name, ValueOf, BannedName;
    assert '\r' !in LF + f.date + LF + f.id && '\r' !in LF + f.from + LF + f.date + LF + f.id by { NoReturns(f); }
    hide Field;
    StillOneField(f.gone, f.name, ValueOf(f.gone), LF + f.date + LF + f.id);
    StillOneField(f.gone, f.name, ValueOf(f.gone), LF + f.from + LF + f.date + LF + f.id);
    StillOneField(f.from, "from", f.author, "");
    assert f.gone + (LF + f.date + LF + f.id) == f.Hiding() && f.from + "" == f.from;
    assert f.gone + (LF + f.from + LF + f.date + LF + f.id) == f.HidingAll();
    if BannedName("from") { BannedIsOther("from"); }
  }

  lemma NoReturns(f: Fields)
    requires f.Valid()
    ensures '\r' !in LF + f.date + LF + f.id && '\r' !in LF + f.from + LF + f.date + LF + f.id
  {
    hide Name, ValueOf, BannedName, Continues;
    forall c | c in LF + f.from + LF + f.date + LF + f.id ensures c != '\r' {
      assert c in LF || c in f.from || c in f.date || c in f.id;
    }
    forall c | c in LF + f.date + LF + f.id ensures c != '\r' {
      assert c in LF || c in f.date || c in f.id;
    }
  }

  /**
   A message with a date and a Message-ID behind bare line feeds in a banned field, read each time as its bytes are:
   `prepare` accepts it and drops both, and accepts its own output only by adding others.
   */
  lemma {:induction false} HiddenDateIsRead(f: Fields, body: string, author: string -> bool, stamp: Stamp, later: Stamp)
    requires f.Valid() && author(f.author)
    ensures var raw, out := f.from + CRLF + f.Hiding() + HEADER_END + body, f.from + HEADER_END + body;
            && Outcome(raw, Some(Parsed(raw)), author, stamp) == Accepted(out)
            && Outcome(out, Some(Parsed(out)), author, later).Accepted? &&
               Outcome(out, Some(Parsed(out)), author, later).out != out
  {
    hide Outcome, Parsed, Field, OneLine, LineOk, Continues, Banned, BannedName;
    ReadsAll(f, body);
    HidingIsOneField(f);
    HiddenDate(f.from, f.Hiding(), body, View([f.author], [], [f.when], [f.mark]), View([f.author], [], [], []), author,
               stamp, later);
  }

  /**
   A message whose author, date and Message-ID stand behind bare line feeds in a banned field loses its whole header.
   */
  lemma {:induction false} LostHeaderIsRead(f: Fields, body: string, author: string -> bool, stamp: Stamp)
    requires f.Valid() && author(f.author)
    ensures var raw := f.HidingAll() + HEADER_END + body;
            Outcome(raw, Some(Parsed(raw)), author, stamp) == Accepted(CRLF + body)
  {
    hide Outcome, Parsed, Field, OneLine, LineOk, Continues, Banned, BannedName;
    ReadsAll(f, body);
    HidingIsOneField(f);
    HeaderLost(f.HidingAll(), body, View([f.author], [], [f.when], [f.mark]), author, stamp);
  }

  // ---------------------------------------------------------------- there are such fields

  function Sample(): Fields {
    Fields("From: a", "Bcc: b", "Date: d", "Message-ID: m", "a", "bcc", "d", "m")
  }

  lemma SampleValid()
    ensures Sample().Valid()
  {
    hide Field, ValueOf;
    OneLetter("From", "from", "a");
    OneLetter("Bcc", "bcc", "b");
    OneLetter("Date", "date", "d");
    OneLetter("Message-ID", "message-id", "m");
    assert Sample().from == "From" + ": " + "a" && Sample().gone == "Bcc" + ": " + "b";
    assert Sample().date == "Date" + ": " + "d" && Sample().id == "Message-ID" + ": " + "m";
    FieldValue(Sample().gone, "bcc", "b");
  }

  lemma FieldValue(line: string, name: string, value: string)
    requires Field(line, name, value)
    ensures ValueOf(line) == value
  {
  }

  lemma OneLetter(name: string, lower: string, value: string)
    requires name in {"From", "Bcc", "Date", "Message-ID"} && value in {"a", "b", "d", "m"}
    requires |lower| == |name| && forall i | 0 <= i < |name| :: lower[i] == Lower(name[i])
    ensures Field(name + ": " + value, lower, value)
  {
    hide Field;
    assert LowerAll(name) == lower;
    var spaced := " " + value;
    assert spaced[1..] == value && |value| == 1 && !IsSpace(value[0]);
    assert TrimLeft(value) == value && TrimRight(value) == value && TrimLeft(spaced) == TrimLeft(spaced[1..]);
    FieldIs(name, value);
  }
}
