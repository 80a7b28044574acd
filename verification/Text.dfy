/** Text helpers as the standard library has them, on ASCII. */
module Text {
  predicate IsSpace(c: char) { c == ' ' || '\t' <= c <= '\r' }

  predicate Blank(s: string) { forall c | c in s :: IsSpace(c) }

  function TrimLeft(s: string): string {
    if s != "" && IsSpace(s[0]) then TrimLeft(s[1..]) else s
  }

  function TrimRight(s: string): string {
    if s != "" && IsSpace(s[|s| - 1]) then TrimRight(s[..|s| - 1]) else s
  }

  function TrimSpace(s: string): string { TrimRight(TrimLeft(s)) }

  function Lower(c: char): char { if 'A' <= c <= 'Z' then c + 32 as char else c }

  function LowerAll(s: string): string { seq(|s|, i requires 0 <= i < |s| => Lower(s[i])) }

  /** `strings.EqualFold`. */
  predicate EqualFold(a: string, b: string) {
    |a| == |b| && forall i | 0 <= i < |a| :: Lower(a[i]) == Lower(b[i])
  }

  /** Decimal digits of a number, as `fmt.Sprint` writes it. */
  function Decimal(n: nat): (s: string)
    ensures s != "" && forall c | c in s :: '0' <= c <= '9'
  {
    var digit := [(48 + n % 10) as char];
    if n < 10 then digit else Decimal(n / 10) + digit
  }

  /** Different numbers are written differently. */
  lemma {:induction false} DecimalInjective(a: nat, b: nat)
    requires Decimal(a) == Decimal(b)
    ensures a == b
    decreases a
  {
    var s, t := Decimal(a), Decimal(b);
    assert s[|s| - 1] == (48 + a % 10) as char && t[|t| - 1] == (48 + b % 10) as char;
    assert a % 10 == b % 10;
    if a >= 10 && b >= 10 {
      assert s[..|s| - 1] == Decimal(a / 10) && t[..|t| - 1] == Decimal(b / 10);
      DecimalInjective(a / 10, b / 10);
    }
  }

  /** White space: blank, tab, line feed, vertical tab, form feed, carriage return. */
  lemma IsSpaceIs(c: char)
    ensures IsSpace(c) <==> c in {' ', '\t', '\n', '\U{0B}', '\U{0C}', '\r'}
  {
  }

  /** Trimming takes white space off both ends, all of it, and nothing else. */
  lemma TrimSpaceIs(before: string, text: string, after: string)
    requires Blank(before) && Blank(after)
    requires text == "" || (!IsSpace(text[0]) && !IsSpace(text[|text| - 1]))
    ensures TrimSpace(before + text + after) == text
  {
    if text == "" {
      assert before + text + after == before + after;
      BlankTrims(before + after);
    } else {
      TrimsLeft(before, text + after);
      assert before + text + after == before + (text + after);
      TrimsRight(text, after);
    }
  }

  lemma {:induction false} BlankTrims(s: string)
    requires Blank(s)
    ensures TrimLeft(s) == ""
  {
    if s != "" {
      assert s[0] in s && forall c | c in s[1..] :: c in s;
      BlankTrims(s[1..]);
    }
  }

  lemma {:induction false} TrimsLeft(before: string, rest: string)
    requires Blank(before) && rest != "" && !IsSpace(rest[0])
    ensures TrimLeft(before + rest) == rest
  {
    if before == "" {
      assert before + rest == rest;
    } else {
      assert before[0] in before && forall c | c in before[1..] :: c in before;
      assert (before + rest)[1..] == before[1..] + rest;
      TrimsLeft(before[1..], rest);
    }
  }

  lemma {:induction false} TrimsRight(text: string, after: string)
    requires Blank(after) && text != "" && !IsSpace(text[|text| - 1])
    ensures TrimRight(text + after) == text
    decreases |after|
  {
    if after == "" {
      assert text + after == text;
    } else {
      var front := after[..|after| - 1];
      assert after[|after| - 1] in after && forall c | c in front :: c in after;
      assert (text + after)[..|text + after| - 1] == text + front;
      TrimsRight(text, front);
    }
  }

  /** Every text has such parts. */
  lemma {:induction false} TrimParts(s: string) returns (before: string, after: string)
    ensures Blank(before) && Blank(after) && s == before + TrimSpace(s) + after
    ensures TrimSpace(s) == "" || (!IsSpace(TrimSpace(s)[0]) && !IsSpace(TrimSpace(s)[|TrimSpace(s)| - 1]))
  {
    before := LeftPart(s);
    var rest := TrimLeft(s);
    after := RightPart(rest);
    assert before + rest == before + TrimSpace(s) + after;
  }

  lemma {:induction false} LeftPart(s: string) returns (before: string)
    ensures Blank(before) && s == before + TrimLeft(s) && (TrimLeft(s) == "" || !IsSpace(TrimLeft(s)[0]))
  {
    before := "";
    if s != "" && IsSpace(s[0]) {
      var more := LeftPart(s[1..]);
      before := [s[0]] + more;
    }
  }

  lemma {:induction false} RightPart(s: string) returns (after: string)
    ensures Blank(after) && s == TrimRight(s) + after && TrimRight(s) <= s
    ensures TrimRight(s) == "" || !IsSpace(TrimRight(s)[|TrimRight(s)| - 1])
    decreases |s|
  {
    after := "";
    if s != "" && IsSpace(s[|s| - 1]) {
      var front, last := s[..|s| - 1], s[|s| - 1];
      var more := RightPart(front);
      var kept := TrimRight(front);
      assert TrimRight(s) == kept;
      after := more + [last];
      assert s == front + [last] == kept + more + [last] == kept + after;
    }
  }
}
