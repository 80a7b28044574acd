/**
 A parsed message as a tree, and what attachments it has: a pure preorder over its nodes, with no counter, no limit on
 how far it looks, and no download in it.
 */
module MimeTrees {
  import opened Text

  const MAX_PARTS := 256
  const MAX_DEPTH := 32
  const MAX_MESSAGE_BYTES := 25 * 1024 * 1024
  const MAX_NAME := 200

  /** Bytes decoded, and whether decoding then ended without an error. */
  datatype Decoded = Decoded(bytes: string, ok: bool)

  /** A leaf's content as its transfer encodings would give it. */
  datatype Content = Content(plain: Decoded, base64: Decoded, quoted: Decoded)

  datatype Header = Header(disposition: string, fileName: string, contentType: string, typeName: string,
        encoding: string)

  /** The parts a multipart reader would yield, and whether it would end at the closing boundary. */
  datatype Part = Part(header: Header, content: Content, children: seq<Part>, clean: bool)

  datatype Item = Item(id: string, name: string, size: nat)

  datatype Node = Node(part: Part, depth: nat)

  predicate IsMultipart(h: Header) { "multipart/" <= h.contentType }

  function RawName(h: Header): string { if h.fileName != "" then h.fileName else h.typeName }

  predicate IsAttachment(h: Header) {
    !IsMultipart(h) && (h.disposition == "attachment" || RawName(h) != "")
  }

  predicate KnownEncoding(e: string) { e in {"base64", "quoted-printable", "", "7bit", "8bit", "binary"} }

  function EncodingOf(h: Header): string { LowerAll(TrimSpace(h.encoding)) }

  function DecodedOf(p: Part): Decoded {
    var e := EncodingOf(p.header);
    if e == "base64" then p.content.base64 else if e == "quoted-printable" then p.content.quoted else p.content.plain
  }

  predicate Fits(d: Decoded) { d.ok && |d.bytes| <= MAX_MESSAGE_BYTES }

  // ---------------------------------------------------------------- file names

  predicate IsControl(c: char) { c < ' ' || '\U{7F}' <= c <= '\U{9F}' }

  function Safe(c: char): char { if IsControl(c) || c == '/' || c == '\\' then '_' else c }

  function SafeAll(s: string): string { seq(|s|, i requires 0 <= i < |s| => Safe(s[i])) }

  function FileName(h: Header, id: string, decode: string -> string): string {
    var name := SafeAll(decode(RawName(h)));
    var named := if name == "" || name == "." || name == ".." then "attachment-" + id else name;
    if |named| > MAX_NAME then named[..MAX_NAME] else named
  }

  /** No name leads out of a directory, hides a control character, is empty or too long. */
  lemma FileNameIsSafe(h: Header, id: string, decode: string -> string)
    requires forall c | c in id :: '0' <= c <= '9'
    ensures var name := FileName(h, id, decode);
            && 0 < |name| <= MAX_NAME && name != "." && name != ".."
            && (forall c | c in name :: !IsControl(c) && c != '/' && c != '\\')
  {
    var name := SafeAll(decode(RawName(h)));
    var stand := "attachment-" + id;
    forall c | c in name ensures !IsControl(c) && c != '/' && c != '\\' {
      var i :| 0 <= i < |name| && name[i] == c;
      assert c == Safe(decode(RawName(h))[i]);
    }
    forall c | c in stand ensures !IsControl(c) && c != '/' && c != '\\' {
      assert c in "attachment-" || c in id;
    }
    assert |stand| >= 11;
  }

  /** The declared file name, else the type's; bad characters become underscores; a stand-in for none; cut at 200. */
  lemma FileNameIs(h: Header, id: string, decode: string -> string)
    ensures var told := decode(if h.fileName != "" then h.fileName else h.typeName);
            var name := FileName(h, id, decode);
            if told == "" || told == "." || told == ".." then
              name == if |id| <= 189 then "attachment-" + id else ("attachment-" + id)[..200]
            else
              && |name| == (if |told| <= 200 then |told| else 200)
              && forall i | 0 <= i < |name| ::
                   name[i] == if told[i] < ' ' || '\U{7F}' <= told[i] <= '\U{9F}' || told[i] in {'/', '\\'} then '_'
                              else told[i]
  {
    var told := decode(RawName(h));
    var name := SafeAll(told);
    assert |name| == |told| && |"attachment-"| == 11;
    if name == "." { assert name[0] == Safe(told[0]) && told == [told[0]]; }
    if name == ".." { assert name[0] == Safe(told[0]) && name[1] == Safe(told[1]) && told == [told[0], told[1]]; }
    if told == "." || told == ".." { assert name == told; }
  }

  // ---------------------------------------------------------------- content

  /** The declared encoding, in any case and between white space, says how a part's bytes are read. */
  lemma DecodedIs(p: Part, before: string, word: string, after: string)
    requires p.header.encoding == before + word + after
    requires forall c | c in before + after :: c in {' ', '\t', '\n', '\U{0B}', '\U{0C}', '\r'}
    requires LowerAll(word) in {"base64", "quoted-printable", "", "7bit", "8bit", "binary"}
    ensures KnownEncoding(EncodingOf(p.header))
    ensures DecodedOf(p) == if LowerAll(word) == "base64" then p.content.base64
                            else if LowerAll(word) == "quoted-printable" then p.content.quoted
                            else p.content.plain
  {
    forall c | c in before + after ensures IsSpace(c) { IsSpaceIs(c); }
    assert Blank(before) by { forall c | c in before ensures c in before + after { } }
    assert Blank(after) by { forall c | c in after ensures c in before + after { } }
    assert forall i | 0 <= i < |word| :: LowerAll(word)[i] == Lower(word[i]);
    TrimSpaceIs(before, word, after);
  }

  /** No other encoding is known. */
  lemma OtherEncodings(p: Part)
    requires KnownEncoding(EncodingOf(p.header))
    ensures exists before: string, word: string, after: string ::
              && p.header.encoding == before + word + after
              && (forall c | c in before + after :: c in {' ', '\t', '\n', '\U{0B}', '\U{0C}', '\r'})
              && LowerAll(word) in {"base64", "quoted-printable", "", "7bit", "8bit", "binary"}
  {
    var before, after := TrimParts(p.header.encoding);
    forall c | c in before + after ensures c in {' ', '\t', '\n', '\U{0B}', '\U{0C}', '\r'} { IsSpaceIs(c); }
    assert p.header.encoding == before + TrimSpace(p.header.encoding) + after;
  }

  // ---------------------------------------------------------------- the whole tree, in preorder

  /** Every node with its depth. Below the depth limit nothing is looked at. */
  function Nodes(p: Part, depth: nat): seq<Node>
    decreases p, |p.children| + 1
  {
    [Node(p, depth)] + (if IsMultipart(p.header) && depth <= MAX_DEPTH then Below(p, |p.children|, depth) else [])
  }

  /** The nodes below the first `n` children. */
  function Below(p: Part, n: nat, depth: nat): seq<Node>
    requires n <= |p.children|
    decreases p, n
  {
    if n == 0 then [] else Below(p, n - 1, depth) + Nodes(p.children[n - 1], depth + 1)
  }

  /** Something at this node keeps the listing from being complete. */
  predicate Spoils(n: Node) {
    || n.depth > MAX_DEPTH
    || (IsMultipart(n.part.header) && !n.part.clean)
    || (IsAttachment(n.part.header) && !(KnownEncoding(EncodingOf(n.part.header)) && Fits(DecodedOf(n.part))))
  }

  predicate Listed(n: Node) {
    n.depth <= MAX_DEPTH && IsAttachment(n.part.header) && KnownEncoding(EncodingOf(n.part.header)) &&
      Fits(DecodedOf(n.part))
  }

  /** An attachment is a leaf that says so or has a name, 32 levels down at most, and decodes within 25 MiB. */
  lemma ListedIs(n: Node)
    ensures var h, d := n.part.header, DecodedOf(n.part);
            var attached := !("multipart/" <= h.contentType) &&
                            (h.disposition == "attachment" || h.fileName != "" || h.typeName != "");
            && (Listed(n) <==> n.depth <= 32 && attached && KnownEncoding(EncodingOf(h)) && d.ok &&
                               |d.bytes| <= 26214400)
            && (Spoils(n) <==> n.depth > 32 || ("multipart/" <= h.contentType && !n.part.clean) ||
                               (attached && !Listed(n)))
  {
  }

  function ItemOf(n: Node, position: nat, decode: string -> string): Item {
    var id := Decimal(position);
    Item(id, FileName(n.part.header, id, decode), |DecodedOf(n.part).bytes|)
  }

  /** The attachments among the first `n` nodes; an id is a 1-based preorder position. */
  function Attachments(nodes: seq<Node>, n: nat, decode: string -> string): seq<Item>
    requires n <= |nodes|
  {
    if n == 0 then []
    else Attachments(nodes, n - 1, decode) + (if Listed(nodes[n - 1]) then [ItemOf(nodes[n - 1], n, decode)] else [])
  }

  predicate Spoiled(nodes: seq<Node>, n: nat)
    requires n <= |nodes|
  {
    exists i | 0 <= i < n :: Spoils(nodes[i])
  }

  /** Where the attachments stand; positions grow. */
  function Positions(nodes: seq<Node>, n: nat): (at: seq<nat>)
    requires n <= |nodes|
    ensures forall k | 0 <= k < |at| :: 1 <= at[k] <= n && Listed(nodes[at[k] - 1])
    ensures forall j, k | 0 <= j < k < |at| :: at[j] < at[k]
  {
    if n == 0 then [] else Positions(nodes, n - 1) + (if Listed(nodes[n - 1]) then [n] else [])
  }

  /** Every attachment has a position, and no other node does. */
  lemma {:induction false} PositionsAreAll(nodes: seq<Node>, n: nat, i: nat)
    requires i < n <= |nodes|
    ensures Listed(nodes[i]) <==> i + 1 in Positions(nodes, n)
    decreases n
  {
    if i < n - 1 { PositionsAreAll(nodes, n - 1, i); }
  }

  lemma {:induction false} AsManyAsPositions(nodes: seq<Node>, n: nat, decode: string -> string)
    requires n <= |nodes|
    ensures |Attachments(nodes, n, decode)| == |Positions(nodes, n)|
    decreases n
  {
    if n > 0 { AsManyAsPositions(nodes, n - 1, decode); }
  }

  lemma {:induction false} AttachmentIsThere(nodes: seq<Node>, n: nat, decode: string -> string, k: nat)
    requires n <= |nodes| && k < |Positions(nodes, n)| == |Attachments(nodes, n, decode)|
    ensures var position := Positions(nodes, n)[k];
            Attachments(nodes, n, decode)[k] == ItemOf(nodes[position - 1], position, decode)
    decreases n
  {
    hide ItemOf, Listed;
    AsManyAsPositions(nodes, n - 1, decode);
    if k < |Positions(nodes, n - 1)| { AttachmentIsThere(nodes, n - 1, decode, k); }
  }

  /** The `k`-th item is the node at the `k`-th position, which is its id; and every attachment has a position. */
  lemma {:induction false} AttachmentsAreThere(nodes: seq<Node>, n: nat, decode: string -> string)
    requires n <= |nodes|
    ensures var items, at := Attachments(nodes, n, decode), Positions(nodes, n);
            && |items| == |at|
            && (forall k | 0 <= k < |at| :: items[k] == ItemOf(nodes[at[k] - 1], at[k], decode))
            && (forall i | 0 <= i < n && Listed(nodes[i]) :: ItemOf(nodes[i], i + 1, decode) in items)
  {
    hide ItemOf, Listed, Attachments, Positions;
    var items, at := Attachments(nodes, n, decode), Positions(nodes, n);
    AsManyAsPositions(nodes, n, decode);
    forall k | 0 <= k < |at| ensures items[k] == ItemOf(nodes[at[k] - 1], at[k], decode) {
      AttachmentIsThere(nodes, n, decode, k);
    }
    forall i | 0 <= i < n && Listed(nodes[i]) ensures ItemOf(nodes[i], i + 1, decode) in items {
      PositionsAreAll(nodes, n, i);
      var k :| 0 <= k < |at| && at[k] == i + 1;
      assert items[k] == ItemOf(nodes[i], i + 1, decode);
    }
  }

  /** Two items never share an id. */
  lemma IdsDiffer(nodes: seq<Node>, n: nat, decode: string -> string, j: nat, k: nat)
    requires n <= |nodes| && j < |Attachments(nodes, n, decode)| && k < |Attachments(nodes, n, decode)|
    requires Attachments(nodes, n, decode)[j].id == Attachments(nodes, n, decode)[k].id
    ensures j == k
  {
    hide Attachments, Positions, Decimal;
    AttachmentsAreThere(nodes, n, decode);
    var at := Positions(nodes, n);
    assert Attachments(nodes, n, decode)[j].id == Decimal(at[j]) &&
      Attachments(nodes, n, decode)[k].id == Decimal(at[k]);
    DecimalInjective(at[j], at[k]);
  }

  /** The nodes below some children come before those below more. */
  lemma {:induction false} BelowPrefix(p: Part, m: nat, n: nat, depth: nat)
    requires m <= n <= |p.children|
    ensures Below(p, m, depth) <= Below(p, n, depth)
    decreases n
  {
    if m < n { BelowPrefix(p, m, n - 1, depth); }
  }

  // ---------------------------------------------------------------- completeness

  /** The preorder with no depth limit at all. */
  function Everything(p: Part, depth: nat): seq<Node>
    decreases p, |p.children| + 1
  {
    [Node(p, depth)] + (if IsMultipart(p.header) then EverythingBelow(p, |p.children|, depth) else [])
  }

  function EverythingBelow(p: Part, n: nat, depth: nat): seq<Node>
    requires n <= |p.children|
    decreases p, n
  {
    if n == 0 then [] else EverythingBelow(p, n - 1, depth) + Everything(p.children[n - 1], depth + 1)
  }

  /** The root comes first, and with a multipart node every child of it is there, one level down. */
  lemma {:induction false} EveryChildIsThere(p: Part, depth: nat, n: Node, i: nat)
    requires n in Everything(p, depth) && "multipart/" <= n.part.header.contentType && i < |n.part.children|
    ensures Everything(p, depth)[0] == Node(p, depth)
    ensures Node(n.part.children[i], n.depth + 1) in Everything(p, depth)
    decreases p, |p.children| + 1
  {
    var all, child := Everything(p, depth), Node(n.part.children[i], n.depth + 1);
    if n == Node(p, depth) {
      ChildBelow(p, |p.children|, depth, i);
    } else {
      assert n in EverythingBelow(p, |p.children|, depth);
      ChildFurtherBelow(p, |p.children|, depth, n, i);
    }
    assert child in EverythingBelow(p, |p.children|, depth);
  }

  lemma {:induction false} ChildBelow(p: Part, n: nat, depth: nat, i: nat)
    requires i < n <= |p.children|
    ensures Node(p.children[i], depth + 1) in EverythingBelow(p, n, depth)
    decreases n
  {
    if i == n - 1 {
      assert Everything(p.children[i], depth + 1)[0] == Node(p.children[i], depth + 1);
    } else {
      ChildBelow(p, n - 1, depth, i);
    }
  }

  lemma {:induction false} ChildFurtherBelow(p: Part, k: nat, depth: nat, n: Node, i: nat)
    requires k <= |p.children| && n in EverythingBelow(p, k, depth)
    requires "multipart/" <= n.part.header.contentType && i < |n.part.children|
    ensures Node(n.part.children[i], n.depth + 1) in EverythingBelow(p, k, depth)
    decreases p, k
  {
    if n in EverythingBelow(p, k - 1, depth) {
      ChildFurtherBelow(p, k - 1, depth, n, i);
    } else {
      EveryChildIsThere(p.children[k - 1], depth + 1, n, i);
    }
  }

  predicate Shallow(nodes: seq<Node>) { forall n | n in nodes :: n.depth <= MAX_DEPTH }

  lemma {:induction false} ShallowIsEverything(p: Part, depth: nat)
    requires Shallow(Nodes(p, depth))
    ensures Nodes(p, depth) == Everything(p, depth)
    decreases p, |p.children| + 1
  {
    assert Nodes(p, depth)[0] in Nodes(p, depth);
    if IsMultipart(p.header) {
      assert forall n | n in Below(p, |p.children|, depth) :: n in Nodes(p, depth);
      ShallowBelow(p, |p.children|, depth);
    }
  }

  lemma {:induction false} ShallowBelow(p: Part, n: nat, depth: nat)
    requires n <= |p.children| && Shallow(Below(p, n, depth))
    ensures Below(p, n, depth) == EverythingBelow(p, n, depth)
    decreases p, n
  {
    if n > 0 {
      assert forall m | m in Below(p, n - 1, depth) || m in Nodes(p.children[n - 1], depth + 1) ::
        m in Below(p, n, depth);
      ShallowBelow(p, n - 1, depth);
      ShallowIsEverything(p.children[n - 1], depth + 1);
    }
  }

  /** Unspoiled, a listing has every attachment of the whole tree. */
  lemma UnspoiledIsComplete(root: Part)
    requires !Spoiled(Nodes(root, 0), |Nodes(root, 0)|)
    ensures Nodes(root, 0) == Everything(root, 0)
    ensures forall n | n in Everything(root, 0) && IsAttachment(n.part.header) :: Listed(n)
  {
    var nodes := Nodes(root, 0);
    forall n | n in nodes ensures !Spoils(n) {
      var i :| 0 <= i < |nodes| && nodes[i] == n;
    }
    ShallowIsEverything(root, 0);
  }
}
