/**
 The scanner: one recursive walk that counts parts, collects items, keeps the one download asked for, and stops at its
 limits. It refines the pure preorder of `MimeTrees`.
 */
module AttachmentScanner {
  import opened MimeTrees
  import opened Text
  import opened Wrappers

  /** What the walk changes, but for the download. */
  datatype Progress = Progress(parts: nat, items: seq<Item>, incomplete: bool)

  /** The walk meets one more node. */
  function Met(s: Progress, n: Node, decode: string -> string): Progress {
    var position := s.parts + 1;
    if position > MAX_PARTS then Progress(position, s.items, true)
    else
      var items := if Listed(n) then s.items + [ItemOf(n, position, decode)] else s.items;
      Progress(position, items, s.incomplete || Spoils(n))
  }

  /** Nodes are met in order until the count is over its limit. */
  function MetAll(s: Progress, nodes: seq<Node>, decode: string -> string): Progress
    decreases |nodes|
  {
    if nodes == [] then s
    else
      var before := MetAll(s, nodes[..|nodes| - 1], decode);
      if before.parts > MAX_PARTS then before else Met(before, nodes[|nodes| - 1], decode)
  }

  function Flagged(s: Progress, more: bool): Progress { s.(incomplete := s.incomplete || more) }

  lemma {:induction false} MetConcat(s: Progress, a: seq<Node>, b: seq<Node>, decode: string -> string)
    ensures MetAll(s, a + b, decode) == MetAll(MetAll(s, a, decode), b, decode)
    decreases |b|
  {
    if b == [] {
      assert a + b == a;
    } else {
      MetConcat(s, a, b[..|b| - 1], decode);
      assert (a + b)[..|a + b| - 1] == a + b[..|b| - 1];
    }
  }

  lemma MetOne(s: Progress, n: Node, decode: string -> string)
    ensures MetAll(s, [n], decode) == if s.parts > MAX_PARTS then s else Met(s, n, decode)
  {
    assert [n][..0] == [];
  }

  lemma {:induction false} MetStops(s: Progress, nodes: seq<Node>, decode: string -> string)
    requires s.parts > MAX_PARTS
    ensures MetAll(s, nodes, decode) == s
    decreases |nodes|
  {
    if nodes != [] { MetStops(s, nodes[..|nodes| - 1], decode); }
  }

  lemma {:induction false} MetFlagged(s: Progress, nodes: seq<Node>, more: bool, decode: string -> string)
    ensures MetAll(Flagged(s, more), nodes, decode) == Flagged(MetAll(s, nodes, decode), more)
    decreases |nodes|
  {
    if nodes != [] { MetFlagged(s, nodes[..|nodes| - 1], more, decode); }
  }

  /** Over the limit means incomplete. */
  ghost predicate Sound(s: Progress) { s.parts > MAX_PARTS ==> s.incomplete }

  lemma {:induction false} MetSound(s: Progress, nodes: seq<Node>, decode: string -> string)
    requires Sound(s)
    ensures Sound(MetAll(s, nodes, decode))
    decreases |nodes|
  {
    if nodes != [] { MetSound(s, nodes[..|nodes| - 1], decode); }
  }

  lemma {:induction false} MetParts(s: Progress, nodes: seq<Node>, decode: string -> string)
    requires s.parts <= MAX_PARTS
    ensures MetAll(s, nodes, decode).parts ==
            if s.parts + |nodes| <= MAX_PARTS then s.parts + |nodes| else MAX_PARTS + 1
    decreases |nodes|
  {
    if nodes != [] { MetParts(s, nodes[..|nodes| - 1], decode); }
  }

  function Capped(n: nat): nat { if n <= MAX_PARTS then n else MAX_PARTS }

  /**
   From nothing: the attachments of the first nodes up to the limit, complete if no node is left and none spoils it.
   */
  lemma {:induction false} MetFromStart(nodes: seq<Node>, decode: string -> string)
    ensures var r := MetAll(Progress(0, [], false), nodes, decode);
            && r.parts == (if |nodes| <= MAX_PARTS then |nodes| else MAX_PARTS + 1)
            && r.items == Attachments(nodes, Capped(|nodes|), decode)
            && (r.incomplete <==> |nodes| > MAX_PARTS || Spoiled(nodes, Capped(|nodes|)))
    decreases |nodes|
  {
    MetParts(Progress(0, [], false), nodes, decode);
    if nodes != [] {
      var front := nodes[..|nodes| - 1];
      MetFromStart(front, decode);
      AttachmentsPrefix(front, nodes, Capped(|front|), decode);
      SpoiledNext(nodes);
    }
  }

  lemma SpoiledNext(nodes: seq<Node>)
    requires nodes != []
    ensures var front, n := nodes[..|nodes| - 1], |nodes| - 1;
            && Spoiled(nodes, Capped(|nodes|)) ==
               (Spoiled(front, Capped(n)) || (n < MAX_PARTS && Spoils(nodes[n])))
  {
    var front, n := nodes[..|nodes| - 1], |nodes| - 1;
    assert forall i | 0 <= i < n :: front[i] == nodes[i];
    if n < MAX_PARTS && Spoils(nodes[n]) { assert 0 <= n < Capped(|nodes|); }
  }

  lemma {:induction false} AttachmentsPrefix(a: seq<Node>, b: seq<Node>, n: nat, decode: string -> string)
    requires a <= b && n <= |a|
    ensures Attachments(a, n, decode) == Attachments(b, n, decode)
    decreases n
  {
    if n > 0 { AttachmentsPrefix(a, b, n - 1, decode); }
  }

  // ---------------------------------------------------------------- the walk

  class Scanner {
    var parts: nat
    var items: seq<Item>
    var data: Option<string>
    var incomplete: bool
    const selected: string
    const decode: string -> string

    constructor (selected: string, decode: string -> string)
      ensures this.selected == selected && this.decode == decode && data == None
      ensures Model() == Progress(0, [], false)
    {
      parts, items, data, incomplete := 0, [], None, false;
      this.selected, this.decode := selected, decode;
    }

    function Model(): Progress
      reads this
    {
      Progress(parts, items, incomplete)
    }

    /** The node met after `k` others has the selected id. */
    predicate Chosen(k: nat) { k < MAX_PARTS && Decimal(k + 1) == selected }

    /** A walk over `nodes` from count `start`: the selected attachment's bytes are kept, and no other node's. */
    ghost predicate Downloads(nodes: seq<Node>, start: nat, before: Option<string>, now: Option<string>) {
      && (forall k | start <= k < start + |nodes| && Chosen(k) && Listed(nodes[k - start]) ::
            now == Some(DecodedOf(nodes[k - start].part).bytes))
      && ((forall k | start <= k < start + |nodes| :: !Chosen(k)) ==> now == before)
    }

    lemma DownloadsThen(a: seq<Node>, b: seq<Node>, start: nat, before: Option<string>, mid: Option<string>,
          now: Option<string>)
      requires Downloads(a, start, before, mid) && Downloads(b, start + |a|, mid, now)
      ensures Downloads(a + b, start, before, now)
    {
      var all := a + b;
      forall k | start <= k < start + |all| && Chosen(k) && Listed(all[k - start])
        ensures now == Some(DecodedOf(all[k - start].part).bytes)
      {
        if k < start + |a| {
          forall o | start + |a| <= o < start + |all| ensures !Chosen(o) {
            if Chosen(o) { DecimalInjective(o + 1, k + 1); }
          }
        }
      }
    }

    /** One leaf: read at most one byte over the limit, keep the bytes only if they are asked for. */
    method Leaf(p: Part, depth: nat)
      requires parts <= MAX_PARTS && parts > 0 && depth <= MAX_DEPTH && !IsMultipart(p.header)
      modifies this`items, this`data, this`incomplete
      ensures Model() == Met(Progress(parts - 1, old(items), old(incomplete)), Node(p, depth), decode)
      ensures Downloads([Node(p, depth)], parts - 1, old(data), data)
    {
      assert Chosen(parts - 1) <==> Decimal(parts) == selected;
      var id := Decimal(parts);
      var raw := if p.header.fileName != "" then p.header.fileName else p.header.typeName;
      if p.header.disposition != "attachment" && raw == "" {
        return;
      }
      var encoding := LowerAll(TrimSpace(p.header.encoding));
      if encoding !in {"base64", "quoted-printable", "", "7bit", "8bit", "binary"} {
        incomplete := true;
        return;
      }
      var d := DecodedOf(p);
      var limit := MAX_MESSAGE_BYTES + 1;
      var size := if |d.bytes| < limit then |d.bytes| else limit;
      var failed := !d.ok && |d.bytes| < limit;
      if id == selected {
        data := Some(d.bytes[..size]);
      }
      if failed || size > MAX_MESSAGE_BYTES {
        incomplete := true;
        return;
      }
      assert d.bytes[..|d.bytes|] == d.bytes;
      items := items + [Item(id, FileName(p.header, id, decode), size)];
    }

    method Walk(p: Part, depth: nat)
      requires parts <= MAX_PARTS
      modifies this
      ensures Model() == MetAll(old(Model()), Nodes(p, depth), decode)
      ensures Downloads(Nodes(p, depth), old(parts), old(data), data)
      decreases p, |p.children| + 1, 1
    {
      ghost var s := Model();
      parts := parts + 1;
      if parts > MAX_PARTS || depth > MAX_DEPTH {
        incomplete := true;
        CutShort(p, depth, s);
        return;
      }
      if IsMultipart(p.header) {
        Multipart(p, depth, s);
        return;
      }
      MetOne(s, Node(p, depth), decode);
      Leaf(p, depth);
    }

    /** Over a limit, the node is only counted. */
    lemma CutShort(p: Part, depth: nat, s: Progress)
      requires s.parts <= MAX_PARTS && (s.parts == MAX_PARTS || depth > MAX_DEPTH)
      ensures MetAll(s, Nodes(p, depth), decode) == Progress(s.parts + 1, s.items, true)
      ensures Downloads(Nodes(p, depth), s.parts, data, data)
    {
      var first, rest := [Node(p, depth)], Nodes(p, depth)[1..];
      assert Nodes(p, depth) == first + rest && (depth > MAX_DEPTH ==> rest == []);
      MetOne(s, Node(p, depth), decode);
      MetConcat(s, first, rest, decode);
      if s.parts == MAX_PARTS { MetStops(MetAll(s, first, decode), rest, decode); }
    }

    method Multipart(p: Part, depth: nat, ghost s: Progress)
      requires Model() == s.(parts := s.parts + 1) && parts <= MAX_PARTS && IsMultipart(p.header) && depth <= MAX_DEPTH
      modifies this
      ensures Model() == MetAll(s, Nodes(p, depth), decode)
      ensures Downloads(Nodes(p, depth), s.parts, old(data), data)
      decreases p, |p.children| + 1, 0
    {
      hide MetAll, Downloads, Below, Nodes;
      ghost var before := data;
      Children(p, depth);
      MultipartHead(p, depth, s, before, data);
    }

    lemma DownloadsNone(p: Part, depth: nat, start: nat, before: Option<string>)
      requires IsMultipart(p.header)
      ensures Downloads([Node(p, depth)], start, before, before)
    {
    }

    /** A multipart node is no attachment itself; what it has is below it. */
    lemma MultipartHead(p: Part, depth: nat, s: Progress, before: Option<string>, now: Option<string>)
      requires s.parts < MAX_PARTS && IsMultipart(p.header) && depth <= MAX_DEPTH
      ensures var met := Flagged(s.(parts := s.parts + 1), !p.clean);
              MetAll(s, Nodes(p, depth), decode) == MetAll(met, Below(p, |p.children|, depth), decode)
      ensures Downloads(Below(p, |p.children|, depth), s.parts + 1, before, now) ==>
                Downloads(Nodes(p, depth), s.parts, before, now)
    {
      hide MetAll, Downloads, Below;
      var first, below := [Node(p, depth)], Below(p, |p.children|, depth);
      assert Nodes(p, depth) == first + below;
      MetOne(s, Node(p, depth), decode);
      MetConcat(s, first, below, decode);
      DownloadsNone(p, depth, s.parts, before);
      if Downloads(below, s.parts + 1, before, now) { DownloadsThen(first, below, s.parts, before, before, now); }
    }

    /** The parts a multipart reader yields, until it ends, fails, or the count is over its limit. */
    method Children(p: Part, depth: nat)
      requires 0 < parts <= MAX_PARTS && IsMultipart(p.header) && depth <= MAX_DEPTH
      modifies this
      ensures Model() == MetAll(Flagged(old(Model()), !p.clean), Below(p, |p.children|, depth), decode)
      ensures Downloads(Below(p, |p.children|, depth), old(parts), old(data), data)
      decreases p, |p.children|, 1
    {
      ghost var s, before := Model(), data;
      var i := 0;
      while parts <= MAX_PARTS
        invariant i <= |p.children| && WalkedTo(p, i, depth, s, before)
        decreases |p.children| - i
      {
        if i == |p.children| {
          EndOfParts(p, depth, s);
          return;
        }
        Child(p, i, depth, s, before);
        i := i + 1;
      }
      OverLimit(p, i, depth, s, before);
    }

    /** The walk is through the first `i` children. */
    ghost predicate WalkedTo(p: Part, i: nat, depth: nat, s: Progress, before: Option<string>)
      requires i <= |p.children|
      reads this
    {
      Model() == MetAll(s, Below(p, i, depth), decode) && Downloads(Below(p, i, depth), s.parts, before, data)
    }

    /** The reader ended: at the closing boundary, or with an error. */
    method EndOfParts(p: Part, depth: nat, ghost s: Progress)
      requires Model() == MetAll(s, Below(p, |p.children|, depth), decode)
      modifies this`incomplete
      ensures Model() == MetAll(Flagged(s, !p.clean), Below(p, |p.children|, depth), decode)
    {
      MetFlagged(s, Below(p, |p.children|, depth), !p.clean, decode);
      if !p.clean {
        incomplete := true;
      }
    }

    method Child(p: Part, i: nat, depth: nat, ghost s: Progress, ghost before: Option<string>)
      requires i < |p.children| && parts <= MAX_PARTS && s.parts <= MAX_PARTS && WalkedTo(p, i, depth, s, before)
      modifies this
      ensures WalkedTo(p, i + 1, depth, s, before)
      decreases p, |p.children|, 0
    {
      hide MetAll, Downloads, Below, Nodes;
      ghost var mid := data;
      MetParts(s, Below(p, i, depth), decode);
      Walk(p.children[i], depth + 1);
      NextChild(p, i, depth, s, before, mid, data);
    }

    lemma NextChild(p: Part, i: nat, depth: nat, s: Progress, before: Option<string>, mid: Option<string>,
          now: Option<string>)
      requires i < |p.children|
      requires var some, next := Below(p, i, depth), Nodes(p.children[i], depth + 1);
               Downloads(some, s.parts, before, mid) && Downloads(next, s.parts + |some|, mid, now)
      ensures var some, next := Below(p, i, depth), Nodes(p.children[i], depth + 1);
              MetAll(s, Below(p, i + 1, depth), decode) == MetAll(MetAll(s, some, decode), next, decode)
      ensures Downloads(Below(p, i + 1, depth), s.parts, before, now)
    {
      hide Nodes;
      var some, next := Below(p, i, depth), Nodes(p.children[i], depth + 1);
      assert Below(p, i + 1, depth) == some + next;
      MetConcat(s, some, next, decode);
      DownloadsThen(some, next, s.parts, before, mid, now);
    }

    /** Once the count is over the limit the rest changes nothing, and the result is incomplete anyway. */
    lemma OverLimit(p: Part, i: nat, depth: nat, s: Progress, before: Option<string>)
      requires i <= |p.children| && s.parts <= MAX_PARTS && MAX_PARTS < parts && WalkedTo(p, i, depth, s, before)
      ensures Model() == MetAll(Flagged(s, !p.clean), Below(p, |p.children|, depth), decode)
      ensures Downloads(Below(p, |p.children|, depth), s.parts, before, data)
    {
      var some, all := Below(p, i, depth), Below(p, |p.children|, depth);
      BelowPrefix(p, i, |p.children|, depth);
      assert all == some + all[|some|..];
      MetParts(s, some, decode);
      MetSound(s, some, decode);
      MetConcat(s, some, all[|some|..], decode);
      MetStops(Model(), all[|some|..], decode);
      MetFlagged(s, all, !p.clean, decode);
    }
  }

  // ---------------------------------------------------------------- the two calls

  /** A message whose headers do not parse at all has no tree. */
  method ScanAttachments(root: Option<Part>, selected: string, decode: string -> string)
    returns (items: seq<Item>, data: Option<string>, incomplete: bool)
    ensures root.None? ==> items == [] && data == None && incomplete
    ensures root.Some? ==>
              var nodes := Nodes(root.value, 0);
              && items == Attachments(nodes, Capped(|nodes|), decode)
              && (|nodes| <= 256 ==> items == Attachments(nodes, |nodes|, decode))
              && (|nodes| > 256 ==> items == Attachments(nodes, 256, decode))
              && (incomplete <==> |nodes| > 256 || Spoiled(nodes, Capped(|nodes|)))
              && (forall i | 0 <= i < Capped(|nodes|) && Listed(nodes[i]) && Decimal(i + 1) == selected ::
                    data == Some(DecodedOf(nodes[i].part).bytes))
    ensures root.Some? && !incomplete ==>
              var all := Everything(root.value, 0);
              && items == Attachments(all, |all|, decode)
              && forall n | n in all && IsAttachment(n.part.header) :: Listed(n)
  {
    if root.None? {
      return [], None, true;
    }
    var scanner := new Scanner(selected, decode);
    scanner.Walk(root.value, 0);
    MetFromStart(Nodes(root.value, 0), decode);
    items, data, incomplete := scanner.items, scanner.data, scanner.incomplete;
    ghost var nodes := Nodes(root.value, 0);
    if !incomplete { UnspoiledIsComplete(root.value); }
    forall i | 0 <= i < Capped(|nodes|) && Listed(nodes[i]) && Decimal(i + 1) == selected
      ensures data == Some(DecodedOf(nodes[i].part).bytes)
    {
      assert scanner.Chosen(i) && nodes[i - 0] == nodes[i];
    }
  }

  /** The attachment with an id: a listed id always downloads, with as many bytes as its size says. */
  method Attachment(root: Option<Part>, id: string, decode: string -> string) returns (r: Option<(Item, string)>)
    ensures root.None? ==> r.None?
    ensures root.Some? && r.Some? ==>
              && |r.value.1| == r.value.0.size
              && exists i | 0 <= i < Capped(|Nodes(root.value, 0)|) ::
                   IsDownload(Nodes(root.value, 0)[i], i, id, decode, r.value)
    ensures root.Some? && r.None? ==>
              forall item | item in Attachments(Nodes(root.value, 0), Capped(|Nodes(root.value, 0)|), decode) ::
                item.id != id
  {
    hide Attachments, Listed, Nodes, Decimal, FileName, DecodedOf;
    var items, data, _ := ScanAttachments(root, id, decode);
    for k := 0 to |items|
      invariant forall j | 0 <= j < k :: items[j].id != id
    {
      if items[k].id == id {
        ghost var nodes := Nodes(root.value, 0);
        AsManyAsPositions(nodes, Capped(|nodes|), decode);
        AttachmentIsThere(nodes, Capped(|nodes|), decode, k);
        ghost var i := Positions(nodes, Capped(|nodes|))[k] - 1;
        assert Decimal(i + 1) == id && data == Some(DecodedOf(nodes[i].part).bytes);
        assert IsDownload(nodes[i], i, id, decode, (items[k], data.value));
        return Some((items[k], data.value));
      }
    }
    r := None;
  }

  predicate IsDownload(n: Node, i: nat, id: string, decode: string -> string, got: (Item, string)) {
    Listed(n) && Decimal(i + 1) == id && got == (ItemOf(n, i + 1, decode), DecodedOf(n.part).bytes)
  }
}
