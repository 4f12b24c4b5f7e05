/** The RFC 5424 rewriter of internal/syslog/rfc5424.go. */
module Rfc5424 {
  import opened ByteStrings

  const TENANT_PREFIX: Bytes := "[tenant@"

  /** The pieces the rewriter cuts a message into: PRI with its angle brackets, the six
      header fields VERSION to MSGID, the structured-data blocks, and MSG. */
  datatype Message = Message(pri: Bytes, header: seq<Bytes>, blocks: seq<Bytes>, msg: Bytes)

  /** `strings.SplitN(s, " ", n)` for positive `n`. */
  function SplitN(s: Bytes, n: nat): (parts: seq<Bytes>)
    requires n >= 1
    ensures 1 <= |parts| <= n
  {
    var sp := IndexByte(s, ' ');
    if n == 1 || sp == -1 then [s] else [s[..sp]] + SplitN(s[sp + 1..], n - 1)
  }

  /** Fields joined by single spaces. */
  function Join(fields: seq<Bytes>): Bytes
  {
    if fields == [] then [] else if |fields| == 1 then fields[0]
    else Join(fields[..|fields| - 1]) + " " + fields[|fields| - 1]
  }

  function Concat(blocks: seq<Bytes>): Bytes
  {
    if blocks == [] then [] else blocks[0] + Concat(blocks[1..])
  }

  predicate IsTenantBlock(block: Bytes) { HasPrefix(block, TENANT_PREFIX) }

  function WithoutTenantBlocks(blocks: seq<Bytes>): (r: seq<Bytes>)
    ensures forall b :: b in r ==> b in blocks && !IsTenantBlock(b)
  {
    if blocks == [] then []
    else (if IsTenantBlock(blocks[0]) then [] else [blocks[0]]) + WithoutTenantBlocks(blocks[1..])
  }

  function TenantBlock(id: int): Bytes
  {
    "[tenant@" + Itoa(id) + (" tenant-id=\"" + Itoa(id) + "\"") + "]"
  }

  function MsgPrefix(id: int, name: Bytes): Bytes
  {
    "[" + Itoa(id) + "][" + name + "] "
  }

  /** The block loop of `parseSDAndMsg`. */
  function ParseBlocks(s: Bytes): (seq<Bytes>, Bytes)
  {
    if s == [] then ([], [])
    else if s[0] == '[' then
      var end := IndexByte(s, ']');
      if end == -1 then ([], s)
      else
        var (more, msg) := ParseBlocks(s[end + 1..]);
        ([s[..end + 1]] + more, msg)
    else if s[0] == ' ' then ([], TrimLeft(s))
    else ([], s)
  }

  /** `parseSDAndMsg`. */
  function ParseSD(section: Bytes): (seq<Bytes>, Bytes)
  {
    if section == "-" then ([], [])
    else if HasPrefix(section, "- ") then ([], TrimLeft(section[2..]))
    else ParseBlocks(section)
  }

  /** How the rewriter cuts a raw message; `None` when it returns the message unchanged. */
  function Parse(raw: Bytes): Option<Message>
  {
    if raw == [] || raw[0] != '<' || '>' !in raw then None
    else
      var priEnd := IndexByte(raw, '>');
      var parts := SplitN(TrimLeft(raw[priEnd + 1..]), 7);
      if |parts| < 7 then None
      else
        var (blocks, msg) := ParseSD(parts[6]);
        Some(Message(raw[..priEnd + 1], parts[..6], blocks, msg))
  }

  function MsgTail(msg: Bytes): Bytes { if msg == [] then [] else " " + msg }

  function Print(m: Message): Bytes
  {
    m.pri + Join(m.header) + " " + (if m.blocks == [] then "-" else Concat(m.blocks)) + MsgTail(m.msg)
  }

  /** What stamping does to the pieces. */
  function Stamped(m: Message, id: int, name: Bytes): Message
  {
    m.(blocks := WithoutTenantBlocks(m.blocks) + [TenantBlock(id)],
       msg := if m.msg == [] then [] else MsgPrefix(id, name) + m.msg)
  }

  function Stamp(raw: Bytes, id: int, name: Bytes): Bytes
  {
    match Parse(raw)
    case None => raw
    case Some(m) => Print(Stamped(m, id, name))
  }

  // ----- the block scan, one step at a time -----

  /** The text starts with something the scan takes for a block. */
  predicate StartsBlock(s: Bytes) { s != [] && s[0] == '[' && IndexByte(s, ']') != -1 }

  lemma ParseBlocksCut(s: Bytes)
    requires StartsBlock(s)
    ensures var end := IndexByte(s, ']');
            ParseBlocks(s) == ([s[..end + 1]] + ParseBlocks(s[end + 1..]).0, ParseBlocks(s[end + 1..]).1)
  {
    hide IndexByte, TrimLeft;
  }

  lemma ParseBlocksEnd(s: Bytes)
    requires !StartsBlock(s)
    ensures ParseBlocks(s) == ([], if s != [] && s[0] == ' ' then TrimLeft(s) else s)
  {
    hide IndexByte, TrimLeft;
  }

  /** A cut moves the front block from the rest to the blocks found so far. */
  lemma MoveBlock(found: seq<Bytes>, block: Bytes, more: seq<Bytes>)
    ensures found + ([block] + more) == found + [block] + more
  {
  }

  // ----- the imperative code -----

  method ParseSDAndMsg(section: Bytes) returns (sdBlocks: seq<Bytes>, msg: Bytes)
    ensures (sdBlocks, msg) == ParseSD(section)
  {
    hide IndexByte, TrimLeft, ParseBlocks;
    sdBlocks, msg := [], [];
    if section == "-" {
      return;
    }
    if HasPrefix(section, "- ") {
      msg := TrimLeft(section[2..]);
      return;
    }
    sdBlocks, msg := ScanBlocks(section);
  }

  /** The loop of `parseSDAndMsg`. */
  method ScanBlocks(section: Bytes) returns (sdBlocks: seq<Bytes>, msg: Bytes)
    ensures (sdBlocks, msg) == ParseBlocks(section)
  {
    hide IndexByte, TrimLeft, ParseBlocks;
    sdBlocks := [];
    var i := 0;
    assert section[0..] == section && [] + ParseBlocks(section).0 == ParseBlocks(section).0;
    while i < |section|
      invariant 0 <= i <= |section|
      invariant ParseBlocks(section).0 == sdBlocks + ParseBlocks(section[i..]).0
      invariant ParseBlocks(section).1 == ParseBlocks(section[i..]).1
    {
      var rest := section[i..];
      if section[i] == '[' {
        var end := IndexByte(rest, ']');
        if end == -1 {
          ParseBlocksEnd(rest);
          assert sdBlocks + [] == sdBlocks;
          return sdBlocks, rest;
        }
        ParseBlocksCut(rest);
        MoveBlock(sdBlocks, rest[..end + 1], ParseBlocks(rest[end + 1..]).0);
        assert rest[end + 1..] == section[i + end + 1..];
        sdBlocks := sdBlocks + [rest[..end + 1]];
        i := i + end + 1;
      } else {
        ParseBlocksEnd(rest);
        assert sdBlocks + [] == sdBlocks;
        return sdBlocks, if section[i] == ' ' then TrimLeft(rest) else rest;
      }
    }
    assert section[i..] == [];
    ParseBlocksEnd([]);
    assert sdBlocks + [] == sdBlocks;
    msg := [];
  }

  lemma FilterStep(blocks: seq<Bytes>, j: nat, found: seq<Bytes>)
    requires j < |blocks|
    ensures var next := if IsTenantBlock(blocks[j]) then found else found + [blocks[j]];
            found + WithoutTenantBlocks(blocks[j..]) == next + WithoutTenantBlocks(blocks[j + 1..])
  {
    hide IsTenantBlock;
    assert blocks[j..][1..] == blocks[j + 1..];
    MoveBlock(found, blocks[j], WithoutTenantBlocks(blocks[j + 1..]));
  }

  lemma FilterEnds(blocks: seq<Bytes>, found: seq<Bytes>)
    ensures found + WithoutTenantBlocks(blocks[|blocks|..]) == found
    ensures [] + WithoutTenantBlocks(blocks[0..]) == WithoutTenantBlocks(blocks)
  {
    assert blocks[|blocks|..] == [] && blocks[0..] == blocks;
  }

  method FilterBlocks(sdBlocks: seq<Bytes>) returns (filtered: seq<Bytes>)
    ensures filtered == WithoutTenantBlocks(sdBlocks)
  {
    hide IsTenantBlock, WithoutTenantBlocks;
    filtered := [];
    FilterEnds(sdBlocks, []);
    for j := 0 to |sdBlocks|
      invariant WithoutTenantBlocks(sdBlocks) == filtered + WithoutTenantBlocks(sdBlocks[j..])
    {
      FilterStep(sdBlocks, j, filtered);
      if !IsTenantBlock(sdBlocks[j]) {
        filtered := filtered + [sdBlocks[j]];
      }
    }
    FilterEnds(sdBlocks, filtered);
  }

  method WriteHeader(header: seq<Bytes>) returns (out: Bytes)
    requires header != []
    ensures out == Join(header)
  {
    out := header[0];
    for j := 1 to |header|
      invariant out == Join(header[..j])
    {
      assert header[..j + 1][..j] == header[..j];
      out := out + " " + header[j];
    }
    assert header[..|header|] == header;
  }

  method StampSyslogMessage(raw: Bytes, id: int, name: Bytes) returns (out: Bytes)
    ensures out == Stamp(raw, id, name)
  {
    hide TenantBlock, MsgPrefix, Join, Concat, SplitN, ParseSD, WithoutTenantBlocks, IndexByte, TrimLeft;
    if |raw| == 0 || raw[0] != '<' {
      return raw;
    }
    IndexByteFirst(raw, '>');
    var priEnd := IndexByte(raw, '>');
    if priEnd == -1 {
      return raw;
    }
    var parts := SplitN(TrimLeft(raw[priEnd + 1..]), 7);
    if |parts| < 7 {
      return raw;
    }
    var sdBlocks, msg := ParseSDAndMsg(parts[6]);
    var filtered := FilterBlocks(sdBlocks);
    filtered := filtered + [TenantBlock(id)];
    var header := WriteHeader(parts[..6]);
    out := raw[..priEnd + 1] + header + " " + Concat(filtered);
    if msg != [] {
      out := out + (" " + (MsgPrefix(id, name) + msg));
    }
  }

  // ----- parsing what was printed -----

  /** A block as the scanner cuts it: from `[` to the first `]`. */
  predicate IsBlock(b: Bytes)
  {
    b != [] && b[0] == '[' && IndexByte(b, ']') == |b| - 1
  }

  predicate AreBlocks(blocks: seq<Bytes>) { forall i :: 0 <= i < |blocks| ==> IsBlock(blocks[i]) }

  predicate AreFields(fields: seq<Bytes>)
  {
    forall i :: 0 <= i < |fields| ==> IndexByte(fields[i], ' ') == -1
  }

  /** The shape of every result of `Parse`. */
  predicate Shaped(m: Message)
  {
    && m.pri != [] && m.pri[0] == '<' && IndexByte(m.pri, '>') == |m.pri| - 1
    && |m.header| == 6 && m.header[0] != [] && AreFields(m.header)
    && AreBlocks(m.blocks)
    && (m.msg == [] || m.msg[0] != ' ')
  }

  lemma ParseOneBlock(b: Bytes, rest: Bytes)
    requires IsBlock(b)
    ensures ParseBlocks(b + rest) == ([b] + ParseBlocks(rest).0, ParseBlocks(rest).1)
  {
    IndexByteStable(b, ']', rest);
    assert (b + rest)[..|b|] == b && (b + rest)[|b|..] == rest;
  }

  lemma {:induction false} ParseConcat(blocks: seq<Bytes>, tail: Bytes)
    requires AreBlocks(blocks)
    ensures ParseBlocks(Concat(blocks) + tail) == (blocks + ParseBlocks(tail).0, ParseBlocks(tail).1)
  {
    hide ParseBlocks;
    if blocks == [] {
      assert Concat(blocks) + tail == tail;
      assert blocks + ParseBlocks(tail).0 == ParseBlocks(tail).0;
    } else {
      var rest := Concat(blocks[1..]) + tail;
      assert Concat(blocks) + tail == blocks[0] + rest;
      ParseOneBlock(blocks[0], rest);
      ParseConcat(blocks[1..], tail);
      var more := ParseBlocks(tail).0;
      assert [blocks[0]] + (blocks[1..] + more) == blocks + more;
    }
  }

  lemma {:induction false} ParseBlocksShape(s: Bytes)
    ensures AreBlocks(ParseBlocks(s).0)
    ensures ParseBlocks(s).1 == [] || ParseBlocks(s).1[0] != ' '
    decreases |s|
  {
    hide ParseBlocks, TrimLeft;
    if StartsBlock(s) {
      ParseBlocksCut(s);
      ParseBlocksShape(s[IndexByte(s, ']') + 1..]);
      IndexByteStable(s, ']', []);
      hide IndexByte;
    } else {
      ParseBlocksEnd(s);
    }
  }

  lemma SplitHead(s: Bytes, n: nat)
    requires n > 1 && |SplitN(s, n)| == n
    ensures var sp := IndexByte(s, ' ');
            sp >= 0 && IndexByte(s[..sp], ' ') == -1 && SplitN(s, n) == [s[..sp]] + SplitN(s[sp + 1..], n - 1)
  {
    IndexByteStable(s, ' ', []);
  }

  lemma {:induction false} SplitFields(s: Bytes, n: nat)
    requires n >= 1 && |SplitN(s, n)| == n
    ensures AreFields(SplitN(s, n)[..n - 1])
    ensures n > 1 && s[0] != ' ' ==> SplitN(s, n)[0] != []
  {
    if n > 1 {
      SplitHead(s, n);
      hide IndexByte, SplitN;
      var sp := IndexByte(s, ' ');
      SplitFields(s[sp + 1..], n - 1);
      assert SplitN(s, n)[..n - 1] == [s[..sp]] + SplitN(s[sp + 1..], n - 1)[..n - 2];
    }
  }

  /** Cutting one field off the front. */
  lemma SplitOne(f: Bytes, rest: Bytes, n: nat)
    requires IndexByte(f, ' ') == -1 && n > 1
    ensures SplitN(f + " " + rest, n) == [f] + SplitN(rest, n - 1)
  {
    IndexByteFirst(f, ' ');
    FirstByteAt(f, ' ', rest);
  }

  lemma SplitRest(rest: Bytes)
    ensures SplitN(rest, 1) == [rest]
  {
  }

  /** Splitting undoes joining when no field holds a space. */
  lemma {:induction false} SplitJoin(fields: seq<Bytes>, rest: Bytes)
    requires fields != [] && AreFields(fields)
    ensures SplitN(Join(fields) + " " + rest, |fields| + 1) == fields + [rest]
    decreases |fields|
  {
    hide SplitN, IndexByte;
    if |fields| == 1 {
      SplitOne(fields[0], rest, 2);
      SplitRest(rest);
    } else {
      var tail := Join(fields[1..]) + " " + rest;
      JoinHead(fields);
      assert Join(fields) + " " + rest == fields[0] + " " + tail;
      SplitOne(fields[0], tail, |fields| + 1);
      SplitJoin(fields[1..], rest);
      assert [fields[0]] + (fields[1..] + [rest]) == fields + [rest];
    }
  }

  lemma {:induction false} JoinHead(fields: seq<Bytes>)
    requires |fields| >= 2
    ensures Join(fields) == fields[0] + " " + Join(fields[1..])
    decreases |fields|
  {
    var last := |fields| - 1;
    if |fields| == 2 {
      assert fields[..last] == [fields[0]] && fields[1..] == [fields[1]];
    } else {
      JoinHead(fields[..last]);
      assert fields[..last][1..] == fields[1..][..last - 1];
    }
  }

  lemma ParseSDShape(section: Bytes)
    ensures AreBlocks(ParseSD(section).0)
    ensures ParseSD(section).1 == [] || ParseSD(section).1[0] != ' '
  {
    ParseBlocksShape(section);
  }

  /** The parts that a successful parse splits the message into. */
  lemma ParseParts(raw: Bytes)
    requires Parse(raw).Some?
    ensures var m, s := Parse(raw).value, TrimLeft(raw[IndexByte(raw, '>') + 1..]);
            && IndexByte(raw, '>') >= 0 && m.pri == raw[..IndexByte(raw, '>') + 1] && raw[0] == '<'
            && |SplitN(s, 7)| == 7 && m.header == SplitN(s, 7)[..6]
            && (m.blocks, m.msg) == ParseSD(SplitN(s, 7)[6])
  {
    IndexByteFirst(raw, '>');
    hide IndexByte, TrimLeft, SplitN, ParseSD;
  }

  /** Every successful parse has the shape. */
  lemma ParseShape(raw: Bytes)
    requires Parse(raw).Some?
    ensures Shaped(Parse(raw).value)
  {
    ParseParts(raw);
    IndexByteStable(raw, '>', []);
    var s := TrimLeft(raw[IndexByte(raw, '>') + 1..]);
    hide Parse, SplitN, ParseSD, IsBlock, TrimLeft, AreFields;
    if s == [] {
      SplitNothing();
    } else {
      SplitFields(s, 7);
    }
    ParseSDShape(SplitN(s, 7)[6]);
  }

  lemma SplitNothing()
    ensures SplitN([], 7) == [[]]
  {
  }

  /** Parsing behind a PRI and any number of spaces. */
  lemma ParseBehind(pri: Bytes, gap: Bytes, rest: Bytes)
    requires pri != [] && pri[0] == '<' && IndexByte(pri, '>') == |pri| - 1 && Blank(gap)
    requires rest != [] && rest[0] != ' ' && |SplitN(rest, 7)| == 7
    ensures Parse(pri + (gap + rest)) == Some(Message(pri, SplitN(rest, 7)[..6], ParseSD(SplitN(rest, 7)[6]).0,
                                                      ParseSD(SplitN(rest, 7)[6]).1))
  {
    var raw := pri + (gap + rest);
    IndexByteStable(pri, '>', gap + rest);
    IndexByteFirst(raw, '>');
    TrimBlank(gap, rest);
    hide IndexByte, SplitN, ParseSD, TrimLeft, Blank;
    assert raw[..|pri|] == pri && raw[|pri|..] == gap + rest && raw[0] == pri[0];
  }

  /** Parsing a message whose pieces are laid out in order. */
  lemma ParsePieces(pri: Bytes, header: seq<Bytes>, section: Bytes)
    requires Shaped(Message(pri, header, [], []))
    ensures Parse(pri + Join(header) + " " + section) ==
            Some(Message(pri, header, ParseSD(section).0, ParseSD(section).1))
  {
    var rest := Join(header) + " " + section;
    assert rest != [] && rest[0] != ' ' by {
      JoinHead(header);
      IndexByteFirst(header[0], ' ');
    }
    SplitJoin(header, section);
    hide SplitN, ParseSD, Parse, Join, AreFields;
    assert pri + Join(header) + " " + section == pri + ([] + rest);
    ParseBehind(pri, [], rest);
    assert (header + [section])[..6] == header;
  }

  lemma ParseMsgTail(msg: Bytes)
    requires msg == [] || msg[0] != ' '
    ensures ParseBlocks(MsgTail(msg)) == ([], msg)
  {
    if msg != [] {
      assert MsgTail(msg)[1..] == msg;
      assert TrimLeft(MsgTail(msg)) == TrimLeft(msg);
    }
  }

  lemma ParseBlocksMsg(blocks: seq<Bytes>, msg: Bytes)
    requires AreBlocks(blocks) && blocks != [] && (msg == [] || msg[0] != ' ')
    ensures ParseSD(Concat(blocks) + MsgTail(msg)) == (blocks, msg)
  {
    hide ParseBlocks;
    ParseMsgTail(msg);
    ParseConcat(blocks, MsgTail(msg));
    assert blocks + [] == blocks;
    assert (Concat(blocks) + MsgTail(msg))[0] == blocks[0][0];
  }

  lemma ParseNilMsg(msg: Bytes)
    requires msg == [] || msg[0] != ' '
    ensures ParseSD("-" + MsgTail(msg)) == ([], msg)
  {
    var sd := "-" + MsgTail(msg);
    if msg == [] {
      assert sd == "-";
    } else {
      assert sd == "- " + msg;
      assert sd[2..] == msg;
    }
  }

  /** Printing a shaped message and parsing it again is the identity. */
  lemma ParsePrint(m: Message)
    requires Shaped(m)
    ensures Parse(Print(m)) == Some(m)
  {
    hide Parse, ParseSD, Join, Concat, AreFields, IndexByte, IsBlock, MsgTail;
    var sd := if m.blocks == [] then "-" else Concat(m.blocks);
    if m.blocks == [] {
      ParseNilMsg(m.msg);
    } else {
      ParseBlocksMsg(m.blocks, m.msg);
    }
    assert Shaped(Message(m.pri, m.header, [], []));
    ParsePieces(m.pri, m.header, sd + MsgTail(m.msg));
    Assoc(m.pri + Join(m.header) + " ", sd, MsgTail(m.msg));
  }

  lemma TenantBlockShape(id: int)
    ensures IsBlock(TenantBlock(id)) && IsTenantBlock(TenantBlock(id))
  {
    ItoaBytes(id, ']');
    hide Itoa, IndexByte;
    var inner := "[tenant@" + Itoa(id) + (" tenant-id=\"" + Itoa(id) + "\"");
    FirstByteAt(inner, ']', []);
    assert inner + [']'] + [] == inner + "]";
  }

  lemma {:induction false} FilterShape(blocks: seq<Bytes>)
    requires AreBlocks(blocks)
    ensures AreBlocks(WithoutTenantBlocks(blocks))
  {
    if blocks != [] {
      FilterShape(blocks[1..]);
    }
  }

  lemma StampedShape(m: Message, id: int, name: Bytes)
    requires Shaped(m)
    ensures Shaped(Stamped(m, id, name))
  {
    TenantBlockShape(id);
    FilterShape(m.blocks);
  }

  /** The stamp / re-parse theorem: the rewriter reads its own output as the same PRI and
      header, the foreign blocks in order followed by one tenant block, and an empty or
      prefixed MSG. */
  lemma StampReparse(raw: Bytes, id: int, name: Bytes)
    requires Parse(raw).Some?
    ensures Parse(Stamp(raw, id, name)) == Some(Stamped(Parse(raw).value, id, name))
  {
    ParseShape(raw);
    StampedShape(Parse(raw).value, id, name);
    ParsePrint(Stamped(Parse(raw).value, id, name));
  }

  lemma {:induction false} FilterAppend(blocks: seq<Bytes>, b: Bytes)
    requires IsTenantBlock(b)
    ensures WithoutTenantBlocks(blocks + [b]) == WithoutTenantBlocks(blocks)
  {
    if blocks == [] {
      assert ([] + [b])[1..] == [];
    } else {
      FilterAppend(blocks[1..], b);
      assert (blocks + [b])[1..] == blocks[1..] + [b];
    }
  }

  lemma {:induction false} FilterIdempotent(blocks: seq<Bytes>)
    ensures WithoutTenantBlocks(WithoutTenantBlocks(blocks)) == WithoutTenantBlocks(blocks)
  {
    if blocks != [] {
      FilterIdempotent(blocks[1..]);
      var r := WithoutTenantBlocks(blocks[1..]);
      assert ([blocks[0]] + r)[1..] == r;
      assert [] + r == r;
    }
  }

  /** A second stamp replaces the first one's block and leaves PRI, header and the foreign
      blocks alone; with the same id the structured data does not change at all. */
  lemma Restamp(raw: Bytes, id: int, name: Bytes, id2: int, name2: Bytes)
    requires Parse(raw).Some?
    ensures var twice := Parse(Stamp(Stamp(raw, id, name), id2, name2));
            && twice.Some?
            && twice.value.(msg := []) == Stamped(Parse(raw).value, id2, name2).(msg := [])
            && (id2 == id ==> twice.value.blocks == Parse(Stamp(raw, id, name)).value.blocks)
            && twice.value.msg == (var m := Parse(raw).value.msg;
                                   if m == [] then [] else MsgPrefix(id2, name2) + MsgPrefix(id, name) + m)
  {
    hide Parse, Stamp, TenantBlock, MsgPrefix, WithoutTenantBlocks, IsTenantBlock;
    StampReparse(raw, id, name);
    StampReparse(Stamp(raw, id, name), id2, name2);
    TenantBlockShape(id);
    var m := Parse(raw).value;
    FilterAppend(WithoutTenantBlocks(m.blocks), TenantBlock(id));
    FilterIdempotent(m.blocks);
    assert MsgPrefix(id2, name2) + (MsgPrefix(id, name) + m.msg) ==
           MsgPrefix(id2, name2) + MsgPrefix(id, name) + m.msg;
  }

  // ----- which messages are rewritten -----

  /** PRI, spaces, six fields without spaces, and the rest: what the rewriter takes for RFC 5424. */
  predicate Laid(raw: Bytes, pri: Bytes, gap: Bytes, header: seq<Bytes>, section: Bytes)
  {
    && pri != [] && pri[0] == '<' && IndexByte(pri, '>') == |pri| - 1
    && Blank(gap) && |header| == 6 && header[0] != [] && AreFields(header)
    && raw == pri + (gap + (Join(header) + " " + section))
  }

  /** Every text of this form is taken apart at these places. */
  lemma ParseLaid(raw: Bytes, pri: Bytes, gap: Bytes, header: seq<Bytes>, section: Bytes)
    requires Laid(raw, pri, gap, header, section)
    ensures Parse(raw) == Some(Message(pri, header, ParseSD(section).0, ParseSD(section).1))
  {
    var rest := Join(header) + " " + section;
    assert rest != [] && rest[0] != ' ' by {
      JoinHead(header);
      IndexByteFirst(header[0], ' ');
    }
    SplitJoin(header, section);
    hide SplitN, ParseSD, Parse, Join, AreFields, IndexByte, Blank;
    ParseBehind(pri, gap, rest);
    assert (header + [section])[..6] == header;
  }

  /** Only texts of this form are. */
  lemma ParseOnlyLaid(raw: Bytes) returns (pri: Bytes, gap: Bytes, header: seq<Bytes>, section: Bytes)
    requires Parse(raw).Some?
    ensures Laid(raw, pri, gap, header, section)
  {
    ParseParts(raw);
    ParseShape(raw);
    var k := IndexByte(raw, '>') + 1;
    var s := TrimLeft(raw[k..]);
    pri, header, section := raw[..k], SplitN(s, 7)[..6], SplitN(s, 7)[6];
    gap := raw[k..][..|raw[k..]| - |s|];
    TrimLeftDrops(raw[k..]);
    JoinSplit(s, 7);
    hide Parse, SplitN, Join, TrimLeft, IndexByte, AreFields, ParseSD, AreBlocks, Blank;
    assert raw == pri + raw[k..];
  }

  /** A message of another form is passed on as it is. */
  lemma MalformedUnchanged(raw: Bytes, id: int, name: Bytes)
    requires forall pri, gap, header, section :: !Laid(raw, pri, gap, header, section)
    ensures Stamp(raw, id, name) == raw
  {
    if Parse(raw).Some? {
      var pri, gap, header, section := ParseOnlyLaid(raw);
    }
  }

  // ----- the stamp names the tenant -----

  /** Reading the body prefix back gives the id; behind it come the name and the rest. */
  lemma PrefixReads(id: int, name: Bytes, msg: Bytes)
    requires MIN_INT64 <= id <= MAX_INT64
    ensures var text := MsgPrefix(id, name) + msg;
            var close := IndexByte(text, ']');
            && text[0] == '[' && close >= 1 && ParseInt(text[1..close]) == Some(id)
            && text[close + 1..] == "[" + name + "] " + msg
  {
    ItoaBytes(id, ']');
    ItoaParse(id);
    var number, rest := Itoa(id), "[" + name + "] " + msg;
    hide Itoa, ParseInt, IndexByte;
    var text := MsgPrefix(id, name) + msg;
    assert text == ("[" + number) + [']'] + rest;
    FirstByteAt("[" + number, ']', rest);
    assert ("[" + number)[1..] == number;
    assert text[1..|number| + 1] == ("[" + number)[1..];
  }

  /** Different tenants never produce the same body. */
  lemma PrefixesDiffer(id: int, name: Bytes, msg: Bytes, id2: int, name2: Bytes, msg2: Bytes)
    requires MIN_INT64 <= id <= MAX_INT64 && MIN_INT64 <= id2 <= MAX_INT64 && id != id2
    ensures MsgPrefix(id, name) + msg != MsgPrefix(id2, name2) + msg2
  {
    PrefixReads(id, name, msg);
    PrefixReads(id2, name2, msg2);
    hide MsgPrefix, ParseInt, IndexByte;
  }

  lemma TenantBlockLayout(id: int)
    ensures TenantBlock(id) == "[tenant@" + Itoa(id) + " tenant-id=\"" + Itoa(id) + "\"]"
  {
    hide Itoa;
    assert "\"]" == "\"" + "]";
  }

  /** Reading the tenant block back gives the id twice: behind the `@` and between the quotes. */
  lemma BlockReads(id: int) returns (first: Bytes, second: Bytes)
    requires MIN_INT64 <= id <= MAX_INT64
    ensures TenantBlock(id) == "[tenant@" + first + " tenant-id=\"" + second + "\"]"
    ensures ParseInt(first) == Some(id) && ParseInt(second) == Some(id)
  {
    ItoaParse(id);
    TenantBlockLayout(id);
    first, second := Itoa(id), Itoa(id);
  }

  /** What the collector can read off a stamped message: the body names the tenant, then its name,
      then the original text. */
  lemma StampedBodyReads(raw: Bytes, id: int, name: Bytes)
    requires Parse(raw).Some? && Parse(raw).value.msg != [] && MIN_INT64 <= id <= MAX_INT64
    ensures Parse(Stamp(raw, id, name)).Some?
    ensures var text := Parse(Stamp(raw, id, name)).value.msg;
            var close := IndexByte(text, ']');
            && text != [] && text[0] == '[' && close >= 1 && ParseInt(text[1..close]) == Some(id)
            && text[close + 1..] == "[" + name + "] " + Parse(raw).value.msg
  {
    StampReparse(raw, id, name);
    PrefixReads(id, name, Parse(raw).value.msg);
    hide Parse, Stamp, MsgPrefix, ParseInt, IndexByte, TenantBlock;
  }

  // ----- nothing is lost: reassembly and length -----

  lemma ReassembleNil(section: Bytes) returns (gap: Bytes)
    requires HasPrefix(section, "- ")
    ensures Blank(gap) && section == "-" + gap + TrimLeft(section[2..])
  {
    hide TrimLeft;
    TrimLeftDrops(section[2..]);
    var tail := section[2..];
    var msg := TrimLeft(tail);
    gap := " " + tail[..|tail| - |msg|];
    assert section == "-" + (" " + tail);
  }

  /** Blocks, skipped spaces and MSG reassemble the section, except for the nil value `-`. */
  lemma Reassemble(section: Bytes) returns (gap: Bytes)
    ensures Blank(gap)
    ensures section == (if section == "-" || HasPrefix(section, "- ") then "-" else Concat(ParseSD(section).0))
                       + gap + ParseSD(section).1
  {
    hide TrimLeft, Concat, ParseBlocks;
    if section == "-" {
      gap := [];
    } else if HasPrefix(section, "- ") {
      gap := ReassembleNil(section);
    } else {
      gap := ReassembleBlocks(section);
    }
  }

  lemma {:induction false} ReassembleBlocks(s: Bytes) returns (gap: Bytes)
    ensures Blank(gap)
    ensures s == Concat(ParseBlocks(s).0) + gap + ParseBlocks(s).1
    decreases |s|
  {
    hide ParseBlocks, Concat, TrimLeft, IndexByte;
    if StartsBlock(s) {
      var end := IndexByte(s, ']');
      ParseBlocksCut(s);
      var rest := s[end + 1..];
      gap := ReassembleBlocks(rest);
      var more, msg := ParseBlocks(rest).0, ParseBlocks(rest).1;
      ConcatCons(s[..end + 1], more);
      Regroup(s[..end + 1], Concat(more), gap, msg);
      assert s == s[..end + 1] + rest;
    } else {
      ParseBlocksEnd(s);
      ConcatNothing();
      gap := [];
      if s != [] && s[0] == ' ' {
        TrimLeftDrops(s);
        gap := s[..|s| - |TrimLeft(s)|];
      }
    }
  }

  lemma ConcatCons(b: Bytes, more: seq<Bytes>)
    ensures Concat([b] + more) == b + Concat(more)
  {
    assert ([b] + more)[1..] == more;
  }

  lemma ConcatNothing()
    ensures Concat([]) == []
  {
  }

  lemma Regroup(a: Bytes, b: Bytes, c: Bytes, d: Bytes)
    ensures a + (b + c + d) == a + b + c + d
  {
  }

  lemma {:induction false} FilterShrinks(blocks: seq<Bytes>, b: Bytes)
    ensures |Concat(WithoutTenantBlocks(blocks) + [b])| <= |Concat(blocks)| + |b|
  {
    if blocks == [] {
      assert Concat([b]) == b + Concat([]);
      assert [] + [b] == [b];
    } else {
      FilterShrinks(blocks[1..], b);
      var r := WithoutTenantBlocks(blocks[1..]);
      assert ([blocks[0]] + r + [b])[1..] == r + [b];
      assert [] + r + [b] == r + [b];
    }
  }

  lemma JoinStep(first: Bytes, fields: seq<Bytes>, last: Bytes)
    requires fields != []
    ensures Join([first] + fields) + " " + last == first + " " + (Join(fields) + " " + last)
  {
    JoinHead([first] + fields);
    assert ([first] + fields)[1..] == fields;
    hide Join;
    Assoc(first + " ", Join(fields), " " + last);
    assert Join(fields) + (" " + last) == Join(fields) + " " + last;
  }

  lemma JoinOne(field: Bytes)
    ensures Join([field]) == field
  {
  }

  lemma CutAt(s: Bytes, sp: nat)
    requires sp < |s| && s[sp] == ' '
    ensures s == s[..sp] + " " + s[sp + 1..]
  {
  }

  lemma Front(first: Bytes, tail: seq<Bytes>)
    requires tail != []
    ensures var parts := [first] + tail;
            parts[..|tail|] == [first] + tail[..|tail| - 1] && parts[|tail|] == tail[|tail| - 1]
  {
  }

  /** Joining undoes splitting. */
  lemma {:induction false} JoinSplit(s: Bytes, n: nat)
    requires n >= 2 && |SplitN(s, n)| == n
    ensures s == Join(SplitN(s, n)[..n - 1]) + " " + SplitN(s, n)[n - 1]
    decreases n
  {
    hide IndexByte, SplitN, Join;
    SplitHead(s, n);
    var sp := IndexByte(s, ' ');
    CutAt(s, sp);
    var first, tail := s[..sp], SplitN(s[sp + 1..], n - 1);
    Front(first, tail);
    if n == 2 {
      SplitRest(s[sp + 1..]);
      JoinOne(first);
    } else {
      JoinSplit(s[sp + 1..], n - 1);
      JoinStep(first, tail[..n - 2], tail[n - 2]);
    }
  }

  lemma SplitLength(s: Bytes, n: nat)
    requires n >= 2 && |SplitN(s, n)| == n
    ensures |s| == |Join(SplitN(s, n)[..n - 1])| + 1 + |SplitN(s, n)[n - 1]|
  {
    hide SplitN, Join;
    JoinSplit(s, n);
  }

  lemma SectionLength(section: Bytes)
    ensures |section| >= |Concat(ParseSD(section).0)| + |ParseSD(section).1|
  {
    var gap := Reassemble(section);
  }

  /** Stamping adds at most the tenant block, the body prefix and one space. */
  lemma StampLength(raw: Bytes, id: int, name: Bytes)
    ensures |Stamp(raw, id, name)| <= |raw| + |TenantBlock(id)| + |MsgPrefix(id, name)| + 1
  {
    hide SplitN, Join, Concat, TenantBlock, MsgPrefix, WithoutTenantBlocks, ParseSD, IndexByte, TrimLeft;
    if Parse(raw).Some? {
      var m := Parse(raw).value;
      var s := TrimLeft(raw[|m.pri|..]);
      var section := SplitN(s, 7)[6];
      SplitLength(s, 7);
      SectionLength(section);
      FilterShrinks(m.blocks, TenantBlock(id));
    }
  }

  // ----- agreement with section 6.3 of RFC 5424 -----

  datatype Param = Param(name: Bytes, value: Bytes)
  datatype Element = Element(id: Bytes, params: seq<Param>)

  /** SD-NAME: printable ASCII without `=`, space, `]` and `"`. */
  predicate IsName(s: Bytes)
  {
    s != [] && forall i :: 0 <= i < |s| ==> '!' <= s[i] <= '~' && s[i] !in "=]\""
  }

  predicate ValidElement(e: Element)
  {
    IsName(e.id) && forall i :: 0 <= i < |e.params| ==> IsName(e.params[i].name)
  }

  /** PARAM-VALUE escaping: backslash before `"`, `\` and `]`. */
  function Escape(v: Bytes): Bytes
  {
    if v == [] then []
    else (if v[0] in "\"\\]" then ['\\', v[0]] else [v[0]]) + Escape(v[1..])
  }

  function PrintParams(ps: seq<Param>): Bytes
  {
    if ps == [] then []
    else " " + ps[0].name + "=\"" + Escape(ps[0].value) + "\"" + PrintParams(ps[1..])
  }

  function PrintElement(e: Element): Bytes
  {
    "[" + e.id + PrintParams(e.params) + "]"
  }

  function PrintElements(es: seq<Element>): (bs: seq<Bytes>)
    ensures |bs| == |es| && forall i :: 0 <= i < |es| ==> bs[i] == PrintElement(es[i])
  {
    if es == [] then [] else [PrintElement(es[0])] + PrintElements(es[1..])
  }

  /** No parameter value contains a (necessarily escaped) closing bracket. */
  predicate BracketFree(e: Element)
  {
    forall i :: 0 <= i < |e.params| ==> ']' !in e.params[i].value
  }

  lemma {:induction false} EscapeBracket(v: Bytes)
    ensures ']' in Escape(v) <==> ']' in v
  {
    if v != [] {
      EscapeBracket(v[1..]);
      assert v == [v[0]] + v[1..];
      if v[0] == ']' {
        assert Escape(v)[1] == ']';
      }
    }
  }

  lemma {:induction false} ParamsBracket(ps: seq<Param>)
    requires forall i :: 0 <= i < |ps| ==> IsName(ps[i].name)
    ensures ']' in PrintParams(ps) <==> exists i :: 0 <= i < |ps| && ']' in ps[i].value
  {
    if ps != [] {
      ParamsBracket(ps[1..]);
      EscapeBracket(ps[0].value);
      assert ']' !in ps[0].name;
      assert forall i :: 0 <= i < |ps[1..]| ==> ps[1..][i] == ps[i + 1];
      if ']' in PrintParams(ps[1..]) {
        var j :| 0 <= j < |ps[1..]| && ']' in ps[1..][j].value;
        assert ']' in ps[j + 1].value;
      }
      if i :| 0 <= i < |ps| && ']' in ps[i].value {
        assert i > 0 ==> ']' in ps[1..][i - 1].value;
      }
    }
  }

  /** A printed element is one block exactly when it is bracket free. */
  lemma ElementIsBlock(e: Element)
    requires ValidElement(e)
    ensures IsBlock(PrintElement(e)) <==> BracketFree(e)
    ensures PrintElement(e)[0] == '[' && ']' in PrintElement(e)
  {
    hide PrintParams, IndexByte;
    var inner := "[" + e.id + PrintParams(e.params);
    ParamsBracket(e.params);
    assert ']' !in e.id;
    assert ']' in inner <==> ']' in PrintParams(e.params);
    var b := PrintElement(e);
    assert b == inner + [']'];
    IndexByteFirst(b, ']');
    assert b[|b| - 1] == ']';
    if ']' in inner {
      var k :| 0 <= k < |inner| && inner[k] == ']';
      assert b[k] == ']';
    } else {
      FirstByteAt(inner, ']', []);
      assert b == inner + [']'] + [];
    }
  }

  /** The scanner takes the element apart at its first `]`. */
  lemma ParseFirstElement(e: Element, rest: Bytes)
    requires ValidElement(e)
    ensures var (blocks, msg) := ParseBlocks(PrintElement(e) + rest);
            && blocks != [] && (blocks[0] == PrintElement(e) <==> BracketFree(e))
            && (BracketFree(e) ==> blocks[1..] == ParseBlocks(rest).0 && msg == ParseBlocks(rest).1)
  {
    hide PrintElement;
    var b := PrintElement(e);
    ElementIsBlock(e);
    if BracketFree(e) {
      ParseOneBlock(b, rest);
    } else {
      IndexByteFirst(b, ']');
      IndexByteStable(b, ']', rest);
      assert (b + rest)[0] == b[0];
    }
  }

  predicate AllBracketFree(es: seq<Element>) { forall i :: 0 <= i < |es| ==> BracketFree(es[i]) }

  lemma AllBracketFreeCons(es: seq<Element>)
    requires es != []
    ensures AllBracketFree(es) <==> BracketFree(es[0]) && AllBracketFree(es[1..])
  {
    hide BracketFree;
    assert forall i :: 0 < i < |es| ==> es[i] == es[1..][i - 1];
  }

  lemma {:induction false} ParseElements(es: seq<Element>, tail: Bytes)
    requires forall i :: 0 <= i < |es| ==> ValidElement(es[i])
    requires tail == [] || tail[0] == ' '
    ensures ParseBlocks(Concat(PrintElements(es)) + tail).0 == PrintElements(es) <==> AllBracketFree(es)
    ensures AllBracketFree(es) ==> ParseBlocks(Concat(PrintElements(es)) + tail).1 == TrimLeft(tail)
  {
    if es == [] {
      assert Concat(PrintElements(es)) + tail == tail;
    } else {
      hide ParseBlocks, PrintElement, BracketFree, TrimLeft;
      var b, more := PrintElement(es[0]), PrintElements(es[1..]);
      var rest := Concat(more) + tail;
      assert PrintElements(es)[1..] == more;
      assert Concat(PrintElements(es)) + tail == b + rest;
      ParseFirstElement(es[0], rest);
      ParseElements(es[1..], tail);
      AllBracketFreeCons(es);
      hide AllBracketFree;
      var got := ParseBlocks(b + rest).0;
      assert got == [got[0]] + got[1..];
    }
  }

  /** The optional `SP MSG` that ends a message, and the text the receiver should see. */
  function OptionalTail(msg: Option<Bytes>): Bytes { if msg.Some? then " " + msg.value else [] }

  function OptionalText(msg: Option<Bytes>): Bytes { if msg.Some? then msg.value else [] }

  lemma TrimMsg(msg: Option<Bytes>)
    ensures TrimLeft(OptionalTail(msg)) == OptionalText(msg) <==> !HasPrefix(OptionalText(msg), " ")
    ensures OptionalTail(msg) == [] || OptionalTail(msg)[0] == ' '
  {
    if msg.Some? {
      assert (" " + msg.value)[1..] == msg.value;
    }
  }

  /** For every structured-data section that section 6.3 allows, with or without a MSG, the
      scanner returns exactly its elements and its MSG if and only if no parameter value
      holds a `]` and the MSG does not itself start with a space. */
  lemma ParseAgreesWithGrammar(es: seq<Element>, msg: Option<Bytes>)
    requires es != [] && forall i :: 0 <= i < |es| ==> ValidElement(es[i])
    ensures ParseSD(Concat(PrintElements(es)) + OptionalTail(msg)) == (PrintElements(es), OptionalText(msg))
            <==> AllBracketFree(es) && !HasPrefix(OptionalText(msg), " ")
  {
    hide ParseBlocks, PrintElement, TrimLeft, AllBracketFree, OptionalTail, OptionalText, HasPrefix;
    TrimMsg(msg);
    ParseElements(es, OptionalTail(msg));
    ElementIsBlock(es[0]);
    NotNil(Concat(PrintElements(es)) + OptionalTail(msg));
  }

  lemma NotNil(section: Bytes)
    requires section != [] && section[0] == '['
    ensures ParseSD(section) == ParseBlocks(section)
  {
  }

  /** Witness for the bracket hypothesis: the valid element `[x a="\]"]` is cut inside its
      value, so the blocks returned do not contain it. */
  lemma EscapedBracketIsCut()
    ensures var e := Element("x", [Param("a", "]")]);
            ValidElement(e) && ParseSD(PrintElement(e)).0 != [PrintElement(e)]
  {
    var e := Element("x", [Param("a", "]")]);
    assert ']' in e.params[0].value;
    ElementIsBlock(e);
    NotNil(PrintElement(e));
    hide PrintElement, ParseBlocks, ParseSD;
    ParseFirstElement(e, []);
    assert PrintElement(e) + [] == PrintElement(e);
  }

  predicate IsTenantElement(e: Element) { HasPrefix(e.id, "tenant@") }

  function WithoutTenantElements(es: seq<Element>): seq<Element>
  {
    if es == [] then []
    else (if IsTenantElement(es[0]) then [] else [es[0]]) + WithoutTenantElements(es[1..])
  }

  lemma PrefixBehind(c: byte, rest: Bytes, p: Bytes)
    ensures HasPrefix([c] + rest, [c] + p) <==> HasPrefix(rest, p)
  {
    assert ([c] + rest)[1..] == rest && ([c] + p)[1..] == p;
    if HasPrefix(rest, p) {
      assert rest == p + rest[|p|..];
      assert [c] + rest == ([c] + p) + rest[|p|..];
    }
  }

  /** A prefix that avoids the next character is a prefix of what comes before it. */
  lemma PrefixOfHead(head: Bytes, after: Bytes, p: Bytes)
    requires after != [] && after[0] !in p
    ensures HasPrefix(head + after, p) <==> HasPrefix(head, p)
  {
    if |head| < |p| {
      assert (head + after)[|head|] == after[0];
    } else {
      assert (head + after)[..|p|] == head[..|p|];
    }
  }

  lemma ParamsStart(ps: seq<Param>)
    ensures (PrintParams(ps) + "]")[0] in " ]"
  {
  }

  lemma TenantElementBlock(e: Element)
    requires ValidElement(e)
    ensures IsTenantBlock(PrintElement(e)) <==> IsTenantElement(e)
  {
    ParamsStart(e.params);
    TenantLiterals();
    hide PrintParams, HasPrefix, IsName;
    var after := PrintParams(e.params) + "]";
    assert PrintElement(e) == ['['] + (e.id + after);
    PrefixBehind('[', e.id + after, "tenant@");
    PrefixOfHead(e.id, after, "tenant@");
  }

  lemma {:induction false} FilterElements(es: seq<Element>)
    requires forall i :: 0 <= i < |es| ==> ValidElement(es[i])
    ensures WithoutTenantBlocks(PrintElements(es)) == PrintElements(WithoutTenantElements(es))
  {
    if es != [] {
      TenantElementBlock(es[0]);
      FilterElements(es[1..]);
      assert PrintElements(es) == [PrintElement(es[0])] + PrintElements(es[1..]);
      assert PrintElements(es)[1..] == PrintElements(es[1..]);
      var r := WithoutTenantElements(es[1..]);
      assert PrintElements([es[0]] + r) == [PrintElement(es[0])] + PrintElements(r);
      assert [] + r == r;
      assert [] + PrintElements(r) == PrintElements(r);
    }
  }

  /** A conforming RFC 5424 message as its grammar sees it. */
  datatype Conforming = Conforming(pri: Bytes, header: seq<Bytes>, elements: seq<Element>, msg: Bytes)

  predicate ValidConforming(c: Conforming)
  {
    && Shaped(Message(c.pri, c.header, [], c.msg))
    && forall i :: 0 <= i < |c.elements| ==> ValidElement(c.elements[i]) && BracketFree(c.elements[i])
  }

  function PrintConforming(c: Conforming): Bytes
  {
    Print(Message(c.pri, c.header, PrintElements(c.elements), c.msg))
  }

  function TenantElement(id: int): Element
  {
    Element("tenant@" + Itoa(id), [Param("tenant-id", Itoa(id))])
  }

  lemma {:induction false} EscapePlain(v: Bytes)
    requires forall c :: c in "\"\\]" ==> c !in v
    ensures Escape(v) == v
  {
    if v != [] {
      assert v[0] in v;
      EscapePlain(v[1..]);
    }
  }

  lemma OneParamPrints(p: Param)
    requires Escape(p.value) == p.value
    ensures PrintParams([p]) == " " + p.name + "=\"" + p.value + "\""
  {
    assert [p][1..] == [];
  }

  lemma EscapeItoa(n: int)
    ensures Escape(Itoa(n)) == Itoa(n)
  {
    ItoaBytes(n, '\"');
    ItoaBytes(n, '\\');
    ItoaBytes(n, ']');
    EscapePlain(Itoa(n));
  }

  lemma TenantLiterals()
    ensures " " + "tenant-id" + "=\"" == " tenant-id=\""
    ensures "[" + "tenant@" == "[tenant@"
  {
  }

  lemma TenantElementPrints(id: int)
    ensures PrintElement(TenantElement(id)) == TenantBlock(id)
  {
    hide Itoa, Escape, PrintParams;
    EscapeItoa(id);
    OneParamPrints(Param("tenant-id", Itoa(id)));
    TenantLiterals();
    Assoc("[", "tenant@", Itoa(id));
  }

  lemma {:induction false} PrintElementsAppend(es: seq<Element>, e: Element)
    ensures PrintElements(es + [e]) == PrintElements(es) + [PrintElement(e)]
  {
    hide PrintElement;
    if es == [] {
      assert es + [e] == [e] && [e][1..] == [];
    } else {
      PrintElementsAppend(es[1..], e);
      assert (es + [e])[1..] == es[1..] + [e];
    }
  }

  lemma ConformingShape(c: Conforming)
    requires ValidConforming(c)
    ensures Shaped(Message(c.pri, c.header, PrintElements(c.elements), c.msg))
  {
    hide PrintElement, IsBlock, BracketFree;
    forall i | 0 <= i < |c.elements| ensures IsBlock(PrintElements(c.elements)[i]) {
      ElementIsBlock(c.elements[i]);
    }
  }

  /** On the grammar's level: stamping a conforming message drops the elements whose SD-ID
      starts with `tenant@`, keeps all others in order, appends the tenant's element, and
      prefixes a nonempty MSG. */
  lemma StampConforming(c: Conforming, id: int, name: Bytes)
    requires ValidConforming(c)
    ensures Stamp(PrintConforming(c), id, name) ==
            PrintConforming(c.(elements := WithoutTenantElements(c.elements) + [TenantElement(id)],
                               msg := if c.msg == [] then [] else MsgPrefix(id, name) + c.msg))
  {
    hide Print, Parse, PrintElement, TenantBlock, MsgPrefix, WithoutTenantBlocks, PrintElements;
    ConformingShape(c);
    ParsePrint(Message(c.pri, c.header, PrintElements(c.elements), c.msg));
    FilterElements(c.elements);
    TenantElementPrints(id);
    PrintElementsAppend(WithoutTenantElements(c.elements), TenantElement(id));
  }
}
