/**
 * The other side of BATCH_GET: the bytes the server's frames become on the
 * connection, and the client's reading loop, which inverts them.
 */
module BatchGetClient {
  import opened Wire
  import opened Codecs
  import opened BatchGet

  // ---- the bytes ---------------------------------------------------------------------------------------

  predicate Sized(items: seq<Item>) { forall i :: 0 <= i < |items| ==> Size(items[i]) < 0x1_0000_0000 }

  function DescOf(x: Item): Desc
    requires Size(x) < 0x1_0000_0000
  {
    match x
    case Hit(data, sum) => Desc(OK, |data|, sum)
    case Busy => Desc(ERR_BUSY, 0, 0)
    case Miss => Desc(NOT_FOUND, 0, 0)
  }

  /** A served key shows OK, a busy one is told to retry, a missing one is told so; only the first brings bytes. */
  lemma SlotShows(x: Item, before: Slot)
    requires Size(x) < 0x1_0000_0000
    ensures match x
      case Hit(data, sum) => SlotOf(x, before) == Slot(OK, data) && DescOf(x) == Desc(OK, |data|, sum)
      case Busy => SlotOf(x, before) == Slot(ERR_BUSY, before.data) && DescOf(x).len == 0
      case Miss => SlotOf(x, before) == Slot(NOT_FOUND, before.data) && DescOf(x).len == 0
  {
  }

  function DescsOf(items: seq<Item>): (r: seq<Desc>)
    requires Sized(items)
    ensures |r| == |items|
  {
    if items == [] then [] else [DescOf(items[0])] + DescsOf(items[1..])
  }

  function Payload(items: seq<Item>): Bytes {
    if items == [] then [] else (if items[0].Hit? then items[0].data else []) + Payload(items[1..])
  }

  lemma {:induction false} PayloadLength(items: seq<Item>)
    ensures |Payload(items)| == PayloadSize(items)
    decreases |items|
  {
    if items != [] {
      PayloadLength(items[1..]);
      SizeFront(items);
    }
  }

  /** The size may be counted from either end. */
  lemma {:induction false} SizeFront(items: seq<Item>)
    requires items != []
    ensures PayloadSize(items) == Size(items[0]) + PayloadSize(items[1..])
    decreases |items|
  {
    if |items| == 1 {
      assert items[..0] == [] && items[1..] == [];
    } else {
      var front := items[..|items| - 1];
      SizeFront(front);
      assert front[1..] == items[1..][..|items[1..]| - 1];
    }
  }

  predicate Sendable(f: Frame, total: nat) {
    Sized(f.items) && f.first < 0x1_0000_0000 && total < 0x1_0000_0000 && |f.items| < 0x1_0000_0000 && FrameSize(f) <= CLIENT_CAP
  }

  function FrameBytes(f: Frame, total: nat): (b: Bytes)
    requires Sendable(f, total)
  {
    AppendGetRespHeader(OK, f.first, total, DescsOf(f.items)) + Payload(f.items)
  }

  /** What else the response header carries: the credit grant is stamped by the writer. */
  datatype Envelope = Envelope(namespaceId: U32, requestId: U64, credit: U32)

  function HeaderFor(f: Frame, e: Envelope): Header
    requires FrameSize(f) <= CLIENT_CAP
  {
    Header(OP_GET, FLAG_RESP + (if f.more then FLAG_MORE else 0), e.namespaceId, e.credit, e.requestId, Zeros(32), FrameSize(f))
  }

  function NopHeader(credit: U32): Header { Header(OP_NOP, 0, 0, credit, 0, Zeros(32), 0) }

  /** What the connection carries: response frames, and keepalives anywhere between them. */
  datatype Piece = Response(f: Frame, e: Envelope) | Keepalive(credit: U32)

  function PieceBytes(crc: Bytes -> U32, p: Piece, total: nat): Bytes
    requires p.Response? ==> Sendable(p.f, total)
  {
    match p
    case Response(f, e) => MarshalHeader(crc, HeaderFor(f, e)) + FrameBytes(f, total)
    case Keepalive(credit) => MarshalHeader(crc, NopHeader(credit))
  }

  predicate AllSendable(pieces: seq<Piece>, total: nat) {
    forall i :: 0 <= i < |pieces| ==> pieces[i].Response? ==> Sendable(pieces[i].f, total)
  }

  function Stream(crc: Bytes -> U32, pieces: seq<Piece>, total: nat): Bytes
    requires AllSendable(pieces, total)
  {
    if pieces == [] then [] else PieceBytes(crc, pieces[0], total) + Stream(crc, pieces[1..], total)
  }

  function Frames(pieces: seq<Piece>): seq<Frame> {
    if pieces == [] then [] else if pieces[0].Response? then [pieces[0].f] + Frames(pieces[1..]) else Frames(pieces[1..])
  }

  // ---- the client ---------------------------------------------------------------------------------------

  /** A caller's slot: the status and the block. A key that is not served leaves the block as it was. */
  datatype Slot = Slot(status: Byte, data: Bytes)

  datatype Reason = Io | BadHeader | Declined(status: Byte) | Violation | Inconsistent | Corrupt | Short
  datatype Reply = Done(slots: seq<Slot>, rest: Bytes) | Failed(reason: Reason)

  predicate Bit(flags: nat, b: nat)
    requires b > 0
  {
    flags / b % 2 == 1
  }

  /** Reading position: slots filled so far, whether some block failed its checksum, and the bytes not read yet. */
  datatype Reader = Reader(slots: seq<Slot>, bad: bool, rest: Bytes)

  /** The table was served in full, or the bytes ran out. */
  datatype Fills = Full(reader: Reader) | Starved(bad: bool)

  /** Fill the slots of one descriptor table from the bytes that follow it. */
  function Fill(hash: Bytes -> U64, verify: bool, descs: seq<Desc>, at: nat, r: Reader): (o: Fills)
    requires at + |descs| <= |r.slots|
    ensures o.Full? ==> |o.reader.slots| == |r.slots| && |o.reader.rest| <= |r.rest|
    decreases |descs|
  {
    if descs == [] then Full(r)
    else
      var d := descs[0];
      if !Success(d.status) then Fill(hash, verify, descs[1..], at + 1, r.(slots := r.slots[at := Slot(d.status, r.slots[at].data)]))
      else if |r.rest| < d.len then Starved(r.bad)
      else
        var block := r.rest[..d.len];
        Fill(hash, verify, descs[1..], at + 1,
             Reader(r.slots[at := Slot(d.status, block)], r.bad || (verify && hash(block) != d.sum), r.rest[d.len..]))
  }

  /** A checksum mismatch already seen outranks whatever else went wrong. */
  function Fail(bad: bool, reason: Reason): Reply { Failed(if bad then Corrupt else reason) }

  /** After one response body: the answer, or where to read on. */
  datatype Turned = Stop(reply: Reply) | Go(got: nat, reader: Reader)

  function Turn(hash: Bytes -> U64, verify: bool, n: nat, got: nat, h: Header, r: Reader): (t: Turned)
    requires |r.slots| == n
    ensures t.Go? ==> |t.reader.slots| == n && |t.reader.rest| <= |r.rest|
    ensures t.Stop? && t.reply.Done? ==> |t.reply.slots| == n
  {
    var body := r.rest;
    if h.payloadLen == 8 then
      if |body| < 8 then Stop(Fail(r.bad, Io)) else Stop(Fail(r.bad, Declined(body[0])))
    else if |body| < 16 then Stop(Fail(r.bad, Io))
    else
      var p := DecodePreamble(body).value;
      var (first, total) := GetPair(body[8..]);
      if !Success(p.status) then Stop(Fail(r.bad, Violation))
      else if total != n || first + p.count > n then Stop(Fail(r.bad, Inconsistent))
      else if |body| < 16 + 16 * p.count then Stop(Fail(r.bad, Io))
      else
        var descs := Descs(body[16..16 + 16 * p.count], p.count);
        var o := Fill(hash, verify, descs, first, r.(rest := body[16 + 16 * p.count..]));
        if o.Starved? then Stop(Fail(o.bad, Io))
        else if Bit(h.flags, FLAG_MORE) then Go(got + p.count, o.reader)
        else Stop(if o.reader.bad then Failed(Corrupt) else if got + p.count != n then Failed(Short)
                  else Done(o.reader.slots, o.reader.rest))
  }

  function ReadGet(crc: Bytes -> U32, hash: Bytes -> U64, verify: bool, n: nat, got: nat, r: Reader): (reply: Reply)
    requires |r.slots| == n
    ensures reply.Done? ==> |reply.slots| == n
    decreases |r.rest|
  {
    if |r.rest| < 64 then Fail(r.bad, Io)
    else
      var parsed := ParseHeader(crc, r.rest, CLIENT_CAP);
      if !parsed.Good? then Fail(r.bad, BadHeader)
      else
        var h, body := parsed.header, r.rest[64..];
        if h.opcode == OP_NOP && !Bit(h.flags, FLAG_FATAL) then
          if |body| < h.payloadLen then Fail(r.bad, Io)
          else ReadGet(crc, hash, verify, n, got, r.(rest := body[h.payloadLen..]))
        else
          var t := Turn(hash, verify, n, got, h, r.(rest := body));
          if t.Stop? then t.reply else ReadGet(crc, hash, verify, n, t.got, t.reader)
  }

  /** The inner loop: one descriptor after the other, blocks straight into the caller's slots. */
  method FillInto(hash: Bytes -> U64, verify: bool, descs: seq<Desc>, first: nat, into: array<Slot>, bad0: bool, s0: Bytes)
    returns (full: bool, bad: bool, s: Bytes)
    requires first + |descs| <= into.Length
    modifies into
    ensures Fill(hash, verify, descs, first, Reader(old(into[..]), bad0, s0)) == if full then Full(Reader(into[..], bad, s)) else Starved(bad)
  {
    bad, s := bad0, s0;
    ghost var start := Reader(into[..], bad0, s0);
    var i := 0;
    while i < |descs|
      invariant 0 <= i <= |descs|
      invariant Fill(hash, verify, descs, first, start) == Fill(hash, verify, descs[i..], first + i, Reader(into[..], bad, s))
    {
      var d, slot := descs[i], first + i;
      assert descs[i..][0] == d && descs[i..][1..] == descs[i + 1..];
      ghost var before := into[..];
      if !Success(d.status) {
        into[slot] := Slot(d.status, into[slot].data);
        assert into[..] == before[slot := Slot(d.status, before[slot].data)];
      } else {
        if |s| < d.len { return false, bad, s; }
        into[slot] := Slot(d.status, s[..d.len]);
        assert into[..] == before[slot := Slot(d.status, s[..d.len])];
        bad := bad || (verify && hash(s[..d.len]) != d.sum);
        s := s[d.len..];
      }
      i := i + 1;
    }
    return true, bad, s;
  }

  /** One response body, read into the caller's slots. */
  method ReadBody(hash: Bytes -> U64, verify: bool, got: nat, h: Header, into: array<Slot>, bad: bool, body: Bytes) returns (t: Turned)
    modifies into
    ensures t == Turn(hash, verify, into.Length, got, h, Reader(old(into[..]), bad, body))
    ensures t.Go? ==> t.reader.slots == into[..]
    ensures t.Stop? && t.reply.Done? ==> t.reply.slots == into[..]
  {
    hide Fill, Descs, GetPair, DecodePreamble, Bit, Success;
    if h.payloadLen == 8 {
      if |body| < 8 { return Stop(Fail(bad, Io)); }
      return Stop(Fail(bad, Declined(body[0])));
    }
    if |body| < 16 { return Stop(Fail(bad, Io)); }
    var p := DecodePreamble(body).value;
    var (first, total) := GetPair(body[8..]);
    if !Success(p.status) { return Stop(Fail(bad, Violation)); }
    if total != into.Length || first + p.count > into.Length { return Stop(Fail(bad, Inconsistent)); }
    if |body| < 16 + 16 * p.count { return Stop(Fail(bad, Io)); }
    var full, bad', s := FillInto(hash, verify, Descs(body[16..16 + 16 * p.count], p.count), first, into, bad, body[16 + 16 * p.count..]);
    if !full { return Stop(Fail(bad', Io)); }
    if Bit(h.flags, FLAG_MORE) { return Go(got + p.count, Reader(into[..], bad', s)); }
    if bad' { return Stop(Failed(Corrupt)); }
    if got + p.count != into.Length { return Stop(Failed(Short)); }
    return Stop(Done(into[..], s));
  }

  /** The reading loop: keepalives skipped, frames until the last, then every key accounted for. */
  method ReadGetInto(crc: Bytes -> U32, hash: Bytes -> U64, verify: bool, stream: Bytes, into: array<Slot>) returns (reply: Reply)
    modifies into
    ensures reply == ReadGet(crc, hash, verify, into.Length, 0, Reader(old(into[..]), false, stream))
    ensures reply.Done? ==> into[..] == reply.slots
  {
    hide ParseHeader, Turn, Bit;
    var n := into.Length;
    var s, got: nat, bad := stream, 0, false;
    while true
      invariant ReadGet(crc, hash, verify, n, got, Reader(into[..], bad, s)) == ReadGet(crc, hash, verify, n, 0, Reader(old(into[..]), false, stream))
      decreases |s|
    {
      if |s| < 64 { return Fail(bad, Io); }
      var parsed := ParseHeader(crc, s, CLIENT_CAP);
      if !parsed.Good? { return Fail(bad, BadHeader); }
      var h, body := parsed.header, s[64..];
      if h.opcode == OP_NOP && !Bit(h.flags, FLAG_FATAL) {
        if |body| < h.payloadLen { return Fail(bad, Io); }
        s := body[h.payloadLen..];
      } else {
        var t := ReadBody(hash, verify, got, h, into, bad, body);
        if t.Stop? { return t.reply; }
        got, bad, s := t.got, t.reader.bad, t.reader.rest;
      }
    }
  }

  // ---- inverse ------------------------------------------------------------------------------------------

  function SlotOf(x: Item, before: Slot): Slot
    requires Size(x) < 0x1_0000_0000
  {
    Slot(DescOf(x).status, if x.Hit? then x.data else before.data)
  }

  /** The slots from at on, each set from its item. */
  function Place(slots: seq<Slot>, at: nat, items: seq<Item>): (r: seq<Slot>)
    requires at + |items| <= |slots| && Sized(items)
    ensures |r| == |slots|
    decreases |items|
  {
    if items == [] then slots else Place(slots[at := SlotOf(items[0], slots[at])], at + 1, items[1..])
  }

  lemma {:induction false} PlaceAt(slots: seq<Slot>, at: nat, items: seq<Item>, j: nat)
    requires at + |items| <= |slots| && Sized(items) && j < |slots|
    ensures Place(slots, at, items)[j] == if at <= j < at + |items| then SlotOf(items[j - at], slots[j]) else slots[j]
    decreases |items|
  {
    if items != [] { PlaceAt(slots[at := SlotOf(items[0], slots[at])], at + 1, items[1..], j); }
  }

  /** The sums the store kept are the blocks' own. */
  predicate Honest(hash: Bytes -> U64, items: seq<Item>) {
    forall i :: 0 <= i < |items| ==> items[i].Hit? ==> items[i].sum == hash(items[i].data)
  }

  /** One descriptor of the table. */
  lemma FillOne(hash: Bytes -> U64, verify: bool, d: Desc, more: seq<Desc>, at: nat, slots: seq<Slot>, bad: bool, block: Bytes, rest: Bytes)
    requires at + 1 + |more| <= |slots| && |block| == (if Success(d.status) then d.len else 0)
    ensures Fill(hash, verify, [d] + more, at, Reader(slots, bad, block + rest))
            == Fill(hash, verify, more, at + 1, Reader(slots[at := Slot(d.status, if Success(d.status) then block else slots[at].data)],
                                                       bad || (verify && Success(d.status) && hash(block) != d.sum), rest))
  {
    assert ([d] + more)[1..] == more;
    assert (block + rest)[..|block|] == block && (block + rest)[|block|..] == rest;
  }

  lemma HonestHead(hash: Bytes -> U64, items: seq<Item>)
    requires items != []
    ensures Honest(hash, items) <==> (items[0].Hit? ==> items[0].sum == hash(items[0].data)) && Honest(hash, items[1..])
  {
    assert items == [items[0]] + items[1..];
  }

  /** Serving a table fills its slots; with verification on, exactly the blocks that are not what their sums say spoil it. */
  lemma {:induction false} FillPlaces(hash: Bytes -> U64, verify: bool, items: seq<Item>, at: nat, slots: seq<Slot>, bad: bool, rest: Bytes)
    requires at + |items| <= |slots| && Sized(items)
    ensures Fill(hash, verify, DescsOf(items), at, Reader(slots, bad, Payload(items) + rest))
            == Full(Reader(Place(slots, at, items), bad || (verify && !Honest(hash, items)), rest))
    decreases |items|
  {
    if items == [] {
      assert Payload(items) + rest == rest;
    } else {
      hide Fill;
      var x := items[0];
      var block, after := if x.Hit? then x.data else [], Payload(items[1..]) + rest;
      assert Payload(items) == block + Payload(items[1..]);
      Assoc(block, Payload(items[1..]), rest);
      HonestHead(hash, items);
      hide Payload, Honest, Sized;
      FillOne(hash, verify, DescOf(x), DescsOf(items[1..]), at, slots, bad, block, after);
      FillPlaces(hash, verify, items[1..], at + 1, slots[at := SlotOf(x, slots[at])],
                 bad || (verify && x.Hit? && hash(block) != x.sum), rest);
    }
  }

  /** What the client reads at the front of a response body. */
  lemma RegionFields(first: U32, total: U32, descs: seq<Desc>, tail: Bytes)
    requires |descs| < 0x1_0000_0000
    ensures var b := AppendGetRespHeader(OK, first, total, descs) + tail;
      && |b| == 16 + 16 * |descs| + |tail| && DecodePreamble(b) == Ok(Preamble(OK, |descs|)) && GetPair(b[8..]) == (first, total)
      && Descs(b[16..16 + 16 * |descs|], |descs|) == descs && b[16 + 16 * |descs|..] == tail
  {
    var pre, pair, table := AppendPreamble(Preamble(OK, |descs|)), PutPair(first, total), Table(descs);
    var b := AppendGetRespHeader(OK, first, total, descs) + tail;
    assert b == (pre + (pair + table)) + tail && |pre| == 8 && |pair| == 8 && |table| == 16 * |descs|;
    hide AppendPreamble, PutPair, Table, DecodePreamble, GetPair, Descs, AppendGetRespHeader;
    Assoc(pre, pair + table, tail);
    Assoc(pair, table, tail);
    PreambleRoundTrip(Preamble(OK, |descs|), pair + (table + tail));
    Dropped(pre, pair + (table + tail));
    PairRoundTrip(first, total, table + tail);
    Middle(pre + pair, table, tail);
    Assoc(pre, pair, table + tail);
    DescsTable(descs);
  }

  function Continue(crc: Bytes -> U32, hash: Bytes -> U64, verify: bool, n: nat, got: nat, more: bool, r: Reader): Reply
    requires |r.slots| == n
  {
    if more then ReadGet(crc, hash, verify, n, got, r)
    else if r.bad then Failed(Corrupt) else if got != n then Failed(Short) else Done(r.slots, r.rest)
  }

  lemma FrameLength(f: Frame, total: nat)
    requires Sendable(f, total)
    ensures |FrameBytes(f, total)| == FrameSize(f) >= 16
  {
    PayloadLength(f.items);
  }

  /** The bytes at the reader are a well-formed response, and serving its table leads to the reader after. */
  ghost predicate Serves(hash: Bytes -> U64, verify: bool, n: nat, r: Reader, body: Bytes, count: U32, first: U32, descs: seq<Desc>, after: Reader) {
    && |r.slots| == n == |after.slots| && |body| >= 16 + 16 * count && first + count <= n && |descs| == count
    && DecodePreamble(body) == Ok(Preamble(OK, count)) && GetPair(body[8..]) == (first, n)
    && Descs(body[16..16 + 16 * count], count) == descs
    && Fill(hash, verify, descs, first, r.(rest := body[16 + 16 * count..])) == Full(after)
  }

  /** One turn of the reading loop on a well-formed response. */
  lemma ReadResponse(crc: Bytes -> U32, hash: Bytes -> U64, verify: bool, n: nat, got: nat, r: Reader, h: Header, body: Bytes,
                     count: U32, first: U32, descs: seq<Desc>, after: Reader)
    requires |r.rest| >= 64 && ParseHeader(crc, r.rest, CLIENT_CAP) == Good(h) && r.rest[64..] == body
    requires h.opcode != OP_NOP && h.payloadLen != 8 && Serves(hash, verify, n, r, body, count, first, descs, after)
    ensures ReadGet(crc, hash, verify, n, got, r) == Continue(crc, hash, verify, n, got + count, Bit(h.flags, FLAG_MORE), after)
  {
    hide ParseHeader, Fill, GetPair, Descs, DecodePreamble;
  }

  /** What follows a response's header: the region, the blocks, and the rest of the connection. */
  function After(f: Frame, n: nat, rest: Bytes): Bytes
    requires Sendable(f, n)
  {
    AppendGetRespHeader(OK, f.first, n, DescsOf(f.items)) + (Payload(f.items) + rest)
  }

  ghost predicate FrameServes(hash: Bytes -> U64, verify: bool, n: nat, f: Frame, r: Reader, rest: Bytes, after: Reader)
    requires Sendable(f, n)
  {
    Serves(hash, verify, n, r, After(f, n, rest), |f.items|, f.first, DescsOf(f.items), after)
  }

  lemma RegionServes(hash: Bytes -> U64, verify: bool, n: nat, f: Frame, r: Reader, rest: Bytes)
    requires |r.slots| == n && Sendable(f, n) && f.first + |f.items| <= n
    ensures FrameServes(hash, verify, n, f, r, rest,
                        Reader(Place(r.slots, f.first, f.items), r.bad || (verify && !Honest(hash, f.items)), rest))
  {
    hide AppendGetRespHeader, Fill, Place, Payload, DescsOf, GetPair, Descs, DecodePreamble, Honest, Sized, FrameSize;
    RegionFields(f.first, n, DescsOf(f.items), Payload(f.items) + rest);
    FillPlaces(hash, verify, f.items, f.first, r.slots, r.bad, rest);
  }

  lemma ReadServed(crc: Bytes -> U32, hash: Bytes -> U64, verify: bool, n: nat, got: nat, r: Reader, h: Header, f: Frame, rest: Bytes, after: Reader)
    requires |r.rest| >= 64 && ParseHeader(crc, r.rest, CLIENT_CAP) == Good(h) && h.opcode != OP_NOP && h.payloadLen != 8
    requires Sendable(f, n) && r.rest[64..] == After(f, n, rest) && |r.slots| == n && FrameServes(hash, verify, n, f, r, rest, after)
    ensures |after.slots| == n
    ensures ReadGet(crc, hash, verify, n, got, r) == Continue(crc, hash, verify, n, got + |f.items|, Bit(h.flags, FLAG_MORE), after)
  {
    hide ReadGet, Continue, ParseHeader, After, DescsOf, Bit, Sized, FrameSize, Fill, GetPair, Descs, DecodePreamble;
    ReadResponse(crc, hash, verify, n, got, r, h, After(f, n, rest), |f.items|, f.first, DescsOf(f.items), after);
  }

  /** A response on the wire: its header parses, and what follows is the region, the blocks, and the rest. */
  lemma FrameOnWire(crc: Bytes -> U32, n: nat, f: Frame, e: Envelope, rest: Bytes)
    requires Sendable(f, n)
    ensures var s := PieceBytes(crc, Response(f, e), n) + rest;
      |s| >= 64 && ParseHeader(crc, s, CLIENT_CAP) == Good(HeaderFor(f, e)) && s[64..] == After(f, n, rest)
  {
    FrameLength(f, n);
    var h, region, blocks := HeaderFor(f, e), AppendGetRespHeader(OK, f.first, n, DescsOf(f.items)), Payload(f.items);
    var m := MarshalHeader(crc, h);
    var s := PieceBytes(crc, Response(f, e), n) + rest;
    assert s == (m + (region + blocks)) + rest;
    assert After(f, n, rest) == region + (blocks + rest);
    hide *;
    Assoc(region, blocks, rest);
    Assoc(m, region + blocks, rest);
    HeaderRoundTrip(crc, h, region + (blocks + rest), CLIENT_CAP);
    Dropped(m, region + (blocks + rest));
  }

  lemma FlagsSay(f: Frame, e: Envelope)
    requires FrameSize(f) <= CLIENT_CAP
    ensures var h := HeaderFor(f, e); (Bit(h.flags, FLAG_MORE) <==> f.more) && h.opcode == OP_GET && h.payloadLen >= 16
  {
  }

  /** Reading one frame fills its slots, checks its blocks and leaves exactly what follows it. */
  lemma ReadFrame(crc: Bytes -> U32, hash: Bytes -> U64, verify: bool, n: nat, got: nat, f: Frame, e: Envelope, slots: seq<Slot>, bad: bool, rest: Bytes)
    requires |slots| == n && Sendable(f, n) && f.first + |f.items| <= n
    ensures ReadGet(crc, hash, verify, n, got, Reader(slots, bad, PieceBytes(crc, Response(f, e), n) + rest))
            == Continue(crc, hash, verify, n, got + |f.items|, f.more,
                        Reader(Place(slots, f.first, f.items), bad || (verify && !Honest(hash, f.items)), rest))
  {
    var r := Reader(slots, bad, PieceBytes(crc, Response(f, e), n) + rest);
    hide ReadGet, Continue, ParseHeader, HeaderFor, PieceBytes, After, FrameServes, Place, Bit, Honest, Sized, FrameSize;
    FlagsSay(f, e);
    FrameOnWire(crc, n, f, e, rest);
    RegionServes(hash, verify, n, f, r, rest);
    ReadServed(crc, hash, verify, n, got, r, HeaderFor(f, e), f, rest,
               Reader(Place(slots, f.first, f.items), bad || (verify && !Honest(hash, f.items)), rest));
  }

  lemma ReadNop(crc: Bytes -> U32, hash: Bytes -> U64, verify: bool, n: nat, got: nat, r: Reader, h: Header, rest: Bytes)
    requires |r.slots| == n && |r.rest| >= 64 && ParseHeader(crc, r.rest, CLIENT_CAP) == Good(h) && r.rest[64..] == rest
    requires h.opcode == OP_NOP && h.flags == 0 && h.payloadLen == 0
    ensures ReadGet(crc, hash, verify, n, got, r) == ReadGet(crc, hash, verify, n, got, r.(rest := rest))
  {
    hide ParseHeader, Turn;
    assert rest[0..] == rest;
  }

  lemma KeepaliveOnWire(crc: Bytes -> U32, n: nat, credit: U32, rest: Bytes)
    ensures var s := PieceBytes(crc, Keepalive(credit), n) + rest;
      |s| >= 64 && ParseHeader(crc, s, CLIENT_CAP) == Good(NopHeader(credit)) && s[64..] == rest
  {
    hide ParseHeader, MarshalHeader;
    var m := MarshalHeader(crc, NopHeader(credit));
    HeaderRoundTrip(crc, NopHeader(credit), rest, CLIENT_CAP);
    Dropped(m, rest);
  }

  lemma ReadKeepalive(crc: Bytes -> U32, hash: Bytes -> U64, verify: bool, n: nat, got: nat, credit: U32, slots: seq<Slot>, bad: bool, rest: Bytes)
    requires |slots| == n
    ensures ReadGet(crc, hash, verify, n, got, Reader(slots, bad, PieceBytes(crc, Keepalive(credit), n) + rest))
            == ReadGet(crc, hash, verify, n, got, Reader(slots, bad, rest))
  {
    hide ReadGet, ParseHeader, PieceBytes;
    KeepaliveOnWire(crc, n, credit, rest);
    ReadNop(crc, hash, verify, n, got, Reader(slots, bad, PieceBytes(crc, Keepalive(credit), n) + rest), NopHeader(credit), rest);
  }

  /** The last piece is a response: nothing is left unread. */
  predicate EndsWithResponse(pieces: seq<Piece>) { pieces != [] && pieces[|pieces| - 1].Response? }

  /** The frames of a whole response: they tile the request, or are the one empty frame of an empty request. */
  predicate Whole(frames: seq<Frame>, from: nat, total: nat) {
    Tiles(frames, from, total) || (total == 0 && from == 0 && frames == [Frame(0, [], false, [])])
  }

  lemma WholeCovers(frames: seq<Frame>, from: nat, total: nat)
    requires Whole(frames, from, total)
    ensures frames != [] && |Packed(frames)| == total - from
  {
    if Tiles(frames, from, total) { TilesCover(frames, from, total); } else { assert Packed(frames) == [] + Packed(frames[1..]); }
  }

  lemma {:induction false} Reassembles(crc: Bytes -> U32, hash: Bytes -> U64, verify: bool, n: nat, got: nat,
                                      pieces: seq<Piece>, slots: seq<Slot>, bad: bool, rest: Bytes)
    requires |slots| == n && AllSendable(pieces, n) && EndsWithResponse(pieces)
    requires Whole(Frames(pieces), got, n) && Sized(Packed(Frames(pieces))) && got + |Packed(Frames(pieces))| == n
    ensures ReadGet(crc, hash, verify, n, got, Reader(slots, bad, Stream(crc, pieces, n) + rest))
            == if bad || (verify && !Honest(hash, Packed(Frames(pieces)))) then Failed(Corrupt)
               else Done(Place(slots, got, Packed(Frames(pieces))), rest)
    decreases |pieces|
  {
    hide ReadGet, Honest, PieceBytes, Place, Sized, Sendable;
    var tail := Stream(crc, pieces[1..], n) + rest;
    assert Stream(crc, pieces, n) + rest == PieceBytes(crc, pieces[0], n) + tail;
    match pieces[0]
    case Keepalive(credit) =>
      ReadKeepalive(crc, hash, verify, n, got, credit, slots, bad, tail);
      Reassembles(crc, hash, verify, n, got, pieces[1..], slots, bad, rest);
    case Response(f, e) =>
      var frames := Frames(pieces);
      assert frames[0] == f && frames[1..] == Frames(pieces[1..]);
      HonestSplit(hash, f.items, Packed(frames[1..]));
      var spoiled := bad || (verify && !Honest(hash, f.items));
      ReadFrame(crc, hash, verify, n, got, f, e, slots, bad, tail);
      PlaceSplit(slots, got, f.items, Packed(frames[1..]));
      if f.more {
        TilesCover(frames[1..], got + |f.items|, n);
        Reassembles(crc, hash, verify, n, got + |f.items|, pieces[1..], Place(slots, got, f.items), spoiled, rest);
      } else {
        NoMoreFrames(pieces);
        assert tail == rest;
        PlaceNone(Place(slots, got, f.items), got + |f.items|);
        HonestNone(hash);
        assert frames == [f];
      }
  }

  /** A response that is the last frame is also the last piece. */
  lemma NoMoreFrames(pieces: seq<Piece>)
    requires EndsWithResponse(pieces) && pieces[0].Response? && |Frames(pieces)| == 1
    ensures |pieces| == 1 && Packed(Frames(pieces)[1..]) == []
  {
    if |pieces| > 1 { LaterFrame(pieces[1..]); }
  }

  lemma {:induction false} LaterFrame(pieces: seq<Piece>)
    requires EndsWithResponse(pieces)
    ensures Frames(pieces) != []
    decreases |pieces|
  {
    if !pieces[0].Response? { LaterFrame(pieces[1..]); }
  }

  lemma PlaceNone(slots: seq<Slot>, at: nat)
    requires at <= |slots|
    ensures Place(slots, at, []) == slots
  {
  }

  lemma HonestSplit(hash: Bytes -> U64, a: seq<Item>, b: seq<Item>)
    ensures Honest(hash, a + b) <==> Honest(hash, a) && Honest(hash, b)
    ensures Sized(a + b) ==> Sized(a) && Sized(b)
  {
    forall i | 0 <= i < |a| ensures (a + b)[i] == a[i] {}
    forall i | 0 <= i < |b| ensures (a + b)[|a| + i] == b[i] {}
  }

  lemma HonestNone(hash: Bytes -> U64)
    ensures Honest(hash, [])
  {
  }

  lemma SizedTail(q: seq<Item>)
    requires Sized(q) && q != []
    ensures Size(q[0]) < 0x1_0000_0000 && Sized(q[1..])
  {
  }

  lemma {:induction false} PlaceSplit(slots: seq<Slot>, at: nat, a: seq<Item>, b: seq<Item>)
    requires at + |a| + |b| <= |slots| && Sized(a) && Sized(b) && Sized(a + b)
    ensures Place(slots, at, a + b) == Place(Place(slots, at, a), at + |a|, b)
    decreases |a|
  {
    hide Sized, SlotOf;
    if a == [] {
      assert a + b == b;
    } else {
      SizedTail(a);
      SizedTail(a + b);
      assert (a + b)[1..] == a[1..] + b && (a + b)[0] == a[0];
      PlaceSplit(slots[at := SlotOf(a[0], slots[at])], at + 1, a[1..], b);
    }
  }

  /**
   * Splitting and reassembly are inverse: whatever keepalives are interleaved,
   * the client ends with the packed status of every key in its slot and the
   * packed bytes of every hit, and reads not one byte further. With verification
   * on it accepts exactly the responses whose blocks are what their sums say, and
   * calls every other one corrupt.
   */
  lemma SplitThenReassemble(crc: Bytes -> U32, hash: Bytes -> U64, verify: bool, pieces: seq<Piece>, slots: seq<Slot>, rest: Bytes, j: nat)
    requires var frames := Frames(pieces); Whole(frames, 0, |slots|) && Sized(Packed(frames))
    requires AllSendable(pieces, |slots|) && EndsWithResponse(pieces)
    ensures var reply := ReadGet(crc, hash, verify, |slots|, 0, Reader(slots, false, Stream(crc, pieces, |slots|) + rest));
      && (reply.Done? <==> (verify ==> Honest(hash, Packed(Frames(pieces)))))
      && (!reply.Done? ==> reply == Failed(Corrupt))
      && (reply.Done? ==>
            && reply.rest == rest && |Packed(Frames(pieces))| == |reply.slots| == |slots|
            && (j < |slots| ==> reply.slots[j] == SlotOf(Packed(Frames(pieces))[j], slots[j])))
  {
    hide ReadGet, Honest;
    var packed := Packed(Frames(pieces));
    WholeCovers(Frames(pieces), 0, |slots|);
    Reassembles(crc, hash, verify, |slots|, 0, pieces, slots, false, rest);
    if j < |slots| { PlaceAt(slots, 0, packed, j); }
  }

  // ---- server and client together ---------------------------------------------------------------------------

  function Nops(credits: seq<U32>): seq<Piece> { if credits == [] then [] else [Keepalive(credits[0])] + Nops(credits[1..]) }

  /** What the connection carries: each frame in its own envelope, after any number of keepalives. */
  function Woven(frames: seq<Frame>, e: nat -> Envelope, nops: nat -> seq<U32>, k: nat): seq<Piece>
    decreases |frames|
  {
    if frames == [] then [] else Nops(nops(k)) + [Response(frames[0], e(k))] + Woven(frames[1..], e, nops, k + 1)
  }

  lemma {:induction false} FramesConcat(a: seq<Piece>, b: seq<Piece>)
    ensures Frames(a + b) == Frames(a) + Frames(b)
    decreases |a|
  {
    if a == [] {
      assert a + b == b;
    } else {
      assert (a + b)[0] == a[0] && (a + b)[1..] == a[1..] + b;
      FramesConcat(a[1..], b);
    }
  }

  lemma {:induction false} NopsPlain(credits: seq<U32>)
    ensures Frames(Nops(credits)) == [] && forall i :: 0 <= i < |Nops(credits)| ==> !Nops(credits)[i].Response?
    decreases |credits|
  {
    if credits != [] {
      assert Nops(credits)[1..] == Nops(credits[1..]);
      NopsPlain(credits[1..]);
    }
  }

  lemma {:induction false} WovenCarries(frames: seq<Frame>, e: nat -> Envelope, nops: nat -> seq<U32>, k: nat, total: nat)
    requires forall i :: 0 <= i < |frames| ==> Sendable(frames[i], total)
    ensures var w := Woven(frames, e, nops, k);
      Frames(w) == frames && AllSendable(w, total) && (frames != [] ==> EndsWithResponse(w))
    decreases |frames|
  {
    hide Sendable;
    if frames != [] {
      var a, f, b := Nops(nops(k)), Response(frames[0], e(k)), Woven(frames[1..], e, nops, k + 1);
      NopsPlain(nops(k));
      WovenCarries(frames[1..], e, nops, k + 1, total);
      FramesConcat(a + [f], b);
      FramesConcat(a, [f]);
      assert Frames([f]) == [frames[0]] + Frames([f][1..]);
      assert frames == [frames[0]] + frames[1..];
    }
  }

  /** Tiles below the total, each within the client's cap, can be sent. */
  lemma {:induction false} TilesSendable(frames: seq<Frame>, from: nat, total: nat, maxFrame: nat)
    requires Whole(frames, from, total) && AllFit(frames, maxFrame) && maxFrame <= CLIENT_CAP && total < 0x1_0000_0000
    requires Sized(Packed(frames))
    ensures forall i :: 0 <= i < |frames| ==> Sendable(frames[i], total)
    decreases |frames|
  {
    hide FrameSize, Sized;
    HonestSplit((b: Bytes) => 0, frames[0].items, Packed(frames[1..]));
    if frames[0].more {
      forall k | 0 <= k < |frames| - 1 ensures FrameSize(frames[1..][k]) <= maxFrame { assert frames[1..][k] == frames[k + 1]; }
      TilesSendable(frames[1..], from + |frames[0].items|, total, maxFrame);
      forall i | 0 <= i < |frames| ensures Sendable(frames[i], total) {
        if i > 0 { assert frames[i] == frames[1..][i - 1]; }
      }
    }
  }

  /** The store's checksums are right. */
  ghost predicate TrueSums(hash: Bytes -> U64, answers: (nat, nat) -> Item) {
    forall j, n :: answers(j, n).Hit? ==> answers(j, n).sum == hash(answers(j, n).data)
  }

  /** The slot shows an answer the store gave for the key: its status, and its bytes if it was a hit. */
  ghost predicate ShowsAnswer(answers: (nat, nat) -> Item, j: nat, before: Slot, after: Slot) {
    exists n: nat :: Size(answers(j, n)) < 0x1_0000_0000 && after == SlotOf(answers(j, n), before)
  }

  lemma AnswersTravel(hash: Bytes -> U64, answers: (nat, nat) -> Item, maxBlob: nat, maxFrame: nat, items: seq<Item>)
    requires BlobsFit(answers, maxBlob, maxFrame) && maxFrame <= CLIENT_CAP && Answered(answers, items)
    ensures Sized(items) && (TrueSums(hash, answers) ==> Honest(hash, items))
  {
    forall i | 0 <= i < |items| ensures Size(items[i]) < 0x1_0000_0000 && (TrueSums(hash, answers) && items[i].Hit? ==> items[i].sum == hash(items[i].data)) {
      assert WasAnswered(answers, i, items[i]);
      var n: nat :| answers(i, n) == items[i];
      assert Size(answers(i, n)) <= maxBlob;
    }
  }

  /**
   * BATCH_GET end to end: what the server packs, sent with any keepalives between
   * the frames, leaves in every slot of the client an answer the store gave for
   * that key, and nothing unread.
   */
  method ServeAndRead(crc: Bytes -> U32, hash: Bytes -> U64, verify: bool, answers: (nat, nat) -> Item, maxFrame: nat, maxBlob: nat,
                      e: nat -> Envelope, nops: nat -> seq<U32>, into: array<Slot>) returns (reply: Reply)
    requires BlobsFit(answers, maxBlob, maxFrame) && maxFrame <= CLIENT_CAP && into.Length < 0x1_0000_0000
    requires verify ==> TrueSums(hash, answers)
    modifies into
    ensures reply.Done? && reply.rest == [] && into[..] == reply.slots
    ensures forall j :: 0 <= j < into.Length ==> ShowsAnswer(answers, j, old(into[j]), into[j])
  {
    hide BlobsFit, Tiles, Whole, Sized, Honest, TrueSums, Answered, ReadGet, Stream, Woven, Frames, AllSendable, Sendable, EndsWithResponse;
    var frames, asked, fates := Pack(into.Length, answers, maxFrame, maxBlob);
    assert Whole(frames, 0, into.Length) && Answered(answers, Packed(frames)) by { WholeResponse(answers, frames, into.Length); }
    AnswersTravel(hash, answers, maxBlob, maxFrame, Packed(frames));
    TilesSendable(frames, 0, into.Length, maxFrame);
    WovenCarries(frames, e, nops, 0, into.Length);
    var pieces := Woven(frames, e, nops, 0);
    ghost var slots := into[..];
    var stream := Stream(crc, pieces, into.Length);
    reply := ReadGetInto(crc, hash, verify, stream, into);
    assert stream + [] == stream;
    assert frames != [] by { WholeCovers(frames, 0, into.Length); }
    forall j | 0 <= j < into.Length
      ensures reply.Done? && reply.rest == [] && |reply.slots| == |slots| && ShowsAnswer(answers, j, slots[j], reply.slots[j])
    {
      SplitThenReassemble(crc, hash, verify, pieces, slots, [], j);
      AnswerShown(answers, Packed(frames), slots[j], j);
    }
    assert reply.Done? && reply.rest == [] by { SplitThenReassemble(crc, hash, verify, pieces, slots, [], 0); }
    assert forall j :: 0 <= j < into.Length ==> into[j] == into[..][j] && slots[j] == old(into[j]);
  }

  lemma WholeResponse(answers: (nat, nat) -> Item, frames: seq<Frame>, total: nat)
    requires total > 0 ==> Tiles(frames, 0, total) && Answered(answers, Packed(frames))
    requires total == 0 ==> frames == [Frame(0, [], false, [])]
    ensures Whole(frames, 0, total) && Answered(answers, Packed(frames))
  {
    if total == 0 { WholeCovers(frames, 0, 0); }
  }

  lemma AnswerShown(answers: (nat, nat) -> Item, items: seq<Item>, before: Slot, j: nat)
    requires Answered(answers, items) && Sized(items) && j < |items|
    ensures ShowsAnswer(answers, j, before, SlotOf(items[j], before))
  {
    assert WasAnswered(answers, j, items[j]);
  }
}
