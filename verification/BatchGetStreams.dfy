/**
 * What a BATCH_GET client may conclude from arbitrary bytes. A stream it accepts
 * is made of keepalives and responses to this very request, all but the last
 * response announcing another, which together speak of as many keys as were
 * asked for; and, with verification on, every block taken is what the sum in its
 * descriptor says.
 */
module BatchGetStreams {
  import opened Wire
  import opened Codecs
  import opened BatchGet
  import opened BatchGetClient

  /** A stretch of the stream: a keepalive with its payload, or a response with its table and the blocks that follow. */
  datatype Part = Skipped(h: Header, junk: Bytes)
                | Answer(h: Header, status: Byte, first: U32, descs: seq<Desc>, blocks: seq<Bytes>)

  function Joined(blocks: seq<Bytes>): Bytes { if blocks == [] then [] else blocks[0] + Joined(blocks[1..]) }

  /** A block for each served descriptor, of the length it names. */
  predicate Fits(descs: seq<Desc>, blocks: seq<Bytes>) {
    |blocks| == |descs| && forall i :: 0 <= i < |descs| ==> |blocks[i]| == if Success(descs[i].status) then descs[i].len else 0
  }

  /** Every served block hashes to its descriptor's sum. */
  predicate Sums(hash: Bytes -> U64, descs: seq<Desc>, blocks: seq<Bytes>)
    requires Fits(descs, blocks)
  {
    forall i :: 0 <= i < |descs| ==> Success(descs[i].status) ==> hash(blocks[i]) == descs[i].sum
  }

  function SlotFor(d: Desc, block: Bytes, before: Slot): Slot { Slot(d.status, if Success(d.status) then block else before.data) }

  /** The slots from at on, one for each descriptor. */
  function Placed(slots: seq<Slot>, at: nat, descs: seq<Desc>, blocks: seq<Bytes>): (r: seq<Slot>)
    requires at + |descs| <= |slots| && |blocks| == |descs|
    ensures |r| == |slots|
  {
    slots[..at] + seq(|descs|, i requires 0 <= i < |descs| => SlotFor(descs[i], blocks[i], slots[at + i])) + slots[at + |descs|..]
  }

  /** What serving a table took from the stream, whatever the stream is. */
  lemma {:induction false} FillTakes(hash: Bytes -> U64, verify: bool, descs: seq<Desc>, at: nat, r: Reader) returns (blocks: seq<Bytes>)
    requires at + |descs| <= |r.slots| && Fill(hash, verify, descs, at, r).Full?
    ensures Fits(descs, blocks)
    ensures var o := Fill(hash, verify, descs, at, r).reader;
      && r.rest == Joined(blocks) + o.rest && o.slots == Placed(r.slots, at, descs, blocks)
      && (o.bad <==> r.bad || (verify && !Sums(hash, descs, blocks)))
    decreases |descs|
  {
    if descs == [] {
      blocks := [];
      assert [] + r.rest == r.rest;
    } else {
      var d := descs[0];
      var block := if Success(d.status) then r.rest[..d.len] else [];
      var next := Reader(r.slots[at := SlotFor(d, block, r.slots[at])],
                         r.bad || (verify && Success(d.status) && hash(block) != d.sum), r.rest[|block|..]);
      assert Fill(hash, verify, descs, at, r) == Fill(hash, verify, descs[1..], at + 1, next);
      hide Fill;
      var more := FillTakes(hash, verify, descs[1..], at + 1, next);
      blocks := [block] + more;
      TakeOne(hash, verify, descs, at, r, block, more, next, Fill(hash, verify, descs, at, r).reader);
    }
  }

  lemma TakeOne(hash: Bytes -> U64, verify: bool, descs: seq<Desc>, at: nat, r: Reader, block: Bytes, more: seq<Bytes>, next: Reader, o: Reader)
    requires descs != [] && at + |descs| <= |r.slots| && |block| <= |r.rest| && block == r.rest[..|block|]
    requires |block| == if Success(descs[0].status) then descs[0].len else 0
    requires Fits(descs[1..], more)
    requires next == Reader(r.slots[at := SlotFor(descs[0], block, r.slots[at])],
                            r.bad || (verify && Success(descs[0].status) && hash(block) != descs[0].sum), r.rest[|block|..])
    requires next.rest == Joined(more) + o.rest && o.slots == Placed(next.slots, at + 1, descs[1..], more)
    requires o.bad <==> next.bad || (verify && !Sums(hash, descs[1..], more))
    ensures var blocks := [block] + more;
      && Fits(descs, blocks) && r.rest == Joined(blocks) + o.rest && o.slots == Placed(r.slots, at, descs, blocks)
      && (o.bad <==> r.bad || (verify && !Sums(hash, descs, blocks)))
  {
    var blocks := [block] + more;
    assert descs == [descs[0]] + descs[1..] && blocks[1..] == more;
    assert Fits(descs, blocks);
    assert r.rest == block + r.rest[|block|..];
    Assoc(block, Joined(more), o.rest);
    assert Sums(hash, descs, blocks) <==> (Success(descs[0].status) ==> hash(block) == descs[0].sum) && Sums(hash, descs[1..], more);
    PlacedOne(r.slots, at, descs, block, more);
  }

  lemma PlacedOne(slots: seq<Slot>, at: nat, descs: seq<Desc>, block: Bytes, more: seq<Bytes>)
    requires descs != [] && at + |descs| <= |slots| && |more| == |descs| - 1
    ensures Placed(slots[at := SlotFor(descs[0], block, slots[at])], at + 1, descs[1..], more) == Placed(slots, at, descs, [block] + more)
  {
  }

  // ---- the stream ---------------------------------------------------------------------------------------------

  /** The bytes of s are this part and then s'. */
  predicate Begins(crc: Bytes -> U32, n: nat, s: Bytes, part: Part, s': Bytes) {
    && |s| >= 64 && ParseHeader(crc, s, CLIENT_CAP) == Good(part.h)
    && match part
       case Skipped(h, junk) => h.opcode == OP_NOP && !Bit(h.flags, FLAG_FATAL) && |junk| == h.payloadLen && s[64..] == junk + s'
       case Answer(h, status, first, descs, blocks) =>
         && !(h.opcode == OP_NOP && !Bit(h.flags, FLAG_FATAL)) && h.payloadLen != 8
         && Success(status) && Fits(descs, blocks) && first + |descs| <= n < 0x1_0000_0000
         && |s| >= 80 + 16 * |descs| && DecodePreamble(s[64..]) == Ok(Preamble(status, |descs|)) && GetPair(s[72..]) == (first, n)
         && Descs(s[80..80 + 16 * |descs|], |descs|) == descs && s[80 + 16 * |descs|..] == Joined(blocks) + s'
  }

  /** The stream is made of these parts, and rest is what follows them. */
  ghost predicate Made(crc: Bytes -> U32, n: nat, s: Bytes, parts: seq<Part>, rest: Bytes)
    decreases |parts|
  {
    if parts == [] then s == rest
    else exists s' :: Begins(crc, n, s, parts[0], s') && Made(crc, n, s', parts[1..], rest)
  }

  function Keys(parts: seq<Part>): nat {
    if parts == [] then 0 else (if parts[0].Answer? then |parts[0].descs| else 0) + Keys(parts[1..])
  }

  predicate Announces(part: Part) { part.Answer? ==> Bit(part.h.flags, FLAG_MORE) }

  /** Every response but the last announces another, and nothing follows the last. */
  predicate Complete(parts: seq<Part>) {
    && parts != [] && parts[|parts| - 1].Answer? && !Announces(parts[|parts| - 1])
    && forall i :: 0 <= i < |parts| - 1 ==> Announces(parts[i])
  }

  predicate Verified(hash: Bytes -> U64, parts: seq<Part>) {
    forall i :: 0 <= i < |parts| ==> parts[i].Answer? ==> Fits(parts[i].descs, parts[i].blocks) && Sums(hash, parts[i].descs, parts[i].blocks)
  }

  predicate Answers(part: Part, n: nat) { part.Answer? ==> part.first + |part.descs| <= n && |part.blocks| == |part.descs| }

  /** The slots the parts leave, each response over the ones before it. */
  function Filled(slots: seq<Slot>, parts: seq<Part>): (r: seq<Slot>)
    requires forall i :: 0 <= i < |parts| ==> Answers(parts[i], |slots|)
    ensures |r| == |slots|
    decreases |parts|
  {
    if parts == [] then slots
    else
      assert Answers(parts[0], |slots|);
      var p := parts[0];
      Filled(if p.Answer? then Placed(slots, p.first, p.descs, p.blocks) else slots, parts[1..])
  }

  /** One turn of the loop on a response that was served in full. */
  lemma TurnTakes(hash: Bytes -> U64, verify: bool, n: nat, got: nat, h: Header, r: Reader) returns (part: Part, after: Reader)
    requires |r.slots| == n && var t := Turn(hash, verify, n, got, h, r); t.Go? || t.reply.Done?
    ensures part.Answer? && part.h == h && h.payloadLen != 8 && Answers(part, n) && Fits(part.descs, part.blocks) && n < 0x1_0000_0000
    ensures Success(part.status) && |r.rest| >= 16 + 16 * |part.descs| && DecodePreamble(r.rest) == Ok(Preamble(part.status, |part.descs|))
    ensures GetPair(r.rest[8..]) == (part.first, n) && Descs(r.rest[16..16 + 16 * |part.descs|], |part.descs|) == part.descs
    ensures r.rest[16 + 16 * |part.descs|..] == Joined(part.blocks) + after.rest
    ensures after.slots == Placed(r.slots, part.first, part.descs, part.blocks)
    ensures after.bad <==> r.bad || (verify && !Sums(hash, part.descs, part.blocks))
    ensures Turn(hash, verify, n, got, h, r) == if Bit(h.flags, FLAG_MORE) then Go(got + |part.descs|, after) else Stop(Done(after.slots, after.rest))
    ensures !Bit(h.flags, FLAG_MORE) ==> !after.bad && got + |part.descs| == n
  {
    hide Fill, Descs, GetPair, DecodePreamble, Bit, Success, Sums, Fits, Placed, Joined;
    var body := r.rest;
    var p := DecodePreamble(body).value;
    var (first, total) := GetPair(body[8..]);
    var descs := Descs(body[16..16 + 16 * p.count], p.count);
    var inner := r.(rest := body[16 + 16 * p.count..]);
    var blocks := FillTakes(hash, verify, descs, first, inner);
    part := Answer(h, p.status, first, descs, blocks);
    after := Fill(hash, verify, descs, first, inner).reader;
    assert |blocks| == |descs| by { FitsLength(descs, blocks); }
  }

  lemma FitsLength(descs: seq<Desc>, blocks: seq<Bytes>)
    requires Fits(descs, blocks)
    ensures |blocks| == |descs|
  {
  }

  /** What acceptance means, from any position of the reading loop. */
  ghost predicate Accepts(crc: Bytes -> U32, hash: Bytes -> U64, verify: bool, got: nat, r: Reader, parts: seq<Part>, slots: seq<Slot>, rest: Bytes) {
    && Made(crc, |r.slots|, r.rest, parts, rest) && Complete(parts) && got + Keys(parts) == |r.slots|
    && (forall i :: 0 <= i < |parts| ==> Answers(parts[i], |r.slots|)) && slots == Filled(r.slots, parts)
    && (verify ==> Verified(hash, parts)) && !r.bad
  }

  lemma {:induction false} DoneFrom(crc: Bytes -> U32, hash: Bytes -> U64, verify: bool, n: nat, got: nat, r: Reader) returns (parts: seq<Part>)
    requires |r.slots| == n && ReadGet(crc, hash, verify, n, got, r).Done?
    ensures var reply := ReadGet(crc, hash, verify, n, got, r); Accepts(crc, hash, verify, got, r, parts, reply.slots, reply.rest)
    decreases |r.rest|
  {
    hide ParseHeader, Turn, Bit, Accepts, Fits, Sums, Placed, Joined, Begins, Success, DecodePreamble, GetPair, Descs;
    var h, body := ParseHeader(crc, r.rest, CLIENT_CAP).header, r.rest[64..];
    var reply := ReadGet(crc, hash, verify, n, got, r);
    if h.opcode == OP_NOP && !Bit(h.flags, FLAG_FATAL) {
      var next := r.(rest := body[h.payloadLen..]);
      var more := DoneFrom(crc, hash, verify, n, got, next);
      parts := [Skipped(h, body[..h.payloadLen])] + more;
      SkipFirst(crc, hash, verify, got, r, h, more, reply.slots, reply.rest);
    } else {
      var part, after := TurnTakes(hash, verify, n, got, h, r.(rest := body));
      PartBegins(crc, n, r.rest, part, after.rest);
      if Bit(h.flags, FLAG_MORE) {
        var more := DoneFrom(crc, hash, verify, n, got + |part.descs|, after);
        parts := [part] + more;
        AnswerFirst(crc, hash, verify, got, r, part, after, more, reply.slots, reply.rest);
      } else {
        parts := [part];
        LastAnswer(crc, hash, verify, got, r, part, after);
      }
    }
  }

  lemma PartBegins(crc: Bytes -> U32, n: nat, s: Bytes, part: Part, s': Bytes)
    requires |s| >= 64 && ParseHeader(crc, s, CLIENT_CAP) == Good(part.h) && part.Answer? && !(part.h.opcode == OP_NOP && !Bit(part.h.flags, FLAG_FATAL))
    requires part.h.payloadLen != 8 && Success(part.status) && Fits(part.descs, part.blocks) && part.first + |part.descs| <= n < 0x1_0000_0000
    requires var body := s[64..];
      && |body| >= 16 + 16 * |part.descs| && DecodePreamble(body) == Ok(Preamble(part.status, |part.descs|)) && GetPair(body[8..]) == (part.first, n)
      && Descs(body[16..16 + 16 * |part.descs|], |part.descs|) == part.descs && body[16 + 16 * |part.descs|..] == Joined(part.blocks) + s'
    ensures Begins(crc, n, s, part, s')
  {
    hide ParseHeader, DecodePreamble, GetPair, Descs, Bit, Success, Fits;
    var body, c := s[64..], 16 * |part.descs|;
    assert body[8..] == s[72..] && body[16..16 + c] == s[80..80 + c] && body[16 + c..] == s[80 + c..];
  }

  lemma SkipFirst(crc: Bytes -> U32, hash: Bytes -> U64, verify: bool, got: nat, r: Reader, h: Header, more: seq<Part>, slots: seq<Slot>, rest: Bytes)
    requires |r.rest| >= 64 + h.payloadLen && ParseHeader(crc, r.rest, CLIENT_CAP) == Good(h) && h.opcode == OP_NOP && !Bit(h.flags, FLAG_FATAL)
    requires Accepts(crc, hash, verify, got, r.(rest := r.rest[64..][h.payloadLen..]), more, slots, rest)
    ensures Accepts(crc, hash, verify, got, r, [Skipped(h, r.rest[64..][..h.payloadLen])] + more, slots, rest)
  {
    hide ParseHeader, Bit, Placed;
    var body := r.rest[64..];
    var part := Skipped(h, body[..h.payloadLen]);
    assert body == body[..h.payloadLen] + body[h.payloadLen..];
    assert Begins(crc, |r.slots|, r.rest, part, body[h.payloadLen..]);
    hide Begins;
    assert ([part] + more)[1..] == more;
  }

  lemma AnswerFirst(crc: Bytes -> U32, hash: Bytes -> U64, verify: bool, got: nat, r: Reader, part: Part, after: Reader, more: seq<Part>,
                    slots: seq<Slot>, rest: Bytes)
    requires Begins(crc, |r.slots|, r.rest, part, after.rest) && part.Answer? && Answers(part, |r.slots|) && Fits(part.descs, part.blocks) && Announces(part)
    requires after.slots == Placed(r.slots, part.first, part.descs, part.blocks)
    requires after.bad <==> r.bad || (verify && !Sums(hash, part.descs, part.blocks))
    requires Accepts(crc, hash, verify, got + |part.descs|, after, more, slots, rest)
    ensures Accepts(crc, hash, verify, got, r, [part] + more, slots, rest)
  {
    hide Begins, Placed, Fits, Sums, Bit;
    assert ([part] + more)[1..] == more;
  }

  lemma LastAnswer(crc: Bytes -> U32, hash: Bytes -> U64, verify: bool, got: nat, r: Reader, part: Part, after: Reader)
    requires Begins(crc, |r.slots|, r.rest, part, after.rest) && part.Answer? && Answers(part, |r.slots|) && Fits(part.descs, part.blocks) && !Announces(part)
    requires after.slots == Placed(r.slots, part.first, part.descs, part.blocks) && got + |part.descs| == |r.slots|
    requires !r.bad && (verify ==> Sums(hash, part.descs, part.blocks))
    ensures Accepts(crc, hash, verify, got, r, [part], after.slots, after.rest)
  {
    hide Begins, Placed, Fits, Sums, Bit;
    var parts := [part];
    assert parts[1..] == [];
    assert Made(crc, |r.slots|, after.rest, [], after.rest);
    assert Keys(parts[1..]) == 0;
    assert Made(crc, |r.slots|, r.rest, parts, after.rest);
    assert Answers(parts[0], |r.slots|);
    assert Filled(r.slots, parts) == Filled(after.slots, parts[1..]) == after.slots;
  }

  /**
   * On any bytes at all: an accepted response is made of well-formed parts for
   * this request which speak of every key there is room for, the slots hold
   * exactly what those parts brought, and with verification on every block taken
   * hashes to its descriptor's sum.
   */
  lemma AcceptedIsSound(crc: Bytes -> U32, hash: Bytes -> U64, verify: bool, slots: seq<Slot>, stream: Bytes) returns (parts: seq<Part>)
    requires ReadGet(crc, hash, verify, |slots|, 0, Reader(slots, false, stream)).Done?
    ensures var reply := ReadGet(crc, hash, verify, |slots|, 0, Reader(slots, false, stream));
      && Made(crc, |slots|, stream, parts, reply.rest) && Complete(parts) && Keys(parts) == |slots|
      && (forall i :: 0 <= i < |parts| ==> Answers(parts[i], |slots|)) && reply.slots == Filled(slots, parts)
      && (verify ==> Verified(hash, parts))
  {
    hide ReadGet;
    parts := DoneFrom(crc, hash, verify, |slots|, 0, Reader(slots, false, stream));
  }

  // ---- and back -------------------------------------------------------------------------------------------------

  lemma {:induction false} FillGives(hash: Bytes -> U64, verify: bool, descs: seq<Desc>, at: nat, slots: seq<Slot>, bad: bool,
                                     blocks: seq<Bytes>, rest: Bytes)
    requires at + |descs| <= |slots| && Fits(descs, blocks)
    ensures Fill(hash, verify, descs, at, Reader(slots, bad, Joined(blocks) + rest))
            == Full(Reader(Placed(slots, at, descs, blocks), bad || (verify && !Sums(hash, descs, blocks)), rest))
    decreases |descs|
  {
    if descs == [] {
      assert Joined(blocks) + rest == rest;
    } else {
      var d, block, more := descs[0], blocks[0], blocks[1..];
      assert Fits(descs[1..], more);
      assert descs == [d] + descs[1..] && blocks == [block] + more;
      Assoc(block, Joined(more), rest);
      assert Sums(hash, descs, blocks) <==> (Success(d.status) ==> hash(block) == d.sum) && Sums(hash, descs[1..], more);
      hide Fill, Sums;
      FillOne(hash, verify, d, descs[1..], at, slots, bad, block, Joined(more) + rest);
      var spoiled := bad || (verify && Success(d.status) && hash(block) != d.sum);
      FillGives(hash, verify, descs[1..], at + 1, slots[at := SlotFor(d, block, slots[at])], spoiled, more, rest);
      PlacedOne(slots, at, descs, block, more);
    }
  }

  /** One turn of the loop on a well-formed response. */
  lemma TurnGives(crc: Bytes -> U32, hash: Bytes -> U64, verify: bool, got: nat, r: Reader, part: Part, s': Bytes)
    requires part.Answer? && Begins(crc, |r.slots|, r.rest, part, s')
    ensures var after := Reader(Placed(r.slots, part.first, part.descs, part.blocks), r.bad || (verify && !Sums(hash, part.descs, part.blocks)), s');
      ReadGet(crc, hash, verify, |r.slots|, got, r)
      == Continue(crc, hash, verify, |r.slots|, got + |part.descs|, Bit(part.h.flags, FLAG_MORE), after)
  {
    hide ParseHeader, Fill, GetPair, Descs, DecodePreamble, Bit, Success, Joined, Placed, Sums, Fits;
    FitsLength(part.descs, part.blocks);
    var body, c := r.rest[64..], 16 * |part.descs|;
    assert body[8..] == r.rest[72..] && body[16..16 + c] == r.rest[80..80 + c] && body[16 + c..] == r.rest[80 + c..];
    FillGives(hash, verify, part.descs, part.first, r.slots, r.bad, part.blocks, s');
  }

  lemma SkipGives(crc: Bytes -> U32, hash: Bytes -> U64, verify: bool, got: nat, r: Reader, part: Part, s': Bytes)
    requires part.Skipped? && Begins(crc, |r.slots|, r.rest, part, s')
    ensures ReadGet(crc, hash, verify, |r.slots|, got, r) == ReadGet(crc, hash, verify, |r.slots|, got, r.(rest := s'))
  {
    hide ParseHeader, Turn, Bit;
    Dropped(part.junk, s');
  }

  lemma VerifiedHead(hash: Bytes -> U64, parts: seq<Part>)
    requires parts != []
    ensures Verified(hash, parts) <==>
      (parts[0].Answer? ==> Fits(parts[0].descs, parts[0].blocks) && Sums(hash, parts[0].descs, parts[0].blocks)) && Verified(hash, parts[1..])
  {
    hide Fits, Sums;
    assert parts == [parts[0]] + parts[1..];
  }

  /** Any stream made of such parts is read to its end: corrupt if verification fails, short if keys are missing, else accepted. */
  lemma {:induction false} MadeIsRead(crc: Bytes -> U32, hash: Bytes -> U64, verify: bool, got: nat, r: Reader, parts: seq<Part>, rest: Bytes)
    requires Made(crc, |r.slots|, r.rest, parts, rest) && Complete(parts)
    requires forall i :: 0 <= i < |parts| ==> Answers(parts[i], |r.slots|)
    ensures ReadGet(crc, hash, verify, |r.slots|, got, r)
            == if r.bad || (verify && !Verified(hash, parts)) then Failed(Corrupt)
               else if got + Keys(parts) != |r.slots| then Failed(Short) else Done(Filled(r.slots, parts), rest)
    decreases |parts|
  {
    hide ReadGet, Begins, Placed, Sums, Fits, Bit, Verified;
    var part, more := parts[0], parts[1..];
    var s' :| Begins(crc, |r.slots|, r.rest, part, s') && Made(crc, |r.slots|, s', more, rest);
    VerifiedHead(hash, parts);
    assert Answers(part, |r.slots|);
    if part.Skipped? {
      SkipGives(crc, hash, verify, got, r, part, s');
      MadeIsRead(crc, hash, verify, got, r.(rest := s'), more, rest);
    } else {
      assert Fits(part.descs, part.blocks) by { BeginsFits(crc, |r.slots|, r.rest, part, s'); }
      TurnGives(crc, hash, verify, got, r, part, s');
      var after := Reader(Placed(r.slots, part.first, part.descs, part.blocks), r.bad || (verify && !Sums(hash, part.descs, part.blocks)), s');
      if |parts| == 1 {
        assert Keys(more) == 0 && Verified(hash, more) by { VerifiedNone(hash); }
      } else {
        MadeIsRead(crc, hash, verify, got + |part.descs|, after, more, rest);
      }
    }
  }

  lemma VerifiedNone(hash: Bytes -> U64)
    ensures Verified(hash, []) && Keys([]) == 0
  {
  }

  lemma BeginsFits(crc: Bytes -> U32, n: nat, s: Bytes, part: Part, s': Bytes)
    requires Begins(crc, n, s, part, s') && part.Answer?
    ensures Fits(part.descs, part.blocks)
  {
    hide ParseHeader, GetPair, Descs, DecodePreamble, Bit, Success, Joined, Fits;
  }

  /**
   * The bare preamble is the server's refusal, passed on with its status; a frame
   * of another request, or one that runs past the slots, ends the read. A
   * mismatch already seen outranks either.
   */
  lemma RefusedOrForeign(crc: Bytes -> U32, hash: Bytes -> U64, verify: bool, got: nat, r: Reader, h: Header)
    requires |r.rest| >= 80 && ParseHeader(crc, r.rest, CLIENT_CAP) == Good(h) && !(h.opcode == OP_NOP && !Bit(h.flags, FLAG_FATAL))
    ensures var reply, body := ReadGet(crc, hash, verify, |r.slots|, got, r), r.rest[64..];
      var p, pair := DecodePreamble(body).value, GetPair(body[8..]);
      && (h.payloadLen == 8 ==> reply == Failed(if r.bad then Corrupt else Declined(r.rest[64])))
      && (h.payloadLen != 8 && Success(p.status) && (pair.1 != |r.slots| || pair.0 + p.count > |r.slots|) ==>
            reply == Failed(if r.bad then Corrupt else Inconsistent))
      && (h.payloadLen != 8 && !Success(p.status) ==> reply == Failed(if r.bad then Corrupt else Violation))
  {
    hide ParseHeader, Fill, GetPair, Descs, DecodePreamble, Bit, Success;
  }
}
