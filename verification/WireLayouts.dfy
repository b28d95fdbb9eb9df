/**
 * Where each field of the protocol sits, byte by byte. A round trip holds for any
 * layout both sides agree on; these say which one it is.
 */
module WireLayouts {
  import opened Wire
  import opened Codecs

  /** The starts of the first fields. */
  lemma Starts(ws: Layout)
    requires |ws| >= 4
    ensures Offset(ws, 0) == 0 && Offset(ws, 1) == ws[0] && Offset(ws, 2) == ws[0] + ws[1] && Offset(ws, 3) == ws[0] + ws[1] + ws[2]
    ensures Offset(ws, 4) == ws[0] + ws[1] + ws[2] + ws[3]
  {
    hide Offset;
    OffsetNext(ws, 0);
    OffsetNext(ws, 1);
    OffsetNext(ws, 2);
    OffsetNext(ws, 3);
  }

  lemma StartsAfter(ws: Layout, i: nat)
    requires i + 4 <= |ws|
    ensures var o := Offset(ws, i);
      && Offset(ws, i + 1) == o + ws[i] && Offset(ws, i + 2) == o + ws[i] + ws[i + 1]
      && Offset(ws, i + 3) == o + ws[i] + ws[i + 1] + ws[i + 2] && Offset(ws, i + 4) == o + ws[i] + ws[i + 1] + ws[i + 2] + ws[i + 3]
  {
    hide Offset;
    OffsetNext(ws, i);
    OffsetNext(ws, i + 1);
    OffsetNext(ws, i + 2);
    OffsetNext(ws, i + 3);
  }

  /** A field of a printed record that other bytes follow. */
  lemma FieldAt(ws: Layout, vs: seq<nat>, rest: Bytes, i: nat, o: nat)
    requires |ws| == |vs| && i < |ws| && Offset(ws, i) == o
    ensures o + ws[i] <= Total(ws) && (Print(ws, vs) + rest)[o..o + ws[i]] == Put(vs[i], ws[i])
  {
    PrintField(ws, vs, i);
    hide Print, Offset, Put;
    assert (Print(ws, vs) + rest)[o..o + ws[i]] == Print(ws, vs)[o..o + ws[i]];
  }

  lemma PutOne(v: Byte)
    ensures Put(v, 1) == [v]
  {
  }

  /** Magic, version, opcode, flags, namespace, credit, request, key, length, checksum of the first 60 bytes. */
  lemma HeaderLayout(crc: Bytes -> U32, h: Header)
    ensures var b := MarshalHeader(crc, h);
      && b[..4] == Put(MAGIC, 4) && b[4..5] == [VERSION] && b[5..6] == [h.opcode] && b[6..8] == Put(h.flags, 2)
      && b[8..12] == Put(h.namespaceId, 4) && b[12..16] == Put(h.credit, 4) && b[16..24] == Put(h.requestId, 8)
      && b[24..56] == h.key && b[56..60] == Put(h.payloadLen, 4) && b[60..64] == Put(crc(b[..60]), 4)
  {
    FrontTotal();
    FrontAt(h);
    var vs := FrontFields(h);
    var c := Covered(h);
    var len, sum := Put(h.payloadLen, 4), Put(crc(c), 4);
    var tail := (h.key + len) + sum;
    var b := MarshalHeader(crc, h);
    assert FRONT[0] == 4 && FRONT[1] == 1 && FRONT[2] == 1 && FRONT[3] == 2 && FRONT[4] == 4 && FRONT[5] == 4 && FRONT[6] == 8;
    Starts(FRONT);
    OffsetNext(FRONT, 4);
    OffsetNext(FRONT, 5);
    PutOne(VERSION);
    PutOne(h.opcode);
    assert b == Print(FRONT, vs) + tail by { Assoc(Print(FRONT, vs), h.key + len, sum); }
    hide Print, Offset, Put, FrontFields, Covered;
    FieldAt(FRONT, vs, tail, 0, 0);
    FieldAt(FRONT, vs, tail, 1, 4);
    FieldAt(FRONT, vs, tail, 2, 5);
    FieldAt(FRONT, vs, tail, 3, 6);
    FieldAt(FRONT, vs, tail, 4, 8);
    FieldAt(FRONT, vs, tail, 5, 12);
    FieldAt(FRONT, vs, tail, 6, 16);
    Assoc(h.key, len, sum);
    Middle(Print(FRONT, vs), h.key, len + sum);
    assert b == (Print(FRONT, vs) + h.key) + (len + sum);
    Middle(Print(FRONT, vs) + h.key, len, sum);
    assert b[..60] == c;
    assert b[60..64] == sum;
  }

  lemma PreambleLayout(p: Preamble)
    ensures var b := AppendPreamble(p); b[0..1] == [p.status] && b[1..4] == Put(0, 3) && b[4..8] == Put(p.count, 4)
  {
    var vs: seq<nat> := [p.status, 0, p.count];
    var b := AppendPreamble(p);
    assert b == Print(PREAMBLE, vs) + [];
    OffsetNext(PREAMBLE, 0);
    OffsetNext(PREAMBLE, 1);
    OffsetNext(PREAMBLE, 2);
    PutOne(p.status);
    hide Print, Offset, Put;
    FieldAt(PREAMBLE, vs, [], 0, 0);
    FieldAt(PREAMBLE, vs, [], 1, 1);
    FieldAt(PREAMBLE, vs, [], 2, 4);
  }

  /** Status, three reserved bytes, length, checksum. */
  lemma DescLayout(d: Desc)
    ensures var b := PutDesc(d); b[0..1] == [d.status] && b[1..4] == Put(0, 3) && b[4..8] == Put(d.len, 4) && b[8..16] == Put(d.sum, 8)
  {
    DescTotal();
    var vs: seq<nat> := [d.status, 0, d.len, d.sum];
    var b := PutDesc(d);
    assert b == Print(DESC, vs) + [];
    Starts(DESC);
    PutOne(d.status);
    hide Print, Offset, Put;
    FieldAt(DESC, vs, [], 0, 0);
    FieldAt(DESC, vs, [], 1, 1);
    FieldAt(DESC, vs, [], 2, 4);
    FieldAt(DESC, vs, [], 3, 8);
  }

  lemma PairLayout(x: U32, y: U32)
    ensures var b := PutPair(x, y); b[0..4] == Put(x, 4) && b[4..8] == Put(y, 4)
  {
    var vs: seq<nat> := [x, y];
    assert PutPair(x, y) == Print(PAIR, vs) + [];
    OffsetNext(PAIR, 0);
    OffsetNext(PAIR, 1);
    hide Print, Offset, Put;
    FieldAt(PAIR, vs, [], 0, 0);
    FieldAt(PAIR, vs, [], 1, 4);
  }

  /** Length, time to live, checksum hint, flags, four reserved bytes. */
  lemma PutBeginLayout(x: PutBegin)
    ensures var b := AppendPutBegin(x);
      && |b| == 24 && b[0..4] == Put(x.totalLen, 4) && b[4..8] == Put(x.ttlMs, 4) && b[8..16] == Put(x.hint, 8)
      && b[16..20] == Put(x.flags, 4) && b[20..24] == Put(0, 4)
  {
    BeginTotal();
    var vs: seq<nat> := [x.totalLen, x.ttlMs, x.hint, x.flags, 0];
    assert AppendPutBegin(x) == Print(BEGIN, vs) + [];
    Starts(BEGIN);
    hide Print, Offset, Put;
    FieldAt(BEGIN, vs, [], 0, 0);
    FieldAt(BEGIN, vs, [], 1, 4);
    FieldAt(BEGIN, vs, [], 2, 8);
    FieldAt(BEGIN, vs, [], 3, 16);
    FieldAt(BEGIN, vs, [], 4, 20);
  }

  /** Versions, features, proposals, the three lengths; then token, namespace and client name, padded to 8. */
  lemma HelloReqLayout(x: HelloReq)
    ensures var b := AppendHelloReq(x);
      && |b| >= 36 && b[0..1] == [x.protoMin] && b[1..2] == [x.protoMax] && b[4..12] == Put(x.features, 8)
      && b[12..16] == Put(x.maxBatchKeys, 4) && b[16..20] == Put(x.maxFrameLen, 4)
      && b[28..30] == Put(|x.token|, 2) && b[30..32] == Put(|x.namespace|, 2) && b[32..34] == Put(|x.clientName|, 2)
  {
    HelloReqTotal();
    var vs := HelloReqFields(x);
    var strings := x.token + (x.namespace + x.clientName);
    var fixed := Print(HELLO_REQ, vs);
    var pad := Zeros(PadTo8(|fixed + strings|) - |fixed + strings|);
    assert AppendHelloReq(x) == fixed + (strings + pad) by { Assoc(fixed, strings, pad); }
    HelloReqAt(x);
    Starts(HELLO_REQ);
    StartsAfter(HELLO_REQ, 4);
    OffsetNext(HELLO_REQ, 8);
    PutOne(x.protoMin);
    PutOne(x.protoMax);
    hide Print, Offset, Put, HelloReqFields, Zeros, AppendHelloReq;
    FieldAt(HELLO_REQ, vs, strings + pad, 0, 0);
    FieldAt(HELLO_REQ, vs, strings + pad, 1, 1);
    FieldAt(HELLO_REQ, vs, strings + pad, 3, 4);
    FieldAt(HELLO_REQ, vs, strings + pad, 4, 12);
    FieldAt(HELLO_REQ, vs, strings + pad, 5, 16);
    FieldAt(HELLO_REQ, vs, strings + pad, 7, 28);
    FieldAt(HELLO_REQ, vs, strings + pad, 8, 30);
    FieldAt(HELLO_REQ, vs, strings + pad, 9, 32);
  }

  lemma HelloReqAt(x: HelloReq)
    ensures var v, w := HelloReqFields(x), HELLO_REQ;
      && |v| == |w| == 11
      && v[0] == x.protoMin && v[1] == x.protoMax && v[3] == x.features && v[4] == x.maxBatchKeys && v[5] == x.maxFrameLen
      && v[7] == |x.token| && v[8] == |x.namespace| && v[9] == |x.clientName|
      && w[0] == 1 && w[1] == 1 && w[2] == 2 && w[3] == 8 && w[4] == 4 && w[5] == 4 && w[6] == 8 && w[7] == 2 && w[8] == 2 && w[9] == 2
  {
  }

  /** Status and count, version, features, the session's limits and times, the length of the server's name. */
  lemma HelloRespLayout(x: HelloResp)
    ensures var b, l := AppendHelloResp(x), x.limits;
      && |b| >= 56 && b[0..1] == [OK] && b[8..9] == [x.proto] && b[12..20] == Put(x.features, 8)
      && b[20..24] == Put(l.maxBatchKeys, 4) && b[24..28] == Put(l.maxFrameLen, 4) && b[28..32] == Put(l.maxBlobLen, 4)
      && b[32..36] == Put(x.namespaceId, 4) && b[36..40] == Put(l.initialCredit, 4) && b[40..44] == Put(x.leaseDefaultMs, 4)
      && b[44..48] == Put(x.leaseMaxMs, 4) && b[48..52] == Put(x.streamTimeoutMs, 4) && b[52..54] == Put(|x.serverName|, 2)
  {
    HelloRespTotal();
    var vs := HelloRespFields(x);
    var fixed := Print(HELLO_RESP, vs);
    var pad := Zeros(PadTo8(|fixed + x.serverName|) - |fixed + x.serverName|);
    var tail := x.serverName + pad;
    assert AppendHelloResp(x) == fixed + tail by { Assoc(fixed, x.serverName, pad); }
    HelloRespAt(x);
    Starts(HELLO_RESP);
    StartsAfter(HELLO_RESP, 4);
    StartsAfter(HELLO_RESP, 8);
    StartsAfter(HELLO_RESP, 12);
    PutOne(OK);
    PutOne(x.proto);
    hide Print, Offset, Put, HelloRespFields, Zeros, AppendHelloResp;
    FieldAt(HELLO_RESP, vs, tail, 0, 0);
    FieldAt(HELLO_RESP, vs, tail, 3, 8);
    FieldAt(HELLO_RESP, vs, tail, 5, 12);
    FieldAt(HELLO_RESP, vs, tail, 6, 20);
    FieldAt(HELLO_RESP, vs, tail, 7, 24);
    FieldAt(HELLO_RESP, vs, tail, 8, 28);
    FieldAt(HELLO_RESP, vs, tail, 9, 32);
    FieldAt(HELLO_RESP, vs, tail, 10, 36);
    FieldAt(HELLO_RESP, vs, tail, 11, 40);
    FieldAt(HELLO_RESP, vs, tail, 12, 44);
    FieldAt(HELLO_RESP, vs, tail, 13, 48);
    FieldAt(HELLO_RESP, vs, tail, 14, 52);
  }

  lemma HelloRespAt(x: HelloResp)
    ensures var v, w := HelloRespFields(x), HELLO_RESP;
      && |v| == |w| == 16 && v[0] == OK && v[3] == x.proto && v[5] == x.features && v[6] == x.limits.maxBatchKeys && v[7] == x.limits.maxFrameLen
      && v[8] == x.limits.maxBlobLen && v[9] == x.namespaceId && v[10] == x.limits.initialCredit && v[11] == x.leaseDefaultMs
      && v[12] == x.leaseMaxMs && v[13] == x.streamTimeoutMs && v[14] == |x.serverName|
      && w[0] == 1 && w[1] == 3 && w[2] == 4 && w[3] == 1 && w[4] == 3 && w[5] == 8 && w[14] == 2 && w[15] == 2
      && forall i :: 6 <= i < 14 ==> w[i] == 4
  {
  }
}
