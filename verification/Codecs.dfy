/**
 * The body codecs and the frame header. For each: what was encoded decodes to
 * itself, and on arbitrary bytes the decoder accepts exactly the lengths its
 * counts and the pad rule allow. Where nothing is reserved or padded, the two
 * directions are inverse on the nose.
 */
module Codecs {
  import opened Wire

  datatype Error = BodyLength | KeyCount | ShortHeader | BadMagic | BadVersion | BadCrc | PayloadTooLarge
  datatype Result<T> = Ok(value: T) | Err(error: Error)

  const OK: Byte := 0x00
  const OK_EXISTS: Byte := 0x01

  predicate Success(st: nat) { st == OK || st == OK_EXISTS }

  // ---- preamble ---------------------------------------------------------------------------------------

  const PREAMBLE: Layout := [1, 3, 4]

  datatype Preamble = Preamble(status: Byte, count: U32)

  function AppendPreamble(p: Preamble): (b: Bytes)
    ensures |b| == 8
  {
    Print(PREAMBLE, [p.status, 0, p.count])
  }

  function DecodePreamble(b: Bytes): (r: Result<Preamble>)
    ensures r.Ok? <==> |b| >= 8
    ensures r.Err? ==> r.error == BodyLength
  {
    if |b| < 8 then Err(BodyLength)
    else
      var v := Parse(PREAMBLE, b);
      PreambleFits(b);
      Ok(Preamble(v[0], v[2]))
  }

  lemma PreambleFits(b: Bytes)
    requires |b| >= 8
    ensures Total(PREAMBLE) == 8 && Parse(PREAMBLE, b)[0] < 0x100 && Parse(PREAMBLE, b)[2] < 0x1_0000_0000
  {
    Spans();
    FieldFits(PREAMBLE, b, 0);
    FieldFits(PREAMBLE, b, 2);
  }

  lemma PreambleRoundTrip(p: Preamble, rest: Bytes)
    ensures DecodePreamble(AppendPreamble(p) + rest) == Ok(p)
  {
    Spans();
    var v := [p.status, 0, p.count];
    assert Fits(PREAMBLE, v);
    ParsePrint(PREAMBLE, v, rest);
  }

  // ---- key list -----------------------------------------------------------------------------------------

  type Hash = b: Bytes | |b| == 32 witness Zeros(32)

  const PAIR: Layout := [4, 4]

  function PutPair(a: U32, b: U32): (r: Bytes)
    ensures |r| == 8
  {
    Print(PAIR, [a, b])
  }

  function GetPair(b: Bytes): (r: (U32, U32))
    requires |b| >= 8
  {
    PairFits(b);
    (Parse(PAIR, b)[0], Parse(PAIR, b)[1])
  }

  lemma PairFits(b: Bytes)
    requires |b| >= 8
    ensures Total(PAIR) == 8 && Parse(PAIR, b)[0] < 0x1_0000_0000 && Parse(PAIR, b)[1] < 0x1_0000_0000
  {
  }

  lemma PairRoundTrip(x: U32, y: U32, rest: Bytes)
    ensures GetPair(PutPair(x, y) + rest) == (x, y)
  {
    Spans();
    assert Fits(PAIR, [x, y]);
    ParsePrint(PAIR, [x, y], rest);
  }

  lemma PairExact(b: Bytes)
    requires |b| >= 8
    ensures PutPair(GetPair(b).0, GetPair(b).1) == b[..8]
  {
    ParsePrefix(PAIR, b);
    PrintParse(PAIR, b[..8]);
    var v := Parse(PAIR, b);
    assert v == [v[0], v[1]];
  }

  function Flat(keys: seq<Hash>): (b: Bytes)
    ensures |b| == 32 * |keys|
  {
    if keys == [] then [] else keys[0] + Flat(keys[1..])
  }

  function Cut(b: Bytes, n: nat): (keys: seq<Hash>)
    requires |b| == 32 * n
    ensures |keys| == n
  {
    if n == 0 then [] else [b[..32]] + Cut(b[32..], n - 1)
  }

  lemma {:induction false} CutFlat(keys: seq<Hash>)
    ensures Cut(Flat(keys), |keys|) == keys
    decreases |keys|
  {
    if keys != [] {
      CutFlat(keys[1..]);
      assert Flat(keys)[..32] == keys[0] && Flat(keys)[32..] == Flat(keys[1..]);
    }
  }

  lemma {:induction false} FlatCut(b: Bytes, n: nat)
    requires |b| == 32 * n
    ensures Flat(Cut(b, n)) == b
    decreases n
  {
    if n > 0 {
      FlatCut(b[32..], n - 1);
      assert Cut(b, n)[1..] == Cut(b[32..], n - 1);
      assert b == b[..32] + b[32..];
    } else {
      assert b == [];
    }
  }

  function AppendKeyList(aux: U32, keys: seq<Hash>): Bytes
    requires |keys| < 0x1_0000_0000
  {
    PutPair(|keys|, aux) + Flat(keys)
  }

  /** The count is checked before anything is read or allocated. */
  function DecodeKeyList(b: Bytes, maxKeys: U32): (r: Result<(U32, seq<Hash>)>)
    ensures r.Ok? <==> |b| >= 8 && GetPair(b).0 <= maxKeys && |b| == 8 + 32 * GetPair(b).0
    ensures r.Err? ==> (r.error == KeyCount <==> |b| >= 8 && GetPair(b).0 > maxKeys) && r.error in {KeyCount, BodyLength}
  {
    if |b| < 8 then Err(BodyLength)
    else
      var (n, aux) := GetPair(b);
      if n > maxKeys then Err(KeyCount)
      else if |b| != 8 + 32 * n then Err(BodyLength)
      else Ok((aux, Cut(b[8..], n)))
  }

  lemma KeyListRoundTrip(aux: U32, keys: seq<Hash>, maxKeys: U32)
    requires |keys| <= maxKeys
    ensures DecodeKeyList(AppendKeyList(aux, keys), maxKeys) == Ok((aux, keys))
  {
    PairRoundTrip(|keys|, aux, Flat(keys));
    assert AppendKeyList(aux, keys)[8..] == Flat(keys);
    CutFlat(keys);
  }

  /** An accepted body is the encoding of what was decoded: nothing is ignored, nothing is ambiguous. */
  lemma KeyListExact(b: Bytes, maxKeys: U32)
    requires DecodeKeyList(b, maxKeys).Ok?
    ensures var (aux, keys) := DecodeKeyList(b, maxKeys).value; AppendKeyList(aux, keys) == b
  {
    PairExact(b);
    FlatCut(b[8..], GetPair(b).0);
    assert b == b[..8] + b[8..];
  }

  // ---- per-key statuses -----------------------------------------------------------------------------------

  function AppendKeyStatusResp(perKey: Bytes): Bytes
    requires |perKey| < 0x1_0000_0000
  {
    AppendPreamble(Preamble(OK, |perKey|)) + Padded(perKey)
  }

  /** A failure is the bare preamble with count 0; a success is the statuses padded to 8. */
  function DecodeKeyStatusResp(b: Bytes): (r: Result<(Preamble, Bytes)>)
    ensures r.Ok? <==> |b| >= 8 && (var p := DecodePreamble(b).value;
      if Success(p.status) then |b| == 8 + PadTo8(p.count) else |b| == 8 && p.count == 0)
    ensures r.Ok? ==> |r.value.1| == r.value.0.count && r.value.0 == DecodePreamble(b).value
  {
    if |b| < 8 then Err(BodyLength)
    else
      var p := DecodePreamble(b).value;
      if !Success(p.status) then if |b| != 8 || p.count != 0 then Err(BodyLength) else Ok((p, []))
      else if |b| != 8 + PadTo8(p.count) then Err(BodyLength)
      else Ok((p, b[8..8 + p.count]))
  }

  lemma KeyStatusRoundTrip(perKey: Bytes)
    requires |perKey| < 0x1_0000_0000
    ensures DecodeKeyStatusResp(AppendKeyStatusResp(perKey)) == Ok((Preamble(OK, |perKey|), perKey))
  {
    PreambleRoundTrip(Preamble(OK, |perKey|), Padded(perKey));
    assert AppendKeyStatusResp(perKey)[8..8 + |perKey|] == Padded(perKey)[..|perKey|];
  }

  // ---- EXISTS -----------------------------------------------------------------------------------------------

  datatype Exists = Exists(preamble: Preamble, nConsecutive: U32, perKey: Bytes)

  function AppendExistsResp(nKeys: U32, nConsecutive: U32, bitmap: bool, perKey: Bytes): Bytes {
    AppendPreamble(Preamble(OK, nKeys)) + (PutPair(nConsecutive, 0) + if bitmap then Padded(perKey) else [])
  }

  function DecodeExistsResp(b: Bytes, expectBitmap: bool): (r: Result<Exists>)
    ensures r.Ok? <==> |b| >= 8 && (var p := DecodePreamble(b).value;
      if Success(p.status) then |b| == 16 + (if expectBitmap then PadTo8(p.count) else 0) else |b| == 8 && p.count == 0)
    ensures r.Ok? ==> |r.value.perKey| == if expectBitmap then r.value.preamble.count else 0
  {
    if |b| < 8 then Err(BodyLength)
    else
      var p := DecodePreamble(b).value;
      if !Success(p.status) then if |b| != 8 || p.count != 0 then Err(BodyLength) else Ok(Exists(p, 0, []))
      else if |b| != 16 + (if expectBitmap then PadTo8(p.count) else 0) then Err(BodyLength)
      else Ok(Exists(p, GetPair(b[8..]).0, if expectBitmap then b[16..16 + p.count] else []))
  }

  lemma ExistsRoundTrip(nKeys: U32, nConsecutive: U32, bitmap: bool, perKey: Bytes)
    requires bitmap ==> nKeys == |perKey|
    requires !bitmap ==> perKey == []
    ensures DecodeExistsResp(AppendExistsResp(nKeys, nConsecutive, bitmap, perKey), bitmap)
            == Ok(Exists(Preamble(OK, nKeys), nConsecutive, perKey))
  {
    var tail := if bitmap then Padded(perKey) else [];
    var pre, pair := AppendPreamble(Preamble(OK, nKeys)), PutPair(nConsecutive, 0);
    hide AppendPreamble, PutPair, DecodePreamble, GetPair, Padded;
    PreambleRoundTrip(Preamble(OK, nKeys), pair + tail);
    Dropped(pre, pair + tail);
    PairRoundTrip(nConsecutive, 0, tail);
    Dropped(pre + pair, tail);
    Assoc(pre, pair, tail);
    if bitmap { Middle(pre + pair, perKey, tail[|perKey|..]); assert tail == perKey + tail[|perKey|..]; }
  }

  // ---- GET header region --------------------------------------------------------------------------------------

  const DESC: Layout := [1, 3, 4, 8]

  datatype Desc = Desc(status: Byte, len: U32, sum: U64)

  lemma DescTotal()
    ensures Total(DESC) == 16
  {
  }

  function PutDesc(d: Desc): (b: Bytes)
    ensures |b| == 16
  {
    DescTotal();
    Print(DESC, [d.status, 0, d.len, d.sum])
  }

  function GetDesc(b: Bytes): Desc
    requires |b| >= 16
  {
    DescFits(b);
    var v := Parse(DESC, b);
    Desc(v[0], v[2], v[3])
  }

  lemma DescFits(b: Bytes)
    requires |b| >= 16
    ensures Total(DESC) == 16
    ensures var v := Parse(DESC, b); v[0] < 0x100 && v[2] < 0x1_0000_0000 && v[3] < 0x1_0000_0000_0000_0000
  {
    DescTotal();
    Spans();
    FieldFits(DESC, b, 0);
    FieldFits(DESC, b, 2);
    FieldFits(DESC, b, 3);
  }

  lemma DescRoundTrip(d: Desc, rest: Bytes)
    ensures GetDesc(PutDesc(d) + rest) == d
  {
    DescTotal();
    Spans();
    var v := [d.status, 0, d.len, d.sum];
    assert Fits(DESC, v);
    ParsePrint(DESC, v, rest);
  }

  /** The in-place form: the first 16 bytes of a caller's region, the rest untouched. */
  method WriteDesc(b: array<Byte>, d: Desc)
    requires b.Length >= 16
    modifies b
    ensures b[..16] == PutDesc(d) && b[16..] == old(b[16..])
  {
    var bytes := PutDesc(d);
    for i := 0 to 16
      invariant b[..i] == bytes[..i] && b[16..] == old(b[16..])
    {
      b[i] := bytes[i];
    }
  }

  function Table(descs: seq<Desc>): (b: Bytes)
    ensures |b| == 16 * |descs|
  {
    if descs == [] then [] else PutDesc(descs[0]) + Table(descs[1..])
  }

  function Descs(b: Bytes, n: nat): (descs: seq<Desc>)
    requires |b| == 16 * n
    ensures |descs| == n
  {
    if n == 0 then [] else [GetDesc(b)] + Descs(b[16..], n - 1)
  }

  lemma {:induction false} DescsTable(descs: seq<Desc>)
    ensures Descs(Table(descs), |descs|) == descs
    decreases |descs|
  {
    if descs != [] {
      DescRoundTrip(descs[0], Table(descs[1..]));
      assert Table(descs)[16..] == Table(descs[1..]);
      DescsTable(descs[1..]);
    }
  }

  datatype GetHeader = GetHeader(preamble: Preamble, firstIndex: U32, totalKeys: U32, descs: seq<Desc>)

  function GetRespHeaderSize(n: nat): nat { 16 + 16 * n }

  function AppendGetRespHeader(status: Byte, firstIndex: U32, totalKeys: U32, descs: seq<Desc>): (b: Bytes)
    requires |descs| < 0x1_0000_0000
    ensures |b| == GetRespHeaderSize(|descs|)
  {
    AppendPreamble(Preamble(status, |descs|)) + (PutPair(firstIndex, totalKeys) + Table(descs))
  }

  /** The header region at the start of a payload; block bytes may follow. */
  function DecodeGetRespHeader(b: Bytes): (r: Result<GetHeader>)
    ensures r.Ok? <==> |b| >= 8 && (var p := DecodePreamble(b).value;
      if Success(p.status) then |b| >= GetRespHeaderSize(p.count) else |b| == 8 && p.count == 0)
    ensures r.Ok? ==> r.value.preamble == DecodePreamble(b).value && |r.value.descs| == r.value.preamble.count
  {
    if |b| < 8 then Err(BodyLength)
    else
      var p := DecodePreamble(b).value;
      if !Success(p.status) then if |b| != 8 || p.count != 0 then Err(BodyLength) else Ok(GetHeader(p, 0, 0, []))
      else if |b| < GetRespHeaderSize(p.count) then Err(BodyLength)
      else
        var (first, total) := GetPair(b[8..]);
        Ok(GetHeader(p, first, total, Descs(b[16..16 + 16 * p.count], p.count)))
  }

  lemma GetRespRoundTrip(status: Byte, firstIndex: U32, totalKeys: U32, descs: seq<Desc>, payload: Bytes)
    requires Success(status) && |descs| < 0x1_0000_0000
    ensures DecodeGetRespHeader(AppendGetRespHeader(status, firstIndex, totalKeys, descs) + payload)
            == Ok(GetHeader(Preamble(status, |descs|), firstIndex, totalKeys, descs))
  {
    var b := AppendGetRespHeader(status, firstIndex, totalKeys, descs) + payload;
    var tail := PutPair(firstIndex, totalKeys) + (Table(descs) + payload);
    assert b == AppendPreamble(Preamble(status, |descs|)) + tail;
    PreambleRoundTrip(Preamble(status, |descs|), tail);
    assert b[8..] == tail;
    PairRoundTrip(firstIndex, totalKeys, Table(descs) + payload);
    assert b[16..16 + 16 * |descs|] == Table(descs);
    DescsTable(descs);
  }

  // ---- PUT bodies -----------------------------------------------------------------------------------------------

  const BEGIN: Layout := [4, 4, 8, 4, 4]

  datatype PutBegin = PutBegin(totalLen: U32, ttlMs: U32, hint: U64, flags: U32)

  lemma BeginTotal()
    ensures Total(BEGIN) == 24
  {
  }

  function AppendPutBegin(x: PutBegin): Bytes {
    BeginTotal();
    Print(BEGIN, [x.totalLen, x.ttlMs, x.hint, x.flags, 0])
  }

  function DecodePutBegin(b: Bytes): (r: Result<PutBegin>)
    ensures r.Ok? <==> |b| == 24
  {
    if |b| != 24 then Err(BodyLength)
    else
      BeginFits(b);
      var v := Parse(BEGIN, b);
      Ok(PutBegin(v[0], v[1], v[2], v[3]))
  }

  lemma BeginFits(b: Bytes)
    requires |b| == 24
    ensures Total(BEGIN) == 24
    ensures var v := Parse(BEGIN, b);
      v[0] < 0x1_0000_0000 && v[1] < 0x1_0000_0000 && v[2] < 0x1_0000_0000_0000_0000 && v[3] < 0x1_0000_0000
  {
    BeginTotal();
    Spans();
    FieldFits(BEGIN, b, 0);
    FieldFits(BEGIN, b, 1);
    FieldFits(BEGIN, b, 2);
    FieldFits(BEGIN, b, 3);
  }

  lemma PutBeginRoundTrip(x: PutBegin)
    ensures DecodePutBegin(AppendPutBegin(x)) == Ok(x)
  {
    BeginTotal();
    Spans();
    var v := [x.totalLen, x.ttlMs, x.hint, x.flags, 0];
    assert Fits(BEGIN, v);
    ParsePrint(BEGIN, v, []);
    var b := AppendPutBegin(x);
    assert b + [] == b && |b| == 24;
    assert Parse(BEGIN, b) == v;
    BeginFits(b);
    hide Print, Parse, Total, Fits;
  }

  function AppendPutCommit(sum: U64): Bytes { Put(sum, 8) }

  function DecodePutCommit(b: Bytes): (r: Result<U64>)
    ensures r.Ok? <==> |b| == 8
  {
    if |b| != 8 then Err(BodyLength) else
      Spans();
      Ok(Get(b))
  }

  lemma PutCommitBijective(sum: U64, b: Bytes)
    ensures DecodePutCommit(AppendPutCommit(sum)) == Ok(sum)
    ensures |b| == 8 ==> AppendPutCommit(DecodePutCommit(b).value) == b
  {
    Spans();
    GetPut(sum, 8);
    PutGet(b);
  }

  // ---- HELLO request ------------------------------------------------------------------------------------------------

  type Text = b: Bytes | |b| < 0x1_0000

  const HELLO_REQ: Layout := [1, 1, 2, 8] + [4, 4] + [8, 2, 2, 2] + [2]

  datatype HelloReq = HelloReq(protoMin: Byte, protoMax: Byte, features: U64, maxBatchKeys: U32, maxFrameLen: U32,
                               token: Text, namespace: Text, clientName: Text)

  lemma HelloReqTotal()
    ensures |HELLO_REQ| == 11 && Total(HELLO_REQ) == 36
  {
    TotalFour(1, 1, 2, 8);
    TotalFour(8, 2, 2, 2);
    assert Total([2]) == 2 + Total([2][1..]);
    TotalConcat([1, 1, 2, 8], [4, 4]);
    TotalConcat([1, 1, 2, 8] + [4, 4], [8, 2, 2, 2]);
    TotalConcat([1, 1, 2, 8] + [4, 4] + [8, 2, 2, 2], [2]);
  }

  function HelloReqFields(x: HelloReq): seq<nat> {
    [x.protoMin, x.protoMax, 0, x.features] + [x.maxBatchKeys, x.maxFrameLen] + [0, |x.token|, |x.namespace|, |x.clientName|] + [0]
  }

  lemma HelloReqFit(x: HelloReq)
    ensures Fits(HELLO_REQ, HelloReqFields(x))
  {
  }

  function AppendHelloReq(x: HelloReq): Bytes {
    HelloReqTotal();
    Padded(Print(HELLO_REQ, HelloReqFields(x)) + (x.token + (x.namespace + x.clientName)))
  }

  /** Accepted exactly when the three announced lengths, padded, are the body's length. */
  function DecodeHelloReq(b: Bytes): (r: Result<HelloReq>)
    ensures Total(HELLO_REQ) == 36
    ensures r.Ok? <==> |b| >= 36 && (var v := Parse(HELLO_REQ, b); |b| == PadTo8(36 + v[7] + v[8] + v[9]))
    ensures r.Err? ==> r.error == BodyLength
  {
    HelloReqTotal();
    if |b| < 36 then Err(BodyLength)
    else
      var v := Parse(HELLO_REQ, b);
      if |b| != PadTo8(36 + v[7] + v[8] + v[9]) then Err(BodyLength)
      else
        HelloReqFieldsFit(b);
        var t, n := 36 + v[7], 36 + v[7] + v[8];
        Ok(HelloReq(v[0], v[1], v[3], v[4], v[5], b[36..t], b[t..n], b[n..n + v[9]]))
  }

  lemma HelloReqFieldsFit(b: Bytes)
    requires |b| >= 36
    ensures Total(HELLO_REQ) == 36 && |HELLO_REQ| == 11
    ensures var v := Parse(HELLO_REQ, b);
      && v[0] < 0x100 && v[1] < 0x100 && v[3] < 0x1_0000_0000_0000_0000 && v[4] < 0x1_0000_0000 && v[5] < 0x1_0000_0000
      && v[7] < 0x1_0000 && v[8] < 0x1_0000 && v[9] < 0x1_0000
  {
    HelloReqTotal();
    Spans();
    forall i | 0 <= i < 11 ensures Parse(HELLO_REQ, b)[i] < Span(HELLO_REQ[i]) { FieldFits(HELLO_REQ, b, i); }
    var v := Parse(HELLO_REQ, b);
    assert v[0] < Span(HELLO_REQ[0]) && v[1] < Span(HELLO_REQ[1]) && v[3] < Span(HELLO_REQ[3]);
    assert v[4] < Span(HELLO_REQ[4]) && v[5] < Span(HELLO_REQ[5]) && v[7] < Span(HELLO_REQ[7]);
    assert v[8] < Span(HELLO_REQ[8]) && v[9] < Span(HELLO_REQ[9]);
  }

  /** Three strings behind a fixed part are where their lengths say. */
  lemma ThreeStrings(f: Bytes, s: Bytes, n: Bytes, c: Bytes, pad: Bytes)
    ensures var b := f + ((s + (n + c)) + pad);
      var i, j, k := |f| + |s|, |f| + |s| + |n|, |f| + |s| + |n| + |c|;
      |b| == k + |pad| && b[|f|..i] == s && b[i..j] == n && b[j..k] == c
  {
  }

  lemma HelloReqRoundTrip(x: HelloReq)
    ensures DecodeHelloReq(AppendHelloReq(x)) == Ok(x)
  {
    HelloReqTotal();
    HelloReqFit(x);
    var fixed, strings := Print(HELLO_REQ, HelloReqFields(x)), x.token + (x.namespace + x.clientName);
    var pad := Zeros(PadTo8(|fixed + strings|) - |fixed + strings|);
    Assoc(fixed, strings, pad);
    ParsePrint(HELLO_REQ, HelloReqFields(x), strings + pad);
    ThreeStrings(fixed, x.token, x.namespace, x.clientName, pad);
    hide Print, Parse, Zeros, Total;
  }

  // ---- HELLO response -----------------------------------------------------------------------------------------------

  const HELLO_RESP: Layout := [1, 3, 4, 1] + [3, 8, 4, 4] + [4, 4, 4, 4] + [4, 4, 2, 2]

  datatype Limits = Limits(maxBatchKeys: U32, maxFrameLen: U32, maxBlobLen: U32, initialCredit: U32)
  datatype HelloResp = HelloResp(proto: Byte, features: U64, limits: Limits, namespaceId: U32, leaseDefaultMs: U32,
                                 leaseMaxMs: U32, streamTimeoutMs: U32, serverName: Text)

  lemma HelloRespTotal()
    ensures |HELLO_RESP| == 16 && Total(HELLO_RESP) == 56
  {
    TotalFour(1, 3, 4, 1);
    TotalFour(3, 8, 4, 4);
    TotalFour(4, 4, 4, 4);
    TotalFour(4, 4, 2, 2);
    TotalConcat([1, 3, 4, 1], [3, 8, 4, 4]);
    TotalConcat([1, 3, 4, 1] + [3, 8, 4, 4], [4, 4, 4, 4]);
    TotalConcat([1, 3, 4, 1] + [3, 8, 4, 4] + [4, 4, 4, 4], [4, 4, 2, 2]);
  }

  function HelloRespFields(x: HelloResp): seq<nat> {
    [OK, 0, 0, x.proto] + [0, x.features, x.limits.maxBatchKeys, x.limits.maxFrameLen]
    + [x.limits.maxBlobLen, x.namespaceId, x.limits.initialCredit, x.leaseDefaultMs]
    + [x.leaseMaxMs, x.streamTimeoutMs, |x.serverName|, 0]
  }

  lemma HelloRespFit(x: HelloResp)
    ensures Fits(HELLO_RESP, HelloRespFields(x))
  {
  }

  function AppendHelloResp(x: HelloResp): Bytes {
    HelloRespTotal();
    Padded(Print(HELLO_RESP, HelloRespFields(x)) + x.serverName)
  }

  datatype HelloAnswer = Refused(preamble: Preamble) | Welcome(resp: HelloResp)

  /** Only OK carries a body; every other status is the bare preamble with count 0. */
  function DecodeHelloResp(b: Bytes): (r: Result<HelloAnswer>)
    ensures Total(HELLO_RESP) == 56
    ensures r.Ok? <==> |b| >= 8 && (var p := DecodePreamble(b).value;
      if p.status != OK then |b| == 8 && p.count == 0 else |b| >= 56 && |b| == PadTo8(56 + Parse(HELLO_RESP, b)[14]))
    ensures r.Ok? ==> (r.value.Refused? <==> DecodePreamble(b).value.status != OK)
  {
    HelloRespTotal();
    if |b| < 8 then Err(BodyLength)
    else
      var p := DecodePreamble(b).value;
      if p.status != OK then if |b| != 8 || p.count != 0 then Err(BodyLength) else Ok(Refused(p))
      else if |b| < 56 then Err(BodyLength)
      else
        var v := Parse(HELLO_RESP, b);
        if |b| != PadTo8(56 + v[14]) then Err(BodyLength)
        else
          HelloRespFieldsFit(b);
          Ok(Welcome(HelloResp(v[3], v[5], Limits(v[6], v[7], v[8], v[10]), v[9], v[11], v[12], v[13], b[56..56 + v[14]])))
  }

  lemma HelloRespFieldsFit(b: Bytes)
    requires |b| >= 56
    ensures Total(HELLO_RESP) == 56 && |HELLO_RESP| == 16
    ensures var v := Parse(HELLO_RESP, b);
      && v[3] < 0x100 && v[5] < 0x1_0000_0000_0000_0000 && v[14] < 0x1_0000
      && forall i :: 6 <= i < 14 ==> v[i] < 0x1_0000_0000
  {
    HelloRespTotal();
    Spans();
    var v := Parse(HELLO_RESP, b);
    FieldFits(HELLO_RESP, b, 3);
    FieldFits(HELLO_RESP, b, 5);
    FieldFits(HELLO_RESP, b, 14);
    forall i | 6 <= i < 14 ensures v[i] < 0x1_0000_0000 {
      FieldFits(HELLO_RESP, b, i);
      assert HELLO_RESP[i] == 4;
    }
  }

  lemma HelloRespRoundTrip(x: HelloResp)
    ensures DecodeHelloResp(AppendHelloResp(x)) == Ok(Welcome(x))
  {
    HelloRespTotal();
    HelloRespFit(x);
    var fixed := Print(HELLO_RESP, HelloRespFields(x));
    var b := AppendHelloResp(x);
    var pad := Zeros(PadTo8(|fixed + x.serverName|) - |fixed + x.serverName|);
    assert b == (fixed + x.serverName) + pad;
    Assoc(fixed, x.serverName, pad);
    ParsePrint(HELLO_RESP, HelloRespFields(x), x.serverName + pad);
    SamePreamble(b);
    hide Print, Parse, Padded, Zeros, HelloRespFields, DecodePreamble;
    Middle(fixed, x.serverName, pad);
    assert DecodePreamble(b).value.status == OK;
  }

  /** The response's first three fields are a preamble. */
  lemma SamePreamble(b: Bytes)
    requires |b| >= 56
    ensures Total(HELLO_RESP) == 56 && DecodePreamble(b).value.status == Parse(HELLO_RESP, b)[0]
  {
    HelloRespTotal();
  }

  // ---- negotiated limits --------------------------------------------------------------------------------------------

  const FLOOR_BATCH_KEYS: nat := 128
  const FLOOR_FRAME_LEN: nat := 16 * 0x10_0000

  function Proposed(proposal: U32, floor: U32, server: U32): U32 {
    var p := if proposal < floor then floor else proposal;
    if proposal != 0 && p < server then p else server
  }

  /** For every proposal: at most the server's own limits, never below the floors, and a block of the session's own limit fits one GET frame of the session. */
  function NegotiateLimits(server: Limits, batchKeys: U32, frameLen: U32): (l: Limits)
    requires server.maxBatchKeys >= FLOOR_BATCH_KEYS && server.maxFrameLen >= FLOOR_FRAME_LEN && server.maxBlobLen > 0
    ensures FLOOR_BATCH_KEYS <= l.maxBatchKeys <= server.maxBatchKeys && FLOOR_FRAME_LEN <= l.maxFrameLen <= server.maxFrameLen
    ensures 0 < l.maxBlobLen <= server.maxBlobLen && l.maxBlobLen + GetRespHeaderSize(1) <= l.maxFrameLen
    ensures l.initialCredit == server.initialCredit
    ensures batchKeys >= FLOOR_BATCH_KEYS ==> l.maxBatchKeys <= batchKeys
    ensures frameLen >= FLOOR_FRAME_LEN ==> l.maxFrameLen <= frameLen
    ensures batchKeys == 0 ==> l.maxBatchKeys == server.maxBatchKeys
    ensures frameLen == 0 ==> l.maxFrameLen == server.maxFrameLen
    ensures FLOOR_BATCH_KEYS <= batchKeys <= server.maxBatchKeys ==> l.maxBatchKeys == batchKeys
    ensures FLOOR_FRAME_LEN <= frameLen <= server.maxFrameLen ==> l.maxFrameLen == frameLen
    ensures 0 < batchKeys < FLOOR_BATCH_KEYS ==> l.maxBatchKeys == FLOOR_BATCH_KEYS
    ensures 0 < frameLen < FLOOR_FRAME_LEN ==> l.maxFrameLen == FLOOR_FRAME_LEN
    ensures l.maxBlobLen == server.maxBlobLen || l.maxBlobLen + GetRespHeaderSize(1) == l.maxFrameLen
  {
    var frame := Proposed(frameLen, FLOOR_FRAME_LEN, server.maxFrameLen);
    var room := frame - GetRespHeaderSize(1);
    Limits(Proposed(batchKeys, FLOOR_BATCH_KEYS, server.maxBatchKeys), frame,
           if server.maxBlobLen > room then room else server.maxBlobLen, server.initialCredit)
  }

  /** A block stored in one session can be too long for a GET frame of another - exactly when the server's limits are above the floor. */
  lemma BlobMayOutgrowFrame(server: Limits)
    requires server.maxBatchKeys >= FLOOR_BATCH_KEYS && server.maxFrameLen >= FLOOR_FRAME_LEN && server.maxBlobLen > 0
    ensures (exists other: U32 {:trigger NegotiateLimits(server, 0, other)} ::
               NegotiateLimits(server, 0, 0).maxBlobLen + GetRespHeaderSize(1) > NegotiateLimits(server, 0, other).maxFrameLen)
            <==> server.maxBlobLen + GetRespHeaderSize(1) > FLOOR_FRAME_LEN && server.maxFrameLen > FLOOR_FRAME_LEN
  {
    assert NegotiateLimits(server, 0, FLOOR_FRAME_LEN).maxFrameLen == FLOOR_FRAME_LEN || server.maxFrameLen == FLOOR_FRAME_LEN;
  }

  // ---- frame header -------------------------------------------------------------------------------------------------

  const MAGIC: U32 := 0x3142_564B
  const VERSION: Byte := 1
  const FRONT: Layout := [4, 1, 1, 2] + [4, 4] + [8]

  datatype Header = Header(opcode: Byte, flags: U16, namespaceId: U32, credit: U32, requestId: U64, key: Hash, payloadLen: U32)

  /** Not to be trusted at all; authentic but too large (so it can be skipped); or good. */
  datatype Parsed = Fatal(error: Error) | TooLarge(header: Header) | Good(header: Header)

  lemma FrontTotal()
    ensures |FRONT| == 7 && Total(FRONT) == 24
  {
    TotalFour(4, 1, 1, 2);
    assert Total([8]) == 8 + Total([8][1..]);
    TotalConcat([4, 1, 1, 2], [4, 4]);
    TotalConcat([4, 1, 1, 2] + [4, 4], [8]);
  }

  function FrontFields(h: Header): seq<nat> {
    [MAGIC, VERSION, h.opcode, h.flags] + [h.namespaceId, h.credit] + [h.requestId]
  }

  /** The 60 bytes the checksum covers. */
  function Covered(h: Header): (b: Bytes)
    ensures |b| == 60
  {
    FrontTotal();
    Print(FRONT, FrontFields(h)) + (h.key + Put(h.payloadLen, 4))
  }

  function MarshalHeader(crc: Bytes -> U32, h: Header): (b: Bytes)
    ensures |b| == 64
  {
    Covered(h) + Put(crc(Covered(h)), 4)
  }

  function HeaderOf(b: Bytes): (h: Header)
    requires |b| >= 64
  {
    FrontFit(b);
    Spans();
    var v := Parse(FRONT, b);
    Header(v[2], v[3], v[4], v[5], v[6], b[24..56], Get(b[56..60]))
  }

  lemma FrontFit(b: Bytes)
    requires |b| >= 24
    ensures Total(FRONT) == 24 && |FRONT| == 7
    ensures var v := Parse(FRONT, b);
      && v[0] < 0x1_0000_0000 && v[1] < 0x100 && v[2] < 0x100 && v[3] < 0x1_0000 && v[4] < 0x1_0000_0000
      && v[5] < 0x1_0000_0000 && v[6] < 0x1_0000_0000_0000_0000
  {
    FrontTotal();
    Spans();
    FieldFits(FRONT, b, 0);
    FieldFits(FRONT, b, 1);
    FieldFits(FRONT, b, 2);
    FieldFits(FRONT, b, 3);
    FieldFits(FRONT, b, 4);
    FieldFits(FRONT, b, 5);
    FieldFits(FRONT, b, 6);
  }

  /** Magic, version, checksum, then the cap; the length is trusted only once the checksum holds. */
  function ParseHeader(crc: Bytes -> U32, b: Bytes, maxPayload: U32): (r: Parsed)
    ensures Total(FRONT) == 24
    ensures r.Fatal? <==> |b| < 64 || Parse(FRONT, b)[0] != MAGIC || Parse(FRONT, b)[1] != VERSION || Get(b[60..64]) != crc(b[..60])
    ensures r.TooLarge? ==> r.header.payloadLen > maxPayload
    ensures r.Good? ==> r.header.payloadLen <= maxPayload
  {
    FrontTotal();
    if |b| < 64 then Fatal(ShortHeader)
    else
      var v := Parse(FRONT, b);
      if v[0] != MAGIC then Fatal(BadMagic)
      else if v[1] != VERSION then Fatal(BadVersion)
      else if Get(b[60..64]) != crc(b[..60]) then Fatal(BadCrc)
      else
        var h := HeaderOf(b);
        if h.payloadLen > maxPayload then TooLarge(h) else Good(h)
  }

  lemma FrontAt(h: Header)
    ensures var v := FrontFields(h);
      && |v| == 7 && v[0] == MAGIC && v[1] == VERSION && v[2] == h.opcode && v[3] == h.flags && v[4] == h.namespaceId
      && v[5] == h.credit && v[6] == h.requestId
  {
  }

  /** Seven fields with the magic and version in front are a header's. */
  lemma FrontIs(v: seq<nat>, h: Header)
    requires |v| == 7 && v[0] == MAGIC && v[1] == VERSION && v[2] == h.opcode && v[3] == h.flags && v[4] == h.namespaceId
    requires v[5] == h.credit && v[6] == h.requestId
    ensures v == FrontFields(h)
  {
  }

  lemma HeaderRoundTrip(crc: Bytes -> U32, h: Header, rest: Bytes, maxPayload: U32)
    ensures ParseHeader(crc, MarshalHeader(crc, h) + rest, maxPayload) == if h.payloadLen > maxPayload then TooLarge(h) else Good(h)
  {
    FrontTotal();
    Spans();
    var b := MarshalHeader(crc, h) + rest;
    var c := Covered(h);
    var tail := h.key + Put(h.payloadLen, 4) + Put(crc(c), 4) + rest;
    assert b == Print(FRONT, FrontFields(h)) + tail;
    ParsePrint(FRONT, FrontFields(h), tail);
    FrontAt(h);
    hide Print, Parse, FrontFields, Covered;
    assert b[..60] == c && b[60..64] == Put(crc(c), 4);
    assert b[24..56] == h.key && b[56..60] == Put(h.payloadLen, 4);
    GetPut(crc(c), 4);
    GetPut(h.payloadLen, 4);
    hide Get, Put;
    assert HeaderOf(b) == h;
  }

  /** A header that is not fatal is the marshalling of what was parsed: no two headers share their bytes. */
  lemma HeaderExact(crc: Bytes -> U32, b: Bytes, maxPayload: U32)
    requires |b| == 64 && !ParseHeader(crc, b, maxPayload).Fatal?
    ensures MarshalHeader(crc, ParseHeader(crc, b, maxPayload).header) == b
  {
    FrontTotal();
    var h := HeaderOf(b);
    CoveredExact(b);
    hide Parse, Covered, Get, Put;
    PutGet(b[60..64]);
    assert b[..60] + b[60..64] == b;
  }

  lemma FrontExact(b: Bytes)
    requires |b| >= 64 && Total(FRONT) == 24 && Parse(FRONT, b)[0] == MAGIC && Parse(FRONT, b)[1] == VERSION
    ensures |FRONT| == 7 && Print(FRONT, FrontFields(HeaderOf(b))) == b[..24]
  {
    FrontTotal();
    ParsePrefix(FRONT, b);
    PrintParse(FRONT, b[..24]);
    FrontIs(Parse(FRONT, b), HeaderOf(b));
  }

  lemma CoveredExact(b: Bytes)
    requires |b| >= 64 && Total(FRONT) == 24 && Parse(FRONT, b)[0] == MAGIC && Parse(FRONT, b)[1] == VERSION
    ensures Covered(HeaderOf(b)) == b[..60]
  {
    FrontExact(b);
    hide Print, Parse, FrontFields, Get, Put;
    PutGet(b[56..60]);
    Rejoined(b, 24, 56, 60);
  }

  /** The in-place form: the first 64 bytes of a caller's buffer, the rest untouched. */
  method MarshalTo(crc: Bytes -> U32, h: Header, b: array<Byte>)
    requires b.Length >= 64
    modifies b
    ensures b[..64] == MarshalHeader(crc, h) && b[64..] == old(b[64..])
  {
    var bytes := MarshalHeader(crc, h);
    for i := 0 to 64
      invariant b[..i] == bytes[..i] && b[64..] == old(b[64..])
    {
      b[i] := bytes[i];
    }
  }
}
