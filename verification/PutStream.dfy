/**
 * One connection's PUT_STREAM sessions: staged chunks, three ways of hashing
 * them, and the ledgers that bound what a peer can pin. Every method holds the
 * stream lock from start to end (COMMIT validates a stream it has already taken
 * out of the table), so any interleaving of frames and reaper sweeps is a
 * sequence of these calls.
 */
module PutStream {
  import opened Sums

  type Id = nat
  type Bytes = seq<nat>

  const MAX_LIVE := 256
  const MAX_ENTRIES := 4 * MAX_LIVE
  const MAX_STAGED := 256 * 0x10_0000
  const CAP_FRAME := 0x4000_0000
  const TWO_32 := 0x1_0000_0000

  datatype Status = Ok | OkExists | ErrMalformed | ErrTooLarge | ErrQuotaBytes | ErrBusy | ErrStaleStream | ErrShortStream | ErrChecksum

  /** digest is the streaming hasher: what it has absorbed. */
  datatype Stream = Stream(
    key: nat, totalLen: nat, received: nat, buf: Bytes, digest: Option<Bytes>, oneShot: nat,
    tombstoned: bool, lastActive: int, tombstonedAt: int)

  /** What COMMIT hands to the store. */
  datatype Handed = Handed(key: nat, data: Bytes, sum: nat)

  function Concat(chunks: seq<Bytes>): Bytes { if chunks == [] then [] else Concat(chunks[..|chunks| - 1]) + chunks[|chunks| - 1] }

  /** Unsigned 32-bit addition wraps. */
  function Add32(a: nat, b: nat): nat { (a + b) % TWO_32 }

  function Live(): Stream -> int { (st: Stream) => if st.tombstoned then 0 else 1 }
  function Staged(): Stream -> int { (st: Stream) => |st.buf| }

  /**
   * A live stream's staging is the concatenation of the chunks accepted since
   * BEGIN, never longer than announced. Its hash state covers exactly the staging:
   * nothing yet, the one-shot hash of a block complete in one chunk, or a
   * streaming hasher that absorbed all of it. A tombstone holds nothing.
   */
  predicate StreamOk(st: Stream, chunks: seq<Bytes>, hash: Bytes -> nat, maxBlob: nat) {
    if st.tombstoned then st.buf == [] && st.digest.None?
    else
      && st.buf == Concat(chunks) && st.received == |st.buf| <= st.totalLen <= maxBlob
      && (st.digest.Some? ==> st.digest.value == st.buf && st.buf != [])
      && (st.digest.None? && st.buf != [] ==> st.received == st.totalLen && st.oneShot == hash(st.buf))
  }

  ghost predicate AllOk(m: map<Id, Stream>, a: map<Id, seq<Bytes>>, hash: Bytes -> nat, maxBlob: nat) {
    forall id :: id in m ==> id in a && StreamOk(m[id], a[id], hash, maxBlob)
  }

  ghost function LiveCount(m: map<Id, Stream>): int { Sum(m, Live()) }
  ghost function StagedTotal(m: map<Id, Stream>): int { Sum(m, Staged()) }

  lemma ConcatNone(chunks: seq<Bytes>)
    requires chunks == []
    ensures Concat(chunks) == []
  {
  }

  lemma {:induction false} ConcatPrefix(chunks: seq<Bytes>, i: nat)
    requires i < |chunks|
    ensures Concat(chunks[..i + 1]) == Concat(chunks[..i]) + chunks[i]
    ensures |Concat(chunks[..i])| + |chunks[i]| <= |Concat(chunks)|
    decreases |chunks|
  {
    assert chunks[..i + 1][..i] == chunks[..i];
    if i + 1 < |chunks| {
      var front := chunks[..|chunks| - 1];
      assert front[..i + 1] == chunks[..i + 1] && front[..i] == chunks[..i] && front[i] == chunks[i];
      ConcatPrefix(front, i);
    } else {
      assert chunks[..i + 1] == chunks;
    }
  }

  class Session {
    const hash: Bytes -> nat
    const maxBlob: nat
    const maxFrame: nat
    var streams: map<Id, Stream>
    var liveStreams: int
    var stagedBytes: int
    /** The chunks accepted for each stream since its BEGIN. */
    ghost var accepted: map<Id, seq<Bytes>>

    /** The ledgers are exact and within their caps. */
    ghost predicate Ledgers()
      reads this
    {
      && liveStreams == LiveCount(streams) && stagedBytes == StagedTotal(streams)
      && liveStreams <= MAX_LIVE && |streams| <= MAX_ENTRIES && stagedBytes <= MAX_STAGED
    }

    ghost predicate Valid()
      reads this
    {
      && maxBlob <= maxFrame <= CAP_FRAME
      && Ledgers()
      && AllOk(streams, accepted, hash, maxBlob)
    }

    constructor (hash: Bytes -> nat, maxBlob: nat, maxFrame: nat)
      requires maxBlob <= maxFrame <= CAP_FRAME
      ensures Valid() && streams == map[] && this.hash == hash && this.maxBlob == maxBlob && this.maxFrame == maxFrame
    {
      this.hash, this.maxBlob, this.maxFrame := hash, maxBlob, maxFrame;
      streams, liveStreams, stagedBytes, accepted := map[], 0, 0, map[];
    }

    /** BEGIN. A rejected one inserts nothing; a lingering tombstone is replaced. */
    method PutBegin(id: Id, key: nat, totalLen: nat, isSealed: bool, quotaOk: bool, now: int) returns (st: Status)
      requires Valid()
      modifies this
      ensures Valid()
      ensures st == if id in old(streams) && !old(streams[id].tombstoned) then ErrMalformed
                    else if isSealed then OkExists
                    else if totalLen > maxBlob then ErrTooLarge
                    else if !quotaOk then ErrQuotaBytes
                    else if old(liveStreams) >= MAX_LIVE || |old(streams)| >= MAX_ENTRIES then ErrBusy
                    else Ok
      ensures st != Ok ==> unchanged(this)
      ensures st == Ok ==> streams == old(streams)[id := Stream(key, totalLen, 0, [], None, 0, false, now, 0)]
                           && accepted == old(accepted)[id := []]
      ensures stagedBytes == old(stagedBytes) && liveStreams == old(liveStreams) + if st == Ok then 1 else 0
    {
      hide AllOk, LiveCount, StagedTotal;
      if id in streams && !streams[id].tombstoned { return ErrMalformed; }
      if isSealed { return OkExists; }
      if totalLen > maxBlob { return ErrTooLarge; }
      if !quotaOk { return ErrQuotaBytes; }
      if liveStreams >= MAX_LIVE || |streams| >= MAX_ENTRIES { return ErrBusy; }
      var fresh_ := Stream(key, totalLen, 0, [], None, 0, false, now, 0);
      SetShift(streams, id, fresh_);
      AllOkSet(streams, accepted, hash, maxBlob, id, fresh_, []);
      if id in streams { AllOkAt(streams, accepted, hash, maxBlob, id); }
      liveStreams := liveStreams + 1;
      streams := streams[id := fresh_];
      accepted := accepted[id := []];
      return Ok;
    }

    /** Drop what a live stream holds; only the id lingers. */
    function Tombstone(st: Stream, now: int): Stream { st.(buf := [], digest := None, tombstoned := true, tombstonedAt := now) }

    method TombstoneLive(id: Id, now: int)
      requires Valid() && id in streams && !streams[id].tombstoned
      modifies `streams, `liveStreams, `stagedBytes
      ensures Valid() && streams == old(streams)[id := Tombstone(old(streams[id]), now)]
      ensures liveStreams == old(liveStreams) - 1 && stagedBytes == old(stagedBytes) - |old(streams[id].buf)|
    {
      hide AllOk, LiveCount, StagedTotal;
      var st := streams[id];
      AllOkAt(streams, accepted, hash, maxBlob, id);
      SetShift(streams, id, Tombstone(st, now));
      AllOkSet(streams, accepted, hash, maxBlob, id, Tombstone(st, now), accepted[id]);
      assert accepted[id := accepted[id]] == accepted;
      stagedBytes := stagedBytes - |st.buf|;
      liveStreams := liveStreams - 1;
      streams := streams[id := Tombstone(st, now)];
    }

    /** The chunk is taken: a live stream, not empty, within the announced length and the connection's staging. */
    predicate Takes(id: Id, body: Bytes)
      reads this
    {
      && id in streams && !streams[id].tombstoned && body != []
      && streams[id].received + |body| <= streams[id].totalLen && stagedBytes + |body| <= MAX_STAGED
    }

    /** How the next bytes change the hash state. */
    function Absorb(st: Stream, body: Bytes, now: int): Stream {
      var buf := st.buf + body;
      var r := st.(buf := buf, received := st.received + |body|, lastActive := now);
      if st.digest.Some? then r.(digest := Some(st.digest.value + body))
      else if st.received + |body| == st.totalLen then r.(oneShot := hash(buf))
      else r.(digest := Some(buf))
    }

    lemma AbsorbOk(st: Stream, chunks: seq<Bytes>, body: Bytes, now: int)
      requires StreamOk(st, chunks, hash, maxBlob) && !st.tombstoned && body != [] && st.received + |body| <= st.totalLen
      ensures StreamOk(Absorb(st, body, now), chunks + [body], hash, maxBlob)
    {
    }

    /** CHUNK: taken, ignored, or the stream is tombstoned because it would overflow its length or the staging cap. */
    method PutChunk(id: Id, body: Bytes, now: int)
      requires Valid() && |body| <= maxFrame
      modifies this
      ensures Valid()
      ensures old(Takes(id, body)) ==>
        && streams == old(streams)[id := Absorb(old(streams[id]), body, now)]
        && accepted == old(accepted)[id := old(accepted[id]) + [body]]
      ensures !old(Takes(id, body)) ==>
        && accepted == old(accepted)
        && streams == if id in old(streams) && !old(streams[id].tombstoned) && body != []
                      then old(streams)[id := Tombstone(old(streams[id]), now)] else old(streams)
      ensures id in old(streams) && !old(streams[id].tombstoned) && body != [] ==>
        var st, fits := old(streams[id]), old(streams[id].received) + |body| <= old(streams[id].totalLen)
                                          && old(stagedBytes) + |body| <= MAX_STAGED;
        && id in streams && (streams[id].tombstoned <==> !fits)
        && (fits ==> streams[id].buf == st.buf + body && streams[id].lastActive == now && stagedBytes == old(stagedBytes) + |body|)
        && (!fits ==> streams[id].tombstonedAt == now && stagedBytes == old(stagedBytes) - |st.buf|)
        && streams[id].key == st.key && streams[id].totalLen == st.totalLen
    {
      hide AllOk, LiveCount, StagedTotal;
      if id !in streams || streams[id].tombstoned { return; }
      if |body| == 0 { return; }
      var st := streams[id];
      AllOkAt(streams, accepted, hash, maxBlob, id);
      NoWrap(st.received, |body|);
      if Add32(st.received, |body|) > st.totalLen {
        TombstoneLive(id, now);
        return;
      }
      if stagedBytes + |body| > MAX_STAGED {
        TombstoneLive(id, now);
        return;
      }
      var next := Absorb(st, body, now);
      AbsorbOk(st, accepted[id], body, now);
      SetShift(streams, id, next);
      AllOkSet(streams, accepted, hash, maxBlob, id, next, accepted[id] + [body]);
      stagedBytes := stagedBytes + |body|;
      streams := streams[id := next];
      accepted := accepted[id := accepted[id] + [body]];
    }

    /** Every live stream's staging fits 30 bits and so does a frame, so the 32-bit sum never wraps. */
    lemma NoWrap(received: nat, n: nat)
      requires received <= maxBlob <= maxFrame <= CAP_FRAME && n <= maxFrame
      ensures Add32(received, n) == received + n
    {
    }

    /** The sum the three paths arrive at: streaming, one-shot, or the empty input's. */
    function Digest(st: Stream): nat {
      if st.digest.Some? then hash(st.digest.value) else if st.received > 0 then st.oneShot else hash([])
    }

    /**
     * COMMIT. If anything is handed to the store it is exactly the chunks
     * accepted since BEGIN, in order, of the announced length, with the committed
     * hash; and it is handed over whenever that is so.
     */
    method PutCommit(id: Id, sum: nat, storeSays: Status) returns (st: Status, put: Option<Handed>)
      requires Valid()
      modifies this
      ensures Valid() && streams == old(streams) - {id} && accepted == old(accepted)
      ensures st == if id !in old(streams) || old(streams[id].tombstoned) then ErrStaleStream
                    else if |Concat(old(accepted[id]))| != old(streams[id].totalLen) then ErrShortStream
                    else if hash(Concat(old(accepted[id]))) != sum then ErrChecksum
                    else if storeSays == ErrQuotaBytes then ErrBusy else storeSays
      ensures put.Some? <==> id in old(streams) && !old(streams[id].tombstoned)
                             && |Concat(old(accepted[id]))| == old(streams[id].totalLen) && hash(Concat(old(accepted[id]))) == sum
      ensures put.Some? ==> put.value == Handed(old(streams[id].key), Concat(old(accepted[id])), sum)
    {
      hide AllOk, LiveCount, StagedTotal, Concat;
      if id !in streams || streams[id].tombstoned {
        if id in streams { TakeOut(id); }
        assert streams == old(streams) - {id};
        return ErrStaleStream, None;
      }
      var s := streams[id];
      AllOkAt(streams, accepted, hash, maxBlob, id);
      TakeOut(id);
      if s.received != s.totalLen { return ErrShortStream, None; }
      DigestIsHash(s, accepted[id]);
      if Digest(s) != sum { return ErrChecksum, None; }
      st := if storeSays == ErrQuotaBytes then ErrBusy else storeSays;
      put := Some(Handed(s.key, s.buf, sum));
    }

    /**
     * A whole PUT with nobody else in between: BEGIN, the chunks, COMMIT. A block
     * that keeps to its announced length and finds room reaches the store as the
     * concatenation of its chunks, whatever the chunking.
     */
    method PutWhole(id: Id, key: nat, chunks: seq<Bytes>, now: int, storeSays: Status) returns (begun: Status, st: Status, put: Option<Handed>)
      requires Valid() && (id in streams ==> streams[id].tombstoned)
      requires forall i :: 0 <= i < |chunks| ==> chunks[i] != [] && |chunks[i]| <= maxFrame
      requires |Concat(chunks)| <= maxBlob && stagedBytes + |Concat(chunks)| <= MAX_STAGED
      requires liveStreams < MAX_LIVE && |streams| < MAX_ENTRIES
      modifies this
      ensures Valid() && begun == Ok && st == if storeSays == ErrQuotaBytes then ErrBusy else storeSays
      ensures put == Some(Handed(key, Concat(chunks), hash(Concat(chunks)))) && streams == old(streams) - {id}
    {
      hide Valid, Concat;
      var block := Concat(chunks);
      begun := PutBegin(id, key, |block|, false, true, now);
      PutChunks(id, chunks, now);
      st, put := PutCommit(id, hash(block), storeSays);
      assert streams == old(streams) - {id};
    }

    /** The chunks of a stream that has just begun and has room for them. */
    method PutChunks(id: Id, chunks: seq<Bytes>, now: int)
      requires Valid() && id in streams && id in accepted && !streams[id].tombstoned && streams[id].received == 0 && accepted[id] == []
      requires forall i :: 0 <= i < |chunks| ==> chunks[i] != [] && |chunks[i]| <= maxFrame
      requires |Concat(chunks)| <= streams[id].totalLen && stagedBytes + |Concat(chunks)| <= MAX_STAGED
      modifies this
      ensures Valid() && id in streams && id in accepted && streams == old(streams)[id := streams[id]] && accepted[id] == chunks
      ensures !streams[id].tombstoned && streams[id].totalLen == old(streams[id].totalLen) && streams[id].key == old(streams[id].key)
    {
      hide Valid, Concat, Tombstone;
      assert Concat(chunks[..0]) == [] by { ConcatNone(chunks[..0]); }
      for i := 0 to |chunks|
        invariant Valid() && id in streams && id in accepted && streams == old(streams)[id := streams[id]]
        invariant !streams[id].tombstoned && streams[id].totalLen == old(streams[id].totalLen) && streams[id].key == old(streams[id].key)
        invariant accepted[id] == chunks[..i] && streams[id].received == |Concat(chunks[..i])|
        invariant stagedBytes == old(stagedBytes) + |Concat(chunks[..i])|
      {
        ConcatPrefix(chunks, i);
        PutChunk(id, chunks[i], now);
        assert chunks[..i] + [chunks[i]] == chunks[..i + 1];
      }
      assert chunks[..|chunks|] == chunks;
    }

    /** Take a stream out of the table, and its share out of the ledgers. */
    method TakeOut(id: Id)
      requires Valid() && id in streams
      modifies `streams, `liveStreams, `stagedBytes
      ensures Valid() && streams == old(streams) - {id}
    {
      hide AllOk, LiveCount, StagedTotal, StreamOk;
      var s := streams[id];
      SetShift(streams, id, s);
      AllOkDrop(streams, accepted, hash, maxBlob, id);
      streams := streams - {id};
      stagedBytes := stagedBytes - |s.buf|;
      if !s.tombstoned { liveStreams := liveStreams - 1; }
    }

    /** Whichever path ran, the sum is the hash of the whole staging. */
    lemma DigestIsHash(st: Stream, chunks: seq<Bytes>)
      requires StreamOk(st, chunks, hash, maxBlob) && !st.tombstoned && st.received == st.totalLen
      ensures Digest(st) == hash(Concat(chunks))
    {
    }

    method PutAbort(id: Id) returns (st: Status)
      requires Valid()
      modifies this
      ensures Valid() && streams == old(streams) - {id} && accepted == old(accepted)
      ensures st == if id in old(streams) && !old(streams[id].tombstoned) then Ok else ErrStaleStream
    {
      hide AllOk, LiveCount, StagedTotal, StreamOk;
      if id !in streams {
        assert streams == old(streams) - {id};
        return ErrStaleStream;
      }
      st := if streams[id].tombstoned then ErrStaleStream else Ok;
      TakeOut(id);
    }

    /** What one reaper pass leaves of a stream: nothing, a tombstone, or the stream. */
    predicate Reaped(st: Stream, now: int, timeout: int) { st.tombstoned && now - st.tombstonedAt > timeout }
    predicate Idle(st: Stream, now: int, timeout: int) { !st.tombstoned && now - st.lastActive > timeout }

    /** The reaper: idle streams become tombstones, old tombstones go. */
    method Sweep(now: int, timeout: int)
      requires Valid()
      modifies `streams, `liveStreams, `stagedBytes
      ensures Valid()
      ensures forall id :: id in streams <==> id in old(streams) && !Reaped(old(streams)[id], now, timeout)
      ensures forall id :: id in streams ==>
        streams[id] == if Idle(old(streams)[id], now, timeout) then Tombstone(old(streams)[id], now) else old(streams)[id]
      ensures forall id :: id in old(streams) && !old(streams)[id].tombstoned ==>
        id in streams && (streams[id].tombstoned <==> now - old(streams)[id].lastActive > timeout)
      ensures forall id :: id in old(streams) && old(streams)[id].tombstoned ==>
        (id in streams <==> now - old(streams)[id].tombstonedAt <= timeout)
    {
      hide AllOk, LiveCount, StagedTotal, StreamOk;
      ghost var was := streams;
      var rest: set<Id> := streams.Keys;
      while rest != {}
        invariant Valid() && rest <= was.Keys
        invariant forall id :: id in rest ==> id in streams && streams[id] == was[id]
        invariant forall id :: id !in rest ==> (id in streams <==> id in was && !Reaped(was[id], now, timeout))
        invariant forall id :: id !in rest && id in streams ==>
          streams[id] == if Idle(was[id], now, timeout) then Tombstone(was[id], now) else was[id]
        decreases rest
      {
        NonEmpty(rest);
        var id :| id in rest;
        rest := rest - {id};
        if streams[id].tombstoned {
          if now - streams[id].tombstonedAt > timeout { TakeOut(id); }
        } else if now - streams[id].lastActive > timeout {
          TombstoneLive(id, now);
        }
      }
    }
  }

  lemma Shift(m: map<Id, Stream>, id: Id, st: Stream, f: Stream -> int)
    ensures Sum(m[id := st], f) == Sum(m, f) + f(st) - (if id in m then f(m[id]) else 0)
    ensures Sum(m - {id}, f) == Sum(m, f) - (if id in m then f(m[id]) else 0)
  {
    if id in m {
      SumUpdate(m, id, st, f);
      SumPick(m, id, f);
    } else {
      SumInsert(m, id, st, f);
      assert m - {id} == m;
    }
  }

  /** What replacing, adding or deleting one stream does to the two ledgers. */
  lemma SetShift(m: map<Id, Stream>, id: Id, st: Stream)
    ensures LiveCount(m[id := st]) == LiveCount(m) + (if st.tombstoned then 0 else 1) - (if id in m && !m[id].tombstoned then 1 else 0)
    ensures StagedTotal(m[id := st]) == StagedTotal(m) + |st.buf| - (if id in m then |m[id].buf| else 0)
    ensures LiveCount(m - {id}) == LiveCount(m) - (if id in m && !m[id].tombstoned then 1 else 0)
    ensures StagedTotal(m - {id}) == StagedTotal(m) - (if id in m then |m[id].buf| else 0)
  {
    Shift(m, id, st, Live());
    Shift(m, id, st, Staged());
  }

  lemma AllOkSet(m: map<Id, Stream>, a: map<Id, seq<Bytes>>, hash: Bytes -> nat, maxBlob: nat, id: Id, st: Stream, c: seq<Bytes>)
    requires AllOk(m, a, hash, maxBlob) && StreamOk(st, c, hash, maxBlob)
    ensures AllOk(m[id := st], a[id := c], hash, maxBlob)
  {
  }

  lemma AllOkAt(m: map<Id, Stream>, a: map<Id, seq<Bytes>>, hash: Bytes -> nat, maxBlob: nat, id: Id)
    requires AllOk(m, a, hash, maxBlob) && id in m
    ensures id in a && StreamOk(m[id], a[id], hash, maxBlob)
  {
  }

  lemma AllOkDrop(m: map<Id, Stream>, a: map<Id, seq<Bytes>>, hash: Bytes -> nat, maxBlob: nat, id: Id)
    requires AllOk(m, a, hash, maxBlob)
    ensures AllOk(m - {id}, a, hash, maxBlob)
  {
  }
}
