/**
 * BATCH_GET end to end. The server packs answers into frames no larger than the
 * negotiated limit; a block that does not fit is given back and fetched again
 * for the next frame, where the store may answer differently. The client reads
 * the connection's bytes and puts every key's status and block back in its slot.
 */
module BatchGet {
  import opened Wire
  import opened Codecs

  const OP_NOP: Byte := 0x00
  const OP_GET: Byte := 0x03
  const FLAG_RESP: nat := 1
  const FLAG_MORE: nat := 2
  const FLAG_FATAL: nat := 4
  const NOT_FOUND: Byte := 0x10
  const ERR_BUSY: Byte := 0x34

  /** The frame cap the client parses responses with. */
  const CLIENT_CAP: U32 := 256 * 0x10_0000

  /** What the store answers for one key. Only a hit comes with bytes and a reference to give back. */
  datatype Item = Hit(data: Bytes, sum: U64) | Busy | Miss

  function Size(x: Item): nat { if x.Hit? then |x.data| else 0 }

  /** first: index of the first key; holds: the fetches whose references ride on this frame. */
  datatype Frame = Frame(first: nat, items: seq<Item>, more: bool, holds: seq<nat>)

  function PayloadSize(items: seq<Item>): nat { if items == [] then 0 else PayloadSize(items[..|items| - 1]) + Size(items[|items| - 1]) }

  function FrameSize(f: Frame): nat { GetRespHeaderSize(|f.items|) + PayloadSize(f.items) }

  /** Frames in order cover [from, total): each at least one key, and exactly the last without the more flag. */
  predicate Tiles(frames: seq<Frame>, from: nat, total: nat)
    decreases |frames|
  {
    && frames != [] && frames[0].first == from && frames[0].items != [] && from + |frames[0].items| <= total
    && (frames[0].more <==> from + |frames[0].items| < total)
    && (if frames[0].more then Tiles(frames[1..], from + |frames[0].items|, total) else |frames| == 1)
  }

  /** What was packed, key by key. */
  function Packed(frames: seq<Frame>): seq<Item> { if frames == [] then [] else frames[0].items + Packed(frames[1..]) }

  lemma {:induction false} TilesCover(frames: seq<Frame>, from: nat, total: nat)
    requires Tiles(frames, from, total)
    ensures |Packed(frames)| == total - from
    decreases |frames|
  {
    if frames[0].more {
      TilesCover(frames[1..], from + |frames[0].items|, total);
    } else {
      assert frames[1..] == [];
    }
  }

  // ---- the server -----------------------------------------------------------------------------------------

  /** Where the reference of one fetch went. */
  datatype Fate = NoRef | GivenBack | Rides(frame: nat)

  /** Fetch n's fate is right: no reference without a hit, and a hit's is given back or rides exactly one frame. */
  predicate FateOk(hit: bool, fate: Fate, n: nat, frames: seq<Frame>) {
    && (fate.NoRef? <==> !hit)
    && (fate.Rides? ==> fate.frame < |frames|)
    && forall k :: 0 <= k < |frames| ==> (n in frames[k].holds <==> fate == Rides(k))
  }

  predicate Increasing(s: seq<nat>) { forall i, j :: 0 <= i < j < |s| ==> s[i] < s[j] }

  lemma IncreasingSnoc(s: seq<nat>, n: nat)
    requires Increasing(s) && forall h :: h in s ==> h < n
    ensures Increasing(s + [n])
  {
    forall i, j | 0 <= i < j < |s + [n]| ensures (s + [n])[i] < (s + [n])[j] {
      if j == |s| { assert s[i] in s; }
    }
  }

  function FateOf(x: Item, packed: bool, k: nat): Fate { if !x.Hit? then NoRef else if packed then Rides(k) else GivenBack }

  /** The items are the answers to fetches start, start + 1, ... for keys i, i + 1, ... */
  ghost predicate FilledItems(items: seq<Item>, fates: seq<Fate>, answers: (nat, nat) -> Item, i: nat, start: nat, k: nat) {
    && |fates| == |items|
    && (forall m :: 0 <= m < |items| ==> items[m] == answers(i + m, start + m) && fates[m] == FateOf(items[m], true, k))
  }

  /** Every hit's reference is held, once. */
  ghost predicate FilledHolds(fates: seq<Fate>, holds: seq<nat>, start: nat) {
    Increasing(holds) && (forall n :: n in holds <==> start <= n < start + |fates| && fates[n - start].Rides?)
  }

  ghost predicate Filled(items: seq<Item>, fates: seq<Fate>, holds: seq<nat>, answers: (nat, nat) -> Item, i: nat, start: nat, k: nat) {
    FilledItems(items, fates, answers, i, start, k) && FilledHolds(fates, holds, start)
  }

  lemma HoldsSnoc(fates: seq<Fate>, holds: seq<nat>, start: nat, fate: Fate, hs: seq<nat>)
    requires FilledHolds(fates, holds, start) && hs == if fate.Rides? then holds + [start + |fates|] else holds
    ensures FilledHolds(fates + [fate], hs, start)
  {
    var fs := fates + [fate];
    if fate.Rides? { IncreasingSnoc(holds, start + |fates|); }
    forall n: nat ensures n in hs <==> start <= n < start + |fs| && fs[n - start].Rides? {
      if start <= n < start + |fates| { assert fs[n - start] == fates[n - start]; }
    }
  }

  lemma FilledSnoc(items: seq<Item>, fates: seq<Fate>, holds: seq<nat>, answers: (nat, nat) -> Item, i: nat, start: nat, k: nat, x: Item, hs: seq<nat>)
    requires Filled(items, fates, holds, answers, i, start, k) && x == answers(i + |items|, start + |items|)
    requires hs == if x.Hit? then holds + [start + |items|] else holds
    ensures Filled(items + [x], fates + [FateOf(x, true, k)], hs, answers, i, start, k)
    ensures PayloadSize(items + [x]) == PayloadSize(items) + Size(x)
  {
    HoldsSnoc(fates, holds, start, FateOf(x, true, k), hs);
    assert (items + [x])[..|items|] == items;
  }

  /**
   * Fill one frame from key i on, fetching as it goes; at least one key goes in.
   * A block that would overflow the frame is given back at once.
   */
  method PackFrame(i: nat, total: nat, start: nat, answers: (nat, nat) -> Item, maxFrame: nat, k: nat)
    returns (f: Frame, fates: seq<Fate>)
    requires i < total
    ensures f.first == i && f.items != [] && i + |f.items| <= total && (f.more <==> i + |f.items| < total)
    ensures |fates| == |f.items| + (if f.more then 1 else 0)
    ensures Filled(f.items, fates[..|f.items|], f.holds, answers, i, start, k)
    ensures f.more ==> var x := answers(i + |f.items|, start + |f.items|);
      fates[|f.items|] == FateOf(x, false, k) && GetRespHeaderSize(|f.items| + 1) + PayloadSize(f.items) + Size(x) > maxFrame
    ensures |f.items| > 1 ==> FrameSize(f) <= maxFrame
  {
    hide Filled;
    var items: seq<Item>, holds: seq<nat> := [], [];
    fates := [];
    var payload := 0;
    assert Filled(items, fates, holds, answers, i, start, k) by { FilledEmpty(answers, i, start, k); }
    var j := i;
    while j < total
      invariant i <= j <= total && |items| == |fates| == j - i && payload == PayloadSize(items)
      invariant Filled(items, fates, holds, answers, i, start, k)
      invariant |items| > 1 ==> GetRespHeaderSize(|items|) + payload <= maxFrame
    {
      var x := answers(j, start + |items|);
      var blen := Size(x);
      var projected := GetRespHeaderSize(|items| + 1) + payload + blen;
      if |items| > 0 && projected > maxFrame {
        f := Frame(i, items, true, holds);
        assert (fates + [FateOf(x, false, k)])[..|items|] == fates;
        return f, fates + [FateOf(x, false, k)];
      }
      ghost var held := holds;
      if x.Hit? { holds := holds + [start + |items|]; }
      FilledSnoc(items, fates, held, answers, i, start, k, x, holds);
      items := items + [x];
      fates := fates + [FateOf(x, true, k)];
      payload := payload + blen;
      j := j + 1;
    }
    f := Frame(i, items, false, holds);
    assert fates[..|items|] == fates;
  }

  lemma FilledEmpty(answers: (nat, nat) -> Item, i: nat, start: nat, k: nat)
    ensures Filled([], [], [], answers, i, start, k)
  {
  }

  /** Every frame is as PackFrame leaves it, with the fetches numbered on. */
  ghost predicate AllFates(answers: (nat, nat) -> Item, asked: seq<nat>, fates: seq<Fate>, frames: seq<Frame>) {
    && |asked| == |fates|
    && (forall n :: 0 <= n < |fates| ==> FateOk(answers(asked[n], n).Hit?, fates[n], n, frames))
    && (forall k :: 0 <= k < |frames| ==> Increasing(frames[k].holds) && forall n :: n in frames[k].holds ==> n < |fates|)
  }

  /** The store gave this answer for the key, on some fetch. */
  ghost predicate WasAnswered(answers: (nat, nat) -> Item, key: nat, x: Item) { exists n: nat :: answers(key, n) == x }

  ghost predicate Answered(answers: (nat, nat) -> Item, items: seq<Item>) {
    forall j :: 0 <= j < |items| ==> WasAnswered(answers, j, items[j])
  }

  /** The keys n consecutive fetches were for. */
  function Asked(first: nat, n: nat): (r: seq<nat>)
    ensures |r| == n && forall j :: 0 <= j < n ==> r[j] == first + j
  {
    seq(n, j requires 0 <= j => first + j)
  }

  ghost predicate BlobsFit(answers: (nat, nat) -> Item, maxBlob: nat, maxFrame: nat) {
    (forall j, n :: Size(answers(j, n)) <= maxBlob) && maxBlob + GetRespHeaderSize(1) <= maxFrame
  }

  ghost predicate AllFit(frames: seq<Frame>, maxFrame: nat) { forall k :: 0 <= k < |frames| ==> FrameSize(frames[k]) <= maxFrame }

  /** One block, too long to share any frame of that length with its own descriptor. */
  predicate Oversized(f: Frame, maxFrame: nat) { |f.items| == 1 && Size(f.items[0]) + GetRespHeaderSize(1) > maxFrame }

  /** A frame exceeds the limit exactly when it is one oversized block. */
  ghost predicate ExactFit(frames: seq<Frame>, maxFrame: nat) {
    forall k :: 0 <= k < |frames| ==> (FrameSize(frames[k]) > maxFrame <==> Oversized(frames[k], maxFrame))
  }

  lemma LoneSize(f: Frame)
    requires |f.items| == 1
    ensures FrameSize(f) == GetRespHeaderSize(1) + Size(f.items[0])
  {
    SingleSize(f.items);
  }

  /** What holds after the frames for the first i keys. */
  ghost predicate SoFar(answers: (nat, nat) -> Item, frames: seq<Frame>, asked: seq<nat>, fates: seq<Fate>, i: nat, total: nat) {
    && (if i == 0 then frames == [] else Partial(frames, 0, i, total))
    && |Packed(frames)| == i && Answered(answers, Packed(frames))
    && AllFates(answers, asked, fates, frames)
  }

  lemma SoFarGrows(answers: (nat, nat) -> Item, frames: seq<Frame>, asked: seq<nat>, fates: seq<Fate>, i: nat, total: nat, f: Frame, more: seq<Fate>)
    requires SoFar(answers, frames, asked, fates, i, total) && i < total
    requires f.first == i && f.items != [] && i + |f.items| <= total && (f.more <==> i + |f.items| < total)
    requires |more| == |f.items| + (if f.more then 1 else 0)
    requires Filled(f.items, more[..|f.items|], f.holds, answers, i, |fates|, |frames|)
    requires f.more ==> more[|f.items|] == FateOf(answers(i + |f.items|, |fates| + |f.items|), false, |frames|)
    ensures SoFar(answers, frames + [f], asked + Asked(i, |more|), fates + more, i + |f.items|, total)
  {
    PackedSnoc(frames, f);
    PartialSnoc(frames, i, total, f);
  }

  /**
   * The whole response. The frames tile the request in order; each carries what
   * the store answered for its keys; a frame exceeds the limit exactly when it is
   * one block that does not fit beside its descriptor, so none does if no answer
   * is that long; and every reference taken was given back at once or rides
   * exactly one frame.
   */
  method Pack(total: nat, answers: (nat, nat) -> Item, maxFrame: nat, maxBlob: nat)
    returns (frames: seq<Frame>, ghost asked: seq<nat>, ghost fates: seq<Fate>)
    ensures total > 0 ==> Tiles(frames, 0, total) && Answered(answers, Packed(frames))
    ensures total == 0 ==> frames == [Frame(0, [], false, [])]
    ensures AllFates(answers, asked, fates, frames)
    ensures total > 0 ==> ExactFit(frames, maxFrame)
    ensures BlobsFit(answers, maxBlob, maxFrame) ==> AllFit(frames, maxFrame)
  {
    hide SoFar, Filled, BlobsFit, AllFates, Answered, Tiles;
    asked, fates := [], [];
    if total == 0 {
      frames := [Frame(0, [], false, [])];
      assert AllFates(answers, asked, fates, frames) && (BlobsFit(answers, maxBlob, maxFrame) ==> AllFit(frames, maxFrame)) by {
        EmptyResponse(answers, maxBlob, maxFrame);
      }
      return;
    }
    frames := [];
    var i, fetched := 0, 0;
    Beginning(answers, total);
    while i < total
      invariant i <= total && fetched == |fates| && SoFar(answers, frames, asked, fates, i, total)
      invariant BlobsFit(answers, maxBlob, maxFrame) ==> AllFit(frames, maxFrame)
      invariant ExactFit(frames, maxFrame)
    {
      var f, more := PackFrame(i, total, fetched, answers, maxFrame, |frames|);
      SoFarGrows(answers, frames, asked, fates, i, total, f, more);
      if |f.items| == 1 {
        LoneSize(f);
        LoneFits(answers, maxBlob, maxFrame, f, more, i, fetched, |frames|);
      }
      asked := asked + Asked(i, |more|);
      fates := fates + more;
      fetched := fetched + |more|;
      frames := frames + [f];
      i := i + |f.items|;
    }
    Complete(answers, frames, asked, fates, total);
  }

  /** A block stored over a connection with a larger frame: the frame that carries it exceeds the limit. */
  method OversizedFrame(maxFrame: nat) returns (frames: seq<Frame>)
    requires maxFrame >= GetRespHeaderSize(1)
    ensures |frames| == 1 && FrameSize(frames[0]) == maxFrame + 1
  {
    var block := Zeros(maxFrame + 1 - GetRespHeaderSize(1));
    var answers := (j: nat, n: nat) => Hit(block, 0);
    ghost var asked, fates;
    frames, asked, fates := Pack(1, answers, maxFrame, 0);
    assert WasAnswered(answers, 0, Packed(frames)[0]) by { TilesCover(frames, 0, 1); }
    assert frames == [frames[0]] && Packed(frames) == frames[0].items + Packed(frames[1..]);
    LoneSize(frames[0]);
  }

  lemma EmptyResponse(answers: (nat, nat) -> Item, maxBlob: nat, maxFrame: nat)
    ensures AllFates(answers, [], [], [Frame(0, [], false, [])])
    ensures BlobsFit(answers, maxBlob, maxFrame) ==> AllFit([Frame(0, [], false, [])], maxFrame)
  {
  }

  lemma Beginning(answers: (nat, nat) -> Item, total: nat)
    ensures SoFar(answers, [], [], [], 0, total)
  {
  }

  lemma Complete(answers: (nat, nat) -> Item, frames: seq<Frame>, asked: seq<nat>, fates: seq<Fate>, total: nat)
    requires total > 0 && SoFar(answers, frames, asked, fates, total, total)
    ensures Tiles(frames, 0, total) && Answered(answers, Packed(frames)) && AllFates(answers, asked, fates, frames)
  {
    PartialTiles(frames, 0, total);
  }

  lemma LoneFits(answers: (nat, nat) -> Item, maxBlob: nat, maxFrame: nat, f: Frame, more: seq<Fate>, i: nat, start: nat, k: nat)
    requires |f.items| == 1 && |more| >= 1 && Filled(f.items, more[..1], f.holds, answers, i, start, k)
    ensures BlobsFit(answers, maxBlob, maxFrame) ==> FrameSize(f) <= maxFrame
  {
    LoneSize(f);
    assert f.items[0] == answers(i + 0, start + 0);
  }

  lemma SingleSize(items: seq<Item>)
    requires |items| == 1
    ensures PayloadSize(items) == Size(items[0])
  {
  }

  /** Frames so far: as Tiles, but the last one may still have the more flag. */
  predicate Partial(frames: seq<Frame>, from: nat, upTo: nat, total: nat)
    decreases |frames|
  {
    && frames != [] && frames[0].first == from && frames[0].items != [] && from + |frames[0].items| <= upTo <= total
    && (frames[0].more <==> from + |frames[0].items| < total)
    && (if |frames| == 1 then from + |frames[0].items| == upTo
        else frames[0].more && Partial(frames[1..], from + |frames[0].items|, upTo, total))
  }

  lemma {:induction false} PartialGrow(frames: seq<Frame>, from: nat, upTo: nat, total: nat, f: Frame)
    requires Partial(frames, from, upTo, total) && upTo < total
    requires f.first == upTo && f.items != [] && upTo + |f.items| <= total && (f.more <==> upTo + |f.items| < total)
    ensures Partial(frames + [f], from, upTo + |f.items|, total)
    decreases |frames|
  {
    if |frames| == 1 {
      assert (frames + [f])[1..] == [f];
      assert Partial([f], upTo, upTo + |f.items|, total);
    } else {
      assert (frames + [f])[1..] == frames[1..] + [f];
      PartialGrow(frames[1..], from + |frames[0].items|, upTo, total, f);
    }
  }

  lemma PartialSnoc(frames: seq<Frame>, i: nat, total: nat, f: Frame)
    requires i < total && (i == 0 ==> frames == []) && (i > 0 ==> Partial(frames, 0, i, total))
    requires f.first == i && f.items != [] && i + |f.items| <= total && (f.more <==> i + |f.items| < total)
    ensures Partial(frames + [f], 0, i + |f.items|, total)
  {
    if i == 0 {
      assert frames + [f] == [f];
    } else {
      PartialGrow(frames, 0, i, total, f);
    }
  }

  lemma {:induction false} PartialTiles(frames: seq<Frame>, from: nat, total: nat)
    requires Partial(frames, from, total, total)
    ensures Tiles(frames, from, total)
    decreases |frames|
  {
    if |frames| > 1 { PartialTiles(frames[1..], from + |frames[0].items|, total); }
  }

  lemma {:induction false} PackedSnoc(frames: seq<Frame>, f: Frame)
    ensures Packed(frames + [f]) == Packed(frames) + f.items
    decreases |frames|
  {
    if frames == [] {
      assert frames + [f] == [f] && [f][1..] == [];
    } else {
      assert (frames + [f])[1..] == frames[1..] + [f];
      PackedSnoc(frames[1..], f);
    }
  }

}
