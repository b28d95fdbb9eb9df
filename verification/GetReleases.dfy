/**
 * Serving a BATCH_GET, end to end: the packer decides what happens to each
 * block reference, the connection calls each frame's release. Frame k of the
 * response is release base + k of its connection (a frame without references
 * hands over an empty one).
 */
module GetReleases {
  import BatchGet
  import Conn = ConnReleases
  import opened Sums

  /** How often a frame's release gives reference n back. */
  function ByFrame(n: nat, f: BatchGet.Frame, id: nat, fired: seq<nat>): nat {
    Occurs(f.holds, n) * Occurs(fired, id)
  }

  function ByFrames(n: nat, frames: seq<BatchGet.Frame>, base: nat, fired: seq<nat>): nat
    decreases |frames|
  {
    if frames == [] then 0 else ByFrame(n, frames[0], base, fired) + ByFrames(n, frames[1..], base + 1, fired)
  }

  /** How often reference n was given back so far: at once by the packer, or through the frames that carry it. */
  function GivenBack(n: nat, fate: BatchGet.Fate, frames: seq<BatchGet.Frame>, base: nat, fired: seq<nat>): nat {
    (if fate.GivenBack? then 1 else 0) + ByFrames(n, frames, base, fired)
  }

  lemma {:induction false} HeldOnce(holds: seq<nat>, n: nat)
    requires BatchGet.Increasing(holds)
    ensures Occurs(holds, n) == if n in holds then 1 else 0
    decreases |holds|
  {
    if holds != [] {
      assert BatchGet.Increasing(holds[1..]) by {
        forall i, j | 0 <= i < j < |holds[1..]| ensures holds[1..][i] < holds[1..][j] { assert holds[i + 1] < holds[j + 1]; }
      }
      HeldOnce(holds[1..], n);
      assert holds == [holds[0]] + holds[1..];
      assert forall i :: 0 <= i < |holds[1..]| ==> holds[1..][i] > holds[0];
    }
  }

  /** The calls made through frames k0, k0 + 1, ...: one if the reference rides one of them and all were called. */
  lemma {:induction false} FramesCall(n: nat, frames: seq<BatchGet.Frame>, k0: nat, base: nat, fired: seq<nat>, fate: BatchGet.Fate)
    requires forall k :: 0 <= k < |frames| ==>
      BatchGet.Increasing(frames[k].holds) && (n in frames[k].holds <==> fate == BatchGet.Rides(k0 + k))
    requires forall k: nat {:trigger Occurs(fired, k)} :: base <= k < base + |frames| ==> Occurs(fired, k) == 1
    ensures ByFrames(n, frames, base, fired) == if fate.Rides? && k0 <= fate.frame < k0 + |frames| then 1 else 0
    decreases |frames|
  {
    if frames != [] {
      HeldOnce(frames[0].holds, n);
      assert n in frames[0].holds <==> fate == BatchGet.Rides(k0 + 0);
      assert Occurs(fired, base) == 1;
      assert forall k :: 0 <= k < |frames[1..]| ==> frames[1..][k] == frames[k + 1];
      FramesCall(n, frames[1..], k0 + 1, base + 1, fired, fate);
    }
  }

  /**
   * Once the connection is done, every reference a BATCH_GET took was given back
   * exactly once, whether its block was packed or not, written or not.
   */
  lemma EveryReferenceReleasedOnce(answers: (nat, nat) -> BatchGet.Item, asked: seq<nat>, fates: seq<BatchGet.Fate>,
                                   frames: seq<BatchGet.Frame>, steps: seq<Conn.Step>, base: nat, n: nat)
    requires BatchGet.AllFates(answers, asked, fates, frames) && n < |fates|
    requires Conn.Finished(Conn.Run(Conn.EMPTY, steps)) && base + |frames| <= Conn.Run(Conn.EMPTY, steps).next
    ensures GivenBack(n, fates[n], frames, base, Conn.Run(Conn.EMPTY, steps).fired) == if answers(asked[n], n).Hit? then 1 else 0
  {
    var fired := Conn.Run(Conn.EMPTY, steps).fired;
    assert BatchGet.FateOk(answers(asked[n], n).Hit?, fates[n], n, frames);
    forall k: nat | base <= k < base + |frames| ensures Occurs(fired, k) == 1 { Conn.ExactlyOnceWhenDone(steps, k); }
    FramesCall(n, frames, 0, base, fired, fates[n]);
  }
}
