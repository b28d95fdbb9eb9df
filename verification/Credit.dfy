/**
 * Byte-granular backpressure between one client and the server. The server's
 * ledger and the client's window are two books joined by two FIFO channels;
 * after the HELLO response the bytes of the initial credit are always somewhere:
 * in the window, in flight, held by the server, or on the way back.
 */
module Credit {
  const MAX_UINT32: nat := 0xFFFF_FFFF

  // ---- the server's ledger ----------------------------------------------------------------------

  datatype Violation = ViolationNone | ViolationBusy | ViolationFatal

  datatype Window = Window(window: nat, maxFrame: nat, outstanding: nat, pending: nat, strikes: nat,
                           consumed: nat, granted: nat)

  function Verdict(w: Window, n: nat): Violation {
    if w.outstanding + n <= w.window + w.maxFrame then ViolationNone
    else if w.strikes == 0 then ViolationBusy else ViolationFatal
  }

  function Accounted(w: Window, n: nat): Window { w.(outstanding := w.outstanding + n, consumed := w.consumed + n) }

  function Consumed(w: Window, n: nat): Window {
    Accounted(w, n).(strikes := w.strikes + if Verdict(w, n) == ViolationNone then 0 else 1)
  }

  /** Never more than was consumed. */
  function Granted(w: Window, n: nat): Window {
    var m := if n > w.outstanding then w.outstanding else n;
    w.(outstanding := w.outstanding - m, granted := w.granted + m, pending := w.pending + m)
  }

  /** What fits one header's credit field. */
  function Harvest(w: Window): nat { if w.pending > MAX_UINT32 then MAX_UINT32 else w.pending }
  function Harvested(w: Window): Window { w.(pending := w.pending - Harvest(w)) }

  /** The ledger as the transport keeps it. */
  class CreditWindow {
    var window: nat
    var maxFrame: nat
    var outstanding: nat
    var pending: nat
    var strikes: nat
    var consumed: nat
    var granted: nat

    function View(): Window
      reads this
    {
      Window(window, maxFrame, outstanding, pending, strikes, consumed, granted)
    }

    /** The books balance: every debit was granted or is outstanding; unsent grants were granted. */
    predicate Valid()
      reads this
    {
      consumed == granted + outstanding && pending <= granted
    }

    constructor (initial: nat, frame: nat)
      ensures Valid() && View() == Window(initial, frame, 0, 0, 0, 0, 0)
    {
      window, maxFrame, outstanding, pending, strikes, consumed, granted := initial, frame, 0, 0, 0, 0, 0;
    }

    method SetWindow(initial: nat, frame: nat)
      requires Valid()
      modifies this
      ensures Valid() && View() == old(View()).(window := initial, maxFrame := frame)
    {
      window, maxFrame := initial, frame;
    }

    method Consume(n: nat) returns (v: Violation)
      requires Valid()
      modifies this
      ensures Valid() && View() == Consumed(old(View()), n) && v == Verdict(old(View()), n)
      ensures outstanding == old(outstanding) + n && consumed == old(consumed) + n
      ensures v == ViolationNone <==> outstanding <= window + maxFrame
      ensures v == ViolationBusy <==> outstanding > window + maxFrame && old(strikes) == 0
      ensures strikes == old(strikes) + if outstanding > window + maxFrame then 1 else 0
    {
      outstanding := outstanding + n;
      consumed := consumed + n;
      if outstanding <= window + maxFrame { return ViolationNone; }
      strikes := strikes + 1;
      if strikes == 1 { return ViolationBusy; }
      return ViolationFatal;
    }

    method Account(n: nat)
      requires Valid()
      modifies this
      ensures Valid() && View() == Accounted(old(View()), n)
    {
      outstanding := outstanding + n;
      consumed := consumed + n;
    }

    method Grant(n: nat)
      requires Valid()
      modifies this
      ensures Valid() && View() == Granted(old(View()), n)
      ensures n <= old(outstanding) ==> outstanding == old(outstanding) - n && pending == old(pending) + n
      ensures n > old(outstanding) ==> outstanding == 0 && pending == old(pending) + old(outstanding)
    {
      var m := n;
      if m > outstanding { m := outstanding; }
      outstanding := outstanding - m;
      granted := granted + m;
      pending := pending + m;
    }

    method TakeGrant() returns (g: nat)
      requires Valid()
      modifies this
      ensures Valid() && View() == Harvested(old(View())) && g == Harvest(old(View())) && g <= MAX_UINT32
      ensures old(pending) == pending + g && (pending > 0 ==> g == MAX_UINT32)
    {
      g := pending;
      if g > MAX_UINT32 { g := MAX_UINT32; }
      pending := pending - g;
    }
  }

  // ---- the client's window ------------------------------------------------------------------------

  datatype Kind = Nop | Response | Fatal | Garbage

  /** What the client reads off the socket: a header's credit field, what kind of frame it heads, and its payload length. */
  datatype Header = Header(credit: nat, kind: Kind, len: nat)

  /** A header that does not parse grants nothing. */
  function Worth(h: Header): nat { if h.kind.Garbage? then 0 else h.credit }

  function Carried(hs: seq<Header>): nat { if hs == [] then 0 else Worth(hs[0]) + Carried(hs[1..]) }

  lemma {:induction false} CarriedSnoc(hs: seq<Header>, i: nat)
    requires i < |hs|
    ensures Carried(hs[..i + 1]) == Carried(hs[..i]) + Worth(hs[i])
    decreases i
  {
    if i == 0 {
      assert hs[..1] == [hs[0]] && hs[..0] == [];
      assert Carried([hs[0]]) == Worth(hs[0]) + Carried([hs[0]][1..]);
    } else {
      assert hs[..i + 1][1..] == hs[1..][..i] && hs[..i][1..] == hs[1..][..i - 1];
      CarriedSnoc(hs[1..], i - 1);
    }
  }

  predicate Breaks(h: Header) { h.kind.Fatal? || h.kind.Garbage? }

  /** The frame cap before HELLO is answered. */
  const PRE_HELLO_CAP: nat := 0x10_0000

  class Client {
    var credit: int
    var dead: bool
    var maxFrame: nat      // 0 until HELLO is answered

    constructor (opening: nat)
      ensures credit == opening && !dead && maxFrame == 0
    {
      credit, dead, maxFrame := opening, false, 0;
    }

    function Cap(): nat
      reads this
    {
      if maxFrame != 0 then maxFrame else PRE_HELLO_CAP
    }

    /** Pump frames until the window is positive, the connection dies, or the socket times out (no frame left). */
    method WaitForCredit(inbound: seq<Header>) returns (read: nat, ok: bool)
      requires !dead
      modifies `credit, `dead
      ensures read <= |inbound| && credit == old(credit) + Carried(inbound[..read])
      ensures ok <==> !dead
      ensures ok ==> credit > 0
      ensures forall i :: 0 <= i < read ==> old(credit) + Carried(inbound[..i]) <= 0
      ensures forall i :: 0 <= i < read ==> (Breaks(inbound[i]) ==> i == read - 1 && !ok)
      ensures !ok ==> (read > 0 && Breaks(inbound[read - 1])) || (read == |inbound| && credit <= 0)
    {
      read, ok := 0, true;
      while credit <= 0
        invariant read <= |inbound| && credit == old(credit) + Carried(inbound[..read]) && !dead
        invariant forall i :: 0 <= i < read ==> old(credit) + Carried(inbound[..i]) <= 0 && !Breaks(inbound[i])
        decreases |inbound| - read
      {
        if read == |inbound| {
          dead := true;
          return read, false;
        }
        CarriedSnoc(inbound, read);
        var h := inbound[read];
        read := read + 1;
        if !h.kind.Garbage? { credit := credit + h.credit; }
        if h.kind.Garbage? || h.kind.Fatal? {
          dead := true;
          return read, false;
        }
      }
    }

    /** Wait if there is payload and no window, then debit the whole payload: overshoot by at most one frame. */
    method SendFrame(len: nat, inbound: seq<Header>) returns (read: nat, sent: bool)
      modifies `credit, `dead
      ensures read <= |inbound|
      ensures sent ==> !dead && credit == old(credit) + Carried(inbound[..read]) - len
      ensures sent && len > 0 ==> credit + len > 0
      ensures len == 0 || old(credit) > 0 ==> read == 0 && sent == !old(dead)
      ensures old(dead) ==> !sent && credit == old(credit)
    {
      read := 0;
      if dead { return 0, false; }
      if len > 0 && credit <= 0 {
        var ok;
        read, ok := WaitForCredit(inbound);
        if !ok { return read, false; }
      }
      credit := credit - len;
      return read, true;
    }

    /**
     * Read past keepalives to the next response within the negotiated cap; every
     * header's grant counts, that of a refused response too.
     */
    method NextHeader(inbound: seq<Header>) returns (read: nat, ok: bool)
      requires !dead
      modifies `credit, `dead
      ensures read <= |inbound| && credit == old(credit) + Carried(inbound[..read]) && ok == !dead
      ensures forall i :: 0 <= i < read - 1 ==> inbound[i].kind.Nop?
      ensures ok <==> read > 0 && inbound[read - 1].kind.Response? && inbound[read - 1].len <= Cap()
      ensures !ok ==> (read > 0 && !inbound[read - 1].kind.Nop?) || (read == |inbound| && forall i :: 0 <= i < read ==> inbound[i].kind.Nop?)
    {
      read, ok := 0, false;
      while read < |inbound|
        invariant read <= |inbound| && credit == old(credit) + Carried(inbound[..read]) && !dead && !ok
        invariant forall i :: 0 <= i < read ==> inbound[i].kind.Nop?
      {
        CarriedSnoc(inbound, read);
        var h := inbound[read];
        read := read + 1;
        if h.kind.Garbage? {
          dead := true;
          return read, false;
        }
        credit := credit + h.credit;
        if h.kind.Nop? { continue; }
        if h.kind.Fatal? || h.len > Cap() {
          dead := true;
          return read, false;
        }
        return read, true;
      }
      dead := true;
    }
  }
}
