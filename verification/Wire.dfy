/** Bytes on the wire: little-endian integers, fixed layouts, and the pad-to-8 rule. */
module Wire {
  type Byte = x: nat | x < 0x100
  type U16 = x: nat | x < 0x1_0000
  type U32 = x: nat | x < 0x1_0000_0000
  type U64 = x: nat | x < 0x1_0000_0000_0000_0000
  type Bytes = seq<Byte>

  // ---- integers -----------------------------------------------------------------------------------

  /** 256 to the power w. */
  function Span(w: nat): nat { if w == 0 then 1 else 256 * Span(w - 1) }

  function Put(v: nat, w: nat): (b: Bytes)
    ensures |b| == w
  {
    if w == 0 then [] else [v % 256] + Put(v / 256, w - 1)
  }

  function Get(b: Bytes): (v: nat)
    ensures v < Span(|b|)
  {
    if b == [] then 0 else b[0] + 256 * Get(b[1..])
  }

  lemma {:induction false} GetPut(v: nat, w: nat)
    requires v < Span(w)
    ensures Get(Put(v, w)) == v
    decreases w
  {
    if w > 0 {
      GetPut(v / 256, w - 1);
      assert Put(v, w)[1..] == Put(v / 256, w - 1);
    }
  }

  lemma {:induction false} PutGet(b: Bytes)
    ensures Put(Get(b), |b|) == b
    decreases |b|
  {
    if b != [] {
      PutGet(b[1..]);
      LowByte(b[0], Get(b[1..]));
      assert b == [b[0]] + b[1..];
    }
  }

  lemma LowByte(low: Byte, high: nat)
    ensures (low + 256 * high) % 256 == low && (low + 256 * high) / 256 == high
  {
  }

  lemma AtLeastOnce(b: nat, m: int)
    ensures m >= 1 ==> b * m >= b
    ensures m <= -1 ==> b * m + b <= 0
  {
    if m >= 1 { assert b * m == b + b * (m - 1); }
    if m <= -1 { assert b * m + b == b * (m + 1); }
  }

  lemma DivideOnce(a: nat, b: nat, q: nat, r: nat)
    requires b > 0 && a == b * q + r && r < b
    ensures a / b == q
  {
    var d, e := a / b, a % b;
    assert a == b * d + e;
    assert b * (d - q) == r - e;
    AtLeastOnce(b, d - q);
  }

  lemma {:induction false} SpanPositive(w: nat)
    ensures Span(w) > 0
  {
    if w > 0 { SpanPositive(w - 1); }
  }

  lemma DivideTwice(v: nat, w: nat)
    ensures Span(w) > 0 && Span(w + 1) > 0 && v / 256 / Span(w) == v / Span(w + 1)
  {
    SpanPositive(w);
    var q, s := v / 256, Span(w);
    var t, u := q / s, q % s;
    assert q == s * t + u;
    assert 256 * (s * t) == (256 * s) * t;
    DivideOnce(v, 256 * s, t, 256 * u + v % 256);
  }

  /** Little-endian: byte i is the i-th base-256 digit, least significant first. */
  lemma {:induction false} PutDigit(v: nat, w: nat, i: nat)
    requires i < w
    ensures Span(i) > 0 && Put(v, w)[i] == v / Span(i) % 256
    decreases w
  {
    if i > 0 {
      PutDigit(v / 256, w - 1, i - 1);
      DivideTwice(v, i - 1);
    }
  }

  lemma Spans()
    ensures Span(1) == 0x100 && Span(2) == 0x1_0000 && Span(3) == 0x100_0000 && Span(4) == 0x1_0000_0000
    ensures Span(8) == 0x1_0000_0000_0000_0000
  {
  }

  // ---- fixed layouts --------------------------------------------------------------------------------

  /** A layout is the widths of its fields, in order. */
  type Layout = seq<nat>

  function Total(ws: Layout): nat { if ws == [] then 0 else ws[0] + Total(ws[1..]) }

  lemma {:induction false} TotalConcat(a: Layout, b: Layout)
    ensures Total(a + b) == Total(a) + Total(b)
    decreases |a|
  {
    if a == [] {
      assert a + b == b;
    } else {
      assert (a + b)[1..] == a[1..] + b;
      TotalConcat(a[1..], b);
    }
  }

  lemma TotalFour(a: nat, b: nat, c: nat, d: nat)
    ensures Total([a, b, c, d]) == a + b + c + d
  {
    assert [a, b, c, d][1..] == [b, c, d] && [b, c, d][1..] == [c, d] && [c, d][1..] == [d] && [d][1..] == [];
    assert Total([d]) == d + Total([]) && Total([c, d]) == c + Total([d]) && Total([b, c, d]) == b + Total([c, d]);
  }

  function Print(ws: Layout, vs: seq<nat>): (b: Bytes)
    requires |ws| == |vs|
    ensures |b| == Total(ws)
  {
    if ws == [] then [] else Put(vs[0], ws[0]) + Print(ws[1..], vs[1..])
  }

  function Parse(ws: Layout, b: Bytes): (vs: seq<nat>)
    requires |b| >= Total(ws)
    ensures |vs| == |ws|
  {
    if ws == [] then [] else [Get(b[..ws[0]])] + Parse(ws[1..], b[ws[0]..])
  }

  predicate Fits(ws: Layout, vs: seq<nat>) {
    |ws| == |vs| && forall i :: 0 <= i < |ws| ==> vs[i] < Span(ws[i])
  }

  /** What was printed is read back, whatever follows it. */
  lemma {:induction false} ParsePrint(ws: Layout, vs: seq<nat>, rest: Bytes)
    requires Fits(ws, vs)
    ensures Parse(ws, Print(ws, vs) + rest) == vs
    decreases |ws|
  {
    if ws != [] {
      var b := Print(ws, vs) + rest;
      assert b[..ws[0]] == Put(vs[0], ws[0]);
      assert b[ws[0]..] == Print(ws[1..], vs[1..]) + rest;
      assert vs[0] < Span(ws[0]);
      GetPut(vs[0], ws[0]);
      assert Fits(ws[1..], vs[1..]) by {
        forall i | 0 <= i < |ws[1..]| ensures vs[1..][i] < Span(ws[1..][i]) { assert vs[i + 1] < Span(ws[i + 1]); }
      }
      ParsePrint(ws[1..], vs[1..], rest);
      assert vs == [vs[0]] + vs[1..];
    }
  }

  /** Bytes of exactly the layout's length are reprinted as they were, and every field fits. */
  lemma {:induction false} PrintParse(ws: Layout, b: Bytes)
    requires |b| == Total(ws)
    ensures Print(ws, Parse(ws, b)) == b && Fits(ws, Parse(ws, b))
    decreases |ws|
  {
    if ws != [] {
      PutGet(b[..ws[0]]);
      PrintParse(ws[1..], b[ws[0]..]);
      var vs := Parse(ws, b);
      assert vs[1..] == Parse(ws[1..], b[ws[0]..]);
      forall i | 0 <= i < |ws| ensures vs[i] < Span(ws[i]) {
        if i > 0 { assert vs[1..][i - 1] < Span(ws[1..][i - 1]); }
      }
      assert b == b[..ws[0]] + b[ws[0]..];
    }
  }

  /** A layout reads only its own bytes. */
  lemma {:induction false} ParsePrefix(ws: Layout, b: Bytes)
    requires |b| >= Total(ws)
    ensures Parse(ws, b) == Parse(ws, b[..Total(ws)])
    decreases |ws|
  {
    if ws != [] {
      var c := b[..Total(ws)];
      assert c[..ws[0]] == b[..ws[0]];
      assert c[ws[0]..] == b[ws[0]..][..Total(ws[1..])];
      ParsePrefix(ws[1..], b[ws[0]..]);
    }
  }

  /** Every field read fits its width. */
  lemma FieldFits(ws: Layout, b: Bytes, i: nat)
    requires |b| >= Total(ws) && i < |ws|
    ensures Parse(ws, b)[i] < Span(ws[i])
  {
    ParsePrefix(ws, b);
    PrintParse(ws, b[..Total(ws)]);
  }

  /** Where field i starts. */
  function Offset(ws: Layout, i: nat): nat
    requires i <= |ws|
  {
    Total(ws[..i])
  }

  lemma OffsetNext(ws: Layout, i: nat)
    requires i < |ws|
    ensures Offset(ws, 0) == 0 && Offset(ws, i + 1) == Offset(ws, i) + ws[i] <= Total(ws)
  {
    assert ws[..i + 1] == ws[..i] + [ws[i]] && ws == ws[..i + 1] + ws[i + 1..];
    TotalConcat(ws[..i], [ws[i]]);
    assert Total([ws[i]]) == ws[i] + Total([ws[i]][1..]);
    TotalConcat(ws[..i + 1], ws[i + 1..]);
  }

  lemma {:induction false} PrintSplit(ws: Layout, vs: seq<nat>, i: nat)
    requires |ws| == |vs| && i <= |ws|
    ensures Print(ws, vs) == Print(ws[..i], vs[..i]) + Print(ws[i..], vs[i..])
    decreases |ws|
  {
    if i == 0 {
      assert ws[..0] == [] && ws[0..] == ws && vs[0..] == vs;
    } else {
      PrintSplit(ws[1..], vs[1..], i - 1);
      assert ws[..i][1..] == ws[1..][..i - 1] && vs[..i][1..] == vs[1..][..i - 1];
      assert ws[1..][i - 1..] == ws[i..] && vs[1..][i - 1..] == vs[i..];
      hide Put;
      Assoc(Put(vs[0], ws[0]), Print(ws[1..][..i - 1], vs[1..][..i - 1]), Print(ws[i..], vs[i..]));
    }
  }

  lemma PrintAround(ws: Layout, vs: seq<nat>, i: nat)
    requires |ws| == |vs| && i < |ws|
    ensures Print(ws, vs) == Print(ws[..i], vs[..i]) + (Put(vs[i], ws[i]) + Print(ws[i + 1..], vs[i + 1..]))
  {
    PrintSplit(ws, vs, i);
    assert ws[i..][1..] == ws[i + 1..] && vs[i..][1..] == vs[i + 1..];
    hide Put, Total;
    assert Print(ws[i..], vs[i..]) == Put(vs[i], ws[i]) + Print(ws[i + 1..], vs[i + 1..]);
  }

  /** Each field is its value in little-endian order, at its offset. */
  lemma PrintField(ws: Layout, vs: seq<nat>, i: nat)
    requires |ws| == |vs| && i < |ws|
    ensures Offset(ws, i) + ws[i] <= Total(ws) && Print(ws, vs)[Offset(ws, i)..Offset(ws, i) + ws[i]] == Put(vs[i], ws[i])
  {
    hide Print, Put, Total;
    OffsetNext(ws, i);
    PrintAround(ws, vs, i);
    Middle(Print(ws[..i], vs[..i]), Put(vs[i], ws[i]), Print(ws[i + 1..], vs[i + 1..]));
  }

  // ---- concatenation --------------------------------------------------------------------------------

  lemma Assoc(a: Bytes, b: Bytes, c: Bytes)
    ensures (a + b) + c == a + (b + c)
  {
  }

  lemma Dropped(a: Bytes, b: Bytes)
    ensures (a + b)[|a|..] == b
  {
  }

  lemma Middle(a: Bytes, b: Bytes, c: Bytes)
    ensures (a + (b + c))[|a|..|a| + |b|] == b && (a + (b + c))[|a| + |b|..] == c
  {
  }

  lemma Rejoined(b: Bytes, i: nat, j: nat, k: nat)
    requires i <= j <= k <= |b|
    ensures b[..i] + (b[i..j] + b[j..k]) == b[..k]
  {
  }

  // ---- padding --------------------------------------------------------------------------------------

  function PadTo8(n: nat): (r: nat)
    ensures n <= r < n + 8 && r % 8 == 0
  {
    (n + 7) / 8 * 8
  }

  function Zeros(n: nat): (b: Bytes)
    ensures |b| == n && forall i :: 0 <= i < n ==> b[i] == 0
  {
    if n == 0 then [] else [0] + Zeros(n - 1)
  }

  /** b followed by zeros up to the next multiple of 8. */
  function Padded(b: Bytes): (r: Bytes)
    ensures |r| == PadTo8(|b|) && r[..|b|] == b
  {
    b + Zeros(PadTo8(|b|) - |b|)
  }
}
