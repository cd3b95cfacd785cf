/** Encoding in place: integer arrays that widen as they grow, and the header in front of the data. */
module SprotoBuffer {
  import opened ByteType
  import opened SprotoWire
  import opened SprotoRoundTrip

  // ---- integers of 4 and of 8 bytes ----

  /** The upper half of an integer that needs only the lower one. */
  function Extension(v: int): (s: seq<Byte>)
    ensures |s| == 4
  {
    if v < 0 then [255, 255, 255, 255] else [0, 0, 0, 0]
  }

  /** n without its k lowest bytes. */
  function Shift(n: nat, k: nat): nat {
    if k == 0 then n else Shift(n / 256, k - 1)
  }

  lemma {:induction false} LEJoin(n: nat, k: nat, m: nat)
    ensures LE(n, k + m) == LE(n, k) + LE(Shift(n, k), m)
    decreases k
  {
    if k > 0 {
      LEJoin(n / 256, k - 1, m);
    }
  }

  lemma JoinTwice(a: seq<Byte>, b: seq<Byte>, c: seq<Byte>)
    ensures a + (b + c) == (a + b) + c
  {
  }

  lemma {:induction false} LETruncates(n: nat, q: nat, k: nat)
    ensures LE(n + q * Pow256(k), k) == LE(n, k)
    decreases k
  {
    if k > 0 {
      var p := Pow256(k - 1);
      var m := n + q * (256 * p);
      assert m == n + 256 * (q * p);
      assert m % 256 == n % 256 && m / 256 == n / 256 + q * p;
      LETruncates(n / 256, q, k - 1);
    }
  }

  /** The low word of v, and its high word. */
  function Low(v: int): nat
    requires IsNarrow(v)
  {
    if v < 0 then v + 0x1_0000_0000 else v
  }

  function High(v: int): nat {
    if v < 0 then 0xffff_ffff else 0
  }

  /** Sign extension. */
  lemma Widened(v: int)
    requires IsNarrow(v)
    ensures IntBytes(v, 8) == IntBytes(v, 4) + Extension(v)
    ensures IntBytes(v, 4)[3] >= 128 <==> v < 0
  {
    hide IntBytes, LE, Pow256;
    BytesOf(v);
    Halves(Low(v), High(v));
    AllOnes();
    AllZeros();
    TopByte(Low(v));
  }

  lemma BytesOf(v: int)
    requires IsNarrow(v)
    ensures IntBytes(v, 4) == LE(Low(v), 4)
    ensures IntBytes(v, 8) == LE(Low(v) + High(v) * 0x1_0000_0000, 8)
  {
    hide LE, Pow256;
    Powers();
    if v < 0 {
      ModUp(v, Pow256(4));
      ModUp(v, Pow256(8));
    } else {
      ModIn(v, Pow256(4));
      ModIn(v, Pow256(8));
    }
  }

  lemma Halves(u: nat, h: nat)
    requires u < 0x1_0000_0000
    ensures LE(u + h * 0x1_0000_0000, 8) == LE(u, 4) + LE(h, 4)
  {
    hide LE, Pow256, Shift;
    Powers();
    var w := u + h * 0x1_0000_0000;
    LEJoin(w, 4, 4);
    LETruncates(u, h, 4);
    assert h * Pow256(4) == h * 0x1_0000_0000;
    Shifts(w);
    assert w / 0x1_0000_0000 == h;
  }

  lemma TopByte(u: nat)
    requires u < 0x1_0000_0000
    ensures LE(u, 4)[3] >= 128 <==> u >= 0x8000_0000
  {
    LEJoin(u, 3, 1);
    Shifts(u);
    assert LE(Shift(u, 3), 1) == [(Shift(u, 3) % 256) as Byte];
  }

  lemma Shifts(n: nat)
    ensures Shift(n, 3) == n / 0x100_0000 && Shift(n, 4) == n / 0x1_0000_0000
  {
    var n1 := n / 256;
    var n2 := n1 / 256;
    var n3 := n2 / 256;
    assert Shift(n3, 0) == n3;
    assert Shift(n2, 1) == n3;
    assert Shift(n1, 2) == n3;
    assert Shift(n, 3) == n3;
    assert Shift(n3, 1) == n3 / 256;
    assert Shift(n2, 2) == n3 / 256;
    assert Shift(n1, 3) == n3 / 256;
  }

  lemma AllOnes()
    ensures LE(0xffff_ffff, 4) == [255, 255, 255, 255]
  {
    assert LE(0xff, 1) == [255] && LE(0xffff, 2) == [255] + LE(0xff, 1) && LE(0xff_ffff, 3) == [255] + LE(0xffff, 2);
  }

  lemma AllZeros()
    ensures LE(0, 4) == [0, 0, 0, 0]
  {
    assert LE(0, 1) == [0] && LE(0, 2) == [0] + LE(0, 1) && LE(0, 3) == [0] + LE(0, 2);
  }

  // ---- encode_integer_array ----

  function Ints(vs: seq<int>): (items: seq<Value>)
    ensures |items| == |vs| && forall i :: 0 <= i < |vs| ==> items[i] == Int(vs[i])
  {
    seq(|vs|, i requires 0 <= i < |vs| => Int(vs[i]))
  }

  /** The first m integers stand in w bytes each behind word off of s. */
  ghost predicate Laid(s: seq<Byte>, off: nat, vs: seq<int>, m: nat, w: nat) {
    && m <= |vs| && off + w * m <= |s|
    && forall j :: 0 <= j < m ==> off + w * j + w <= |s| && s[off + w * j..off + w * j + w] == IntBytes(vs[j], w)
  }

  lemma {:induction false} ElementsJoin(a: seq<Value>, b: seq<Value>, w: nat)
    ensures Elements(a + b, w) == Elements(a, w) + Elements(b, w)
    decreases |a|
  {
    if a == [] {
      assert a + b == b;
    } else {
      assert (a + b)[1..] == a[1..] + b;
      ElementsJoin(a[1..], b, w);
      JoinTwice(Element(a[0], w), Elements(a[1..], w), Elements(b, w));
    }
  }

  lemma {:induction false} LaidElements(s: seq<Byte>, off: nat, vs: seq<int>, m: nat, w: nat)
    requires Laid(s, off, vs, m, w)
    ensures s[off..off + w * m] == Elements(Ints(vs)[..m], w)
    decreases m
  {
    hide Elements, Element, IntBytes;
    var items := Ints(vs);
    if m == 0 {
      assert items[..0] == [];
      NoElements(w);
    } else {
      NextPlace(off, w, m - 1);
      LaidElements(s, off, vs, m - 1, w);
      assert items[..m] == items[..m - 1] + [items[m - 1]];
      ElementsJoin(items[..m - 1], [items[m - 1]], w);
      OneElement(vs[m - 1], w);
      assert s[off..off + w * m] == s[off..off + w * (m - 1)] + s[off + w * (m - 1)..off + w * (m - 1) + w];
    }
  }

  lemma NextPlace(off: nat, w: nat, k: nat)
    ensures off + w * (k + 1) == off + w * k + w && w * k >= 0
  {
  }

  lemma NoElements(w: nat)
    ensures Elements([], w) == []
  {
  }

  lemma OneElement(v: int, w: nat)
    ensures Elements([Int(v)], w) == IntBytes(v, w)
  {
    assert Elements([Int(v)], w) == Element(Int(v), w) + Elements([], w);
  }

  // the bytes that the source writes one by one

  method WriteBytes(a: array<Byte>, off: nat, s: seq<Byte>)
    requires off + |s| <= a.Length
    modifies a
    ensures a[..] == old(a[..off]) + s + old(a[off + |s|..])
  {
    var i := 0;
    while i < |s|
      invariant 0 <= i <= |s|
      invariant forall k :: 0 <= k < a.Length && (k < off || off + i <= k) ==> a[k] == old(a[k])
      invariant a[off..off + i] == s[..i]
    {
      a[off + i] := s[i];
      assert a[off..off + i + 1] == a[off..off + i] + [s[i]];
      i := i + 1;
    }
    assert a[off..off + |s|] == s;
    ghost var was: seq<Byte> := old(a[..]);
    assert a[..] == was[..off] + a[off..off + |s|] + was[off + |s|..];
  }

  /** Overwriting bytes behind the first m integers, or outside them, leaves them in place. */
  lemma LaidKept(s: seq<Byte>, t: seq<Byte>, off: nat, vs: seq<int>, m: nat, w: nat)
    requires Laid(s, off, vs, m, w) && |t| == |s|
    requires forall k :: off <= k < off + w * m ==> t[k] == s[k]
    ensures Laid(t, off, vs, m, w)
  {
    forall j | 0 <= j < m ensures off + w * j + w <= |t| && t[off + w * j..off + w * j + w] == IntBytes(vs[j], w) {
      Below(w, j, m);
      assert t[off + w * j..off + w * j + w] == s[off + w * j..off + w * j + w];
    }
  }

  lemma Below(w: nat, j: nat, m: nat)
    requires j < m
    ensures w * j + w <= w * m
  {
    Steps(w, m - j - 1);
    assert w * m == w * (j + 1) + w * (m - j - 1);
  }

  lemma Steps(w: nat, k: nat)
    ensures w * k >= 0
  {
  }

  lemma LaidNext(s: seq<Byte>, off: nat, vs: seq<int>, m: nat, w: nat)
    requires Laid(s, off, vs, m, w) && m < |vs| && off + w * m + w <= |s|
    requires s[off + w * m..off + w * m + w] == IntBytes(vs[m], w)
    ensures Laid(s, off, vs, m + 1, w)
  {
    NextPlace(off, w, m);
  }

  /** The integers from i on stand widened at their new places, those before i still at their old ones. */
  ghost predicate HalfWidened(s: seq<Byte>, off: nat, vs: seq<int>, m: nat, i: nat) {
    && i <= m <= |vs| && off + 8 * m <= |s| && Laid(s, off, vs, i, 4)
    && forall j :: i <= j < m ==> s[off + 8 * j..off + 8 * j + 8] == IntBytes(vs[j], 8)
  }

  lemma WidenStep(s: seq<Byte>, t: seq<Byte>, off: nat, vs: seq<int>, m: nat, i: nat)
    requires i > 0 && HalfWidened(s, off, vs, m, i)
    requires |t| == |s| && t[off + 8 * (i - 1)..off + 8 * i] == IntBytes(vs[i - 1], 8)
    requires forall k :: 0 <= k < |s| && (k < off + 8 * (i - 1) || off + 8 * i <= k) ==> t[k] == s[k]
    ensures HalfWidened(t, off, vs, m, i - 1)
  {
    LaidLess(s, off, vs, i);
    LaidKept(s, t, off, vs, i - 1, 4);
    forall j | i <= j < m ensures t[off + 8 * j..off + 8 * j + 8] == IntBytes(vs[j], 8) {
      assert t[off + 8 * j..off + 8 * j + 8] == s[off + 8 * j..off + 8 * j + 8];
    }
  }

  /** One step of the rearrangement, from the top down: no integer that is still to be read is overwritten. */
  method WidenOne(a: array<Byte>, off: nat, ghost vs: seq<int>, ghost m: nat, i: nat)
    requires i > 0 && HalfWidened(a[..], off, vs, m, i) && (forall j :: 0 <= j < m ==> IsNarrow(vs[j]))
             && off + 8 * i <= a.Length
    modifies a
    ensures HalfWidened(a[..], off, vs, m, i - 1)
    ensures forall k :: 0 <= k < a.Length && (k < off || off + 8 * m <= k) ==> a[k] == old(a[k])
  {
    hide IntBytes;
    ghost var s := a[..];
    var p, q := off + 8 * (i - 1), off + 4 * (i - 1);
    assert s[q..q + 4] == IntBytes(vs[i - 1], 4);
    Widened(vs[i - 1]);
    var low := a[q..q + 4];
    WriteBytes(a, p, low);
    ghost var s1 := a[..];
    assert a[p + 3] == low[3];
    WriteBytes(a, p + 4, if a[p + 3] >= 128 then [255, 255, 255, 255] else [0, 0, 0, 0]);
    ghost var t := a[..];
    ghost var v := vs[i - 1];
    TwoHalves(s, s1, t, p, low, Extension(v));
    WidenStep(s, t, off, vs, m, i);
  }

  lemma TwoHalves(s: seq<Byte>, s1: seq<Byte>, t: seq<Byte>, p: nat, low: seq<Byte>, high: seq<Byte>)
    requires |low| == 4 && |high| == 4 && p + 8 <= |s|
    requires s1 == s[..p] + low + s[p + 4..] && t == s1[..p + 4] + high + s1[p + 8..]
    ensures |t| == |s| && t[p..p + 8] == low + high
    ensures forall k :: 0 <= k < |s| && (k < p || p + 8 <= k) ==> t[k] == s[k]
  {
  }

  lemma LaidLess(s: seq<Byte>, off: nat, vs: seq<int>, i: nat)
    requires i > 0 && Laid(s, off, vs, i, 4)
    ensures Laid(s, off, vs, i - 1, 4)
  {
  }

  lemma StartWidening(s: seq<Byte>, off: nat, vs: seq<int>, m: nat)
    requires Laid(s, off, vs, m, 4) && off + 8 * m <= |s|
    ensures HalfWidened(s, off, vs, m, m)
  {
  }

  lemma AllWidened(s: seq<Byte>, off: nat, vs: seq<int>, m: nat)
    requires HalfWidened(s, off, vs, m, 0)
    ensures Laid(s, off, vs, m, 8)
  {
  }

  /** The first m integers, which took 4 bytes each, take 8. */
  method WidenAll(a: array<Byte>, off: nat, ghost vs: seq<int>, m: nat)
    requires Laid(a[..], off, vs, m, 4) && (forall j :: 0 <= j < m ==> IsNarrow(vs[j])) && off + 8 * m <= a.Length
    modifies a
    ensures Laid(a[..], off, vs, m, 8)
    ensures forall k :: 0 <= k < a.Length && (k < off || off + 8 * m <= k) ==> a[k] == old(a[k])
  {
    hide Laid, HalfWidened;
    StartWidening(a[..], off, vs, m);
    var i := m;
    while i > 0
      invariant 0 <= i <= m && HalfWidened(a[..], off, vs, m, i)
      invariant forall k :: 0 <= k < a.Length && (k < off || off + 8 * m <= k) ==> a[k] == old(a[k])
    {
      WidenOne(a, off, vs, m, i);
      i := i - 1;
    }
    AllWidened(a[..], off, vs, m);
  }

  /** One more integer behind the first m, in w bytes. */
  method AppendInt(a: array<Byte>, off: nat, vs: seq<int>, m: nat, w: nat)
    requires m < |vs| && Laid(a[..], off, vs, m, w) && (w == 8 || (w == 4 && IsNarrow(vs[m])))
             && off + w * m + w <= a.Length
    modifies a
    ensures Laid(a[..], off, vs, m + 1, w)
    ensures forall k :: 0 <= k < a.Length && (k < off || off + w * m + w <= k) ==> a[k] == old(a[k])
  {
    hide Laid, IntBytes, IsNarrow;
    ghost var s := a[..];
    WriteInt(a, off + w * m, vs[m], w);
    LaidKept(s, a[..], off, vs, m, w);
    LaidNext(a[..], off, vs, m, w);
  }

  /** A narrow integer gets its low bytes and, in the wide form, its sign; any other all 8 bytes. */
  method WriteInt(a: array<Byte>, p: nat, v: int, w: nat)
    requires (w == 8 || (w == 4 && IsNarrow(v))) && p + w <= a.Length
    modifies a
    ensures a[p..p + w] == IntBytes(v, w)
    ensures forall k :: 0 <= k < a.Length && (k < p || p + w <= k) ==> a[k] == old(a[k])
  {
    hide IntBytes, IsNarrow;
    ghost var s := a[..];
    if IsNarrow(v) {
      Widened(v);
      WriteBytes(a, p, IntBytes(v, 4));
      OnePart(s, a[..], p, IntBytes(v, 4));
      if w == 8 {
        ghost var s1 := a[..];
        WriteBytes(a, p + 4, Extension(v));
        TwoHalves(s, s1, a[..], p, IntBytes(v, 4), Extension(v));
      }
    } else {
      WriteBytes(a, p, IntBytes(v, 8));
      OnePart(s, a[..], p, IntBytes(v, 8));
    }
  }

  lemma OnePart(s: seq<Byte>, t: seq<Byte>, p: nat, f: seq<Byte>)
    requires p + |f| <= |s| && t == s[..p] + f + s[p + |f|..]
    ensures |t| == |s| && t[p..p + |f|] == f
    ensures forall k :: 0 <= k < |s| && (k < p || p + |f| <= k) ==> t[k] == s[k]
  {
  }

  /** The room that encode_integer_array asks for. */
  function IntsNeed(vs: seq<int>): nat {
    if vs == [] then 1 else 1 + Width(Ints(vs)) * (|vs| - 1) + 8
  }

  /** The integers before the m-th do not fill the room that the last one needs. */
  lemma WidthSoFar(vs: seq<int>, m: nat, w: nat)
    requires m < |vs| && (w == 4 || w == 8) && (w == 4 <==> forall j :: 0 <= j < m ==> IsNarrow(vs[j]))
    ensures 1 + w * m + 8 <= IntsNeed(vs)
    ensures !IsNarrow(vs[m]) ==> 1 + 8 * m + 8 <= IntsNeed(vs)
  {
    hide Width;
    WidthAtLeast(vs, m, w);
    Scaled(w, Width(Ints(vs)), m, |vs| - 1);
    Scaled(8, Width(Ints(vs)), m, |vs| - 1);
  }

  lemma WidthAtLeast(vs: seq<int>, m: nat, w: nat)
    requires m < |vs| && (w == 4 || w == 8) && (w == 4 <==> forall j :: 0 <= j < m ==> IsNarrow(vs[j]))
    ensures w <= Width(Ints(vs)) && (!IsNarrow(vs[m]) ==> Width(Ints(vs)) == 8)
  {
    var items := Ints(vs);
    if w == 8 {
      var j :| 0 <= j < m && !IsNarrow(vs[j]);
      assert items[j] == Int(vs[j]);
    }
    assert items[m] == Int(vs[m]);
  }

  lemma Scaled(w: nat, w2: nat, m: nat, n: nat)
    requires m <= n
    ensures w <= w2 ==> w * m <= w2 * n
  {
    if w <= w2 {
      assert w * m <= w2 * m;
      assert w2 * m <= w2 * n;
    }
  }

  /**
    encode_integer_array: a width byte and the integers vs, in 4 bytes each unless one of them
    needs 8.  Every integer is written only where there is room for 8 bytes; -1 stands for NULL.
   */
  method EncodeIntegers(vs: seq<int>, a: array<Byte>, off: nat, room: int) returns (r: int)
    requires off + room <= a.Length && (forall j :: 0 <= j < |vs| ==> IntFits(vs[j]))
    modifies a
    ensures r < 0 <==> room < IntsNeed(vs)
    ensures r >= 0 && vs == [] ==> r == off
    ensures r >= 0 && vs != [] ==> var w := Width(Ints(vs));
            r == off + 1 + w * |vs| <= off + room && a[off..r] == [w as Byte] + Elements(Ints(vs), w)
    ensures forall k :: 0 <= k < a.Length && (k < off || off + room <= k) ==> a[k] == old(a[k])
  {
    hide Encoding, Width, Elements, Ints, IntsNeed;
    NoneEncoded(a[..], off, vs, room);
    if room < 1 { return -1; }
    var m: nat, w: nat := 0, 4;
    while m < |vs|
      invariant m <= |vs| && Encoding(a[..], off, vs, m, w, room)
      invariant forall k :: 0 <= k < a.Length && (k < off || off + room <= k) ==> a[k] == old(a[k])
    {
      var ok;
      ok, w := EncodeNext(vs, m, w, a, off, room);
      if !ok { return -1; }
      m := m + 1;
    }
    if m == 0 { return off; }
    ghost var s := a[..];
    AllEncoded(s, off, vs, w, room);
    a[off] := w as Byte;
    r := off + 1 + w * m;
    LaidAll(s, a[..], off, vs, w);
  }

  /** The first m integers stand in w bytes each, and w is 8 exactly when one of them needs it. */
  ghost predicate Encoding(s: seq<Byte>, off: nat, vs: seq<int>, m: nat, w: nat, room: int) {
    && m <= |vs| && (w == 4 || w == 8) && 1 + w * m <= room && Laid(s, off + 1, vs, m, w)
    && (w == 4 <==> forall j :: 0 <= j < m ==> IsNarrow(vs[j]))
    && (m > 0 ==> 1 + w * (m - 1) + 8 <= room)
  }

  lemma NoneEncoded(s: seq<Byte>, off: nat, vs: seq<int>, room: int)
    requires off + room <= |s|
    ensures room < 1 ==> room < IntsNeed(vs)
    ensures room >= 1 ==> Encoding(s, off, vs, 0, 4, room) && (vs == [] ==> room >= IntsNeed(vs))
  {
  }

  lemma AllEncoded(s: seq<Byte>, off: nat, vs: seq<int>, w: nat, room: int)
    requires vs != [] && off + room <= |s| && Encoding(s, off, vs, |vs|, w, room)
    ensures w == Width(Ints(vs)) && w < 256 && room >= IntsNeed(vs) && off + 1 + w * |vs| <= off + room
            && Laid(s, off + 1, vs, |vs|, w)
  {
    hide Laid, Width;
    WidthIs(vs, w);
  }

  /** The room for one more integer, the switch to 8 bytes when it is the first that needs them, and the integer. */
  method EncodeNext(vs: seq<int>, m: nat, w: nat, a: array<Byte>, off: nat, room: int) returns (ok: bool, w2: nat)
    requires m < |vs| && off + room <= a.Length && Encoding(a[..], off, vs, m, w, room)
    modifies a
    ensures if ok then Encoding(a[..], off, vs, m + 1, w2, room) else room < IntsNeed(vs)
    ensures forall k :: 0 <= k < a.Length && (k < off || off + room <= k) ==> a[k] == old(a[k])
  {
    hide Laid, IntsNeed, IsNarrow;
    w2 := w;
    WidthSoFar(vs, m, w);
    if room - 1 - w * m < 8 { return false, w; }
    if !IsNarrow(vs[m]) && w == 4 {
      if room - 1 - 8 * m < 8 { return false, w; }
      WidenAll(a, off + 1, vs, m);
      w2 := 8;
    }
    AppendInt(a, off + 1, vs, m, w2);
    ok := true;
  }

  lemma LaidAll(s: seq<Byte>, t: seq<Byte>, off: nat, vs: seq<int>, w: nat)
    requires off < |s| && w < 256 && t == s[off := w as Byte] && Laid(s, off + 1, vs, |vs|, w)
    ensures off + 1 + w * |vs| <= |t| && t[off..off + 1 + w * |vs|] == [w as Byte] + Elements(Ints(vs), w)
  {
    hide *;
    LaidSize(s, off + 1, vs, |vs|, w);
    LaidKept(s, t, off + 1, vs, |vs|, w);
    LaidElements(t, off + 1, vs, |vs|, w);
    assert Ints(vs)[..|vs|] == Ints(vs);
    OneInFront(t, off, w * |vs|);
  }

  lemma LaidSize(s: seq<Byte>, off: nat, vs: seq<int>, m: nat, w: nat)
    requires Laid(s, off, vs, m, w)
    ensures 0 <= w * m && off + w * m <= |s|
  {
  }

  lemma OneInFront(t: seq<Byte>, i: nat, n: nat)
    requires i + 1 + n <= |t|
    ensures t[i..i + 1 + n] == [t[i]] + t[i + 1..i + 1 + n]
  {
  }

  lemma WidthIs(vs: seq<int>, w: nat)
    requires (w == 4 || w == 8) && (w == 4 <==> forall j :: 0 <= j < |vs| ==> IsNarrow(vs[j]))
    ensures Width(Ints(vs)) == w
  {
    var items := Ints(vs);
    if w == 8 {
      var j :| 0 <= j < |vs| && !IsNarrow(vs[j]);
      assert items[j] == Int(vs[j]);
    }
  }

  // ---- findtag ----

  lemma {:induction false} TagAt(fs: seq<Field>, last: int, tag: int, k: nat)
    requires Ascending(fs, last) && k < |fs| && fs[k].tag == tag
    ensures FieldIndex(fs, tag) == k
  {
    var n := FieldIndex(fs, tag);
    if n < k { TagsDiffer(fs, last, n, k); }
  }

  /** Do the tags follow each other without gaps, so that import_type sets a base? */
  predicate Dense(fs: seq<Field>) {
    fs != [] && fs[|fs| - 1].tag - fs[0].tag + 1 == |fs|
  }

  lemma {:induction false} Spread(fs: seq<Field>, last: int, i: nat, j: nat)
    requires Ascending(fs, last) && i <= j < |fs|
    ensures fs[j].tag - fs[i].tag >= j - i
    decreases j
  {
    if i < j {
      Spread(fs, last, i, j - 1);
      TagsDiffer(fs, last, j - 1, j);
    }
  }

  /** findtag: by position when the tags are dense, and by halving otherwise. */
  method FindTag(fs: seq<Field>, tag: int) returns (k: nat)
    requires Ascending(fs, -1)
    ensures k == FieldIndex(fs, tag)
  {
    if Dense(fs) {
      var i := tag - fs[0].tag;
      if 0 <= i < |fs| {
        Spread(fs, -1, 0, i);
        Spread(fs, -1, i, |fs| - 1);
        TagAt(fs, -1, tag, i);
        return i;
      }
      forall j | 0 <= j < |fs| ensures fs[j].tag != tag {
        Spread(fs, -1, 0, j);
        Spread(fs, -1, j, |fs| - 1);
      }
      return |fs|;
    }
    var begin, end := 0, |fs|;
    while begin < end
      invariant 0 <= begin <= end <= |fs|
      invariant forall j :: 0 <= j < begin ==> fs[j].tag < tag
      invariant forall j :: end <= j < |fs| ==> fs[j].tag > tag
    {
      var mid := (begin + end) / 2;
      if fs[mid].tag == tag {
        TagAt(fs, -1, tag, mid);
        return mid;
      }
      forall j | 0 <= j < mid ensures fs[j].tag < fs[mid].tag { TagsDiffer(fs, -1, j, mid); }
      forall j | mid < j < |fs| ensures fs[j].tag > fs[mid].tag { TagsDiffer(fs, -1, mid, j); }
      if tag > fs[mid].tag { begin := mid + 1; } else { end := mid; }
    }
    k := |fs|;
  }
}
