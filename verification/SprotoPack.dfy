/**
  The zero-packing compressor: words of 8 bytes lose their zero bytes, and runs of words
  with few zeros are copied behind a marker.
 */
module SprotoPack {
  import opened ByteType

  /** Words of a run before it is written out. */
  const MAX_RUN := 256

  type Word = w: seq<Byte> | |w| == 8 witness [0, 0, 0, 0, 0, 0, 0, 0]

  // ---- one word ----

  function NonZero(w: seq<Byte>): (n: nat)
    ensures n <= |w|
  {
    if w == [] then 0 else (if w[0] != 0 then 1 else 0) + NonZero(w[1..])
  }

  /** The non-zero bytes of w, in order. */
  function Compact(w: seq<Byte>): (c: seq<Byte>)
    ensures |c| == NonZero(w)
  {
    if w == [] then [] else (if w[0] != 0 then [w[0]] else []) + Compact(w[1..])
  }

  /** Bit i is set when byte i of w is not zero. */
  function Mask(w: seq<Byte>): (m: nat) {
    if w == [] then 0 else (if w[0] != 0 then 1 else 0) + 2 * Mask(w[1..])
  }

  /** The first n bytes that mask m describes, with its non-zero bytes taken from c. */
  function Expand(m: nat, n: nat, c: seq<Byte>): seq<Byte>
    decreases n
  {
    if n == 0 then []
    else if m % 2 == 1 && c != [] then [c[0]] + Expand(m / 2, n - 1, c[1..])
    else [0] + Expand(m / 2, n - 1, c)
  }

  function Ones(m: nat, n: nat): (k: nat)
    ensures k <= n
    decreases n
  {
    if n == 0 then 0 else m % 2 + Ones(m / 2, n - 1)
  }

  function Power(n: nat): (p: nat)
    ensures p >= 1
  {
    if n == 0 then 1 else 2 * Power(n - 1)
  }

  lemma {:induction false} MaskBound(w: seq<Byte>)
    ensures Mask(w) < Power(|w|) && (Mask(w) == Power(|w|) - 1 <==> NonZero(w) == |w|)
  {
    if w != [] { MaskBound(w[1..]); }
  }

  lemma {:induction false} ExpandCompact(w: seq<Byte>, rest: seq<Byte>)
    ensures Ones(Mask(w), |w|) == NonZero(w) && Expand(Mask(w), |w|, Compact(w) + rest) == w
  {
    if w != [] {
      ExpandCompact(w[1..], rest);
      assert Mask(w) / 2 == Mask(w[1..]);
      assert w == [w[0]] + w[1..];
      if w[0] != 0 {
        assert (Compact(w) + rest)[1..] == Compact(w[1..]) + rest;
      } else {
        assert Compact(w) + rest == Compact(w[1..]) + rest;
      }
    }
  }

  lemma MaskByte(w: Word)
    ensures Mask(w) < 256 && (Mask(w) == 255 <==> NonZero(w) == 8)
  {
    MaskBound(w);
    assert Power(8) == 256 by { assert Power(4) == 16; }
  }

  /** A word on its own: its mask and its non-zero bytes. */
  function Seg(w: Word): (s: seq<Byte>)
    ensures |s| == 1 + NonZero(w)
  {
    MaskByte(w);
    [Mask(w) as Byte] + Compact(w)
  }

  // ---- the packed form ----

  function Join(ws: seq<Word>): (s: seq<Byte>)
    ensures |s| == 8 * |ws|
  {
    if ws == [] then [] else ws[0] + Join(ws[1..])
  }

  /** How many words at the front of ws continue a run, k of them at most. */
  function Follow(ws: seq<Word>, k: nat): (n: nat)
    ensures n <= |ws| && n <= k
    decreases k
  {
    if k == 0 || ws == [] || NonZero(ws[0]) < 6 then 0 else 1 + Follow(ws[1..], k - 1)
  }

  /** The length of the run that the full word ws[0] starts. */
  function Run(ws: seq<Word>): (n: nat)
    requires ws != []
    ensures 1 <= n <= |ws| && n <= MAX_RUN
  {
    1 + Follow(ws[1..], MAX_RUN - 1)
  }

  /** A run of words, copied behind the marker 0xff and its length less one. */
  function Copied(ws: seq<Word>): (s: seq<Byte>)
    requires 1 <= |ws| <= MAX_RUN
    ensures |s| == 2 + 8 * |ws|
  {
    [255, (|ws| - 1) as Byte] + Join(ws)
  }

  function Pack(ws: seq<Word>): seq<Byte>
    decreases |ws|
  {
    if ws == [] then []
    else if NonZero(ws[0]) == 8 then Copied(ws[..Run(ws)]) + Pack(ws[Run(ws)..])
    else Seg(ws[0]) + Pack(ws[1..])
  }

  datatype Option<T> = None | Some(value: T)

  function Prefixed(s: seq<Byte>, r: Option<seq<Byte>>): Option<seq<Byte>> {
    if r.Some? then Some(s + r.value) else None
  }

  /** The bytes that a packed stream stands for, or None when the stream ends too early. */
  function Unpack(p: seq<Byte>): Option<seq<Byte>>
    decreases |p|
  {
    if p == [] then Some([])
    else if p[0] == 255 then
      if |p| < 2 then None
      else
        var n := (p[1] as int + 1) * 8;
        if |p| - 2 < n then None else Prefixed(p[2..2 + n], Unpack(p[2 + n..]))
    else
      var k := Ones(p[0] as nat, 8);
      if |p| - 1 < k then None else Prefixed(Expand(p[0] as nat, 8, p[1..]), Unpack(p[1 + k..]))
  }

  lemma {:induction false} JoinSplit(ws: seq<Word>, n: nat)
    requires n <= |ws|
    ensures Join(ws) == Join(ws[..n]) + Join(ws[n..])
    decreases n
  {
    if n == 0 {
      assert ws[..0] == [] && ws[0..] == ws;
    } else {
      JoinSplit(ws[1..], n - 1);
      assert ws[1..][..n - 1] == ws[..n][1..];
      assert ws[1..][n - 1..] == ws[n..];
    }
  }

  /** Unpacking undoes packing, for every sequence of whole words. */
  lemma {:induction false} UnpackPack(ws: seq<Word>)
    ensures Unpack(Pack(ws)) == Some(Join(ws))
    decreases |ws|
  {
    if ws != [] {
      if NonZero(ws[0]) == 8 {
        UnpackRun(ws);
      } else {
        UnpackSeg(ws);
      }
    }
  }

  lemma {:induction false} UnpackRun(ws: seq<Word>)
    requires ws != [] && NonZero(ws[0]) == 8
    ensures Unpack(Pack(ws)) == Some(Join(ws))
    decreases |ws|, 0
  {
    var n := Run(ws);
    var p := Pack(ws);
    UnpackPack(ws[n..]);
    JoinSplit(ws, n);
    var run := Copied(ws[..n]);
    assert p == run + Pack(ws[n..]);
    assert p[2..2 + 8 * n] == Join(ws[..n]);
    assert p[2 + 8 * n..] == Pack(ws[n..]);
  }

  lemma {:induction false} UnpackSeg(ws: seq<Word>)
    requires ws != [] && NonZero(ws[0]) < 8
    ensures Unpack(Pack(ws)) == Some(Join(ws))
    decreases |ws|, 0
  {
    UnpackPack(ws[1..]);
    UnpackSegThen(ws[0], Pack(ws[1..]));
    assert Pack(ws) == Seg(ws[0]) + Pack(ws[1..]);
  }

  /** A word on its own in front of a stream. */
  lemma UnpackSegThen(w: Word, rest: seq<Byte>)
    requires NonZero(w) < 8
    ensures Unpack(Seg(w) + rest) == Prefixed(w, Unpack(rest))
  {
    var q := Seg(w) + rest;
    MaskByte(w);
    ExpandCompact(w, rest);
    assert q[0] == Mask(w) as Byte;
    assert q[1..] == Compact(w) + rest;
    assert q[1 + NonZero(w)..] == rest;
    hide Ones, Expand, Mask, NonZero, Compact;
    SegStep(q);
  }

  lemma SegStep(p: seq<Byte>)
    requires p != [] && p[0] != 255
    ensures var k := Ones(p[0] as nat, 8);
            Unpack(p) == if |p| - 1 < k then None else Prefixed(Expand(p[0] as nat, 8, p[1..]), Unpack(p[1 + k..]))
  {
    hide Ones, Expand;
  }

  // ---- size ----

  /** The number of runs of W words at most. */
  function Runs(words: nat): nat {
    (words + MAX_RUN - 1) / MAX_RUN
  }

  /** What `lpack` reserves for sz bytes. */
  function Reserved(sz: nat): nat {
    (sz + 2047) / 2048 * 2 + sz
  }

  lemma RunsUp(a: nat, b: nat)
    requires a >= b
    ensures Runs(a) >= Runs(b)
  {
  }

  lemma {:induction false} FollowStops(ws: seq<Word>, k: nat)
    requires Follow(ws, k) < k && Follow(ws, k) < |ws|
    ensures NonZero(ws[Follow(ws, k)]) < 6
    decreases k
  {
    if NonZero(ws[0]) >= 6 { FollowStops(ws[1..], k - 1); }
  }

  /** Packing W words adds 2 bytes for every 256 of them at most. */
  lemma {:induction false} PackedSize(ws: seq<Word>)
    ensures |Pack(ws)| <= 8 * |ws| + 2 * Runs(|ws|)
    decreases |ws|
  {
    if ws == [] {
    } else if NonZero(ws[0]) < 8 {
      PackedSize(ws[1..]);
      RunsUp(|ws|, |ws| - 1);
    } else {
      var n := Run(ws);
      RunThen(ws);
      if n < |ws| && n < MAX_RUN {
        PackedSize(ws[n + 1..]);
      } else if n < |ws| {
        PackedSize(ws[n..]);
      }
      hide Run, Pack, NonZero;
      if n < |ws| && n < MAX_RUN {
        RunsUp(|ws| - 2, |ws| - n - 1);
        assert Runs(|ws|) >= Runs(|ws| - 2) && Runs(|ws|) >= 1;
      } else if n < |ws| {
        assert Runs(|ws|) == Runs(|ws| - MAX_RUN) + 1;
      }
    }
  }

  /** A run, and the word with more zeros that ends it before it is full. */
  lemma RunThen(ws: seq<Word>)
    requires ws != [] && NonZero(ws[0]) == 8
    ensures var n := Run(ws);
            if n == |ws| then |Pack(ws)| == 2 + 8 * n
            else if n == MAX_RUN then |Pack(ws)| == 2 + 8 * n + |Pack(ws[n..])|
            else |Pack(ws)| <= 2 + 8 * n + 6 + |Pack(ws[n + 1..])|
  {
    var n := Run(ws);
    if n == |ws| {
      assert ws[n..] == [];
    } else if n < MAX_RUN {
      FollowStops(ws[1..], MAX_RUN - 1);
      hide Follow;
      assert ws[n] == ws[1..][n - 1];
      assert ws[n..][1..] == ws[n + 1..];
      assert Pack(ws[n..]) == Seg(ws[n]) + Pack(ws[n + 1..]);
    }
  }

  lemma {:induction false} FollowFull(ws: seq<Word>, k: nat)
    requires forall i :: 0 <= i < |ws| ==> NonZero(ws[i]) == 8
    ensures Follow(ws, k) == if |ws| < k then |ws| else k
    decreases k
  {
    if k > 0 && ws != [] { FollowFull(ws[1..], k - 1); }
  }

  /** The bound is reached when no byte is zero. */
  lemma {:induction false} PackedSizeReached(ws: seq<Word>)
    requires forall i :: 0 <= i < |ws| ==> NonZero(ws[i]) == 8
    ensures |Pack(ws)| == 8 * |ws| + 2 * Runs(|ws|)
    decreases |ws|
  {
    if ws != [] {
      var n := Run(ws);
      PackedSizeReached(ws[n..]);
      hide *;
      FullRun(ws);
      RunsStep(|ws|);
    }
  }

  lemma FullRun(ws: seq<Word>)
    requires ws != [] && (forall i :: 0 <= i < |ws| ==> NonZero(ws[i]) == 8)
    ensures Run(ws) == if |ws| < MAX_RUN then |ws| else MAX_RUN
    ensures |Pack(ws)| == 2 + 8 * Run(ws) + |Pack(ws[Run(ws)..])|
  {
    FollowFull(ws[1..], MAX_RUN - 1);
    hide Follow, NonZero, Join;
  }

  lemma RunsStep(n: nat)
    requires n > 0
    ensures Runs(n) == 1 + Runs(n - if n < MAX_RUN then n else MAX_RUN)
  {
  }
}
