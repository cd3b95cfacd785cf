/** `sproto_pack` and `sproto_unpack` on buffers of a given size. */
module SprotoPackBuffer {
  import opened ByteType
  import opened SprotoPack

  // ---- the source as words ----

  function Zeros(n: nat): (z: seq<Byte>)
    ensures |z| == n && forall i :: 0 <= i < n ==> z[i] == 0
  {
    seq(n, _ => 0)
  }

  function WordCount(n: nat): nat {
    (n + 7) / 8
  }

  /** s with zero bytes up to a multiple of 8. */
  function Padded(s: seq<Byte>): (p: seq<Byte>)
    ensures |p| == 8 * WordCount(|s|)
  {
    s + Zeros(8 * WordCount(|s|) - |s|)
  }

  /** The words of the first n bytes of mem, the last one filled up with zeros. */
  function Words(mem: seq<Byte>, n: nat): (ws: seq<Word>)
    requires n <= |mem|
    ensures |ws| == WordCount(n)
  {
    seq(WordCount(n), i requires 0 <= i < WordCount(n) => WordAt(Padded(mem[..n]), i))
  }

  function WordAt(p: seq<Byte>, i: nat): Word
    requires 8 * i + 8 <= |p|
  {
    p[8 * i..8 * i + 8]
  }

  lemma {:induction false} JoinWords(mem: seq<Byte>, n: nat, i: nat, j: nat)
    requires n <= |mem| && i <= j <= WordCount(n)
    ensures Join(Words(mem, n)[i..j]) == Padded(mem[..n])[8 * i..8 * j]
    decreases j - i
  {
    if i < j {
      var ws, p := Words(mem, n), Padded(mem[..n]);
      JoinWords(mem, n, i + 1, j);
      assert ws[i..j][0] == ws[i] && ws[i..j][1..] == ws[i + 1..j];
      assert p[8 * i..8 * j] == p[8 * i..8 * i + 8] + p[8 * (i + 1)..8 * j];
    }
  }

  // ---- the packing loop on words ----

  /** Words j .. i start a run that may go on: the first one is full. */
  ghost predicate Pending(ws: seq<Word>, j: nat, i: nat) {
    && j <= i <= |ws| && i - j < MAX_RUN
    && (j < i ==> NonZero(ws[j]) == 8)
    && (forall k :: j < k < i ==> NonZero(ws[k]) >= 6)
  }

  lemma {:induction false} FollowAtLeast(ws: seq<Word>, k: nat, n: nat)
    requires n <= |ws| && n <= k && (forall i :: 0 <= i < n ==> NonZero(ws[i]) >= 6)
    requires n == k || n == |ws| || NonZero(ws[n]) < 6
    ensures Follow(ws, k) == n
    decreases k
  {
    if n > 0 { FollowAtLeast(ws[1..], k - 1, n - 1); }
  }

  /** The run that starts at word j ends before word i. */
  lemma RunIs(ws: seq<Word>, j: nat, i: nat)
    requires j < i <= |ws| && i - j <= MAX_RUN && (forall k :: j < k < i ==> NonZero(ws[k]) >= 6)
    requires i - j == MAX_RUN || i == |ws| || NonZero(ws[i]) < 6
    ensures Run(ws[j..]) == i - j && ws[j..][..i - j] == ws[j..i] && ws[j..][i - j..] == ws[i..]
  {
    var rest := ws[j..][1..];
    assert forall k :: 0 <= k < i - j - 1 ==> rest[k] == ws[j + 1 + k];
    if i < |ws| { assert rest[i - j - 1] == ws[i]; }
    FollowAtLeast(rest, MAX_RUN - 1, i - j - 1);
  }

  /** done is the packed form of the words before word j. */
  ghost predicate PackedUpTo(ws: seq<Word>, j: nat, done: seq<Byte>) {
    j <= |ws| && Pack(ws) == done + Pack(ws[j..])
  }

  lemma CloseRun(ws: seq<Word>, j: nat, i: nat, done: seq<Byte>)
    requires PackedUpTo(ws, j, done) && j < i <= |ws| && i - j <= MAX_RUN
    requires NonZero(ws[j]) == 8 && (forall k :: j < k < i ==> NonZero(ws[k]) >= 6)
    requires i - j == MAX_RUN || i == |ws| || NonZero(ws[i]) < 6
    ensures PackedUpTo(ws, i, done + Copied(ws[j..i]))
  {
    RunIs(ws, j, i);
    hide Run, Copied;
    assert Pack(ws[j..]) == Copied(ws[j..i]) + Pack(ws[i..]);
    Assoc(done, Copied(ws[j..i]), Pack(ws[i..]));
  }

  lemma Assoc(a: seq<Byte>, b: seq<Byte>, c: seq<Byte>)
    ensures a + (b + c) == (a + b) + c
  {
  }

  lemma CloseSeg(ws: seq<Word>, j: nat, done: seq<Byte>)
    requires PackedUpTo(ws, j, done) && j < |ws| && NonZero(ws[j]) < 8
    ensures PackedUpTo(ws, j + 1, done + Seg(ws[j]))
  {
    assert ws[j..][1..] == ws[j + 1..];
    Assoc(done, Seg(ws[j]), Pack(ws[j + 1..]));
  }

  lemma ClosedAll(ws: seq<Word>, done: seq<Byte>)
    requires PackedUpTo(ws, |ws|, done)
    ensures done == Pack(ws)
  {
    assert ws[|ws|..] == [];
  }

  // ---- pack_seg and write_ff ----

  /** What pack_seg adds to the size for word w, when a run of n words is pending. */
  function SegSize(w: Word, n: nat): nat {
    if NonZero(w) == 8 || (NonZero(w) >= 6 && n > 0) then if n > 0 then 8 else 10 else NonZero(w) + 1
  }

  lemma {:induction false} TakeNonZero(w: seq<Byte>, i: nat)
    requires i < |w|
    ensures Compact(w[..i + 1]) == Compact(w[..i]) + if w[i] != 0 then [w[i]] else []
    ensures NonZero(w[..i + 1]) == NonZero(w[..i]) + if w[i] != 0 then 1 else 0
    ensures Mask(w[..i + 1]) == Mask(w[..i]) + if w[i] != 0 then Power(i) else 0
    decreases i
  {
    if i > 0 {
      TakeNonZero(w[1..], i - 1);
      assert w[..i + 1][1..] == w[1..][..i] && w[..i][1..] == w[1..][..i - 1];
    } else {
      assert w[..1] == [w[0]] && w[..0] == [];
      assert [w[0]][1..] == [];
    }
  }

  /** pack_seg: writes inside buffer[off .. off + sz], and there completely when it fits and starts no run. */
  method PackSeg(w: Word, buffer: array<Byte>, off: nat, sz: int, n: nat) returns (r: nat)
    requires off + sz <= buffer.Length
    modifies buffer
    ensures r == SegSize(w, n)
    ensures forall k :: 0 <= k < buffer.Length && (k < off || off + sz <= k) ==> buffer[k] == old(buffer[k])
    ensures r < 8 && r <= sz ==> buffer[off..off + r] == Seg(w)
    ensures r == 8 && n == 0 && r <= sz ==> buffer[off..off + r] == Seg(w)
  {
    hide Compact, Mask, NonZero, Power;
    NoBytes(w);
    var header: nat, notzero: nat, i: nat := 0, 0, 0;
    while i < 8
      invariant i <= 8 && notzero == NonZero(w[..i]) && notzero <= i && header == Mask(w[..i])
      invariant forall k :: 0 <= k < buffer.Length && (k < off || off + sz <= k) ==> buffer[k] == old(buffer[k])
      invariant sz >= 1 + notzero ==> buffer[off + 1..off + 1 + notzero] == Compact(w[..i])
    {
      TakeNonZero(w, i);
      if w[i] != 0 {
        ghost var before := buffer[..];
        if sz > 1 + notzero {
          buffer[off + 1 + notzero] := w[i];
          assert buffer[off + 1..off + 1 + notzero] == before[off + 1..off + 1 + notzero];
          assert buffer[off + 1..off + 2 + notzero] == buffer[off + 1..off + 1 + notzero] + [w[i]];
        }
        notzero, header := notzero + 1, header + Power(i);
      }
      i := i + 1;
    }
    assert w[..8] == w;
    if notzero == 8 || (notzero >= 6 && n > 0) {
      return if n > 0 then 8 else 10;
    }
    MaskByte(w);
    if sz > 0 {
      ghost var before := buffer[..];
      buffer[off] := header as Byte;
      if sz >= 1 + notzero {
        assert buffer[off + 1..off + 1 + notzero] == before[off + 1..off + 1 + notzero];
        assert buffer[off..off + 1 + notzero] == [buffer[off]] + buffer[off + 1..off + 1 + notzero];
      }
    }
    r := notzero + 1;
  }

  lemma NoBytes(w: Word)
    ensures w[..0] == [] && NonZero(w[..0]) == 0 && Mask(w[..0]) == 0 && Compact(w[..0]) == []
  {
  }

  /** write_ff: a run of the bytes s, filled up with zeros. */
  method WriteFF(s: seq<Byte>, buffer: array<Byte>, des: nat)
    requires 0 < |s| <= 8 * MAX_RUN && des + 2 + |Padded(s)| <= buffer.Length
    modifies buffer
    ensures forall k :: 0 <= k < buffer.Length && (k < des || des + 2 + |Padded(s)| <= k) ==>
            buffer[k] == old(buffer[k])
    ensures buffer[des..des + 2 + |Padded(s)|] == [255, (WordCount(|s|) - 1) as Byte] + Padded(s)
  {
    var aligned := (|s| + 7) / 8 * 8;
    buffer[des], buffer[des + 1] := 255, (aligned / 8 - 1) as Byte;
    var i := 0;
    while i < aligned
      invariant 0 <= i <= aligned
      invariant forall k :: 0 <= k < buffer.Length && (k < des || des + 2 + aligned <= k) ==>
                buffer[k] == old(buffer[k])
      invariant buffer[des] == 255 && buffer[des + 1] == (WordCount(|s|) - 1) as Byte
      invariant forall k :: 0 <= k < i ==> buffer[des + 2 + k] == Padded(s)[k]
    {
      buffer[des + 2 + i] := if i < |s| then s[i] else 0;
      i := i + 1;
    }
    assert buffer[des + 2..des + 2 + aligned] == Padded(s);
    assert buffer[des..des + 2 + aligned] == [255, (WordCount(|s|) - 1) as Byte] + buffer[des + 2..des + 2 + aligned];
  }

  // ---- sproto_pack ----

  /** Does the packed form end with a run of 256 words? */
  predicate EndsFull(ws: seq<Word>)
    decreases |ws|
  {
    if ws == [] then false
    else if NonZero(ws[0]) == 8 then if Run(ws) == |ws| then Run(ws) == MAX_RUN else EndsFull(ws[Run(ws)..])
    else EndsFull(ws[1..])
  }

  /** Is the partial last word of a source of n bytes the 256th of its run? */
  predicate Overreads(mem: seq<Byte>, n: nat)
    requires n <= |mem|
  {
    n % 8 != 0 && EndsFull(Words(mem, n))
  }

  /**
    What the source writes for the first n bytes of the memory mem: a run that is full is
    copied as it stands, so that a partial last word takes bytes from behind the source.
   */
  function Packed(mem: seq<Byte>, n: nat): seq<Byte>
    requires n <= |mem| && (Overreads(mem, n) ==> 8 * WordCount(n) <= |mem|)
  {
    var p := Pack(Words(mem, n));
    if Overreads(mem, n) && 8 * WordCount(n) - n <= |p| then
      p[..|p| - (8 * WordCount(n) - n)] + mem[n..8 * WordCount(n)] else p
  }

  /** `done` is what has been written for the words before j, of which the last may be the overread one. */
  ghost predicate Written(mem: seq<Byte>, n: nat, j: nat, done: seq<Byte>, out: seq<Byte>)
    requires n <= |mem|
  {
    var ws := Words(mem, n);
    && PackedUpTo(ws, j, done) && |out| == |done|
    && (j < |ws| ==> out == done && (EndsFull(ws) <==> EndsFull(ws[j..])))
    && (j == |ws| && !Overreads(mem, n) ==> out == done)
    && (j == |ws| && Overreads(mem, n) ==>
        var pad := 8 * WordCount(n) - n;
        8 * WordCount(n) <= |mem| && pad <= |done| && out == done[..|done| - pad] + mem[n..8 * WordCount(n)])
  }

  lemma WrittenAll(mem: seq<Byte>, n: nat, done: seq<Byte>, out: seq<Byte>)
    requires n <= |mem| && Written(mem, n, WordCount(n), done, out)
    ensures (Overreads(mem, n) ==> 8 * WordCount(n) <= |mem|) && out == Packed(mem, n) && done == Pack(Words(mem, n))
  {
    hide Pack, EndsFull, Words;
    var ws := Words(mem, n);
    ClosedAll(ws, done);
  }

  lemma CopiedIs(mem: seq<Byte>, n: nat, j: nat, i: nat)
    requires n <= |mem| && j < i <= WordCount(n) && i - j <= MAX_RUN
    ensures Copied(Words(mem, n)[j..i]) == [255, (i - j - 1) as Byte] + Padded(mem[..n])[8 * j..8 * i]
  {
    JoinWords(mem, n, j, i);
  }

  /** Bytes of the source before its end are bytes of the words. */
  lemma SourceSlice(mem: seq<Byte>, n: nat, j: nat, i: nat)
    requires n <= |mem| && j < i && 8 * i <= n
    ensures Padded(mem[..n])[8 * j..8 * i] == mem[8 * j..8 * i] && Padded(mem[8 * j..8 * i]) == mem[8 * j..8 * i]
  {
  }

  lemma EndsFullRun(ws: seq<Word>, j: nat, i: nat)
    requires j < i <= |ws| && i - j <= MAX_RUN && NonZero(ws[j]) == 8 && (forall k :: j < k < i ==> NonZero(ws[k]) >= 6)
    requires i - j == MAX_RUN || i == |ws| || NonZero(ws[i]) < 6
    ensures EndsFull(ws[j..]) == if i == |ws| then i - j == MAX_RUN else EndsFull(ws[i..])
  {
    hide Run;
    RunIs(ws, j, i);
    assert ws[j..][0] == ws[j];
  }

  lemma EndsFullSeg(ws: seq<Word>, j: nat)
    requires j < |ws| && NonZero(ws[j]) < 8
    ensures EndsFull(ws[j..]) == EndsFull(ws[j + 1..])
  {
    assert ws[j..][1..] == ws[j + 1..];
  }

  lemma EndsFullNone()
    ensures !EndsFull([])
  {
  }

  /** A run of whole words is copied from the source. */
  lemma WrittenRun(mem: seq<Byte>, n: nat, j: nat, i: nat, done: seq<Byte>)
    requires n <= |mem| && j < i && 8 * i <= n && Written(mem, n, j, done, done) && i <= WordCount(n)
             && i - j <= MAX_RUN
    requires NonZero(Words(mem, n)[j]) == 8 && (forall k :: j < k < i ==> NonZero(Words(mem, n)[k]) >= 6)
    requires i - j == MAX_RUN || i == WordCount(n) || NonZero(Words(mem, n)[i]) < 6
    ensures var run := [255, (i - j - 1) as Byte] + mem[8 * j..8 * i]; Written(mem, n, i, done + run, done + run)
  {
    hide Pack, EndsFull, Words, Copied, NonZero, Padded;
    var ws := Words(mem, n);
    CopiedIs(mem, n, j, i);
    SourceSlice(mem, n, j, i);
    CloseRun(ws, j, i, done);
    EndsFullRun(ws, j, i);
  }

  lemma WrittenSeg(mem: seq<Byte>, n: nat, j: nat, done: seq<Byte>)
    requires n <= |mem| && j < WordCount(n) && Written(mem, n, j, done, done) && NonZero(Words(mem, n)[j]) < 8
    ensures var seg := Seg(Words(mem, n)[j]); Written(mem, n, j + 1, done + seg, done + seg)
  {
    hide Pack, EndsFull, Words, Seg, NonZero;
    var ws := Words(mem, n);
    CloseSeg(ws, j, done);
    EndsFullSeg(ws, j);
    assert ws[|ws|..] == [];
    EndsFullNone();
  }

  /** The last run, which is not full, is filled up with zeros. */
  lemma WrittenLast(mem: seq<Byte>, n: nat, j: nat, done: seq<Byte>)
    requires n <= |mem| && j < WordCount(n) && Written(mem, n, j, done, done) && WordCount(n) - j < MAX_RUN
    requires NonZero(Words(mem, n)[j]) == 8 && (forall k :: j < k < WordCount(n) ==> NonZero(Words(mem, n)[k]) >= 6)
    ensures Padded(mem[8 * j..n]) == Padded(mem[..n])[8 * j..]
    ensures var run := [255, (WordCount(n) - j - 1) as Byte] + Padded(mem[8 * j..n]);
            Written(mem, n, WordCount(n), done + run, done + run)
  {
    hide *;
    LastRunWritten(mem, n, j, done);
    LastSlice(mem, n, j);
    CopiedIs(mem, n, j, WordCount(n));
  }

  lemma LastRunWritten(mem: seq<Byte>, n: nat, j: nat, done: seq<Byte>)
    requires n <= |mem| && j < WordCount(n) && Written(mem, n, j, done, done) && WordCount(n) - j < MAX_RUN
    requires NonZero(Words(mem, n)[j]) == 8 && (forall k :: j < k < WordCount(n) ==> NonZero(Words(mem, n)[k]) >= 6)
    ensures var run := Copied(Words(mem, n)[j..WordCount(n)]); Written(mem, n, WordCount(n), done + run, done + run)
  {
    WrittenUpTo(mem, n, j, done);
    hide *;
    var ws := Words(mem, n);
    CloseRun(ws, j, WordCount(n), done);
    EndsFullRun(ws, j, WordCount(n));
    NotOver(mem, n, j, done);
    WrittenOf(mem, n, WordCount(n), done + Copied(ws[j..WordCount(n)]));
  }

  lemma WrittenUpTo(mem: seq<Byte>, n: nat, j: nat, done: seq<Byte>)
    requires n <= |mem| && Written(mem, n, j, done, done)
    ensures PackedUpTo(Words(mem, n), j, done)
  {
  }

  lemma NotOver(mem: seq<Byte>, n: nat, j: nat, done: seq<Byte>)
    requires n <= |mem| && j < WordCount(n) && Written(mem, n, j, done, done) && !EndsFull(Words(mem, n)[j..])
    ensures !Overreads(mem, n)
  {
    hide EndsFull, Words, PackedUpTo;
  }

  lemma WrittenOf(mem: seq<Byte>, n: nat, i: nat, done: seq<Byte>)
    requires n <= |mem| && PackedUpTo(Words(mem, n), i, done)
    requires i == WordCount(n) && !Overreads(mem, n)
    ensures Written(mem, n, i, done, done)
  {
    hide Pack, EndsFull, Words, PackedUpTo, Overreads;
  }

  lemma LastSlice(mem: seq<Byte>, n: nat, j: nat)
    requires n <= |mem| && j < WordCount(n)
    ensures Padded(mem[8 * j..n]) == Padded(mem[..n])[8 * j..] == Padded(mem[..n])[8 * j..8 * WordCount(n)]
    ensures WordCount(n - 8 * j) == WordCount(n) - j
  {
  }

  /** A full run whose last word is partial is copied with the bytes that follow the source. */
  lemma WrittenOver(mem: seq<Byte>, n: nat, j: nat, done: seq<Byte>)
    requires n % 8 != 0 && n <= 8 * WordCount(n) <= |mem| && WordCount(n) - j == MAX_RUN && j >= 0
             && Written(mem, n, j, done, done)
    requires NonZero(Words(mem, n)[j]) == 8 && (forall k :: j < k < WordCount(n) ==> NonZero(Words(mem, n)[k]) >= 6)
    ensures Written(mem, n, WordCount(n), done + Copied(Words(mem, n)[j..WordCount(n)]),
            done + [255, 255] + mem[8 * j..8 * WordCount(n)])
    ensures Overreads(mem, n)
  {
    hide Pack, EndsFull, Words, Copied, NonZero, Padded;
    var ws, w := Words(mem, n), WordCount(n);
    CopiedIs(mem, n, j, w);
    CloseRun(ws, j, w, done);
    EndsFullRun(ws, j, w);
    OverSlice(mem, n, j);
    var run := Copied(ws[j..w]);
    var pad := 8 * w - n;
    assert |done + run| - pad == |done| + (|run| - pad);
    assert (done + run)[..|done + run| - pad] == done + run[..|run| - pad];
    Assoc(done, run[..|run| - pad], mem[n..8 * w]);
    Assoc(done, [255, 255], mem[8 * j..8 * w]);
  }

  lemma FrontSlice(mem: seq<Byte>, n: nat, z: seq<Byte>, i: nat)
    requires i <= n <= |mem|
    ensures (mem[..n] + z)[i..n + |z|][..n - i] == mem[i..n]
  {
  }

  lemma OverSlice(mem: seq<Byte>, n: nat, j: nat)
    requires n <= 8 * WordCount(n) <= |mem| && j < WordCount(n)
    ensures var w := WordCount(n); var r := [255, 255] + Padded(mem[..n])[8 * j..8 * w]; var pad := 8 * w - n;
            r[..|r| - pad] + mem[n..8 * w] == [255, 255] + mem[8 * j..8 * w]
  {
    var w := WordCount(n);
    var q, m := Padded(mem[..n])[8 * j..8 * w], n - 8 * j;
    assert mem[8 * j..8 * w] == mem[8 * j..n] + mem[n..8 * w];
    FrontSlice(mem, n, Zeros(8 * w - n), 8 * j);
    assert ([255, 255] + q)[..2 + m] == [255, 255] + q[..m];
    Assoc([255, 255], mem[8 * j..n], mem[n..8 * w]);
  }

  /** buffer holds `out` as long as that fits in the first `limit` bytes, and nothing was written behind them. */
  ghost predicate Holds(buffer: seq<Byte>, was: seq<Byte>, limit: int, out: seq<Byte>, size: nat) {
    && |buffer| == |was| && |out| <= size
    && (forall k :: 0 <= k < |buffer| && limit <= k ==> buffer[k] == was[k])
    && (size <= limit ==> size <= |buffer| && buffer[..|out|] == out)
  }

  /** Bytes from |out| on have changed. */
  lemma StillHolds(b1: seq<Byte>, b2: seq<Byte>, was: seq<Byte>, limit: int, out: seq<Byte>, size: nat, size2: nat)
    requires Holds(b1, was, limit, out, size) && size <= size2 && |b2| == |b1| && limit <= |b1|
    requires forall k :: 0 <= k < |b2| && (k < |out| || limit <= k) ==> b2[k] == b1[k]
    ensures Holds(b2, was, limit, out, size2)
  {
    if size2 <= limit {
      assert b2[..|out|] == b1[..|out|];
    }
  }

  lemma HoldsMore(b: seq<Byte>, was: seq<Byte>, limit: int, out: seq<Byte>, size: nat, more: seq<Byte>)
    requires Holds(b, was, limit, out, size) && |out| + |more| <= size
    requires size <= limit ==> b[|out|..|out| + |more|] == more
    ensures Holds(b, was, limit, out + more, size)
  {
    if size <= limit {
      assert b[..|out| + |more|] == b[..|out|] + b[|out|..|out| + |more|];
    }
  }

  /** After i words, of which the last ffn are a pending run, `done` is packed and `out` is written. */
  ghost predicate LoopState(mem: seq<Byte>, n: nat, i: nat, ffn: nat, done: seq<Byte>, out: seq<Byte>, size: nat)
    requires n <= |mem|
  {
    && ffn <= i <= WordCount(n) && Pending(Words(mem, n), i - ffn, i) && Written(mem, n, i - ffn, done, out)
    && size == |done| + (if ffn > 0 then 2 + 8 * ffn else 0)
  }

  lemma LoopStarts(mem: seq<Byte>, n: nat)
    requires n <= |mem|
    ensures LoopState(mem, n, 0, 0, [], [], 0)
  {
    hide Pack, EndsFull, Words, Overreads;
    var ws := Words(mem, n);
    assert ws[0..] == ws && [] + Pack(ws) == Pack(ws);
    if ws == [] {
      EndsFullNone();
      NoOverread(mem, n);
    }
  }

  lemma NoOverread(mem: seq<Byte>, n: nat)
    requires n <= |mem| && WordCount(n) == 0
    ensures !Overreads(mem, n)
  {
  }

  /** Word i joins the pending run, or starts one. */
  lemma RunGrows(mem: seq<Byte>, n: nat, i: nat, ffn: nat, done: seq<Byte>, out: seq<Byte>, size: nat)
    requires n <= |mem| && i < WordCount(n) && LoopState(mem, n, i, ffn, done, out, size) && ffn + 1 < MAX_RUN
    requires NonZero(Words(mem, n)[i]) == 8 || (ffn > 0 && NonZero(Words(mem, n)[i]) >= 6)
    ensures LoopState(mem, n, i + 1, ffn + 1, done, out, size + (if ffn > 0 then 8 else 10))
  {
    hide Words, NonZero, Written;
  }

  lemma OutIsDone(mem: seq<Byte>, n: nat, i: nat, ffn: nat, done: seq<Byte>, out: seq<Byte>, size: nat)
    requires n <= |mem| && LoopState(mem, n, i, ffn, done, out, size) && i - ffn < WordCount(n)
    ensures out == done && Written(mem, n, i - ffn, done, done)
  {
    hide Words, NonZero, PackedUpTo, EndsFull, Overreads;
  }

  /** The bytes of a run as the source writes them. */
  function Marked(s: seq<Byte>): (r: seq<Byte>)
    requires 0 < |s| <= 8 * MAX_RUN
    ensures |r| == 2 + |Padded(s)|
  {
    [255, (WordCount(|s|) - 1) as Byte] + Padded(s)
  }

  /** Word i ends the pending run, if there is one, and stands on its own. */
  lemma RunEnds(mem: seq<Byte>, n: nat, i: nat, ffn: nat, done: seq<Byte>, out: seq<Byte>, size: nat)
    returns (run: seq<Byte>)
    requires n <= |mem| && i < WordCount(n) && LoopState(mem, n, i, ffn, done, out, size)
    requires NonZero(Words(mem, n)[i]) < (if ffn > 0 then 6 else 8)
    ensures out == done && |run| == (if ffn > 0 then 2 + 8 * ffn else 0)
    ensures ffn > 0 ==> 8 * i <= n && run == Marked(mem[8 * (i - ffn)..8 * i])
    ensures var seg := Seg(Words(mem, n)[i]);
            LoopState(mem, n, i + 1, 0, done + run + seg, done + run + seg, size + |seg|)
  {
    hide Words, NonZero, Written, Seg, Padded;
    OutIsDone(mem, n, i, ffn, done, out, size);
    if ffn == 0 {
      run := [];
      assert done + run == done;
      WrittenSeg(mem, n, i, done);
    } else {
      var j := i - ffn;
      SourceSlice(mem, n, j, i);
      run := [255, (i - j - 1) as Byte] + mem[8 * j..8 * i];
      WrittenRun(mem, n, j, i, done);
      WrittenSeg(mem, n, i, done + run);
    }
  }

  /** Word i is the 256th of the pending run. */
  lemma RunFills(mem: seq<Byte>, n: nat, i: nat, done: seq<Byte>, out: seq<Byte>, size: nat)
    returns (run: seq<Byte>, copied: seq<Byte>)
    requires n <= |mem| && i < WordCount(n) && MAX_RUN - 1 <= i && LoopState(mem, n, i, MAX_RUN - 1, done, out, size)
    requires NonZero(Words(mem, n)[i]) >= 6 && (Overreads(mem, n) ==> 8 * WordCount(n) <= |mem|)
    ensures out == done && 8 * i + 8 <= |mem| && copied == Marked(mem[8 * (i + 1 - MAX_RUN)..8 * (i + 1)])
    ensures |run| == |copied| == 2 + 8 * MAX_RUN
    ensures LoopState(mem, n, i + 1, 0, done + run, done + copied, size + 8)
  {
    hide Words, NonZero, Written, Padded, Overreads, Copied, EndsFull;
    OutIsDone(mem, n, i, MAX_RUN - 1, done, out, size);
    var j := i + 1 - MAX_RUN;
    if 8 * (i + 1) <= n {
      SourceSlice(mem, n, j, i + 1);
      run := [255, (i - j) as Byte] + mem[8 * j..8 * (i + 1)];
      copied := run;
      WrittenRun(mem, n, j, i + 1, done);
    } else {
      LastIsOver(mem, n, i, done);
      run := Copied(Words(mem, n)[j..WordCount(n)]);
      copied := [255, 255] + mem[8 * j..8 * WordCount(n)];
      WrittenOver(mem, n, j, done);
      Whole(mem[8 * j..8 * (i + 1)]);
      Assoc(done, [255, 255], mem[8 * j..8 * WordCount(n)]);
    }
  }

  lemma Whole(s: seq<Byte>)
    requires |s| % 8 == 0
    ensures Padded(s) == s
  {
  }

  lemma LastIsOver(mem: seq<Byte>, n: nat, i: nat, done: seq<Byte>)
    requires n <= |mem| && i < WordCount(n) && n < 8 * (i + 1) && MAX_RUN <= i + 1
    requires Written(mem, n, i + 1 - MAX_RUN, done, done) && (Overreads(mem, n) ==> 8 * WordCount(n) <= |mem|)
    requires var ws, j := Words(mem, n), i + 1 - MAX_RUN; NonZero(ws[j]) == 8 && forall k :: j < k <= i ==>
             NonZero(ws[k]) >= 6
    ensures i + 1 == WordCount(n) && n % 8 != 0 && 8 * WordCount(n) <= |mem|
  {
    hide Words, NonZero, Padded, PackedUpTo, EndsFull;
    EndsFullRun(Words(mem, n), i + 1 - MAX_RUN, i + 1);
  }

  lemma AllRead(mem: seq<Byte>, n: nat, ffn: nat, done: seq<Byte>, out: seq<Byte>, size: nat)
    returns (run: seq<Byte>)
    requires n <= |mem| && LoopState(mem, n, WordCount(n), ffn, done, out, size)
    ensures ffn > 0 ==> out == done && 8 * (WordCount(n) - ffn) < n && run == Marked(mem[8 * (WordCount(n) - ffn)..n])
    ensures ffn == 0 ==> run == []
    ensures size == |done + run| && Written(mem, n, WordCount(n), done + run, out + run)
  {
    hide Words, NonZero, Written, Padded;
    if ffn == 0 {
      run := [];
      assert done + run == done && out + run == out;
    } else {
      OutIsDone(mem, n, WordCount(n), ffn, done, out, size);
      LastSlice(mem, n, WordCount(n) - ffn);
      run := [255, (ffn - 1) as Byte] + Padded(mem[8 * (WordCount(n) - ffn)..n]);
      WrittenLast(mem, n, WordCount(n) - ffn, done);
    }
  }

  /** A pending run is written at its place when the bytes so far fit. */
  method FlushRun(s: seq<Byte>, buffer: array<Byte>, des: nat, bufsz: int, size: nat, ghost was: seq<Byte>,
      ghost out: seq<Byte>)
    requires 0 < |s| <= 8 * MAX_RUN && des == |out| && |out| + 2 + |Padded(s)| <= size && bufsz <= buffer.Length
    requires Holds(buffer[..], was, bufsz, out, size)
    modifies buffer
    ensures Holds(buffer[..], was, bufsz, out + Marked(s), size)
    ensures forall k :: 0 <= k < buffer.Length && des + 2 + |Padded(s)| <= k ==> buffer[k] == old(buffer[k])
  {
    hide Padded;
    if size <= bufsz {
      ghost var b1 := buffer[..];
      WriteFF(s, buffer, des);
      StillHolds(b1, buffer[..], was, bufsz, out, size, size);
      assert buffer[..][|out|..|out| + |Marked(s)|] == Marked(s);
    }
    HoldsMore(buffer[..], was, bufsz, out, size, Marked(s));
  }

  /** A word that stands on its own, behind the pending run that it ends. */
  method EndRun(mem: seq<Byte>, n: nat, i: nat, ffn: nat, buffer: array<Byte>, des: nat, bufsz: int, size: nat,
                ghost was: seq<Byte>, ghost done: seq<Byte>, ghost out: seq<Byte>)
    returns (r: nat, ghost done2: seq<Byte>)
    requires n <= |mem| && i < WordCount(n) && bufsz <= buffer.Length && LoopState(mem, n, i, ffn, done, out, size)
    requires NonZero(Words(mem, n)[i]) < (if ffn > 0 then 6 else 8) && (ffn > 0 ==> des == |done|)
    requires Holds(buffer[..], was, bufsz, out, size)
    modifies buffer
    ensures r == SegSize(Words(mem, n)[i], ffn) && LoopState(mem, n, i + 1, 0, done2, done2, size + r)
    ensures Holds(buffer[..], was, bufsz, done2, size + r) && |done2| == size + r
  {
    hide Words, NonZero, Padded, LoopState, Holds, Seg;
    var w := Words(mem, n)[i];
    ghost var run := RunEnds(mem, n, i, ffn, done, out, size);
    StateSize(mem, n, i, ffn, done, out, size);
    ghost var b1 := buffer[..];
    r := PackSeg(w, buffer, size, bufsz - size, ffn);
    HoldsKept(b1, buffer[..], was, bufsz, out, size, size + r);
    ghost var b2 := buffer[..];
    assert size + r <= bufsz ==> b2[size..size + r] == Seg(w);
    if ffn > 0 {
      FlushRun(mem[8 * (i - ffn)..8 * i], buffer, des, bufsz, size + r, was, out);
    } else {
      assert out + run == out;
    }
    assert size + r <= bufsz ==> buffer[..][size..size + r] == b2[size..size + r];
    done2 := done + run + Seg(w);
    HoldsMore(buffer[..], was, bufsz, out + run, size + r, Seg(w));
  }

  lemma StateSize(mem: seq<Byte>, n: nat, i: nat, ffn: nat, done: seq<Byte>, out: seq<Byte>, size: nat)
    requires n <= |mem| && LoopState(mem, n, i, ffn, done, out, size)
    ensures size == |done| + (if ffn > 0 then 2 + 8 * ffn else 0) && ffn <= i && ffn < MAX_RUN && |out| == |done|
  {
    hide Words, NonZero, PackedUpTo, EndsFull;
  }

  lemma HoldsKept(b1: seq<Byte>, b2: seq<Byte>, was: seq<Byte>, limit: int, out: seq<Byte>, size: nat, size2: nat)
    requires Holds(b1, was, limit, out, size) && size <= size2 && |b2| == |b1| && limit <= |b1|
    requires forall k :: 0 <= k < |b2| && (k < size || limit <= k) ==> b2[k] == b1[k]
    ensures Holds(b2, was, limit, out, size2)
  {
    StillHolds(b1, b2, was, limit, out, size, size2);
  }

  /**
    sproto_pack.  The size does not depend on the room in the buffer, and when there is room
    enough the buffer holds the packed form.
   */
  method PackInto(mem: seq<Byte>, n: nat, buffer: array<Byte>, bufsz: int) returns (size: nat)
    requires n <= |mem| && bufsz <= buffer.Length && (Overreads(mem, n) ==> 8 * WordCount(n) <= |mem|)
    modifies buffer
    ensures size == |Pack(Words(mem, n))|
    ensures size <= bufsz ==> buffer[..size] == Packed(mem, n)
    ensures forall k :: 0 <= k < buffer.Length && bufsz <= k ==> buffer[k] == old(buffer[k])
  {
    hide Pack, EndsFull, Words, NonZero, Padded, Overreads, LoopState, Holds, Written;
    size := 0;
    var i, ffn, des: nat := 0, 0, 0;
    var start: seq<Byte> := [];
    ghost var was, done, out := buffer[..], [], [];
    LoopStarts(mem, n);
    NothingHeld(was, bufsz);
    while i < WordCount(n)
      invariant i <= WordCount(n) && LoopState(mem, n, i, ffn, done, out, size)
      invariant Holds(buffer[..], was, bufsz, out, size)
      invariant ffn > 0 ==> des == |out|
      invariant ffn == 1 ==> i > 0 && start == Words(mem, n)[i - 1]
    {
      StateSize(mem, n, i, ffn, done, out, size);
      OutIsDone(mem, n, i, ffn, done, out, size) by { assert i - ffn < WordCount(n); }
      var w := Words(mem, n)[i];
      if NonZero(w) == 8 || (NonZero(w) >= 6 && ffn > 0) {
        ghost var b1 := buffer[..];
        var r := PackSeg(w, buffer, size, bufsz - size, ffn);
        HoldsKept(b1, buffer[..], was, bufsz, out, size, size + r);
        if ffn == 0 {
          start, des := w, size;
        }
        if ffn + 1 < MAX_RUN {
          RunGrows(mem, n, i, ffn, done, out, size);
          ffn := ffn + 1;
        } else {
          ghost var run, copied := RunFills(mem, n, i, done, out, size);
          FlushRun(mem[8 * (i + 1 - MAX_RUN)..8 * (i + 1)], buffer, des, bufsz, size + r, was, out);
          done, out, ffn := done + run, done + copied, 0;
        }
        size := size + r;
      } else {
        var r;
        r, done := EndRun(mem, n, i, ffn, buffer, des, bufsz, size, was, done, out);
        out, ffn, size := done, 0, size + r;
      }
      i := i + 1;
    }
    ghost var run := AllRead(mem, n, ffn, done, out, size);
    StateSize(mem, n, i, ffn, done, out, size);
    if ffn > 0 {
      OneWord(mem, n, ffn);
      FlushRun(if ffn == 1 then start else mem[8 * (i - ffn)..n], buffer, des, bufsz, size, was, out);
    } else {
      assert out + run == out;
    }
    WrittenAll(mem, n, done + run, out + run);
    HeldAll(buffer[..], was, bufsz, out + run, size);
  }

  /** A run of one word is written from the word itself. */
  lemma OneWord(mem: seq<Byte>, n: nat, ffn: nat)
    requires n <= |mem| && 0 < ffn <= WordCount(n) && ffn < MAX_RUN
    ensures ffn == 1 ==>
            |Words(mem, n)[WordCount(n) - 1]| == 8
            && Marked(mem[8 * (WordCount(n) - 1)..n]) == Marked(Words(mem, n)[WordCount(n) - 1])
    ensures 0 < |mem[8 * (WordCount(n) - ffn)..n]| <= 8 * MAX_RUN
            && |Padded(mem[8 * (WordCount(n) - ffn)..n])| == 8 * ffn
  {
    LastSlice(mem, n, WordCount(n) - ffn);
    if ffn == 1 { Whole(Words(mem, n)[WordCount(n) - 1]); }
  }

  lemma HeldAll(b: seq<Byte>, was: seq<Byte>, limit: int, out: seq<Byte>, size: nat)
    requires Holds(b, was, limit, out, size) && |out| == size
    ensures size <= limit ==> size <= |b| && b[..size] == out
    ensures |b| == |was| && forall k :: 0 <= k < |b| && limit <= k ==> b[k] == was[k]
  {
  }

  lemma NothingHeld(was: seq<Byte>, limit: int)
    requires limit <= |was|
    ensures Holds(was, was, limit, [], 0)
  {
  }

  // ---- unpacking what was packed ----

  lemma {:induction false} PatchedUnpack(ws: seq<Word>, pad: nat, tail: seq<Byte>)
    requires EndsFull(ws) && |tail| == pad <= 8
    ensures pad <= |Pack(ws)| && Unpack(Pack(ws)[..|Pack(ws)| - pad] + tail) == Some(Join(ws)[..8 * |ws| - pad] + tail)
    decreases |ws|
  {
    if NonZero(ws[0]) < 8 {
      PatchedSeg(ws, pad, tail);
    } else if Run(ws) < |ws| {
      PatchedRun(ws, pad, tail);
    } else {
      PatchedLast(ws, pad, tail);
    }
  }

  lemma PatchedLast(ws: seq<Word>, pad: nat, tail: seq<Byte>)
    requires ws != [] && NonZero(ws[0]) == 8 && Run(ws) == |ws| && |tail| == pad <= 8
    ensures pad <= |Pack(ws)| && Unpack(Pack(ws)[..|Pack(ws)| - pad] + tail) == Some(Join(ws)[..8 * |ws| - pad] + tail)
  {
    var p, j := Pack(ws), Join(ws);
    PackOneRun(ws);
    hide *;
    var m := [255, (|ws| - 1) as Byte];
    PatchTail(m, j, pad, tail);
    UnpackMarked(m, j[..|j| - pad] + tail, |ws|);
  }

  lemma UnpackMarked(m: seq<Byte>, s: seq<Byte>, n: nat)
    requires 1 <= n <= MAX_RUN && |s| == 8 * n && m == [255, (n - 1) as Byte]
    ensures Unpack(m + s) == Some(s)
  {
    hide Unpack;
    assert (m + s)[2..] == s;
    UnpackOneRun(m + s, n);
  }

  lemma PackOneRun(ws: seq<Word>)
    requires ws != [] && NonZero(ws[0]) == 8 && Run(ws) == |ws|
    ensures Pack(ws) == [255, (|ws| - 1) as Byte] + Join(ws)
  {
    hide Join, Run;
    assert ws[..|ws|] == ws && ws[|ws|..] == [];
    assert Pack(ws[|ws|..]) == [];
    assert Pack(ws) == Copied(ws) + [];
    assert Copied(ws) + [] == Copied(ws);
  }

  lemma UnpackOneRun(q: seq<Byte>, n: nat)
    requires 1 <= n <= MAX_RUN && |q| == 2 + 8 * n && q[0] == 255 && q[1] as int == n - 1
    ensures Unpack(q) == Some(q[2..])
  {
    assert q[2..2 + 8 * n] == q[2..] && q[2 + 8 * n..] == [];
    assert Unpack(q[2 + 8 * n..]) == Some([]);
    assert q[2..] + [] == q[2..];
  }

  /** A run in front of a stream. */
  lemma UnpackRunThen(ws: seq<Word>, rest: seq<Byte>)
    requires 1 <= |ws| <= MAX_RUN
    ensures Unpack(Copied(ws) + rest) == Prefixed(Join(ws), Unpack(rest))
  {
    var q := Copied(ws) + rest;
    assert q[2..2 + 8 * |ws|] == Join(ws) && q[2 + 8 * |ws|..] == rest;
  }

  lemma PatchTail(a: seq<Byte>, b: seq<Byte>, pad: nat, tail: seq<Byte>)
    requires pad <= |b|
    ensures (a + b)[..|a + b| - pad] + tail == a + (b[..|b| - pad] + tail)
  {
  }

  lemma {:induction false} PatchedRun(ws: seq<Word>, pad: nat, tail: seq<Byte>)
    requires EndsFull(ws) && NonZero(ws[0]) == 8 && Run(ws) < |ws| && |tail| == pad <= 8
    ensures pad <= |Pack(ws)| && Unpack(Pack(ws)[..|Pack(ws)| - pad] + tail) == Some(Join(ws)[..8 * |ws| - pad] + tail)
    decreases |ws|, 0
  {
    hide Run, Copied, Join, Unpack;
    var n := Run(ws);
    var rest := ws[n..];
    PatchedUnpack(rest, pad, tail);
    JoinSplit(ws, n);
    PatchTail(Copied(ws[..n]), Pack(rest), pad, tail);
    PatchTail(Join(ws[..n]), Join(rest), pad, tail);
    UnpackRunThen(ws[..n], Pack(rest)[..|Pack(rest)| - pad] + tail);
  }

  lemma {:induction false} PatchedSeg(ws: seq<Word>, pad: nat, tail: seq<Byte>)
    requires EndsFull(ws) && NonZero(ws[0]) < 8 && |tail| == pad <= 8
    ensures pad <= |Pack(ws)| && Unpack(Pack(ws)[..|Pack(ws)| - pad] + tail) == Some(Join(ws)[..8 * |ws| - pad] + tail)
    decreases |ws|, 0
  {
    hide Run, Seg, Unpack;
    var rest := ws[1..];
    PatchedUnpack(rest, pad, tail);
    PatchTail(Seg(ws[0]), Pack(rest), pad, tail);
    PatchTail(ws[0], Join(rest), pad, tail);
    UnpackSegThen(ws[0], Pack(rest)[..|Pack(rest)| - pad] + tail);
  }

  /**
    Unpacking gives back the source, filled up with zeros to whole words, exactly when no
    partial last word is the 256th of its run or the bytes behind the source are zero.
   */
  lemma UnpackPacked(mem: seq<Byte>, n: nat)
    requires n <= |mem| && (Overreads(mem, n) ==> 8 * WordCount(n) <= |mem|)
    ensures Unpack(Packed(mem, n)) == Some(Padded(mem[..n])) <==>
            !Overreads(mem, n) || mem[n..8 * WordCount(n)] == Zeros(8 * WordCount(n) - n)
  {
    hide Unpack, Pack, Words, EndsFull;
    var ws, w := Words(mem, n), WordCount(n);
    JoinWords(mem, n, 0, w);
    assert ws[0..w] == ws && Padded(mem[..n])[0..8 * w] == Padded(mem[..n]);
    if Overreads(mem, n) {
      var tail := mem[n..8 * w];
      PatchedUnpack(ws, 8 * w - n, tail);
      assert Join(ws)[..n] == mem[..n];
      assert Padded(mem[..n])[n..] == Zeros(8 * w - n);
      assert (mem[..n] + tail)[n..] == tail;
    } else {
      UnpackPack(ws);
    }
  }

  /** What `lpack` reserves is enough for whole words, and for them no less would do when no byte is zero. */
  lemma PackedFits(mem: seq<Byte>, n: nat)
    requires n <= |mem| && n % 8 == 0
    ensures |Packed(mem, n)| <= Reserved(n)
    ensures (forall i :: 0 <= i < n ==> mem[i] != 0) ==> |Packed(mem, n)| == Reserved(n)
  {
    hide Pack, NonZero, EndsFull, Words, Padded;
    var ws := Words(mem, n);
    PackedSize(ws);
    assert Runs(|ws|) == (n + 2047) / 2048;
    if forall i :: 0 <= i < n ==> mem[i] != 0 {
      forall i | 0 <= i < |ws| ensures NonZero(ws[i]) == 8 {
        WholeWord(mem, n, i);
        AllNonZero(ws[i]);
      }
      PackedSizeReached(ws);
    }
  }

  lemma WholeWord(mem: seq<Byte>, n: nat, i: nat)
    requires n <= |mem| && n % 8 == 0 && i < WordCount(n)
    ensures Words(mem, n)[i] == mem[8 * i..8 * i + 8]
  {
  }

  lemma {:induction false} AllNonZero(w: seq<Byte>)
    requires forall i :: 0 <= i < |w| ==> w[i] != 0
    ensures NonZero(w) == |w|
  {
    if w != [] { AllNonZero(w[1..]); }
  }

  // ---- sproto_unpack ----

  /** The n-th bit of a header. */
  function Bit(m: nat, n: nat): nat
    decreases n
  {
    if n == 0 then m % 2 else Bit(m / 2, n - 1)
  }

  lemma {:induction false} ExpandStep(m: nat, n: nat, c: seq<Byte>)
    requires Ones(m, n + 1) <= |c|
    ensures Ones(m, n + 1) == Ones(m, n) + Bit(m, n)
    ensures Expand(m, n + 1, c) == Expand(m, n, c) + [if Bit(m, n) == 1 then c[Ones(m, n)] else 0]
    decreases n
  {
    if n > 0 {
      var c2 := if m % 2 == 1 then c[1..] else c;
      ExpandStep(m / 2, n - 1, c2);
    }
  }

  lemma {:induction false} OnesGrow(m: nat, i: nat, n: nat)
    requires i <= n
    ensures Ones(m, i) <= Ones(m, n)
    decreases i
  {
    if i > 0 { OnesGrow(m / 2, i - 1, n - 1); }
  }

  /** `out` is what the bytes before pos stand for, in the first n bytes of mem. */
  ghost predicate Read(mem: seq<Byte>, n: nat, pos: nat, out: seq<Byte>)
    requires n <= |mem|
  {
    pos <= n && Unpack(mem[..n]) == Prefixed(out, Unpack(mem[pos..n]))
  }

  lemma ReadRun(mem: seq<Byte>, n: nat, pos: nat, out: seq<Byte>)
    requires n <= |mem| && Read(mem, n, pos, out) && pos < n && mem[pos] == 255
    ensures pos + 2 <= n && pos + 2 + (mem[pos + 1] as int + 1) * 8 <= n ==>
            Read(mem, n, pos + 2 + (mem[pos + 1] as int + 1) * 8,
              out + mem[pos + 2..pos + 2 + (mem[pos + 1] as int + 1) * 8])
    ensures pos + 2 > n || pos + 2 + (mem[pos + 1] as int + 1) * 8 > n ==> Unpack(mem[..n]) == None
  {
    hide Unpack;
    var p := mem[pos..n];
    RunStep(p);
    if pos + 2 <= n {
      var k := (mem[pos + 1] as int + 1) * 8;
      if pos + 2 + k <= n {
        SubSlice(mem, pos, n, 2, 2 + k);
        PrefixTwice(out, mem[pos + 2..pos + 2 + k], Unpack(mem[pos + 2 + k..n]));
      }
    }
  }

  lemma SubSlice(mem: seq<Byte>, a: nat, b: nat, i: nat, j: nat)
    requires a <= b <= |mem| && i <= j <= b - a
    ensures mem[a..b][i..j] == mem[a + i..a + j] && mem[a..b][j..] == mem[a + j..b]
  {
    var l, r, t := mem[a..b][i..j], mem[a + i..a + j], mem[a..b];
    forall k | 0 <= k < j - i ensures l[k] == r[k] {
      assert l[k] == t[i + k] && t[i + k] == mem[a + (i + k)];
    }
    var l2, r2 := mem[a..b][j..], mem[a + j..b];
    forall k | 0 <= k < b - a - j ensures l2[k] == r2[k] {
      assert l2[k] == t[j + k] && t[j + k] == mem[a + (j + k)];
    }
  }

  lemma RunStep(p: seq<Byte>)
    requires p != [] && p[0] == 255
    ensures |p| < 2 ==> Unpack(p) == None
    ensures |p| >= 2 ==> var k := (p[1] as int + 1) * 8;
                         Unpack(p) == if |p| - 2 < k then None else Prefixed(p[2..2 + k], Unpack(p[2 + k..]))
  {
  }

  lemma PrefixTwice(a: seq<Byte>, b: seq<Byte>, r: Option<seq<Byte>>)
    ensures Prefixed(a, Prefixed(b, r)) == Prefixed(a + b, r)
  {
    if r.Some? { Assoc(a, b, r.value); }
  }

  lemma ReadSeg(mem: seq<Byte>, n: nat, pos: nat, out: seq<Byte>)
    requires n <= |mem| && Read(mem, n, pos, out) && pos < n && mem[pos] != 255
    ensures var h := mem[pos] as nat; var k := Ones(h, 8);
            if pos + 1 + k <= n then Read(mem, n, pos + 1 + k, out + Expand(h, 8, mem[pos + 1..]))
              else Unpack(mem[..n]) == None
  {
    hide Unpack, Ones, Expand;
    var p, h := mem[pos..n], mem[pos] as nat;
    var k := Ones(h, 8);
    SegStep(p);
    if pos + 1 + k <= n {
      SubSlice(mem, pos, n, 1, 1);
      SubSlice(mem, pos, n, 1, 1 + k);
      SubSlice(mem, pos + 1, |mem|, 0, n - pos - 1);
      ExpandPrefix(h, 8, mem[pos + 1..n], mem[pos + 1..]);
      PrefixTwice(out, Expand(h, 8, mem[pos + 1..]), Unpack(mem[pos + 1 + k..n]));
    }
  }

  /** Only the bytes that the mask asks for matter. */
  lemma {:induction false} ExpandPrefix(m: nat, n: nat, c: seq<Byte>, d: seq<Byte>)
    requires Ones(m, n) <= |c| <= |d| && d[..|c|] == c
    ensures Expand(m, n, c) == Expand(m, n, d)
    decreases n
  {
    if n > 0 {
      if m % 2 == 1 {
        assert d[..|c|][1..] == d[1..][..|c| - 1];
        ExpandPrefix(m / 2, n - 1, c[1..], d[1..]);
      } else {
        ExpandPrefix(m / 2, n - 1, c, d);
      }
    }
  }

  lemma ReadAll(mem: seq<Byte>, n: nat, out: seq<Byte>)
    requires n <= |mem| && Read(mem, n, n, out)
    ensures Unpack(mem[..n]) == Some(out)
  {
    assert mem[n..n] == [];
    assert out + [] == out;
  }

  /** The eight bytes behind one header; false when the stream has ended more than one byte too early. */
  method UnpackSeg(mem: seq<Byte>, n: nat, pos: nat, buffer: array<Byte>, size: nat, bufsz: int, ghost was: seq<Byte>,
      ghost out: seq<Byte>)
    returns (ok: bool, next: nat)
    requires pos < n < |mem| && mem[pos] != 255 && bufsz <= buffer.Length && |out| == size
    requires Holds(buffer[..], was, bufsz, out, size)
    modifies buffer
    ensures ok <==> pos + 1 + Ones(mem[pos] as nat, 8) <= n + 1
    ensures ok ==> next == pos + 1 + Ones(mem[pos] as nat, 8) && |Expand(mem[pos] as nat, 8, mem[pos + 1..])| == 8
    ensures ok ==> Holds(buffer[..], was, bufsz, out + Expand(mem[pos] as nat, 8, mem[pos + 1..]), size + 8)
    ensures |buffer[..]| == |was| && forall k :: 0 <= k < buffer.Length && bufsz <= k ==> buffer[k] == was[k]
  {
    hide Expand, Ones, Holds;
    var h, i := mem[pos] as nat, 0;
    ghost var c, got := mem[pos + 1..], [];
    next := pos + 1;
    StartSeg(h, c, out);
    HoldsFrame(buffer[..], was, bufsz, out, size);
    while i < 8
      invariant 0 <= i <= 8 && next == pos + 1 + Ones(h, i) && next <= n + 1
      invariant got == Expand(h, i, c) && |got| == i
      invariant Holds(buffer[..], was, bufsz, out + got, size + i)
      invariant |buffer[..]| == |was| && forall k :: 0 <= k < buffer.Length && bufsz <= k ==> buffer[k] == was[k]
    {
      OnesGrow(h, i + 1, 8);
      OnesStep(h, i);
      ghost var b1 := buffer[..];
      if Bit(h, i) == 1 {
        if next > n { return false, next; }
        ExpandStep(h, i, c);
        if size + i < bufsz { buffer[size + i] := mem[next]; }
        got := got + [mem[next]];
        next := next + 1;
      } else {
        ExpandStep(h, i, c);
        if size + i < bufsz { buffer[size + i] := 0; }
        got := got + [0];
      }
      OneMore(b1, buffer[..], was, bufsz, out + got[..i], size + i, got[i]);
      assert out + got[..i] + [got[i]] == out + got;
      i := i + 1;
    }
    ok := true;
  }

  lemma StartSeg(h: nat, c: seq<Byte>, out: seq<Byte>)
    ensures Ones(h, 0) == 0 && Expand(h, 0, c) == [] && out + [] == out
  {
  }

  lemma {:induction false} OnesStep(m: nat, i: nat)
    ensures Ones(m, i + 1) == Ones(m, i) + Bit(m, i) && Bit(m, i) <= 1
    decreases i
  {
    if i > 0 { OnesStep(m / 2, i - 1); }
  }

  lemma HoldsFrame(b: seq<Byte>, was: seq<Byte>, limit: int, out: seq<Byte>, size: nat)
    requires Holds(b, was, limit, out, size)
    ensures |b| == |was| && forall k :: 0 <= k < |b| && limit <= k ==> b[k] == was[k]
  {
  }

  lemma OneMore(b1: seq<Byte>, b2: seq<Byte>, was: seq<Byte>, limit: int, out: seq<Byte>, size: nat, v: Byte)
    requires Holds(b1, was, limit, out, size) && |out| == size && limit <= |b1|
    requires b2 == if size < limit then b1[size := v] else b1
    ensures Holds(b2, was, limit, out + [v], size + 1)
  {
    StillHolds(b1, b2, was, limit, out, size, size + 1);
    if size + 1 <= limit {
      assert b2[|out|..|out| + 1] == [v];
    }
    HoldsMore(b2, was, limit, out, size + 1, [v]);
  }

  /** A run is copied when it fits as a whole. */
  method UnpackRunInto(s: seq<Byte>, buffer: array<Byte>, size: nat, bufsz: int, ghost was: seq<Byte>,
      ghost out: seq<Byte>)
    requires bufsz <= buffer.Length && |out| == size && Holds(buffer[..], was, bufsz, out, size)
    modifies buffer
    ensures Holds(buffer[..], was, bufsz, out + s, size + |s|)
  {
    ghost var b1 := buffer[..];
    if bufsz - size >= |s| {
      var i := 0;
      while i < |s|
        invariant 0 <= i <= |s|
        invariant forall k :: 0 <= k < buffer.Length && (k < size || size + |s| <= k) ==> buffer[k] == b1[k]
        invariant forall k :: 0 <= k < i ==> buffer[size + k] == s[k]
      {
        buffer[size + i] := s[i];
        i := i + 1;
      }
      assert buffer[size..size + |s|] == s;
    }
    StillHolds(b1, buffer[..], was, bufsz, out, size, size + |s|);
    HoldsMore(buffer[..], was, bufsz, out, size + |s|, s);
  }

  /** Does the stream lack exactly the last byte of its last word, which is not in a run? */
  predicate Late(p: seq<Byte>)
    decreases |p|
  {
    if p == [] then false
    else if p[0] == 255 then |p| >= 2 && (p[1] as int + 1) * 8 <= |p| - 2 && Late(p[2 + (p[1] as int + 1) * 8..])
    else
      var k := Ones(p[0] as nat, 8);
      if k <= |p| - 1 then Late(p[1 + k..]) else |p| == k
  }

  lemma LateNone(s: seq<Byte>)
    requires s == []
    ensures !Late(s)
  {
  }

  lemma LateRun(mem: seq<Byte>, n: nat, pos: nat)
    requires pos < n < |mem| && mem[pos] == 255
    ensures var k := (mem[pos + 1] as int + 1) * 8;
            Late(mem[pos..n]) <==> pos + 2 + k <= n && Late(mem[pos + 2 + k..n])
  {
    hide Late;
    var p := mem[pos..n];
    LateStep(p);
    if |p| >= 2 {
      var k := (mem[pos + 1] as int + 1) * 8;
      if pos + 2 + k <= n { SubSlice(mem, pos, n, 2, 2 + k); }
    }
  }

  lemma LateSeg(mem: seq<Byte>, n: nat, pos: nat)
    requires pos < n <= |mem| && mem[pos] != 255
    ensures var next := pos + 1 + Ones(mem[pos] as nat, 8);
            if next <= n then Late(mem[pos..n]) == Late(mem[next..n]) else Late(mem[pos..n]) <==> next == n + 1
  {
    hide Late, Ones;
    var p := mem[pos..n];
    LateStep(p);
    var k := Ones(mem[pos] as nat, 8);
    if pos + 1 + k <= n { SubSlice(mem, pos, n, 1, 1 + k); }
  }

  lemma {:induction false} LateStep(p: seq<Byte>)
    requires p != []
    ensures p[0] == 255 ==>
            (Late(p) <==> |p| >= 2 && (p[1] as int + 1) * 8 <= |p| - 2 && Late(p[2 + (p[1] as int + 1) * 8..]))
    ensures p[0] != 255 ==> var k := Ones(p[0] as nat, 8); Late(p) == if k <= |p| - 1 then Late(p[1 + k..])
            else |p| == k
  {
    hide Ones;
  }

  /**
    sproto_unpack.  A stream that lacks exactly the last byte of a word outside runs is taken to go
    on with the byte behind it; every other stream that ends too early gives -1.
   */
  method UnpackInto(mem: seq<Byte>, n: nat, buffer: array<Byte>, bufsz: int) returns (r: int)
    requires n < |mem| && bufsz <= buffer.Length
    modifies buffer
    ensures Unpack(mem[..n]).Some? ==> r == |Unpack(mem[..n]).value|
    ensures Unpack(mem[..n]).Some? && r <= bufsz ==> buffer[..r] == Unpack(mem[..n]).value
    ensures r >= 0 <==> Unpack(mem[..n]).Some? || Late(mem[..n])
    ensures r < 0 ==> r == -1
    ensures Late(mem[..n]) ==> Unpack(mem[..n]).None? && Unpack(mem[..n + 1]).Some? && r == |Unpack(mem[..n + 1]).value|
    ensures Late(mem[..n]) && r <= bufsz ==> buffer[..r] == Unpack(mem[..n + 1]).value
    ensures forall k :: 0 <= k < buffer.Length && bufsz <= k ==> buffer[k] == old(buffer[k])
  {
    hide Unpack, Holds, Expand, Ones, Late;
    var pos: nat, size: nat := 0, 0;
    ghost var was, out := buffer[..], [];
    ReadNothing(mem, n);
    ReadNothing(mem, n + 1);
    NothingHeld(was, bufsz);
    HoldsFrame(buffer[..], was, bufsz, out, size);
    assert mem[0..n] == mem[..n];
    while pos < n
      invariant pos <= n && Read(mem, n, pos, out) && Read(mem, n + 1, pos, out) && Late(mem[..n]) == Late(mem[pos..n])
      invariant |out| == size && Holds(buffer[..], was, bufsz, out, size)
      decreases n - pos
    {
      HoldsFrame(buffer[..], was, bufsz, out, size);
      if mem[pos] == 255 {
        ReadRun(mem, n, pos, out);
        ReadRun(mem, n + 1, pos, out);
        LateRun(mem, n, pos);
        var k := (mem[pos + 1] as int + 1) * 8;
        if n - pos - 1 < k + 1 { return -1; }
        UnpackRunInto(mem[pos + 2..pos + 2 + k], buffer, size, bufsz, was, out);
        out := out + mem[pos + 2..pos + 2 + k];
        pos, size := pos + 2 + k, size + k;
      } else {
        ReadSeg(mem, n, pos, out);
        ReadSeg(mem, n + 1, pos, out);
        LateSeg(mem, n, pos);
        var ok, next := UnpackSeg(mem, n, pos, buffer, size, bufsz, was, out);
        if !ok { return -1; }
        out := out + Expand(mem[pos] as nat, 8, mem[pos + 1..]);
        size := size + 8;
        if next > n {
          ReadAll(mem, n + 1, out);
          HeldAll(buffer[..], was, bufsz, out, size);
          HoldsFrame(buffer[..], was, bufsz, out, size);
          return size;
        }
        pos := next;
      }
    }
    ReadAll(mem, n, out);
    LateNone(mem[n..n]);
    HeldAll(buffer[..], was, bufsz, out, size);
    r := size;
  }

  lemma ReadNothing(mem: seq<Byte>, n: nat)
    requires n <= |mem|
    ensures Read(mem, n, 0, [])
  {
    var r := Unpack(mem[..n]);
    assert mem[0..n] == mem[..n];
    if r.Some? { assert [] + r.value == r.value; }
  }
}
