/** The packed form in numbers: which bits, which bytes and which runs. */
module SprotoPackForm {
  import opened ByteType
  import opened SprotoPack

  /** Bit i of m. */
  function Bit(m: nat, i: nat): nat {
    if i == 0 then m % 2 else Bit(m / 2, i - 1)
  }

  /** How many of the bits below bit i are set. */
  function Below(m: nat, i: nat): (k: nat)
    ensures k <= i
  {
    if i == 0 then 0 else Below(m, i - 1) + if Bit(m, i - 1) == 1 then 1 else 0
  }

  const WEIGHTS: seq<nat> := [1, 2, 4, 8, 16, 32, 64, 128]

  lemma {:induction false} BitIs(m: nat, i: nat)
    requires i < 8
    ensures Bit(m, i) == m / WEIGHTS[i] % 2
    decreases i
  {
    if i > 0 {
      BitIs(m / 2, i - 1);
      HalfOf(m, i);
    }
  }

  lemma HalfOf(m: nat, i: nat)
    requires 0 < i < 8
    ensures m / 2 / WEIGHTS[i - 1] == m / WEIGHTS[i]
  {
  }

  // ---- bits, on words of any length ----

  lemma {:induction false} BelowHalf(m: nat, i: nat)
    ensures Below(m, i + 1) == (if m % 2 == 1 then 1 else 0) + Below(m / 2, i)
    decreases i
  {
    if i > 0 { BelowHalf(m, i - 1); }
  }

  lemma {:induction false} OnesBelow(m: nat, n: nat)
    ensures Ones(m, n) == Below(m, n)
    decreases n
  {
    if n > 0 {
      OnesBelow(m / 2, n - 1);
      BelowHalf(m, n - 1);
    }
  }

  lemma {:induction false} BelowGrows(m: nat, i: nat, n: nat)
    requires i <= n
    ensures Below(m, i) <= Below(m, n)
    decreases n
  {
    if i < n { BelowGrows(m, i, n - 1); }
  }

  lemma {:induction false} ExpandBits(m: nat, n: nat, c: seq<Byte>, i: nat)
    requires i < n && Below(m, n) <= |c|
    ensures |Expand(m, n, c)| == n && (Bit(m, i) == 1 ==> Below(m, i) < |c|)
    ensures Expand(m, n, c)[i] == if Bit(m, i) == 1 then c[Below(m, i)] else 0
    decreases n
  {
    BelowGrows(m, i + 1, n);
    BelowHalf(m, n - 1);
    var odd := m % 2 == 1;
    var d := if odd then c[1..] else c;
    assert Expand(m, n, c) == [if odd then c[0] else 0] + Expand(m / 2, n - 1, d);
    if i > 0 {
      ExpandBits(m / 2, n - 1, d, i - 1);
      BelowHalf(m, i - 1);
    } else if n > 1 {
      ExpandBits(m / 2, n - 1, d, 0);
    }
  }

  lemma {:induction false} MaskBits(w: seq<Byte>, i: nat)
    requires i < |w|
    ensures Bit(Mask(w), i) == if w[i] != 0 then 1 else 0
    decreases |w|
  {
    assert Mask(w) / 2 == Mask(w[1..]);
    if i > 0 { MaskBits(w[1..], i - 1); }
  }

  lemma {:induction false} CompactAt(w: seq<Byte>, i: nat)
    requires i < |w| && w[i] != 0
    ensures NonZero(w[..i]) < |Compact(w)| && Compact(w)[NonZero(w[..i])] == w[i]
    decreases |w|
  {
    if i == 0 {
      assert w[..0] == [];
    } else {
      CompactAt(w[1..], i - 1);
      assert w[..i][0] == w[0] && w[..i][1..] == w[1..][..i - 1];
    }
  }

  lemma {:induction false} NonZeroCount(w: seq<Byte>)
    ensures NonZero(w) == |set i: nat | i < |w| && w[i] != 0|
    decreases |w|
  {
    var all := set i: nat | i < |w| && w[i] != 0;
    if w == [] {
      assert all == {};
    } else {
      var n := |w| - 1;
      var front := set i: nat | i < |w[..n]| && w[..n][i] != 0;
      NonZeroCount(w[..n]);
      NonZeroLast(w);
      assert all == front + if w[n] != 0 then {n} else {};
    }
  }

  lemma {:induction false} NonZeroLast(w: seq<Byte>)
    requires w != []
    ensures NonZero(w) == NonZero(w[..|w| - 1]) + if w[|w| - 1] != 0 then 1 else 0
    decreases |w|
  {
    if |w| > 1 {
      NonZeroLast(w[1..]);
      assert w[..|w| - 1][1..] == w[1..][..|w| - 2] && w[..|w| - 1][0] == w[0];
    } else {
      assert w[..0] == [];
      assert w[1..] == [];
    }
  }

  // ---- words ----

  /** A word that is not in a run: bit i of the mask is set when byte i is not zero, and these bytes follow in order. */
  lemma WordForm(w: Word, i: nat)
    requires NonZero(w) < 8 && i < 8
    ensures var p := Pack([w]);
            && |p| == 1 + |set j: nat | j < 8 && w[j] != 0| && p[0] != 255
            && (w[i] != 0 <==> p[0] as nat / WEIGHTS[i] % 2 == 1)
            && (w[i] != 0 ==> NonZero(w[..i]) + 1 < |p| && p[1 + NonZero(w[..i])] == w[i])
  {
    MaskByte(w);
    assert [w][1..] == [];
    assert Pack([w]) == Seg(w) + [];
    MaskBits(w, i);
    BitIs(Mask(w), i);
    NonZeroCount(w);
    assert (set j: nat | j < 8 && w[j] != 0) == (set j: nat | j < |w| && w[j] != 0);
    if w[i] != 0 { CompactAt(w, i); }
  }

  /** Packed words stand side by side, unless a run takes in the ones behind it. */
  lemma WordFirst(w: Word, ws: seq<Word>)
    requires NonZero(w) < 8
    ensures Pack([w] + ws) == Pack([w]) + Pack(ws)
  {
    hide *;
    PackWord(w, ws);
    PackWord(w, []);
    PackNone();
    assert [w] + [] == [w];
  }

  lemma PackWord(w: Word, ws: seq<Word>)
    requires NonZero(w) < 8
    ensures Pack([w] + ws) == Seg(w) + Pack(ws)
  {
    hide NonZero, Seg, Run;
    assert ([w] + ws)[1..] == ws;
  }

  lemma PackNone()
    ensures Pack([]) == []
  {
  }

  /** A run goes on over all words with at least 6 bytes that are not zero, up to 256 words. */
  lemma {:induction false} FollowIs(ws: seq<Word>, k: nat)
    ensures var n := Follow(ws, k);
            && (forall j :: 0 <= j < n ==> NonZero(ws[j]) >= 6) && (n < k && n < |ws| ==> NonZero(ws[n]) < 6)
    decreases k
  {
    if k > 0 && ws != [] { FollowIs(ws[1..], k - 1); }
  }

  lemma RunIs(ws: seq<Word>)
    requires ws != []
    ensures var n := Run(ws);
            && (forall j :: 0 < j < n ==> NonZero(ws[j]) >= 6) && (n == 256 || n == |ws| || NonZero(ws[n]) < 6)
  {
    var n := Run(ws);
    FollowIs(ws[1..], 255);
    forall j | 0 < j < n ensures NonZero(ws[j]) >= 6 {
      assert ws[1..][j - 1] == ws[j];
    }
  }

  lemma OneEnd(ws: seq<Word>, m: nat, n: nat)
    requires 0 < m <= |ws| && 0 < n <= |ws| && m <= 256 && n <= 256
    requires (forall j :: 0 < j < m ==> NonZero(ws[j]) >= 6) && (m == 256 || m == |ws| || NonZero(ws[m]) < 6)
    requires (forall j :: 0 < j < n ==> NonZero(ws[j]) >= 6) && (n == 256 || n == |ws| || NonZero(ws[n]) < 6)
    ensures m == n
  {
    hide NonZero;
  }

  lemma RunForm(ws: seq<Word>, n: nat)
    requires ws != [] && NonZero(ws[0]) == 8
    requires 0 < n <= |ws| && n <= 256 && (forall j :: 0 < j < n ==> NonZero(ws[j]) >= 6)
    requires n == 256 || n == |ws| || NonZero(ws[n]) < 6
    ensures Pack(ws) == [255, (n - 1) as Byte] + Join(ws[..n]) + Pack(ws[n..])
  {
    hide *;
    RunIs(ws);
    PackRun(ws);
    OneEnd(ws, Run(ws), n);
  }

  lemma PackRun(ws: seq<Word>)
    requires ws != [] && NonZero(ws[0]) == 8
    ensures var n := Run(ws);
            n <= 256 && Pack(ws) == [255, (n - 1) as Byte] + Join(ws[..n]) + Pack(ws[n..])
  {
    hide NonZero, Run, Join, Seg;
    assert Pack(ws) == Copied(ws[..Run(ws)]) + Pack(ws[Run(ws)..]);
  }

  // ---- unpacking, whoever packed ----

  /** What a mask and the bytes behind it stand for: the bytes go where the bits are set, zeros elsewhere. */
  lemma UnpackWord(m: Byte, c: seq<Byte>, rest: seq<Byte>, i: nat)
    requires m != 255 && |c| == Below(m as nat, 8) && i < 8
    ensures m as nat / WEIGHTS[i] % 2 == 1 ==> Below(m as nat, i) < |c|
    ensures var w := Expand(m as nat, 8, c);
            && Unpack([m] + c + rest) == Prefixed(w, Unpack(rest)) && |w| == 8
            && w[i] == if m as nat / WEIGHTS[i] % 2 == 1 then c[Below(m as nat, i)] else 0
  {
    hide Expand, Ones, Bit, Below, Unpack;
    var n := m as nat;
    OnesBelow(n, 8);
    UnpackMask(m, c, rest);
    BitIs(n, i);
    ExpandBits(n, 8, c, i);
    ExpandMore(n, 8, c, rest);
  }

  lemma UnpackMask(m: Byte, c: seq<Byte>, rest: seq<Byte>)
    requires m != 255 && |c| == Ones(m as nat, 8)
    ensures Unpack([m] + c + rest) == Prefixed(Expand(m as nat, 8, c + rest), Unpack(rest))
  {
    hide Expand, Ones;
    var p := [m] + c + rest;
    assert p[1..] == c + rest && p[1 + |c|..] == rest;
  }

  lemma {:induction false} ExpandMore(m: nat, n: nat, c: seq<Byte>, rest: seq<Byte>)
    requires Ones(m, n) <= |c|
    ensures Expand(m, n, c + rest) == Expand(m, n, c)
    decreases n
  {
    if n > 0 && m % 2 == 1 {
      ExpandMore(m / 2, n - 1, c[1..], rest);
      assert (c + rest)[1..] == c[1..] + rest;
    } else if n > 0 {
      ExpandMore(m / 2, n - 1, c, rest);
    }
  }

  /** A marker and a number are followed by that many words and one more, as they are. */
  lemma UnpackRunForm(n: Byte, s: seq<Byte>, rest: seq<Byte>)
    requires |s| == (n as nat + 1) * 8
    ensures Unpack([255, n] + s + rest) == Prefixed(s, Unpack(rest))
  {
    var p := [255, n] + s + rest;
    assert p[2..2 + |s|] == s && p[2 + |s|..] == rest;
  }

  /** A stream that ends inside a word or a run is refused. */
  lemma UnpackShort(p: seq<Byte>)
    requires p != []
    requires if p[0] == 255 then |p| == 1 || |p| < 2 + 8 * (p[1] as nat + 1) else |p| < 1 + Below(p[0] as nat, 8)
    ensures Unpack(p).None?
  {
    OnesBelow(p[0] as nat, 8);
  }
}
