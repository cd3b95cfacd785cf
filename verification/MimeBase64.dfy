/** Base64, section 6.8 of RFC 2045: encoder, decoder and the line wrapper for plain text. */
module MimeBase64 {
  import opened ByteType

  const LF: Byte := 10
  const CR: Byte := 13
  const EQ: Byte := 61
  const CRLF: seq<Byte> := [13, 10]

  // ---- the alphabet ----

  /** b64base */
  function Letter(n: nat): Byte
    requires n < 64
  {
    if n < 26 then (65 + n) as Byte
    else if n < 52 then (71 + n) as Byte
    else if n < 62 then (n - 4) as Byte
    else if n == 62 then 43
    else 47
  }

  /** b64unbase: 0 for the padding, and 255 for bytes that are not in the alphabet */
  function Unletter(c: Byte): nat {
    if 65 <= c <= 90 then c as nat - 65
    else if 97 <= c <= 122 then c as nat - 71
    else if 48 <= c <= 57 then c as nat + 4
    else if c == 43 then 62
    else if c == 47 then 63
    else if c == EQ then 0
    else 255
  }

  lemma LetterBack(n: nat)
    requires n < 64
    ensures Unletter(Letter(n)) == n && Letter(n) != EQ
  {
  }

  // ---- one byte at a time ----

  /** Three bytes as four letters. */
  function Quad(a: Byte, b: Byte, c: Byte): seq<Byte> {
    Group((a as nat * 256 + b as nat) * 256 + c as nat)
  }

  /** The four letters of a number of 24 bits, taken from its low end. */
  function Group(value: nat): seq<Byte>
    requires value < 0x100_0000
  {
    var v1 := value / 64;
    var v2 := v1 / 64;
    [Letter(v2 / 64), Letter(v2 % 64), Letter(v1 % 64), Letter(value % 64)]
  }

  /** b64encode: the new pending bytes, and what was put out. */
  function EncodeStep(p: seq<Byte>, c: Byte): (seq<Byte>, seq<Byte>) {
    var q := p + [c];
    if |q| == 3 then (Quad(q[0], q[1], q[2]), []) else ([], q)
  }

  function EncodeRun(p: seq<Byte>, x: seq<Byte>): (seq<Byte>, seq<Byte>)
    decreases |x|
  {
    if x == [] then ([], p)
    else
      var (o, p2) := EncodeStep(p, x[0]);
      var (o2, p3) := EncodeRun(p2, x[1..]);
      (o + o2, p3)
  }

  /** b64pad */
  function Pad(p: seq<Byte>): seq<Byte> {
    if |p| == 1 then
      var value := p[0] as nat * 16;
      [Letter(value / 64), Letter(value % 64), EQ, EQ]
    else if |p| == 2 then
      var value := (p[0] as nat * 256 + p[1] as nat) * 4;
      var v1 := value / 64;
      [Letter(v1 / 64), Letter(v1 % 64), Letter(value % 64), EQ]
    else []
  }

  function Encode(x: seq<Byte>): seq<Byte> {
    var (o, p) := EncodeRun([], x);
    o + Pad(p)
  }

  /** The three bytes of a number of 24 bits, taken from its low end. */
  function ThreeBytes(value: nat): (s: seq<Byte>)
    requires value < 0x100_0000
    ensures |s| == 3
  {
    var v1 := value / 256;
    [(v1 / 256) as Byte, (v1 % 256) as Byte, (value % 256) as Byte]
  }

  /** Four letters as up to three bytes, fewer when they end with padding. */
  function Unquad(a: Byte, b: Byte, c: Byte, d: Byte): seq<Byte>
    requires Unletter(a) < 64 && Unletter(b) < 64 && Unletter(c) < 64 && Unletter(d) < 64
  {
    var value := ((Unletter(a) * 64 + Unletter(b)) * 64 + Unletter(c)) * 64 + Unletter(d);
    ThreeBytes(value)[..if c == EQ then 1 else if d == EQ then 2 else 3]
  }

  /** Letters and padding that wait for the rest of their group. */
  predicate Letters(p: seq<Byte>) {
    |p| < 4 && forall i :: 0 <= i < |p| ==> Unletter(p[i]) < 64
  }

  /** b64decode: a byte outside the alphabet is ignored. */
  function DecodeStep(p: seq<Byte>, c: Byte): (r: (seq<Byte>, seq<Byte>))
    requires Letters(p)
    ensures Letters(r.1)
  {
    if Unletter(c) > 64 then ([], p)
    else
      var q := p + [c];
      if |q| == 4 then (Unquad(q[0], q[1], q[2], q[3]), []) else ([], q)
  }

  function DecodeRun(p: seq<Byte>, x: seq<Byte>): (r: (seq<Byte>, seq<Byte>))
    requires Letters(p)
    ensures Letters(r.1)
    decreases |x|
  {
    if x == [] then ([], p)
    else
      var (o, p2) := DecodeStep(p, x[0]);
      var (o2, p3) := DecodeRun(p2, x[1..]);
      (o + o2, p3)
  }

  function Decode(x: seq<Byte>): seq<Byte> {
    DecodeRun([], x).0
  }

  /** wrp on one byte, with `left` bytes left in the line */
  function WrapStep(left: int, c: Byte, length: int): (seq<Byte>, int) {
    if c == CR then ([], left)
    else if c == LF then (CRLF, length)
    else if left <= 0 then (CRLF + [c], length - 1)
    else ([c], left - 1)
  }

  function WrapRun(left: int, x: seq<Byte>, length: int): (seq<Byte>, int)
    decreases |x|
  {
    if x == [] then ([], left)
    else
      var (o, l2) := WrapStep(left, x[0], length);
      var (o2, l3) := WrapRun(l2, x[1..], length);
      (o + o2, l3)
  }

  function WrapEnd(left: int, length: int): seq<Byte> {
    if left < length then CRLF else []
  }

  function Wrap(x: seq<Byte>, length: int): seq<Byte> {
    var (o, l) := WrapRun(length, x, length);
    o + WrapEnd(l, length)
  }

  // ---- runs in pieces ----

  lemma Assoc(a: seq<Byte>, b: seq<Byte>, c: seq<Byte>)
    ensures (a + b) + c == a + (b + c)
  {
  }

  lemma {:induction false} EncodePieces(p: seq<Byte>, x: seq<Byte>, y: seq<Byte>)
    ensures var (o1, p1) := EncodeRun(p, x); var (o2, p2) := EncodeRun(p1, y); EncodeRun(p, x + y) == (o1 + o2, p2)
    decreases |x|
  {
    if x == [] {
      assert x + y == y;
      assert [] + EncodeRun(p, y).0 == EncodeRun(p, y).0;
    } else {
      assert (x + y)[1..] == x[1..] + y;
      var (o, p2) := EncodeStep(p, x[0]);
      EncodePieces(p2, x[1..], y);
      var (o1, p1) := EncodeRun(p2, x[1..]);
      Assoc(o, o1, EncodeRun(p1, y).0);
    }
  }

  lemma {:induction false} DecodePieces(p: seq<Byte>, x: seq<Byte>, y: seq<Byte>)
    requires Letters(p)
    ensures var (o1, p1) := DecodeRun(p, x); var (o2, p2) := DecodeRun(p1, y); DecodeRun(p, x + y) == (o1 + o2, p2)
    decreases |x|
  {
    if x == [] {
      assert x + y == y;
      assert [] + DecodeRun(p, y).0 == DecodeRun(p, y).0;
    } else {
      assert (x + y)[1..] == x[1..] + y;
      var (o, p2) := DecodeStep(p, x[0]);
      DecodePieces(p2, x[1..], y);
      var (o1, p1) := DecodeRun(p2, x[1..]);
      Assoc(o, o1, DecodeRun(p1, y).0);
    }
  }

  lemma {:induction false} WrapPieces(left: int, x: seq<Byte>, y: seq<Byte>, length: int)
    ensures var (o1, l1) := WrapRun(left, x, length); var (o2, l2) := WrapRun(l1, y, length);
            WrapRun(left, x + y, length) == (o1 + o2, l2)
    decreases |x|
  {
    if x == [] {
      assert x + y == y;
      assert [] + WrapRun(left, y, length).0 == WrapRun(left, y, length).0;
    } else {
      assert (x + y)[1..] == x[1..] + y;
      var (o, l2) := WrapStep(left, x[0], length);
      WrapPieces(l2, x[1..], y, length);
      var (o1, l1) := WrapRun(l2, x[1..], length);
      Assoc(o, o1, WrapRun(l1, y, length).0);
    }
  }

  // ---- groups ----

  /** Four letters read one by one are one group. */
  lemma DecodeFour(a: Byte, b: Byte, c: Byte, d: Byte)
    requires Unletter(a) < 64 && Unletter(b) < 64 && Unletter(c) < 64 && Unletter(d) < 64
    ensures DecodeRun([], [a, b, c, d]) == (Unquad(a, b, c, d), [])
  {
    hide Unquad;
    assert [] + [a] == [a] && [a] + [b] == [a, b] && [a, b] + [c] == [a, b, c] && [a, b, c] + [d] == [a, b, c, d];
    var o := Unquad(a, b, c, d);
    assert DecodeRun([], [d][1..]) == ([], []);
    assert DecodeRun([a, b, c], [d]) == (o + [], []);
    assert o + [] == o && [] + o == o;
    assert [c, d][1..] == [d] && [b, c, d][1..] == [c, d] && [a, b, c, d][1..] == [b, c, d];
    assert DecodeRun([a, b], [c, d]) == ([] + o, []);
    assert DecodeRun([a], [b, c, d]) == ([] + o, []);
    assert DecodeRun([], [a, b, c, d]) == ([] + o, []);
  }

  /** The letters of a group give back its number. */
  lemma GroupBack(value: nat)
    requires value < 0x100_0000
    ensures DecodeRun([], Group(value)) == (ThreeBytes(value), [])
  {
    hide ThreeBytes, Letter, Unletter, DecodeRun;
    var v1 := value / 64;
    var v2 := v1 / 64;
    LetterBack(v2 / 64);
    LetterBack(v2 % 64);
    LetterBack(v1 % 64);
    LetterBack(value % 64);
    assert ((v2 / 64 * 64 + v2 % 64) * 64 + v1 % 64) * 64 + value % 64 == value;
    DecodeFour(Letter(v2 / 64), Letter(v2 % 64), Letter(v1 % 64), Letter(value % 64));
    assert ThreeBytes(value)[..3] == ThreeBytes(value);
  }

  lemma ThreeBytesOf(a: Byte, b: Byte, c: Byte)
    ensures ThreeBytes((a as nat * 256 + b as nat) * 256 + c as nat) == [a, b, c]
  {
  }

  /** A group of three bytes is decoded to itself. */
  lemma QuadBack(a: Byte, b: Byte, c: Byte)
    ensures DecodeRun([], Quad(a, b, c)) == ([a, b, c], [])
  {
    hide ThreeBytes, Group, DecodeRun;
    GroupBack((a as nat * 256 + b as nat) * 256 + c as nat);
    ThreeBytesOf(a, b, c);
  }

  /** The last one or two bytes are decoded to themselves. */
  lemma PadBack(p: seq<Byte>)
    requires |p| < 3
    ensures DecodeRun([], Pad(p)) == (p, [])
  {
    if |p| == 1 {
      OneBack(p[0]);
      assert p == [p[0]];
    } else if |p| == 2 {
      TwoBack(p[0], p[1]);
      assert p == [p[0], p[1]];
    }
  }

  lemma OneBack(a: Byte)
    ensures DecodeRun([], Pad([a])) == ([a], [])
  {
    hide ThreeBytes, Letter, Unletter, DecodeRun;
    var value := a as nat * 16;
    LetterBack(value / 64);
    LetterBack(value % 64);
    Padding();
    DecodeFour(Letter(value / 64), Letter(value % 64), EQ, EQ);
    assert ((value / 64 * 64 + value % 64) * 64 + 0) * 64 + 0 == (a as nat * 256 + 0) * 256 + 0;
    ThreeBytesOf(a, 0, 0);
    assert [a, 0, 0][..1] == [a];
  }

  lemma TwoBack(a: Byte, b: Byte)
    ensures DecodeRun([], Pad([a, b])) == ([a, b], [])
  {
    hide ThreeBytes, Letter, Unletter, DecodeRun;
    var value := (a as nat * 256 + b as nat) * 4;
    var v1 := value / 64;
    LetterBack(v1 / 64);
    LetterBack(v1 % 64);
    LetterBack(value % 64);
    Padding();
    DecodeFour(Letter(v1 / 64), Letter(v1 % 64), Letter(value % 64), EQ);
    assert ((v1 / 64 * 64 + v1 % 64) * 64 + value % 64) * 64 + 0 == (a as nat * 256 + b as nat) * 256 + 0;
    ThreeBytesOf(a, b, 0);
    assert [a, b, 0][..2] == [a, b];
  }

  lemma Padding()
    ensures Unletter(EQ) == 0
  {
  }

  /** From pending bytes p on, what is put out for x is decoded to p and x without what is still pending. */
  lemma {:induction false} RunBack(p: seq<Byte>, x: seq<Byte>)
    requires |p| < 3
    ensures var (o, p2) := EncodeRun(p, x); |p2| < 3 && DecodeRun([], o).1 == [] && DecodeRun([], o).0 + p2 == p + x
    decreases |x|
  {
    hide Quad, DecodeRun, Letters;
    NothingDecoded();
    NoLetters();
    if x == [] {
      assert [] + p == p + x;
    } else {
      var (o, p2) := EncodeStep(p, x[0]);
      RunBack(p2, x[1..]);
      var (o2, p3) := EncodeRun(p2, x[1..]);
      DecodePieces([], o, o2);
      if |p| == 2 {
        QuadBack(p[0], p[1], x[0]);
        assert [p[0], p[1], x[0]] + ([] + x[1..]) == p + x;
        Assoc([p[0], p[1], x[0]], DecodeRun([], o2).0, p3);
      } else {
        assert [] + o2 == o2;
        assert (p + [x[0]]) + x[1..] == p + x;
      }
    }
  }

  lemma NoLetters()
    ensures Letters([])
  {
  }

  lemma NothingDecoded()
    ensures DecodeRun([], []) == ([], [])
  {
  }

  lemma Base64RoundTrip(x: seq<Byte>)
    ensures Decode(Encode(x)) == x
  {
    RunBack([], x);
    var (o, p) := EncodeRun([], x);
    PadBack(p);
    DecodePieces([], o, Pad(p));
    assert [] + x == x;
  }

  // ---- bytes outside the alphabet ----

  /** The letters and padding of x. */
  function Alphabet(x: seq<Byte>): seq<Byte> {
    if x == [] then [] else (if Unletter(x[0]) > 64 then [] else [x[0]]) + Alphabet(x[1..])
  }

  /** Bytes outside the alphabet, wherever they stand, make no difference to the decoder. */
  lemma {:induction false} NoiseIgnored(p: seq<Byte>, x: seq<Byte>)
    requires Letters(p)
    ensures DecodeRun(p, x) == DecodeRun(p, Alphabet(x))
    decreases |x|
  {
    if x != [] {
      var (o, p2) := DecodeStep(p, x[0]);
      NoiseIgnored(p2, x[1..]);
      if Unletter(x[0]) > 64 {
        assert Alphabet(x) == Alphabet(x[1..]);
        assert [] + DecodeRun(p, x[1..]).0 == DecodeRun(p, x[1..]).0;
      } else {
        assert Alphabet(x)[1..] == Alphabet(x[1..]);
      }
    }
  }

  lemma {:induction false} AlphabetJoin(x: seq<Byte>, y: seq<Byte>)
    ensures Alphabet(x + y) == Alphabet(x) + Alphabet(y)
    decreases |x|
  {
    hide Unletter;
    if x == [] {
      assert x + y == y;
    } else {
      assert (x + y)[1..] == x[1..] + y && (x + y)[0] == x[0];
      AlphabetJoin(x[1..], y);
    }
  }

  lemma {:induction false} WrapKeeps(left: int, x: seq<Byte>, length: int)
    ensures Alphabet(WrapRun(left, x, length).0) == Alphabet(x)
    decreases |x|
  {
    if x != [] {
      var (o, l2) := WrapStep(left, x[0], length);
      WrapKeeps(l2, x[1..], length);
      AlphabetJoin(o, WrapRun(l2, x[1..], length).0);
      StepKeeps(left, x[0], length);
    }
  }

  lemma StepKeeps(left: int, c: Byte, length: int)
    ensures Alphabet(WrapStep(left, c, length).0) == if Unletter(c) > 64 then [] else [c]
  {
    BreakIsNoise();
    AlphabetJoin(CRLF, [c]);
    assert [c][1..] == [] && Alphabet([]) == [];
    assert Alphabet([c]) == (if Unletter(c) > 64 then [] else [c]) + [];
  }

  lemma BreakIsNoise()
    ensures Alphabet(CRLF) == []
  {
    assert CRLF[1..] == [LF] && [LF][1..] == [];
    assert Alphabet([LF]) == [];
  }

  /** Decoding the wrapped encoding of x gives x, whatever the line length. */
  lemma WrappedRoundTrip(x: seq<Byte>, length: int)
    ensures Decode(Wrap(Encode(x), length)) == x
  {
    var y := Encode(x);
    var (o, l) := WrapRun(length, y, length);
    WrapKeeps(length, y, length);
    BreakIsNoise();
    AlphabetJoin(o, WrapEnd(l, length));
    NoiseIgnored([], Wrap(y, length));
    NoiseIgnored([], y);
    Base64RoundTrip(x);
    assert Alphabet(y) + [] == Alphabet(y);
  }
}
