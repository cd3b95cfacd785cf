/** Section 6.8 of RFC 2045 letter by letter, and the lines of the wrapper for plain text. */
module MimeBase64Rules {
  import opened ByteType
  import opened MimeBase64
  import MimeQp

  /** The n bytes from c on. */
  function Span(c: nat, n: nat): (s: seq<Byte>)
    requires c + n <= 256
    ensures |s| == n && forall i :: 0 <= i < n ==> s[i] as nat == c + i
    decreases n
  {
    if n == 0 then [] else [c as Byte] + Span(c + 1, n - 1)
  }

  /** "A" to "Z", "a" to "z", "0" to "9", "+" and "/" */
  const ALPHABET: seq<Byte> := Span(65, 26) + Span(97, 26) + Span(48, 10) + [43, 47]

  function ByteAt(x: seq<Byte>, i: nat): (n: nat)
    ensures n < 256
  {
    if i < |x| then x[i] as nat else 0
  }

  /** Six of the 24 bits of a group. */
  function Six(value: nat, r: nat): (n: nat)
    requires value < 0x100_0000
    ensures n < 64
  {
    if r == 0 then value / 262144 else if r == 1 then value / 4096 % 64
    else if r == 2 then value / 64 % 64 else value % 64
  }

  /** Bits 6k to 6k + 5 of x, which is filled up with zeros. */
  function Sextet(x: seq<Byte>, k: nat): (n: nat)
    ensures n < 64
  {
    var i := k / 4 * 3;
    Six(ByteAt(x, i) * 65536 + ByteAt(x, i + 1) * 256 + ByteAt(x, i + 2), k % 4)
  }

  lemma LetterIs(n: nat)
    requires n < 64
    ensures Letter(n) == ALPHABET[n]
  {
  }

  /** The decoder reads the letters of the alphabet back, takes "=" for padding, and ignores all other bytes. */
  lemma UnletterIs(c: Byte)
    ensures Unletter(c) > 64 <==> c !in ALPHABET && c != 61
    ensures forall n :: 0 <= n < 64 && ALPHABET[n] == c ==> Unletter(c) == n
  {
    forall n | 0 <= n < 64 && ALPHABET[n] == c ensures Unletter(c) == n {
      LetterIs(n);
      LetterBack(n);
    }
    if Unletter(c) <= 64 && c != 61 {
      LetterIs(Unletter(c));
      assert ALPHABET[Unletter(c)] == c;
    }
  }

  /** The byte c is letter n of the alphabet. */
  predicate IsLetter(c: Byte, n: nat) {
    n < 64 && c == ALPHABET[n]
  }

  /** Four letters are read as three bytes, and fewer when padding stands in the third or fourth place. */
  lemma DecodeFour(a: Byte, b: Byte, c: Byte, d: Byte, i: nat, j: nat, k: nat, l: nat)
    requires IsLetter(a, i) && IsLetter(b, j) && IsLetter(c, k) && IsLetter(d, l)
    ensures i < 64 && j < 64 && k < 64 && l < 64
    ensures var x, y, z := i * 4 + j / 16, j % 16 * 16 + k / 4, k % 4 * 64 + l;
            && DecodeRun([], [a, b, c, d]) == ([x as Byte, y as Byte, z as Byte], [])
            && DecodeRun([], [a, b, c, 61]) == ([x as Byte, y as Byte], [])
            && DecodeRun([], [a, b, 61, d]) == DecodeRun([], [a, b, 61, 61]) == ([x as Byte], [])
  {
    hide *;
    Numbers(a, i);
    Numbers(b, j);
    Numbers(c, k);
    Numbers(d, l);
    Padding();
    GroupIs(a, b, c, d);
    GroupIs(a, b, c, 61);
    GroupIs(a, b, 61, d);
    GroupIs(a, b, 61, 61);
  }

  lemma GroupIs(a: Byte, b: Byte, c: Byte, d: Byte)
    requires Unletter(a) < 64 && Unletter(b) < 64 && Unletter(c) < 64 && Unletter(d) < 64
    ensures var i, j, k, l := Unletter(a), Unletter(b), Unletter(c), Unletter(d);
            var x, y, z := i * 4 + j / 16, j % 16 * 16 + k / 4, k % 4 * 64 + l;
            DecodeRun([], [a, b, c, d]) ==
            (if c == 61 then [x as Byte] else if d == 61 then [x as Byte, y as Byte]
             else [x as Byte, y as Byte, z as Byte], [])
  {
    hide Unletter, ThreeBytes, DecodeRun;
    DecodeGroup(a, b, c, d);
    Bits(Unletter(a), Unletter(b), Unletter(c), Unletter(d));
    var u := ThreeBytes(((Unletter(a) * 64 + Unletter(b)) * 64 + Unletter(c)) * 64 + Unletter(d));
    assert u[..1] == [u[0]] && u[..2] == [u[0], u[1]] && u[..3] == u;
  }

  lemma Numbers(c: Byte, n: nat)
    requires IsLetter(c, n)
    ensures n < 64 && Unletter(c) == n && c != 61
  {
    LetterIs(n);
    LetterBack(n);
  }

  lemma Padding()
    ensures Unletter(61) == 0
  {
  }

  /** One group, from nothing that waits. */
  lemma DecodeGroup(a: Byte, b: Byte, c: Byte, d: Byte)
    requires Unletter(a) < 64 && Unletter(b) < 64 && Unletter(c) < 64 && Unletter(d) < 64
    ensures DecodeRun([], [a, b, c, d]) == (Unquad(a, b, c, d), [])
  {
    LettersNone();
    hide *;
    assert [a] + [b, c, d] == [a, b, c, d] && [b] + [c, d] == [b, c, d] && [c] + [d] == [c, d];
    assert [] + [a] == [a] && [a] + [b] == [a, b] && [a, b] + [c] == [a, b, c];
    DecodeNext([], a, [b, c, d]);
    DecodeNext([a], b, [c, d]);
    DecodeNext([a, b], c, [d]);
    DecodeLast(a, b, c, d);
  }

  lemma LettersNone()
    ensures Letters([])
  {
  }

  lemma DecodeNext(p: seq<Byte>, c: Byte, y: seq<Byte>)
    requires Letters(p) && |p| < 3 && Unletter(c) < 64
    ensures Letters(p + [c]) && DecodeRun(p, [c] + y) == DecodeRun(p + [c], y)
  {
    hide Unletter;
    assert ([c] + y)[1..] == y;
    assert [] + DecodeRun(p + [c], y).0 == DecodeRun(p + [c], y).0;
  }

  lemma DecodeLast(a: Byte, b: Byte, c: Byte, d: Byte)
    requires Unletter(a) < 64 && Unletter(b) < 64 && Unletter(c) < 64 && Unletter(d) < 64
    ensures DecodeRun([a, b, c], [d]) == (Unquad(a, b, c, d), [])
  {
    hide Unletter, Unquad;
    assert [a, b, c] + [d] == [a, b, c, d] && [d][1..] == [];
    assert DecodeStep([a, b, c], d) == (Unquad(a, b, c, d), []);
    assert Unquad(a, b, c, d) + [] == Unquad(a, b, c, d);
  }

  lemma Bits(i: nat, j: nat, k: nat, l: nat)
    requires i < 64 && j < 64 && k < 64 && l < 64
    ensures ThreeBytes(((i * 64 + j) * 64 + k) * 64 + l) ==
            [(i * 4 + j / 16) as Byte, (j % 16 * 16 + k / 4) as Byte, (k % 4 * 64 + l) as Byte]
  {
    var v := ((i * 64 + j) * 64 + k) * 64 + l;
    var u := (i * 64 + j) * 16 + k / 4;
    assert v == u * 256 + (k % 4 * 64 + l) && k % 4 * 64 + l < 256;
    assert v / 256 == u && v % 256 == k % 4 * 64 + l;
    assert u == (i * 4 + j / 16) * 256 + (j % 16 * 16 + k / 4) && j % 16 * 16 + k / 4 < 256;
    assert u / 256 == i * 4 + j / 16 && u % 256 == j % 16 * 16 + k / 4;
  }

  /** A whole group of three bytes in front. */
  lemma GroupFirst(x: seq<Byte>)
    requires |x| >= 3
    ensures Encode(x) == Quad(x[0], x[1], x[2]) + Encode(x[3..])
  {
    hide Quad, Pad;
    var q := Quad(x[0], x[1], x[2]);
    assert [] + [x[0]] == [x[0]] && [x[0]] + [x[1]] == [x[0], x[1]] && [x[0], x[1]] + [x[2]] == [x[0], x[1], x[2]];
    assert x[1..][1..] == x[2..] && x[2..][1..] == x[3..];
    var (o, p) := EncodeRun([], x[3..]);
    assert EncodeRun([x[0], x[1]], x[2..]) == (q + o, p);
    assert EncodeRun([x[0]], x[1..]) == ([] + (q + o), p);
    assert [] + (q + o) == q + o;
    Assoc(q, o, Pad(p));
  }

  lemma RunStep(p: seq<Byte>, c: Byte, y: seq<Byte>)
    requires |p| < 2
    ensures EncodeRun(p, [c] + y) == EncodeRun(p + [c], y)
  {
    assert ([c] + y)[1..] == y;
    var (o, q) := EncodeRun(p + [c], y);
    assert [] + o == o;
  }

  /** What is put out for fewer than three bytes. */
  lemma LastGroup(x: seq<Byte>)
    requires |x| < 3
    ensures Encode(x) == Pad(x)
  {
    hide Pad;
    if |x| > 0 {
      assert x == [x[0]] + x[1..];
      RunStep([], x[0], x[1..]);
      if |x| == 2 {
        assert x[1..] == [x[1]] + [];
        RunStep([] + [x[0]], x[1], []);
      }
      if |x| == 1 { assert [] + [x[0]] == x && x[1..] == []; } else { assert [] + [x[0]] + [x[1]] == x; }
    }
    assert EncodeRun(x, []) == ([], x);
    assert [] + Pad(x) == Pad(x);
  }

  /** The k-th letter of the encoding. */
  function LetterAt(x: seq<Byte>, k: nat): Byte {
    if 6 * k < 8 * |x| then ALPHABET[Sextet(x, k)] else 61
  }

  lemma GroupBits(v: nat)
    requires v < 0x100_0000
    ensures v / 64 / 64 / 64 == v / 262144 && v / 64 / 64 % 64 == v / 4096 % 64
  {
  }

  /** The sextets of the first group. */
  lemma FirstSextets(x: seq<Byte>)
    ensures var v := ByteAt(x, 0) * 65536 + ByteAt(x, 1) * 256 + ByteAt(x, 2);
            && Sextet(x, 0) == v / 262144 && Sextet(x, 1) == v / 4096 % 64
            && Sextet(x, 2) == v / 64 % 64 && Sextet(x, 3) == v % 64
  {
    assert 0 / 4 * 3 == 0 && 1 / 4 * 3 == 0 && 2 / 4 * 3 == 0 && 3 / 4 * 3 == 0;
  }

  lemma QuadLetters(x: seq<Byte>, k: nat)
    requires |x| >= 3 && k < 4
    ensures |Quad(x[0], x[1], x[2])| == 4 && Quad(x[0], x[1], x[2])[k] == LetterAt(x, k)
  {
    hide Letter, ALPHABET, Sextet;
    FirstSextets(x);
    var v := (x[0] as nat * 256 + x[1] as nat) * 256 + x[2] as nat;
    GroupBits(v);
    assert v == ByteAt(x, 0) * 65536 + ByteAt(x, 1) * 256 + ByteAt(x, 2);
    LetterIs(Sextet(x, k));
  }

  lemma PadLetters(x: seq<Byte>, k: nat)
    requires 0 < |x| < 3 && k < 4
    ensures |Pad(x)| == 4 && Pad(x)[k] == LetterAt(x, k)
  {
    hide Letter, ALPHABET, Sextet;
    FirstSextets(x);
    LetterIs(Sextet(x, k));
    if |x| == 1 { OneLeft(x[0] as nat); } else { TwoLeft(x[0] as nat, x[1] as nat); }
  }

  lemma OneLeft(a: nat)
    requires a < 256
    ensures a * 65536 / 262144 == a * 16 / 64 && a * 65536 / 4096 % 64 == a * 16 % 64
  {
  }

  lemma TwoLeft(a: nat, b: nat)
    requires a < 256 && b < 256
    ensures var v, w := a * 65536 + b * 256, (a * 256 + b) * 4;
            v / 262144 == w / 64 / 64 && v / 4096 % 64 == w / 64 % 64 && v / 64 % 64 == w % 64
  {
  }

  lemma NextGroup(x: seq<Byte>, k: nat)
    requires |x| >= 3
    ensures LetterAt(x, k + 4) == LetterAt(x[3..], k)
  {
    hide Six, ALPHABET;
    var i := k / 4 * 3;
    assert (k + 4) / 4 * 3 == i + 3 && (k + 4) % 4 == k % 4;
    assert ByteAt(x, i + 3) == ByteAt(x[3..], i) && ByteAt(x, i + 4) == ByteAt(x[3..], i + 1)
      && ByteAt(x, i + 5) == ByteAt(x[3..], i + 2);
  }

  /** Every letter of the encoding stands for its six bits, and padding fills up the last group. */
  lemma {:induction false} EncodeLetters(x: seq<Byte>)
    ensures |Encode(x)| == (|x| + 2) / 3 * 4
    ensures forall k :: 0 <= k < |Encode(x)| ==> Encode(x)[k] == LetterAt(x, k)
    decreases |x|
  {
    hide Encode, Quad, Pad, LetterAt;
    if |x| >= 3 {
      GroupFirst(x);
      EncodeLetters(x[3..]);
      var q := Quad(x[0], x[1], x[2]);
      QuadLetters(x, 0);
      forall k | 0 <= k < |Encode(x)| ensures Encode(x)[k] == LetterAt(x, k) {
        if k < 4 { QuadLetters(x, k); } else { NextGroup(x, k - 4); }
      }
    } else {
      LastGroup(x);
      if x == [] { NothingPadded(); } else { PadLetters(x, 0); }
      forall k | 0 <= k < |Encode(x)| ensures Encode(x)[k] == LetterAt(x, k) { PadLetters(x, k); }
    }
  }

  lemma NothingPadded()
    ensures Pad([]) == []
  {
  }

  // ---- lines of plain text ----

  predicate NoBreak(x: seq<Byte>) {
    10 !in x && 13 !in x
  }

  /** Text without line breaks, cut into lines of the given length. */
  function Lines(x: seq<Byte>, length: nat): seq<Byte>
    requires length > 0
    decreases |x|
  {
    if x == [] then [] else if |x| <= length then x + [13, 10] else x[..length] + [13, 10] + Lines(x[length..], length)
  }

  /** What is put out for x with room for `left` bytes in the line, and at the end. */
  function Wrapped(left: int, x: seq<Byte>, length: int): seq<Byte> {
    var (o, l) := WrapRun(left, x, length); o + WrapEnd(l, length)
  }

  lemma WrapNext(left: nat, c: Byte, y: seq<Byte>, length: nat)
    requires c != 10 && c != 13
    ensures Wrapped(left, [c] + y, length) ==
            if left == 0 then [13, 10, c] + Wrapped(length - 1, y, length) else [c] + Wrapped(left - 1, y, length)
  {
    var x := [c] + y;
    assert x[1..] == y && x[0] == c;
    var (o, l2) := WrapStep(left, c, length);
    var (o2, l3) := WrapRun(l2, y, length);
    Assoc(o, o2, WrapEnd(l3, length));
  }

  /** The rest of a line with room for `left` bytes, and the lines behind it. */
  function RestOfLine(left: nat, x: seq<Byte>, length: nat): seq<Byte>
    requires 0 < length && left <= length
  {
    if |x| <= left then x + (if left - |x| < length then [13, 10] else [])
    else x[..left] + [13, 10] + Lines(x[left..], length)
  }

  lemma RestNext(left: nat, c: Byte, y: seq<Byte>, length: nat)
    requires 0 < left <= length
    ensures RestOfLine(left, [c] + y, length) == [c] + RestOfLine(left - 1, y, length)
  {
    var x := [c] + y;
    if |x| > left { assert [c] + y[..left - 1] == x[..left] && y[left - 1..] == x[left..]; }
  }

  lemma {:induction false} WrapRest(left: nat, x: seq<Byte>, length: nat)
    requires 0 < length && left <= length && NoBreak(x)
    ensures Wrapped(left, x, length) == RestOfLine(left, x, length)
    decreases |x|
  {
    if x == [] {
      assert [] + WrapEnd(left, length) == WrapEnd(left, length);
    } else {
      hide Wrapped, RestOfLine;
      var c, y := x[0], x[1..];
      assert x == [c] + y;
      WrapNext(left, c, y, length);
      WrapRest(if left == 0 then length - 1 else left - 1, y, length);
      if left == 0 { LinesFirst(c, y, length); } else { RestNext(left, c, y, length); }
    }
  }

  lemma LinesFirst(c: Byte, y: seq<Byte>, length: nat)
    requires length > 0
    ensures RestOfLine(0, [c] + y, length) == [13, 10, c] + RestOfLine(length - 1, y, length)
  {
    var x := [c] + y;
    assert x[..0] == [] && x[0..] == x;
    if |x| > length { assert [c] + y[..length - 1] == x[..length] && y[length - 1..] == x[length..]; }
  }

  /** Text without line breaks is cut exactly every `length` bytes. */
  lemma WrapLines(x: seq<Byte>, length: nat)
    requires length > 0 && NoBreak(x)
    ensures Wrap(x, length) == Lines(x, length)
  {
    WrapRest(length, x, length);
    if |x| > length {
      assert x[..length] + [13, 10] + Lines(x[length..], length) == Lines(x, length);
    }
  }

  /** A line feed ends the line, and CR is dropped. */
  lemma WrapBreak(left: int, y: seq<Byte>, length: int)
    ensures Wrapped(left, [10] + y, length) == [13, 10] + Wrapped(length, y, length)
    ensures Wrapped(left, [13] + y, length) == Wrapped(left, y, length)
  {
    assert ([10 as Byte] + y)[1..] == y && ([13 as Byte] + y)[1..] == y;
    var (o, l) := WrapRun(length, y, length);
    Assoc(CRLF, o, WrapEnd(l, length));
    assert [] + WrapRun(left, y, length).0 == WrapRun(left, y, length).0;
  }

  lemma StepFits(left: int, c: Byte, length: int)
    requires length > 0 && 0 <= left <= length
    ensures var (o, l) := WrapStep(left, c, length);
            0 <= l <= length && MimeQp.LinesFit(length - left, o, length)
              && MimeQp.Column(length - left, o) == length - l
  {
    if c == 10 {
      MimeQp.HardBreak(length - left, length);
    } else if c != 13 {
      MimeQp.OneByte(if left == 0 then 0 else length - left, c, length);
      if left == 0 {
        MimeQp.HardBreak(length, length);
        MimeQp.LinesJoin(length, CRLF, [c], length);
      }
    }
  }

  lemma {:induction false} RunFits(left: nat, x: seq<Byte>, length: int)
    requires length > 0 && left <= length
    ensures var (o, l) := WrapRun(left, x, length);
            0 <= l <= length && MimeQp.LinesFit(length - left, o, length)
              && MimeQp.Column(length - left, o) == length - l
    decreases |x|
  {
    if x != [] {
      StepFits(left, x[0], length);
      var (o, l2) := WrapStep(left, x[0], length);
      RunFits(l2, x[1..], length);
      MimeQp.LinesJoin(length - left, o, WrapRun(l2, x[1..], length).0, length);
    }
  }

  /** No line is longer than a positive limit, whatever the input. */
  lemma WrapFits(x: seq<Byte>, length: int)
    requires length > 0
    ensures MimeQp.LinesFit(0, Wrap(x, length), length)
  {
    var (o, l) := WrapRun(length, x, length);
    RunFits(length, x, length);
    MimeQp.LinesJoin(0, o, WrapEnd(l, length), length);
    assert WrapEnd(l, length) == [] || (WrapEnd(l, length)[1..] == [10] && [10 as Byte][1..] == []);
  }
}
