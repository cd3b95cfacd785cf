/** The rules of section 6.7 of RFC 2045, stated byte by byte of what the codec writes and reads. */
module MimeQpRules {
  import opened ByteType
  import opened MimeQp

  /** "0123456789ABCDEF" and "0123456789abcdef" */
  const UPPER: seq<Byte> := [48, 49, 50, 51, 52, 53, 54, 55, 56, 57, 65, 66, 67, 68, 69, 70]
  const LOWER: seq<Byte> := [48, 49, 50, 51, 52, 53, 54, 55, 56, 57, 97, 98, 99, 100, 101, 102]

  predicate IsBlank(c: Byte) {
    c == 9 || c == 32
  }

  /** CR LF at position i */
  predicate BreakAt(x: seq<Byte>, i: int) {
    0 <= i < |x| - 1 && x[i] == 13 && x[i + 1] == 10
  }

  /**
    What the byte at position i becomes.  A blank stands for itself only when two bytes follow that
    are not a line break.
   */
  function Shown(x: seq<Byte>, i: nat, marker: seq<Byte>): seq<Byte>
    requires i < |x|
  {
    var c := x[i];
    if BreakAt(x, i) then marker
    else if BreakAt(x, i - 1) then []
    else if (33 <= c <= 60) || (62 <= c <= 126) || (IsBlank(c) && i + 2 < |x| && !BreakAt(x, i + 1)) then [c]
    else [61, UPPER[c as nat / 16], UPPER[c as nat % 16]]
  }

  function ShownFrom(x: seq<Byte>, i: nat, marker: seq<Byte>): seq<Byte>
    requires i <= |x|
    decreases |x| - i
  {
    if i == |x| then [] else Shown(x, i, marker) + ShownFrom(x, i + 1, marker)
  }

  /** Input that ends in bytes which wait for more: a blank, a CR, or a blank and one byte. */
  predicate Unfinished(x: seq<Byte>) {
    x != [] && (IsBlank(x[|x| - 1]) || x[|x| - 1] == 13 || (|x| >= 2 && IsBlank(x[|x| - 2])))
  }

  function SoftEnd(x: seq<Byte>): seq<Byte> {
    if Unfinished(x) then [61, 13, 10] else []
  }

  // ---- what the encoder writes ----

  lemma QuoteIs(c: Byte)
    ensures Quote(c) == [61, UPPER[c as nat / 16], UPPER[c as nat % 16]]
  {
  }

  lemma Classes(c: Byte)
    ensures ClassOf(c) == Plain <==> (33 <= c <= 60) || (62 <= c <= 126)
    ensures ClassOf(c) == IfLast <==> IsBlank(c)
    ensures ClassOf(c) == Cr <==> c == 13
  {
  }

  lemma PadOne(c: Byte, marker: seq<Byte>)
    ensures WrittenAll(PadTokens([c]), marker) == (if ClassOf(c) == Plain then [c] else Quote(c)) + [61, 13, 10]
  {
    PadWritten([c], marker);
    assert [c][1..] == [];
    assert PadBytes([]) == [];
  }

  lemma PadTwo(a: Byte, b: Byte, marker: seq<Byte>)
    requires ClassOf(a) != Plain
    ensures WrittenAll(PadTokens([a, b]), marker)
            == Quote(a) + (if ClassOf(b) == Plain then [b] else Quote(b)) + [61, 13, 10]
  {
    PadWritten([a, b], marker);
    assert [a, b][1..] == [b] && [b][1..] == [];
    assert PadBytes([]) == [];
  }

  lemma LastTwo(x: seq<Byte>, i: nat, marker: seq<Byte>)
    requires i + 2 == |x|
    ensures ShownFrom(x, i, marker) == Shown(x, i, marker) + Shown(x, i + 1, marker)
  {
    assert ShownFrom(x, i + 2, marker) == [];
    assert ShownFrom(x, i + 1, marker) == Shown(x, i + 1, marker) + [];
  }

  /** The first byte is settled on its own. */
  predicate Single(x: seq<Byte>, i: nat) {
    && i < |x| && !BreakAt(x, i) && !BreakAt(x, i - 1) && (x[i] == 13 ==> i + 1 < |x|)
    && (IsBlank(x[i]) ==> i + 2 < |x| && !BreakAt(x, i + 1))
  }

  lemma {:induction false} TokensSingle(x: seq<Byte>, i: nat, marker: seq<Byte>)
    requires Single(x, i)
    ensures Tokens(x[i..]) == [FirstToken(x[i])] + Tokens(x[i + 1..])
    ensures Written(FirstToken(x[i]), marker) == Shown(x, i, marker)
  {
    hide Quote;
    Classes(x[i]);
    QuoteIs(x[i]);
    assert x[i..][1..] == x[i + 1..];
  }

  lemma {:induction false} TokensBreak(x: seq<Byte>, i: nat)
    requires BreakAt(x, i)
    ensures Tokens(x[i..]) == [Eol] + Tokens(x[i + 2..])
    ensures i > 0 && IsBlank(x[i - 1]) ==> Tokens(x[i - 1..]) == [Hex(x[i - 1])] + ([Eol] + Tokens(x[i + 2..]))
  {
    Classes(x[i]);
    assert x[i..][2..] == x[i + 2..];
    if i > 0 && IsBlank(x[i - 1]) {
      Classes(x[i - 1]);
      assert x[i - 1..][3..] == x[i + 2..];
    }
  }

  /** The last one or two bytes, which wait. */
  lemma {:induction false} TokensWaiting(x: seq<Byte>, i: nat, marker: seq<Byte>)
    requires i < |x| && !BreakAt(x, i) && !BreakAt(x, i - 1)
    requires (i + 1 == |x| && (x[i] == 13 || IsBlank(x[i]))) || (i + 2 == |x| && IsBlank(x[i]))
    ensures WrittenAll(Tokens(x[i..]), marker) == ShownFrom(x, i, marker) + [61, 13, 10]
  {
    hide Quote, WrittenAll, PadTokens;
    var c := x[i];
    Classes(c);
    QuoteIs(c);
    if i + 1 == |x| {
      assert x[i..] == [c];
      PadOne(c, marker);
      assert ShownFrom(x, i + 1, marker) == [];
      assert ShownFrom(x, i, marker) == Shown(x, i, marker) + [];
    } else {
      var e := x[i + 1];
      assert x[i..] == [c, e];
      Classes(e);
      QuoteIs(e);
      PadTwo(c, e, marker);
      LastTwo(x, i, marker);
    }
  }

  lemma {:induction false} TokensShown(x: seq<Byte>, i: nat, marker: seq<Byte>)
    requires i <= |x| && !BreakAt(x, i - 1)
    ensures WrittenAll(Tokens(x[i..]), marker) == ShownFrom(x, i, marker) + SoftEnd(x[i..])
    decreases |x| - i
  {
    hide Tokens, WrittenAll, Shown, Quote, SoftEnd;
    if i == |x| {
      NothingShown(x, marker);
    } else if BreakAt(x, i) {
      TokensBreak(x, i);
      ShownBreak(x, i, marker);
      TokensShown(x, i + 2, marker);
      SoftBehind(x, i, i + 2);
      WrittenOne(Eol, Tokens(x[i + 2..]), marker);
      Assoc(marker, ShownFrom(x, i + 2, marker), SoftEnd(x[i..]));
    } else if IsBlank(x[i]) && BreakAt(x, i + 1) {
      BlankBreak(x, i, marker);
      TokensBreak(x, i + 1);
      TokensShown(x, i + 3, marker);
      SoftBehind(x, i, i + 3);
      var rest := Tokens(x[i + 3..]);
      WrittenOne(Hex(x[i]), [Eol] + rest, marker);
      WrittenOne(Eol, rest, marker);
      Assoc(marker, ShownFrom(x, i + 3, marker), SoftEnd(x[i..]));
      Assoc(Quote(x[i]), marker + ShownFrom(x, i + 3, marker), SoftEnd(x[i..]));
    } else if (i + 1 == |x| && (x[i] == 13 || IsBlank(x[i]))) || (i + 2 == |x| && IsBlank(x[i])) {
      TokensWaiting(x, i, marker);
      SoftWaiting(x, i);
    } else {
      TokensSingle(x, i, marker);
      TokensShown(x, i + 1, marker);
      SoftSame(x, i);
      WrittenOne(FirstToken(x[i]), Tokens(x[i + 1..]), marker);
      Assoc(Shown(x, i, marker), ShownFrom(x, i + 1, marker), SoftEnd(x[i..]));
    }
  }

  lemma NothingShown(x: seq<Byte>, marker: seq<Byte>)
    ensures WrittenAll(Tokens(x[|x|..]), marker) == [] && ShownFrom(x, |x|, marker) == [] && SoftEnd(x[|x|..]) == []
  {
    assert x[|x|..] == [];
    assert Tokens([]) == [];
  }

  lemma SoftBehind(x: seq<Byte>, i: nat, j: nat)
    requires i < j <= |x| && BreakAt(x, j - 2)
    ensures SoftEnd(x[i..]) == SoftEnd(x[j..])
  {
  }

  lemma SoftWaiting(x: seq<Byte>, i: nat)
    requires (i + 1 == |x| && (x[i] == 13 || IsBlank(x[i]))) || (i + 2 == |x| && IsBlank(x[i]))
    ensures SoftEnd(x[i..]) == [61, 13, 10]
  {
  }

  lemma BlankBreak(x: seq<Byte>, i: nat, marker: seq<Byte>)
    requires i < |x| && IsBlank(x[i]) && BreakAt(x, i + 1)
    ensures ShownFrom(x, i, marker) == Quote(x[i]) + (marker + ShownFrom(x, i + 3, marker))
  {
    QuoteIs(x[i]);
    ShownBreak(x, i + 1, marker);
  }

  lemma ShownBreak(x: seq<Byte>, i: nat, marker: seq<Byte>)
    requires BreakAt(x, i)
    ensures ShownFrom(x, i, marker) == marker + ShownFrom(x, i + 2, marker)
  {
    assert ShownFrom(x, i + 1, marker) == [] + ShownFrom(x, i + 2, marker);
    assert [] + ShownFrom(x, i + 2, marker) == ShownFrom(x, i + 2, marker);
  }

  lemma SoftSame(x: seq<Byte>, i: nat)
    requires i < |x| && !(i + 1 == |x| && (x[i] == 13 || IsBlank(x[i]))) && !(i + 2 == |x| && IsBlank(x[i]))
    ensures SoftEnd(x[i..]) == SoftEnd(x[i + 1..])
  {
  }

  /** Byte by byte, what the encoder puts out for the whole of x. */
  lemma EncodeShows(x: seq<Byte>, marker: seq<Byte>)
    ensures Encode(x, marker) == ShownFrom(x, 0, marker) + SoftEnd(x)
  {
    EncodeIs(x, marker);
    TokensShown(x, 0, marker);
    assert x[0..] == x;
  }

  // ---- rules 2 and 3: what may stand in the text ----

  /** Every blank has a byte behind it, and that is no CR. */
  predicate BlanksInside(e: seq<Byte>) {
    forall j :: 0 <= j < |e| && IsBlank(e[j]) ==> j + 1 < |e| && e[j + 1] != 13
  }

  /** Every byte is a blank, printable, or part of a line break. */
  predicate Printable(e: seq<Byte>) {
    forall j :: 0 <= j < |e| ==>
      e[j] == 9 || 32 <= e[j] <= 126 || BreakAt(e, j) || BreakAt(e, j - 1)
  }

  lemma BlanksJoin(p: seq<Byte>, e: seq<Byte>)
    requires BlanksInside(e) && (forall j :: 0 <= j < |p| - 1 ==> !IsBlank(p[j]))
    requires p != [] && IsBlank(p[|p| - 1]) ==> e != [] && e[0] != 13
    ensures BlanksInside(p + e)
  {
  }

  lemma PrintableJoin(p: seq<Byte>, e: seq<Byte>)
    requires Printable(p) && Printable(e)
    ensures Printable(p + e)
  {
    var t := p + e;
    forall j | 0 <= j < |t| ensures t[j] == 9 || 32 <= t[j] <= 126 || BreakAt(t, j) || BreakAt(t, j - 1) {
      if j < |p| {
        assert t[j] == p[j];
        if BreakAt(p, j) { assert BreakAt(t, j); }
        if BreakAt(p, j - 1) { assert BreakAt(t, j - 1); }
      } else {
        var k := j - |p|;
        assert t[j] == e[k];
        if BreakAt(e, k) { assert BreakAt(t, j); }
        if BreakAt(e, k - 1) { assert BreakAt(t, j - 1); }
      }
    }
  }

  lemma ShownOk(x: seq<Byte>, i: nat)
    requires i < |x|
    ensures var p := Shown(x, i, CRLF);
            && Printable(p) && (forall j :: 0 <= j < |p| - 1 ==> !IsBlank(p[j]))
            && (p != [] && IsBlank(p[|p| - 1]) ==> p == [x[i]] && IsBlank(x[i]) && i + 2 < |x| && !BreakAt(x, i + 1))
            && (p == [] <==> BreakAt(x, i - 1) && !BreakAt(x, i))
            && (p != [] && p[0] == 13 <==> BreakAt(x, i))
  {
    var p := Shown(x, i, CRLF);
    if BreakAt(x, i) { assert BreakAt(p, 0); }
  }

  lemma {:induction false} ShownRules(x: seq<Byte>, i: nat)
    requires i <= |x|
    ensures var e := ShownFrom(x, i, CRLF) + SoftEnd(x);
            && Printable(e) && BlanksInside(e)
            && (i < |x| && !BreakAt(x, i - 1) && !BreakAt(x, i) ==> e != [] && e[0] != 13)
    decreases |x| - i
  {
    hide Shown;
    var soft := SoftEnd(x);
    if i == |x| {
      assert [] + soft == soft;
      if soft != [] { assert BreakAt(soft, 1); }
    } else {
      var p, e := Shown(x, i, CRLF), ShownFrom(x, i + 1, CRLF) + soft;
      ShownRules(x, i + 1);
      ShownOk(x, i);
      BlanksJoin(p, e);
      PrintableJoin(p, e);
      Assoc(p, ShownFrom(x, i + 1, CRLF), soft);
    }
  }

  /**
    In the encoding of any input no blank stands directly before a line break or at the end, and every
    byte outside a line break is a blank or printable.
   */
  lemma EncodeRules(x: seq<Byte>)
    ensures var e := Encode(x, CRLF);
            && (forall j :: 0 <= j < |e| && (e[j] == 9 || e[j] == 32) ==> j + 1 < |e| && e[j + 1] != 13)
            && (forall j :: 0 <= j < |e| ==>
                  e[j] == 9 || 32 <= e[j] <= 126 || BreakAt(e, j) || BreakAt(e, j - 1))
  {
    hide Encode, ShownFrom;
    EncodeShows(x, CRLF);
    ShownRules(x, 0);
  }

  /** A blank may be quoted without need: one byte before the end it waits, although nothing can follow. */
  lemma BlankBeforeLast()
    ensures Encode([32, 98], CRLF) == [61, 50, 48, 98, 61, 13, 10]
  {
    EncodeShows([32, 98], CRLF);
    LastTwo([32, 98], 0, CRLF);
  }

  // ---- what the decoder reads ----

  lemma DecodeTwo(a: Byte, b: Byte)
    requires a == 13
    ensures DecodeRun([], [a, b]) == DecodeStep([a, b])
  {
    assert [] + [a] == [a] && [a] + [b] == [a, b];
    assert [a, b][1..] == [b] && [b][1..] == [];
    var (o, p) := DecodeStep([a, b]);
    assert DecodeRun(p, []) == ([], p);
    assert DecodeRun([a], [b]) == (o + [], p);
    assert o + [] == o && [] + o == o;
  }

  lemma DecodeSingle(c: Byte)
    ensures DecodeRun([], [c]) == DecodeStep([c])
  {
    assert [] + [c] == [c] && [c][1..] == [];
    var (o, p) := DecodeStep([c]);
    assert DecodeRun(p, []) == ([], p) && o + [] == o;
  }

  /** "=" and two hexadecimal digits, of either case, are the byte that they name. */
  lemma DecodeHex(h: nat, l: nat, a: Byte, b: Byte)
    requires h < 16 && l < 16 && (a == UPPER[h] || a == LOWER[h]) && (b == UPPER[l] || b == LOWER[l])
    ensures DecodeRun([], [61, a, b]) == ([(16 * h + l) as Byte], [])
  {
    DecodeThree(61, a, b);
    DigitValue(h, a);
    DigitValue(l, b);
  }

  lemma DigitValue(h: nat, a: Byte)
    requires h < 16 && (a == UPPER[h] || a == LOWER[h])
    ensures Undigit(a) == h && a != 13
  {
  }

  lemma DigitListed(a: Byte)
    ensures Undigit(a) <= 15 ==> a in UPPER || a in LOWER
  {
    if 48 <= a <= 57 { assert a == UPPER[a as nat - 48]; }
    if 65 <= a <= 70 { assert a == UPPER[a as nat - 55]; }
    if 97 <= a <= 102 { assert a == LOWER[a as nat - 87]; }
  }

  /** A soft line break is nothing, and "=" with anything else behind it is left as it stands. */
  lemma DecodeOther(a: Byte, b: Byte)
    requires (a !in UPPER && a !in LOWER) || (b !in UPPER && b !in LOWER)
    ensures DecodeRun([], [61, a, b]) == if a == 13 && b == 10 then ([], []) else ([61, a, b], [])
  {
    DecodeThree(61, a, b);
    DigitListed(a);
    DigitListed(b);
    assert [61, a, b][..3] == [61, a, b];
  }

  /** A line break is itself; a CR before another byte goes, and takes that byte with it. */
  lemma DecodeCr(b: Byte)
    ensures DecodeRun([], [13, b]) == if b == 10 then ([13, 10], []) else ([], [])
  {
    DecodeTwo(13, b);
    assert [13, b][..2] == [13, b];
  }

  /** Any other byte is itself when it is a tab or printable, and goes when it is not. */
  lemma DecodePlain(c: Byte)
    requires c != 61 && c != 13
    ensures DecodeRun([], [c]) == (if c == 9 || 32 <= c <= 126 then [c] else [], [])
  {
    DecodeSingle(c);
  }

  // ---- lines ----

  /** A line feed ends the line, and CR is dropped, in what goes into the wrapper. */
  lemma WrapBreak(left: int, y: seq<Byte>, length: int)
    ensures WrapRun(left, [10] + y, length) ==
            ([13, 10] + WrapRun(length, y, length).0, WrapRun(length, y, length).1)
    ensures WrapRun(left, [13] + y, length) == WrapRun(left, y, length)
  {
    assert ([10 as Byte] + y)[1..] == y && ([13 as Byte] + y)[1..] == y;
    assert [] + WrapRun(left, y, length).0 == WrapRun(left, y, length).0;
  }
}
