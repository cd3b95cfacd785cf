/** The texts of RFC 8259 and the encoding of RFC 3629, stated byte by byte of what is printed and read. */
module JsonRules {
  import opened ByteType
  import opened JsonText

  // ---- UTF-8, sections 3 and 4 of RFC 3629 ----

  predicate Tail(c: Byte) {
    0x80 <= c <= 0xbf
  }

  /** The code point at the start of s and the bytes it takes, by the syntax of section 4. */
  function ReadUtf8(s: Bytes): Option<(nat, nat)> {
    if |s| >= 1 && s[0] <= 0x7f then Some((s[0] as nat, 1))
    else if |s| >= 2 && 0xc2 <= s[0] <= 0xdf && Tail(s[1]) then
      Some(((s[0] as nat - 0xc0) * 64 + (s[1] as nat - 0x80), 2))
    else if |s| >= 3 && Tail(s[2])
      && ((s[0] == 0xe0 && 0xa0 <= s[1] <= 0xbf) || (0xe1 <= s[0] <= 0xec && Tail(s[1]))
          || (s[0] == 0xed && 0x80 <= s[1] <= 0x9f) || (0xee <= s[0] <= 0xef && Tail(s[1]))) then
      Some((((s[0] as nat - 0xe0) * 64 + (s[1] as nat - 0x80)) * 64 + (s[2] as nat - 0x80), 3))
    else if |s| >= 4 && Tail(s[2]) && Tail(s[3])
      && ((s[0] == 0xf0 && 0x90 <= s[1] <= 0xbf) || (0xf1 <= s[0] <= 0xf3 && Tail(s[1]))
          || (s[0] == 0xf4 && 0x80 <= s[1] <= 0x8f)) then
      Some(((((s[0] as nat - 0xf0) * 64 + (s[1] as nat - 0x80)) * 64 + (s[2] as nat - 0x80)) * 64
            + (s[3] as nat - 0x80), 4))
    else None
  }

  predicate IsSurrogate(n: nat) {
    0xd800 <= n <= 0xdfff
  }

  /** Every code point is read back from its bytes. */
  lemma Utf8Back(n: nat, rest: Bytes)
    requires n < 0x11_0000 && !IsSurrogate(n)
    ensures ReadUtf8(Utf8(n) + rest) == Some((n, |Utf8(n)|))
  {
    var s := Utf8(n) + rest;
    if n <= 0x7f {
      assert s[0] as nat == n;
    } else if n <= 0x7ff {
      assert s[0] as nat == n / 64 + 0xc0 && s[1] as nat == n % 64 + 0x80;
    } else if n <= 0xffff {
      ThreeParts(n);
      assert s[0] as nat == n / 4096 + 0xe0 && s[1] as nat == n / 64 % 64 + 0x80 && s[2] as nat == n % 64 + 0x80;
    } else {
      FourParts(n);
      assert s[0] as nat == n / 262144 + 0xf0 && s[1] as nat == n / 4096 % 64 + 0x80
        && s[2] as nat == n / 64 % 64 + 0x80 && s[3] as nat == n % 64 + 0x80;
    }
  }

  lemma ThreeParts(n: nat)
    requires 0x7ff < n <= 0xffff
    ensures (n / 4096 * 64 + n / 64 % 64) * 64 + n % 64 == n && n / 4096 <= 15
    ensures n / 4096 == 0 ==> n / 64 % 64 >= 32
    ensures n / 4096 == 13 && n / 64 % 64 >= 32 ==> IsSurrogate(n)
  {
  }

  lemma FourParts(n: nat)
    requires 0xffff < n < 0x11_0000
    ensures ((n / 262144 * 64 + n / 4096 % 64) * 64 + n / 64 % 64) * 64 + n % 64 == n && n / 262144 <= 4
    ensures n / 262144 == 0 ==> n / 4096 % 64 >= 16
    ensures n / 262144 == 4 ==> n / 4096 % 64 < 16
  {
  }

  /** Nothing else is read as that code point, and nothing shorter is read at all. */
  lemma Utf8Only(s: Bytes)
    ensures ReadUtf8(s).Some? ==>
              var (n, k) := ReadUtf8(s).value;
              n < 0x11_0000 && !IsSurrogate(n) && k == |Utf8(n)| <= |s| && s[..k] == Utf8(n)
  {
    var r := ReadUtf8(s);
    if r.Some? {
      var (n, k) := r.value;
      if k == 1 {
        assert s[..1] == [s[0]];
      } else if k == 2 {
        assert s[..2] == [s[0], s[1]];
      } else if k == 3 {
        Sixes(s[0] as nat - 0xe0, s[1] as nat - 0x80, s[2] as nat - 0x80);
        assert s[..3] == [s[0], s[1], s[2]];
      } else {
        Sixes((s[0] as nat - 0xf0) * 64 + (s[1] as nat - 0x80), s[2] as nat - 0x80, s[3] as nat - 0x80);
        assert s[..4] == [s[0], s[1], s[2], s[3]];
      }
    }
  }

  lemma Sixes(a: nat, b: nat, c: nat)
    requires b < 64 && c < 64
    ensures var n := (a * 64 + b) * 64 + c; n / 4096 == a && n / 64 % 64 == b && n % 64 == c && n / 262144 == a / 64
  {
  }

  lemma Utf8Shortest(n: nat, k: nat)
    requires n < 0x11_0000 && !IsSurrogate(n) && k < |Utf8(n)|
    ensures ReadUtf8(Utf8(n)[..k]).None?
  {
    Utf8Only(Utf8(n)[..k]);
  }

  // ---- "\u", section 7 of RFC 8259 ----

  /** "0123456789abcdef" and "0123456789ABCDEF" */
  const LOWER: Bytes := [48, 49, 50, 51, 52, 53, 54, 55, 56, 57, 97, 98, 99, 100, 101, 102]
  const UPPER: Bytes := [48, 49, 50, 51, 52, 53, 54, 55, 56, 57, 65, 66, 67, 68, 69, 70]

  predicate IsDigit(c: Byte, n: nat)
    requires n < 16
  {
    c == LOWER[n] || c == UPPER[n]
  }

  /** Four digits, of either case each, for the number n. */
  predicate IsHex4(t: Bytes, n: nat)
    requires n < 0x1_0000
  {
    |t| == 4 && IsDigit(t[0], n / 4096) && IsDigit(t[1], n / 256 % 16) && IsDigit(t[2], n / 16 % 16)
      && IsDigit(t[3], n % 16)
  }

  lemma DigitValue(c: Byte, n: nat)
    requires n < 16 && IsDigit(c, n)
    ensures HexValue(c) == n
  {
  }

  lemma DigitsOf(n: nat)
    requires n < 0x1_0000
    ensures n / 4096 < 16
    ensures ((n / 4096 * 16 + n / 256 % 16) * 16 + n / 16 % 16) * 16 + n % 16 == n
  {
  }

  lemma Hex4Is(t: Bytes, n: nat, rest: Bytes)
    requires n < 0x1_0000 && IsHex4(t, n)
    ensures Hex4(t + rest) == Some(n)
  {
    hide HexValue, IsDigit;
    DigitsOf(n);
    DigitValue(t[0], n / 4096);
    DigitValue(t[1], n / 256 % 16);
    DigitValue(t[2], n / 16 % 16);
    DigitValue(t[3], n % 16);
    var s := t + rest;
    assert s[0] == t[0] && s[1] == t[1] && s[2] == t[2] && s[3] == t[3];
  }

  /** A code point of the basic plane in four digits. */
  lemma UnicodeBasic(t: Bytes, n: nat, rest: Bytes)
    requires n < 0x1_0000 && !IsSurrogate(n) && IsHex4(t, n)
    ensures ReadString([92, 117] + t + rest) == Cons(Utf8(n), ReadString(rest))
  {
    hide Hex4, IsHex4, Utf8;
    Hex4Is(t, n, rest);
    var s := [92, 117] + t + rest;
    assert s[2..] == t + rest;
    assert (t + rest)[4..] == rest && s[6..] == rest by { assert |t| == 4 by { Hex4Size(t, n); } }
    assert n / 0x800 != 0x1b;
    assert Unicode(t + rest) == Some((Utf8(n), 4));
  }

  lemma Hex4Size(t: Bytes, n: nat)
    requires n < 0x1_0000 && IsHex4(t, n)
    ensures |t| == 4
  {
  }

  /** A higher code point as its surrogate pair. */
  lemma UnicodePair(t: Bytes, u: Bytes, n: nat, rest: Bytes)
    requires 0x1_0000 <= n < 0x11_0000
    requires IsHex4(t, 0xd800 + (n - 0x1_0000) / 0x400) && IsHex4(u, 0xdc00 + (n - 0x1_0000) % 0x400)
    ensures ReadString([92, 117] + t + [92, 117] + u + rest) == Cons(Utf8(n), ReadString(rest))
  {
    hide Hex4, IsHex4, Utf8;
    var m := n - 0x1_0000;
    var h, l := 0xd800 + m / 0x400, 0xdc00 + m % 0x400;
    Hex4Size(t, h);
    Hex4Size(u, l);
    Hex4Is(t, h, [92, 117] + u + rest);
    Hex4Is(u, l, rest);
    PairParts(m);
    var s := [92, 117] + t + [92, 117] + u + rest;
    var v := t + ([92, 117] + u + rest);
    assert s[2..] == v;
    assert v[4] == 92 && v[5] == 117 && v[6..] == u + rest;
    assert s[12..] == rest;
    assert Unicode(v) == Some((Utf8(n), 10));
  }

  lemma PairParts(m: nat)
    requires m < 0x10_0000
    ensures var h, l := 0xd800 + m / 0x400, 0xdc00 + m % 0x400;
            && h / 0x800 == 0x1b && h / 0x400 % 2 == 0 && l / 0x400 == 0x37
            && h % 0x400 * 0x400 + l % 0x400 == m && h < 0x1_0000 && l < 0x1_0000
  {
  }

  /** An escape that Unicode refuses is an error. */
  lemma Refused(t: Bytes)
    requires Unicode(t).None?
    ensures ReadString([92, 117] + t) == None
  {
    hide Unicode;
    assert ([92, 117] + t)[2..] == t;
  }

  lemma LoneRefused(t: Bytes, n: nat)
    requires Hex4(t) == Some(n) && IsSurrogate(n)
    requires n < 0xdc00 ==> |t| < 6 || t[4] != 92 || t[5] != 117
    ensures Unicode(t).None?
  {
    hide Hex4, Utf8;
  }

  /** A surrogate that is not the first of a pair is an error. */
  lemma UnicodeLone(t: Bytes, n: nat, rest: Bytes)
    requires IsSurrogate(n) && IsHex4(t, n)
    requires n < 0xdc00 ==> !(|rest| >= 2 && rest[0] == 92 && rest[1] == 117)
    ensures ReadString([92, 117] + t + rest) == None
  {
    hide Hex4, IsHex4, Utf8, ReadString, Unicode;
    Hex4Is(t, n, rest);
    Hex4Size(t, n);
    LoneRefused(t + rest, n);
    Refused(t + rest);
    assert [92, 117] + t + rest == [92, 117] + (t + rest);
  }

  /** The first of a pair with something else behind it is an error. */
  lemma UnicodeMismatch(t: Bytes, u: Bytes, n: nat, m: nat, rest: Bytes)
    requires 0xd800 <= n < 0xdc00 && m < 0x1_0000 && !(0xdc00 <= m <= 0xdfff) && IsHex4(t, n) && IsHex4(u, m)
    ensures ReadString([92, 117] + t + [92, 117] + u + rest) == None
  {
    hide Hex4, IsHex4, Utf8, ReadString, Unicode;
    Hex4Is(t, n, [92, 117] + u + rest);
    Hex4Is(u, m, rest);
    Hex4Size(t, n);
    Hex4Size(u, m);
    var v := t + ([92, 117] + u + rest);
    assert v[6..] == u + rest;
    MismatchRefused(v, n, m);
    Refused(v);
    assert [92, 117] + t + [92, 117] + u + rest == [92, 117] + v;
  }

  lemma MismatchRefused(t: Bytes, n: nat, m: nat)
    requires Hex4(t) == Some(n) && 0xd800 <= n < 0xdc00 && |t| >= 6 && Hex4(t[6..]) == Some(m)
    requires !(0xdc00 <= m <= 0xdfff)
    ensures Unicode(t).None?
  {
    hide Hex4, Utf8;
  }

  lemma DigitListed(c: Byte)
    ensures HexValue(c) <= 15 ==> c in LOWER || c in UPPER
  {
    if 48 <= c <= 57 { assert c == LOWER[c as nat - 48]; }
    if 97 <= c <= 102 { assert c == LOWER[c as nat - 87]; }
    if 65 <= c <= 70 { assert c == UPPER[c as nat - 55]; }
  }

  /** Fewer than four digits are an error. */
  lemma UnicodeBad(t: Bytes)
    requires |t| < 4 || exists k :: 0 <= k < 4 && t[k] !in LOWER && t[k] !in UPPER
    ensures ReadString([92, 117] + t) == None
  {
    hide *;
    if |t| >= 4 {
      var k :| 0 <= k < 4 && t[k] !in LOWER && t[k] !in UPPER;
      DigitListed(t[k]);
      NoHex4(t, k);
    } else {
      ShortHex4(t);
    }
    BadEscape(t);
  }

  lemma NoHex4(t: Bytes, k: nat)
    requires k < 4 <= |t| && HexValue(t[k]) > 15
    ensures Hex4(t).None?
  {
    hide HexValue;
  }

  lemma ShortHex4(t: Bytes)
    requires |t| < 4
    ensures Hex4(t).None?
  {
    hide HexValue;
  }

  lemma BadEscape(t: Bytes)
    requires Hex4(t).None?
    ensures ReadString([92, 117] + t) == None
  {
    hide Hex4, Utf8;
    assert ([92, 117] + t)[2..] == t;
  }

  // ---- the other escapes ----

  /** Each byte that has a short escape, with the byte behind the backslash. */
  const ESCAPES: seq<(Byte, Byte)> :=
    [(34, 34), (92, 92), (47, 47), (8, 98), (12, 102), (10, 110), (13, 114), (9, 116)]

  /** The short escapes, printed and read. */
  lemma ShortEscape(k: nat, rest: Bytes)
    requires k < 8
    ensures EscapedAll([ESCAPES[k].0]) == [92, ESCAPES[k].1]
    ensures ReadString([92, ESCAPES[k].1] + rest) == Cons([ESCAPES[k].0], ReadString(rest))
  {
    OneByte(ESCAPES[k].0);
    assert ([92, ESCAPES[k].1] + rest)[2..] == rest;
  }

  lemma OneByte(c: Byte)
    ensures EscapedAll([c]) == Escaped(c)
  {
    assert [c][1..] == [];
    assert EscapedAll([c]) == Escaped(c) + [];
  }

  /** A backslash with any other byte behind it is an error. */
  lemma NoEscape(c: Byte, rest: Bytes)
    requires c != 117 && forall k :: 0 <= k < 8 ==> ESCAPES[k].1 != c
    ensures ReadString([92, c] + rest) == None
  {
    assert ESCAPES[0].1 != c && ESCAPES[1].1 != c && ESCAPES[2].1 != c && ESCAPES[3].1 != c;
    assert ESCAPES[4].1 != c && ESCAPES[5].1 != c && ESCAPES[6].1 != c && ESCAPES[7].1 != c;
  }

  /** Other control bytes are printed with four digits; all other bytes are printed as they are. */
  lemma OtherBytes(c: Byte)
    requires forall k :: 0 <= k < 8 ==> ESCAPES[k].0 != c
    ensures EscapedAll([c]) ==
            if c < 32 || c == 127 then [92, 117, 48, 48, LOWER[c as nat / 16], LOWER[c as nat % 16]] else [c]
  {
    OneByte(c);
    assert ESCAPES[0].0 != c && ESCAPES[1].0 != c && ESCAPES[2].0 != c && ESCAPES[3].0 != c;
    assert ESCAPES[4].0 != c && ESCAPES[5].0 != c && ESCAPES[6].0 != c && ESCAPES[7].0 != c;
  }

  /** What is printed of a string has no control bytes. */
  lemma {:induction false} NoControls(s: Bytes)
    ensures forall j :: 0 <= j < |EscapedAll(s)| ==> EscapedAll(s)[j] >= 32 && EscapedAll(s)[j] != 127
    decreases |s|
  {
    if s != [] { NoControls(s[1..]); }
  }

  /** What is read as it stands: every byte but the quote, the backslash and zero, controls included. */
  lemma RawByte(c: Byte, rest: Bytes)
    requires c != 34 && c != 92
    ensures ReadString([c] + rest) == if c == 0 then None else Cons([c], ReadString(rest))
  {
    assert ([c] + rest)[1..] == rest;
  }

  // ---- texts ----

  /** The parts with commas between them. */
  function Commas(parts: seq<Bytes>): Bytes {
    if parts == [] then [] else if |parts| == 1 then parts[0] else parts[0] + [44] + Commas(parts[1..])
  }

  function ItemTexts(items: seq<Json>): seq<Bytes> {
    if items == [] then [] else [Text(items[0])] + ItemTexts(items[1..])
  }

  function PairTexts(pairs: seq<Pair>): seq<Bytes> {
    if pairs == [] then []
    else [[34] + EscapedAll(pairs[0].key) + [34, 58] + Text(pairs[0].value)] + PairTexts(pairs[1..])
  }

  lemma {:induction false} ItemsAre(v: Json, i: nat)
    requires v.Arr? && i <= |v.items|
    ensures ItemsText(v, i) == (if 0 < i < |v.items| then [44] else []) + Commas(ItemTexts(v.items[i..]))
    decreases |v.items| - i
  {
    hide Text;
    var its := v.items[i..];
    if i < |v.items| {
      ItemsAre(v, i + 1);
      var more := ItemTexts(its[1..]);
      assert its[1..] == v.items[i + 1..] && its[0] == v.items[i];
      assert ItemTexts(its) == [Text(its[0])] + more && ItemTexts(its)[1..] == more;
      assert more == [] <==> i + 1 == |v.items|;
    }
  }

  lemma {:induction false} PairsAre(v: Json, i: nat)
    requires v.Obj? && i <= |v.pairs|
    ensures PairsText(v, i) == (if 0 < i < |v.pairs| then [44] else []) + Commas(PairTexts(v.pairs[i..]))
    decreases |v.pairs| - i
  {
    hide Text, EscapedAll;
    var ps := v.pairs[i..];
    if i < |v.pairs| {
      PairsAre(v, i + 1);
      var p, more := v.pairs[i], PairTexts(ps[1..]);
      assert ps[1..] == v.pairs[i + 1..] && ps[0] == p;
      var t := [34] + EscapedAll(p.key) + [34, 58] + Text(p.value);
      assert StringText(p.key) + [58] + Text(p.value) == t;
      assert PairTexts(ps) == [t] + more && PairTexts(ps)[1..] == more;
      assert more == [] <==> i + 1 == |v.pairs|;
    }
  }

  /** The text of every tree. */
  lemma TextForm(v: Json)
    ensures match v
            case Null => Text(v) == [110, 117, 108, 108]
            case Bool(b) => Text(v) == if b then [116, 114, 117, 101] else [102, 97, 108, 115, 101]
            case Str(s) => Text(v) == [34] + EscapedAll(s) + [34]
            case Arr(items) => Text(v) == [91] + Commas(ItemTexts(items)) + [93]
            case Obj(pairs) => Text(v) == [123] + Commas(PairTexts(pairs)) + [125]
  {
    match v
    case Arr(items) =>
      ItemsAre(v, 0);
      assert items[0..] == items && [] + Commas(ItemTexts(items)) == Commas(ItemTexts(items));
    case Obj(pairs) =>
      PairsAre(v, 0);
      assert pairs[0..] == pairs && [] + Commas(PairTexts(pairs)) == Commas(PairTexts(pairs));
    case _ =>
  }

  /** White space is passed over, and only that. */
  lemma SpaceSkipped(c: Byte, rest: Bytes)
    requires c == 32 || c == 9 || c == 10 || c == 13
    ensures NextToken([c] + rest) == NextToken(rest)
  {
    hide ReadString;
    assert ([c] + rest)[1..] == rest;
  }

  // ---- how deep texts may nest ----

  function Opens(n: nat): Bytes {
    if n == 0 then [] else [91] + Opens(n - 1)
  }

  function Closes(n: nat): Bytes {
    if n == 0 then [] else [93] + Closes(n - 1)
  }

  /** The value of n brackets that open and close; the innermost is a table without elements. */
  function Nest(n: nat): Json {
    if n <= 1 then Obj([]) else Arr([Nest(n - 1)])
  }

  lemma {:induction false} ClosesMore(n: nat)
    ensures Closes(n + 1) == Closes(n) + [93]
    decreases n
  {
    if n > 0 { ClosesMore(n - 1); }
  }

  /** Behind the first bracket: the rest is read exactly when no more than 1000 tables are open at once. */
  lemma {:induction false} NestedValue(n: nat, depth: nat, rest: Bytes)
    requires n > 0
    ensures Value(ArrBegin, Opens(n - 1) + Closes(n) + rest, depth) ==
            if depth + n <= 1000 then Some((Nest(n), rest)) else None
    decreases n
  {
    hide ReadString, NextToken;
    var t := Opens(n - 1) + Closes(n) + rest;
    if n == 1 {
      assert t == [93] + rest;
      MarkToken(93, rest);
    } else {
      var t2 := Opens(n - 2) + Closes(n - 1) + ([93] + rest);
      ClosesMore(n - 1);
      assert t == [91] + t2;
      MarkToken(91, t2);
      NestedValue(n - 1, depth + 1, [93] + rest);
      MarkToken(93, rest);
      assert [] + [Nest(n - 1)] == [Nest(n - 1)];
    }
  }

  /** Texts nested 1000 deep are read, and deeper ones are not. */
  lemma DepthLimit(n: nat)
    requires n > 0
    ensures Decode(Opens(n) + Closes(n)) == if n <= 1000 then Some(Nest(n)) else None
  {
    hide ReadString, NextToken, Value;
    var t := Opens(n) + Closes(n);
    var u := Opens(n - 1) + Closes(n) + [];
    assert t == [91] + u;
    MarkToken(91, u);
    NestedValue(n, 0, []);
    NothingLeft();
    assert t[1] == 91 || t[1] == 93
      by { if n > 1 { assert Opens(n - 1)[0] == 91; } else { assert Closes(1)[0] == 93; } }
  }

  /** The printer's limit is the same. */
  lemma {:induction false} PrinterLimit(n: nat, depth: nat)
    requires n > 0
    ensures Shallow(Nest(n), depth) <==> depth + n <= 1000
    decreases n
  {
    if n > 1 {
      PrinterLimit(n - 1, depth + 1);
      assert Nest(n).items[0] == Nest(n - 1);
    }
  }
}
