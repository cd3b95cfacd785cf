/**
  The grammar of the texts that the parser takes: sections 2 to 7 of RFC 8259 without numbers, with raw
  control bytes in strings and commas and depth as they are checked.  A text is decoded exactly when
  the grammar has it.
 */
module JsonGrammar {
  import opened ByteType
  import opened JsonText
  import opened JsonRules

  // ---- the grammar ----

  predicate Blank(w: Bytes) {
    forall i :: 0 <= i < |w| ==> w[i] == 32 || w[i] == 9 || w[i] == 10 || w[i] == 13
  }

  /** The escape e of a code point: four digits, or a surrogate pair. */
  predicate IsUnicode(e: Bytes, n: nat) {
    if |e| == 6 then e[..2] == [92, 117] && n < 0x1_0000 && !IsSurrogate(n) && IsHex4(e[2..], n)
    else
      && |e| == 12 && e[..2] == [92, 117] && e[6..8] == [92, 117] && 0x1_0000 <= n < 0x11_0000
      && IsHex4(e[2..6], 0xd800 + (n - 0x1_0000) / 0x400) && IsHex4(e[8..], 0xdc00 + (n - 0x1_0000) % 0x400)
  }

  /** One character e of a string, and the bytes s that it stands for. */
  ghost predicate IsChar(e: Bytes, s: Bytes) {
    || (|e| == 1 && e[0] != 0 && e[0] != 34 && e[0] != 92 && s == e)
    || (exists k :: 0 <= k < 8 && e == [92, ESCAPES[k].1] && s == [ESCAPES[k].0])
    || (exists n: nat :: n < 0x11_0000 && IsUnicode(e, n) && s == Utf8(n))
  }

  /** The text t between quotes stands for the bytes s. */
  ghost predicate IsBody(t: Bytes, s: Bytes)
    decreases |t|
  {
    if t == [] then s == []
    else exists e, c, t2, s2 | |t2| < |t| :: t == e + t2 && s == c + s2 && IsChar(e, c) && IsBody(t2, s2)
  }

  ghost predicate IsString(t: Bytes, s: Bytes) {
    exists b :: t == [34] + b + [34] && IsBody(b, s)
  }

  /** The text t is one value, nested in `depth` tables. */
  ghost predicate IsValue(t: Bytes, v: Json, depth: nat)
    decreases |t|, 0
  {
    match v
    case Null => t == [110, 117, 108, 108]
    case Bool(b) => t == if b then [116, 114, 117, 101] else [102, 97, 108, 115, 101]
    case Str(s) => IsString(t, s)
    case Arr(items) => depth < 1000 && exists m | |m| < |t| :: t == [91] + m + [93] && AreItems(m, items, depth + 1)
    case Obj(pairs) =>
      depth < 1000 &&
      if pairs == [] then exists w :: Blank(w) && (t == [123] + w + [125] || t == [91] + w + [93])
      else exists m, raw | |m| < |t| :: t == [123] + m + [125] && AreMembers(m, raw, depth + 1) && pairs == Table(raw)
  }

  /** A value with white space around it. */
  ghost predicate IsPadded(t: Bytes, v: Json, depth: nat)
    decreases |t|, 1
  {
    exists w, b, w2 | |b| <= |t| :: t == w + b + w2 && Blank(w) && Blank(w2) && IsValue(b, v, depth)
  }

  /** Values with commas between them, at least one. */
  ghost predicate AreItems(t: Bytes, items: seq<Json>, depth: nat)
    decreases |t|, 2
  {
    items != [] &&
    if |items| == 1 then IsPadded(t, items[0], depth)
    else
      exists m, more | |m| < |t| && |more| < |t| ::
        t == m + [44] + more && IsPadded(m, items[0], depth) && AreItems(more, items[1..], depth)
  }

  ghost predicate IsKey(t: Bytes, key: Bytes) {
    exists w, k, w2 :: t == w + k + w2 && Blank(w) && Blank(w2) && IsString(k, key)
  }

  ghost predicate IsMember(t: Bytes, p: Pair, depth: nat)
    decreases |t|, 1
  {
    exists k, v | |v| < |t| :: t == k + [58] + v && IsKey(k, p.key) && IsPadded(v, p.value, depth)
  }

  /** Members with commas between them, at least one. */
  ghost predicate AreMembers(t: Bytes, raw: seq<Pair>, depth: nat)
    decreases |t|, 2
  {
    raw != [] &&
    if |raw| == 1 then IsMember(t, raw[0], depth)
    else
      exists m, more | |m| < |t| && |more| < |t| ::
        t == m + [44] + more && IsMember(m, raw[0], depth) && AreMembers(more, raw[1..], depth)
  }

  /** The table that the members leave: they are stored one after the other, and a key that is there is overwritten. */
  function Table(raw: seq<Pair>): seq<Pair> {
    Fill([], raw)
  }

  function Fill(pairs: seq<Pair>, raw: seq<Pair>): seq<Pair>
    decreases |raw|
  {
    if raw == [] then pairs else Fill(Put(pairs, raw[0].key, raw[0].value), raw[1..])
  }

  // ---- tables ----

  ghost predicate KeysDiffer(pairs: seq<Pair>) {
    forall i, j :: 0 <= i < j < |pairs| ==> pairs[i].key != pairs[j].key
  }

  lemma Front(x: Pair, rest: seq<Pair>)
    ensures forall p :: p in [x] + rest <==> p == x || p in rest
    ensures KeysDiffer([x] + rest) <==> KeysDiffer(rest) && forall p :: p in rest ==> p.key != x.key
  {
    var all := [x] + rest;
    forall p | p in rest ensures p in all {
      var i :| 0 <= i < |rest| && rest[i] == p;
      assert all[i + 1] == p;
    }
    if KeysDiffer(all) {
      forall i, j | 0 <= i < j < |rest| ensures rest[i].key != rest[j].key {
        assert all[i + 1].key != all[j + 1].key;
      }
      forall p | p in rest ensures p.key != x.key {
        var i :| 0 <= i < |rest| && rest[i] == p;
        assert all[0].key != all[i + 1].key;
      }
    }
  }

  lemma {:induction false} PutHolds(pairs: seq<Pair>, key: Bytes, value: Json)
    requires KeysDiffer(pairs)
    ensures var r := Put(pairs, key, value);
            KeysDiffer(r) && forall p :: p in r <==> p == Pair(key, value) || (p in pairs && p.key != key)
    decreases |pairs|
  {
    hide KeysDiffer;
    if pairs == [] {
      NoPairs();
      Front(Pair(key, value), []);
      assert [Pair(key, value)] + [] == [Pair(key, value)];
    } else {
      var rest := pairs[1..];
      assert pairs == [pairs[0]] + rest;
      Front(pairs[0], rest);
      if pairs[0].key == key {
        Front(Pair(key, value), rest);
      } else {
        PutHolds(rest, key, value);
        Front(pairs[0], Put(rest, key, value));
      }
    }
  }

  lemma NoPairs()
    ensures KeysDiffer([])
  {
  }

  /** No member behind the i-th has its key. */
  ghost predicate LastOfKey(raw: seq<Pair>, i: nat)
    requires i < |raw|
  {
    forall j :: i < j < |raw| ==> raw[j].key != raw[i].key
  }

  lemma {:induction false} FillHolds(pairs: seq<Pair>, raw: seq<Pair>)
    requires KeysDiffer(pairs)
    ensures var r := Fill(pairs, raw);
            && KeysDiffer(r)
            && forall p :: p in r <==> (exists i :: 0 <= i < |raw| && LastOfKey(raw, i) && p == raw[i])
                                       || (p in pairs && forall i :: 0 <= i < |raw| ==> raw[i].key != p.key)
    decreases |raw|
  {
    if raw != [] {
      var put, more := Put(pairs, raw[0].key, raw[0].value), raw[1..];
      PutHolds(pairs, raw[0].key, raw[0].value);
      FillHolds(put, more);
      forall p
        ensures p in Fill(pairs, raw) <==> (exists i :: 0 <= i < |raw| && LastOfKey(raw, i) && p == raw[i])
                                           || (p in pairs && forall i :: 0 <= i < |raw| ==> raw[i].key != p.key)
      {
        KeepsLast(raw, p);
      }
    }
  }

  lemma KeepsLast(raw: seq<Pair>, p: Pair)
    requires raw != []
    ensures (exists i :: 0 <= i < |raw| && LastOfKey(raw, i) && p == raw[i]) <==>
            (exists i :: 0 <= i < |raw[1..]| && LastOfKey(raw[1..], i) && p == raw[1..][i])
            || (p == raw[0] && forall i :: 0 <= i < |raw[1..]| ==> raw[1..][i].key != p.key)
    ensures (forall i :: 0 <= i < |raw| ==> raw[i].key != p.key) <==>
            raw[0].key != p.key && forall i :: 0 <= i < |raw[1..]| ==> raw[1..][i].key != p.key
  {
    var more := raw[1..];
    assert forall i :: 0 < i < |raw| ==> raw[i] == more[i - 1];
    forall i | 0 <= i < |more| ensures LastOfKey(more, i) <==> LastOfKey(raw, i + 1) {
      if LastOfKey(more, i) {
        forall j | i + 1 < j < |raw| ensures raw[j].key != raw[i + 1].key { assert raw[j] == more[j - 1]; }
      }
      if LastOfKey(raw, i + 1) {
        forall j | i < j < |more| ensures more[j].key != more[i].key { assert more[j] == raw[j + 1]; }
      }
    }
    if exists i :: 0 <= i < |raw| && LastOfKey(raw, i) && p == raw[i] {
      var i :| 0 <= i < |raw| && LastOfKey(raw, i) && p == raw[i];
      if i > 0 { assert LastOfKey(more, i - 1) && p == more[i - 1]; }
    }
    if exists i :: 0 <= i < |more| && LastOfKey(more, i) && p == more[i] {
      var i :| 0 <= i < |more| && LastOfKey(more, i) && p == more[i];
      assert LastOfKey(raw, i + 1) && p == raw[i + 1];
    }
    if p == raw[0] && forall i :: 0 <= i < |more| ==> more[i].key != p.key { assert LastOfKey(raw, 0); }
  }

  /** The keys of the table differ, and each has the value of the last member with that key. */
  lemma TableHolds(raw: seq<Pair>)
    ensures KeysDiffer(Table(raw))
    ensures forall p :: p in Table(raw) <==> exists i :: 0 <= i < |raw| && LastOfKey(raw, i) && p == raw[i]
  {
    FillHolds([], raw);
  }

  // ---- strings ----

  lemma {:induction false} BlankSkipped(w: Bytes, t: Bytes)
    requires Blank(w)
    ensures NextToken(w + t) == NextToken(t)
    decreases |w|
  {
    hide NextToken;
    if w == [] {
      assert w + t == t;
    } else {
      SpaceSkipped(w[0], w[1..] + t);
      assert w + t == [w[0]] + (w[1..] + t);
      BlankSkipped(w[1..], t);
    }
  }

  lemma UnicodeRead(e: Bytes, n: nat, rest: Bytes)
    requires IsUnicode(e, n)
    ensures n < 0x11_0000 && ReadString(e + rest) == Cons(Utf8(n), ReadString(rest))
  {
    hide ReadString, IsHex4, Utf8;
    if |e| == 6 {
      UnicodeBasic(e[2..], n, rest);
      assert e + rest == [92, 117] + e[2..] + rest;
    } else {
      UnicodePair(e[2..6], e[8..], n, rest);
      assert e == e[..2] + e[2..6] + e[6..8] + e[8..];
    }
  }

  lemma CharRead(e: Bytes, c: Bytes, rest: Bytes)
    requires IsChar(e, c)
    ensures ReadString(e + rest) == Cons(c, ReadString(rest))
  {
    hide ReadString, IsUnicode, Utf8;
    if |e| == 1 && e[0] != 0 && e[0] != 34 && e[0] != 92 && c == e {
      RawByte(e[0], rest);
      assert e == [e[0]];
    } else if exists k :: 0 <= k < 8 && e == [92, ESCAPES[k].1] && c == [ESCAPES[k].0] {
      var k :| 0 <= k < 8 && e == [92, ESCAPES[k].1] && c == [ESCAPES[k].0];
      ShortEscape(k, rest);
    } else {
      var n: nat :| n < 0x11_0000 && IsUnicode(e, n) && c == Utf8(n);
      UnicodeRead(e, n, rest);
    }
  }

  lemma {:induction false} BodyRead(t: Bytes, s: Bytes, rest: Bytes)
    requires IsBody(t, s)
    ensures ReadString(t + [34] + rest) == Some((s, rest))
    decreases |t|
  {
    hide *;
    if t == [] {
      QuoteRead(rest);
      BodyEnd(s);
      assert t + [34] + rest == [34] + rest;
    } else {
      var e, c, t2, s2 := BodyParts(t, s);
      assert t + [34] + rest == e + (t2 + [34] + rest);
      CharRead(e, c, t2 + [34] + rest);
      BodyRead(t2, s2, rest);
      ConsOf(c, s2, rest);
    }
  }

  lemma BodyEnd(s: Bytes)
    ensures IsBody([], s) <==> s == []
  {
  }

  lemma BodyParts(t: Bytes, s: Bytes) returns (e: Bytes, c: Bytes, t2: Bytes, s2: Bytes)
    requires t != [] && IsBody(t, s)
    ensures |t2| < |t| && t == e + t2 && s == c + s2 && IsChar(e, c) && IsBody(t2, s2)
  {
    hide IsChar;
    e, c, t2, s2 :| |t2| < |t| && t == e + t2 && s == c + s2 && IsChar(e, c) && IsBody(t2, s2);
  }

  lemma ConsOf(c: Bytes, s: Bytes, rest: Bytes)
    ensures Cons(c, Some((s, rest))) == Some((c + s, rest))
  {
  }

  lemma QuoteRead(rest: Bytes)
    ensures ReadString([34] + rest) == Some(([], rest))
  {
    assert ([34] + rest)[1..] == rest;
  }

  lemma StringRead(t: Bytes, s: Bytes, rest: Bytes)
    requires IsString(t, s)
    ensures NextToken(t + rest) == (StrTok(s), rest)
  {
    hide IsBody, ReadString;
    var b :| t == [34] + b + [34] && IsBody(b, s);
    BodyRead(b, s, rest);
    var x := t + rest;
    assert x[0] == 34 && x[1..] == b + [34] + rest;
  }

  /** The first character of a text that is read as a string. */
  lemma ReadChar(x: Bytes) returns (e: Bytes, c: Bytes)
    requires ReadString(x).Some? && x[0] != 34
    ensures IsChar(e, c) && |e| <= |x| && e == x[..|e|] && |e| > 0
    ensures ReadString(x) == Cons(c, ReadString(x[|e|..]))
  {
    hide Utf8, IsUnicode, Unicode, Unescaped, IsChar;
    if x[0] != 92 {
      e, c := x[..1], [x[0]];
      assert e == [x[0]];
      RawChar(x[0]);
    } else if |x| >= 2 && x[1] == 117 {
      assert x[..2] == [92, 117];
      e, c := UnicodeChar(x);
    } else {
      e, c := x[..2], [Unescaped(x[1])];
      assert e == [92, x[1]];
      ShortChar(x[1]);
    }
  }

  lemma RawChar(c: Byte)
    requires c != 0 && c != 34 && c != 92
    ensures IsChar([c], [c])
  {
  }

  lemma ShortChar(c: Byte)
    requires Unescaped(c) != 0
    ensures IsChar([92, c], [Unescaped(c)])
  {
    hide IsUnicode, Unescaped;
    ShortListed(c);
    var k :| 0 <= k < 8 && c == ESCAPES[k].1 && Unescaped(c) == ESCAPES[k].0;
    assert [92, c] == [92, ESCAPES[k].1] && [Unescaped(c)] == [ESCAPES[k].0];
  }

  lemma UnicodeChar(x: Bytes) returns (e: Bytes, c: Bytes)
    requires |x| >= 2 && x[..2] == [92, 117] && Unicode(x[2..]).Some?
    ensures c == Unicode(x[2..]).value.0 && e == x[..2 + Unicode(x[2..]).value.1] && IsChar(e, c)
  {
    hide Utf8, IsUnicode, Unicode;
    var n := UnicodeNumber(x[2..]);
    c := Utf8(n);
    e := x[..2 + Unicode(x[2..]).value.1];
    UnicodeSplit(x, n);
  }

  lemma ShortListed(c: Byte)
    requires Unescaped(c) != 0
    ensures exists k :: 0 <= k < 8 && c == ESCAPES[k].1 && Unescaped(c) == ESCAPES[k].0
  {
    assert c in [34, 92, 47, 98, 102, 110, 114, 116];
    assert ESCAPES[0].1 == 34 && ESCAPES[1].1 == 92 && ESCAPES[2].1 == 47 && ESCAPES[3].1 == 98;
    assert ESCAPES[4].1 == 102 && ESCAPES[5].1 == 110 && ESCAPES[6].1 == 114 && ESCAPES[7].1 == 116;
  }

  /** The digits of the number that is read. */
  lemma Hex4Digits(t: Bytes)
    requires Hex4(t).Some?
    ensures |t| >= 4 && Hex4(t).value < 0x1_0000 && IsHex4(t[..4], Hex4(t).value)
  {
    hide HexValue, IsDigit;
    DigitOf(t[0]);
    DigitOf(t[1]);
    DigitOf(t[2]);
    DigitOf(t[3]);
    FourDigits(HexValue(t[0]), HexValue(t[1]), HexValue(t[2]), HexValue(t[3]));
  }

  lemma FourDigits(a: nat, b: nat, c: nat, d: nat)
    requires a < 16 && b < 16 && c < 16 && d < 16
    ensures var n := ((a * 16 + b) * 16 + c) * 16 + d;
            n < 0x1_0000 && n / 4096 == a && n / 256 % 16 == b && n / 16 % 16 == c && n % 16 == d
  {
  }

  lemma DigitOf(c: Byte)
    ensures HexValue(c) < 16 ==> IsDigit(c, HexValue(c))
  {
    if 48 <= c <= 57 { assert c == LOWER[c as nat - 48]; }
    if 97 <= c <= 102 { assert c == LOWER[c as nat - 87]; }
    if 65 <= c <= 70 { assert c == UPPER[c as nat - 55]; }
  }

  /** The code point that is read. */
  function UnicodeNumber(t: Bytes): (n: nat)
    requires Unicode(t).Some?
    ensures n < 0x11_0000 && Unicode(t).value.0 == Utf8(n)
  {
    var h := Hex4(t).value;
    if h / 0x800 != 0x1b then h else h % 0x400 * 0x400 + Hex4(t[6..]).value % 0x400 + 0x1_0000
  }

  lemma UnicodeSplit(x: Bytes, n: nat)
    requires |x| >= 2 && x[..2] == [92, 117] && Unicode(x[2..]).Some? && n == UnicodeNumber(x[2..])
    ensures IsUnicode(x[..2 + Unicode(x[2..]).value.1], n)
  {
    hide IsHex4, Hex4, Utf8;
    var t := x[2..];
    var k := Unicode(t).value.1;
    var e := x[..2 + k];
    Hex4Digits(t);
    var h := Hex4(t).value;
    assert e[2..6] == t[..4];
    if h / 0x800 != 0x1b {
      assert k == 4 && e[2..] == t[..4];
    } else {
      Hex4Digits(t[6..]);
      assert k == 10 && e[8..] == t[6..][..4] && e[6..8] == [92, 117];
      PairNumbers(h, Hex4(t[6..]).value);
    }
  }

  lemma PairNumbers(h: nat, l: nat)
    requires h / 0x800 == 0x1b && h / 0x400 % 2 == 0 && l / 0x400 == 0x37
    ensures var m := h % 0x400 * 0x400 + l % 0x400;
            m < 0x10_0000 && h == 0xd800 + m / 0x400 && l == 0xdc00 + m % 0x400
  {
  }

  lemma {:induction false} ReadBody(x: Bytes) returns (b: Bytes)
    requires ReadString(x).Some?
    ensures x == b + [34] + ReadString(x).value.1 && IsBody(b, ReadString(x).value.0)
    decreases |x|
  {
    hide ReadString, IsChar;
    if Quoted(x) {
      b := [];
      QuoteRead(x[1..]);
      assert x == [34] + x[1..] && x == [] + [34] + x[1..];
    } else {
      var e, c := ReadChar(x);
      var b2 := ReadBody(x[|e|..]);
      b := e + b2;
      assert x == e + x[|e|..];
      assert x == b + [34] + ReadString(x).value.1;
      assert |b2| < |b|;
    }
  }

  predicate Quoted(x: Bytes)
    requires ReadString(x).Some?
  {
    x[0] == 34
  }

  // ---- texts of the grammar are read ----

  /** The value at the front of the text x, with white space before it, and what is behind it. */
  function FirstValue(x: Bytes, depth: nat): Option<(Json, Bytes)> {
    var (tok, t) := NextToken(x); Value(tok, t, depth)
  }

  function FirstItems(x: Bytes, depth: nat, items: seq<Json>): Option<(Json, Bytes)> {
    var (tok, t) := NextToken(x); Elements(tok, t, depth, items)
  }

  function FirstMembers(x: Bytes, depth: nat, pairs: seq<Pair>): Option<(Json, Bytes)> {
    var (tok, t) := NextToken(x); Members(tok, t, depth, pairs)
  }

  lemma WordRead(t: Bytes, v: Json, rest: Bytes, depth: nat)
    requires (v.Null? || v.Bool?) && IsValue(t, v, depth)
    ensures FirstValue(t + rest, depth) == Some((v, rest))
  {
    WordToken(v, rest);
    assert t == Text(v);
  }

  lemma {:induction false} ValueRead(t: Bytes, v: Json, rest: Bytes, depth: nat)
    requires IsValue(t, v, depth)
    ensures FirstValue(t + rest, depth) == Some((v, rest))
    decreases |t|, 0
  {
    hide *;
    if v.Null? || v.Bool? {
      WordRead(t, v, rest, depth);
    } else if v.Str? {
      StringValue(t, v, rest, depth);
    } else if v.Arr? {
      var m := ArrParts(t, v, depth);
      ItemsRead(m, v.items, rest, depth + 1, []);
      assert [] + v.items == v.items;
      ArrRead(m + [93] + rest, depth);
      assert t + rest == [91] + (m + [93] + rest);
    } else if v.pairs == [] {
      EmptyRead(t, v, rest, depth);
    } else {
      var m, raw := ObjParts(t, v, depth);
      MembersRead(m, raw, rest, depth + 1, []);
      ObjRead(m + [125] + rest, depth);
      TableOf(raw);
      assert t + rest == [123] + (m + [125] + rest);
    }
  }

  lemma TableOf(raw: seq<Pair>)
    ensures Table(raw) == Fill([], raw)
  {
  }

  lemma StringValue(t: Bytes, v: Json, rest: Bytes, depth: nat)
    requires v.Str? && IsValue(t, v, depth)
    ensures FirstValue(t + rest, depth) == Some((v, rest))
  {
    hide NextToken, IsString;
    StringRead(t, v.s, rest);
  }

  lemma ArrParts(t: Bytes, v: Json, depth: nat) returns (m: Bytes)
    requires v.Arr? && IsValue(t, v, depth)
    ensures t == [91] + m + [93] && AreItems(m, v.items, depth + 1) && |m| < |t| && depth < 1000
  {
    hide AreItems;
    m :| |m| < |t| && t == [91] + m + [93] && AreItems(m, v.items, depth + 1);
  }

  lemma ObjParts(t: Bytes, v: Json, depth: nat) returns (m: Bytes, raw: seq<Pair>)
    requires v.Obj? && v.pairs != [] && IsValue(t, v, depth)
    ensures t == [123] + m + [125] && AreMembers(m, raw, depth + 1) && |m| < |t| && depth < 1000
    ensures v.pairs == Table(raw)
  {
    hide AreMembers, Table;
    m, raw :| |m| < |t| && t == [123] + m + [125] && AreMembers(m, raw, depth + 1) && v.pairs == Table(raw);
  }

  /** An array whose elements are read is read. */
  lemma ArrRead(x: Bytes, depth: nat)
    requires depth < 1000
    ensures var r := FirstItems(x, depth + 1, []);
            r.Some? ==> FirstValue([91] + x, depth) == r
  {
    hide NextToken, ReadString;
    MarkToken(91, x);
    if FirstItems(x, depth + 1, []).Some? { ItemToken(NextToken(x).0, NextToken(x).1, depth + 1, []); }
  }

  lemma ItemToken(tok: Token, t: Bytes, depth: nat, items: seq<Json>)
    requires Elements(tok, t, depth, items).Some?
    ensures !tok.ArrEnd? && !tok.End? && !tok.Error?
  {
  }

  lemma ObjRead(x: Bytes, depth: nat)
    requires depth < 1000
    ensures var r := FirstMembers(x, depth + 1, []);
            r.Some? ==> FirstValue([123] + x, depth) == r
  {
    hide NextToken, ReadString;
    MarkToken(123, x);
    if FirstMembers(x, depth + 1, []).Some? { MemberToken(NextToken(x).0, NextToken(x).1, depth + 1, []); }
  }

  lemma MemberToken(tok: Token, t: Bytes, depth: nat, pairs: seq<Pair>)
    requires Members(tok, t, depth, pairs).Some?
    ensures tok.StrTok?
  {
  }

  lemma EmptyRead(t: Bytes, v: Json, rest: Bytes, depth: nat)
    requires v == Obj([]) && IsValue(t, v, depth)
    ensures FirstValue(t + rest, depth) == Some((v, rest))
  {
    hide NextToken, Blank;
    var w :| Blank(w) && (t == [123] + w + [125] || t == [91] + w + [93]);
    var open, close := t[0], t[|t| - 1];
    assert t == [open] + w + [close];
    assert t + rest == [open] + (w + ([close] + rest));
    MarkToken(open, w + ([close] + rest));
    BlankSkipped(w, [close] + rest);
    MarkToken(close, rest);
  }

  /** What is behind a padded value starts with the same token as what is behind its white space. */
  lemma {:induction false} PaddedRead(t: Bytes, v: Json, x: Bytes, depth: nat) returns (y: Bytes)
    requires IsPadded(t, v, depth)
    ensures FirstValue(t + x, depth) == Some((v, y)) && NextToken(y) == NextToken(x)
    decreases |t|, 1
  {
    hide *;
    var w, b, w2 := PaddedParts(t, v, depth);
    y := w2 + x;
    assert t + x == w + (b + y);
    BlankSkipped(w, b + y);
    FirstSkips(w, b + y, depth);
    ValueRead(b, v, y, depth);
    BlankSkipped(w2, x);
  }

  lemma PaddedParts(t: Bytes, v: Json, depth: nat) returns (w: Bytes, b: Bytes, w2: Bytes)
    requires IsPadded(t, v, depth)
    ensures |b| <= |t| && t == w + b + w2 && Blank(w) && Blank(w2) && IsValue(b, v, depth)
  {
    hide Blank, IsValue;
    w, b, w2 :| |b| <= |t| && t == w + b + w2 && Blank(w) && Blank(w2) && IsValue(b, v, depth);
  }

  lemma FirstSkips(w: Bytes, x: Bytes, depth: nat)
    requires NextToken(w + x) == NextToken(x)
    ensures FirstValue(w + x, depth) == FirstValue(x, depth)
  {
    hide NextToken, Value;
  }

  lemma {:induction false} ItemsRead(t: Bytes, items: seq<Json>, rest: Bytes, depth: nat, before: seq<Json>)
    requires AreItems(t, items, depth)
    ensures FirstItems(t + [93] + rest, depth, before) == Some((Arr(before + items), rest))
    decreases |t|, 2
  {
    hide *;
    var m, more := ItemsParts(t, items, depth);
    var x := if |items| == 1 then [93] + rest else [44] + (more + [93] + rest);
    assert t + [93] + rest == m + x;
    var y := PaddedRead(m, items[0], x, depth);
    ItemsStep(m + x, depth, before);
    if |items| == 1 {
      MarkToken(93, rest);
      assert before + items == before + [items[0]];
    } else {
      CommaRead(more + [93] + rest);
      ItemsRead(more, items[1..], rest, depth, before + [items[0]]);
      assert before + [items[0]] + items[1..] == before + items;
    }
  }

  lemma CommaRead(rest: Bytes)
    ensures NextToken([44] + rest) == (CommaTok, rest)
  {
    MarkToken(COMMA, rest);
  }

  lemma ColonRead(rest: Bytes)
    ensures NextToken([58] + rest) == (ColonTok, rest)
  {
    MarkToken(COLON, rest);
  }

  lemma ItemsParts(t: Bytes, items: seq<Json>, depth: nat) returns (m: Bytes, more: Bytes)
    requires AreItems(t, items, depth)
    ensures items != [] && |m| <= |t| && IsPadded(m, items[0], depth)
    ensures |items| == 1 ==> m == t
    ensures |items| > 1 ==> t == m + [44] + more && AreItems(more, items[1..], depth) && |m| < |t| && |more| < |t|
  {
    hide IsPadded;
    if |items| == 1 {
      m, more := t, [];
    } else {
      m, more :| |m| < |t| && |more| < |t| && t == m + [44] + more && IsPadded(m, items[0], depth)
        && AreItems(more, items[1..], depth);
    }
  }

  /** The loop over elements, one turn. */
  lemma ItemsStep(x: Bytes, depth: nat, items: seq<Json>)
    ensures var v := FirstValue(x, depth);
            FirstItems(x, depth, items) ==
            if v.None? then None
            else
              var (tok, t) := NextToken(v.value.1);
              var all := items + [v.value.0];
              if tok.ArrEnd? then Some((Arr(all), t))
              else if !tok.CommaTok? then None else FirstItems(t, depth, all)
  {
    hide NextToken, Value;
  }

  lemma {:induction false} MembersRead(t: Bytes, raw: seq<Pair>, rest: Bytes, depth: nat, before: seq<Pair>)
    requires AreMembers(t, raw, depth)
    ensures FirstMembers(t + [125] + rest, depth, before) == Some((Obj(Fill(before, raw)), rest))
    decreases |t|, 2
  {
    hide *;
    var m, more := MembersParts(t, raw, depth);
    var x := if |raw| == 1 then [125] + rest else [44] + (more + [125] + rest);
    assert t + [125] + rest == m + x;
    MemberRead(m, raw[0], x, depth, before);
    FillStep(before, raw);
    AfterStep(x, depth, Put(before, raw[0].key, raw[0].value));
    if |raw| == 1 {
      MarkToken(125, rest);
    } else {
      CommaRead(more + [125] + rest);
      MembersRead(more, raw[1..], rest, depth, Put(before, raw[0].key, raw[0].value));
    }
  }

  lemma FillStep(before: seq<Pair>, raw: seq<Pair>)
    requires raw != []
    ensures Fill(before, raw) == Fill(Put(before, raw[0].key, raw[0].value), raw[1..])
    ensures |raw| == 1 ==> Fill(before, raw) == Put(before, raw[0].key, raw[0].value)
  {
  }

  lemma MembersParts(t: Bytes, raw: seq<Pair>, depth: nat) returns (m: Bytes, more: Bytes)
    requires AreMembers(t, raw, depth)
    ensures raw != [] && |m| <= |t| && IsMember(m, raw[0], depth)
    ensures |raw| == 1 ==> m == t
    ensures |raw| > 1 ==> t == m + [44] + more && AreMembers(more, raw[1..], depth) && |more| < |t|
  {
    hide IsMember;
    if |raw| == 1 {
      m, more := t, [];
    } else {
      m, more :| |m| < |t| && |more| < |t| && t == m + [44] + more && IsMember(m, raw[0], depth)
        && AreMembers(more, raw[1..], depth);
    }
  }

  /** One turn of the loop over members. */
  function AfterMember(x: Bytes, depth: nat, pairs: seq<Pair>): Option<(Json, Bytes)> {
    var (tok, t) := NextToken(x);
    if tok.ObjEnd? then Some((Obj(pairs), t)) else if !tok.CommaTok? then None else FirstMembers(t, depth, pairs)
  }

  lemma {:induction false} MemberRead(m: Bytes, p: Pair, x: Bytes, depth: nat, before: seq<Pair>)
    requires IsMember(m, p, depth)
    ensures FirstMembers(m + x, depth, before) == AfterMember(x, depth, Put(before, p.key, p.value))
    decreases |m|, 1
  {
    hide *;
    var k, v := MemberParts(m, p, depth);
    assert m + x == k + ([58] + (v + x));
    var y := KeyRead(k, p.key, [58] + (v + x));
    ColonRead(v + x);
    var z := PaddedRead(v, p.value, x, depth);
    MembersStep(m + x, depth, before);
    AfterSame(z, x, depth, Put(before, p.key, p.value));
  }

  lemma KeyRead(t: Bytes, key: Bytes, x: Bytes) returns (y: Bytes)
    requires IsKey(t, key)
    ensures NextToken(t + x) == (StrTok(key), y) && NextToken(y) == NextToken(x)
  {
    hide Blank, IsString, NextToken;
    var w, k, w2 :| t == w + k + w2 && Blank(w) && Blank(w2) && IsString(k, key);
    y := w2 + x;
    assert t + x == w + (k + y);
    BlankSkipped(w, k + y);
    StringRead(k, key, y);
    BlankSkipped(w2, x);
  }

  lemma AfterStep(x: Bytes, depth: nat, pairs: seq<Pair>)
    ensures var (tok, t) := NextToken(x);
            AfterMember(x, depth, pairs) ==
            if tok.ObjEnd? then Some((Obj(pairs), t)) else if !tok.CommaTok? then None
              else FirstMembers(t, depth, pairs)
  {
    hide NextToken, FirstMembers;
  }

  lemma AfterSame(y: Bytes, x: Bytes, depth: nat, pairs: seq<Pair>)
    requires NextToken(y) == NextToken(x)
    ensures AfterMember(y, depth, pairs) == AfterMember(x, depth, pairs)
  {
    hide NextToken, Members;
  }

  lemma MemberParts(m: Bytes, p: Pair, depth: nat) returns (k: Bytes, v: Bytes)
    requires IsMember(m, p, depth)
    ensures m == k + [58] + v && |v| < |m| && IsKey(k, p.key) && IsPadded(v, p.value, depth)
  {
    hide IsKey, IsPadded;
    k, v :| |v| < |m| && m == k + [58] + v && IsKey(k, p.key) && IsPadded(v, p.value, depth);
  }

  lemma MembersStep(x: Bytes, depth: nat, pairs: seq<Pair>)
    ensures var (tok, t) := NextToken(x);
            var (tok2, t2) := NextToken(t);
            var v := FirstValue(t2, depth);
            FirstMembers(x, depth, pairs) ==
            if !tok.StrTok? || !tok2.ColonTok? || v.None? then None
            else AfterMember(v.value.1, depth, Put(pairs, tok.s, v.value.0))
  {
    hide NextToken, Value, Put;
  }

  // ---- texts that are read are in the grammar ----

  ghost predicate IsToken(t: Bytes, tok: Token) {
    match tok
    case ObjBegin => t == [123]
    case ObjEnd => t == [125]
    case ArrBegin => t == [91]
    case ArrEnd => t == [93]
    case ColonTok => t == [58]
    case CommaTok => t == [44]
    case StrTok(s) => IsString(t, s)
    case BoolTok(b) => t == if b then [116, 114, 117, 101] else [102, 97, 108, 115, 101]
    case NullTok => t == [110, 117, 108, 108]
    case _ => false
  }

  lemma {:induction false} TextOfToken(x: Bytes) returns (w: Bytes, t: Bytes)
    requires !NextToken(x).0.End? && !NextToken(x).0.Error?
    ensures x == w + t + NextToken(x).1 && Blank(w) && IsToken(t, NextToken(x).0) && |t| > 0
    decreases |x|
  {
    hide ReadString, IsString;
    if IsSpace(x[0]) {
      var w2, t2 := TextOfToken(x[1..]);
      w, t := [x[0]] + w2, t2;
      assert x == [x[0]] + x[1..];
    } else {
      w := [];
      if x[0] == 34 {
        t := TextOfString(x);
      } else {
        t := x[..|x| - |NextToken(x).1|];
      }
    }
  }

  lemma TextOfString(x: Bytes) returns (t: Bytes)
    requires |x| > 0 && x[0] == 34 && ReadString(x[1..]).Some?
    ensures var (s, rest) := ReadString(x[1..]).value; x == t + rest && IsString(t, s) && |t| > 0
  {
    hide ReadString, IsBody;
    var b := ReadBody(x[1..]);
    t := [34] + b + [34];
    assert x == [34] + x[1..];
  }

  lemma TextOfMark(x: Bytes) returns (w: Bytes)
    requires NextToken(x).0 in [ObjBegin, ObjEnd, ArrBegin, ArrEnd, ColonTok, CommaTok]
    ensures Blank(w)
    ensures var (tok, rest) := NextToken(x);
            var c := if tok.ObjBegin? then 123 else if tok.ObjEnd? then 125 else if tok.ArrBegin? then 91
                     else if tok.ArrEnd? then 93 else if tok.ColonTok? then 58 else 44;
            x == w + [c] + rest
  {
    hide NextToken, Blank;
    var t;
    w, t := TextOfToken(x);
  }

  lemma ArrStep(t: Bytes, depth: nat)
    ensures var (tok, t2) := NextToken(t);
            Value(ArrBegin, t, depth) ==
            if depth >= 1000 then None else if tok.ArrEnd? then Some((Obj([]), t2))
            else if tok.End? || tok.Error? then None else FirstItems(t, depth + 1, [])
  {
    hide NextToken;
  }

  lemma ObjStep(t: Bytes, depth: nat)
    ensures var (tok, t2) := NextToken(t);
            Value(ObjBegin, t, depth) ==
            if depth >= 1000 then None else if tok.ObjEnd? then Some((Obj([]), t2))
            else if !tok.StrTok? then None else FirstMembers(t, depth + 1, [])
  {
    hide NextToken;
  }

  /** The text of the value that is read. */
  lemma {:induction false} TextOfValue(x: Bytes, depth: nat) returns (w: Bytes, b: Bytes)
    requires FirstValue(x, depth).Some?
    ensures var (v, rest) := FirstValue(x, depth).value; x == w + b + rest && Blank(w) && IsValue(b, v, depth)
    decreases |x|, 0
  {
    hide NextToken, Blank, IsString, Elements, Members, AreItems, AreMembers, FirstItems, FirstMembers, Table;
    var (tok, t) := NextToken(x);
    w, b := TextOfToken(x);
    if tok.ArrBegin? {
      b := TextOfArray(t, depth);
      assert x == w + ([91] + t);
    } else if tok.ObjBegin? {
      b := TextOfObject(t, depth);
      assert x == w + ([123] + t);
    }
  }

  lemma {:induction false} TextOfArray(t: Bytes, depth: nat) returns (b: Bytes)
    requires Value(ArrBegin, t, depth).Some?
    ensures var (v, rest) := Value(ArrBegin, t, depth).value; [91] + t == b + rest && IsValue(b, v, depth)
    decreases |t|, 3
  {
    hide *;
    ArrStep(t, depth);
    if NextToken(t).0.ArrEnd? {
      var w := TextOfMark(t);
      b := [91] + w + [93];
      EmptyValue(b, w, depth);
    } else {
      var m, items := TextOfItems(t, depth + 1, []);
      b := [91] + m + [93];
      assert [] + items == items;
      ArrayOf(m, items, depth);
    }
  }

  lemma EmptyValue(b: Bytes, w: Bytes, depth: nat)
    requires Blank(w) && (b == [123] + w + [125] || b == [91] + w + [93]) && depth < 1000
    ensures IsValue(b, Obj([]), depth)
  {
  }

  lemma ArrayOf(m: Bytes, items: seq<Json>, depth: nat)
    requires AreItems(m, items, depth + 1) && depth < 1000
    ensures IsValue([91] + m + [93], Arr(items), depth)
  {
    hide AreItems;
    assert |m| < |[91] + m + [93]|;
  }

  lemma {:induction false} TextOfObject(t: Bytes, depth: nat) returns (b: Bytes)
    requires Value(ObjBegin, t, depth).Some?
    ensures var (v, rest) := Value(ObjBegin, t, depth).value; [123] + t == b + rest && IsValue(b, v, depth)
    decreases |t|, 3
  {
    hide *;
    ObjStep(t, depth);
    if NextToken(t).0.ObjEnd? {
      var w := TextOfMark(t);
      b := [123] + w + [125];
      EmptyValue(b, w, depth);
    } else {
      var m, raw := TextOfMembers(t, depth + 1, []);
      b := [123] + m + [125];
      ObjectOf(m, raw, depth);
    }
  }

  lemma ObjectOf(m: Bytes, raw: seq<Pair>, depth: nat)
    requires AreMembers(m, raw, depth + 1) && depth < 1000
    ensures IsValue([123] + m + [125], Obj(Fill([], raw)), depth)
  {
    hide AreMembers, Fill;
    assert |m| < |[123] + m + [125]|;
    SomeMember(m, raw, depth + 1);
    FilledSome([], raw);
    assert Table(raw) == Fill([], raw);
  }

  lemma SomeMember(m: Bytes, raw: seq<Pair>, depth: nat)
    requires AreMembers(m, raw, depth)
    ensures raw != []
  {
  }

  lemma {:induction false} FilledSome(pairs: seq<Pair>, raw: seq<Pair>)
    requires pairs != [] || raw != []
    ensures Fill(pairs, raw) != []
    decreases |raw|
  {
    if raw != [] { FilledSome(Put(pairs, raw[0].key, raw[0].value), raw[1..]); }
  }

  lemma {:induction false} TextOfItems(x: Bytes, depth: nat, before: seq<Json>) returns (m: Bytes, items: seq<Json>)
    requires FirstItems(x, depth, before).Some?
    ensures var (v, rest) := FirstItems(x, depth, before).value;
            x == m + [93] + rest && AreItems(m, items, depth) && v == Arr(before + items)
    decreases |x|, 2
  {
    hide *;
    ItemsStep(x, depth, before);
    var (v, y) := FirstValue(x, depth).value;
    var w, b := TextOfValue(x, depth);
    var (tok, t) := NextToken(y);
    var w2 := TextOfMark(y);
    var first := w + b + w2;
    Pad(w, b, w2, v, depth);
    if tok.ArrEnd? {
      m, items := first, [v];
      OneItem(m, v, depth);
    } else {
      assert |t| < |x|;
      var m2, items2 := TextOfItems(t, depth, before + [v]);
      m, items := first + [44] + m2, [v] + items2;
      assert before + items == before + [v] + items2;
      MoreItems(first, v, m2, items2, depth);
    }
  }

  lemma Pad(w: Bytes, b: Bytes, w2: Bytes, v: Json, depth: nat)
    requires Blank(w) && Blank(w2) && IsValue(b, v, depth)
    ensures IsPadded(w + b + w2, v, depth)
  {
    hide Blank, IsValue;
    assert |b| <= |w + b + w2|;
  }

  lemma OneItem(m: Bytes, v: Json, depth: nat)
    requires IsPadded(m, v, depth)
    ensures AreItems(m, [v], depth)
  {
    hide IsPadded;
  }

  lemma MoreItems(first: Bytes, v: Json, more: Bytes, items: seq<Json>, depth: nat)
    requires IsPadded(first, v, depth) && AreItems(more, items, depth)
    ensures AreItems(first + [44] + more, [v] + items, depth)
  {
    hide IsPadded;
    var all := [v] + items;
    assert all[1..] == items && all[0] == v;
    assert |first + [44] + more| == |first| + 1 + |more|;
  }

  lemma {:induction false} TextOfMembers(x: Bytes, depth: nat, before: seq<Pair>) returns (m: Bytes, raw: seq<Pair>)
    requires FirstMembers(x, depth, before).Some?
    ensures var (v, rest) := FirstMembers(x, depth, before).value;
            x == m + [125] + rest && AreMembers(m, raw, depth) && v == Obj(Fill(before, raw))
    decreases |x|, 2
  {
    hide *;
    MembersStep(x, depth, before);
    var (key, t) := NextToken(x);
    var w, k := TextOfKey(x);
    var w2 := TextOfMark(t);
    var t2 := NextToken(t).1;
    var (v, y) := FirstValue(t2, depth).value;
    assert |t2| < |x|;
    var w3, b := TextOfValue(t2, depth);
    var p := Pair(key.s, v);
    AfterStep(y, depth, Put(before, p.key, p.value));
    var w4 := TextOfMark(y);
    var (tok, t3) := NextToken(y);
    var first := (w + k + w2) + [58] + (w3 + b + w4);
    KeyOf(w, k, w2, p.key);
    Pad(w3, b, w4, v, depth);
    MemberOf(w + k + w2, w3 + b + w4, p, depth);
    if tok.ObjEnd? {
      m, raw := first, [p];
      FillStep(before, raw);
      OneMember(m, p, depth);
      assert x == m + [125] + t3;
    } else {
      assert x == first + [44] + t3;
      var m2, raw2 := TextOfMembers(t3, depth, Put(before, p.key, p.value));
      m, raw := first + [44] + m2, [p] + raw2;
      assert raw[1..] == raw2;
      FillStep(before, raw);
      MoreMembers(first, p, m2, raw2, depth);
    }
  }

  lemma TextOfKey(x: Bytes) returns (w: Bytes, k: Bytes)
    requires NextToken(x).0.StrTok?
    ensures x == w + k + NextToken(x).1 && Blank(w) && IsString(k, NextToken(x).0.s) && |k| > 0
  {
    hide NextToken, Blank, IsString;
    w, k := TextOfToken(x);
  }

  lemma KeyOf(w: Bytes, k: Bytes, w2: Bytes, key: Bytes)
    requires Blank(w) && Blank(w2) && IsString(k, key)
    ensures IsKey(w + k + w2, key)
  {
    hide Blank, IsString;
  }

  lemma MemberOf(k: Bytes, v: Bytes, p: Pair, depth: nat)
    requires IsKey(k, p.key) && IsPadded(v, p.value, depth)
    ensures IsMember(k + [58] + v, p, depth)
  {
    hide IsKey, IsPadded;
    assert |v| < |k + [58] + v|;
  }

  lemma OneMember(m: Bytes, p: Pair, depth: nat)
    requires IsMember(m, p, depth)
    ensures AreMembers(m, [p], depth)
  {
    hide IsMember;
  }

  lemma MoreMembers(first: Bytes, p: Pair, more: Bytes, raw: seq<Pair>, depth: nat)
    requires IsMember(first, p, depth) && AreMembers(more, raw, depth)
    ensures AreMembers(first + [44] + more, [p] + raw, depth)
  {
    hide IsMember;
    var all := [p] + raw;
    assert all[1..] == raw && all[0] == p;
    assert |first + [44] + more| == |first| + 1 + |more|;
  }

  // ---- whole texts ----

  /** One value with white space around it, up to the end or to a byte 0; none of the first two bytes is 0. */
  ghost predicate IsText(t: Bytes, v: Json) {
    && !(|t| >= 2 && (t[0] == 0 || t[1] == 0))
    && exists m, rest :: t == m + rest && (rest == [] || rest[0] == 0) && IsPadded(m, v, 0)
  }

  /** Exactly the texts of the grammar are decoded, and each to its value. */
  lemma DecodeExactly(t: Bytes, v: Json)
    ensures Decode(t) == Some(v) <==> IsText(t, v)
  {
    hide *;
    DecodeStep(t);
    if Decode(t) == Some(v) {
      var (v2, rest) := FirstValue(t, 0).value;
      var w, b := TextOfValue(t, 0);
      var w2 := TextOfEnd(rest);
      Pad(w, b, w2, v, 0);
      assert t == (w + b + w2) + rest[|w2|..];
      TextIs(t, w + b + w2, rest[|w2|..], v);
    }
    if IsText(t, v) {
      var m, rest := PartsOfText(t, v);
      EndRead(rest);
      var y := PaddedRead(m, v, rest, 0);
    }
  }

  lemma DecodeStep(t: Bytes)
    ensures var r := FirstValue(t, 0);
            Decode(t) == if (|t| >= 2 && (t[0] == 0 || t[1] == 0)) || r.None? || !NextToken(r.value.1).0.End? then None
                         else Some(r.value.0)
  {
    hide NextToken, Value;
  }

  lemma EndRead(rest: Bytes)
    requires rest == [] || rest[0] == 0
    ensures NextToken(rest).0 == End
  {
  }

  lemma {:induction false} TextOfEnd(x: Bytes) returns (w: Bytes)
    requires NextToken(x).0.End?
    ensures Blank(w) && |w| <= |x| && w == x[..|w|] && (|w| == |x| || x[|w|] == 0)
    decreases |x|
  {
    hide ReadString;
    w := [];
    if x != [] && x[0] != 0 {
      var w2 := TextOfEnd(x[1..]);
      w := [x[0]] + w2;
    }
  }

  lemma TextIs(t: Bytes, m: Bytes, rest: Bytes, v: Json)
    requires !(|t| >= 2 && (t[0] == 0 || t[1] == 0)) && t == m + rest && (rest == [] || rest[0] == 0)
             && IsPadded(m, v, 0)
    ensures IsText(t, v)
  {
    hide IsPadded;
  }

  lemma PartsOfText(t: Bytes, v: Json) returns (m: Bytes, rest: Bytes)
    requires IsText(t, v)
    ensures !(|t| >= 2 && (t[0] == 0 || t[1] == 0)) && t == m + rest && (rest == [] || rest[0] == 0)
            && IsPadded(m, v, 0)
  {
    hide IsPadded;
    m, rest :| t == m + rest && (rest == [] || rest[0] == 0) && IsPadded(m, v, 0);
  }
}
