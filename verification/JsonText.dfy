/** JSON texts of trees, and the parser that reads them; sections 4, 5 and 7 of RFC 8259. */
module JsonText {
  import opened ByteType

  /** The encoder's limit on nested tables, and the decoder's. */
  const MAX_DEPTH := 1000

  const QUOTE: Byte := 34
  const BACKSLASH: Byte := 92
  const COMMA: Byte := 44
  const COLON: Byte := 58

  type Bytes = seq<Byte>

  /** Arrays hold at least one element; a table without elements is an object. */
  datatype Json =
    | Null
    | Bool(b: bool)
    | Str(s: Bytes)
    | Arr(items: seq<Json>)
    | Obj(pairs: seq<Pair>)

  datatype Pair = Pair(key: Bytes, value: Json)

  datatype Option<T> = None | Some(value: T)

  // ---- the printer ----

  function HexDigit(n: nat): Byte
    requires n < 16
  {
    if n < 10 then (48 + n) as Byte else (87 + n) as Byte
  }

  /** char2escape */
  function Escaped(c: Byte): Bytes {
    if c == 8 then [BACKSLASH, 98]
    else if c == 9 then [BACKSLASH, 116]
    else if c == 10 then [BACKSLASH, 110]
    else if c == 12 then [BACKSLASH, 102]
    else if c == 13 then [BACKSLASH, 114]
    else if c == QUOTE || c == BACKSLASH || c == 47 then [BACKSLASH, c]
    else if c < 32 || c == 127 then [BACKSLASH, 117, 48, 48, HexDigit(c as nat / 16), HexDigit(c as nat % 16)]
    else [c]
  }

  function EscapedAll(s: Bytes): Bytes {
    if s == [] then [] else Escaped(s[0]) + EscapedAll(s[1..])
  }

  function StringText(s: Bytes): Bytes {
    [QUOTE] + EscapedAll(s) + [QUOTE]
  }

  const TRUE: Bytes := [116, 114, 117, 101]
  const FALSE: Bytes := [102, 97, 108, 115, 101]
  const NULL: Bytes := [110, 117, 108, 108]

  function Text(v: Json): Bytes
    decreases v, 1, 0
  {
    match v
    case Null => NULL
    case Bool(b) => if b then TRUE else FALSE
    case Str(s) => StringText(s)
    case Arr(items) => [91] + ItemsText(v, 0) + [93]
    case Obj(pairs) => [123] + PairsText(v, 0) + [125]
  }

  function Separator(i: nat): Bytes {
    if i > 0 then [COMMA] else []
  }

  function ItemsText(v: Json, i: nat): Bytes
    requires v.Arr? && i <= |v.items|
    decreases v, 0, |v.items| - i
  {
    if i == |v.items| then [] else Separator(i) + Text(v.items[i]) + ItemsText(v, i + 1)
  }

  function PairsText(v: Json, i: nat): Bytes
    requires v.Obj? && i <= |v.pairs|
    decreases v, 0, |v.pairs| - i
  {
    if i == |v.pairs| then []
    else Separator(i) + StringText(v.pairs[i].key) + [COLON] + Text(v.pairs[i].value) + PairsText(v, i + 1)
  }

  /** Can v be nested in `depth` tables without exceeding the limit? */
  predicate Shallow(v: Json, depth: nat)
    decreases v
  {
    match v
    case Arr(items) => depth + 1 <= MAX_DEPTH && forall i :: 0 <= i < |items| ==> Shallow(items[i], depth + 1)
    case Obj(pairs) => depth + 1 <= MAX_DEPTH && forall i :: 0 <= i < |pairs| ==> Shallow(pairs[i].value, depth + 1)
    case _ => true
  }

  /** The keys of a table are distinct, and an array is not empty. */
  predicate IsTree(v: Json)
    decreases v
  {
    match v
    case Arr(items) => items != [] && forall i :: 0 <= i < |items| ==> IsTree(items[i])
    case Obj(pairs) =>
      && (forall i, j :: 0 <= i < j < |pairs| ==> pairs[i].key != pairs[j].key)
      && forall i :: 0 <= i < |pairs| ==> IsTree(pairs[i].value)
    case _ => true
  }

  // ---- the scanner ----

  datatype Token =
    | ObjBegin | ObjEnd | ArrBegin | ArrEnd | StrTok(s: Bytes) | BoolTok(b: bool) | NullTok | ColonTok | CommaTok
    | End | Error

  /** hexdigit2int, with 16 for a byte that is no digit */
  function HexValue(c: Byte): nat {
    if 48 <= c <= 57 then c as nat - 48
    else if 97 <= c <= 102 then c as nat - 87
    else if 65 <= c <= 70 then c as nat - 55
    else 16
  }

  /** decode_hex4 */
  function Hex4(t: Bytes): Option<nat> {
    if |t| < 4 || HexValue(t[0]) > 15 || HexValue(t[1]) > 15 || HexValue(t[2]) > 15 || HexValue(t[3]) > 15 then None
    else Some(((HexValue(t[0]) * 16 + HexValue(t[1])) * 16 + HexValue(t[2])) * 16 + HexValue(t[3]))
  }

  /** codepoint_to_utf8; section 3 of RFC 3629 */
  function Utf8(n: nat): (r: Bytes)
    requires n < 0x11_0000
    ensures 1 <= |r| <= 4
  {
    if n <= 0x7f then [n as Byte]
    else if n <= 0x7ff then [(n / 64 + 0xc0) as Byte, (n % 64 + 0x80) as Byte]
    else if n <= 0xffff then [(n / 4096 + 0xe0) as Byte, (n / 64 % 64 + 0x80) as Byte, (n % 64 + 0x80) as Byte]
    else [(n / 262144 + 0xf0) as Byte, (n / 4096 % 64 + 0x80) as Byte, (n / 64 % 64 + 0x80) as Byte,
      (n % 64 + 0x80) as Byte]
  }

  /** json_append_unicode_escape on the text behind "\u": the bytes it stands for, and its length. */
  function Unicode(t: Bytes): (r: Option<(Bytes, nat)>)
    ensures r.Some? ==> 1 <= |r.value.0| <= 4 <= r.value.1 <= |t|
  {
    var h := Hex4(t);
    if h.None? then None
    else if h.value / 0x800 != 0x1b then Some((Utf8(h.value), 4))
    else if h.value / 0x400 % 2 == 1 then None
    else if |t| < 6 || t[4] != BACKSLASH || t[5] != 117 then None
    else
      var l := Hex4(t[6..]);
      if l.None? || l.value / 0x400 != 0x37 then None
      else Some((Utf8(h.value % 0x400 * 0x400 + l.value % 0x400 + 0x1_0000), 10))
  }

  /** escape2char, for all but "\u"; 0 for a byte that is no escape */
  function Unescaped(c: Byte): Byte {
    if c == QUOTE || c == BACKSLASH || c == 47 then c
    else if c == 98 then 8
    else if c == 116 then 9
    else if c == 110 then 10
    else if c == 102 then 12
    else if c == 114 then 13
    else 0
  }

  /** The string whose text behind the opening quote is t, and what follows its closing quote. */
  function ReadString(t: Bytes): (r: Option<(Bytes, Bytes)>)
    ensures r.Some? ==> |r.value.0| + |r.value.1| < |t|
    decreases |t|
  {
    if t == [] || t[0] == 0 then None
    else if t[0] == QUOTE then Some(([], t[1..]))
    else if t[0] != BACKSLASH then Cons([t[0]], ReadString(t[1..]))
    else if |t| >= 2 && t[1] == 117 then
      var u := Unicode(t[2..]);
      if u.None? then None else Cons(u.value.0, ReadString(t[2 + u.value.1..]))
    else if |t| < 2 || Unescaped(t[1]) == 0 then None
    else Cons([Unescaped(t[1])], ReadString(t[2..]))
  }

  function Cons(s: Bytes, r: Option<(Bytes, Bytes)>): Option<(Bytes, Bytes)> {
    if r.Some? then Some((s + r.value.0, r.value.1)) else None
  }

  predicate IsSpace(c: Byte) {
    c == 32 || c == 9 || c == 10 || c == 13
  }

  predicate StartsWith(t: Bytes, w: Bytes) {
    |w| <= |t| && t[..|w|] == w
  }

  /** json_next_token, on texts without numbers: the token and the text behind it. */
  function NextToken(t: Bytes): (r: (Token, Bytes))
    ensures |r.1| <= |t| && (!r.0.End? && !r.0.Error? ==> |r.1| < |t|)
    decreases |t|
  {
    if t == [] || t[0] == 0 then (End, t)
    else if IsSpace(t[0]) then NextToken(t[1..])
    else if t[0] == 123 then (ObjBegin, t[1..])
    else if t[0] == 125 then (ObjEnd, t[1..])
    else if t[0] == 91 then (ArrBegin, t[1..])
    else if t[0] == 93 then (ArrEnd, t[1..])
    else if t[0] == COMMA then (CommaTok, t[1..])
    else if t[0] == COLON then (ColonTok, t[1..])
    else if t[0] == QUOTE then
      var r := ReadString(t[1..]);
      if r.Some? then (StrTok(r.value.0), r.value.1) else (Error, t)
    else if StartsWith(t, TRUE) then (BoolTok(true), t[4..])
    else if StartsWith(t, FALSE) then (BoolTok(false), t[5..])
    else if StartsWith(t, NULL) then (NullTok, t[4..])
    else (Error, t)
  }

  // ---- the parser ----

  /** lua_rawset */
  function Put(pairs: seq<Pair>, key: Bytes, value: Json): seq<Pair> {
    if pairs == [] then [Pair(key, value)]
    else if pairs[0].key == key then [Pair(key, value)] + pairs[1..]
    else [pairs[0]] + Put(pairs[1..], key, value)
  }

  /** json_process_value on a token and the text behind it, in `depth` tables: the value and what follows it. */
  function Value(tok: Token, t: Bytes, depth: nat): (r: Option<(Json, Bytes)>)
    ensures r.Some? ==> |r.value.1| <= |t|
    decreases |t|, 1
  {
    match tok
    case StrTok(s) => Some((Str(s), t))
    case BoolTok(b) => Some((Bool(b), t))
    case NullTok => Some((Null, t))
    case ObjBegin =>
      if depth + 1 > MAX_DEPTH then None
      else
        var (tok2, t2) := NextToken(t);
        if tok2.ObjEnd? then Some((Obj([]), t2)) else if !tok2.StrTok? then None else Members(tok2, t2, depth + 1, [])
    case ArrBegin =>
      if depth + 1 > MAX_DEPTH then None
      else
        var (tok2, t2) := NextToken(t);
        if tok2.ArrEnd? then Some((Obj([]), t2)) else if tok2.End? || tok2.Error? then None
          else Elements(tok2, t2, depth + 1, [])
    case _ => None
  }

  /** The loop of json_parse_object_context, with the pairs read so far. */
  function Members(tok: Token, t: Bytes, depth: nat, pairs: seq<Pair>): (r: Option<(Json, Bytes)>)
    ensures r.Some? ==> |r.value.1| <= |t|
    decreases |t|, 2
  {
    if !tok.StrTok? then None
    else
      var (tok2, t2) := NextToken(t);
      if !tok2.ColonTok? then None
      else
        var (tok3, t3) := NextToken(t2);
        var v := Value(tok3, t3, depth);
        if v.None? then None
        else
          var pairs2 := Put(pairs, tok.s, v.value.0);
          var (tok4, t4) := NextToken(v.value.1);
          if tok4.ObjEnd? then Some((Obj(pairs2), t4))
          else if !tok4.CommaTok? then None
          else var (tok5, t5) := NextToken(t4); Members(tok5, t5, depth, pairs2)
  }

  /** The loop of json_parse_array_context, with the items read so far. */
  function Elements(tok: Token, t: Bytes, depth: nat, items: seq<Json>): (r: Option<(Json, Bytes)>)
    ensures r.Some? ==> |r.value.1| <= |t|
    decreases |t|, 2
  {
    var v := Value(tok, t, depth);
    if v.None? then None
    else
      var (tok2, t2) := NextToken(v.value.1);
      if tok2.ArrEnd? then Some((Arr(items + [v.value.0]), t2))
      else if !tok2.CommaTok? then None
      else var (tok3, t3) := NextToken(t2); Elements(tok3, t3, depth, items + [v.value.0])
  }

  /** json_decode */
  function Decode(t: Bytes): Option<Json> {
    if |t| >= 2 && (t[0] == 0 || t[1] == 0) then None
    else
      var (tok, t1) := NextToken(t);
      var v := Value(tok, t1, 0);
      if v.Some? && NextToken(v.value.1).0.End? then Some(v.value.0) else None
  }

  // ---- strings come back ----

  lemma HexBack(c: Byte, rest: Bytes)
    requires c < 128
    ensures Unicode([48, 48, HexDigit(c as nat / 16), HexDigit(c as nat % 16)] + rest) == Some(([c], 4))
  {
    var t := [48, 48, HexDigit(c as nat / 16), HexDigit(c as nat % 16)] + rest;
    assert Hex4(t) == Some(c as nat);
  }

  lemma EscapedBack(c: Byte, rest: Bytes)
    ensures ReadString(Escaped(c) + rest) == Cons([c], ReadString(rest))
  {
    var t := Escaped(c) + rest;
    if |Escaped(c)| == 1 {
      assert t[1..] == rest;
    } else if |Escaped(c)| == 2 {
      assert t[2..] == rest;
    } else {
      HexBack(c, rest);
      assert t[2..] == [48, 48, HexDigit(c as nat / 16), HexDigit(c as nat % 16)] + rest;
      assert t[6..] == rest;
    }
  }

  /** Every byte string is read back from its text. */
  lemma {:induction false} StringBack(s: Bytes, rest: Bytes)
    ensures ReadString(EscapedAll(s) + [QUOTE] + rest) == Some((s, rest))
    decreases |s|
  {
    hide Escaped;
    if s == [] {
      assert ([] + [QUOTE] + rest)[1..] == rest;
    } else {
      var more := EscapedAll(s[1..]) + [QUOTE] + rest;
      assert EscapedAll(s) + [QUOTE] + rest == Escaped(s[0]) + more;
      EscapedBack(s[0], more);
      StringBack(s[1..], rest);
      assert [s[0]] + s[1..] == s;
    }
  }

  lemma StringToken(s: Bytes, rest: Bytes)
    ensures NextToken(StringText(s) + rest) == (StrTok(s), rest)
  {
    hide EscapedAll, ReadString;
    var t := StringText(s) + rest;
    assert t[0] == QUOTE;
    assert t[1..] == EscapedAll(s) + [QUOTE] + rest;
    StringBack(s, rest);
  }

  lemma WordToken(v: Json, rest: Bytes)
    requires v.Null? || v.Bool?
    ensures NextToken(Text(v) + rest) == (if v.Null? then NullTok else BoolTok(v.b), rest)
  {
    var w := Text(v);
    assert (w + rest)[..|w|] == w && (w + rest)[|w|..] == rest;
    assert (w + rest)[0] == w[0];
  }

  lemma MarkToken(c: Byte, rest: Bytes)
    requires c == 123 || c == 125 || c == 91 || c == 93 || c == COMMA || c == COLON
    ensures NextToken([c] + rest) ==
            (match c case 123 => ObjBegin case 125 => ObjEnd case 91 => ArrBegin case 93 => ArrEnd case 44 =>
              CommaTok case _ => ColonTok, rest)
  {
    assert ([c] + rest)[1..] == rest;
  }

  // ---- values come back ----

  /** Reading the text of v gives v and leaves what follows it. */
  ghost predicate ReadsBack(v: Json, rest: Bytes, depth: nat) {
    var (tok, t) := NextToken(Text(v) + rest);
    Value(tok, t, depth) == Some((v, rest))
  }

  lemma {:induction false} ValueBack(v: Json, rest: Bytes, depth: nat)
    requires IsTree(v) && Shallow(v, depth)
    ensures ReadsBack(v, rest, depth) && !NextToken(Text(v) + rest).0.ArrEnd? && !NextToken(Text(v) + rest).0.ObjEnd?
    decreases v, 2, 0
  {
    match v
    case Str(s) => StringToken(s, rest);
    case Arr(items) => ArrBack(v, rest, depth);
    case Obj(pairs) => ObjBack(v, rest, depth);
    case _ => WordToken(v, rest);
  }

  lemma {:induction false} ArrBack(v: Json, rest: Bytes, depth: nat)
    requires v.Arr? && IsTree(v) && Shallow(v, depth)
    ensures ReadsBack(v, rest, depth) && NextToken(Text(v) + rest).0 == ArrBegin
    decreases v, 1, |v.items| + 1
  {
    SomeItem(v);
    hide *;
    var body := ItemsText(v, 0) + [93] + rest;
    ArrText(v, rest);
    ShallowItem(v, 0, depth);
    MarkToken(91, body);
    FirstItem(v, rest);
    ValueBack(v.items[0], ItemsText(v, 1) + [93] + rest, depth + 1);
    ItemsBack(v, 0, rest, depth);
    assert v.items[..0] == [];
    ArrValue(body, depth);
    BackOf(v, rest, depth);
  }

  lemma SomeItem(v: Json)
    requires v.Arr? && IsTree(v)
    ensures v.items != []
  {
  }

  lemma BackOf(v: Json, rest: Bytes, depth: nat)
    requires var (tok, t) := NextToken(Text(v) + rest); Value(tok, t, depth) == Some((v, rest))
    ensures ReadsBack(v, rest, depth)
  {
  }

  /** An array whose loop succeeds. */
  lemma ArrValue(t: Bytes, depth: nat)
    requires depth + 1 <= MAX_DEPTH
    ensures var (tok, t2) := NextToken(t); var r := Elements(tok, t2, depth + 1, []);
            !tok.ArrEnd? && r.Some? ==> Value(ArrBegin, t, depth) == r
  {
    hide NextToken;
  }

  lemma ArrText(v: Json, rest: Bytes)
    requires v.Arr?
    ensures Text(v) + rest == [91] + (ItemsText(v, 0) + [93] + rest)
  {
    hide ItemsText;
  }

  lemma FirstItem(v: Json, rest: Bytes)
    requires v.Arr? && v.items != []
    ensures ItemsText(v, 0) + [93] + rest == Text(v.items[0]) + (ItemsText(v, 1) + [93] + rest)
  {
    assert ItemsText(v, 0) == [] + Text(v.items[0]) + ItemsText(v, 1);
  }

  lemma ShallowItem(v: Json, i: nat, depth: nat)
    requires v.Arr? && i < |v.items| && Shallow(v, depth) && IsTree(v)
    ensures Shallow(v.items[i], depth + 1) && IsTree(v.items[i]) && v.items[i] < v && depth + 1 <= MAX_DEPTH
  {
  }

  /** The loop reads the items from the i-th on. */
  lemma {:induction false} ItemsBack(v: Json, i: nat, rest: Bytes, depth: nat)
    requires v.Arr? && IsTree(v) && Shallow(v, depth) && i < |v.items|
    ensures var (tok, t) := NextToken(Text(v.items[i]) + (ItemsText(v, i + 1) + [93] + rest));
            Elements(tok, t, depth + 1, v.items[..i]) == Some((v, rest))
    decreases v, 1, |v.items| - i
  {
    hide ReadString, NextToken, Value, Shallow, Text;
    var tail := ItemsText(v, i + 1) + [93] + rest;
    ShallowItem(v, i, depth);
    ValueBack(v.items[i], tail, depth + 1);
    assert v.items[..i] + [v.items[i]] == v.items[..i + 1];
    if i + 1 == |v.items| {
      assert tail == [93] + rest;
      MarkToken(93, rest);
      assert v.items[..i + 1] == v.items;
    } else {
      var next := Text(v.items[i + 1]) + (ItemsText(v, i + 2) + [93] + rest);
      assert ItemsText(v, i + 1) == [COMMA] + Text(v.items[i + 1]) + ItemsText(v, i + 2);
      assert tail == [COMMA] + next;
      MarkToken(COMMA, next);
      ItemsBack(v, i + 1, rest, depth);
    }
  }

  lemma {:induction false} PutNew(pairs: seq<Pair>, key: Bytes, value: Json)
    requires forall i :: 0 <= i < |pairs| ==> pairs[i].key != key
    ensures Put(pairs, key, value) == pairs + [Pair(key, value)]
    decreases |pairs|
  {
    if pairs != [] { PutNew(pairs[1..], key, value); }
  }

  lemma {:induction false} ObjBack(v: Json, rest: Bytes, depth: nat)
    requires v.Obj? && IsTree(v) && Shallow(v, depth)
    ensures ReadsBack(v, rest, depth) && NextToken(Text(v) + rest).0 == ObjBegin
    decreases v, 1, |v.pairs| + 1
  {
    hide ReadString;
    var body := PairsText(v, 0) + [125] + rest;
    assert Text(v) + rest == [123] + body;
    MarkToken(123, body);
    if v.pairs == [] {
      assert body == [125] + rest;
      MarkToken(125, rest);
    } else {
      PairStart(v, 0, rest);
      assert Separator(0) + (StringText(v.pairs[0].key) + AfterKey(v, 0, rest)) == StringText(v.pairs[0].key)
        + AfterKey(v, 0, rest);
      StringToken(v.pairs[0].key, AfterKey(v, 0, rest));
      assert v.pairs[..0] == [];
      PairsBack(v, 0, rest, depth);
    }
  }

  /** The text behind the i-th key. */
  function AfterKey(v: Json, i: nat, rest: Bytes): Bytes
    requires v.Obj? && i < |v.pairs|
  {
    [COLON] + (Text(v.pairs[i].value) + (PairsText(v, i + 1) + [125] + rest))
  }

  lemma PairStart(v: Json, i: nat, rest: Bytes)
    requires v.Obj? && i < |v.pairs|
    ensures PairsText(v, i) + [125] + rest == Separator(i) + (StringText(v.pairs[i].key) + AfterKey(v, i, rest))
  {
    hide StringText;
  }

  /** The loop reads the pairs from the i-th on. */
  lemma {:induction false} PairsBack(v: Json, i: nat, rest: Bytes, depth: nat)
    requires v.Obj? && IsTree(v) && Shallow(v, depth) && i < |v.pairs|
    ensures Members(StrTok(v.pairs[i].key), AfterKey(v, i, rest), depth + 1, v.pairs[..i]) == Some((v, rest))
    decreases v, 1, |v.pairs| - i
  {
    hide ReadString, NextToken, Value, Shallow, StringText;
    var e := v.pairs[i];
    var tail := PairsText(v, i + 1) + [125] + rest;
    MarkToken(COLON, Text(e.value) + tail);
    ShallowMember(v, i, depth);
    ValueBack(e.value, tail, depth + 1);
    MorePairs(v, i);
    if i + 1 == |v.pairs| {
      assert tail == [125] + rest;
      MarkToken(125, rest);
      assert v.pairs[..i + 1] == v.pairs;
    } else {
      PairStart(v, i + 1, rest);
      MarkToken(COMMA, StringText(v.pairs[i + 1].key) + AfterKey(v, i + 1, rest));
      StringToken(v.pairs[i + 1].key, AfterKey(v, i + 1, rest));
      PairsBack(v, i + 1, rest, depth);
    }
  }

  lemma MorePairs(v: Json, i: nat)
    requires v.Obj? && IsTree(v) && i < |v.pairs|
    ensures Put(v.pairs[..i], v.pairs[i].key, v.pairs[i].value) == v.pairs[..i + 1]
  {
    PutNew(v.pairs[..i], v.pairs[i].key, v.pairs[i].value);
    assert v.pairs[i] == Pair(v.pairs[i].key, v.pairs[i].value);
    assert v.pairs[..i] + [v.pairs[i]] == v.pairs[..i + 1];
  }

  lemma ShallowMember(v: Json, i: nat, depth: nat)
    requires v.Obj? && i < |v.pairs| && Shallow(v, depth) && IsTree(v)
    ensures Shallow(v.pairs[i].value, depth + 1) && IsTree(v.pairs[i].value) && v.pairs[i].value < v
  {
  }

  /** The text of a tree within the depth limit is decoded to that tree. */
  lemma JsonRoundTrip(v: Json)
    requires IsTree(v) && Shallow(v, 0)
    ensures Decode(Text(v)) == Some(v)
  {
    hide Text, NextToken, Value;
    ValueBack(v, [], 0);
    assert Text(v) + [] == Text(v);
    NothingLeft();
    NoZeros(v);
  }

  lemma NothingLeft()
    ensures NextToken([]).0 == End
  {
  }

  lemma NoZeros(v: Json)
    ensures |Text(v)| >= 2 && Text(v)[0] != 0 && Text(v)[1] != 0
  {
    match v
    case Str(s) => if s != [] { assert EscapedAll(s)[0] == Escaped(s[0])[0]; }
    case Arr(items) =>
      if items != [] { TextStarts(items[0]); assert Text(v)[1] == Text(items[0])[0] by { FirstItem(v, []); } }
    case Obj(pairs) => if pairs != [] { PairStart(v, 0, []); }
    case _ =>
  }

  lemma TextStarts(v: Json)
    ensures |Text(v)| >= 1 && Text(v)[0] != 0
  {
  }
}
