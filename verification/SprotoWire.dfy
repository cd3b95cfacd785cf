/** The wire format of sproto: schema-driven encoding and decoding of objects. */
module SprotoWire {
  import opened ByteType

  datatype Kind = TInteger | TBoolean | TString | TStruct(id: nat)

  datatype Field = Field(tag: nat, kind: Kind, isArray: bool)

  /** The fields of each type; a struct field names its type by position. */
  type Schema = seq<seq<Field>>

  datatype Value =
    | Int(v: int)
    | Bool(b: bool)
    | Str(s: seq<Byte>)
    | Obj(entries: seq<Entry>)
    | Array(items: seq<Value>)

  datatype Entry = Entry(tag: nat, value: Value)

  datatype Option<T> = None | Some(value: T)

  const SIZEOF_LENGTH := 4
  const SIZEOF_HEADER := 2
  const SIZEOF_FIELD := 2

  const TWO31 := 0x8000_0000
  const TWO32 := 0x1_0000_0000
  const TWO63 := 0x8000_0000_0000_0000
  const TWO64 := 0x1_0000_0000_0000_0000

  /** The largest tag that a schema can hold: an inline value of its own encoding. */
  const MAX_TAG := 0x7ffe

  // ---- little-endian numbers ----

  function LE(n: nat, k: nat): (s: seq<Byte>)
    ensures |s| == k
    decreases k
  {
    if k == 0 then [] else [(n % 256) as Byte] + LE(n / 256, k - 1)
  }

  function FromLE(s: seq<Byte>): nat {
    if s == [] then 0 else s[0] as int + 256 * FromLE(s[1..])
  }

  function Pow256(k: nat): (p: nat)
    ensures p > 0
  {
    if k == 0 then 1 else 256 * Pow256(k - 1)
  }

  lemma {:induction false} FromLEOfLE(n: nat, k: nat)
    requires n < Pow256(k)
    ensures FromLE(LE(n, k)) == n
    decreases k
  {
    if k > 0 { FromLEOfLE(n / 256, k - 1); }
  }

  lemma Powers()
    ensures Pow256(2) == 0x1_0000 && Pow256(4) == TWO32 && Pow256(8) == TWO64
  {
    assert Pow256(2) == 256 * Pow256(1);
    assert Pow256(4) == 256 * Pow256(3) && Pow256(3) == 256 * Pow256(2);
    assert Pow256(8) == 256 * Pow256(7) && Pow256(7) == 256 * Pow256(6) && Pow256(6) == 256 * Pow256(5)
      && Pow256(5) == 256 * Pow256(4);
  }

  /** The number whose two's complement form in a word of `modulus` values is u. */
  function Signed(u: nat, modulus: nat): int {
    if u >= modulus / 2 then u - modulus else u
  }

  lemma ModUp(v: int, m: int)
    requires 0 < m && -m <= v < 0
    ensures v % m == v + m
  {
    var q := v / m;
    assert v == m * q + v % m;
    Multiple(m, q);
    assert q == -1;
  }

  lemma Multiple(m: int, q: int)
    requires 0 < m
    ensures q >= 0 ==> m * q >= 0
    ensures q <= -2 ==> m * q <= -2 * m
  {
    if q <= -2 { Product(m, -2 - q); }
  }

  lemma Product(m: int, k: int)
    requires 0 < m && 0 <= k
    ensures m * k >= 0 && m * (-2 - k) == -2 * m - m * k
  {
  }

  /** Does the integer travel as 32 bits? */
  predicate IsNarrow(v: int) {
    -TWO31 <= v < TWO31
  }

  /** The bytes of v in w bytes, two's complement. */
  function IntBytes(v: int, w: nat): (s: seq<Byte>)
    ensures |s| == w
  {
    LE(v % Pow256(w), w)
  }

  function FromIntBytes(s: seq<Byte>): int {
    Signed(FromLE(s), Pow256(|s|))
  }

  lemma IntRoundTrip(v: int, w: nat)
    requires w > 0 && -(Pow256(w) / 2) <= v < Pow256(w) / 2
    ensures FromIntBytes(IntBytes(v, w)) == v
  {
    FromLEOfLE(v % Pow256(w), w);
    assert Pow256(w) == 2 * (128 * Pow256(w - 1));
    SignedMod(v, 128 * Pow256(w - 1));
  }

  lemma SignedMod(v: int, half: int)
    requires half > 0 && -half <= v < half
    ensures Signed(v % (2 * half), 2 * half) == v
  {
    if v < 0 { ModUp(v, 2 * half); } else { ModIn(v, 2 * half); }
  }

  lemma ModIn(v: int, m: int)
    requires 0 <= v < m
    ensures v % m == v
  {
  }

  // ---- encoding ----

  function Width(items: seq<Value>): nat {
    if forall i :: 0 <= i < |items| && items[i].Int? ==> IsNarrow(items[i].v) then 4 else 8
  }

  /** What one field contributes: nothing, a value inside its record, or bytes in the data part. */
  datatype Out = Omitted | Inline(word: nat) | Data(bytes: seq<Byte>)

  /** fill_size and the bytes it counts. */
  function Sized(s: seq<Byte>): (r: seq<Byte>)
    ensures |r| == SIZEOF_LENGTH + |s|
  {
    LE(|s|, SIZEOF_LENGTH) + s
  }

  /** Where the entry with the tag is, or the number of entries. */
  function IndexOf(es: seq<Entry>, tag: nat): (k: nat)
    ensures k <= |es| && (k < |es| ==> es[k].tag == tag)
    ensures forall i :: 0 <= i < k ==> es[i].tag != tag
  {
    if es == [] then 0 else if es[0].tag == tag then 0 else 1 + IndexOf(es[1..], tag)
  }

  function FieldsOf(sch: Schema, id: nat): seq<Field> {
    if id < |sch| then sch[id] else []
  }

  /** An element of an array of integers or booleans, in w bytes. */
  function Element(v: Value, w: nat): seq<Byte>
  {
    match v
    case Int(n) => IntBytes(n, w)
    case Bool(b) => [if b then 1 else 0]
    case _ => []
  }

  function Elements(items: seq<Value>, w: nat): seq<Byte> {
    if items == [] then [] else Element(items[0], w) + Elements(items[1..], w)
  }

  /** The bytes of a string or of a nested object. */
  function Body(sch: Schema, kind: Kind, v: Value): seq<Byte>
    decreases v, 3, 0
  {
    match v
    case Str(s) => s
    case Obj(_) => EncodeObject(sch, if kind.TStruct? then kind.id else 0, v)
    case _ => []
  }

  function Bodies(sch: Schema, kind: Kind, v: Value, i: nat): seq<Byte>
    requires v.Array? && i <= |v.items|
    decreases v, 1, |v.items| - i
  {
    if i == |v.items| then [] else Sized(Body(sch, kind, v.items[i])) + Bodies(sch, kind, v, i + 1)
  }

  function EncodeArray(sch: Schema, kind: Kind, v: Value): Out
    requires v.Array?
    decreases v, 2, 0
  {
    if v.items == [] then Omitted
    else
      Data(Sized(match kind
                 case TInteger => [Width(v.items) as Byte] + Elements(v.items, Width(v.items))
                 case TBoolean => Elements(v.items, 1)
                 case _ => Bodies(sch, kind, v, 0)))
  }

  function EncodeValue(sch: Schema, f: Field, v: Value): Out
    decreases v, 4, 0
  {
    if v.Array? then EncodeArray(sch, f.kind, v)
    else
      match v
      case Int(n) =>
        if 0 <= n < 0x7fff then Inline((n + 1) * 2)
        else Data(Sized(IntBytes(n, if IsNarrow(n) then 4 else 8)))
      case Bool(b) => Inline(((if b then 1 else 0) + 1) * 2)
      case _ => Data(Sized(Body(sch, f.kind, v)))
  }

  /** The records of the header, and the data part. */
  datatype Parts = Parts(records: seq<nat>, data: seq<Byte>)

  /** The record that skips the tags between two fields, if there are any. */
  function Skip(last: int, tag: nat): seq<nat> {
    if tag - last - 1 > 0 then [(tag - last - 1 - 1) * 2 + 1] else []
  }

  function AddField(last: int, tag: nat, out: Out, rest: Parts): Parts
    requires !out.Omitted?
  {
    Parts(Skip(last, tag) + [if out.Inline? then out.word else 0] + rest.records,
          (if out.Data? then out.bytes else []) + rest.data)
  }

  predicate Ascending(fs: seq<Field>, last: int) {
    fs == [] || (last < fs[0].tag <= MAX_TAG && Ascending(fs[1..], fs[0].tag))
  }

  /** The fields fs of object o, when `last` is the last tag written. */
  function EncodeFields(sch: Schema, fs: seq<Field>, o: Value, last: int): Parts
    requires o.Obj?
    decreases o, 0, |fs|
  {
    if fs == [] then Parts([], [])
    else
      var k := IndexOf(o.entries, fs[0].tag);
      var out := if k < |o.entries| then EncodeValue(sch, fs[0], o.entries[k].value) else Omitted;
      if out.Omitted? then EncodeFields(sch, fs[1..], o, last)
      else AddField(last, fs[0].tag, out, EncodeFields(sch, fs[1..], o, fs[0].tag))
  }

  function RecordBytes(rs: seq<nat>): (s: seq<Byte>)
    ensures |s| == SIZEOF_FIELD * |rs|
  {
    if rs == [] then [] else LE(rs[0], SIZEOF_FIELD) + RecordBytes(rs[1..])
  }

  function Assemble(p: Parts): seq<Byte> {
    LE(|p.records|, SIZEOF_HEADER) + RecordBytes(p.records) + p.data
  }

  /** sproto_encode */
  function EncodeObject(sch: Schema, id: nat, o: Value): seq<Byte>
    requires o.Obj?
    decreases o, 1, 0
  {
    Assemble(EncodeFields(sch, FieldsOf(sch, id), o, -1))
  }

  // ---- decoding ----

  /** The n-th record of the header. */
  function Record(s: seq<Byte>, n: nat): nat
    requires SIZEOF_FIELD * n + SIZEOF_FIELD <= |s|
  {
    FromLE(s[SIZEOF_FIELD * n..SIZEOF_FIELD * n + SIZEOF_FIELD])
  }

  /** findtag, by its result. */
  function FieldIndex(fs: seq<Field>, tag: int): (k: nat)
    ensures k <= |fs| && (k < |fs| ==> fs[k].tag == tag)
    ensures forall i :: 0 <= i < k ==> fs[i].tag != tag
  {
    if fs == [] then 0 else if fs[0].tag == tag then 0 else 1 + FieldIndex(fs[1..], tag)
  }

  function ElementsFrom(kind: Kind, s: seq<Byte>, w: nat): seq<Value>
    requires w > 0
    decreases |s|
  {
    if |s| < w then []
    else [if kind.TInteger? then Int(FromIntBytes(s[..w])) else Bool(s[0] != 0)] + ElementsFrom(kind, s[w..], w)
  }

  /** The strings or objects of an array; decode_array_object. */
  function BodiesFrom(sch: Schema, kind: Kind, s: seq<Byte>): Option<seq<Value>>
    decreases |s|, 0, 0
  {
    if s == [] then Some([])
    else if |s| < SIZEOF_LENGTH then None
    else
      var n := FromLE(s[..SIZEOF_LENGTH]);
      if |s| - SIZEOF_LENGTH < n then None
      else
        var v := FromBody(sch, kind, s[SIZEOF_LENGTH..SIZEOF_LENGTH + n]);
        var rest := BodiesFrom(sch, kind, s[SIZEOF_LENGTH + n..]);
        if v.Some? && rest.Some? then Some([v.value] + rest.value) else None
  }

  /** The callback on a string, or on a nested object that must fill its bytes. */
  function FromBody(sch: Schema, kind: Kind, s: seq<Byte>): Option<Value>
    decreases |s|, 3, 0
  {
    match kind
    case TString => Some(Str(s))
    case TStruct(id) =>
      var r := DecodeObject(sch, id, s);
      if r.Some? && r.value.1 == |s| then Some(r.value.0) else None
    case _ => None
  }

  /** decode_array, on the bytes behind the length */
  function DecodeArray(sch: Schema, kind: Kind, s: seq<Byte>): Option<Value>
    decreases |s|, 4, 0
  {
    match kind
    case TInteger =>
      if s == [] || (s[0] != 4 && s[0] != 8) || (|s| - 1) % (s[0] as int) != 0 then None
      else Some(Array(ElementsFrom(kind, s[1..], s[0] as nat)))
    case TBoolean => Some(Array(ElementsFrom(kind, s, 1)))
    case _ =>
      var r := BodiesFrom(sch, kind, s);
      if r.Some? then Some(Array(r.value)) else None
  }

  /** One value in the data part, of the bytes s behind its length. */
  function DecodeData(sch: Schema, f: Field, s: seq<Byte>): Option<Value>
    decreases |s|, 5, 0
  {
    if f.isArray then DecodeArray(sch, f.kind, s)
    else
      match f.kind
      case TInteger => if |s| == 4 || |s| == 8 then Some(Int(FromIntBytes(s))) else None
      case TBoolean => None
      case _ => FromBody(sch, f.kind, s)
  }

  /** One value inside its record. */
  function DecodeInline(f: Field, word: nat): Option<Value> {
    if f.isArray then None
    else
      match f.kind
      case TInteger => Some(Int(word))
      case TBoolean => Some(Bool(word != 0))
      case _ => None
  }

  /** The entries that records n .. report, and how many data bytes they use. */
  function DecodeFields(sch: Schema, fs: seq<Field>, recs: seq<Byte>, n: nat, tag: int,
      data: seq<Byte>): Option<(seq<Entry>, nat)>
    requires |recs| % SIZEOF_FIELD == 0 && SIZEOF_FIELD * n <= |recs|
    decreases |data|, 6, |recs| - SIZEOF_FIELD * n
  {
    if SIZEOF_FIELD * n == |recs| then Some(([], 0))
    else
      var value := Record(recs, n);
      if value % 2 == 1 then DecodeFields(sch, fs, recs, n + 1, tag + 1 + value / 2, data)
      else if value / 2 - 1 >= 0 then
        var k := FieldIndex(fs, tag + 1);
        var v := if k < |fs| then DecodeInline(fs[k], value / 2 - 1) else None;
        Report(tag + 1, k < |fs|, v, 0, DecodeFields(sch, fs, recs, n + 1, tag + 1, data))
      else if |data| < SIZEOF_LENGTH || |data| - SIZEOF_LENGTH < FromLE(data[..SIZEOF_LENGTH]) then None
      else
        var end := SIZEOF_LENGTH + FromLE(data[..SIZEOF_LENGTH]);
        var k := FieldIndex(fs, tag + 1);
        var v := if k < |fs| then DecodeData(sch, fs[k], data[SIZEOF_LENGTH..end]) else None;
        Report(tag + 1, k < |fs|, v, end, DecodeFields(sch, fs, recs, n + 1, tag + 1, data[end..]))
  }

  /**
    Adds a decoded field in front of the others.  An unknown tag is passed over, and an array without
    elements is reported by no callback.
   */
  function Report(tag: int, known: bool, v: Option<Value>, used: nat,
      rest: Option<(seq<Entry>, nat)>): Option<(seq<Entry>, nat)>
    requires known ==> tag >= 0
  {
    if rest.None? || (known && v.None?) then None
    else Some(((if known && v.value != Array([]) then [Entry(tag, v.value)] else []) + rest.value.0,
      used + rest.value.1))
  }

  /** sproto_decode: the object and the number of bytes read. */
  function DecodeObject(sch: Schema, id: nat, s: seq<Byte>): Option<(Value, nat)>
    decreases |s|, 2, 0
  {
    if |s| < SIZEOF_HEADER then None
    else
      var n := FromLE(s[..SIZEOF_HEADER]);
      if |s| - SIZEOF_HEADER < n * SIZEOF_FIELD then None
      else
        var start := SIZEOF_HEADER + n * SIZEOF_FIELD;
        var r := DecodeFields(sch, FieldsOf(sch, id), s[SIZEOF_HEADER..start], 0, -1, s[start..]);
        if r.Some? then Some((Obj(r.value.0), start + r.value.1)) else None
  }
}
