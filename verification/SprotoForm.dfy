/** The bytes of a message, in numbers: what each value becomes in its record and in the data part. */
module SprotoForm {
  import opened ByteType
  import opened SprotoWire
  import opened SprotoRoundTrip
  import opened SprotoEncode

  // ---- numbers, the low byte first ----

  function U16(n: nat): (s: seq<Byte>)
    ensures |s| == 2
  {
    [(n % 256) as Byte, (n / 256 % 256) as Byte]
  }

  function U32(n: nat): (s: seq<Byte>)
    ensures |s| == 4
  {
    [(n % 256) as Byte, (n / 256 % 256) as Byte, (n / 65536 % 256) as Byte, (n / 16777216 % 256) as Byte]
  }

  /** Two's complement in 4 and in 8 bytes. */
  function Signed32(v: int): (s: seq<Byte>)
    ensures |s| == 4
  {
    U32(v % 0x1_0000_0000)
  }

  function Signed64(v: int): (s: seq<Byte>)
    ensures |s| == 8
  {
    var u := v % 0x1_0000_0000_0000_0000;
    U32(u) + U32(u / 0x1_0000_0000)
  }

  predicate Fits32(v: int) {
    -0x8000_0000 <= v <= 0x7fff_ffff
  }

  lemma LE2(n: nat)
    ensures LE(n, 2) == U16(n)
  {
    assert LE(n / 256 / 256, 0) == [];
    assert LE(n / 256, 1) == [(n / 256 % 256) as Byte];
  }

  lemma LE4(n: nat)
    ensures LE(n, 4) == U32(n)
  {
    var a := n / 256;
    var b := a / 256;
    var c := b / 256;
    assert b == n / 65536 && c == n / 16777216;
    assert LE(c, 1) == [(c % 256) as Byte] + LE(c / 256, 0);
    assert LE(b, 2) == [(b % 256) as Byte] + LE(c, 1);
    assert LE(a, 3) == [(a % 256) as Byte] + LE(b, 2);
  }

  lemma LE8(n: nat)
    ensures LE(n, 8) == U32(n) + U32(n / 0x1_0000_0000)
  {
    hide U32;
    var a := n / 256;
    var b := a / 256;
    var c := b / 256;
    var d := c / 256;
    assert d == n / 0x1_0000_0000;
    LE4(n);
    LE4(d);
    assert LE(n, 4) == [(n % 256) as Byte] + ([(a % 256) as Byte] + ([(b % 256) as Byte] + ([(c % 256) as Byte] + [])))
      by {
      assert LE(d, 0) == [];
      assert LE(c, 1) == [(c % 256) as Byte] + LE(d, 0);
      assert LE(b, 2) == [(b % 256) as Byte] + LE(c, 1);
      assert LE(a, 3) == [(a % 256) as Byte] + LE(b, 2);
    }
    assert LE(c, 5) == [(c % 256) as Byte] + LE(d, 4);
    assert LE(b, 6) == [(b % 256) as Byte] + LE(c, 5);
    assert LE(a, 7) == [(a % 256) as Byte] + LE(b, 6);
    assert LE(n, 8) == [(n % 256) as Byte] + LE(a, 7);
  }

  lemma Bytes32(v: int)
    ensures IntBytes(v, 4) == Signed32(v)
  {
    hide LE;
    Powers();
    LE4(v % 0x1_0000_0000);
  }

  lemma Bytes64(v: int)
    ensures IntBytes(v, 8) == Signed64(v)
  {
    hide LE;
    Powers();
    LE8(v % 0x1_0000_0000_0000_0000);
  }

  // ---- values ----

  function Counted(s: seq<Byte>): seq<Byte> {
    U32(|s|) + s
  }

  predicate AllNarrow(items: seq<Value>) {
    forall i :: 0 <= i < |items| && items[i].Int? ==> Fits32(items[i].v)
  }

  /** Integers in 4 bytes each, or in 8. */
  function IntsWire(items: seq<Value>, wide: bool): seq<Byte> {
    if items == [] then []
    else
      var v := if items[0].Int? then items[0].v else 0;
      (if wide then Signed64(v) else Signed32(v)) + IntsWire(items[1..], wide)
  }

  /** Booleans in one byte each. */
  function BoolsWire(items: seq<Value>): seq<Byte> {
    if items == [] then [] else [if items[0] == Bool(true) then 1 else 0] + BoolsWire(items[1..])
  }

  /** A string, or the message of a nested object. */
  function ItemWire(sch: Schema, kind: Kind, v: Value): seq<Byte>
    decreases v, 3, 0
  {
    match v
    case Str(s) => s
    case Obj(_) => Wire(sch, if kind.TStruct? then kind.id else 0, v)
    case _ => []
  }

  function ItemsWire(sch: Schema, kind: Kind, v: Value, i: nat): seq<Byte>
    requires v.Array? && i <= |v.items|
    decreases v, 1, |v.items| - i
  {
    if i == |v.items| then [] else Counted(ItemWire(sch, kind, v.items[i])) + ItemsWire(sch, kind, v, i + 1)
  }

  /** The record of a value that is present. */
  function RecordOf(v: Value): nat {
    match v
    case Int(n) => if 0 <= n <= 32766 then 2 * n + 2 else 0
    case Bool(b) => if b then 4 else 2
    case _ => 0
  }

  /** What a value that is present adds to the data part. */
  function DataOf(sch: Schema, kind: Kind, v: Value): seq<Byte>
    decreases v, 4, 0
  {
    match v
    case Int(n) => if 0 <= n <= 32766 then [] else if Fits32(n) then Counted(Signed32(n)) else Counted(Signed64(n))
    case Bool(_) => []
    case Array(items) =>
      Counted(if kind.TInteger? then
                if AllNarrow(items) then [4] + IntsWire(items, false) else [8] + IntsWire(items, true)
              else if kind.TBoolean? then BoolsWire(items) else ItemsWire(sch, kind, v, 0))
    case _ => Counted(ItemWire(sch, kind, v))
  }

  /** Has the object a value for the field?  An empty array counts as none. */
  predicate IsPresent(f: Field, o: Value)
    requires o.Obj?
  {
    var k := IndexOf(o.entries, f.tag); k < |o.entries| && o.entries[k].value != Array([])
  }

  function ValueOf(f: Field, o: Value): (v: Value)
    requires o.Obj? && IsPresent(f, o)
    ensures v < o
  {
    o.entries[IndexOf(o.entries, f.tag)].value
  }

  /** The record that skips the tags between `last` and `tag`. */
  function GapWire(last: int, tag: nat): seq<nat> {
    var gap := tag - last - 1;
    if gap > 0 then [2 * (gap - 1) + 1] else []
  }

  /** The records of the fields fs, behind those up to the tag `last`. */
  function RecordsWire(fs: seq<Field>, o: Value, last: int): seq<nat>
    requires o.Obj?
  {
    if fs == [] then []
    else if !IsPresent(fs[0], o) then RecordsWire(fs[1..], o, last)
    else GapWire(last, fs[0].tag) + [RecordOf(ValueOf(fs[0], o))] + RecordsWire(fs[1..], o, fs[0].tag)
  }

  function WordsWire(rs: seq<nat>): seq<Byte> {
    if rs == [] then [] else U16(rs[0]) + WordsWire(rs[1..])
  }

  /** The data part. */
  function DataWire(sch: Schema, fs: seq<Field>, o: Value): seq<Byte>
    requires o.Obj?
    decreases o, 0, |fs|
  {
    if fs == [] then []
    else if !IsPresent(fs[0], o) then DataWire(sch, fs[1..], o)
    else DataOf(sch, fs[0].kind, ValueOf(fs[0], o)) + DataWire(sch, fs[1..], o)
  }

  /** The message of an object: the number of records, the records, the data. */
  function Wire(sch: Schema, id: nat, o: Value): seq<Byte>
    requires o.Obj?
    decreases o, 1, 0
  {
    var rs := RecordsWire(FieldsOf(sch, id), o, -1);
    U16(|rs|) + WordsWire(rs) + DataWire(sch, FieldsOf(sch, id), o)
  }

  // ---- the encoder writes that message ----

  lemma CountedIs(s: seq<Byte>)
    ensures Sized(s) == Counted(s)
  {
    LE4(|s|);
  }

  lemma {:induction false} IntsAre(items: seq<Value>, wide: bool)
    requires forall i :: 0 <= i < |items| ==> items[i].Int?
    ensures Elements(items, if wide then 8 else 4) == IntsWire(items, wide)
    decreases |items|
  {
    hide IntBytes, Signed32, Signed64;
    if items != [] {
      var v := items[0].v;
      Bytes32(v);
      Bytes64(v);
      IntsAre(items[1..], wide);
    }
  }

  lemma {:induction false} BoolsAre(items: seq<Value>)
    requires forall i :: 0 <= i < |items| ==> items[i].Bool?
    ensures Elements(items, 1) == BoolsWire(items)
    decreases |items|
  {
    if items != [] { BoolsAre(items[1..]); }
  }

  lemma {:induction false} BodyIs(sch: Schema, kind: Kind, v: Value)
    requires !v.Array? && ItemSuits(sch, kind, v)
    ensures Body(sch, kind, v) == ItemWire(sch, kind, v)
    decreases v, 3, 0
  {
    hide EncodeObject, Wire;
    if v.Obj? { MessageIs(sch, if kind.TStruct? then kind.id else 0, v); }
  }

  lemma {:induction false} BodiesAre(sch: Schema, kind: Kind, v: Value, i: nat)
    requires v.Array? && i <= |v.items|
    requires forall j :: 0 <= j < |v.items| ==> ItemSuits(sch, kind, v.items[j]) && !v.items[j].Array?
    ensures Bodies(sch, kind, v, i) == ItemsWire(sch, kind, v, i)
    decreases v, 1, |v.items| - i
  {
    hide Body, ItemWire, Sized, Counted, ItemSuits;
    if i < |v.items| {
      BodyIs(sch, kind, v.items[i]);
      CountedIs(Body(sch, kind, v.items[i]));
      BodiesAre(sch, kind, v, i + 1);
    }
  }

  lemma ItemKind(sch: Schema, kind: Kind, v: Value)
    requires ItemSuits(sch, kind, v)
    ensures !v.Array? && (kind.TInteger? <==> v.Int?) && (kind.TBoolean? <==> v.Bool?) && (v.Int? ==> IntFits(v.v))
  {
  }

  lemma ArraySuits(sch: Schema, f: Field, v: Value)
    requires ValueSuits(sch, f, v)
    ensures v.Array? <==> f.isArray
  {
  }

  /** What one value contributes to the message. */
  lemma {:induction false} ValueIs(sch: Schema, f: Field, v: Value)
    requires ValueSuits(sch, f, v) && v != Array([])
    ensures var out := EncodeValue(sch, f, v);
            && !out.Omitted? && (if out.Inline? then out.word else 0) == RecordOf(v)
            && (if out.Data? then out.bytes else []) == DataOf(sch, f.kind, v)
    decreases v, 4, 0
  {
    hide Sized, Counted, Body, ItemWire, IntBytes, Signed32, Signed64, ItemSuits, Elements, IntsWire, BoolsWire;
    ArraySuits(sch, f, v);
    if v.Array? {
      forall j | 0 <= j < |v.items| ensures ItemSuits(sch, f.kind, v.items[j]) && !v.items[j].Array? {
        ItemKind(sch, f.kind, v.items[j]);
      }
      ArrayIs(sch, f.kind, v);
    } else {
      ItemKind(sch, f.kind, v);
      if v.Int? {
        Bytes32(v.v);
        Bytes64(v.v);
        CountedIs(IntBytes(v.v, if IsNarrow(v.v) then 4 else 8));
      } else if !v.Bool? {
        BodyIs(sch, f.kind, v);
        CountedIs(Body(sch, f.kind, v));
      }
    }
  }

  lemma {:induction false} ArrayIs(sch: Schema, kind: Kind, v: Value)
    requires v.Array? && v.items != []
    requires forall j :: 0 <= j < |v.items| ==> ItemSuits(sch, kind, v.items[j]) && !v.items[j].Array?
    ensures EncodeArray(sch, kind, v) == Data(DataOf(sch, kind, v))
    decreases v, 2, 0
  {
    hide Sized, Counted, ItemSuits, Elements, IntsWire, BoolsWire, Bodies, ItemsWire;
    forall j | 0 <= j < |v.items|
      ensures (kind.TInteger? <==> v.items[j].Int?) && (kind.TBoolean? <==> v.items[j].Bool?) {
      ItemKind(sch, kind, v.items[j]);
    }
    match kind
    case TInteger =>
      var wide := !AllNarrow(v.items);
      WidthIs(v.items);
      IntsAre(v.items, wide);
      CountedIs([(if wide then 8 else 4) as Byte] + IntsWire(v.items, wide));
    case TBoolean =>
      BoolsAre(v.items);
      CountedIs(BoolsWire(v.items));
    case _ =>
      BodiesAre(sch, kind, v, 0);
      CountedIs(Bodies(sch, kind, v, 0));
  }

  lemma WidthIs(items: seq<Value>)
    ensures Width(items) == if AllNarrow(items) then 4 else 8
  {
    forall i | 0 <= i < |items| && items[i].Int? ensures IsNarrow(items[i].v) <==> Fits32(items[i].v) {}
  }

  lemma {:induction false} FieldsAre(sch: Schema, fs: seq<Field>, o: Value, last: int)
    requires o.Obj?
    requires forall i :: 0 <= i < |fs| ==>
               var k := IndexOf(o.entries, fs[i].tag);
               k < |o.entries| ==> ValueSuits(sch, fs[i], o.entries[k].value)
    ensures EncodeFields(sch, fs, o, last) == Parts(RecordsWire(fs, o, last), DataWire(sch, fs, o))
    decreases o, 0, |fs|
  {
    hide EncodeValue, DataOf, RecordOf, ValueSuits, IndexOf;
    if fs != [] {
      var k := IndexOf(o.entries, fs[0].tag);
      if IsPresent(fs[0], o) {
        ValueIs(sch, fs[0], o.entries[k].value);
        FieldsAre(sch, fs[1..], o, fs[0].tag);
      } else {
        if k < |o.entries| { NoValue(sch, fs[0]); }
        FieldsAre(sch, fs[1..], o, last);
      }
    }
  }

  lemma NoValue(sch: Schema, f: Field)
    ensures EncodeValue(sch, f, Array([])).Omitted?
  {
  }

  lemma {:induction false} WordsAre(rs: seq<nat>)
    ensures RecordBytes(rs) == WordsWire(rs)
    decreases |rs|
  {
    hide LE, U16;
    if rs != [] {
      LE2(rs[0]);
      WordsAre(rs[1..]);
    }
  }

  /** The message of every object, nested to any depth. */
  lemma {:induction false} MessageIs(sch: Schema, id: nat, o: Value)
    requires o.Obj? && ObjectSuits(sch, id, o)
    ensures EncodeObject(sch, id, o) == Wire(sch, id, o)
    decreases o, 1, 0
  {
    hide LE, U16, EncodeFields, RecordsWire, DataWire, RecordBytes, WordsWire, IndexOf, ValueSuits;
    var fs := FieldsOf(sch, id);
    FieldsAre(sch, fs, o, -1);
    var rs := RecordsWire(fs, o, -1);
    WordsAre(rs);
    LE2(|rs|);
  }

  // ---- objects with one field ----

  lemma OneField(sch: Schema, id: nat, f: Field, v: Value)
    requires FieldsOf(sch, id) == [f] && ValueSuits(sch, f, v) && v != Array([])
    ensures var o := Obj([Entry(f.tag, v)]);
            && ObjectSuits(sch, id, o)
            && EncodeObject(sch, id, o) ==
               (if f.tag == 0 then [1, 0] else [2, 0] + U16(2 * (f.tag - 1) + 1)) + U16(RecordOf(v))
                 + DataOf(sch, f.kind, v)
  {
    hide EncodeObject, DataOf, RecordOf, ValueSuits, IndexOf;
    var o := Obj([Entry(f.tag, v)]);
    var fs := [f];
    assert fs[1..] == [];
    assert IndexOf(o.entries, f.tag) == 0 by { FirstEntry(Entry(f.tag, v)); }
    MessageIs(sch, id, o);
    assert IsPresent(f, o) && ValueOf(f, o) == v;
    var r := RecordOf(v);
    var rs := RecordsWire(fs, o, -1);
    assert RecordsWire(fs[1..], o, f.tag) == [] && DataWire(sch, fs[1..], o) == [];
    assert fs[0] == f;
    assert rs == GapWire(-1, f.tag) + [r] + RecordsWire(fs[1..], o, f.tag);
    assert DataWire(sch, fs, o) == DataOf(sch, f.kind, v) + [] == DataOf(sch, f.kind, v);
    if f.tag == 0 {
      assert rs == [r];
      OneWord(r);
    } else {
      assert rs == [2 * (f.tag - 1) + 1, r];
      TwoWords(2 * (f.tag - 1) + 1, r);
      assert U16(2) + (U16(2 * (f.tag - 1) + 1) + U16(r)) == [2, 0] + U16(2 * (f.tag - 1) + 1) + U16(r);
    }
  }

  lemma FirstEntry(e: Entry)
    ensures IndexOf([e], e.tag) == 0
  {
  }

  lemma OneWord(a: nat)
    ensures WordsWire([a]) == U16(a)
  {
    assert [a][1..] == [];
    assert WordsWire([a]) == U16(a) + [];
  }

  lemma TwoWords(a: nat, b: nat)
    ensures WordsWire([a, b]) == U16(a) + U16(b)
  {
    OneWord(b);
    assert [a, b][1..] == [b];
  }

  /**
    An integer has no data exactly when it is 0 to 32766, and its record is then 2v + 2; any other
    one has record 0 and 4 + 4 or 4 + 8 bytes of data.
   */
  lemma IntegerForm(sch: Schema, id: nat, tag: nat, v: int)
    requires FieldsOf(sch, id) == [Field(tag, TInteger, false)] && IntFits(v)
    ensures var m := EncodeObject(sch, id, Obj([Entry(tag, Int(v))]));
            var front := if tag == 0 then [1, 0] else [2, 0] + U16(2 * (tag - 1) + 1);
            m == front + if 0 <= v <= 32766 then U16(2 * v + 2)
                         else if Fits32(v) then [0, 0, 4, 0, 0, 0] + Signed32(v)
                         else [0, 0, 8, 0, 0, 0] + Signed64(v)
  {
    hide EncodeObject, Signed32, Signed64;
    OneField(sch, id, Field(tag, TInteger, false), Int(v));
  }

  /** 1000 under tag 0 is a message of four bytes. */
  lemma Thousand(sch: Schema, id: nat)
    requires FieldsOf(sch, id) == [Field(0, TInteger, false)]
    ensures EncodeObject(sch, id, Obj([Entry(0, Int(1000))])) == [1, 0, 0xd2, 0x07]
  {
    hide EncodeObject;
    IntegerForm(sch, id, 0, 1000);
  }
}
