/** Decoding an encoded object gives the object back, or its part that the decoder's schema knows. */
module SprotoRoundTrip {
  import opened ByteType
  import opened SprotoWire

  // ---- objects that a schema describes ----

  /** Tags in strictly ascending order, as the schema compiler lists them. */
  predicate WellFormed(sch: Schema) {
    forall id :: 0 <= id < |sch| ==> Ascending(sch[id], -1)
  }

  /** Fields with the same tag have the same type in both schemas. */
  predicate Compatible(sch: Schema, sch2: Schema) {
    forall id, i, j | 0 <= id < |sch| && id < |sch2| && 0 <= i < |sch[id]| && 0 <= j < |sch2[id]| ::
      sch[id][i].tag == sch2[id][j].tag ==> sch[id][i] == sch2[id][j]
  }

  predicate IntFits(v: int) {
    -TWO63 <= v < TWO63
  }

  /** v is a single value of the kind. */
  predicate ItemFits(sch: Schema, kind: Kind, v: Value)
    decreases v, 1, 0
  {
    match kind
    case TInteger => v.Int? && IntFits(v.v)
    case TBoolean => v.Bool?
    case TString => v.Str?
    case TStruct(id) => v.Obj? && ObjectFits(sch, id, v)
  }

  /** v is a value of field f: a single value, or a non-empty array. */
  predicate ValueFits(sch: Schema, f: Field, v: Value)
    decreases v, 2, 0
  {
    if f.isArray then v.Array? && v.items != [] && forall i :: 0 <= i < |v.items| ==> ItemFits(sch, f.kind, v.items[i])
    else ItemFits(sch, f.kind, v)
  }

  predicate EntriesAscend(es: seq<Entry>) {
    forall i, j :: 0 <= i < j < |es| ==> es[i].tag < es[j].tag
  }

  /** The entries of o are fields of the type, in order. */
  predicate ObjectFits(sch: Schema, id: nat, o: Value)
    requires o.Obj?
    decreases o, 0, 0
  {
    && EntriesAscend(o.entries)
    && forall i :: 0 <= i < |o.entries| ==>
         var k := FieldIndex(FieldsOf(sch, id), o.entries[i].tag);
         k < |FieldsOf(sch, id)| && ValueFits(sch, FieldsOf(sch, id)[k], o.entries[i].value)
  }

  // ---- the part of an object that another schema knows ----

  function RestrictItem(sch: Schema, kind: Kind, v: Value): Value
    decreases v, 2, 0
  {
    if kind.TStruct? && v.Obj? then Restrict(sch, kind.id, v) else v
  }

  function RestrictValue(sch: Schema, kind: Kind, v: Value): Value
    decreases v, 3, 0
  {
    if v.Array? then Array(RestrictItems(sch, kind, v, 0)) else RestrictItem(sch, kind, v)
  }

  function RestrictItems(sch: Schema, kind: Kind, v: Value, i: nat): seq<Value>
    requires v.Array? && i <= |v.items|
    decreases v, 0, |v.items| - i
  {
    if i == |v.items| then [] else [RestrictItem(sch, kind, v.items[i])] + RestrictItems(sch, kind, v, i + 1)
  }

  function Restrict(sch: Schema, id: nat, o: Value): Value
    requires o.Obj?
    decreases o, 1, 0
  {
    Obj(RestrictEntries(sch, FieldsOf(sch, id), o, 0))
  }

  /** The entries of o from the i-th on that are among the fields fs. */
  function RestrictEntries(sch: Schema, fs: seq<Field>, o: Value, i: nat): seq<Entry>
    requires o.Obj? && i <= |o.entries|
    decreases o, 0, |o.entries| - i
  {
    if i == |o.entries| then []
    else
      var e := o.entries[i];
      var k := FieldIndex(fs, e.tag);
      (if k < |fs| then [Entry(e.tag, RestrictValue(sch, fs[k].kind, e.value))] else [])
        + RestrictEntries(sch, fs, o, i + 1)
  }

  // ---- slices ----

  lemma Behind(a: seq<Byte>, b: seq<Byte>)
    ensures (a + b)[..|a|] == a && (a + b)[|a|..] == b
  {
  }

  lemma Between(a: seq<Byte>, b: seq<Byte>, c: seq<Byte>)
    ensures (a + b + c)[|a|..|a| + |b|] == b && (a + b + c)[..|a|] == a && (a + b + c)[|a| + |b|..] == c
  {
  }

  /** A value in the data part is found again by its length. */
  lemma SizedBack(s: seq<Byte>, rest: seq<Byte>)
    requires |s| < TWO32
    ensures var d := Sized(s) + rest;
            && FromLE(d[..SIZEOF_LENGTH]) == |s| && d[SIZEOF_LENGTH..SIZEOF_LENGTH + |s|] == s
            && d[SIZEOF_LENGTH + |s|..] == rest
  {
    Powers();
    FromLEOfLE(|s|, SIZEOF_LENGTH);
    Between(LE(|s|, SIZEOF_LENGTH), s, rest);
  }

  // ---- arrays of integers and booleans ----

  predicate ElementFits(kind: Kind, v: Value, w: nat) {
    (kind.TInteger? && v.Int? && (w == 8 || (w == 4 && IsNarrow(v.v))) && IntFits(v.v))
      || (kind.TBoolean? && v.Bool? && w == 1)
  }

  lemma ElementBack(kind: Kind, v: Value, w: nat, rest: seq<Byte>)
    requires ElementFits(kind, v, w)
    ensures var s := Element(v, w) + rest;
            && |Element(v, w)| == w && s[w..] == rest
            && (if kind.TInteger? then Int(FromIntBytes(s[..w])) else Bool(s[0] != 0)) == v
  {
    Behind(Element(v, w), rest);
    if v.Int? {
      Powers();
      IntRoundTrip(v.v, w);
    }
  }

  lemma {:induction false} ElementsBack(kind: Kind, items: seq<Value>, w: nat)
    requires w > 0
    requires forall i :: 0 <= i < |items| ==> ElementFits(kind, items[i], w)
    ensures ElementsFrom(kind, Elements(items, w), w) == items && |Elements(items, w)| == w * |items|
    decreases |items|
  {
    hide FromIntBytes, Element, ElementFits;
    if items != [] {
      ElementBack(kind, items[0], w, Elements(items[1..], w));
      ElementsBack(kind, items[1..], w);
      TimesNext(w, |items|);
      assert items == [items[0]] + items[1..];
    }
  }

  lemma TimesNext(w: nat, n: nat)
    requires n > 0
    ensures w * n == w + w * (n - 1)
  {
  }

  lemma IntArrayBack(items: seq<Value>)
    requires items != [] && forall i :: 0 <= i < |items| ==> items[i].Int? && IntFits(items[i].v)
    ensures var w := Width(items); var s := [w as Byte] + Elements(items, w);
            && (s[0] == 4 || s[0] == 8) && (|s| - 1) % (s[0] as int) == 0
              && ElementsFrom(TInteger, s[1..], s[0] as nat) == items
  {
    var w := Width(items);
    ElementsBack(TInteger, items, w);
    var s := [w as Byte] + Elements(items, w);
    assert s[1..] == Elements(items, w);
    assert (w * |items|) % w == 0 by { MultipleOf(w, |items|); }
  }

  lemma MultipleOf(w: nat, n: nat)
    requires w == 4 || w == 8
    ensures (w * n) % w == 0
  {
  }

  // ---- the header ----

  lemma RecordAt(pre: seq<Byte>, r: nat, rest: seq<Byte>)
    requires r < 0x1_0000 && |pre| % SIZEOF_FIELD == 0
    ensures var recs := pre + (LE(r, SIZEOF_FIELD) + rest);
            |pre| + SIZEOF_FIELD <= |recs| && Record(recs, |pre| / SIZEOF_FIELD) == r
              && recs == pre + LE(r, SIZEOF_FIELD) + rest
  {
    Powers();
    FromLEOfLE(r, SIZEOF_FIELD);
    Between(pre, LE(r, SIZEOF_FIELD), rest);
    assert pre + (LE(r, SIZEOF_FIELD) + rest) == pre + LE(r, SIZEOF_FIELD) + rest;
  }

  lemma {:induction false} RecordsJoin(a: seq<nat>, b: seq<nat>)
    ensures RecordBytes(a + b) == RecordBytes(a) + RecordBytes(b)
    decreases |a|
  {
    if a == [] {
      assert a + b == b;
    } else {
      assert (a + b)[1..] == a[1..] + b;
      RecordsJoin(a[1..], b);
    }
  }

  /** The decoder is at a header position where the records rs are still to come. */
  ghost predicate Ahead(recs: seq<Byte>, n: nat, rs: seq<nat>) {
    |recs| == SIZEOF_FIELD * (n + |rs|) && recs[SIZEOF_FIELD * n..] == RecordBytes(rs)
  }

  lemma AheadStep(recs: seq<Byte>, n: nat, rs: seq<nat>)
    requires Ahead(recs, n, rs) && rs != [] && rs[0] < 0x1_0000
    ensures Record(recs, n) == rs[0] && Ahead(recs, n + 1, rs[1..])
  {
    var pre := recs[..SIZEOF_FIELD * n];
    assert recs == pre + RecordBytes(rs);
    RecordAt(pre, rs[0], RecordBytes(rs[1..]));
  }

  // ---- entries and fields in step ----

  /** From field fs[0] on, the entries from the i-th on are still to be written. */
  ghost predicate InStep(sch: Schema, fs: seq<Field>, o: Value, i: nat)
    requires o.Obj?
  {
    && i <= |o.entries| && EntriesAscend(o.entries)
    && (forall k :: 0 <= k < i && fs != [] ==> o.entries[k].tag < fs[0].tag)
    && (forall k :: i <= k < |o.entries| ==>
          var n := FieldIndex(fs, o.entries[k].tag); n < |fs| && ValueFits(sch, fs[n], o.entries[k].value))
  }

  lemma {:induction false} AscendingAbove(fs: seq<Field>, last: int, k: nat)
    requires Ascending(fs, last) && k < |fs|
    ensures last < fs[k].tag <= MAX_TAG
    decreases |fs|
  {
    if k > 0 { AscendingAbove(fs[1..], fs[0].tag, k - 1); }
  }

  lemma IndexIs(es: seq<Entry>, tag: nat, i: nat)
    requires EntriesAscend(es) && i <= |es| && (forall k :: 0 <= k < i ==> es[k].tag != tag)
    ensures i < |es| && es[i].tag == tag ==> IndexOf(es, tag) == i
    ensures (forall k :: i <= k < |es| ==> es[k].tag != tag) ==> IndexOf(es, tag) == |es|
  {
  }

  /** The field is written exactly when it is the tag of the next entry. */
  lemma NextField(sch: Schema, fs: seq<Field>, o: Value, i: nat, last: int)
    requires o.Obj? && fs != [] && Ascending(fs, last) && InStep(sch, fs, o, i)
    ensures var k := IndexOf(o.entries, fs[0].tag);
            if i < |o.entries| && o.entries[i].tag == fs[0].tag
            then k == i && ValueFits(sch, fs[0], o.entries[i].value) && InStep(sch, fs[1..], o, i + 1)
            else k == |o.entries| && InStep(sch, fs[1..], o, i)
  {
    var es, tag := o.entries, fs[0].tag;
    IndexIs(es, tag, i);
    if fs[1..] != [] { assert tag < fs[1..][0].tag; }
    if i < |es| && es[i].tag == tag {
    } else {
      forall k | i <= k < |es| ensures es[k].tag != tag {
        if i < |es| {
          var n := FieldIndex(fs, es[i].tag);
          AscendingAbove(fs[1..], tag, n - 1);
        }
      }
    }
  }

  lemma AllWritten(sch: Schema, o: Value, i: nat)
    requires o.Obj? && InStep(sch, [], o, i)
    ensures i == |o.entries|
  {
    if i < |o.entries| {
      var n := FieldIndex([], o.entries[i].tag);
      assert false;
    }
  }

  // ---- values ----

  lemma {:induction false} BodyBack(sch: Schema, sch2: Schema, kind: Kind, v: Value)
    requires WellFormed(sch) && WellFormed(sch2) && Compatible(sch, sch2) && ItemFits(sch, kind, v)
             && (kind.TString? || kind.TStruct?)
    requires |Body(sch, kind, v)| < TWO32
    ensures FromBody(sch2, kind, Body(sch, kind, v)) == Some(RestrictItem(sch2, kind, v))
    decreases v, 3, 0
  {
    if kind.TStruct? {
      ObjectBack(sch, sch2, kind.id, v, []);
      assert EncodeObject(sch, kind.id, v) + [] == EncodeObject(sch, kind.id, v);
    }
  }

  lemma {:induction false} BodiesBack(sch: Schema, sch2: Schema, kind: Kind, v: Value, i: nat)
    requires WellFormed(sch) && WellFormed(sch2) && Compatible(sch, sch2) && (kind.TString? || kind.TStruct?)
    requires v.Array? && i <= |v.items| && (forall j :: 0 <= j < |v.items| ==> ItemFits(sch, kind, v.items[j]))
    requires |Bodies(sch, kind, v, i)| < TWO32
    ensures BodiesFrom(sch2, kind, Bodies(sch, kind, v, i)) == Some(RestrictItems(sch2, kind, v, i))
    decreases v, 1, |v.items| - i
  {
    hide Body, FromBody, ItemFits, RestrictItem, WellFormed, Compatible;
    if i < |v.items| {
      var body, rest := Body(sch, kind, v.items[i]), Bodies(sch, kind, v, i + 1);
      SizedBack(body, rest);
      BodyBack(sch, sch2, kind, v.items[i]);
      BodiesBack(sch, sch2, kind, v, i + 1);
    }
  }

  lemma {:induction false} ArrayBack(sch: Schema, sch2: Schema, kind: Kind, v: Value)
    requires WellFormed(sch) && WellFormed(sch2) && Compatible(sch, sch2)
    requires v.Array? && v.items != [] && (forall j :: 0 <= j < |v.items| ==> ItemFits(sch, kind, v.items[j]))
    requires var out := EncodeArray(sch, kind, v); out.Data? && |out.bytes| < TWO32
    ensures exists s ::
              EncodeArray(sch, kind, v) == Data(Sized(s))
              && DecodeArray(sch2, kind, s) == Some(RestrictValue(sch2, kind, v))
    decreases v, 2, 0
  {
    hide WellFormed, Compatible, Elements, ElementsFrom, Width, Bodies, BodiesFrom;
    match kind
    case TInteger =>
      IntsFit(sch, v.items);
      IntArrayBack(v.items);
      PlainItems(sch2, kind, v, 0);
      var s := [Width(v.items) as Byte] + Elements(v.items, Width(v.items));
      assert EncodeArray(sch, kind, v) == Data(Sized(s));
    case TBoolean =>
      ElementsBack(TBoolean, v.items, 1);
      PlainItems(sch2, kind, v, 0);
      var s := Elements(v.items, 1);
      assert EncodeArray(sch, kind, v) == Data(Sized(s));
    case _ =>
      var s := Bodies(sch, kind, v, 0);
      assert EncodeArray(sch, kind, v) == Data(Sized(s));
      BodiesBack(sch, sch2, kind, v, 0);
  }

  lemma IntsFit(sch: Schema, items: seq<Value>)
    requires forall j :: 0 <= j < |items| ==> ItemFits(sch, TInteger, items[j])
    ensures forall j :: 0 <= j < |items| ==> items[j].Int? && IntFits(items[j].v)
  {
  }

  lemma {:induction false} PlainItems(sch: Schema, kind: Kind, v: Value, i: nat)
    requires v.Array? && i <= |v.items| && !kind.TStruct?
    ensures RestrictItems(sch, kind, v, i) == v.items[i..]
    decreases |v.items| - i
  {
    if i < |v.items| { PlainItems(sch, kind, v, i + 1); }
  }

  /** What was written for one value reports the part of it that the other schema knows. */
  ghost predicate Reports(sch2: Schema, f: Field, out: Out, v: Value) {
    match out
    case Omitted => false
    case Inline(w) => 2 <= w < 0x1_0000 && w % 2 == 0
      && DecodeInline(f, w / 2 - 1) == Some(RestrictValue(sch2, f.kind, v))
    case Data(bytes) => exists s :: bytes == Sized(s) && DecodeData(sch2, f, s) == Some(RestrictValue(sch2, f.kind, v))
  }

  lemma {:induction false} ValueBack(sch: Schema, sch2: Schema, f: Field, v: Value)
    requires WellFormed(sch) && WellFormed(sch2) && Compatible(sch, sch2) && ValueFits(sch, f, v)
    requires EncodeValue(sch, f, v).Data? ==> |EncodeValue(sch, f, v).bytes| < TWO32
    ensures Reports(sch2, f, EncodeValue(sch, f, v), v)
    decreases v, 4, 0
  {
    hide WellFormed, Compatible, EncodeArray, DecodeArray, Body, FromBody;
    if f.isArray {
      ArrayBack(sch, sch2, f.kind, v) by { assert EncodeArray(sch, f.kind, v).Data? by { NotOmitted(sch, f.kind, v); } }
    } else {
      match f.kind
      case TInteger => IntBack(sch, sch2, f, v);
      case TBoolean => BoolBack(sch, sch2, f, v);
      case _ =>
        var s := Body(sch, f.kind, v);
        BodyBack(sch, sch2, f.kind, v);
        assert EncodeValue(sch, f, v) == Data(Sized(s));
    }
  }

  lemma NotOmitted(sch: Schema, kind: Kind, v: Value)
    requires v.Array? && v.items != []
    ensures EncodeArray(sch, kind, v).Data?
  {
  }

  lemma BoolBack(sch: Schema, sch2: Schema, f: Field, v: Value)
    requires f.kind.TBoolean? && !f.isArray && v.Bool?
    ensures Reports(sch2, f, EncodeValue(sch, f, v), v)
  {
    assert EncodeValue(sch, f, v) == Inline(if v.b then 4 else 2);
  }

  lemma IntBack(sch: Schema, sch2: Schema, f: Field, v: Value)
    requires f.kind.TInteger? && !f.isArray && v.Int? && IntFits(v.v)
    ensures Reports(sch2, f, EncodeValue(sch, f, v), v)
  {
    hide FromIntBytes, IntBytes, Sized;
    assert RestrictValue(sch2, f.kind, v) == v;
    if 0 <= v.v < 0x7fff {
      var w: nat := (v.v + 1) * 2;
      assert EncodeValue(sch, f, v) == Inline(w) && w / 2 - 1 == v.v && w % 2 == 0;
      assert DecodeInline(f, w / 2 - 1) == Some(v);
    } else {
      var w := if IsNarrow(v.v) then 4 else 8;
      Powers();
      IntRoundTrip(v.v, w);
      var s := IntBytes(v.v, w);
      assert DecodeData(sch2, f, s) == Some(RestrictValue(sch2, f.kind, v));
      assert EncodeValue(sch, f, v) == Data(Sized(s));
      assert EncodeValue(sch, f, v).bytes == Sized(s);
    }
  }

  // ---- objects ----

  /** The decoder passes over the tags that were skipped. */
  lemma SkipBack(sch2: Schema, fs2: seq<Field>, recs: seq<Byte>, n: nat, last: int, tag: nat, rs: seq<nat>,
      data: seq<Byte>)
    requires -1 <= last < tag <= MAX_TAG && Ahead(recs, n, Skip(last, tag) + rs)
    ensures var m := n + |Skip(last, tag)|;
            Ahead(recs, m, rs)
              && DecodeFields(sch2, fs2, recs, n, last, data) == DecodeFields(sch2, fs2, recs, m, tag - 1, data)
  {
    var sk := Skip(last, tag);
    if sk == [] {
      assert sk + rs == rs;
    } else {
      AheadStep(recs, n, sk + rs);
      assert (sk + rs)[1..] == rs;
    }
  }

  lemma InlineBack(sch2: Schema, fs2: seq<Field>, recs: seq<Byte>, n: nat, tag: nat, w: nat, rs: seq<nat>,
      data: seq<Byte>)
    requires 2 <= w < 0x1_0000 && w % 2 == 0 && Ahead(recs, n, [w] + rs)
    ensures Ahead(recs, n + 1, rs)
    ensures var k := FieldIndex(fs2, tag);
            DecodeFields(sch2, fs2, recs, n, tag - 1, data)
            == Report(tag, k < |fs2|, if k < |fs2| then DecodeInline(fs2[k], w / 2 - 1) else None, 0,
                      DecodeFields(sch2, fs2, recs, n + 1, tag, data))
  {
    AheadStep(recs, n, [w] + rs);
    assert ([w] + rs)[1..] == rs;
  }

  lemma DataBack(sch2: Schema, fs2: seq<Field>, recs: seq<Byte>, n: nat, tag: nat, s: seq<Byte>, rs: seq<nat>,
      rest: seq<Byte>)
    requires |s| < TWO32 && Ahead(recs, n, [0] + rs)
    ensures Ahead(recs, n + 1, rs)
    ensures var k := FieldIndex(fs2, tag);
            DecodeFields(sch2, fs2, recs, n, tag - 1, Sized(s) + rest)
            == Report(tag, k < |fs2|, if k < |fs2| then DecodeData(sch2, fs2[k], s) else None, SIZEOF_LENGTH + |s|,
                      DecodeFields(sch2, fs2, recs, n + 1, tag, rest))
  {
    hide Sized, DecodeData;
    AheadStep(recs, n, [0] + rs);
    assert ([0] + rs)[1..] == rs;
    SizedBack(s, rest);
  }

  /** The entries from the i-th on, as the other schema knows them, after the data bytes that hold them. */
  function Told(sch2: Schema, fs2: seq<Field>, o: Value, i: nat, used: nat): Option<(seq<Entry>, nat)>
    requires o.Obj? && i <= |o.entries|
  {
    Some((RestrictEntries(sch2, fs2, o, i), used))
  }

  /** The other schema's field of the tag, if it has one, is the same field. */
  ghost predicate SameFields(fs: seq<Field>, fs2: seq<Field>) {
    forall i, j | 0 <= i < |fs| && 0 <= j < |fs2| :: fs[i].tag == fs2[j].tag ==> fs[i] == fs2[j]
  }

  lemma {:induction false} TellEntry(sch2: Schema, fs2: seq<Field>, f: Field, o: Value, i: nat, v: Option<Value>,
      used: nat, rest: nat)
    requires o.Obj? && i < |o.entries| && o.entries[i].tag == f.tag && o.entries[i].value != Array([])
    requires var k := FieldIndex(fs2, f.tag); k < |fs2| ==>
             fs2[k] == f && v == Some(RestrictValue(sch2, f.kind, o.entries[i].value))
    ensures Report(f.tag, FieldIndex(fs2, f.tag) < |fs2|, v, used, Told(sch2, fs2, o, i + 1, rest)) ==
            Told(sch2, fs2, o, i, used + rest)
  {
    var e := o.entries[i].value;
    var told := RestrictValue(sch2, f.kind, e);
    if e.Array? {
      assert |RestrictItems(sch2, f.kind, e, 0)| > 0;
      assert told != Array([]);
    } else {
      assert told == RestrictItem(sch2, f.kind, e);
      assert f.kind.TStruct? && e.Obj? ==> Restrict(sch2, f.kind.id, e).Obj?;
    }
    assert Told(sch2, fs2, o, i + 1, rest).Some?;
  }

  lemma {:induction false} FieldsBack(sch: Schema, sch2: Schema, fs: seq<Field>, fs2: seq<Field>, o: Value, i: nat,
      prev: int, last: int,
                                      recs: seq<Byte>, n: nat, trail: seq<Byte>)
    requires WellFormed(sch) && WellFormed(sch2) && Compatible(sch, sch2) && o.Obj? && InStep(sch, fs, o, i)
    requires Ascending(fs, prev) && -1 <= last <= prev && SameFields(fs, fs2)
    requires var p := EncodeFields(sch, fs, o, last); Ahead(recs, n, p.records) && |p.data| < TWO32
    ensures var p := EncodeFields(sch, fs, o, last);
            DecodeFields(sch2, fs2, recs, n, last, p.data + trail) == Told(sch2, fs2, o, i, |p.data|)
    decreases o, 0, |fs|
  {
    hide WellFormed, Compatible, InStep, EncodeValue, Ahead, DecodeFields;
    if fs == [] {
      NoFields(sch, sch2, fs2, o, i, last, recs, n, trail);
    } else {
      NextField(sch, fs, o, i, prev);
      var k := IndexOf(o.entries, fs[0].tag);
      if k == |o.entries| {
        FieldsBack(sch, sch2, fs[1..], fs2, o, i, fs[0].tag, last, recs, n, trail);
      } else {
        FieldBack(sch, sch2, fs, fs2, o, i, prev, last, recs, n, trail);
      }
    }
  }

  lemma NoFields(sch: Schema, sch2: Schema, fs2: seq<Field>, o: Value, i: nat, last: int, recs: seq<Byte>, n: nat,
      trail: seq<Byte>)
    requires o.Obj? && InStep(sch, [], o, i) && Ahead(recs, n, [])
    ensures DecodeFields(sch2, fs2, recs, n, last, [] + trail) == Told(sch2, fs2, o, i, 0)
  {
    AllWritten(sch, o, i);
  }

  /** The first field is written, and read. */
  lemma {:induction false} FieldBack(sch: Schema, sch2: Schema, fs: seq<Field>, fs2: seq<Field>, o: Value, i: nat,
      prev: int, last: int,
                                     recs: seq<Byte>, n: nat, trail: seq<Byte>)
    requires WellFormed(sch) && WellFormed(sch2) && Compatible(sch, sch2) && o.Obj? && fs != []
    requires Ascending(fs, prev) && -1 <= last <= prev && SameFields(fs, fs2)
    requires i < |o.entries| && o.entries[i].tag == fs[0].tag && IndexOf(o.entries, fs[0].tag) == i
    requires ValueFits(sch, fs[0], o.entries[i].value) && InStep(sch, fs[1..], o, i + 1)
    requires var p := EncodeFields(sch, fs, o, last); Ahead(recs, n, p.records) && |p.data| < TWO32
    ensures var p := EncodeFields(sch, fs, o, last);
            DecodeFields(sch2, fs2, recs, n, last, p.data + trail) == Told(sch2, fs2, o, i, |p.data|)
    decreases o, 0, |fs|, 0
  {
    hide WellFormed, Compatible, InStep, EncodeValue, Ahead, DecodeFields, Sized, Told, ValueFits, DecodeData,
      DecodeInline;
    var f, v := fs[0], o.entries[i].value;
    var out, rest := EncodeValue(sch, f, v), EncodeFields(sch, fs[1..], o, f.tag);
    SmallerValue(o, i);
    NotEmpty(sch, f, v);
    var word := if out.Inline? then out.word else 0;
    var rs := [word] + rest.records;
    ValueBack(sch, sch2, f, v) by { DataFits(sch, fs, o, last, i); }
    assert !out.Omitted?;
    var m := n + |Skip(last, f.tag)|;
    var data := EncodeFields(sch, fs, o, last).data + trail;
    assert EncodeFields(sch, fs, o, last) == AddField(last, f.tag, out, rest);
    assert Skip(last, f.tag) + [word] + rest.records == Skip(last, f.tag) + rs;
    SkipBack(sch2, fs2, recs, n, last, f.tag, rs, data);
    SameField(fs, fs2);
    if out.Inline? {
      InlineBack(sch2, fs2, recs, m, f.tag, word, rest.records, data);
      FieldsBack(sch, sch2, fs[1..], fs2, o, i + 1, f.tag, f.tag, recs, m + 1, trail);
      assert [] + rest.data == rest.data;
      var k := FieldIndex(fs2, f.tag);
      TellEntry(sch2, fs2, f, o, i, if k < |fs2| then DecodeInline(fs2[k], word / 2 - 1) else None, 0, |rest.data|);
    } else {
      var s :| out.bytes == Sized(s) && DecodeData(sch2, f, s) == Some(RestrictValue(sch2, f.kind, v));
      assert data == Sized(s) + (rest.data + trail);
      DataBack(sch2, fs2, recs, m, f.tag, s, rest.records, rest.data + trail);
      FieldsBack(sch, sch2, fs[1..], fs2, o, i + 1, f.tag, f.tag, recs, m + 1, trail);
      var k := FieldIndex(fs2, f.tag);
      TellEntry(sch2, fs2, f, o, i, if k < |fs2| then DecodeData(sch2, fs2[k], s)
        else None, SIZEOF_LENGTH + |s|, |rest.data|);
    }
  }

  lemma NotEmpty(sch: Schema, f: Field, v: Value)
    requires ValueFits(sch, f, v)
    ensures v != Array([])
  {
  }

  lemma SmallerValue(o: Value, i: nat)
    requires o.Obj? && i < |o.entries|
    ensures o.entries[i].value < o
  {
  }

  lemma SameField(fs: seq<Field>, fs2: seq<Field>)
    requires fs != [] && SameFields(fs, fs2)
    ensures SameFields(fs[1..], fs2)
    ensures var k := FieldIndex(fs2, fs[0].tag); k < |fs2| ==> fs2[k] == fs[0]
  {
  }

  /** The bytes of one field are part of the data. */
  lemma DataFits(sch: Schema, fs: seq<Field>, o: Value, last: int, i: nat)
    requires o.Obj? && fs != [] && i < |o.entries| && IndexOf(o.entries, fs[0].tag) == i
    requires |EncodeFields(sch, fs, o, last).data| < TWO32
    ensures var out := EncodeValue(sch, fs[0], o.entries[i].value); out.Data? ==> |out.bytes| < TWO32
  {
  }

  /**
    The decoder of another schema reports of an encoded object exactly the fields that it knows,
    with their values, and reads all its bytes; with the encoder's own schema that is the whole object.
   */
  lemma {:induction false} ObjectBack(sch: Schema, sch2: Schema, id: nat, o: Value, trail: seq<Byte>)
    requires WellFormed(sch) && WellFormed(sch2) && Compatible(sch, sch2) && o.Obj? && ObjectFits(sch, id, o)
    requires |EncodeObject(sch, id, o)| < TWO32
    ensures DecodeObject(sch2, id, EncodeObject(sch, id, o) + trail) ==
            Some((Restrict(sch2, id, o), |EncodeObject(sch, id, o)|))
    decreases o, 1
  {
    hide WellFormed, Compatible, EncodeFields, DecodeFields, InStep, RecordBytes, Ahead;
    var fs, fs2 := FieldsOf(sch, id), FieldsOf(sch2, id);
    var p := EncodeFields(sch, fs, o, -1);
    SchemaFields(sch, sch2, id);
    StartInStep(sch, id, o);
    var recs := RecordBytes(p.records);
    StartAhead(p.records);
    FieldsBack(sch, sch2, fs, fs2, o, 0, -1, -1, recs, 0, trail);
    RecordLimit(sch, fs, o, -1, -1);
    HeaderBack(p, trail);
  }

  lemma SchemaFields(sch: Schema, sch2: Schema, id: nat)
    requires WellFormed(sch) && WellFormed(sch2) && Compatible(sch, sch2)
    ensures Ascending(FieldsOf(sch, id), -1) && SameFields(FieldsOf(sch, id), FieldsOf(sch2, id))
  {
  }

  lemma StartInStep(sch: Schema, id: nat, o: Value)
    requires o.Obj? && ObjectFits(sch, id, o)
    ensures InStep(sch, FieldsOf(sch, id), o, 0)
  {
  }

  lemma StartAhead(rs: seq<nat>)
    ensures Ahead(RecordBytes(rs), 0, rs)
  {
  }

  lemma HeaderBack(p: Parts, trail: seq<Byte>)
    requires |p.records| < 0x1_0000
    ensures var s := Assemble(p) + trail; var start := SIZEOF_HEADER + SIZEOF_FIELD * |p.records|;
            && |Assemble(p)| == start + |p.data| && FromLE(s[..SIZEOF_HEADER]) == |p.records|
            && s[SIZEOF_HEADER..start] == RecordBytes(p.records) && s[start..] == p.data + trail
  {
    Powers();
    FromLEOfLE(|p.records|, SIZEOF_HEADER);
    var h, r := LE(|p.records|, SIZEOF_HEADER), RecordBytes(p.records);
    assert Assemble(p) + trail == h + r + (p.data + trail);
    Between(h, r, p.data + trail);
  }

  // ---- the room for the header ----

  /** The number of records that import_type reserves: one a field, and one for each gap in the tags. */
  function MaxRecords(fs: seq<Field>, prev: int): nat {
    if fs == [] then 0 else 1 + (if fs[0].tag > prev + 1 then 1 else 0) + MaxRecords(fs[1..], fs[0].tag)
  }

  /** Whatever fields are present, the records fit in front of the data; a skip is paid for by a field left out. */
  lemma {:induction false} HeaderFits(sch: Schema, fs: seq<Field>, o: Value, prev: int, last: int)
    requires o.Obj? && Ascending(fs, prev) && -1 <= last <= prev
    ensures |EncodeFields(sch, fs, o, last).records| <= MaxRecords(fs, prev) + if last < prev then 1 else 0
    decreases |fs|
  {
    hide EncodeValue;
    if fs != [] {
      HeaderFits(sch, fs[1..], o, fs[0].tag, last);
      HeaderFits(sch, fs[1..], o, fs[0].tag, fs[0].tag);
    }
  }

  lemma {:induction false} RecordLimit(sch: Schema, fs: seq<Field>, o: Value, prev: int, last: int)
    requires o.Obj? && Ascending(fs, prev) && -1 <= last <= prev && prev <= MAX_TAG
    ensures |EncodeFields(sch, fs, o, last).records| <= MAX_TAG - last
    decreases |fs|
  {
    hide EncodeValue;
    if fs != [] {
      RecordLimit(sch, fs[1..], o, fs[0].tag, last);
      RecordLimit(sch, fs[1..], o, fs[0].tag, fs[0].tag);
    }
  }

  // ---- a schema and itself ----

  lemma {:induction false} RestrictSame(sch: Schema, id: nat, o: Value)
    requires o.Obj? && ObjectFits(sch, id, o)
    ensures Restrict(sch, id, o) == o
    decreases o, 3
  {
    EntriesSame(sch, id, o, 0);
  }

  lemma {:induction false} EntriesSame(sch: Schema, id: nat, o: Value, i: nat)
    requires o.Obj? && ObjectFits(sch, id, o) && i <= |o.entries|
    ensures RestrictEntries(sch, FieldsOf(sch, id), o, i) == o.entries[i..]
    decreases o, 2, |o.entries| - i
  {
    if i < |o.entries| {
      var e := o.entries[i];
      var f := FieldsOf(sch, id)[FieldIndex(FieldsOf(sch, id), e.tag)];
      ValueSame(sch, f, e.value);
      EntriesSame(sch, id, o, i + 1);
    }
  }

  lemma {:induction false} ValueSame(sch: Schema, f: Field, v: Value)
    requires ValueFits(sch, f, v)
    ensures RestrictValue(sch, f.kind, v) == v
    decreases v, 5
  {
    if f.isArray { ItemsSame(sch, f.kind, v, 0); } else { ItemSame(sch, f.kind, v); }
  }

  lemma {:induction false} ItemsSame(sch: Schema, kind: Kind, v: Value, i: nat)
    requires v.Array? && i <= |v.items| && forall j :: 0 <= j < |v.items| ==> ItemFits(sch, kind, v.items[j])
    ensures RestrictItems(sch, kind, v, i) == v.items[i..]
    decreases v, 0, |v.items| - i
  {
    if i < |v.items| {
      ItemSame(sch, kind, v.items[i]);
      ItemsSame(sch, kind, v, i + 1);
    }
  }

  lemma {:induction false} ItemSame(sch: Schema, kind: Kind, v: Value)
    requires ItemFits(sch, kind, v)
    ensures RestrictItem(sch, kind, v) == v
    decreases v, 4
  {
    if kind.TStruct? { RestrictSame(sch, kind.id, v); }
  }

  lemma SameSchema(sch: Schema)
    requires WellFormed(sch)
    ensures Compatible(sch, sch)
  {
    forall id, i, j | 0 <= id < |sch| && 0 <= i < |sch[id]| && 0 <= j < |sch[id]| && sch[id][i].tag == sch[id][j].tag
      ensures i == j
    {
      if i < j { TagsDiffer(sch[id], -1, i, j); }
      if j < i { TagsDiffer(sch[id], -1, j, i); }
    }
  }

  lemma {:induction false} TagsDiffer(fs: seq<Field>, last: int, i: nat, j: nat)
    requires Ascending(fs, last) && i < j < |fs|
    ensures fs[i].tag < fs[j].tag
    decreases |fs|
  {
    if i == 0 { AscendingAbove(fs[1..], fs[0].tag, j - 1); } else { TagsDiffer(fs[1..], fs[0].tag, i - 1, j - 1); }
  }

  /** Decoding an encoded object gives back that object. */
  lemma RoundTrip(sch: Schema, id: nat, o: Value)
    requires WellFormed(sch) && o.Obj? && ObjectFits(sch, id, o) && |EncodeObject(sch, id, o)| < TWO32
    ensures DecodeObject(sch, id, EncodeObject(sch, id, o)) == Some((o, |EncodeObject(sch, id, o)|))
  {
    hide WellFormed, Compatible, ObjectFits, EncodeObject, DecodeObject, Restrict;
    SameSchema(sch);
    ObjectBack(sch, sch, id, o, []);
    RestrictSame(sch, id, o);
    assert EncodeObject(sch, id, o) + [] == EncodeObject(sch, id, o);
  }
}
