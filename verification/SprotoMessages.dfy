/** Which bytes are messages, and what they say: the decoder takes exactly these, wherever they come from. */
module SprotoMessages {
  import opened ByteType
  import opened SprotoWire
  import opened SprotoRoundTrip
  import opened SprotoForm

  // ---- messages ----

  /** The bytes s are those of a string, or a message of a nested object. */
  ghost predicate SaysItem(sch: Schema, kind: Kind, s: seq<Byte>, v: Value)
    decreases |s|, 3, 0
  {
    match kind
    case TString => v == Str(s)
    case TStruct(id) => Says(sch, id, s, v)
    case _ => false
  }

  /** Strings or objects, each behind its length. */
  ghost predicate SaysItems(sch: Schema, kind: Kind, s: seq<Byte>, items: seq<Value>)
    decreases |s|, 0, 0
  {
    if items == [] then s == []
    else
      exists b, rest | |b| + |rest| < |s| && |b| < TWO32 ::
        s == Counted(b) + rest && SaysItem(sch, kind, b, items[0]) && SaysItems(sch, kind, rest, items[1..])
  }

  ghost predicate SaysInts(s: seq<Byte>, items: seq<Value>, wide: bool) {
    && (forall i :: 0 <= i < |items| ==> items[i].Int? && if wide then IntFits(items[i].v) else Fits32(items[i].v))
    && s == IntsWire(items, wide)
  }

  ghost predicate SaysBools(s: seq<Byte>, items: seq<Value>) {
    |items| == |s| && forall i :: 0 <= i < |s| ==> items[i] == Bool(s[i] != 0)
  }

  /** The bytes s in the data part say v for the field f; integers are 4 or 8 bytes, whatever their value. */
  ghost predicate SaysValue(sch: Schema, f: Field, s: seq<Byte>, v: Value)
    decreases |s|, 4, 0
  {
    if f.isArray then
      v.Array? &&
      match f.kind
      case TInteger => s != [] && ((s[0] == 4 && SaysInts(s[1..], v.items, false))
                                   || (s[0] == 8 && SaysInts(s[1..], v.items, true)))
      case TBoolean => SaysBools(s, v.items)
      case _ => SaysItems(sch, f.kind, s, v.items)
    else
      match f.kind
      case TInteger => v.Int? && ((s == Signed32(v.v) && Fits32(v.v)) || (s == Signed64(v.v) && IntFits(v.v)))
      case TBoolean => false
      case _ => SaysItem(sch, f.kind, s, v)
  }

  /** The even record r > 0 says v for the field f. */
  predicate SaysRecord(f: Field, r: nat, v: Value) {
    && !f.isArray
    && ((f.kind.TInteger? && v == Int(r / 2 - 1)) || (f.kind.TBoolean? && v == Bool(r != 2)))
  }

  /** The records rs, behind those up to the tag `last`, and the data say the entries es. */
  ghost predicate SaysFields(sch: Schema, fs: seq<Field>, rs: seq<nat>, data: seq<Byte>, last: int, es: seq<Entry>)
    requires last >= -1
    decreases |data|, 5, |rs|
  {
    if rs == [] then data == [] && es == []
    else
      var tag: nat := last + 1;
      var r := rs[0];
      if r % 2 == 1 then SaysFields(sch, fs, rs[1..], data, tag + r / 2, es)
      else if r > 0 then
        if HasTag(fs, tag) then
          es != [] && es[0].tag == tag && SaysRecord(FieldOf(fs, tag), r, es[0].value)
            && SaysFields(sch, fs, rs[1..], data, tag, es[1..])
        else SaysFields(sch, fs, rs[1..], data, tag, es)
      else
        exists b, rest | |b| + |rest| < |data| && |b| < TWO32 ::
          data == Counted(b) + rest && SaysDatum(sch, fs, rs[1..], b, rest, tag, es)
  }

  /** The same for a record with the bytes b in the data; a field with an empty array says nothing. */
  ghost predicate SaysDatum(sch: Schema, fs: seq<Field>, rs: seq<nat>, b: seq<Byte>, rest: seq<Byte>, tag: nat,
      es: seq<Entry>)
    decreases |b| + |rest|, 6, 0
  {
    if !HasTag(fs, tag) || SaysValue(sch, FieldOf(fs, tag), b, Array([])) then SaysFields(sch, fs, rs, rest, tag, es)
    else
      es != [] && es[0].tag == tag && SaysValue(sch, FieldOf(fs, tag), b, es[0].value)
        && SaysFields(sch, fs, rs, rest, tag, es[1..])
  }

  predicate HasTag(fs: seq<Field>, tag: nat) {
    exists k :: 0 <= k < |fs| && fs[k].tag == tag
  }

  function FieldOf(fs: seq<Field>, tag: nat): (f: Field)
    requires HasTag(fs, tag)
    ensures f in fs && f.tag == tag
  {
    if fs[0].tag == tag then fs[0] else FieldOf(fs[1..], tag)
  }

  /** The bytes s are a message of the type, from end to end, and say the object o. */
  ghost predicate Says(sch: Schema, id: nat, s: seq<Byte>, o: Value)
    decreases |s|, 2, 0
  {
    o.Obj? &&
    exists rs: seq<nat>, data | |data| < |s| && |rs| < 0x1_0000 && (forall j :: 0 <= j < |rs| ==> rs[j] < 0x1_0000) ::
      s == U16(|rs|) + WordsWire(rs) + data && SaysFields(sch, FieldsOf(sch, id), rs, data, -1, o.entries)
  }

  // ---- numbers and fields ----

  lemma {:induction false} LEOfFromLE(s: seq<Byte>)
    ensures LE(FromLE(s), |s|) == s && FromLE(s) < Pow256(|s|)
    decreases |s|
  {
    if s != [] {
      LEOfFromLE(s[1..]);
      var n := FromLE(s);
      assert n % 256 == s[0] as int && n / 256 == FromLE(s[1..]);
      assert [s[0]] + s[1..] == s;
    }
  }

  /** Two and four bytes are the bytes of their number, and back. */
  lemma Words(s: seq<Byte>)
    ensures |s| == 2 ==> U16(FromLE(s)) == s && FromLE(s) < 0x1_0000
    ensures |s| == 4 ==> U32(FromLE(s)) == s && FromLE(s) < TWO32
  {
    hide LE, FromLE, U16, U32;
    Powers();
    LEOfFromLE(s);
    LE2(FromLE(s));
    LE4(FromLE(s));
  }

  lemma {:induction false} IntOfBytes(s: seq<Byte>)
    requires |s| > 0
    ensures var v := FromIntBytes(s); var m := Pow256(|s|); IntBytes(v, |s|) == s && -(m / 2) <= v < m / 2
  {
    LEOfFromLE(s);
    var u, m := FromLE(s), Pow256(|s|);
    var half: nat := 128 * Pow256(|s| - 1);
    assert m == 2 * half;
    if u >= half { ModUp(u - m, m); } else { ModIn(u, m); }
  }

  /** Four and eight bytes are the two's complement of the integer that is read from them. */
  lemma IntRead(s: seq<Byte>)
    ensures |s| == 4 ==> Signed32(FromIntBytes(s)) == s && Fits32(FromIntBytes(s))
    ensures |s| == 8 ==> Signed64(FromIntBytes(s)) == s && IntFits(FromIntBytes(s))
  {
    hide Signed32, Signed64, IntBytes, FromIntBytes;
    Powers();
    if |s| > 0 { IntOfBytes(s); }
    Bytes32(FromIntBytes(s));
    Bytes64(FromIntBytes(s));
  }

  lemma IntWritten(v: int)
    ensures Fits32(v) ==> FromIntBytes(Signed32(v)) == v
    ensures IntFits(v) ==> FromIntBytes(Signed64(v)) == v
  {
    hide Signed32, Signed64, IntBytes, FromIntBytes;
    Powers();
    Bytes32(v);
    Bytes64(v);
    if Fits32(v) { IntRoundTrip(v, 4); }
    if IntFits(v) { IntRoundTrip(v, 8); }
  }

  lemma {:induction false} FieldFound(fs: seq<Field>, tag: nat)
    ensures var k := FieldIndex(fs, tag);
            (k < |fs| <==> HasTag(fs, tag)) && (HasTag(fs, tag) ==> fs[k] == FieldOf(fs, tag))
    decreases |fs|
  {
    if fs != [] && fs[0].tag != tag {
      FieldFound(fs[1..], tag);
      if HasTag(fs, tag) {
        var k :| 0 <= k < |fs| && fs[k].tag == tag;
        assert fs[1..][k - 1].tag == tag;
      }
    }
  }

  /** Bytes behind their length, with more behind them. */
  lemma CountedRead(b: seq<Byte>, more: seq<Byte>)
    requires |b| < TWO32
    ensures var d := Counted(b) + more;
            && |d| == 4 + |b| + |more| && FromLE(d[..4]) == |b| && d[4..4 + |b|] == b && d[4 + |b|..] == more
  {
    hide LE, FromLE, U32;
    CountedIs(b);
    SizedBack(b, more);
  }

  /** Any bytes that start with a length which they hold. */
  lemma CountedSplit(d: seq<Byte>)
    requires |d| >= 4 && FromLE(d[..4]) <= |d| - 4
    ensures var n := FromLE(d[..4]); n < TWO32 && d == Counted(d[4..4 + n]) + d[4 + n..]
  {
    hide LE, FromLE, U32;
    Words(d[..4]);
    var n := FromLE(d[..4]);
    assert |d[4..4 + n]| == n;
    assert d == d[..4] + d[4..4 + n] + d[4 + n..];
  }

  // ---- arrays of integers and booleans ----

  lemma IntsSaid(s: seq<Byte>, items: seq<Value>, wide: bool)
    requires SaysInts(s, items, wide)
    ensures var w := if wide then 8 else 4; ElementsFrom(TInteger, s, w) == items && |s| % w == 0
  {
    hide Elements, ElementsFrom, IntsWire;
    var w := if wide then 8 else 4;
    IntsAre(items, wide);
    forall i | 0 <= i < |items| ensures ElementFits(TInteger, items[i], w) {}
    ElementsBack(TInteger, items, w);
    MultipleOf(w, |items|);
  }

  lemma {:induction false} IntsSay(s: seq<Byte>, wide: bool)
    requires |s| % (if wide then 8 else 4) == 0
    ensures SaysInts(s, ElementsFrom(TInteger, s, if wide then 8 else 4), wide)
    decreases |s|
  {
    hide Signed32, Signed64, FromIntBytes;
    var w := if wide then 8 else 4;
    if |s| >= w {
      IntsSay(s[w..], wide);
      IntRead(s[..w]);
      var items := ElementsFrom(TInteger, s, w);
      assert items[1..] == ElementsFrom(TInteger, s[w..], w);
      assert s == s[..w] + s[w..];
      forall i | 0 <= i < |items|
        ensures items[i].Int? && if wide then IntFits(items[i].v) else Fits32(items[i].v)
      {
        if i > 0 { assert items[i] == items[1..][i - 1]; }
      }
    }
  }

  lemma {:induction false} BoolsRead(s: seq<Byte>)
    ensures var items := ElementsFrom(TBoolean, s, 1);
            |items| == |s| && forall i :: 0 <= i < |s| ==> items[i] == Bool(s[i] != 0)
    decreases |s|
  {
    if s != [] {
      BoolsRead(s[1..]);
      var items := ElementsFrom(TBoolean, s, 1);
      assert items[1..] == ElementsFrom(TBoolean, s[1..], 1);
      forall i | 0 <= i < |s| ensures items[i] == Bool(s[i] != 0) {
        if i > 0 { assert items[i] == items[1..][i - 1] && s[i] == s[1..][i - 1]; }
      }
    }
  }

  lemma BoolsSay(s: seq<Byte>, items: seq<Value>)
    ensures SaysBools(s, items) <==> ElementsFrom(TBoolean, s, 1) == items
  {
    hide ElementsFrom;
    BoolsRead(s);
  }

  // ---- messages are decoded ----

  lemma {:induction false} ItemSaid(sch: Schema, kind: Kind, s: seq<Byte>, v: Value)
    requires SaysItem(sch, kind, s, v)
    ensures FromBody(sch, kind, s) == Some(v)
    decreases |s|, 3, 0
  {
    hide Says, DecodeObject;
    if kind.TStruct? {
      ObjectSaid(sch, kind.id, s, v, []);
      assert s + [] == s;
    }
  }

  lemma {:induction false} ItemsSaid(sch: Schema, kind: Kind, s: seq<Byte>, items: seq<Value>)
    requires SaysItems(sch, kind, s, items)
    ensures BodiesFrom(sch, kind, s) == Some(items)
    decreases |s|, 0, 0
  {
    hide SaysItem, FromBody, Counted, FromLE;
    if items != [] {
      var b, rest :| |b| + |rest| < |s| && |b| < TWO32 && s == Counted(b) + rest && SaysItem(sch, kind, b, items[0])
                     && SaysItems(sch, kind, rest, items[1..]);
      CountedRead(b, rest);
      ItemSaid(sch, kind, b, items[0]);
      ItemsSaid(sch, kind, rest, items[1..]);
      assert [items[0]] + items[1..] == items;
    }
  }

  lemma {:induction false} ValueSaid(sch: Schema, f: Field, s: seq<Byte>, v: Value)
    requires SaysValue(sch, f, s, v)
    ensures DecodeData(sch, f, s) == Some(v)
    decreases |s|, 4, 0
  {
    hide SaysItem, SaysItems, FromBody, BodiesFrom, FromIntBytes, Signed32, Signed64, SaysInts, ElementsFrom, SaysBools;
    if f.isArray {
      match f.kind {
        case TInteger =>
          if s[0] == 4 && SaysInts(s[1..], v.items, false) {
            IntsSaid(s[1..], v.items, false);
          } else {
            IntsSaid(s[1..], v.items, true);
          }
        case TBoolean => BoolsSay(s, v.items);
        case _ => ItemsSaid(sch, f.kind, s, v.items);
      }
    } else {
      if f.kind.TInteger? { IntWritten(v.v); } else if !f.kind.TBoolean? { ItemSaid(sch, f.kind, s, v); }
    }
  }

  lemma {:induction false} FieldsSaid(sch: Schema, fs: seq<Field>, rs: seq<nat>, data: seq<Byte>, last: int,
      es: seq<Entry>, recs: seq<Byte>, n: nat, tail: seq<Byte>)
    requires last >= -1 && SaysFields(sch, fs, rs, data, last, es)
    requires Ahead(recs, n, rs) && forall j :: 0 <= j < |rs| ==> rs[j] < 0x1_0000
    ensures DecodeFields(sch, fs, recs, n, last, data + tail) == Some((es, |data|))
    decreases |data|, 5, |rs|, 1
  {
    hide *;
    if rs == [] {
      NothingSaid(sch, fs, data, last, es);
      NoneAhead(sch, fs, recs, n, last, data + tail);
    } else if rs[0] % 2 == 1 {
      OddStep(sch, fs, recs, n, last, rs, data + tail);
      OddSays(sch, fs, rs, data, last, es);
      FieldsSaid(sch, fs, rs[1..], data, last + 1 + rs[0] / 2, es, recs, n + 1, tail);
    } else if rs[0] > 0 {
      RecordSaid(sch, fs, rs, data, last + 1, es, recs, n, tail);
    } else {
      var b, rest := DatumSays(sch, fs, rs, data, last, es);
      assert data + tail == Sized(b) + (rest + tail);
      assert rs == [0] + rs[1..];
      DataBack(sch, fs, recs, n, last + 1, b, rs[1..], rest + tail);
      DatumSaid(sch, fs, rs[1..], b, rest, last + 1, es, recs, n + 1, tail);
    }
  }

  lemma NothingSaid(sch: Schema, fs: seq<Field>, data: seq<Byte>, last: int, es: seq<Entry>)
    requires last >= -1 && SaysFields(sch, fs, [], data, last, es)
    ensures data == [] && es == []
  {
  }

  lemma OddSays(sch: Schema, fs: seq<Field>, rs: seq<nat>, data: seq<Byte>, last: int, es: seq<Entry>)
    requires last >= -1 && rs != [] && rs[0] % 2 == 1
    ensures SaysFields(sch, fs, rs, data, last, es) <==>
            SaysFields(sch, fs, rs[1..], data, last + 1 + rs[0] / 2, es)
  {
  }

  lemma DatumSays(sch: Schema, fs: seq<Field>, rs: seq<nat>, data: seq<Byte>, last: int, es: seq<Entry>)
      returns (b: seq<Byte>, rest: seq<Byte>)
    requires last >= -1 && rs != [] && rs[0] == 0 && SaysFields(sch, fs, rs, data, last, es)
    ensures data == Sized(b) + rest && |data| == 4 + |b| + |rest| && |b| < TWO32
    ensures SaysDatum(sch, fs, rs[1..], b, rest, last + 1, es)
  {
    hide SaysDatum, Counted;
    b, rest :| |b| + |rest| < |data| && |b| < TWO32 && data == Counted(b) + rest
               && SaysDatum(sch, fs, rs[1..], b, rest, last + 1, es);
    CountedIs(b);
  }

  lemma {:induction false} RecordSaid(sch: Schema, fs: seq<Field>, rs: seq<nat>, data: seq<Byte>, tag: nat,
      es: seq<Entry>, recs: seq<Byte>, n: nat, tail: seq<Byte>)
    requires rs != [] && rs[0] > 0 && rs[0] % 2 == 0 && SaysFields(sch, fs, rs, data, tag - 1, es)
    requires Ahead(recs, n, rs) && forall j :: 0 <= j < |rs| ==> rs[j] < 0x1_0000
    ensures DecodeFields(sch, fs, recs, n, tag - 1, data + tail) == Some((es, |data|))
    decreases |data|, 5, |rs|, 0
  {
    hide SaysDatum, Counted, Ahead, DecodeFields;
    FieldFound(fs, tag);
    assert rs == [rs[0]] + rs[1..];
    InlineBack(sch, fs, recs, n, tag, rs[0], rs[1..], data + tail);
    if HasTag(fs, tag) {
      FieldsSaid(sch, fs, rs[1..], data, tag, es[1..], recs, n + 1, tail);
      assert [es[0]] + es[1..] == es;
    } else {
      FieldsSaid(sch, fs, rs[1..], data, tag, es, recs, n + 1, tail);
      assert [] + es == es;
    }
  }

  lemma OddStep(sch: Schema, fs: seq<Field>, recs: seq<Byte>, n: nat, last: int, rs: seq<nat>, data: seq<Byte>)
    requires Ahead(recs, n, rs) && rs != [] && rs[0] < 0x1_0000 && rs[0] % 2 == 1
    ensures Ahead(recs, n + 1, rs[1..])
    ensures DecodeFields(sch, fs, recs, n, last, data) ==
            DecodeFields(sch, fs, recs, n + 1, last + 1 + rs[0] / 2, data)
  {
    AheadStep(recs, n, rs);
  }

  lemma {:induction false} DatumSaid(sch: Schema, fs: seq<Field>, rs: seq<nat>, b: seq<Byte>, rest: seq<Byte>, tag: nat,
      es: seq<Entry>, recs: seq<Byte>, n: nat, tail: seq<Byte>)
    requires SaysDatum(sch, fs, rs, b, rest, tag, es)
    requires Ahead(recs, n, rs) && forall j :: 0 <= j < |rs| ==> rs[j] < 0x1_0000
    ensures var k := FieldIndex(fs, tag);
            var v := if k < |fs| then DecodeData(sch, fs[k], b) else None;
            Report(tag, k < |fs|, v, 4 + |b|, DecodeFields(sch, fs, recs, n, tag, rest + tail))
            == Some((es, 4 + |b| + |rest|))
    decreases |b| + |rest|, 6, 0
  {
    hide SaysValue, DecodeData, Ahead, DecodeFields, SaysFields;
    FieldFound(fs, tag);
    if !HasTag(fs, tag) || SaysValue(sch, FieldOf(fs, tag), b, Array([])) {
      if HasTag(fs, tag) { ValueSaid(sch, FieldOf(fs, tag), b, Array([])); }
      FieldsSaid(sch, fs, rs, rest, tag, es, recs, n, tail);
      assert [] + es == es;
    } else {
      ValueSaid(sch, FieldOf(fs, tag), b, es[0].value);
      FieldsSaid(sch, fs, rs, rest, tag, es[1..], recs, n, tail);
      assert [es[0]] + es[1..] == es;
    }
  }

  lemma NoneAhead(sch: Schema, fs: seq<Field>, recs: seq<Byte>, n: nat, last: int, data: seq<Byte>)
    requires Ahead(recs, n, [])
    ensures DecodeFields(sch, fs, recs, n, last, data) == Some(([], 0))
  {
  }

  lemma {:induction false} ObjectSaid(sch: Schema, id: nat, s: seq<Byte>, o: Value, tail: seq<Byte>)
    requires Says(sch, id, s, o)
    ensures DecodeObject(sch, id, s + tail) == Some((o, |s|))
    decreases |s|, 2, 0
  {
    hide *;
    var rs, data := SaidParts(sch, id, s, o);
    FieldsSaid(sch, FieldsOf(sch, id), rs, data, -1, o.entries, RecordBytes(rs), 0, tail);
    ObjectParts(sch, id, rs, data, tail);
    assert s == Assemble(Parts(rs, data));
  }

  /** The records and the data of a message. */
  lemma SaidParts(sch: Schema, id: nat, s: seq<Byte>, o: Value) returns (rs: seq<nat>, data: seq<Byte>)
    requires Says(sch, id, s, o)
    ensures |data| < |s| && |rs| < 0x1_0000 && (forall j :: 0 <= j < |rs| ==> rs[j] < 0x1_0000) && o.Obj?
    ensures s == Assemble(Parts(rs, data)) && SaysFields(sch, FieldsOf(sch, id), rs, data, -1, o.entries)
    ensures Ahead(RecordBytes(rs), 0, rs)
  {
    hide SaysFields, RecordBytes, U16, WordsWire, Ahead, LE;
    rs, data :| |data| < |s| && |rs| < 0x1_0000 && (forall j :: 0 <= j < |rs| ==> rs[j] < 0x1_0000)
      && s == U16(|rs|) + WordsWire(rs) + data && SaysFields(sch, FieldsOf(sch, id), rs, data, -1, o.entries);
    WordsAre(rs);
    LE2(|rs|);
    StartAhead(rs);
  }

  /** The decoder finds the records and the data. */
  lemma ObjectParts(sch: Schema, id: nat, rs: seq<nat>, data: seq<Byte>, tail: seq<Byte>)
    requires |rs| < 0x1_0000
    ensures |RecordBytes(rs)| == SIZEOF_FIELD * |rs|
    ensures var s := Assemble(Parts(rs, data));
            var r := DecodeFields(sch, FieldsOf(sch, id), RecordBytes(rs), 0, -1, data + tail);
            DecodeObject(sch, id, s + tail) ==
              (if r.Some? then Some((Obj(r.value.0), |s| - |data| + r.value.1)) else None)
  {
    hide DecodeFields, RecordBytes, FromLE, Assemble;
    HeaderBack(Parts(rs, data), tail);
  }

  // ---- what is decoded is a message ----

  lemma {:induction false} ItemRead(sch: Schema, kind: Kind, s: seq<Byte>)
    requires FromBody(sch, kind, s).Some?
    ensures SaysItem(sch, kind, s, FromBody(sch, kind, s).value)
    decreases |s|, 3, 0
  {
    hide Says, DecodeObject;
    if kind.TStruct? {
      ObjectRead(sch, kind.id, s);
      assert s[..|s|] == s;
    }
  }

  lemma {:induction false} ItemsRead(sch: Schema, kind: Kind, s: seq<Byte>)
    requires BodiesFrom(sch, kind, s).Some?
    ensures SaysItems(sch, kind, s, BodiesFrom(sch, kind, s).value)
    decreases |s|, 0, 0
  {
    hide *;
    if s == [] {
      NoItems(sch, kind);
    } else {
      var n := ItemsHeld(sch, kind, s);
      ItemRead(sch, kind, s[4..4 + n]);
      ItemsRead(sch, kind, s[4 + n..]);
      ItemsOf(sch, kind, s[4..4 + n], s[4 + n..], BodiesFrom(sch, kind, s).value);
    }
  }

  lemma NoItems(sch: Schema, kind: Kind)
    ensures SaysItems(sch, kind, [], []) && BodiesFrom(sch, kind, []) == Some([])
  {
  }

  lemma ItemsHeld(sch: Schema, kind: Kind, s: seq<Byte>) returns (n: nat)
    requires s != [] && BodiesFrom(sch, kind, s).Some?
    ensures 4 + n <= |s| && n < TWO32 && s == Counted(s[4..4 + n]) + s[4 + n..]
    ensures var v, rest := FromBody(sch, kind, s[4..4 + n]), BodiesFrom(sch, kind, s[4 + n..]);
            && v.Some? && rest.Some? && BodiesFrom(sch, kind, s) == Some([v.value] + rest.value)
  {
    hide FromBody, FromLE, Counted;
    n := FromLE(s[..4]);
    CountedSplit(s);
  }

  lemma ItemsOf(sch: Schema, kind: Kind, b: seq<Byte>, rest: seq<Byte>, items: seq<Value>)
    requires |b| < TWO32 && items != [] && SaysItem(sch, kind, b, items[0]) && SaysItems(sch, kind, rest, items[1..])
    ensures SaysItems(sch, kind, Counted(b) + rest, items)
  {
    hide SaysItem;
    assert |Counted(b) + rest| == 4 + |b| + |rest|;
  }

  lemma {:induction false} ValueRead(sch: Schema, f: Field, s: seq<Byte>)
    requires DecodeData(sch, f, s).Some?
    ensures SaysValue(sch, f, s, DecodeData(sch, f, s).value)
    decreases |s|, 4, 0
  {
    hide SaysItem, SaysItems, FromBody, BodiesFrom, FromIntBytes, Signed32, Signed64, SaysInts, ElementsFrom, SaysBools;
    if f.isArray {
      match f.kind {
        case TInteger => IntsSay(s[1..], s[0] == 8);
        case TBoolean => BoolsSay(s, ElementsFrom(TBoolean, s, 1));
        case _ => ItemsRead(sch, f.kind, s);
      }
    } else if f.kind.TInteger? {
      IntRead(s);
    } else {
      ItemRead(sch, f.kind, s);
    }
  }

  lemma {:induction false} FieldsRead(sch: Schema, fs: seq<Field>, rs: seq<nat>, data: seq<Byte>, last: int,
      recs: seq<Byte>, n: nat)
    requires last >= -1 && Ahead(recs, n, rs) && forall j :: 0 <= j < |rs| ==> rs[j] < 0x1_0000
    requires |recs| % SIZEOF_FIELD == 0 && SIZEOF_FIELD * n <= |recs|
    requires DecodeFields(sch, fs, recs, n, last, data).Some?
    ensures var r := DecodeFields(sch, fs, recs, n, last, data).value;
            r.1 <= |data| && SaysFields(sch, fs, rs, data[..r.1], last, r.0)
    decreases |data|, 5, |rs|, 1
  {
    hide *;
    if rs == [] {
      NoneAhead(sch, fs, recs, n, last, data);
      NothingSays(sch, fs, last);
      assert data[..0] == [];
    } else if rs[0] % 2 == 1 {
      OddStep(sch, fs, recs, n, last, rs, data);
      FieldsRead(sch, fs, rs[1..], data, last + 1 + rs[0] / 2, recs, n + 1);
      var r := DecodeFields(sch, fs, recs, n, last, data).value;
      OddSays(sch, fs, rs, data[..r.1], last, r.0);
    } else if rs[0] > 0 {
      RecordRead(sch, fs, rs, data, last + 1, recs, n);
    } else {
      DatumRead(sch, fs, rs, data, last + 1, recs, n);
    }
  }

  lemma NothingSays(sch: Schema, fs: seq<Field>, last: int)
    requires last >= -1
    ensures SaysFields(sch, fs, [], [], last, [])
  {
  }

  lemma {:induction false} RecordRead(sch: Schema, fs: seq<Field>, rs: seq<nat>, data: seq<Byte>, tag: nat,
      recs: seq<Byte>, n: nat)
    requires rs != [] && rs[0] > 0 && rs[0] % 2 == 0
    requires Ahead(recs, n, rs) && forall j :: 0 <= j < |rs| ==> rs[j] < 0x1_0000
    requires |recs| % SIZEOF_FIELD == 0 && SIZEOF_FIELD * n <= |recs|
    requires DecodeFields(sch, fs, recs, n, tag - 1, data).Some?
    ensures var r := DecodeFields(sch, fs, recs, n, tag - 1, data).value;
            r.1 <= |data| && SaysFields(sch, fs, rs, data[..r.1], tag - 1, r.0)
    decreases |data|, 5, |rs|, 0
  {
    hide SaysDatum, Counted, Ahead, DecodeFields;
    FieldFound(fs, tag);
    assert rs == [rs[0]] + rs[1..];
    InlineBack(sch, fs, recs, n, tag, rs[0], rs[1..], data);
    SizeAhead(recs, n + 1, rs[1..]);
    FieldsRead(sch, fs, rs[1..], data, tag, recs, n + 1);
    var r2 := DecodeFields(sch, fs, recs, n + 1, tag, data).value;
    var r := DecodeFields(sch, fs, recs, n, tag - 1, data).value;
    if HasTag(fs, tag) {
      assert r.0[1..] == r2.0;
    } else {
      assert r.0 == r2.0;
    }
  }

  lemma SizeAhead(recs: seq<Byte>, n: nat, rs: seq<nat>)
    requires Ahead(recs, n, rs)
    ensures |recs| % SIZEOF_FIELD == 0 && SIZEOF_FIELD * n <= |recs|
  {
  }

  lemma {:induction false} DatumRead(sch: Schema, fs: seq<Field>, rs: seq<nat>, data: seq<Byte>, tag: nat,
      recs: seq<Byte>, n: nat)
    requires rs != [] && rs[0] == 0
    requires Ahead(recs, n, rs) && forall j :: 0 <= j < |rs| ==> rs[j] < 0x1_0000
    requires |recs| % SIZEOF_FIELD == 0 && SIZEOF_FIELD * n <= |recs|
    requires DecodeFields(sch, fs, recs, n, tag - 1, data).Some?
    ensures var r := DecodeFields(sch, fs, recs, n, tag - 1, data).value;
            r.1 <= |data| && SaysFields(sch, fs, rs, data[..r.1], tag - 1, r.0)
    decreases |data|, 5, |rs|, 0
  {
    hide SaysFields, SaysValue, Counted, Ahead, DecodeFields, DecodeData, Sized, LE;
    DatumHeld(sch, fs, recs, n, tag - 1, rs, data);
    CountedSplit(data);
    var size := FromLE(data[..4]);
    var b, more := data[4..4 + size], data[4 + size..];
    CountedIs(b);
    assert rs == [0] + rs[1..];
    DataBack(sch, fs, recs, n, tag, b, rs[1..], more);
    SizeAhead(recs, n + 1, rs[1..]);
    FieldFound(fs, tag);
    FieldsRead(sch, fs, rs[1..], more, tag, recs, n + 1);
    var r2 := DecodeFields(sch, fs, recs, n + 1, tag, more).value;
    var r := DecodeFields(sch, fs, recs, n, tag - 1, data).value;
    var rest := more[..r2.1];
    if HasTag(fs, tag) {
      ValueRead(sch, FieldOf(fs, tag), b);
      var v := DecodeData(sch, FieldOf(fs, tag), b).value;
      if SaysValue(sch, FieldOf(fs, tag), b, Array([])) { ValueSaid(sch, FieldOf(fs, tag), b, Array([])); }
      if v != Array([]) { assert r.0[1..] == r2.0; } else { assert r.0 == r2.0; }
    } else {
      assert r.0 == r2.0;
    }
    assert data[..r.1] == Counted(b) + rest;
    DatumOf(sch, fs, rs, b, rest, tag, r.0);
  }

  lemma DatumOf(sch: Schema, fs: seq<Field>, rs: seq<nat>, b: seq<Byte>, rest: seq<Byte>, tag: nat, es: seq<Entry>)
    requires rs != [] && rs[0] == 0 && |b| < TWO32 && SaysDatum(sch, fs, rs[1..], b, rest, tag, es)
    ensures SaysFields(sch, fs, rs, Counted(b) + rest, tag - 1, es)
  {
    hide SaysDatum;
  }

  /** A record that is 0 has its bytes in the data. */
  lemma DatumHeld(sch: Schema, fs: seq<Field>, recs: seq<Byte>, n: nat, last: int, rs: seq<nat>, data: seq<Byte>)
    requires last >= -1 && rs != [] && rs[0] == 0 && Ahead(recs, n, rs)
    requires |recs| % SIZEOF_FIELD == 0 && SIZEOF_FIELD * n <= |recs|
    requires DecodeFields(sch, fs, recs, n, last, data).Some?
    ensures |data| >= 4 && FromLE(data[..4]) <= |data| - 4
  {
    hide DecodeData, FromLE, Record;
    AheadStep(recs, n, rs);
  }

  function NumbersOf(recs: seq<Byte>): seq<nat> {
    if |recs| < 2 then [] else [FromLE(recs[..2])] + NumbersOf(recs[2..])
  }

  lemma {:induction false} NumbersSay(recs: seq<Byte>)
    requires |recs| % 2 == 0
    ensures var rs := NumbersOf(recs);
            RecordBytes(rs) == recs && forall j :: 0 <= j < |rs| ==> rs[j] < 0x1_0000
    decreases |recs|
  {
    hide FromLE, LE, U16;
    if recs != [] {
      NumbersSay(recs[2..]);
      Words(recs[..2]);
      LE2(FromLE(recs[..2]));
      var rs := NumbersOf(recs);
      assert rs[1..] == NumbersOf(recs[2..]);
      assert recs == recs[..2] + recs[2..];
    }
  }

  lemma {:induction false} ObjectRead(sch: Schema, id: nat, s: seq<Byte>)
    requires DecodeObject(sch, id, s).Some?
    ensures var r := DecodeObject(sch, id, s).value; r.1 <= |s| && Says(sch, id, s[..r.1], r.0)
    decreases |s|, 2, 0
  {
    hide Says, SaysFields, DecodeFields, RecordBytes, FromLE, U16, LE, WordsWire, Ahead, NumbersOf;
    var r := DecodeObject(sch, id, s).value;
    var n := FromLE(s[..2]);
    var recs, data := s[2..2 + 2 * n], s[2 + 2 * n..];
    NumbersSay(recs);
    var rs := NumbersOf(recs);
    StartAhead(rs);
    FieldsRead(sch, FieldsOf(sch, id), rs, data, -1, recs, 0);
    var used := DecodeFields(sch, FieldsOf(sch, id), recs, 0, -1, data).value.1;
    Words(s[..2]);
    WordsAre(rs);
    assert s[..r.1] == s[..2] + recs + data[..used];
    SaysOf(sch, id, rs, data[..used], r.0);
  }

  lemma SaysOf(sch: Schema, id: nat, rs: seq<nat>, data: seq<Byte>, o: Value)
    requires o.Obj? && |rs| < 0x1_0000 && (forall j :: 0 <= j < |rs| ==> rs[j] < 0x1_0000)
    requires SaysFields(sch, FieldsOf(sch, id), rs, data, -1, o.entries)
    ensures Says(sch, id, U16(|rs|) + WordsWire(rs) + data, o)
  {
    hide SaysFields, WordsWire;
    var s := U16(|rs|) + WordsWire(rs) + data;
    assert |data| < |s|;
  }

  /**
    The decoder returns an object and a length exactly when the bytes of that length are a message that
    says the object, for all bytes, whoever wrote them; it fails on all others.
   */
  lemma DecodeExactly(sch: Schema, id: nat, s: seq<Byte>, o: Value, n: nat)
    ensures DecodeObject(sch, id, s) == Some((o, n)) <==> n <= |s| && Says(sch, id, s[..n], o)
  {
    hide Says, DecodeObject;
    if DecodeObject(sch, id, s).Some? { ObjectRead(sch, id, s); }
    if n <= |s| && Says(sch, id, s[..n], o) {
      ObjectSaid(sch, id, s[..n], o, s[n..]);
      assert s[..n] + s[n..] == s;
    }
  }

  /** No message is the front of another, so that a message that was cut off is refused. */
  lemma CutOff(sch: Schema, id: nat, s: seq<Byte>, o: Value, n: nat)
    requires Says(sch, id, s, o) && n < |s|
    ensures DecodeObject(sch, id, s[..n]).None?
  {
    hide Says, DecodeObject;
    if DecodeObject(sch, id, s[..n]).Some? {
      ObjectRead(sch, id, s[..n]);
      var r := DecodeObject(sch, id, s[..n]).value;
      assert s[..n][..r.1] + s[r.1..] == s && s + [] == s;
      ObjectSaid(sch, id, s[..n][..r.1], r.0, s[r.1..]);
      ObjectSaid(sch, id, s, o, []);
    }
  }
}
