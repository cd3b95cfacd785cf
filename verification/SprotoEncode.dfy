/**
  Encoding objects into a buffer in place: arrays, nested objects, and the header that is
  squeezed against its data when all fields are there; and exactly how much room that takes.
 */
module SprotoEncode {
  import opened ByteType
  import opened SprotoWire
  import opened SprotoRoundTrip
  import opened SprotoBuffer

  // ---- values that callbacks accept ----

  /** v is what the callbacks accept for field f; an array may be empty. */
  predicate ValueSuits(sch: Schema, f: Field, v: Value)
    decreases v, 2
  {
    if f.isArray then v.Array? && forall i :: 0 <= i < |v.items| ==> ItemSuits(sch, f.kind, v.items[i])
    else ItemSuits(sch, f.kind, v)
  }

  predicate ItemSuits(sch: Schema, kind: Kind, v: Value)
    decreases v, 1
  {
    match kind
    case TInteger => v.Int? && IntFits(v.v)
    case TBoolean => v.Bool?
    case TString => v.Str?
    case TStruct(id) => v.Obj? && ObjectSuits(sch, id, v)
  }

  /** Every field of the type that o has is one that the callbacks accept. */
  predicate ObjectSuits(sch: Schema, id: nat, o: Value)
    requires o.Obj?
    decreases o, 0
  {
    forall i :: 0 <= i < |FieldsOf(sch, id)| ==>
      var k := IndexOf(o.entries, FieldsOf(sch, id)[i].tag);
      k < |o.entries| ==> ValueSuits(sch, FieldsOf(sch, id)[i], o.entries[k].value)
  }

  // ---- how much room the encoders ask for ----

  function Most(a: int, b: int): int {
    if a > b then a else b
  }

  /** The value of a field, when o has one. */
  function ValueOf(o: Value, f: Field): (v: Option<Value>)
    requires o.Obj?
    ensures v.Some? ==> v.value < o
  {
    var k := IndexOf(o.entries, f.tag);
    if k < |o.entries| then Some(o.entries[k].value) else None
  }

  /** What a field contributes. */
  function FieldOut(sch: Schema, f: Field, o: Value): Out
    requires o.Obj?
  {
    if ValueOf(o, f).Some? then EncodeValue(sch, f, ValueOf(o, f).value) else Omitted
  }

  function DataSize(out: Out): nat {
    if out.Data? then |out.bytes| else 0
  }

  function IntsOf(items: seq<Value>): (vs: seq<int>)
    ensures |vs| == |items| && forall i :: 0 <= i < |vs| ==> vs[i] == if items[i].Int? then items[i].v else 0
  {
    seq(|items|, i requires 0 <= i < |items| => if items[i].Int? then items[i].v else 0)
  }

  /** A string or nested object, behind the word for its length. */
  function NeedBody(sch: Schema, kind: Kind, v: Value): int
    decreases v, 2, 0
  {
    match v
    case Str(s) => |s|
    case Obj(_) => NeedObject(sch, if kind.TStruct? then kind.id else 0, v)
    case _ => 0
  }

  /** The strings or objects of an array from the i-th on, and the callback that ends the array. */
  function NeedBodies(sch: Schema, kind: Kind, v: Value, i: nat): int
    requires v.Array? && i <= |v.items|
    decreases v, 2, |v.items| - i
  {
    if i == |v.items| then SIZEOF_LENGTH
    else
      Most(SIZEOF_LENGTH + NeedBody(sch, kind, v.items[i]),
           SIZEOF_LENGTH + |Body(sch, kind, v.items[i])| + NeedBodies(sch, kind, v, i + 1))
  }

  function NeedArray(sch: Schema, kind: Kind, v: Value): int
    requires v.Array?
    decreases v, 3, 0
  {
    SIZEOF_LENGTH +
      match kind
      case TInteger => IntsNeed(IntsOf(v.items))
      case TBoolean => |v.items|
      case _ => NeedBodies(sch, kind, v, 0)
  }

  /** The room for a field that is there. */
  function NeedValue(sch: Schema, f: Field, v: Value): int
    decreases v, 4, 0
  {
    if v.Array? then NeedArray(sch, f.kind, v)
    else
      match v
      case Int(n) => if 0 <= n < 0x7fff then 0 else SIZEOF_LENGTH + if IsNarrow(n) then 4 else 8
      case Bool(_) => 0
      case _ => SIZEOF_LENGTH + NeedBody(sch, f.kind, v)
  }

  /** The room for a field that is not there: the encoders ask for some before they call back. */
  function NeedNothing(f: Field): int {
    if f.isArray then SIZEOF_LENGTH + (if f.kind.TInteger? then 1 else if f.kind.TBoolean? then 0 else SIZEOF_LENGTH)
    else if f.kind.TString? || f.kind.TStruct? then SIZEOF_LENGTH
    else 0
  }

  function NeedField(sch: Schema, f: Field, o: Value): int
    requires o.Obj?
    decreases o, 0, 0
  {
    if ValueOf(o, f).Some? then NeedValue(sch, f, ValueOf(o, f).value) else NeedNothing(f)
  }

  /** The fields fs of o, one behind the other. */
  function NeedFields(sch: Schema, fs: seq<Field>, o: Value): int
    requires o.Obj?
    decreases o, 0, |fs| + 1
  {
    if fs == [] then 0
    else Most(NeedField(sch, fs[0], o), DataSize(FieldOut(sch, fs[0], o)) + NeedFields(sch, fs[1..], o))
  }

  function HeaderSize(sch: Schema, id: nat): nat {
    SIZEOF_HEADER + SIZEOF_FIELD * MaxRecords(FieldsOf(sch, id), -1)
  }

  /** The smallest buffer that sproto_encode accepts for o. */
  function NeedObject(sch: Schema, id: nat, o: Value): int
    requires o.Obj?
    decreases o, 1, 0
  {
    HeaderSize(sch, id) + NeedFields(sch, FieldsOf(sch, id), o)
  }

  // ---- writing ----

  /** Outside the given part the array is what it was. */
  ghost predicate Untouched(was: seq<Byte>, s: seq<Byte>, from: int, to: int) {
    |s| == |was| && forall k :: 0 <= k < |s| && (k < from || to <= k) ==> s[k] == was[k]
  }

  lemma UntouchedMore(was: seq<Byte>, s: seq<Byte>, t: seq<Byte>, from: int, to: int, from2: int, to2: int)
    requires Untouched(was, s, from, to) && Untouched(s, t, from2, to2) && from <= from2 && to2 <= to
    ensures Untouched(was, t, from, to)
  {
  }

  /** A write changes what it writes. */
  lemma Written(was: seq<Byte>, s: seq<Byte>, off: nat, f: seq<Byte>)
    requires off + |f| <= |was| && s == was[..off] + f + was[off + |f|..]
    ensures Untouched(was, s, off, off + |f|) && s[off..off + |f|] == f
  {
  }

  /** fill_size: the length in front of the bytes that stand behind it. */
  method FillSize(a: array<Byte>, off: nat, n: nat, ghost f: seq<Byte>) returns (r: nat)
    requires off + SIZEOF_LENGTH + n <= a.Length && |f| == n && a[off + SIZEOF_LENGTH..off + SIZEOF_LENGTH + n] == f
    modifies a
    ensures r == |Sized(f)| && off + r <= a.Length && a[off..off + r] == Sized(f)
            && Untouched(old(a[..]), a[..], off, off + SIZEOF_LENGTH)
  {
    hide LE;
    ghost var was := a[..];
    WriteBytes(a, off, LE(n, SIZEOF_LENGTH));
    Written(was, a[..], off, LE(n, SIZEOF_LENGTH));
    r := SIZEOF_LENGTH + n;
    Headed(was, a[..], off, off + SIZEOF_LENGTH, LE(n, SIZEOF_LENGTH), f);
  }

  /** The bytes g were written in front of the bytes f. */
  lemma Headed(was: seq<Byte>, s: seq<Byte>, x: nat, y: nat, g: seq<Byte>, f: seq<Byte>)
    requires x <= y <= y + |f| <= |s| && Untouched(was, s, x, y) && s[x..y] == g && was[y..y + |f|] == f
    ensures s[x..y + |f|] == g + f
  {
    var t := s[x..y + |f|];
    assert |t| == |g + f|;
    forall k | 0 <= k < |t| ensures t[k] == (g + f)[k] {
      if k < y - x {
        assert s[x + k] == s[x..y][k];
      } else {
        assert s[x + k] == was[x + k] == was[y..y + |f|][x + k - y];
      }
    }
  }

  /** The callback on a string or a nested object, in the bytes from off on; -1 when they are too few. */
  method BodyInto(sch: Schema, kind: Kind, v: Value, a: array<Byte>, off: nat, room: int) returns (r: int)
    requires WellFormed(sch) && !kind.TInteger? && !kind.TBoolean? && ItemSuits(sch, kind, v) && off + room <= a.Length
    modifies a
    ensures r < 0 <==> room < NeedBody(sch, kind, v)
    ensures r >= 0 ==> r == |Body(sch, kind, v)| <= room && a[off..off + r] == Body(sch, kind, v)
    ensures Untouched(old(a[..]), a[..], off, off + room)
    decreases v, 2, 0
  {
    match kind {
      case TString =>
        if |v.s| > room { return -1; }
        ghost var was := a[..];
        WriteBytes(a, off, v.s);
        Written(was, a[..], off, v.s);
        r := |v.s|;
      case TStruct(id) =>
        r := ObjectInto(sch, id, v, a, off, room);
        BodyIsObject(sch, id, v);
    }
  }

  lemma BodyIsObject(sch: Schema, id: nat, v: Value)
    requires v.Obj?
    ensures Body(sch, TStruct(id), v) == EncodeObject(sch, id, v)
            && NeedBody(sch, TStruct(id), v) == NeedObject(sch, id, v)
  {
    hide EncodeObject, NeedObject;
  }

  // ---- arrays ----

  /** The bytes of the booleans before the i-th. */
  lemma BoolNext(items: seq<Value>, i: nat)
    requires i < |items| && items[i].Bool?
    ensures Elements(items[..i + 1], 1) == Elements(items[..i], 1) + [if items[i].b then 1 else 0]
  {
    ElementsJoin(items[..i], [items[i]], 1);
    assert items[..i + 1] == items[..i] + [items[i]];
    assert [items[i]][1..] == [];
    assert Elements([items[i]], 1) == [if items[i].b then 1 else 0] + Elements([], 1);
  }

  lemma {:induction false} BoolsLength(items: seq<Value>)
    requires forall i :: 0 <= i < |items| ==> items[i].Bool?
    ensures |Elements(items, 1)| == |items|
    decreases |items|
  {
    if items != [] { BoolsLength(items[1..]); }
  }

  /** The loop of encode_array over booleans, one byte each. */
  method BoolsInto(items: seq<Value>, a: array<Byte>, off: nat, room: int) returns (r: int)
    requires (forall i :: 0 <= i < |items| ==> items[i].Bool?) && off + room <= a.Length && 0 <= room
    modifies a
    ensures r < 0 <==> room < |items|
    ensures r >= 0 ==> r == |Elements(items, 1)| == |items| && a[off..off + r] == Elements(items, 1)
    ensures Untouched(old(a[..]), a[..], off, off + room)
  {
    hide Elements;
    var i := 0;
    NoElements(1);
    assert items[..0] == [];
    while i < |items|
      invariant 0 <= i <= |items| && i <= room && a[off..off + i] == Elements(items[..i], 1)
      invariant Untouched(old(a[..]), a[..], off, off + room)
    {
      if room - i < 1 { return -1; }
      ghost var before := a[..];
      BoolNext(items, i);
      a[off + i] := if items[i].b then 1 else 0;
      assert a[off..off + i] == before[off..off + i];
      assert a[off..off + i + 1] == a[off..off + i] + [a[off + i]];
      i := i + 1;
    }
    assert items[..|items|] == items;
    BoolsLength(items);
    r := i;
  }

  /** The bytes of the strings or objects before the i-th. */
  ghost predicate BodiesDone(sch: Schema, kind: Kind, v: Value, i: nat, done: seq<Byte>)
    requires v.Array?
  {
    i <= |v.items| && Bodies(sch, kind, v, 0) == done + Bodies(sch, kind, v, i)
  }

  lemma BodiesNext(sch: Schema, kind: Kind, v: Value, i: nat, done: seq<Byte>)
    requires v.Array? && i < |v.items| && BodiesDone(sch, kind, v, i, done)
    ensures BodiesDone(sch, kind, v, i + 1, done + Sized(Body(sch, kind, v.items[i])))
  {
    hide Body, Sized;
    var one, rest := Sized(Body(sch, kind, v.items[i])), Bodies(sch, kind, v, i + 1);
    assert Bodies(sch, kind, v, i) == one + rest;
    assert done + (one + rest) == (done + one) + rest;
  }

  lemma SameUntouched(s: seq<Byte>, from: int, to: int)
    ensures Untouched(s, s, from, to)
  {
  }

  lemma StartBodies(sch: Schema, kind: Kind, v: Value)
    requires v.Array?
    ensures BodiesDone(sch, kind, v, 0, [])
  {
    hide Bodies;
    assert [] + Bodies(sch, kind, v, 0) == Bodies(sch, kind, v, 0);
  }

  lemma AllBodies(sch: Schema, kind: Kind, v: Value, done: seq<Byte>)
    requires v.Array? && BodiesDone(sch, kind, v, |v.items|, done)
    ensures done == Bodies(sch, kind, v, 0)
  {
    assert Bodies(sch, kind, v, |v.items|) == [];
  }

  lemma NeedNext(sch: Schema, kind: Kind, v: Value, i: nat)
    requires v.Array? && i <= |v.items|
    ensures NeedBodies(sch, kind, v, i) >= SIZEOF_LENGTH
    ensures i == |v.items| ==> NeedBodies(sch, kind, v, i) == SIZEOF_LENGTH
    ensures i < |v.items| ==> var n := SIZEOF_LENGTH + |Body(sch, kind, v.items[i])|;
            NeedBodies(sch, kind, v, i) ==
              Most(SIZEOF_LENGTH + NeedBody(sch, kind, v.items[i]), n + NeedBodies(sch, kind, v, i + 1))
    decreases |v.items| - i
  {
    hide Body, NeedBody;
    if i < |v.items| { NeedNext(sch, kind, v, i + 1); }
  }

  /** What stands in front of bytes that change stays, and they stand behind it. */
  lemma Extended(s: seq<Byte>, t: seq<Byte>, off: nat, n: nat, done: seq<Byte>, more: seq<Byte>, to: int)
    requires off + n + |more| <= |t| && Untouched(s, t, off + n, to) && s[off..off + n] == done
             && t[off + n..off + n + |more|] == more
    ensures t[off..off + n + |more|] == done + more
  {
    assert t[off..off + n] == s[off..off + n];
    assert t[off..off + n + |more|] == t[off..off + n] + t[off + n..off + n + |more|];
  }

  /** One string or object of an array, with its length, behind the n bytes `done`. */
  method BodyAt(sch: Schema, kind: Kind, v: Value, a: array<Byte>, off: nat, n: nat, room: int, ghost done: seq<Byte>)
      returns (r: int)
    requires WellFormed(sch) && !kind.TInteger? && !kind.TBoolean? && ItemSuits(sch, kind, v)
    requires off + room <= a.Length && n + SIZEOF_LENGTH <= room && a[off..off + n] == done
    modifies a
    ensures r < 0 <==> room - n < SIZEOF_LENGTH + NeedBody(sch, kind, v)
    ensures r >= 0 ==>
            r == |Sized(Body(sch, kind, v))| && n + r <= room
            && a[off..off + n + r] == done + Sized(Body(sch, kind, v))
    ensures Untouched(old(a[..]), a[..], off, off + room)
    decreases v, 3, 0
  {
    hide Body, NeedBody, ItemSuits, Sized, Untouched;
    ghost var s := a[..];
    var p := off + n;
    r := BodyInto(sch, kind, v, a, p + SIZEOF_LENGTH, room - n - SIZEOF_LENGTH);
    ghost var t := a[..];
    UntouchedMore(s, s, t, off, off + room, p + SIZEOF_LENGTH, off + room) by { SameUntouched(s, off, off + room); }
    UntouchedMore(s, s, t, p, off + room, p + SIZEOF_LENGTH, off + room) by { SameUntouched(s, p, off + room); }
    if r >= 0 {
      r := FillSize(a, p, r, Body(sch, kind, v));
      UntouchedMore(s, t, a[..], off, off + room, p, p + SIZEOF_LENGTH);
      UntouchedMore(s, t, a[..], p, off + room, p, p + SIZEOF_LENGTH);
      Extended(s, a[..], off, n, done, Sized(Body(sch, kind, v)), off + room);
    }
  }

  /** The loop of encode_array over strings or objects. */
  method BodiesInto(sch: Schema, kind: Kind, v: Value, a: array<Byte>, off: nat, room: int) returns (r: int)
    requires WellFormed(sch) && !kind.TInteger? && !kind.TBoolean? && v.Array?
             && (forall i :: 0 <= i < |v.items| ==> ItemSuits(sch, kind, v.items[i]))
    requires off + room <= a.Length && 0 <= room
    modifies a
    ensures r < 0 <==> room < NeedBodies(sch, kind, v, 0)
    ensures r >= 0 ==> r == |Bodies(sch, kind, v, 0)| <= room && a[off..off + r] == Bodies(sch, kind, v, 0)
    ensures Untouched(old(a[..]), a[..], off, off + room)
    decreases v, 2, 0
  {
    hide Body, NeedBody, ItemSuits, Bodies, NeedBodies, Sized, Untouched, BodiesDone;
    var i: nat, n: nat := 0, 0;
    ghost var done: seq<Byte> := [];
    ghost var was := a[..];
    StartBodies(sch, kind, v);
    SameUntouched(was, off, off + room);
    while true
      invariant 0 <= i <= |v.items| && n == |done| <= room && BodiesDone(sch, kind, v, i, done)
                && a[off..off + n] == done
      invariant room < NeedBodies(sch, kind, v, 0) <==> room - n < NeedBodies(sch, kind, v, i)
      invariant Untouched(was, a[..], off, off + room)
      decreases |v.items| - i
    {
      NeedNext(sch, kind, v, i);
      if room - n < SIZEOF_LENGTH { return -1; }
      if i == |v.items| { break; }
      ghost var s := a[..];
      r := BodyAt(sch, kind, v.items[i], a, off, n, room, done);
      UntouchedMore(was, s, a[..], off, off + room, off, off + room);
      if r < 0 { return; }
      BodiesNext(sch, kind, v, i, done);
      done := done + Sized(Body(sch, kind, v.items[i]));
      n := n + r;
      i := i + 1;
    }
    AllBodies(sch, kind, v, done);
    r := n;
  }

  lemma IntsAre(items: seq<Value>)
    requires forall i :: 0 <= i < |items| ==> items[i].Int?
    ensures Ints(IntsOf(items)) == items
  {
  }

  lemma {:induction false} ElementsLength(items: seq<Value>, w: nat)
    requires forall i :: 0 <= i < |items| ==> items[i].Int?
    ensures |Elements(items, w)| == w * |items|
    decreases |items|
  {
    if items != [] {
      ElementsLength(items[1..], w);
      TimesNext(w, |items|);
    }
  }

  /** The bytes behind an array's length. */
  function ArrayBytes(sch: Schema, kind: Kind, v: Value): seq<Byte>
    requires v.Array?
  {
    match kind
    case TInteger => if v.items == [] then [] else [Width(v.items) as Byte] + Elements(v.items, Width(v.items))
    case TBoolean => Elements(v.items, 1)
    case _ => Bodies(sch, kind, v, 0)
  }

  lemma ArrayOut(sch: Schema, kind: Kind, v: Value)
    requires v.Array? && forall i :: 0 <= i < |v.items| ==> ItemSuits(sch, kind, v.items[i])
    ensures EncodeArray(sch, kind, v) == if v.items == [] then Omitted else Data(Sized(ArrayBytes(sch, kind, v)))
    ensures ArrayBytes(sch, kind, v) == [] <==> v.items == []
  {
    hide Elements, Bodies, Sized, ItemSuits;
    if v.items != [] {
      if kind.TBoolean? {
        BoolItems(sch, v);
        BoolsLength(v.items);
      } else if !kind.TInteger? {
        BodiesLong(sch, kind, v);
      }
    } else {
      NoElements(1);
      NoBodies(sch, kind, v);
    }
  }

  lemma BoolItems(sch: Schema, v: Value)
    requires v.Array? && forall i :: 0 <= i < |v.items| ==> ItemSuits(sch, TBoolean, v.items[i])
    ensures forall i :: 0 <= i < |v.items| ==> v.items[i].Bool?
  {
  }

  lemma IntItems(sch: Schema, v: Value)
    requires v.Array? && forall i :: 0 <= i < |v.items| ==> ItemSuits(sch, TInteger, v.items[i])
    ensures forall i :: 0 <= i < |v.items| ==> v.items[i].Int? && IntFits(v.items[i].v)
  {
  }

  lemma BodiesLong(sch: Schema, kind: Kind, v: Value)
    requires v.Array? && v.items != []
    ensures Bodies(sch, kind, v, 0) != []
  {
    hide Body;
  }

  lemma NoBodies(sch: Schema, kind: Kind, v: Value)
    requires v.Array? && v.items == []
    ensures Bodies(sch, kind, v, 0) == []
  {
  }

  /** encode_array: 0 for an empty array, -1 when the room does not suffice. */
  method ArrayInto(sch: Schema, kind: Kind, v: Value, a: array<Byte>, off: nat, room: int) returns (r: int)
    requires WellFormed(sch) && v.Array? && (forall i :: 0 <= i < |v.items| ==> ItemSuits(sch, kind, v.items[i]))
             && off + room <= a.Length
    modifies a
    ensures r < 0 <==> room < NeedArray(sch, kind, v)
    ensures r >= 0 ==> r == DataSize(EncodeArray(sch, kind, v)) <= Most(room, 0) && (r == 0 <==> v.items == [])
    ensures r > 0 ==> EncodeArray(sch, kind, v) == Data(a[off..off + r])
    ensures Untouched(old(a[..]), a[..], off, off + room)
    decreases v, 3, 0
  {
    hide ItemSuits, Sized, ArrayBytes, EncodeArray, Untouched, NeedBodies, IntsNeed, Bodies, Elements, Width;
    ArrayOut(sch, kind, v);
    NeedArrayAtLeast(sch, kind, v);
    ghost var s := a[..];
    SameUntouched(s, off, off + room);
    if room < SIZEOF_LENGTH { return -1; }
    var p, size := off + SIZEOF_LENGTH, room - SIZEOF_LENGTH;
    r := ArrayBody(sch, kind, v, a, p, size);
    ghost var t := a[..];
    UntouchedMore(s, s, t, off, off + room, p, off + room);
    if r > 0 {
      r := FillSize(a, off, r, ArrayBytes(sch, kind, v));
      UntouchedMore(s, t, a[..], off, off + room, off, p);
    }
  }

  lemma NeedArrayAtLeast(sch: Schema, kind: Kind, v: Value)
    requires v.Array?
    ensures NeedArray(sch, kind, v) == SIZEOF_LENGTH + ArrayNeed(sch, kind, v) && ArrayNeed(sch, kind, v) >= 0
  {
    hide Width, NeedBodies;
    NeedNext(sch, kind, v, 0);
  }

  function ArrayNeed(sch: Schema, kind: Kind, v: Value): int
    requires v.Array?
  {
    match kind
    case TInteger => IntsNeed(IntsOf(v.items))
    case TBoolean => |v.items|
    case _ => NeedBodies(sch, kind, v, 0)
  }

  /** The part of encode_array behind the length. */
  method ArrayBody(sch: Schema, kind: Kind, v: Value, a: array<Byte>, p: nat, size: int) returns (r: int)
    requires WellFormed(sch) && v.Array? && (forall i :: 0 <= i < |v.items| ==> ItemSuits(sch, kind, v.items[i]))
             && p + size <= a.Length && 0 <= size
    modifies a
    ensures r < 0 <==> size < ArrayNeed(sch, kind, v)
    ensures r >= 0 ==> r == |ArrayBytes(sch, kind, v)| <= size && a[p..p + r] == ArrayBytes(sch, kind, v)
    ensures Untouched(old(a[..]), a[..], p, p + size)
    decreases v, 2, 1
  {
    hide ItemSuits, NeedBodies, Bodies, Elements, Width;
    match kind {
      case TInteger =>
        IntItems(sch, v);
        IntsAre(v.items);
        r := EncodeIntegers(IntsOf(v.items), a, p, size);
        if r >= 0 {
          r := r - p;
          if v.items != [] { ElementsLength(v.items, Width(v.items)); }
        }
      case TBoolean =>
        BoolItems(sch, v);
        r := BoolsInto(v.items, a, p, size);
      case TString => r := BodiesInto(sch, kind, v, a, p, size);
      case TStruct(_) => r := BodiesInto(sch, kind, v, a, p, size);
    }
  }

  // ---- one field ----

  /** What an encoder returned for a field: nothing, a value for the record, or sz bytes at word d. */
  ghost predicate Contributes(out: Out, s: seq<Byte>, d: nat, sz: int, value: nat) {
    match out
    case Omitted => sz == 0 && value == 0
    case Inline(word) => sz > 0 && value == word && value != 0
    case Data(bytes) => value == 0 && sz == |bytes| > 0 && d + sz <= |s| && s[d..d + sz] == bytes
  }

  /** encode_integer and encode_uint64 */
  method IntInto(n: int, w: nat, a: array<Byte>, d: nat, avail: int) returns (r: int)
    requires d + avail <= a.Length
    modifies a
    ensures r < 0 <==> avail < SIZEOF_LENGTH + w
    ensures r >= 0 ==> r == SIZEOF_LENGTH + w == |Sized(IntBytes(n, w))| && a[d..d + r] == Sized(IntBytes(n, w))
    ensures Untouched(old(a[..]), a[..], d, d + avail)
  {
    hide Sized, IntBytes;
    if avail < SIZEOF_LENGTH + w { return -1; }
    ghost var s := a[..];
    WriteBytes(a, d + SIZEOF_LENGTH, IntBytes(n, w));
    Written(s, a[..], d + SIZEOF_LENGTH, IntBytes(n, w));
    r := FillSize(a, d, w, IntBytes(n, w));
  }

  /** encode_object, for a value or for none */
  method StringInto(sch: Schema, kind: Kind, v: Option<Value>, a: array<Byte>, d: nat, avail: int, ghost o: Value)
      returns (r: int)
    requires v.Some? ==> v.value < o
    requires WellFormed(sch) && (kind.TString? || kind.TStruct?) && (v.Some? ==> ItemSuits(sch, kind, v.value))
             && d + avail <= a.Length
    modifies a
    ensures r < 0 <==> avail < SIZEOF_LENGTH + if v.Some? then NeedBody(sch, kind, v.value) else 0
    ensures r >= 0 && v.None? ==> r == 0
    ensures r >= 0 && v.Some? ==>
            r == |Sized(Body(sch, kind, v.value))| <= avail && a[d..d + r] == Sized(Body(sch, kind, v.value))
    ensures Untouched(old(a[..]), a[..], d, d + avail)
    decreases o, 0, 0
  {
    hide ItemSuits, Sized, NeedBody, Body, Untouched;
    ghost var s := a[..];
    SameUntouched(s, d, d + avail);
    if v.Some? { NeedSome(sch, kind, v.value); }
    if avail < SIZEOF_LENGTH { return -1; }
    if v.None? { return 0; }
    r := BodyInto(sch, kind, v.value, a, d + SIZEOF_LENGTH, avail - SIZEOF_LENGTH);
    ghost var t := a[..];
    UntouchedMore(s, s, t, d, d + avail, d + SIZEOF_LENGTH, d + avail);
    if r >= 0 {
      r := FillSize(a, d, r, Body(sch, kind, v.value));
      UntouchedMore(s, t, a[..], d, d + avail, d, d + SIZEOF_LENGTH);
    }
  }

  lemma {:induction false} NeedFieldsSome(sch: Schema, fs: seq<Field>, o: Value)
    requires o.Obj?
    ensures NeedFields(sch, fs, o) >= 0
    decreases |fs|
  {
    hide NeedField, FieldOut;
    if fs != [] { NeedFieldsSome(sch, fs[1..], o); }
  }

  lemma NeedSome(sch: Schema, kind: Kind, v: Value)
    ensures NeedBody(sch, kind, v) >= 0
  {
    if v.Obj? {
      var id := if kind.TStruct? then kind.id else 0;
      NeedFieldsSome(sch, FieldsOf(sch, id), v);
    }
  }

  lemma SuitsArray(sch: Schema, f: Field, v: Value)
    requires ValueSuits(sch, f, v)
    ensures f.isArray ==> v.Array? && forall i :: 0 <= i < |v.items| ==> ItemSuits(sch, f.kind, v.items[i])
    ensures !f.isArray ==> ItemSuits(sch, f.kind, v) && !v.Array?
  {
  }

  lemma FieldIs(sch: Schema, f: Field, o: Value)
    requires o.Obj?
    ensures ValueOf(o, f).None? ==> FieldOut(sch, f, o) == Omitted && NeedField(sch, f, o) == NeedNothing(f)
    ensures ValueOf(o, f).Some? ==> var v := ValueOf(o, f).value;
            FieldOut(sch, f, o) == EncodeValue(sch, f, v) && NeedField(sch, f, o) == NeedValue(sch, f, v)
  {
    hide EncodeValue, NeedValue, NeedNothing;
  }

  lemma ArrayValueIs(sch: Schema, f: Field, v: Value)
    requires v.Array?
    ensures EncodeValue(sch, f, v) == EncodeArray(sch, f.kind, v) && NeedValue(sch, f, v) == NeedArray(sch, f.kind, v)
  {
    hide EncodeArray, NeedArray;
  }

  lemma StringValueIs(sch: Schema, f: Field, v: Value)
    requires v.Str? || v.Obj?
    ensures EncodeValue(sch, f, v) == Data(Sized(Body(sch, f.kind, v)))
            && NeedValue(sch, f, v) == SIZEOF_LENGTH + NeedBody(sch, f.kind, v)
  {
    hide Sized, Body, NeedBody;
  }

  /** One turn of sproto_encode's loop up to the records. */
  method FieldInto(sch: Schema, f: Field, o: Value, a: array<Byte>, d: nat, avail: int) returns (sz: int, value: nat)
    requires WellFormed(sch) && o.Obj? && (ValueOf(o, f).Some? ==> ValueSuits(sch, f, ValueOf(o, f).value))
             && d + avail <= a.Length && 0 <= avail
    modifies a
    ensures sz < 0 <==> avail < NeedField(sch, f, o)
    ensures sz >= 0 ==> Contributes(FieldOut(sch, f, o), a[..], d, sz, value) && DataSize(FieldOut(sch, f, o)) <= avail
    ensures Untouched(old(a[..]), a[..], d, d + avail)
    decreases o, 0, 1
  {
    hide ValueSuits, ItemSuits, NeedField, FieldOut, NeedArray, EncodeArray, Sized, Body, NeedBody, IntBytes,
      Untouched, ValueOf;
    var v := ValueOf(o, f);
    value := 0;
    FieldIs(sch, f, o);
    SameUntouched(a[..], d, d + avail);
    Smaller(o, f);
    if v.Some? { SuitsArray(sch, f, v.value); }
    if f.isArray {
      if v.Some? {
        ArrayValueIs(sch, f, v.value);
        sz := ArrayInto(sch, f.kind, v.value, a, d, avail);
        ArrayOut(sch, f.kind, v.value);
      } else {
        sz := NoArrayInto(f, avail);
      }
    } else if f.kind.TInteger? || f.kind.TBoolean? {
      sz, value := NumberInto(sch, f, v, a, d, avail);
    } else {
      if v.Some? { StringKind(sch, f.kind, v.value); StringValueIs(sch, f, v.value); }
      sz := StringInto(sch, f.kind, v, a, d, avail, o);
    }
  }

  lemma StringKind(sch: Schema, kind: Kind, v: Value)
    requires ItemSuits(sch, kind, v) && !kind.TInteger? && !kind.TBoolean?
    ensures (kind.TString? || kind.TStruct?) && (v.Str? || v.Obj?)
  {
  }

  lemma Smaller(o: Value, f: Field)
    requires o.Obj?
    ensures ValueOf(o, f).Some? ==> ValueOf(o, f).value < o
  {
  }

  /** encode_array where the object has no such array: it ends before its first element. */
  method NoArrayInto(f: Field, avail: int) returns (sz: int)
    requires f.isArray
    ensures sz < 0 <==> avail < NeedNothing(f)
    ensures sz >= 0 ==> sz == 0
  {
    if avail < SIZEOF_LENGTH { return -1; }
    var size := avail - SIZEOF_LENGTH;
    match f.kind {
      case TInteger => if size < 1 { return -1; }
      case TBoolean =>
      case TString => if size < SIZEOF_LENGTH { return -1; }
      case TStruct(_) => if size < SIZEOF_LENGTH { return -1; }
    }
    return 0;
  }

  /** An integer or a boolean; a small one goes into its record. */
  method NumberInto(sch: Schema, f: Field, v: Option<Value>, a: array<Byte>, d: nat, avail: int) returns (sz: int,
      value: nat)
    requires !f.isArray && (f.kind.TInteger? || f.kind.TBoolean?) && (v.Some? ==> ItemSuits(sch, f.kind, v.value))
             && d + avail <= a.Length && 0 <= avail
    modifies a
    ensures v.None? ==> sz == 0 && value == 0
    ensures v.Some? ==> (sz < 0 <==> avail < NeedValue(sch, f, v.value))
    ensures v.Some? && sz >= 0 ==>
            Contributes(EncodeValue(sch, f, v.value), a[..], d, sz, value)
            && DataSize(EncodeValue(sch, f, v.value)) <= avail
    ensures Untouched(old(a[..]), a[..], d, d + avail)
  {
    hide Sized, IntBytes, Untouched;
    value := 0;
    SameUntouched(a[..], d, d + avail);
    if v.None? { return 0, 0; }
    match v.value {
      case Int(n) =>
        if IsNarrow(n) {
          if 0 <= n < 0x7fff { return 2, (n + 1) * 2; }
          sz := IntInto(n, 4, a, d, avail);
        } else {
          sz := IntInto(n, 8, a, d, avail);
        }
      case Bool(b) => return 2, ((if b then 1 else 0) + 1) * 2;
    }
  }

  // ---- the header in front of the data ----

  function Then(a: Parts, b: Parts): Parts {
    Parts(a.records + b.records, a.data + b.data)
  }

  /** `done` are the parts of the fields before the i-th, of which `last` is the last one written. */
  ghost predicate DoneUpTo(sch: Schema, fs: seq<Field>, o: Value, i: nat, done: Parts, last: int)
    requires o.Obj?
  {
    i <= |fs| && EncodeFields(sch, fs, o, -1) == Then(done, EncodeFields(sch, fs[i..], o, last))
  }

  lemma DoneNothing(sch: Schema, fs: seq<Field>, o: Value)
    requires o.Obj?
    ensures DoneUpTo(sch, fs, o, 0, Parts([], []), -1)
  {
    hide EncodeFields;
    var p := EncodeFields(sch, fs, o, -1);
    assert [] + p.records == p.records && [] + p.data == p.data;
    assert fs[0..] == fs;
  }

  /** One step of EncodeFields. */
  lemma FieldsStep(sch: Schema, fs: seq<Field>, o: Value, i: nat, last: int)
    requires o.Obj? && i < |fs|
    ensures var out := FieldOut(sch, fs[i], o);
            EncodeFields(sch, fs[i..], o, last) ==
              if out.Omitted? then EncodeFields(sch, fs[i + 1..], o, last)
              else AddField(last, fs[i].tag, out, EncodeFields(sch, fs[i + 1..], o, fs[i].tag))
    ensures NeedFields(sch, fs[i..], o) ==
            Most(NeedField(sch, fs[i], o), DataSize(FieldOut(sch, fs[i], o)) + NeedFields(sch, fs[i + 1..], o))
  {
    hide EncodeValue, AddField, NeedField;
    assert fs[i..][1..] == fs[i + 1..] && fs[i..][0] == fs[i];
  }

  lemma DoneSkip(sch: Schema, fs: seq<Field>, o: Value, i: nat, done: Parts, last: int)
    requires o.Obj? && i < |fs| && FieldOut(sch, fs[i], o).Omitted? && DoneUpTo(sch, fs, o, i, done, last)
    ensures DoneUpTo(sch, fs, o, i + 1, done, last)
  {
    hide EncodeFields, FieldOut;
    FieldsStep(sch, fs, o, i, last);
  }

  lemma DoneField(sch: Schema, fs: seq<Field>, o: Value, i: nat, done: Parts, last: int)
    requires o.Obj? && i < |fs| && !FieldOut(sch, fs[i], o).Omitted? && DoneUpTo(sch, fs, o, i, done, last)
    ensures DoneUpTo(sch, fs, o, i + 1, AddTo(done, last, fs[i].tag, FieldOut(sch, fs[i], o)), fs[i].tag)
  {
    hide EncodeFields, FieldOut, AddField, AddTo;
    var out, rest := FieldOut(sch, fs[i], o), EncodeFields(sch, fs[i + 1..], o, fs[i].tag);
    FieldsStep(sch, fs, o, i, last);
    AddThen(done, last, fs[i].tag, out, rest);
  }

  lemma AddThen(done: Parts, last: int, tag: nat, out: Out, rest: Parts)
    requires !out.Omitted?
    ensures Then(done, AddField(last, tag, out, rest)) == Then(AddTo(done, last, tag, out), rest)
  {
    var word := [if out.Inline? then out.word else 0];
    var data := if out.Data? then out.bytes else [];
    assert done.records + (Skip(last, tag) + word + rest.records) == done.records + Skip(last, tag) + word
      + rest.records;
    assert done.data + (data + rest.data) == done.data + data + rest.data;
  }

  lemma DoneAll(sch: Schema, fs: seq<Field>, o: Value, done: Parts, last: int)
    requires o.Obj? && DoneUpTo(sch, fs, o, |fs|, done, last)
    ensures done == EncodeFields(sch, fs, o, -1)
  {
    assert done.records + [] == done.records && done.data + [] == done.data;
  }

  /** The parts after one more field. */
  function AddTo(done: Parts, last: int, tag: nat, out: Out): Parts {
    Parts(done.records + Skip(last, tag) + [if out.Inline? then out.word else 0], done.data + if out.Data? then
      out.bytes else [])
  }

  /** The records that may still come fit behind the `index` that are there. */
  ghost predicate Budget(fs: seq<Field>, i: nat, index: nat, prev: int, last: int, maxn: nat) {
    && i <= |fs| && Ascending(fs[i..], prev) && -1 <= last <= prev
    && index + MaxRecords(fs[i..], prev) + (if last < prev then 1 else 0) <= maxn
  }

  lemma BudgetStep(fs: seq<Field>, i: nat, index: nat, prev: int, last: int, maxn: nat)
    requires i < |fs| && Budget(fs, i, index, prev, last, maxn)
    ensures last < fs[i].tag <= MAX_TAG
    ensures Budget(fs, i + 1, index, fs[i].tag, last, maxn)
    ensures index + |Skip(last, fs[i].tag)| + 1 <= maxn
    ensures Budget(fs, i + 1, index + |Skip(last, fs[i].tag)| + 1, fs[i].tag, fs[i].tag, maxn)
  {
    assert fs[i..][1..] == fs[i + 1..] && fs[i..][0] == fs[i];
  }

  lemma BudgetLeft(fs: seq<Field>, i: nat, index: nat, prev: int, last: int, maxn: nat)
    requires Budget(fs, i, index, prev, last, maxn)
    ensures index <= maxn
  {
  }

  /** The header at `base` holds the records and, behind its reserved room, the data part holds the data. */
  ghost predicate Placed(s: seq<Byte>, base: nat, start: nat, done: Parts) {
    var e := base + SIZEOF_HEADER + SIZEOF_FIELD * |done.records|;
    && e <= start && start + |done.data| <= |s|
    && s[base + SIZEOF_HEADER..e] == RecordBytes(done.records)
    && s[start..start + |done.data|] == done.data
  }

  lemma PlacedSize(s: seq<Byte>, base: nat, start: nat, done: Parts)
    requires Placed(s, base, start, done)
    ensures start + |done.data| <= |s| && base + SIZEOF_HEADER + SIZEOF_FIELD * |done.records| <= start
  {
  }

  lemma StartPlaced(fs: seq<Field>, s: seq<Byte>, base: nat, start: nat, maxn: nat)
    requires Ascending(fs, -1) && maxn == MaxRecords(fs, -1) && base + SIZEOF_HEADER <= start <= |s|
    ensures Placed(s, base, start, Parts([], [])) && Budget(fs, 0, 0, -1, -1, maxn)
  {
    assert fs[0..] == fs;
  }

  /** Encoders write behind the data. */
  lemma PlacedKept(s: seq<Byte>, t: seq<Byte>, base: nat, start: nat, done: Parts, to: int)
    requires Placed(s, base, start, done) && Untouched(s, t, start + |done.data|, to)
    ensures Placed(t, base, start, done)
  {
    hide RecordBytes;
    var e := base + SIZEOF_HEADER + SIZEOF_FIELD * |done.records|;
    assert t[base + SIZEOF_HEADER..e] == s[base + SIZEOF_HEADER..e];
    assert t[start..start + |done.data|] == s[start..start + |done.data|];
  }

  lemma PlacedData(s: seq<Byte>, base: nat, start: nat, done: Parts, f: seq<Byte>)
    requires Placed(s, base, start, done)
    requires var d := start + |done.data|; d + |f| <= |s| && s[d..d + |f|] == f
    ensures Placed(s, base, start, Parts(done.records, done.data + f))
  {
    hide RecordBytes;
    var d := start + |done.data|;
    assert s[start..d + |f|] == s[start..d] + s[d..d + |f|];
  }

  lemma PlacedRecord(s: seq<Byte>, t: seq<Byte>, base: nat, start: nat, done: Parts, r: nat)
    requires Placed(s, base, start, done)
    requires var p := base + SIZEOF_HEADER + SIZEOF_FIELD * |done.records|;
             p + SIZEOF_FIELD <= start && Untouched(s, t, p, p + SIZEOF_FIELD)
               && t[p..p + SIZEOF_FIELD] == LE(r, SIZEOF_FIELD)
    ensures Placed(t, base, start, Parts(done.records + [r], done.data))
  {
    var p, b := base + SIZEOF_HEADER + SIZEOF_FIELD * |done.records|, base + SIZEOF_HEADER;
    RecordsJoin(done.records, [r]);
    OneRecord(r);
    hide RecordBytes, LE;
    assert t[b..p] == s[b..p];
    assert t[b..p + SIZEOF_FIELD] == t[b..p] + t[p..p + SIZEOF_FIELD];
    assert t[start..start + |done.data|] == s[start..start + |done.data|];
  }

  lemma OneRecord(r: nat)
    ensures RecordBytes([r]) == LE(r, SIZEOF_FIELD)
  {
    assert RecordBytes([r]) == LE(r, SIZEOF_FIELD) + RecordBytes([]);
  }

  /** Writes the next record. */
  method WriteRecord(a: array<Byte>, base: nat, index: nat, r: nat, ghost start: nat, ghost done: Parts)
    requires Placed(a[..], base, start, done) && index == |done.records|
             && base + SIZEOF_HEADER + SIZEOF_FIELD * (index + 1) <= start
    modifies a
    ensures Placed(a[..], base, start, Parts(done.records + [r], done.data))
    ensures Untouched(old(a[..]), a[..], base, start)
  {
    hide Placed, LE;
    PlacedSize(a[..], base, start, done);
    ghost var s := a[..];
    var p := base + SIZEOF_HEADER + SIZEOF_FIELD * index;
    WriteBytes(a, p, LE(r, SIZEOF_FIELD));
    Written(s, a[..], p, LE(r, SIZEOF_FIELD));
    PlacedRecord(s, a[..], base, start, done, r);
  }

  /** Writes the record of a field, behind one that skips tags where that is needed. */
  method WriteRecords(a: array<Byte>, base: nat, index: nat, gap: int, value: nat, ghost start: nat, ghost done: Parts)
      returns (next: nat)
    requires Placed(a[..], base, start, done) && index == |done.records|
    requires base + SIZEOF_HEADER + SIZEOF_FIELD * (index + (if gap > 0 then 2 else 1)) <= start
    modifies a
    ensures next == index + (if gap > 0 then 2 else 1)
    ensures Placed(a[..], base, start,
            Parts(done.records + (if gap > 0 then [(gap - 1) * 2 + 1] else []) + [value], done.data))
    ensures Untouched(old(a[..]), a[..], base, start)
  {
    hide Placed, Untouched;
    next := index;
    ghost var d := done;
    ghost var s := a[..];
    SameUntouched(s, base, start);
    if gap > 0 {
      WriteRecord(a, base, next, (gap - 1) * 2 + 1, start, d);
      d := Parts(d.records + [(gap - 1) * 2 + 1], d.data);
      next := next + 1;
    } else {
      assert done.records + [] == done.records;
    }
    ghost var t := a[..];
    WriteRecord(a, base, next, value, start, d);
    UntouchedMore(s, t, a[..], base, start, base, start);
    next := next + 1;
  }

  /** Adds what a field has contributed: its data, which stands behind the others, and its records. */
  method AddInto(a: array<Byte>, base: nat, start: nat, index: nat, gap: int, sz: int, value: nat, ghost last: int,
      ghost tag: nat, ghost out: Out, ghost done: Parts)
    returns (next: nat)
    requires Placed(a[..], base, start, done) && index == |done.records| && gap == tag - last - 1
    requires !out.Omitted? && Contributes(out, a[..], start + |done.data|, sz, value)
    requires base + SIZEOF_HEADER + SIZEOF_FIELD * (index + (if gap > 0 then 2 else 1)) <= start
    modifies a
    ensures Placed(a[..], base, start, AddTo(done, last, tag, out)) && next == |AddTo(done, last, tag, out).records|
    ensures Untouched(old(a[..]), a[..], base, start)
  {
    hide Placed, Untouched;
    ghost var p := done;
    if out.Data? {
      PlacedData(a[..], base, start, done, out.bytes);
      p := Parts(done.records, done.data + out.bytes);
    } else {
      assert done.data + [] == done.data;
    }
    next := WriteRecords(a, base, index, gap, value, start, p);
  }

  /** memmove to a lower address */
  method MoveDown(a: array<Byte>, to: nat, from: nat, n: nat)
    requires to <= from && from + n <= a.Length
    modifies a
    ensures a[..] == old(a[..to]) + old(a[from..from + n]) + old(a[to + n..])
  {
    var i := 0;
    while i < n
      invariant 0 <= i <= n
      invariant forall k :: 0 <= k < a.Length && (k < to || to + i <= k) ==> a[k] == old(a[k])
      invariant forall k :: to <= k < to + i ==> a[k] == old(a[k + (from - to)])
    {
      a[to + i] := a[from + i];
      i := i + 1;
    }
    MovedDown(old(a[..]), a[..], to, from, n);
  }

  lemma MovedDown(was: seq<Byte>, s: seq<Byte>, to: nat, from: nat, n: nat)
    requires to <= from && from + n <= |was| == |s|
    requires forall k :: 0 <= k < |s| && (k < to || to + n <= k) ==> s[k] == was[k]
    requires forall k :: to <= k < to + n ==> s[k] == was[k + (from - to)]
    ensures s == was[..to] + was[from..from + n] + was[to + n..]
  {
  }

  /** Writes the number of records and closes the gap behind them. */
  method Finish(a: array<Byte>, base: nat, index: nat, start: nat, datasz: nat, maxn: nat, ghost p: Parts)
      returns (r: nat)
    requires Placed(a[..], base, start, p) && index == |p.records| <= maxn && datasz == |p.data|
             && start == base + SIZEOF_HEADER + SIZEOF_FIELD * maxn
    modifies a
    ensures r == |Assemble(p)| && base + r <= start + datasz && base + r <= a.Length && a[base..base + r] == Assemble(p)
    ensures Untouched(old(a[..]), a[..], base, start + datasz)
  {
    hide RecordBytes, LE;
    ghost var s := a[..];
    var e := base + SIZEOF_HEADER + SIZEOF_FIELD * index;
    WriteBytes(a, base, LE(index, SIZEOF_HEADER));
    ghost var t := a[..];
    Written(s, t, base, LE(index, SIZEOF_HEADER));
    if index != maxn {
      MoveDown(a, e, start, datasz);
      Moved(t, a[..], e, start, datasz);
    }
    r := SIZEOF_HEADER + SIZEOF_FIELD * index + datasz;
    GapClosed(s, t, a[..], base, start, p);
  }

  lemma Moved(t: seq<Byte>, u: seq<Byte>, to: nat, from: nat, n: nat)
    requires to <= from && from + n <= |t| && u == t[..to] + t[from..from + n] + t[to + n..]
    ensures Untouched(t, u, to, to + n) && u[to..to + n] == t[from..from + n]
  {
  }

  lemma GapClosed(s: seq<Byte>, t: seq<Byte>, u: seq<Byte>, base: nat, start: nat, p: Parts)
    requires Placed(s, base, start, p) && Untouched(s, t, base, base + SIZEOF_HEADER)
             && t[base..base + SIZEOF_HEADER] == LE(|p.records|, SIZEOF_HEADER)
    requires var e := base + SIZEOF_HEADER + SIZEOF_FIELD * |p.records|;
             Untouched(t, u, e, e + |p.data|) && u[e..e + |p.data|] == t[start..start + |p.data|]
    ensures |Assemble(p)| == SIZEOF_HEADER + SIZEOF_FIELD * |p.records| + |p.data|
    ensures base + |Assemble(p)| <= |u| && u[base..base + |Assemble(p)|] == Assemble(p)
  {
    hide RecordBytes, LE;
    var b, e := base + SIZEOF_HEADER, base + SIZEOF_HEADER + SIZEOF_FIELD * |p.records|;
    assert u[base..b] == t[base..b];
    assert u[b..e] == s[b..e];
    assert t[start..start + |p.data|] == s[start..start + |p.data|];
    assert u[base..e] == u[base..b] + u[b..e];
    assert u[base..e + |p.data|] == u[base..e] + u[e..e + |p.data|];
  }

  // ---- sproto_encode ----

  lemma FieldSuits(sch: Schema, id: nat, o: Value, i: nat)
    requires o.Obj? && ObjectSuits(sch, id, o) && i < |FieldsOf(sch, id)|
    ensures ValueOf(o, FieldsOf(sch, id)[i]).Some? ==>
            ValueSuits(sch, FieldsOf(sch, id)[i], ValueOf(o, FieldsOf(sch, id)[i]).value)
  {
    hide ValueSuits;
  }

  lemma AscendingFields(sch: Schema, id: nat)
    requires WellFormed(sch)
    ensures Ascending(FieldsOf(sch, id), -1)
  {
  }

  /** The room left for the fields from the i-th on, of which the first has now been written. */
  lemma RoomStep(sch: Schema, fs: seq<Field>, o: Value, i: nat, left: int)
    requires o.Obj? && i < |fs|
    ensures left < NeedField(sch, fs[i], o) ==> left < NeedFields(sch, fs[i..], o)
    ensures left >= NeedField(sch, fs[i], o) ==>
            (left < NeedFields(sch, fs[i..], o) <==>
              left - DataSize(FieldOut(sch, fs[i], o)) < NeedFields(sch, fs[i + 1..], o))
  {
    hide NeedField, FieldOut, NeedFields;
    FieldsStep(sch, fs, o, i, -1);
  }

  lemma EndNeed(sch: Schema, fs: seq<Field>, o: Value)
    requires o.Obj?
    ensures NeedFields(sch, fs[|fs|..], o) == 0 && fs[0..] == fs
  {
  }

  lemma ObjectIs(sch: Schema, id: nat, o: Value)
    requires o.Obj?
    ensures EncodeObject(sch, id, o) == Assemble(EncodeFields(sch, FieldsOf(sch, id), o, -1))
    ensures NeedObject(sch, id, o) == SIZEOF_HEADER + SIZEOF_FIELD * MaxRecords(FieldsOf(sch, id), -1)
            + NeedFields(sch, FieldsOf(sch, id), o)
  {
    hide Assemble, EncodeFields, NeedFields, MaxRecords;
  }

  lemma OutSize(done: Parts, last: int, tag: nat, out: Out)
    ensures |AddTo(done, last, tag, out).data| == |done.data| + DataSize(out)
    ensures |AddTo(done, last, tag, out).records| == |done.records| + |Skip(last, tag)| + 1
  {
  }

  /**
    sproto_encode: the message of the object o, or -1 exactly when the buffer is smaller than
    the encoders ask for.  The records never reach the data behind the header's reserved room.
   */
  method ObjectInto(sch: Schema, id: nat, o: Value, a: array<Byte>, base: nat, size: int) returns (r: int)
    requires WellFormed(sch) && o.Obj? && ObjectSuits(sch, id, o) && base + size <= a.Length
    modifies a
    ensures r < 0 <==> size < NeedObject(sch, id, o)
    ensures r >= 0 ==> r == |EncodeObject(sch, id, o)| <= size && a[base..base + r] == EncodeObject(sch, id, o)
    ensures Untouched(old(a[..]), a[..], base, base + size)
    decreases o, 1, 0
  {
    hide EncodeFields, NeedFields, NeedField, FieldOut, Placed, Budget, DoneUpTo, Untouched, AddTo, Assemble,
      EncodeObject, NeedObject;
    hide MaxRecords, FieldsOf, Skip, Contributes, ObjectSuits, ValueSuits, WellFormed, Ascending, DataSize;
    var fs := FieldsOf(sch, id);
    ObjectIs(sch, id, o);
    AscendingFields(sch, id);
    EndNeed(sch, fs, o);
    NeedFieldsSome(sch, fs, o);
    ghost var was := a[..];
    SameUntouched(was, base, base + size);
    var maxn := MaxRecords(fs, -1);
    var start := base + SIZEOF_HEADER + SIZEOF_FIELD * maxn;
    if base + size < start { return -1; }
    var i: nat, index: nat, last: int, d: nat := 0, 0, -1, start;
    ghost var done: Parts, prev: int := Parts([], []), -1;
    DoneNothing(sch, fs, o);
    StartPlaced(fs, a[..], base, start, maxn);
    while i < |fs|
      invariant i <= |fs| && index == |done.records| && d == start + |done.data| <= base + size
      invariant Budget(fs, i, index, prev, last, maxn) && DoneUpTo(sch, fs, o, i, done, last)
                && Placed(a[..], base, start, done)
      invariant base + size - start < NeedFields(sch, fs, o) <==> base + size - d < NeedFields(sch, fs[i..], o)
      invariant Untouched(was, a[..], base, base + size)
    {
      BudgetStep(fs, i, index, prev, last, maxn);
      FieldSuits(sch, id, o, i);
      ghost var left := base + size - d;
      RoomStep(sch, fs, o, i, left);
      ghost var out := FieldOut(sch, fs[i], o);
      ghost var s := a[..];
      var sz, value := FieldInto(sch, fs[i], o, a, d, base + size - d);
      ghost var t := a[..];
      UntouchedMore(was, s, t, base, base + size, d, base + size);
      if sz < 0 { return -1; }
      PlacedKept(s, t, base, start, done, base + size);
      Contribution(out, t, d, sz, value);
      if sz == 0 {
        DoneSkip(sch, fs, o, i, done, last);
      } else {
        DoneField(sch, fs, o, i, done, last);
        OutSize(done, last, fs[i].tag, out);
        SkipLength(last, fs[i].tag);
        index := AddInto(a, base, start, index, fs[i].tag - last - 1, sz, value, last, fs[i].tag, out, done);
        UntouchedMore(was, t, a[..], base, base + size, base, start);
        if value == 0 { d := d + sz; }
        done, last := AddTo(done, last, fs[i].tag, out), fs[i].tag;
      }
      prev, i := fs[i].tag, i + 1;
    }
    DoneAll(sch, fs, o, done, last);
    BudgetLeft(fs, i, index, prev, last, maxn);
    ghost var t := a[..];
    r := Finish(a, base, index, start, d - start, maxn, done);
    UntouchedMore(was, t, a[..], base, base + size, base, d);
  }

  lemma SkipLength(last: int, tag: nat)
    ensures |Skip(last, tag)| == if tag - last - 1 > 0 then 1 else 0
  {
  }

  lemma Contribution(out: Out, s: seq<Byte>, d: nat, sz: int, value: nat)
    requires Contributes(out, s, d, sz, value)
    ensures sz == 0 <==> out.Omitted?
    ensures sz >= 0 && DataSize(out) == if value == 0 then sz else 0
  {
  }

  /** One field, an array of strings. */
  const NAMES: Schema := [[Field(0, TString, true)]]
  const ONE_NAME := Obj([Entry(0, Array([Str([97])]))])

  /** The encoder can ask for more room than its message takes: here for the callback that ends the array. */
  lemma RoomBeyondMessage()
    ensures WellFormed(NAMES) && ObjectSuits(NAMES, 0, ONE_NAME)
    ensures |EncodeObject(NAMES, 0, ONE_NAME)| == 13 && NeedObject(NAMES, 0, ONE_NAME) == 17
  {
    var f, v := Field(0, TString, true), Array([Str([97])]);
    var fs := [f];
    assert FieldsOf(NAMES, 0) == fs && fs[1..] == [];
    assert IndexOf(ONE_NAME.entries, 0) == 0;
    assert Body(NAMES, TString, v.items[0]) == [97] && NeedBody(NAMES, TString, v.items[0]) == 1;
    assert Bodies(NAMES, TString, v, 1) == [] && NeedBodies(NAMES, TString, v, 1) == 4;
    assert |Bodies(NAMES, TString, v, 0)| == 5 && NeedBodies(NAMES, TString, v, 0) == 9;
    assert EncodeValue(NAMES, f, v) == Data(Sized(Bodies(NAMES, TString, v, 0)));
    assert EncodeFields(NAMES, [], ONE_NAME, 0) == Parts([], []);
    assert EncodeFields(NAMES, fs, ONE_NAME, -1) == AddField(-1, 0, EncodeValue(NAMES, f, v), Parts([], []));
    assert NeedField(NAMES, f, ONE_NAME) == 13;
    assert NeedFields(NAMES, [], ONE_NAME) == 0;
    assert NeedFields(NAMES, fs, ONE_NAME) == 13;
    assert MaxRecords(fs, -1) == 1;
  }

  // ---- lencode ----

  const ENCODE_MAXSIZE := 0x100_0000

  /** Does doubling a buffer of sz bytes reach `need` bytes before it exceeds the largest size? */
  predicate Reached(sz: nat, need: int)
    requires sz > 0
    decreases if sz <= ENCODE_MAXSIZE then ENCODE_MAXSIZE - sz + 1 else 0
  {
    need <= sz || (2 * sz <= ENCODE_MAXSIZE && Reached(2 * sz, need))
  }

  /** lencode: the buffer doubles until the message fits; None stands for the error that it is too large. */
  method Lencode(sch: Schema, id: nat, o: Value, sz0: nat) returns (r: Option<seq<Byte>>)
    requires WellFormed(sch) && o.Obj? && ObjectSuits(sch, id, o) && sz0 > 0
    ensures r.Some? <==> Reached(sz0, NeedObject(sch, id, o))
    ensures r.Some? ==> r.value == EncodeObject(sch, id, o)
  {
    hide WellFormed, ObjectSuits, NeedObject, EncodeObject;
    var sz := sz0;
    while true
      invariant sz > 0 && (Reached(sz0, NeedObject(sch, id, o)) <==> Reached(sz, NeedObject(sch, id, o)))
      decreases if sz <= ENCODE_MAXSIZE then ENCODE_MAXSIZE - sz + 1 else 0
    {
      var buffer := new Byte[sz](_ => 0);
      var n := ObjectInto(sch, id, o, buffer, 0, sz);
      if n >= 0 { return Some(buffer[..n]); }
      if 2 * sz > ENCODE_MAXSIZE { return None; }
      sz := 2 * sz;
    }
  }
}
