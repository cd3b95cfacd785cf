/** `strbuf`, the printer that appends to it, and the string scanner whose appends are not checked. */
module JsonBuffer {
  import opened ByteType
  import opened JsonText

  const DEFAULT_SIZE := 1023

  /** The smallest number from `size` on, doubling, that is at least `req`. */
  function Doubled(size: nat, req: nat): (r: nat)
    requires size > 0
    ensures r >= req && r >= size
    decreases if req > size then req - size else 0
  {
    if size < req then Doubled(2 * size, req) else size
  }

  class StrBuf {
    var buf: array<Byte>
    var length: nat
    var reallocs: nat

    /** There is always room for the terminator. */
    predicate Valid()
      reads this
    {
      length < buf.Length
    }

    function Contents(): Bytes
      reads this, buf
      requires Valid()
    {
      buf[..length]
    }

    /** strbuf_empty_length */
    function Room(): int
      reads this
    {
      buf.Length - length - 1
    }

    /** strbuf_new */
    constructor (len: nat)
      ensures Valid() && Contents() == [] && fresh(buf) && Room() >= len
      ensures len > 0 ==> Room() == len
    {
      buf := new Byte[if len == 0 then DEFAULT_SIZE else len + 1];
      length, reallocs := 0, 0;
    }

    /** calculate_new_size, with the default negative increment */
    method NewSize(len: nat) returns (size: nat)
      requires len > 0 && buf.Length > 0
      ensures size > len && (buf.Length > len + 1 ==> size == len + 1)
      ensures buf.Length <= len + 1 ==> size == Doubled(buf.Length, len + 1)
    {
      var req := len + 1;
      if buf.Length > req { return req; }
      size := buf.Length;
      while size < req
        invariant 0 < size && Doubled(size, req) == Doubled(buf.Length, req)
        decreases if req > size then req - size else 0
      {
        size := size * 2;
      }
    }

    /** strbuf_resize: the contents stay, and len bytes fit. */
    method Resize(len: nat)
      requires Valid() && len > 0 && len >= length
      modifies this
      ensures Valid() && fresh(buf) && length == old(length) && Contents() == old(Contents()) && buf.Length >= len + 1
    {
      var size := NewSize(len);
      var bigger := new Byte[size];
      var i := 0;
      while i < length
        invariant length == old(length) && buf == old(buf) && reallocs == old(reallocs)
        invariant 0 <= i <= length < buf.Length && length < bigger.Length && bigger[..i] == buf[..i]
      {
        bigger[i] := buf[i];
        assert bigger[..i + 1] == bigger[..i] + [buf[i]] && buf[..i + 1] == buf[..i] + [buf[i]];
        i := i + 1;
      }
      buf := bigger;
      reallocs := reallocs + 1;
    }

    /** strbuf_ensure_empty_length */
    method Ensure(n: nat)
      requires Valid()
      modifies this
      ensures Valid() && length == old(length) && Contents() == old(Contents()) && Room() >= n
              && (buf == old(buf) || fresh(buf))
    {
      if n > Room() { Resize(length + n); }
    }

    /** strbuf_append_char_unsafe */
    method PutUnsafe(c: Byte)
      requires Valid() && Room() >= 1
      modifies this, buf
      ensures Valid() && buf == old(buf) && Contents() == old(Contents()) + [c] && Room() == old(Room()) - 1
    {
      buf[length] := c;
      length := length + 1;
      assert buf[..length] == buf[..length - 1] + [c];
    }

    /** strbuf_append_char */
    method PutChar(c: Byte)
      requires Valid()
      modifies this, buf
      ensures Valid() && Contents() == old(Contents()) + [c] && (buf == old(buf) || fresh(buf))
    {
      Ensure(1);
      PutUnsafe(c);
    }

    /** strbuf_append_mem_unsafe */
    method PutMemUnsafe(s: Bytes)
      requires Valid() && Room() >= |s|
      modifies this, buf
      ensures Valid() && buf == old(buf) && Contents() == old(Contents()) + s && Room() == old(Room()) - |s|
    {
      ghost var was := Contents();
      var i := 0;
      while i < |s|
        invariant 0 <= i <= |s| && Valid() && buf == old(buf) && length == old(length)
        invariant buf[..length] == was && buf[length..length + i] == s[..i]
      {
        buf[length + i] := s[i];
        assert buf[length..length + i + 1] == buf[length..length + i] + [s[i]];
        i := i + 1;
      }
      length := length + |s|;
      assert buf[..length] == was + s;
    }

    /** strbuf_append_mem */
    method PutMem(s: Bytes)
      requires Valid()
      modifies this, buf
      ensures Valid() && Contents() == old(Contents()) + s && (buf == old(buf) || fresh(buf))
    {
      Ensure(|s|);
      PutMemUnsafe(s);
    }

    /** strbuf_append_string: it stays in place when there is room, and grows otherwise. */
    method PutString(s: Bytes)
      requires Valid()
      modifies this, buf
      ensures Valid() && Contents() == old(Contents()) + s && (buf == old(buf) || fresh(buf))
      ensures old(Room()) >= |s| ==> buf == old(buf) && Room() == old(Room()) - |s|
    {
      var space, i := Room(), 0;
      assert Contents() + s[..0] == Contents();
      while i < |s|
        invariant 0 <= i <= |s| && Valid() && space == Room() && Contents() == old(Contents()) + s[..i]
        invariant buf == old(buf) || fresh(buf)
        invariant old(Room()) >= |s| ==> buf == old(buf) && Room() == old(Room()) - i
      {
        if space < 1 {
          Resize(length + 1);
          space := Room();
        }
        ghost var was := Contents();
        buf[length] := s[i];
        length := length + 1;
        space := space - 1;
        assert Contents() == was + [s[i]];
        assert s[..i + 1] == s[..i] + [s[i]];
        assert (old(Contents()) + s[..i]) + [s[i]] == old(Contents()) + s[..i + 1];
        i := i + 1;
      }
      assert s[..|s|] == s;
    }
  }

  // ---- the printer ----

  lemma EscapedSize(c: Byte)
    ensures 1 <= |Escaped(c)| <= 6
  {
  }

  lemma {:induction false} EscapedJoin(s: Bytes, t: Bytes)
    ensures EscapedAll(s + t) == EscapedAll(s) + EscapedAll(t)
    decreases |s|
  {
    if s == [] {
      assert s + t == t;
    } else {
      assert (s + t)[1..] == s[1..] + t;
      EscapedJoin(s[1..], t);
    }
  }

  /** json_append_string: its unchecked appends stay inside the room reserved at the start. */
  method AppendString(json: StrBuf, s: Bytes)
    requires json.Valid()
    modifies json, json.buf
    ensures json.Valid() && json.Contents() == old(json.Contents()) + StringText(s)
            && (json.buf == old(json.buf) || fresh(json.buf))
  {
    hide Escaped, EscapedAll;
    NoEscapes();
    ghost var was := json.Contents();
    json.Ensure(|s| * 6 + 2);
    json.PutUnsafe(QUOTE);
    ghost var kept := json.buf;
    var i := 0;
    assert was + [QUOTE] + EscapedAll(s[..0]) == was + [QUOTE];
    while i < |s|
      invariant 0 <= i <= |s| && json.Valid() && json.Room() >= 6 * (|s| - i) + 1 && json.buf == kept
      invariant json.Contents() == was + [QUOTE] + EscapedAll(s[..i])
    {
      EscapedSize(s[i]);
      EscapedJoin(s[..i], [s[i]]);
      assert s[..i] + [s[i]] == s[..i + 1];
      OneEscaped(s[i]);
      var e := Escaped(s[i]);
      ghost var before := json.Contents();
      if e != [s[i]] { json.PutString(e); } else { json.PutUnsafe(s[i]); }
      assert before + e == was + [QUOTE] + (EscapedAll(s[..i]) + e);
      i := i + 1;
    }
    assert s[..|s|] == s;
    json.PutUnsafe(QUOTE);
    assert json.Contents() == was + StringText(s);
  }

  lemma NoEscapes()
    ensures EscapedAll([]) == []
  {
  }

  lemma OneEscaped(c: Byte)
    ensures EscapedAll([c]) == Escaped(c)
  {
    assert [c][1..] == [] && EscapedAll([]) == [];
    assert Escaped(c) + [] == Escaped(c);
  }

  /** json_append_data: the text of v, or false when it is nested too deeply. */
  method AppendData(json: StrBuf, v: Json, depth: nat) returns (ok: bool)
    requires json.Valid()
    modifies json, json.buf
    ensures json.Valid() && (json.buf == old(json.buf) || fresh(json.buf))
    ensures ok <==> Shallow(v, depth)
    ensures ok ==> json.Contents() == old(json.Contents()) + Text(v)
    decreases v, 1
  {
    hide StringText;
    ok := true;
    match v
    case Null => json.PutMem(NULL);
    case Bool(b) => json.PutMem(if b then TRUE else FALSE);
    case Str(s) => AppendString(json, s);
    case Arr(_) => ok := AppendArray(json, v, depth);
    case Obj(_) => ok := AppendObject(json, v, depth);
  }

  /** json_append_array */
  method AppendArray(json: StrBuf, v: Json, depth: nat) returns (ok: bool)
    requires json.Valid() && v.Arr?
    modifies json, json.buf
    ensures json.Valid() && (json.buf == old(json.buf) || fresh(json.buf))
    ensures ok <==> Shallow(v, depth)
    ensures ok ==> json.Contents() == old(json.Contents()) + Text(v)
    decreases v, 0
  {
    hide Text, ItemsText;
    if depth + 1 > MAX_DEPTH { return false; }
    ghost var was := json.Contents();
    json.PutChar(91);
    var i := 0;
    while i < |v.items|
      invariant 0 <= i <= |v.items| && json.Valid() && (json.buf == old(json.buf) || fresh(json.buf))
      invariant forall j :: 0 <= j < i ==> Shallow(v.items[j], depth + 1)
      invariant json.Contents() + ItemsText(v, i) == was + [91] + ItemsText(v, 0)
    {
      ghost var c0 := json.Contents();
      if i > 0 { json.PutChar(COMMA); }
      ghost var c1 := json.Contents();
      ok := AppendData(json, v.items[i], depth + 1);
      if !ok { return; }
      ItemStep(v, i, c0, c1);
      i := i + 1;
    }
    LastItem(v);
    assert json.Contents() + [] == json.Contents();
    json.PutChar(93);
    ArrText(v, []);
    WholeText([91], ItemsText(v, 0), [93], was);
    ok := true;
  }

  lemma ItemStep(v: Json, i: nat, c0: Bytes, c1: Bytes)
    requires v.Arr? && i < |v.items| && c1 == c0 + Separator(i)
    ensures c0 + ItemsText(v, i) == (c1 + Text(v.items[i])) + ItemsText(v, i + 1)
  {
    hide Text;
  }

  lemma LastItem(v: Json)
    requires v.Arr?
    ensures ItemsText(v, |v.items|) == []
  {
  }

  lemma WholeText(a: Bytes, b: Bytes, c: Bytes, was: Bytes)
    ensures was + a + b + c == was + (a + (b + c + [])) && a + (b + c + []) == a + (b + c + []) + []
  {
  }

  /** json_append_object */
  method AppendObject(json: StrBuf, v: Json, depth: nat) returns (ok: bool)
    requires json.Valid() && v.Obj?
    modifies json, json.buf
    ensures json.Valid() && (json.buf == old(json.buf) || fresh(json.buf))
    ensures ok <==> Shallow(v, depth)
    ensures ok ==> json.Contents() == old(json.Contents()) + Text(v)
    decreases v, 0
  {
    hide Text, PairsText, StringText;
    if depth + 1 > MAX_DEPTH { return false; }
    ghost var was := json.Contents();
    json.PutChar(123);
    var i := 0;
    while i < |v.pairs|
      invariant 0 <= i <= |v.pairs| && json.Valid() && (json.buf == old(json.buf) || fresh(json.buf))
      invariant forall j :: 0 <= j < i ==> Shallow(v.pairs[j].value, depth + 1)
      invariant json.Contents() + PairsText(v, i) == was + [123] + PairsText(v, 0)
    {
      ghost var c0 := json.Contents();
      if i > 0 { json.PutChar(COMMA); }
      ghost var c1 := json.Contents();
      AppendString(json, v.pairs[i].key);
      json.PutChar(COLON);
      ghost var c2 := json.Contents();
      ok := AppendData(json, v.pairs[i].value, depth + 1);
      if !ok { return; }
      PairStep(v, i, c0, c1, c2);
      i := i + 1;
    }
    LastPair(v);
    assert json.Contents() + [] == json.Contents();
    json.PutChar(125);
    ObjText(v);
    WholeText([123], PairsText(v, 0), [125], was);
    ok := true;
  }

  lemma PairStep(v: Json, i: nat, c0: Bytes, c1: Bytes, c2: Bytes)
    requires v.Obj? && i < |v.pairs| && c1 == c0 + Separator(i) && c2 == c1 + StringText(v.pairs[i].key) + [COLON]
    ensures c0 + PairsText(v, i) == (c2 + Text(v.pairs[i].value)) + PairsText(v, i + 1)
  {
    hide Text, StringText;
  }

  lemma LastPair(v: Json)
    requires v.Obj?
    ensures PairsText(v, |v.pairs|) == []
  {
  }

  lemma ObjText(v: Json)
    requires v.Obj?
    ensures Text(v) == [123] + (PairsText(v, 0) + [125] + [])
  {
    hide PairsText;
  }

  /** json_encode: the text of v, or None when it is nested too deeply. */
  method EncodeJson(v: Json) returns (r: Option<Bytes>)
    ensures r.Some? <==> Shallow(v, 0)
    ensures r.Some? ==> r.value == Text(v)
  {
    var json := new StrBuf(0);
    var ok := AppendData(json, v, 0);
    assert [] + Text(v) == Text(v);
    r := if ok then Some(json.Contents()) else None;
  }

  // ---- the string scanner ----

  /**
    json_next_string_token behind the opening quote.  The temporary buffer has room for as many
    bytes as the text that is left, and its appends are not checked: none passes its end.
   */
  method NextString(text: Bytes, tmp: StrBuf) returns (ok: bool, rest: Bytes)
    requires tmp.Valid() && tmp.length == 0 && tmp.Room() >= |text|
    modifies tmp, tmp.buf
    ensures tmp.Valid() && tmp.buf == old(tmp.buf)
    ensures if ok then ReadString(text) == Some((tmp.Contents(), rest)) else ReadString(text) == None
  {
    hide Unicode, Unescaped;
    var i := 0;
    assert text[0..] == text && tmp.Contents() == [];
    StartString(text);
    while true
      invariant 0 <= i <= |text| && tmp.Valid() && tmp.buf == old(tmp.buf) && tmp.Room() >= |text| - i
      invariant ReadString(text) == Cons(tmp.Contents(), ReadString(text[i..]))
      decreases |text| - i
    {
      ghost var c := tmp.Contents();
      StringStep(c, text, i);
      if i == |text| || text[i] == 0 { return false, []; }
      if text[i] == QUOTE {
        assert c + [] == c;
        return true, text[i + 1..];
      }
      if text[i] != BACKSLASH {
        tmp.PutUnsafe(text[i]);
        i := i + 1;
      } else if i + 1 < |text| && text[i + 1] == 117 {
        var u := Unicode(text[i + 2..]);
        if u.None? { return false, []; }
        tmp.PutMemUnsafe(u.value.0);
        i := i + 2 + u.value.1;
      } else {
        if i + 1 >= |text| || Unescaped(text[i + 1]) == 0 { return false, []; }
        tmp.PutUnsafe(Unescaped(text[i + 1]));
        i := i + 2;
      }
    }
  }

  lemma StartString(text: Bytes)
    ensures ReadString(text) == Cons([], ReadString(text))
  {
    var r := ReadString(text);
    if r.Some? { assert [] + r.value.0 == r.value.0; }
  }

  lemma ConsTwice(a: Bytes, b: Bytes, r: Option<(Bytes, Bytes)>)
    ensures Cons(a, Cons(b, r)) == Cons(a + b, r)
  {
    if r.Some? { assert a + (b + r.value.0) == (a + b) + r.value.0; }
  }

  /** What one turn of the scanner does to what is still to be read. */
  lemma StringStep(c: Bytes, text: Bytes, i: nat)
    requires i <= |text|
    ensures var r := ReadString(text[i..]);
            if i == |text| || text[i] == 0 then r == None
            else if text[i] == QUOTE then r == Some(([], text[i + 1..]))
            else if text[i] != BACKSLASH then Cons(c, r) == Cons(c + [text[i]], ReadString(text[i + 1..]))
            else if i + 1 < |text| && text[i + 1] == 117 then
              var u := Unicode(text[i + 2..]);
              if u.None? then r == None else Cons(c, r) == Cons(c + u.value.0, ReadString(text[i + 2 + u.value.1..]))
            else if i + 1 >= |text| || Unescaped(text[i + 1]) == 0 then r == None
            else Cons(c, r) == Cons(c + [Unescaped(text[i + 1])], ReadString(text[i + 2..]))
  {
    hide Unicode, Unescaped;
    var t := text[i..];
    if t != [] {
      assert t[1..] == text[i + 1..];
      ConsTwice(c, [t[0]], ReadString(t[1..]));
      if |t| >= 2 {
        assert t[2..] == text[i + 2..];
        ConsTwice(c, [Unescaped(t[1])], ReadString(t[2..]));
        var u := Unicode(t[2..]);
        if u.Some? {
          assert t[2 + u.value.1..] == text[i + 2 + u.value.1..];
          ConsTwice(c, u.value.0, ReadString(t[2 + u.value.1..]));
        }
      }
    }
  }
}
