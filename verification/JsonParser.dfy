/** The parser of JSON texts, with its place in the text and its depth as fields. */
module JsonParser {
  import opened ByteType
  import opened JsonText
  import opened JsonBuffer

  class Parser {
    const text: Bytes
    const tmp: StrBuf
    var ptr: nat
    var currentDepth: nat

    /** The temporary buffer can hold any string of the text. */
    ghost predicate Valid()
      reads this, tmp
    {
      ptr <= |text| && tmp.Valid() && tmp.buf.Length > |text|
    }

    constructor (text: Bytes)
      ensures Valid() && this.text == text && ptr == 0 && currentDepth == 0 && fresh(tmp) && fresh(tmp.buf)
    {
      this.text := text;
      tmp := new StrBuf(|text|);
      ptr, currentDepth := 0, 0;
    }

    /** json_next_token */
    method Next() returns (tok: Token)
      requires Valid()
      modifies this`ptr, tmp, tmp.buf
      ensures Valid() && tmp.buf == old(tmp.buf) && ptr >= old(ptr) && NextToken(text[old(ptr)..]) == (tok, text[ptr..])
      ensures !tok.End? && !tok.Error? ==> ptr > old(ptr)
    {
      hide ReadString, StartsWith;
      while ptr < |text| && IsSpace(text[ptr])
        invariant old(ptr) <= ptr && Valid() && tmp.buf == old(tmp.buf)
                  && NextToken(text[ptr..]) == NextToken(text[old(ptr)..])
      {
        assert text[ptr..][1..] == text[ptr + 1..];
        ptr := ptr + 1;
      }
      if ptr == |text| || text[ptr] == 0 { return End; }
      ghost var t := text[ptr..];
      Suffixes(text, ptr);
      if text[ptr] == QUOTE {
        tok := NextStringToken();
      } else if StartsWith(text[ptr..], TRUE) {
        WordLength(t, TRUE);
        tok, ptr := BoolTok(true), ptr + 4;
      } else if StartsWith(text[ptr..], FALSE) {
        WordLength(t, FALSE);
        tok, ptr := BoolTok(false), ptr + 5;
      } else if StartsWith(text[ptr..], NULL) {
        WordLength(t, NULL);
        tok, ptr := NullTok, ptr + 4;
      } else {
        tok := Mark(text[ptr]);
        if !tok.Error? { ptr := ptr + 1; }
      }
    }

    /** A token of one byte. */
    function Mark(c: Byte): Token {
      if c == 123 then ObjBegin
      else if c == 125 then ObjEnd
      else if c == 91 then ArrBegin
      else if c == 93 then ArrEnd
      else if c == COMMA then CommaTok
      else if c == COLON then ColonTok
      else Error
    }

    /** json_next_string_token */
    method NextStringToken() returns (tok: Token)
      requires Valid() && ptr < |text| && text[ptr] == QUOTE
      modifies this`ptr, tmp, tmp.buf
      ensures Valid() && tmp.buf == old(tmp.buf) && ptr >= old(ptr) && NextToken(text[old(ptr)..]) == (tok, text[ptr..])
      ensures tok.StrTok? ==> ptr > old(ptr)
      ensures tok.StrTok? || tok.Error?
    {
      hide ReadString;
      assert text[ptr..][1..] == text[ptr + 1..];
      tmp.length := 0;
      var ok, rest := NextString(text[ptr + 1..], tmp);
      if !ok { return Error; }
      RestIsSuffix(text[ptr + 1..]);
      assert rest == text[|text| - |rest|..];
      tok, ptr := StrTok(tmp.Contents()), |text| - |rest|;
    }

    /** What a value at the current place leaves: the value with its end and the depth as before, or an error. */
    twostate predicate Returns(new tok: Token, new r: Option<Json>)
      reads this, tmp
    {
      && old(ptr) <= |text|
      && if r.None? then Value(tok, text[old(ptr)..], old(currentDepth)) == None
         else Valid() && ptr >= old(ptr) && currentDepth == old(currentDepth)
              && Value(tok, text[old(ptr)..], old(currentDepth)) == Some((r.value, text[ptr..]))
    }

    /** json_process_value; None stands for the error that is thrown. */
    method ProcessValue(tok: Token) returns (r: Option<Json>)
      requires Valid()
      modifies this, tmp, tmp.buf
      ensures tmp.buf == old(tmp.buf) && Returns(tok, r)
      decreases |text| - ptr, 1
    {
      hide NextToken, Members, Elements;
      match tok {
        case StrTok(s) => return Some(Str(s));
        case BoolTok(b) => return Some(Bool(b));
        case NullTok => return Some(Null);
        case ObjBegin => r := ParseObject();
        case ArrBegin => r := ParseArray();
        case _ => return None;
      }
    }

    /** json_parse_object_context: the depth goes up at the start, and down again on both ways out. */
    method ParseObject() returns (r: Option<Json>)
      requires Valid()
      modifies this, tmp, tmp.buf
      ensures tmp.buf == old(tmp.buf) && Returns(ObjBegin, r)
      decreases |text| - ptr, 0
    {
      hide NextToken, Value, Members, Elements;
      ObjectStart(text[ptr..], currentDepth);
      currentDepth := currentDepth + 1;
      if currentDepth > MAX_DEPTH { return None; }
      var tok := Next();
      if tok.ObjEnd? {
        currentDepth := currentDepth - 1;
        return Some(Obj([]));
      }
      var pairs: seq<Pair> := [];
      if !tok.StrTok? { return None; }
      while true
        invariant Valid() && tmp.buf == old(tmp.buf) && ptr > old(ptr) && currentDepth == old(currentDepth) + 1
                  && tok.StrTok?
        invariant Value(ObjBegin, text[old(ptr)..], old(currentDepth)) == Members(tok, text[ptr..], currentDepth, pairs)
        decreases |text| - ptr
      {
        MembersStep(tok, text[ptr..], currentDepth, pairs);
        var key := tok.s;
        tok := Next();
        if !tok.ColonTok? { return None; }
        tok := Next();
        var v := ProcessValue(tok);
        if v.None? { return None; }
        pairs := Put(pairs, key, v.value);
        tok := Next();
        if tok.ObjEnd? {
          currentDepth := currentDepth - 1;
          return Some(Obj(pairs));
        }
        if !tok.CommaTok? { return None; }
        tok := Next();
        if !tok.StrTok? {
          NoKey(tok, text[ptr..], currentDepth, pairs);
          return None;
        }
      }
    }

    /** json_parse_array_context */
    method ParseArray() returns (r: Option<Json>)
      requires Valid()
      modifies this, tmp, tmp.buf
      ensures tmp.buf == old(tmp.buf) && Returns(ArrBegin, r)
      decreases |text| - ptr, 0
    {
      hide NextToken, Value, Members, Elements;
      ArrayStart(text[ptr..], currentDepth);
      currentDepth := currentDepth + 1;
      if currentDepth > MAX_DEPTH { return None; }
      var tok := Next();
      if tok.ArrEnd? {
        currentDepth := currentDepth - 1;
        return Some(Obj([]));
      }
      var items: seq<Json> := [];
      if tok.End? || tok.Error? { return None; }
      while true
        invariant Valid() && tmp.buf == old(tmp.buf) && ptr > old(ptr) && currentDepth == old(currentDepth) + 1
        invariant Value(ArrBegin, text[old(ptr)..], old(currentDepth)) ==
                  Elements(tok, text[ptr..], currentDepth, items)
        decreases |text| - ptr, if tok.End? || tok.Error? then 0 else 1
      {
        ElementsStep(tok, text[ptr..], currentDepth, items);
        var v := ProcessValue(tok);
        if v.None? { return None; }
        items := items + [v.value];
        tok := Next();
        if tok.ArrEnd? {
          currentDepth := currentDepth - 1;
          return Some(Arr(items));
        }
        if !tok.CommaTok? { return None; }
        tok := Next();
      }
    }
  }

  lemma Suffixes(text: Bytes, p: nat)
    requires p < |text|
    ensures text[p..][0] == text[p] && text[p..][1..] == text[p + 1..]
    ensures forall n: nat :: p + n <= |text| ==> text[p..][n..] == text[p + n..]
  {
  }

  lemma WordLength(t: Bytes, w: Bytes)
    requires StartsWith(t, w)
    ensures |w| <= |t| && (w != [] ==> t[0] == w[0])
  {
    if w != [] { assert t[..|w|][0] == t[0]; }
  }

  /** What follows a string is the end of the text. */
  lemma {:induction false} RestIsSuffix(t: Bytes)
    ensures ReadString(t).Some? ==> var rest := ReadString(t).value.1; rest == t[|t| - |rest|..]
    decreases |t|
  {
    hide Unicode, Unescaped;
    if t == [] || t[0] == 0 || t[0] == QUOTE {
    } else if t[0] != BACKSLASH {
      RestIsSuffix(t[1..]);
    } else if |t| >= 2 && t[1] == 117 {
      var u := Unicode(t[2..]);
      if u.Some? { RestIsSuffix(t[2 + u.value.1..]); }
    } else if |t| >= 2 {
      RestIsSuffix(t[2..]);
    }
  }

  lemma ObjectStart(t: Bytes, depth: nat)
    ensures Value(ObjBegin, t, depth) ==
            if depth + 1 > MAX_DEPTH then None
            else
              var (tok2, t2) := NextToken(t);
              if tok2.ObjEnd? then Some((Obj([]), t2)) else if !tok2.StrTok? then None
                else Members(tok2, t2, depth + 1, [])
  {
    hide NextToken, Members;
  }

  lemma ArrayStart(t: Bytes, depth: nat)
    ensures Value(ArrBegin, t, depth) ==
            if depth + 1 > MAX_DEPTH then None
            else
              var (tok2, t2) := NextToken(t);
              if tok2.ArrEnd? then Some((Obj([]), t2)) else if tok2.End? || tok2.Error? then None
                else Elements(tok2, t2, depth + 1, [])
  {
    hide NextToken, Elements;
  }

  lemma MembersStep(tok: Token, t: Bytes, depth: nat, pairs: seq<Pair>)
    requires tok.StrTok?
    ensures Members(tok, t, depth, pairs) ==
            var (tok2, t2) := NextToken(t);
            if !tok2.ColonTok? then None
            else
              var (tok3, t3) := NextToken(t2);
              var v := Value(tok3, t3, depth);
              if v.None? then None
              else
                var pairs2 := Put(pairs, tok.s, v.value.0);
                var (tok4, t4) := NextToken(v.value.1);
                if tok4.ObjEnd? then Some((Obj(pairs2), t4))
                else if !tok4.CommaTok? then None
                else var (tok5, t5) := NextToken(t4); Members(tok5, t5, depth, pairs2)
  {
    hide NextToken, Value;
  }

  lemma NoKey(tok: Token, t: Bytes, depth: nat, pairs: seq<Pair>)
    requires !tok.StrTok?
    ensures Members(tok, t, depth, pairs) == None
  {
  }

  lemma ElementsStep(tok: Token, t: Bytes, depth: nat, items: seq<Json>)
    ensures Elements(tok, t, depth, items) ==
            var v := Value(tok, t, depth);
            if v.None? then None
            else
              var (tok2, t2) := NextToken(v.value.1);
              if tok2.ArrEnd? then Some((Arr(items + [v.value.0]), t2))
              else if !tok2.CommaTok? then None
              else var (tok3, t3) := NextToken(t2); Elements(tok3, t3, depth, items + [v.value.0])
  {
    hide NextToken, Value;
  }

  /** json_decode: after a value that was read without error the depth is 0 again. */
  method DecodeJson(text: Bytes) returns (r: Option<Json>)
    ensures r == Decode(text)
  {
    hide NextToken, Value;
    if |text| >= 2 && (text[0] == 0 || text[1] == 0) { return None; }
    var json := new Parser(text);
    assert text[0..] == text;
    var tok := json.Next();
    r := json.ProcessValue(tok);
    if r.None? { return; }
    assert json.currentDepth == 0;
    tok := json.Next();
    if !tok.End? { return None; }
  }
}
