/** Buffered reading over a transport that delivers its stream in arbitrary pieces. */
module BufferedIo {
  import opened ByteType

  const BUF_SIZE := 8192
  const STEP_SIZE := 8192
  const LF: Byte := 10
  const CR: Byte := 13

  datatype Status = Done | Timeout | Closed | Failed(code: int)

  /** What the transport does on one call: it delivers some bytes, or none and an error. */
  datatype Event = Got(bytes: seq<Byte>) | Error(status: Status)

  predicate GoodEvent(e: Event) {
    match e
    case Got(bytes) => 0 < |bytes| <= BUF_SIZE
    case Error(status) => !status.Done?
  }

  /** The bytes that the transport has still to deliver. */
  function Stream(script: seq<Event>): seq<Byte> {
    if script == [] then [] else (if script[0].Got? then script[0].bytes else []) + Stream(script[1..])
  }

  /** How many bytes it delivers before its next error. */
  function Reach(script: seq<Event>): nat {
    if script == [] || script[0].Error? then 0 else |script[0].bytes| + Reach(script[1..])
  }

  /** The next error; a transport that has nothing left is closed. */
  function NextError(script: seq<Event>): Status {
    if script == [] then Closed else if script[0].Error? then script[0].status else NextError(script[1..])
  }

  /** Where the first LF is, or the length of s. */
  function LineEnd(s: seq<Byte>): (n: nat)
    ensures n <= |s| && (forall i :: 0 <= i < n ==> s[i] != LF) && (n < |s| ==> s[n] == LF)
  {
    if s == [] || s[0] == LF then 0 else 1 + LineEnd(s[1..])
  }

  predicate NoLf(s: seq<Byte>) {
    forall i :: 0 <= i < |s| ==> s[i] != LF
  }

  function DropCr(s: seq<Byte>): seq<Byte> {
    if s == [] then [] else (if s[0] == CR then [] else [s[0]]) + DropCr(s[1..])
  }

  lemma {:induction false} DropCrJoin(s: seq<Byte>, t: seq<Byte>)
    ensures DropCr(s + t) == DropCr(s) + DropCr(t)
    decreases |s|
  {
    if s == [] {
      assert s + t == t;
    } else {
      assert (s + t)[1..] == s[1..] + t;
      DropCrJoin(s[1..], t);
    }
  }

  /** Every CR is dropped, and nothing else. */
  lemma {:induction false} DropCrIs(s: seq<Byte>, t: seq<Byte>)
    ensures 13 !in DropCr(s) && DropCr(s + [13] + t) == DropCr(s) + DropCr(t)
    ensures 13 !in s ==> DropCr(s) == s
    decreases |s|
  {
    assert s + [13] + t == s + ([13] + t) && ([13] + t)[1..] == t;
    DropCrJoin(s, [13] + t);
    if s != [] { DropCrIs(s[1..], t); }
  }

  lemma AtEnd(rest: seq<Byte>)
    ensures LineEnd([LF] + rest) == 0
  {
  }

  lemma JoinLine(c0: seq<Byte>, c: seq<Byte>, line: seq<Byte>, piece: seq<Byte>, end: seq<Byte>)
    ensures c == c0 + line ==> c + (piece + end) == c0 + ((line + piece) + end) && c + piece == c0 + (line + piece)
  {
  }

  /** The line that ends in this piece. */
  lemma FoundLine(f0: seq<Byte>, line: seq<Byte>, f: seq<Byte>, piece: seq<Byte>, rest: seq<Byte>)
    requires f0 == line + f && f == (piece + [LF]) + rest
    requires NoLf(line)
    requires NoLf(piece)
    ensures f0 == ((line + piece) + [LF]) + rest && LineEnd(f0) == |line + piece|
    ensures NoLf(line + piece)
  {
    hide LineEnd;
    assert f0 == (line + piece) + ([LF] + rest);
    LineEndJoin(line + piece, [LF] + rest);
    AtEnd(rest);
  }

  lemma FoundLf(whole: seq<Byte>, piece: seq<Byte>, more: seq<Byte>)
    requires |piece| < |whole| && whole[..|piece|] == piece && whole[|piece|] == LF
    ensures whole[..|piece| + 1] == piece + [LF] && whole + more == (piece + [LF]) + (whole[|piece| + 1..] + more)
  {
    assert whole == (piece + [LF]) + whole[|piece| + 1..];
  }

  lemma MoreLine(f0: seq<Byte>, line: seq<Byte>, f: seq<Byte>, piece: seq<Byte>, rest: seq<Byte>)
    requires f0 == line + f && f == piece + rest
    requires NoLf(line)
    requires NoLf(piece)
    ensures f0 == (line + piece) + rest && NoLf(line + piece)
  {
  }

  lemma NoBytes()
    ensures DropCr([]) == [] && NoLf([])
  {
  }

  /** Bytes without LF in front of the rest do not end the line. */
  lemma {:induction false} LineEndJoin(s: seq<Byte>, t: seq<Byte>)
    requires NoLf(s)
    ensures LineEnd(s + t) == |s| + LineEnd(t)
    decreases |s|
  {
    if s == [] {
      assert s + t == t;
    } else {
      assert (s + t)[1..] == s[1..] + t;
      LineEndJoin(s[1..], t);
    }
  }

  // ---- what reads return, of the stream alone ----

  datatype Request = Bytes(n: nat) | Line

  /** The value that a request takes from a stream, and how many bytes of the stream that uses up. */
  function Take(r: Request, s: seq<Byte>): (seq<Byte>, nat)
    requires r.Bytes? ==> r.n <= |s|
    requires r.Line? ==> LineEnd(s) < |s|
  {
    match r
    case Bytes(n) => (s[..n], n)
    case Line => (DropCr(s[..LineEnd(s)]), LineEnd(s) + 1)
  }

  predicate Enough(r: Request, s: seq<Byte>) {
    match r
    case Bytes(n) => n <= |s|
    case Line => LineEnd(s) < |s|
  }

  /** Is the request met before the transport's next error, which comes after `reach` bytes? */
  predicate Arrives(r: Request, s: seq<Byte>, reach: nat) {
    Enough(r, s) && if r.Bytes? then r.n <= reach && reach > 0 else LineEnd(s) < reach
  }

  /** How many requests of a list are met before the next error. */
  function Met(rs: seq<Request>, s: seq<Byte>, reach: nat): (n: nat)
    ensures n <= |rs|
  {
    if rs == [] || !Arrives(rs[0], s, reach) then 0
    else
      var used := Take(rs[0], s).1;
      1 + Met(rs[1..], s[used..], reach - used)
  }

  /** The values of a list of requests, when the stream s is long enough for all of them. */
  function Values(rs: seq<Request>, s: seq<Byte>): seq<seq<Byte>> {
    if rs == [] || !Enough(rs[0], s) then []
    else
      var (v, used) := Take(rs[0], s);
      if used <= |s| then [v] + Values(rs[1..], s[used..]) else []
  }

  // ---- the buffer ----

  class Buffer {
    var first: nat
    var last: nat
    var received: nat
    const data: array<Byte>
    /** What the transport is going to do. */
    var script: seq<Event>
    /** All bytes that the transport has delivered, and all that reads have used up. */
    ghost var delivered: seq<Byte>
    ghost var consumed: seq<Byte>

    ghost predicate Valid()
      reads this, data
    {
      && data.Length == BUF_SIZE && first <= last <= BUF_SIZE
      && consumed + data[first..last] == delivered && received == |consumed|
      && forall i :: 0 <= i < |script| ==> GoodEvent(script[i])
    }

    /** The stream from the next byte to be read. */
    ghost function Future(): seq<Byte>
      reads this, data
      requires Valid()
    {
      data[first..last] + Stream(script)
    }

    /** How much of it comes before the next error. */
    ghost function Before(): nat
      reads this
      requires first <= last
    {
      last - first + Reach(script)
    }

    constructor (script: seq<Event>)
      requires forall i :: 0 <= i < |script| ==> GoodEvent(script[i])
      ensures Valid() && fresh(data) && this.script == script && Future() == Stream(script) && received == 0
              && delivered == []
      ensures Before() == Reach(script)
    {
      first, last, received := 0, 0, 0;
      data := new Byte[BUF_SIZE];
      this.script := script;
      delivered, consumed := [], [];
      new;
      assert data[0..0] == [];
    }

    predicate IsEmpty()
      reads this
    {
      first >= last
    }

    /** buffer_skip */
    method Skip(count: nat)
      requires Valid() && count <= last - first
      modifies this
      ensures Valid() && script == old(script) && delivered == old(delivered)
      ensures consumed == old(consumed) + old(data[first..first + count]) && received == old(received) + count
      ensures data[first..last] == old(data[first + count..last]) && last - first == old(last - first) - count
    {
      consumed := consumed + data[first..first + count];
      assert data[first..last] == data[first..first + count] + data[first + count..last];
      received := received + count;
      first := first + count;
      if IsEmpty() {
        first, last := 0, 0;
      }
    }

    /** io->recv: the transport fills the buffer, or fails and delivers nothing. */
    method Receive() returns (err: Status, got: nat)
      requires Valid() && IsEmpty()
      modifies this`script, this`delivered, data
      ensures |script| < |old(script)| || script == old(script) == []
      ensures forall i :: 0 <= i < |script| ==> GoodEvent(script[i])
      ensures got <= BUF_SIZE && data[..got] + Stream(script) == Stream(old(script))
              && delivered == old(delivered) + data[..got]
      ensures err == Done ==>
              |script| < |old(script)| && got > 0 && got + Reach(script) == Reach(old(script))
              && NextError(script) == NextError(old(script))
      ensures err != Done ==> got == 0 && Reach(old(script)) == 0 && err == NextError(old(script))
    {
      ghost var was := script;
      assert data[..0] == [] && delivered + [] == delivered;
      if script == [] {
        err, got := Closed, 0;
        assert [] + Stream(script) == Stream(script);
      } else if script[0].Error? {
        assert GoodEvent(script[0]);
        err, got := script[0].status, 0;
        script := script[1..];
        assert [] + Stream(script) == Stream(script);
      } else {
        assert GoodEvent(script[0]);
        var bytes := script[0].bytes;
        err, got := Done, |bytes|;
        var i := 0;
        while i < got
          invariant 0 <= i <= got <= data.Length && data[..i] == bytes[..i] && script == was
                    && delivered == old(delivered)
        {
          data[i] := bytes[i];
          assert data[..i + 1] == data[..i] + [bytes[i]];
          i := i + 1;
        }
        assert data[..got] == bytes;
        script := script[1..];
        delivered := delivered + data[..got];
      }
    }

    /** buffer_get: what is buffered, or else what the transport delivers next. */
    method Get() returns (err: Status, count: nat)
      requires Valid()
      modifies this, data
      ensures Valid() && count == last - first && Future() == old(Future())
              && (err == Done ==> Before() == old(Before()))
      ensures consumed == old(consumed) && received == old(received)
      ensures |script| <= |old(script)|
              && (if old(IsEmpty()) then err == Done ==> |script| < |old(script)| else script == old(script))
      ensures err == Done ==> count > 0 && NextError(script) == NextError(old(script))
      ensures err != Done ==> count == 0 && old(IsEmpty()) && old(Reach(script)) == 0 && err == NextError(old(script))
    {
      err := Done;
      if IsEmpty() {
        var got;
        err, got := Receive();
        first, last := 0, got;
        assert data[first..last] == data[..got];
      }
      count := last - first;
    }

    /** How a read leaves the buffer: it used up `used` of the stream. */
    twostate predicate Reads(used: seq<Byte>)
      reads this, data
    {
      && old(Valid()) && Valid()
      && old(Future()) == used + Future() && consumed == old(consumed) + used && received == old(received) + |used|
    }

    /** One turn of recvraw's loop: what is buffered or comes next, but no more than `limit` bytes. */
    method RawTurn(limit: nat) returns (err: Status, piece: seq<Byte>)
      requires Valid()
      modifies this, data
      ensures Reads(piece) && |piece| <= limit
      ensures err == Done ==>
              NextError(script) == NextError(old(script)) && Before() + |piece| == old(Before())
              && old(Before()) > 0
      ensures err == Done ==> |script| < |old(script)| || (script == old(script) && (limit > 0 ==> piece != []))
      ensures err != Done ==> piece == [] && old(Before()) == 0 && err == old(NextError(script))
    {
      var count;
      err, count := Get();
      piece := [];
      if err != Done {
        assert [] + Future() == Future() && consumed + [] == consumed;
        return;
      }
      ghost var f := Future();
      if count > limit { count := limit; }
      piece := data[first..first + count];
      assert data[first..last] == piece + data[first + count..last];
      Skip(count);
      assert f == piece + Future();
    }

    /**
      recvraw: it returns the next `wanted` bytes of the stream, or as many as come before the
      transport's next error.  A read of no bytes asks the transport too, if nothing is buffered.
     */
    method RecvRaw(wanted: nat) returns (err: Status, b: seq<Byte>)
      requires Valid()
      modifies this, data
      ensures Reads(b) && |b| <= wanted
      ensures err == Done <==> wanted <= old(Before()) && old(Before()) > 0
      ensures err == Done ==>
              |b| == wanted && Before() == old(Before()) - wanted && NextError(script) == old(NextError(script))
      ensures err != Done ==> |b| == old(Before()) && err == old(NextError(script))
    {
      hide Stream, Reach, NextError, GoodEvent;
      b, err := [], Done;
      ghost var f0, c0 := Future(), consumed;
      assert f0 == [] + f0 && c0 == c0 + [];
      while true
        invariant Valid() && f0 == b + Future() && consumed == c0 + b && received == old(received) + |b|
        invariant |b| <= wanted && (|b| == wanted ==> wanted == 0)
        invariant Before() + |b| == old(Before()) && NextError(script) == old(NextError(script))
        decreases |script|, wanted - |b|
      {
        var piece;
        err, piece := RawTurn(wanted - |b|);
        assert f0 == (b + piece) + Future() && consumed == c0 + (b + piece);
        b := b + piece;
        if err != Done || |b| >= wanted { return; }
      }
    }

    /** The inner loop of recvline: the bytes of the buffer before the first LF, without any CR. */
    method ScanLine() returns (pos: nat, part: seq<Byte>)
      requires Valid()
      ensures pos <= last - first && part == DropCr(data[first..first + pos])
      ensures NoLf(data[first..first + pos])
      ensures pos < last - first ==> data[first + pos] == LF
    {
      pos, part := 0, [];
      assert data[first..first] == [];
      while pos < last - first && data[first + pos] != LF
        invariant pos <= last - first && part == DropCr(data[first..first + pos])
        invariant forall i :: first <= i < first + pos ==> data[i] != LF
      {
        var c := data[first + pos];
        assert data[first..first + pos + 1] == data[first..first + pos] + [c];
        DropCrJoin(data[first..first + pos], [c]);
        assert [c][1..] == [];
        assert DropCr([c]) == if c == CR then [] else [c];
        if c != CR { part := part + [c]; } else { assert part + [] == part; }
        pos := pos + 1;
      }
    }

    /** A read that started with the stream f0 has used up `used` of it. */
    ghost predicate Used(f0: seq<Byte>, c0: seq<Byte>, r0: nat, used: seq<Byte>)
      reads this, data
    {
      Valid() && f0 == used + Future() && consumed == c0 + used && received == r0 + |used|
    }

    /** One turn of recvline's loop: the bytes up to the first LF, or all that are buffered, behind `line`. */
    method LineTurn(ghost f0: seq<Byte>, ghost c0: seq<Byte>, ghost r0: nat, ghost line: seq<Byte>)
      returns (err: Status, found: bool, part: seq<Byte>, ghost line2: seq<Byte>)
      requires Used(f0, c0, r0, line) && NoLf(line)
      modifies this, data
      ensures Used(f0, c0, r0, if found then line2 + [LF] else line2) && NoLf(line2)
              && DropCr(line2) == DropCr(line) + part
      ensures LineEnd(f0) >= |line2| && (found ==> LineEnd(f0) == |line2|)
      ensures err == Done ==> NextError(script) == NextError(old(script))
      ensures err == Done && !found ==> |script| < |old(script)| || (script == old(script) && old(last - first) > 0)
      ensures err == Done && !found ==> first == last
      ensures err == Done ==>
              Before() + |line2| + (if found then 1 else 0) == old(Before()) + |line| && |script| <= |old(script)|
      ensures err != Done ==>
              line2 == line && part == [] && !found && old(Before()) == 0 && err == old(NextError(script))
    {
      hide Stream, Reach, NextError, LineEnd, GoodEvent, DropCr, NoLf;
      var count, pos;
      err, count := Get();
      found, part, line2 := false, [], line;
      LineEndJoin(line, Future());
      assert DropCr(line) + [] == DropCr(line);
      if err != Done { return; }
      ghost var f, c := Future(), consumed;
      pos, part := ScanLine();
      ghost var piece := data[first..first + pos];
      DropCrJoin(line, piece);
      JoinLine(c0, c, line, piece, [LF]);
      line2 := line + piece;
      if pos < count {
        ghost var whole := data[first..last];
        Skip(pos + 1);
        FoundLf(whole, piece, Stream(script));
        found := true;
        assert f == (piece + [LF]) + Future();
        FoundLine(f0, line, f, piece, Future());
      } else {
        assert data[first..last] == piece;
        Skip(pos);
        assert Future() == Stream(script);
        MoreLine(f0, line, f, piece, Future());
        LineEndJoin(line2, Future());
      }
    }

    /**
      recvline: it returns the bytes before the first LF of the stream, without any CR, and
      uses up the LF too; or those that come before the transport's next error.
     */
    method RecvLine() returns (err: Status, b: seq<Byte>, ghost line: seq<Byte>)
      requires Valid()
      modifies this, data
      ensures b == DropCr(line) && (err == Done <==> LineEnd(old(Future())) < old(Before()))
      ensures err == Done ==> Reads(line + [LF]) && |line| == LineEnd(old(Future()))
      ensures err == Done ==> Before() == old(Before()) - |line| - 1 && NextError(script) == old(NextError(script))
      ensures err != Done ==> Reads(line) && |line| == old(Before()) && err == old(NextError(script))
    {
      hide LineEnd, DropCr, Stream, Reach, NextError, GoodEvent, NoLf;
      b, line, err := [], [], Done;
      NoBytes();
      ghost var f0, c0, r0 := Future(), consumed, received;
      assert f0 == [] + f0 && c0 == c0 + [];
      while true
        invariant Used(f0, c0, r0, line) && b == DropCr(line) && NoLf(line)
        invariant Before() + |line| == old(Before()) && NextError(script) == old(NextError(script))
        decreases |script|, last - first
      {
        var found, part;
        err, found, part, line := LineTurn(f0, c0, r0, line);
        b := b + part;
        if err != Done || found { return; }
      }
    }

    /**
      recvall: everything that comes before the next error, which is no error when it is the end and
      something came.
     */
    method RecvAll() returns (err: Status, b: seq<Byte>)
      requires Valid()
      modifies this, data
      ensures Reads(b) && |b| == old(Before())
      ensures err == if old(NextError(script)) == Closed && b != [] then Done else old(NextError(script))
    {
      hide Stream, Reach, NextError, GoodEvent;
      b, err := [], Done;
      ghost var f0, c0 := Future(), consumed;
      assert f0 == [] + f0 && c0 == c0 + [];
      while err == Done
        invariant Valid() && f0 == b + Future() && consumed == c0 + b && received == old(received) + |b|
        invariant err == Done ==> Before() + |b| == old(Before()) && NextError(script) == old(NextError(script))
        invariant err != Done ==> |b| == old(Before()) && err == old(NextError(script))
        decreases |script|, last - first, if err == Done then 1 else 0
      {
        var count;
        ghost var f := Future();
        err, count := Get();
        var piece := data[first..first + count];
        assert data[first..last] == piece;
        Skip(count);
        assert f == piece + Future();
        assert f0 == (b + piece) + Future();
        assert consumed == c0 + (b + piece);
        b := b + piece;
      }
      if err == Closed && b != [] { err := Done; }
    }
  }

  // ---- reads see only the stream ----

  lemma {:induction false} ReachWithin(script: seq<Event>)
    ensures Reach(script) <= |Stream(script)|
    decreases |script|
  {
    if script != [] { ReachWithin(script[1..]); }
  }

  /** One request; n tells how much of the stream it uses up. */
  method ServeOne(buf: Buffer, r: Request) returns (err: Status, v: seq<Byte>, ghost n: nat)
    requires buf.Valid()
    modifies buf, buf.data
    ensures buf.Valid()
    ensures err == Done ==> n <= |old(buf.Future())| && buf.Future() == old(buf.Future())[n..]
    ensures err == Done ==> Enough(r, old(buf.Future())) && Take(r, old(buf.Future())) == (v, n)
    ensures err == Done <==> Arrives(r, old(buf.Future()), old(buf.Before()))
    ensures err == Done ==> buf.Before() == old(buf.Before()) - n && NextError(buf.script) == old(NextError(buf.script))
    ensures err != Done ==> err == old(NextError(buf.script))
  {
    hide LineEnd, DropCr, Stream, Reach, NextError;
    ghost var f := buf.Future();
    ReachWithin(buf.script);
    if r.Bytes? {
      err, v := buf.RecvRaw(r.n);
      n := |v|;
      if err == Done { assert f == v + buf.Future() && f[..n] == v && f[n..] == buf.Future(); }
    } else {
      ghost var line;
      err, v, line := buf.RecvLine();
      n := |line| + 1;
      if err == Done {
        assert f == line + [LF] + buf.Future();
        assert f[..|line|] == line && f[n..] == buf.Future();
      }
    }
  }

  /**
    Serves requests until one meets an error.  However the transport cuts the stream into
    pieces, the values are those that the stream alone determines, and only a request that
    reaches beyond the next error meets it.
   */
  method Serve(buf: Buffer, rs: seq<Request>) returns (vs: seq<seq<Byte>>, err: Status)
    requires buf.Valid()
    modifies buf, buf.data
    ensures buf.Valid() && |vs| == Met(rs, old(buf.Future()), old(buf.Before()))
    ensures if |vs| == |rs| then err == Done else err == old(NextError(buf.script)) && err != Done
    ensures vs == Values(rs[..|vs|], old(buf.Future()))
  {
    hide Serving, Values, Enough, Take, Met, Arrives, NextError, Stream, Reach;
    vs, err := [], Done;
    ghost var f0, reach := buf.Future(), buf.Before();
    ServingNone(rs, f0, reach);
    while |vs| < |rs|
      invariant buf.Valid() && |vs| <= |rs| && err == Done
      invariant NextError(buf.script) == old(NextError(buf.script))
      invariant Serving(rs, vs, f0, reach, buf.Future(), buf.Before())
    {
      var v;
      ghost var n: nat;
      ghost var rest, left := buf.Future(), buf.Before();
      err, v, n := ServeOne(buf, rs[|vs|]);
      if err != Done {
        ServingEnds(rs, vs, f0, reach, rest, left);
        return;
      }
      ServingNext(rs, vs, f0, reach, rest, left, v, n);
      vs := vs + [v];
    }
    ServingEnds(rs, vs, f0, reach, buf.Future(), buf.Before());
  }

  /**
    The first of the requests rs have returned vs; `rest` of the stream is left, `left` of it before
    the next error.
   */
  ghost predicate Serving(rs: seq<Request>, vs: seq<seq<Byte>>, s: seq<Byte>, reach: nat, rest: seq<Byte>, left: nat) {
    && |vs| <= |rs|
    && Met(rs, s, reach) == |vs| + Met(rs[|vs|..], rest, left)
    && Served(rs[..|vs|], vs, s, rest)
  }

  lemma ServingNone(rs: seq<Request>, s: seq<Byte>, reach: nat)
    ensures Serving(rs, [], s, reach, s, reach)
  {
    hide Met, Served;
    NoneServed(s);
    assert rs[..0] == [] && rs[0..] == rs;
  }

  lemma ServingNext(rs: seq<Request>, vs: seq<seq<Byte>>, s: seq<Byte>, reach: nat, rest: seq<Byte>, left: nat,
      v: seq<Byte>, n: nat)
    requires Serving(rs, vs, s, reach, rest, left) && |vs| < |rs| && Arrives(rs[|vs|], rest, left)
    requires Enough(rs[|vs|], rest) && Take(rs[|vs|], rest) == (v, n)
    ensures n <= |rest| && n <= left && Serving(rs, vs + [v], s, reach, rest[n..], left - n)
  {
    hide Met, Served, Arrives, Enough, Take;
    MetStep(rs, |vs|, rest, left);
    ServeStep(rs[..|vs|], vs, s, rest, rs[|vs|], v, n);
    assert rs[..|vs|] + [rs[|vs|]] == rs[..|vs| + 1];
  }

  lemma ServingEnds(rs: seq<Request>, vs: seq<seq<Byte>>, s: seq<Byte>, reach: nat, rest: seq<Byte>, left: nat)
    requires Serving(rs, vs, s, reach, rest, left) && (|vs| < |rs| ==> !Arrives(rs[|vs|], rest, left))
    ensures |vs| == Met(rs, s, reach) && vs == Values(rs[..|vs|], s)
  {
    hide Met, Served, Arrives;
    NoMore(rs[..|vs|], vs, s, rest);
    if |vs| < |rs| {
      MetStep(rs, |vs|, rest, left);
    } else {
      NoneMet(rest, left);
      assert rs[|vs|..] == [];
    }
  }

  lemma NoneMet(s: seq<Byte>, reach: nat)
    ensures Met([], s, reach) == 0
  {
  }

  lemma MetStep(rs: seq<Request>, k: nat, s: seq<Byte>, reach: nat)
    requires k < |rs|
    ensures !Arrives(rs[k], s, reach) ==> Met(rs[k..], s, reach) == 0
    ensures Arrives(rs[k], s, reach) ==> var n := Take(rs[k], s).1;
            n <= reach && n <= |s| && Met(rs[k..], s, reach) == 1 + Met(rs[k + 1..], s[n..], reach - n)
  {
    hide LineEnd, DropCr;
    assert rs[k..][1..] == rs[k + 1..] && rs[k..][0] == rs[k];
  }

  /** The requests `before` have returned vs, and `rest` of the stream is left. */
  ghost predicate Served(before: seq<Request>, vs: seq<seq<Byte>>, s: seq<Byte>, rest: seq<Byte>) {
    forall more: seq<Request> :: Values(before + more, s) == vs + Values(more, rest)
  }

  lemma NoneServed(s: seq<Byte>)
    ensures Served([], [], s, s)
  {
    forall more: seq<Request> ensures Values([] + more, s) == [] + Values(more, s) {
      assert [] + more == more;
    }
  }

  lemma NoMore(before: seq<Request>, vs: seq<seq<Byte>>, s: seq<Byte>, rest: seq<Byte>)
    requires Served(before, vs, s, rest)
    ensures vs == Values(before, s)
  {
    assert before + [] == before;
    assert Values(before + [], s) == vs + Values([], rest);
    assert vs + [] == vs;
  }

  lemma ServeStep(before: seq<Request>, vs: seq<seq<Byte>>, s: seq<Byte>, rest: seq<Byte>, r: Request, v: seq<Byte>,
      n: nat)
    requires Served(before, vs, s, rest) && Enough(r, rest) && Take(r, rest) == (v, n) && n <= |rest|
    ensures Served(before + [r], vs + [v], s, rest[n..])
  {
    forall more: seq<Request> ensures Values((before + [r]) + more, s) == (vs + [v]) + Values(more, rest[n..]) {
      var ms := [r] + more;
      assert (before + [r]) + more == before + ms;
      ValuesStep(r, more, rest);
      assert vs + ([v] + Values(more, rest[n..])) == (vs + [v]) + Values(more, rest[n..]);
    }
  }

  lemma ValuesStep(r: Request, more: seq<Request>, rest: seq<Byte>)
    requires Enough(r, rest)
    ensures var (v, n) := Take(r, rest); n <= |rest| ==> Values([r] + more, rest) == [v] + Values(more, rest[n..])
  {
    assert ([r] + more)[1..] == more;
  }

  // ---- sending ----

  /** What the transport does with one block: how much of it goes out, and an error or not. */
  datatype Sent = Sent(done: nat, err: Status)

  predicate GoodSent(e: Sent) {
    e.done <= STEP_SIZE && (e.err == Done ==> e.done > 0)
  }

  function Least(a: nat, b: nat): nat {
    if a < b then a else b
  }

  /** What the transport takes of data that is sent in blocks until one fails, and that block's error. */
  function Outgoing(data: seq<Byte>, script: seq<Sent>): (seq<Byte>, Status)
    decreases |script|
  {
    if data == [] then ([], Done)
    else if script == [] then ([], Closed)
    else
      var n := Least(Least(|data|, STEP_SIZE), script[0].done);
      if script[0].err != Done then (data[..n], script[0].err)
      else var (rest, err) := Outgoing(data[n..], script[1..]); (data[..n] + rest, err)
  }

  /** The transport takes a first part of the data, and all of it exactly when there is no error. */
  lemma {:induction false} OutgoingPart(data: seq<Byte>, script: seq<Sent>)
    requires forall i :: 0 <= i < |script| ==> GoodSent(script[i])
    ensures var (out, err) := Outgoing(data, script);
            |out| <= |data| && out == data[..|out|] && (err == Done ==> out == data)
    decreases |script|
  {
    if data != [] && script != [] {
      var n := Least(Least(|data|, STEP_SIZE), script[0].done);
      if script[0].err == Done {
        OutgoingPart(data[n..], script[1..]);
        var rest := Outgoing(data[n..], script[1..]).0;
        assert data[..n + |rest|] == data[..n] + data[n..][..|rest|];
      }
    }
  }

  lemma OutgoingStep(data: seq<Byte>, k: nat, script: seq<Sent>, i: nat)
    requires k < |data| && i < |script|
    ensures var n := Least(Least(|data| - k, STEP_SIZE), script[i].done);
            Outgoing(data[k..], script[i..]) ==
              if script[i].err != Done then (data[k..k + n], script[i].err)
              else var (rest, err) := Outgoing(data[k + n..], script[i + 1..]); (data[k..k + n] + rest, err)
  {
    var n := Least(Least(|data| - k, STEP_SIZE), script[i].done);
    assert data[k..][..n] == data[k..k + n] && data[k..][n..] == data[k + n..];
    assert script[i..][0] == script[i] && script[i..][1..] == script[i + 1..];
  }

  /** sendraw: the loop hands the data over block by block, and stops at the first error of the transport. */
  method SendRaw(data: seq<Byte>, script: seq<Sent>) returns (err: Status, sent: nat, wire: seq<Byte>)
    requires forall i :: 0 <= i < |script| ==> GoodSent(script[i])
    ensures (wire, err) == Outgoing(data, script) && sent == |wire|
    ensures sent <= |data| && wire == data[..sent] && (err == Done ==> sent == |data|)
  {
    hide Sending, Outgoing;
    OutgoingPart(data, script);
    err, sent, wire := Done, 0, [];
    var i := 0;
    SendingNone(data, script);
    while sent < |data| && err == Done
      invariant sent <= |data| && i <= |script| && sent == |wire|
      invariant if err == Done then Sending(data, script, wire, sent, i) else Outgoing(data, script) == (wire, err)
      decreases |data| - sent, if err == Done then 1 else 0
    {
      if i == |script| {
        SendingEnds(data, script, wire, sent, i);
        return Closed, sent, wire;
      }
      SendingNext(data, script, wire, sent, i);
      var step := if |data| - sent <= STEP_SIZE then |data| - sent else STEP_SIZE;
      var done := if script[i].done <= step then script[i].done else step;
      wire := wire + data[sent..sent + done];
      err, sent, i := script[i].err, sent + done, i + 1;
    }
    if err == Done { SendingEnds(data, script, wire, sent, i); }
  }

  /** With sent bytes gone and i calls made, the rest goes out behind the wire. */
  ghost predicate Sending(data: seq<Byte>, script: seq<Sent>, wire: seq<Byte>, sent: nat, i: nat) {
    && sent <= |data| && i <= |script|
    && var (rest, err) := Outgoing(data[sent..], script[i..]); Outgoing(data, script) == (wire + rest, err)
  }

  lemma SendingNone(data: seq<Byte>, script: seq<Sent>)
    ensures Sending(data, script, [], 0, 0)
  {
    hide Outgoing;
    assert data[0..] == data && script[0..] == script;
    var (rest, err) := Outgoing(data, script);
    assert [] + rest == rest;
  }

  lemma SendingNext(data: seq<Byte>, script: seq<Sent>, wire: seq<Byte>, sent: nat, i: nat)
    requires Sending(data, script, wire, sent, i) && sent < |data| && i < |script|
    ensures var n := Least(Least(|data| - sent, STEP_SIZE), script[i].done);
            var out := wire + data[sent..sent + n];
            if script[i].err == Done then Sending(data, script, out, sent + n, i + 1)
              else Outgoing(data, script) == (out, script[i].err)
  {
    hide Outgoing;
    OutgoingStep(data, sent, script, i);
    var n := Least(Least(|data| - sent, STEP_SIZE), script[i].done);
    var rest := Outgoing(data[sent + n..], script[i + 1..]).0;
    assert wire + (data[sent..sent + n] + rest) == (wire + data[sent..sent + n]) + rest;
  }

  lemma SendingEnds(data: seq<Byte>, script: seq<Sent>, wire: seq<Byte>, sent: nat, i: nat)
    requires Sending(data, script, wire, sent, i) && (sent == |data| || i == |script|)
    ensures Outgoing(data, script) == (wire, if sent == |data| then Done else Closed)
  {
    hide Outgoing;
    assert wire + [] == wire;
    if sent == |data| {
      assert data[sent..] == [];
      NoData(script[i..]);
    } else {
      assert script[i..] == [];
      NoScript(data[sent..]);
    }
  }

  lemma NoScript(data: seq<Byte>)
    requires data != []
    ensures Outgoing(data, []) == ([], Closed)
  {
  }

  lemma NoData(script: seq<Sent>)
    ensures Outgoing([], script) == ([], Done)
  {
  }
}
