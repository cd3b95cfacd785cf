/** `filter.chain`: the machine with top, index and retry that pushes each piece through all filters. */
module LtnChain {
  import opened ByteType
  import opened LtnFilters

  // ---- the output that a chain still owes ----

  /** Where the chain stands: the filters below `top` have ended, filter `index` is next, with `chunk`. */
  datatype Place<!S> = Place(ss: seq<S>, top: nat, index: nat, chunk: Chunk, ended: bool)

  /** The filters above the top one have not been told to end, nor has the top one while the input goes on. */
  ghost predicate Alive<S(!new)>(law: Law<S>, p: Place<S>) {
    AllLive(law, p.ss, if p.ended then p.top + 1 else p.top) && (p.ended && p.top < |p.ss| ==> law.closing(p.ss[p.top]))
  }

  /**
    The pieces that filter k still puts out when it still receives `inp`: a filter below
    `index` owes the rest of its output, filter `index` the answer to `chunk`, and all owe
    what they put out at the end of their input.  The number counts the calls that this takes.
   */
  ghost function Stage<S(!new)>(fs: seq<Step<S>>, law: Law<S>, p: Place<S>, k: nat, inp: seq<Piece>): (seq<Piece>, nat)
    requires AllObey(fs, law) && Alive(law, p) && |p.ss| == |fs| && k < |fs|
  {
    var f, s := fs[k], p.ss[k];
    if k < p.top then ([], 0)
    else if p.ended && k == p.top then
      var z := Finish(f, law, s);
      (z, |z| + 1)
    else
      var called := k < p.index || (k == p.index && (p.ended || p.chunk.Some?));
      var (s1, a) := if called then Give(f, law, s, if k == p.index && p.chunk.Some? then p.chunk.value else [])
        else (s, []);
      var (s2, b) := GiveAll(f, law, s1, inp);
      assert Proper(f, law, s2, None);
      var z := Finish(f, law, s2);
      (a + b + z, (if called then |a| + 1 else 0) + |b| + |inp| + |z| + 1)
  }

  /** The pieces that the chain still returns, when filter k still receives `inp`. */
  ghost function Flow<S(!new)>(fs: seq<Step<S>>, law: Law<S>, p: Place<S>, k: nat, inp: seq<Piece>): seq<Piece>
    requires AllObey(fs, law) && Alive(law, p) && |p.ss| == |fs| && k <= |fs|
    decreases |fs| - k
  {
    if k == |fs| then inp else Flow(fs, law, p, k + 1, Stage(fs, law, p, k, inp).0)
  }

  /** The calls of filters that are still to come. */
  ghost function Work<S(!new)>(fs: seq<Step<S>>, law: Law<S>, p: Place<S>, k: nat, inp: seq<Piece>): nat
    requires AllObey(fs, law) && Alive(law, p) && |p.ss| == |fs| && k <= |fs|
    decreases |fs| - k
  {
    if k == |fs| then 0
    else
      var st := Stage(fs, law, p, k, inp);
      st.1 + Work(fs, law, p, k + 1, st.0)
  }

  /** What filter k still receives, when the caller still sends `rest`. */
  ghost function Inputs<S(!new)>(fs: seq<Step<S>>, law: Law<S>, p: Place<S>, k: nat, rest: seq<Piece>): seq<Piece>
    requires AllObey(fs, law) && Alive(law, p) && |p.ss| == |fs| && k <= |fs|
    decreases k
  {
    if k == 0 then rest else Stage(fs, law, p, k - 1, Inputs(fs, law, p, k - 1, rest)).0
  }

  ghost function WorkBefore<S(!new)>(fs: seq<Step<S>>, law: Law<S>, p: Place<S>, k: nat, rest: seq<Piece>): nat
    requires AllObey(fs, law) && Alive(law, p) && |p.ss| == |fs| && k <= |fs|
    decreases k
  {
    if k == 0 then 0
      else WorkBefore(fs, law, p, k - 1, rest) + Stage(fs, law, p, k - 1, Inputs(fs, law, p, k - 1, rest)).1
  }

  /** The chain seen from filter k on. */
  lemma {:induction false} FlowFrom<S(!new)>(fs: seq<Step<S>>, law: Law<S>, p: Place<S>, k: nat, rest: seq<Piece>)
    requires AllObey(fs, law) && Alive(law, p) && |p.ss| == |fs| && k <= |fs|
    ensures Flow(fs, law, p, 0, rest) == Flow(fs, law, p, k, Inputs(fs, law, p, k, rest))
    ensures Work(fs, law, p, 0, rest) == WorkBefore(fs, law, p, k, rest)
            + Work(fs, law, p, k, Inputs(fs, law, p, k, rest))
    decreases k
  {
    hide Stage;
    if k > 0 { FlowFrom(fs, law, p, k - 1, rest); }
  }

  /** Two places look the same to filter k. */
  ghost predicate SameAt<S(!new)>(fs: seq<Step<S>>, law: Law<S>, p: Place<S>, q: Place<S>, k: nat)
    requires AllObey(fs, law) && Alive(law, p) && Alive(law, q) && |p.ss| == |fs| == |q.ss| && k < |fs|
  {
    forall inp: seq<Piece> :: Stage(fs, law, p, k, inp) == Stage(fs, law, q, k, inp)
  }

  lemma {:induction false} SameFlow<S(!new)>(fs: seq<Step<S>>, law: Law<S>, p: Place<S>, q: Place<S>, k: nat,
      inp: seq<Piece>)
    requires AllObey(fs, law) && Alive(law, p) && Alive(law, q) && |p.ss| == |fs| == |q.ss| && k <= |fs|
    requires forall j :: k <= j < |fs| ==> SameAt(fs, law, p, q, j)
    ensures Flow(fs, law, p, k, inp) == Flow(fs, law, q, k, inp) && Work(fs, law, p, k, inp) == Work(fs, law, q, k, inp)
    decreases |fs| - k
  {
    hide Stage;
    if k < |fs| {
      assert SameAt(fs, law, p, q, k);
      SameFlow(fs, law, p, q, k + 1, Stage(fs, law, p, k, inp).0);
    }
  }

  lemma {:induction false} SameInputs<S(!new)>(fs: seq<Step<S>>, law: Law<S>, p: Place<S>, q: Place<S>, k: nat,
      rest: seq<Piece>)
    requires AllObey(fs, law) && Alive(law, p) && Alive(law, q) && |p.ss| == |fs| == |q.ss| && k <= |fs|
    requires forall j :: 0 <= j < k ==> SameAt(fs, law, p, q, j)
    ensures Inputs(fs, law, p, k, rest) == Inputs(fs, law, q, k, rest)
            && WorkBefore(fs, law, p, k, rest) == WorkBefore(fs, law, q, k, rest)
    decreases k
  {
    hide Stage;
    if k > 0 {
      SameInputs(fs, law, p, q, k - 1, rest);
      assert SameAt(fs, law, p, q, k - 1);
    }
  }

  /** From place p to place q the chain puts out `piece`, with one call of a filter. */
  ghost predicate Advances<S(!new)>(fs: seq<Step<S>>, law: Law<S>, p: Place<S>, q: Place<S>, rest: seq<Piece>,
      piece: seq<Piece>)
    requires AllObey(fs, law) && Alive(law, p) && Alive(law, q) && |p.ss| == |fs| == |q.ss|
  {
    && Flow(fs, law, p, 0, rest) == piece + Flow(fs, law, q, 0, rest)
    && Work(fs, law, p, 0, rest) == Work(fs, law, q, 0, rest) + 1
  }

  ghost predicate Sound<S(!new)>(fs: seq<Step<S>>, p: Place<S>) {
    && |p.ss| == |fs| && p.top <= p.index < |fs|
    && (!p.ended ==> p.top == 0) && (p.chunk.None? ==> p.ended || p.index == 0)
    && (p.ended && p.index == p.top ==> p.chunk.None?)
  }

  /** The chunk that filter `index` is called with. */
  function Called<S>(p: Place<S>): Chunk {
    if p.index == p.top || p.chunk.Some? then p.chunk else Some([])
  }

  /** The place q comes from p by a call of filter `index` that gives o. */
  ghost predicate After<S(!new)>(fs: seq<Step<S>>, p: Place<S>, q: Place<S>, o: Chunk) {
    && Sound(fs, p) && (p.ended || p.chunk.Some?) && q.ended == p.ended && |q.ss| == |fs|
    && (q.ss[p.index], o) == fs[p.index](p.ss[p.index], Called(p))
    && forall j :: 0 <= j < |fs| && j != p.index ==> q.ss[j] == p.ss[j]
  }

  /** The filters that have not ended stay so when filter `index` answers, or when it ends and is passed over. */
  lemma StaysAlive<S(!new)>(fs: seq<Step<S>>, law: Law<S>, p: Place<S>, q: Place<S>, o: Chunk)
    requires AllObey(fs, law) && Alive(law, p) && After(fs, p, q, o)
    requires (q.top == p.top && o.Some?) || (q.top == p.top + 1 && p.index == p.top)
    ensures Alive(law, q)
  {
    assert Proper(fs[p.index], law, p.ss[p.index], Called(p));
    if q.top == p.top + 1 < |fs| { assert Proper(fs[q.top], law, q.ss[q.top], None); }
  }

  /** A chain that may be given data may be told to end. */
  lemma MayEnd<S(!new)>(fs: seq<Step<S>>, law: Law<S>, p: Place<S>, q: Place<S>)
    requires AllObey(fs, law) && Alive(law, p) && |p.ss| == |fs| && !p.ended && q.ss == p.ss && q.top == p.top
    ensures Alive(law, q)
  {
    if p.top < |fs| { assert Proper(fs[p.top], law, p.ss[p.top], None); }
  }

  /** Filter `index` answers with data: what it still owed is its answer and what it owes now. */
  lemma Answer<S(!new)>(fs: seq<Step<S>>, law: Law<S>, p: Place<S>, q: Place<S>, o: Chunk, inp: seq<Piece>)
    requires AllObey(fs, law) && Alive(law, p) && Alive(law, q) && After(fs, p, q, o) && q.top == p.top && o.Some?
             && o.value != []
    requires q.index > p.index || (q.index == p.index && q.chunk == if p.ended then None else Some([]))
    ensures var st, st2 := Stage(fs, law, p, p.index, inp), Stage(fs, law, q, p.index, inp);
            st.0 == [o.value] + st2.0 && st.1 == st2.1 + 1
  {
    var f, s, s2 := fs[p.index], p.ss[p.index], q.ss[p.index];
    if p.ended && p.index == p.top {
      assert Finish(f, law, s) == [o.value] + Finish(f, law, s2);
    } else {
      var c := if p.chunk.Some? then p.chunk.value else [];
      var (s3, a) := Give(f, law, s2, []);
      assert Give(f, law, s, c) == (s3, [o.value] + a);
      var (s4, b) := GiveAll(f, law, s3, inp);
      assert Proper(f, law, s4, None);
      var z := Finish(f, law, s4);
      assert Stage(fs, law, p, p.index, inp) == (([o.value] + a) + b + z, |[o.value] + a| + 1 + |b| + |inp| + |z| + 1);
      assert Stage(fs, law, q, p.index, inp) == (a + b + z, |a| + 1 + |b| + |inp| + |z| + 1);
    }
  }

  /** A filter that receives a piece first is a filter that is called with that piece. */
  lemma Receive<S(!new)>(fs: seq<Step<S>>, law: Law<S>, p: Place<S>, q: Place<S>, c: Piece, inp: seq<Piece>)
    requires AllObey(fs, law) && Alive(law, p) && Alive(law, q) && |p.ss| == |fs| == |q.ss| && q.index < |fs|
             && q.ss[q.index] == p.ss[q.index]
    requires q.chunk == Some(c) && q.top == p.top && q.ended == p.ended && q.top <= q.index
             && !(q.ended && q.index == q.top)
    requires p.index < q.index || (p.index == q.index && p.chunk.None? && !p.ended)
    ensures Stage(fs, law, p, q.index, [c] + inp) == Stage(fs, law, q, q.index, inp)
  {
    var f, s := fs[q.index], p.ss[q.index];
    assert ([c] + inp)[1..] == inp;
    var (s1, a) := Give(f, law, s, c);
    var (s2, b) := GiveAll(f, law, s1, inp);
    assert GiveAll(f, law, s, [c] + inp) == (s2, a + b);
    assert Proper(f, law, s2, None);
    var z := Finish(f, law, s2);
    assert [] + (a + b) + z == a + b + z;
    assert Stage(fs, law, p, q.index, [c] + inp) == ([] + (a + b) + z, 0 + |a + b| + |[c] + inp| + |z| + 1);
    assert Stage(fs, law, q, q.index, inp) == (a + b + z, |a| + 1 + |b| + |inp| + |z| + 1);
  }

  /** The answer goes to the next filter. */
  lemma Deeper<S(!new)>(fs: seq<Step<S>>, law: Law<S>, p: Place<S>, q: Place<S>, o: Chunk, rest: seq<Piece>)
    requires AllObey(fs, law) && Alive(law, p) && Alive(law, q) && After(fs, p, q, o) && o.Some? && o.value != []
    requires q.top == p.top && q.index == p.index + 1 < |fs| && q.chunk == o
    ensures Advances(fs, law, p, q, rest, [])
  {
    var m := p.index;
    DeeperSame(fs, law, p, q, o);
    hide *;
    SameInputs(fs, law, p, q, m, rest);
    var inp := Inputs(fs, law, p, m, rest);
    var y := Stage(fs, law, q, m, inp).0;
    Answer(fs, law, p, q, o, inp);
    Receive(fs, law, p, q, o.value, y);
    DeeperGlue(fs, law, p, q, m, inp, o.value, rest);
  }

  lemma DeeperSame<S(!new)>(fs: seq<Step<S>>, law: Law<S>, p: Place<S>, q: Place<S>, o: Chunk)
    requires AllObey(fs, law) && Alive(law, p) && Alive(law, q) && After(fs, p, q, o)
    requires q.top == p.top && q.index == p.index + 1 < |fs|
    ensures |p.ss| == |fs| == |q.ss| && q.ss[q.index] == p.ss[q.index] && q.ended == p.ended && q.top <= p.index
    ensures forall j :: 0 <= j < |fs| && j != p.index && j != p.index + 1 ==> SameAt(fs, law, p, q, j)
  {
    forall j | 0 <= j < |fs| && j != p.index && j != p.index + 1 ensures SameAt(fs, law, p, q, j) {
      hide Give, GiveAll, Finish;
    }
  }

  /** Filters m and m + 1 change: what the first one puts out now, the second one has been given. */
  lemma DeeperGlue<S(!new)>(fs: seq<Step<S>>, law: Law<S>, p: Place<S>, q: Place<S>, m: nat, inp: seq<Piece>, c: Piece,
      rest: seq<Piece>)
    requires AllObey(fs, law) && Alive(law, p) && Alive(law, q) && |p.ss| == |fs| == |q.ss| && m + 1 < |fs|
    requires forall j :: 0 <= j < |fs| && j != m && j != m + 1 ==> SameAt(fs, law, p, q, j)
    requires inp == Inputs(fs, law, p, m, rest) == Inputs(fs, law, q, m, rest)
    requires WorkBefore(fs, law, p, m, rest) == WorkBefore(fs, law, q, m, rest)
    requires var st, st2 := Stage(fs, law, p, m, inp), Stage(fs, law, q, m, inp);
             && st.0 == [c] + st2.0 && st.1 == st2.1 + 1
             && Stage(fs, law, p, m + 1, [c] + st2.0) == Stage(fs, law, q, m + 1, st2.0)
    ensures Advances(fs, law, p, q, rest, [])
  {
    hide Stage, Inputs, SameAt, WorkBefore;
    var y := Stage(fs, law, q, m, inp).0;
    FlowFrom(fs, law, p, m, rest);
    FlowFrom(fs, law, q, m, rest);
    SameFlow(fs, law, p, q, m + 2, Stage(fs, law, q, m + 1, y).0);
  }

  /** The last filter's answer is an output of the chain. */
  lemma Returned<S(!new)>(fs: seq<Step<S>>, law: Law<S>, p: Place<S>, q: Place<S>, o: Chunk, rest: seq<Piece>)
    requires AllObey(fs, law) && Alive(law, p) && Alive(law, q) && After(fs, p, q, o) && o.Some? && o.value != []
    requires q.top == p.top && q.index == p.index == |fs| - 1 && q.chunk == if p.ended then None else Some([])
    ensures Advances(fs, law, p, q, rest, [o.value])
  {
    var m := p.index;
    forall j | 0 <= j < m ensures SameAt(fs, law, p, q, j) {}
    SameInputs(fs, law, p, q, m, rest);
    var inp := Inputs(fs, law, p, m, rest);
    Answer(fs, law, p, q, o, inp);
    hide Stage, Inputs, SameAt;
    FlowFrom(fs, law, p, m, rest);
    FlowFrom(fs, law, q, m, rest);
  }

  /** Filter `index` has no output left: it owes nothing for its chunk. */
  lemma Drained<S(!new)>(fs: seq<Step<S>>, law: Law<S>, p: Place<S>, q: Place<S>, o: Chunk, inp: seq<Piece>)
    requires AllObey(fs, law) && Alive(law, p) && Alive(law, q) && After(fs, p, q, o) && q.top == p.top
             && o == Some([]) && !(p.ended && p.index == p.top)
    requires q.index < p.index || (q.index == p.index && q.chunk.None? && !p.ended)
    ensures var st, st2 := Stage(fs, law, p, p.index, inp), Stage(fs, law, q, p.index, inp);
            st.0 == st2.0 && st.1 == st2.1 + 1
  {
  }

  /** The filter before is asked for more output, or for its end. */
  lemma Back<S(!new)>(fs: seq<Step<S>>, law: Law<S>, p: Place<S>, q: Place<S>, o: Chunk, rest: seq<Piece>)
    requires AllObey(fs, law) && Alive(law, p) && Alive(law, q) && After(fs, p, q, o) && o == Some([])
    requires p.index > p.top == q.top && q.index == p.index - 1 && q.chunk == if p.ended then None else Some([])
    ensures Advances(fs, law, p, q, rest, [])
  {
    var m := p.index;
    BackSame(fs, law, p, q, o);
    hide *;
    SameInputs(fs, law, p, q, m, rest);
    var inp := Inputs(fs, law, p, m, rest);
    Drained(fs, law, p, q, o, inp);
    BackGlue(fs, law, p, q, m, inp, rest);
  }

  lemma BackSame<S(!new)>(fs: seq<Step<S>>, law: Law<S>, p: Place<S>, q: Place<S>, o: Chunk)
    requires AllObey(fs, law) && Alive(law, p) && Alive(law, q) && After(fs, p, q, o)
    requires p.index > p.top == q.top && q.index == p.index - 1 && q.chunk == if p.ended then None else Some([])
    ensures |p.ss| == |fs| == |q.ss| && p.index < |fs| && !(p.ended && p.index == p.top)
    ensures forall j :: 0 <= j < |fs| && j != p.index ==> SameAt(fs, law, p, q, j)
  {
    forall j | 0 <= j < |fs| && j != p.index ensures SameAt(fs, law, p, q, j) {
      hide Give, GiveAll, Finish;
    }
  }

  /** Only filter m changes, and it owes the same with one call less. */
  lemma BackGlue<S(!new)>(fs: seq<Step<S>>, law: Law<S>, p: Place<S>, q: Place<S>, m: nat, inp: seq<Piece>,
      rest: seq<Piece>)
    requires AllObey(fs, law) && Alive(law, p) && Alive(law, q) && |p.ss| == |fs| == |q.ss| && m < |fs|
    requires forall j :: 0 <= j < |fs| && j != m ==> SameAt(fs, law, p, q, j)
    requires inp == Inputs(fs, law, p, m, rest) == Inputs(fs, law, q, m, rest)
    requires WorkBefore(fs, law, p, m, rest) == WorkBefore(fs, law, q, m, rest)
    requires var st, st2 := Stage(fs, law, p, m, inp), Stage(fs, law, q, m, inp); st.0 == st2.0 && st.1 == st2.1 + 1
    ensures Advances(fs, law, p, q, rest, [])
  {
    hide Stage, Inputs, SameAt, WorkBefore;
    FlowFrom(fs, law, p, m, rest);
    FlowFrom(fs, law, q, m, rest);
    SameFlow(fs, law, p, q, m + 1, Stage(fs, law, q, m, inp).0);
  }

  /** The first filter has no output left, and the chain asks for more input. */
  lemma Idle<S(!new)>(fs: seq<Step<S>>, law: Law<S>, p: Place<S>, q: Place<S>, o: Chunk, rest: seq<Piece>)
    requires AllObey(fs, law) && Alive(law, p) && Alive(law, q) && After(fs, p, q, o) && o == Some([]) && !p.ended
    requires p.index == p.top == q.index == q.top && q.chunk.None?
    ensures Advances(fs, law, p, q, rest, [])
  {
    var m := p.index;
    forall j | 0 <= j < |fs| && j != m ensures SameAt(fs, law, p, q, j) {}
    Drained(fs, law, p, q, o, rest);
    hide Stage, SameAt;
    SameFlow(fs, law, p, q, 1, Stage(fs, law, q, 0, rest).0);
  }

  /** The top filter has ended, and nil goes to the next one. */
  lemma NextTop<S(!new)>(fs: seq<Step<S>>, law: Law<S>, p: Place<S>, q: Place<S>, o: Chunk)
    requires AllObey(fs, law) && Alive(law, p) && Alive(law, q) && After(fs, p, q, o) && o.None?
    requires p.ended && p.index == p.top < |fs| - 1 && q.top == q.index == p.top + 1 && q.chunk.None?
    ensures Advances(fs, law, p, q, [], [])
  {
    var m := p.index;
    NextSame(fs, law, p, q, o);
    EndOf(fs, law, p, q, m + 1);
    hide *;
    SameInputs(fs, law, p, q, m, []);
    NextGlue(fs, law, p, q, m);
  }

  lemma NextSame<S(!new)>(fs: seq<Step<S>>, law: Law<S>, p: Place<S>, q: Place<S>, o: Chunk)
    requires AllObey(fs, law) && Alive(law, p) && Alive(law, q) && After(fs, p, q, o) && o.None?
    requires p.ended && p.index == p.top < |fs| - 1 && q.top == q.index == p.top + 1 && q.chunk.None?
    ensures |p.ss| == |fs| == |q.ss|
    ensures forall j :: 0 <= j < |fs| && j != p.index && j != p.index + 1 ==> SameAt(fs, law, p, q, j)
    ensures forall inp: seq<Piece> ::
              Stage(fs, law, p, p.index, inp) == ([], 1) && Stage(fs, law, q, p.index, inp) == ([], 0)
  {
    assert Finish(fs[p.index], law, p.ss[p.index]) == [];
    forall j | 0 <= j < |fs| && j != p.index && j != p.index + 1 ensures SameAt(fs, law, p, q, j) {
      hide Give, GiveAll, Finish;
    }
  }

  lemma NextGlue<S(!new)>(fs: seq<Step<S>>, law: Law<S>, p: Place<S>, q: Place<S>, m: nat)
    requires AllObey(fs, law) && Alive(law, p) && Alive(law, q) && |p.ss| == |fs| == |q.ss| && m + 1 < |fs|
    requires forall j :: 0 <= j < |fs| && j != m && j != m + 1 ==> SameAt(fs, law, p, q, j)
    requires Inputs(fs, law, p, m, []) == Inputs(fs, law, q, m, [])
             && WorkBefore(fs, law, p, m, []) == WorkBefore(fs, law, q, m, [])
    requires forall inp: seq<Piece> :: Stage(fs, law, p, m, inp) == ([], 1) && Stage(fs, law, q, m, inp) == ([], 0)
    requires Stage(fs, law, p, m + 1, []) == Stage(fs, law, q, m + 1, [])
    ensures Advances(fs, law, p, q, [], [])
  {
    hide Stage, Inputs, SameAt, WorkBefore;
    FlowFrom(fs, law, p, m, []);
    FlowFrom(fs, law, q, m, []);
    SameFlow(fs, law, p, q, m + 2, Stage(fs, law, q, m + 1, []).0);
  }

  /** A filter that receives nothing more puts out what it does at the end of its input. */
  lemma EndOf<S(!new)>(fs: seq<Step<S>>, law: Law<S>, p: Place<S>, q: Place<S>, k: nat)
    requires AllObey(fs, law) && Alive(law, p) && Alive(law, q) && |p.ss| == |fs| == |q.ss| && k < |fs|
             && q.ss[k] == p.ss[k] && q.ended && q.top == k
    requires p.top <= k && p.index <= k && (p.ended ==> p.top < k && p.index < k)
             && (p.index == k ==> p.chunk.None? && !p.ended)
    ensures Stage(fs, law, p, k, []) == Stage(fs, law, q, k, [])
  {
    var (s2, b) := GiveAll(fs[k], law, p.ss[k], []);
    assert s2 == p.ss[k] && b == [];
    var z := Finish(fs[k], law, p.ss[k]);
    assert [] + [] + z == z;
  }

  /** The last filter has ended: the chain owes nothing. */
  lemma Over<S(!new)>(fs: seq<Step<S>>, law: Law<S>, p: Place<S>, q: Place<S>, o: Chunk)
    requires AllObey(fs, law) && Alive(law, p) && After(fs, p, q, o) && o.None? && p.ended
             && p.index == p.top == |fs| - 1
    ensures Flow(fs, law, p, 0, []) == []
  {
    var m := p.index;
    var inp := Inputs(fs, law, p, m, []);
    assert Stage(fs, law, p, m, inp).0 == [];
    hide Stage, Inputs;
    FlowFrom(fs, law, p, m, []);
  }

  /** A piece that the idle chain is given. */
  lemma Fed<S(!new)>(fs: seq<Step<S>>, law: Law<S>, p: Place<S>, q: Place<S>, c: Piece, rest: seq<Piece>)
    requires AllObey(fs, law) && Alive(law, p) && Alive(law, q) && Sound(fs, p) && Sound(fs, q) && p.ss == q.ss
             && !p.ended && !q.ended
    requires p.index == 0 && q.index == 0 && p.chunk.None? && q.chunk == Some(c)
    ensures Flow(fs, law, p, 0, [c] + rest) == Flow(fs, law, q, 0, rest)
  {
    forall j | 0 < j < |fs| ensures SameAt(fs, law, p, q, j) {}
    Receive(fs, law, p, q, c, rest);
    hide Stage, SameAt;
    SameFlow(fs, law, p, q, 1, Stage(fs, law, q, 0, rest).0);
  }

  /** The idle chain is told that its input has ended. */
  lemma Ended<S(!new)>(fs: seq<Step<S>>, law: Law<S>, p: Place<S>, q: Place<S>)
    requires AllObey(fs, law) && Alive(law, p) && Alive(law, q) && Sound(fs, p) && Sound(fs, q) && p.ss == q.ss
             && !p.ended && q.ended
    requires p.index == 0 && q.index == 0 && p.chunk.None? && q.chunk.None?
    ensures Flow(fs, law, p, 0, []) == Flow(fs, law, q, 0, [])
  {
    forall j | 0 < j < |fs| ensures SameAt(fs, law, p, q, j) {}
    EndOf(fs, law, p, q, 0);
    hide Stage, SameAt;
    SameFlow(fs, law, p, q, 1, Stage(fs, law, q, 0, []).0);
  }

  /** An idle chain owes what the pipeline of its filters makes of the input to come. */
  lemma {:induction false} IdleFlow<S(!new)>(fs: seq<Step<S>>, law: Law<S>, p: Place<S>, k: nat, inp: seq<Piece>)
    requires AllObey(fs, law) && Alive(law, p) && Sound(fs, p) && !p.ended && p.index == 0 && p.chunk.None? && k <= |fs|
    ensures Flow(fs, law, p, k, inp) == Pipeline(fs, law, p.ss, k, inp)
    decreases |fs| - k
  {
    if k < |fs| {
      assert Stage(fs, law, p, k, inp).0 == Whole(fs[k], law, p.ss[k], inp);
      IdleFlow(fs, law, p, k + 1, Whole(fs[k], law, p.ss[k], inp));
    }
  }

  // ---- the machine ----

  class Chain<S(!new)> {
    const filters: seq<Step<S>>
    var states: seq<S>
    var top: nat
    var index: nat
    var retry: Chunk

    /** Where the chain stands when it is called with a chunk. */
    ghost function Here(chunk: Chunk): Place<S>
      reads this
    {
      Place(states, top, index, chunk, retry.None?)
    }

    ghost predicate Standing(law: Law<S>, chunk: Chunk)
      reads this
    {
      Sound(filters, Here(chunk)) && Alive(law, Here(chunk))
    }

    /** The chain waits for input: the state it starts in and the one in which it returns "". */
    ghost predicate Waiting(law: Law<S>)
      reads this
    {
      Standing(law, None) && retry == Some([]) && index == 0
    }

    constructor (filters: seq<Step<S>>, states: seq<S>, ghost law: Law<S>)
      requires |filters| == |states| > 0 && AllLive(law, states, 0)
      ensures Waiting(law) && this.filters == filters && this.states == states
    {
      this.filters, this.states := filters, states;
      top, index, retry := 0, 0, Some([]);
    }

    /**
      The chunk that the chain may be called with next: data or nil when it waits, and otherwise
      what it was last told.
     */
    ghost predicate Accepts(law: Law<S>, chunk: Chunk)
      reads this
    {
      && Sound(filters, Place(states, top, index, chunk, chunk.None?))
        && Alive(law, Place(states, top, index, chunk, chunk.None?))
      && (if retry.None? then chunk.None? else retry == Some([]))
      && (!Waiting(law) && retry.Some? ==> chunk.Some?)
    }

    /** One turn of the loop: calls filter `index`; `done` tells that the chain returns the chunk. */
    method Turn(chunk: Chunk, ghost law: Law<S>, ghost rest: seq<Piece>) returns (done: bool, next: Chunk)
      requires AllObey(filters, law) && Standing(law, chunk) && (retry.Some? ==> chunk.Some? && retry == Some([]))
               && (retry.None? ==> rest == [])
      modifies this
      ensures retry == old(retry)
      ensures !done ==>
              Standing(law, next) && (retry.Some? ==> next.Some?)
              && Advances(filters, law, old(Here(chunk)), Here(next), rest, [])
      ensures done && next.None? ==> retry.None? && Flow(filters, law, old(Here(chunk)), 0, rest) == []
      ensures done && next == Some([]) ==>
              Waiting(law) && Advances(filters, law, old(Here(chunk)), Here(None), rest, [])
      ensures done && next.Some? && next.value != [] ==>
                Accepts(law, retry) && Standing(law, retry)
                  && Advances(filters, law, old(Here(chunk)), Here(retry), rest, [next.value])
    {
      hide Flow, Work, Advances, Stage;
      ghost var p := Here(chunk);
      var arg := if index == top || chunk.Some? then chunk else Some([]);
      var (s, o) := filters[index](states[index], arg);
      assert Proper(filters[index], law, states[index], arg);
      states := states[index := s];
      if index == top {
        if o == Some([]) {
          StaysAlive(filters, law, p, Here(None), o);
          Idle(filters, law, p, Here(None), o, rest);
          return true, o;
        } else if o.Some? && top == |filters| - 1 {
          StaysAlive(filters, law, p, Here(retry), o);
          Returned(filters, law, p, Here(retry), o, rest);
          return true, o;
        } else if o.Some? {
          index := index + 1;
          StaysAlive(filters, law, p, Here(o), o);
          Deeper(filters, law, p, Here(o), o, rest);
        } else if top == |filters| - 1 {
          Over(filters, law, p, Here(None), o);
          return true, o;
        } else {
          top := top + 1;
          index := top;
          StaysAlive(filters, law, p, Here(o), o);
          NextTop(filters, law, p, Here(o), o);
        }
        return false, o;
      } else {
        if o == Some([]) {
          index := index - 1;
          StaysAlive(filters, law, p, Here(retry), o);
          Back(filters, law, p, Here(retry), o, rest);
          return false, retry;
        } else if index == |filters| - 1 {
          StaysAlive(filters, law, p, Here(retry), o);
          Returned(filters, law, p, Here(retry), o, rest);
          return true, o;
        } else {
          index := index + 1;
          StaysAlive(filters, law, p, Here(o), o);
          Deeper(filters, law, p, Here(o), o, rest);
          return false, o;
        }
      }
    }

    /** The function that `filter.chain` returns. */
    method Call(chunk0: Chunk, ghost law: Law<S>, ghost rest: seq<Piece>) returns (out: Chunk)
      requires AllObey(filters, law) && Accepts(law, chunk0) && (chunk0.None? ==> rest == [])
      modifies this
      ensures retry == if chunk0.None? then None else old(retry)
      ensures var p := Place(old(states), old(top), old(index), chunk0, chunk0.None?);
              && (out.None? ==> chunk0.None? && Flow(filters, law, p, 0, rest) == [])
              && (out == Some([]) ==>
                Waiting(law) && Flow(filters, law, p, 0, rest) == Flow(filters, law, Here(None), 0, rest))
              && (out.Some? && out.value != [] ==>
                    Accepts(law, retry) && Standing(law, retry)
                    && Flow(filters, law, p, 0, rest) == [out.value] + Flow(filters, law, Here(retry), 0, rest)
                    && Work(filters, law, p, 0, rest) > Work(filters, law, Here(retry), 0, rest))
    {
      hide Flow, Work;
      ghost var p := Place(states, top, index, chunk0, chunk0.None?);
      var chunk := chunk0;
      retry := if chunk.None? then None else retry;
      while true
        invariant Standing(law, chunk) && retry == (if chunk0.None? then None else old(retry))
        invariant retry.Some? ==> chunk.Some? && retry == Some([])
        invariant Flow(filters, law, p, 0, rest) == Flow(filters, law, Here(chunk), 0, rest)
        invariant Work(filters, law, p, 0, rest) >= Work(filters, law, Here(chunk), 0, rest)
        decreases Work(filters, law, Here(chunk), 0, rest)
      {
        ghost var h := Here(chunk);
        var done, next := Turn(chunk, law, rest);
        if done { return next; }
        assert [] + Flow(filters, law, Here(next), 0, rest) == Flow(filters, law, Here(next), 0, rest);
        chunk := next;
      }
    }
  }

  // ---- driving the chain ----

  function NonEmpty(cs: seq<Piece>): seq<Piece> {
    if cs == [] then [] else (if cs[0] != [] then [cs[0]] else []) + NonEmpty(cs[1..])
  }

  /** Gives one chunk to the chain and collects its output; the loop of `sink.chain`. */
  method Feed<S(!new)>(chain: Chain<S>, chunk: Chunk, ghost law: Law<S>, ghost rest: seq<Piece>)
      returns (out: seq<Piece>)
    requires AllObey(chain.filters, law) && chain.Accepts(law, chunk) && chain.Waiting(law)
             && (chunk.None? ==> rest == [])
    modifies chain
    ensures var p := Place(old(chain.states), old(chain.top), old(chain.index), chunk, chunk.None?);
            && (chunk.None? ==> out == Flow(chain.filters, law, p, 0, rest))
            && (chunk.Some? ==> chain.Waiting(law))
            && (chunk.Some? ==>
                Flow(chain.filters, law, p, 0, rest) == out + Flow(chain.filters, law, chain.Here(None), 0, rest))
  {
    hide Flow, Work;
    ghost var p := Place(chain.states, chain.top, chain.index, chunk, chunk.None?);
    ghost var fs := chain.filters;
    out := [];
    var filtered := chain.Call(chunk, law, rest);
    assert filtered.Some? ==> [] + [filtered.value] == [filtered.value];
    if filtered == Some([]) {
      assert [] + Flow(fs, law, chain.Here(None), 0, rest) == Flow(fs, law, chain.Here(None), 0, rest);
    }
    while filtered.Some? && filtered.value != []
      invariant chain.retry == if chunk.None? then None else Some([])
      invariant filtered.None? ==> chunk.None? && Flow(fs, law, p, 0, rest) == out
      invariant filtered == Some([]) ==>
                chain.Waiting(law) && Flow(fs, law, p, 0, rest) == out + Flow(fs, law, chain.Here(None), 0, rest)
      invariant filtered.Some? && filtered.value != [] ==>
                  chain.Accepts(law, chain.retry) && chain.Standing(law, chain.retry)
                  && Flow(fs, law, p, 0, rest) == out + [filtered.value]
                    + Flow(fs, law, chain.Here(chain.retry), 0, rest)
      decreases if filtered.Some? && filtered.value != [] then 1 + Work(fs, law, chain.Here(chain.retry), 0, rest)
        else 0
    {
      out := out + [filtered.value];
      ghost var old_out := out;
      filtered := chain.Call(chain.retry, law, rest);
      if filtered.None? {
        assert out + [] == out;
      } else if filtered.value != [] {
        assert out + ([filtered.value] + Flow(fs, law, chain.Here(chain.retry), 0, rest))
            == out + [filtered.value] + Flow(fs, law, chain.Here(chain.retry), 0, rest);
      }
    }
  }

  /**
    Every chunk and then the end: the pieces that come out of the chain are those of running
    each filter over the whole output of the one before it.
   */
  method Drive<S(!new)>(chain: Chain<S>, cs: seq<Piece>, ghost law: Law<S>) returns (out: seq<Piece>)
    requires AllObey(chain.filters, law) && chain.Waiting(law)
    modifies chain
    ensures out == Pipeline(chain.filters, law, old(chain.states), 0, NonEmpty(cs))
  {
    hide Flow, Work, Pipeline;
    ghost var fs := chain.filters;
    ghost var total := Flow(fs, law, chain.Here(None), 0, NonEmpty(cs));
    IdleFlow(fs, law, chain.Here(None), 0, NonEmpty(cs));
    out := [];
    var i := 0;
    assert cs[0..] == cs;
    while i < |cs|
      invariant 0 <= i <= |cs| && chain.Waiting(law)
      invariant total == out + Flow(fs, law, chain.Here(None), 0, NonEmpty(cs[i..]))
    {
      ghost var rest := NonEmpty(cs[i + 1..]);
      assert cs[i..][1..] == cs[i + 1..];
      if cs[i] != [] {
        Fed(fs, law, chain.Here(None), chain.Here(Some(cs[i])), cs[i], rest);
        var more := Feed(chain, Some(cs[i]), law, rest);
        assert out + (more + Flow(fs, law, chain.Here(None), 0, rest)) == (out + more)
          + Flow(fs, law, chain.Here(None), 0, rest);
        out := out + more;
      } else {
        assert [] + rest == rest;
      }
      i := i + 1;
    }
    MayEnd(fs, law, chain.Here(None), Place(chain.states, chain.top, chain.index, None, true));
    Ended(fs, law, chain.Here(None), Place(chain.states, chain.top, chain.index, None, true));
    var more := Feed(chain, None, law, []);
    out := out + more;
  }
}
