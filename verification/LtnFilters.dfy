/**
  LTN12 filters and what a chain of them should do: each filter runs over the output of the
  one before it.
 */
module LtnFilters {
  import opened ByteType

  datatype Option<T> = None | Some(value: T)

  /** A piece of data; None is Lua's nil, and the empty piece asks for more output. */
  type Piece = seq<Byte>
  type Chunk = Option<Piece>

  /** A filter with its state: one call takes a chunk and returns a chunk. */
  type Step<!S> = (S, Chunk) -> (S, Chunk)

  /**
    `live` are the states of a filter whose input goes on, `closing` those in which it may be
    called with nil; `rank` bounds the output that is left.
   */
  datatype Law<!S> = Law(live: S -> bool, closing: S -> bool, rank: S -> nat)

  /**
    The filter protocol.  While its input goes on, a filter answers data, and the request for
    more output, with data, an empty piece meaning that no output is left; it answers nil with
    data or, at last, with nil.
   */
  ghost predicate Obeys<S(!new)>(f: Step<S>, law: Law<S>) {
    forall s: S, c: Chunk :: Proper(f, law, s, c)
  }

  ghost predicate Proper<S>(f: Step<S>, law: Law<S>, s: S, c: Chunk) {
    var (s2, o) := f(s, c);
    && (law.live(s) ==> law.closing(s))
    && (law.live(s) && c.Some? ==>
      o.Some? && law.live(s2) && (c.value == [] && o.value != [] ==> law.rank(s2) < law.rank(s)))
    && (law.closing(s) && c.None? && o.Some? ==> law.closing(s2) && o.value != [] && law.rank(s2) < law.rank(s))
  }

  /** Gives a piece to the filter and asks for output until there is none left. */
  ghost function Give<S(!new)>(f: Step<S>, law: Law<S>, s: S, c: Piece): (r: (S, seq<Piece>))
    requires Obeys(f, law) && law.live(s)
    ensures law.live(r.0)
    decreases if c == [] then 0 else 1, law.rank(s)
  {
    assert Proper(f, law, s, Some(c));
    var (s2, o) := f(s, Some(c));
    if o.value == [] then (s2, [])
    else
      var (s3, ps) := Give(f, law, s2, []);
      (s3, [o.value] + ps)
  }

  ghost function GiveAll<S(!new)>(f: Step<S>, law: Law<S>, s: S, cs: seq<Piece>): (r: (S, seq<Piece>))
    requires Obeys(f, law) && law.live(s)
    ensures law.live(r.0)
    decreases |cs|
  {
    if cs == [] then (s, [])
    else
      var (s2, ps) := Give(f, law, s, cs[0]);
      var (s3, qs) := GiveAll(f, law, s2, cs[1..]);
      (s3, ps + qs)
  }

  /** What the filter still puts out when its input has ended. */
  ghost function Finish<S(!new)>(f: Step<S>, law: Law<S>, s: S): seq<Piece>
    requires Obeys(f, law) && law.closing(s)
    decreases law.rank(s)
  {
    assert Proper(f, law, s, None);
    var (s2, o) := f(s, None);
    if o.None? then [] else [o.value] + Finish(f, law, s2)
  }

  /** The whole output of a filter for the pieces cs. */
  ghost function Whole<S(!new)>(f: Step<S>, law: Law<S>, s: S, cs: seq<Piece>): seq<Piece>
    requires Obeys(f, law) && law.live(s)
  {
    var (s2, ps) := GiveAll(f, law, s, cs);
    assert Proper(f, law, s2, None);
    ps + Finish(f, law, s2)
  }

  ghost predicate AllObey<S(!new)>(fs: seq<Step<S>>, law: Law<S>) {
    forall i :: 0 <= i < |fs| ==> Obeys(fs[i], law)
  }

  /** The filters from the k-th on have not ended. */
  ghost predicate AllLive<S(!new)>(law: Law<S>, ss: seq<S>, k: nat) {
    forall i :: k <= i < |ss| ==> law.live(ss[i])
  }

  /** Each filter runs over the whole output of the one before it, from the k-th on. */
  ghost function Pipeline<S(!new)>(fs: seq<Step<S>>, law: Law<S>, ss: seq<S>, k: nat, cs: seq<Piece>): seq<Piece>
    requires AllObey(fs, law) && AllLive(law, ss, k) && |ss| == |fs| && k <= |fs|
    decreases |fs| - k
  {
    if k == |fs| then cs else Pipeline(fs, law, ss, k + 1, Whole(fs[k], law, ss[k], cs))
  }

  function Flatten(cs: seq<Piece>): Piece {
    if cs == [] then [] else cs[0] + Flatten(cs[1..])
  }

  /** A filter that, however its input is cut, computes the function F of it. */
  ghost predicate Computes<S(!new)>(f: Step<S>, law: Law<S>, s: S, F: Piece -> Piece)
    requires Obeys(f, law) && law.live(s)
  {
    forall cs: seq<Piece> :: Flatten(Whole(f, law, s, cs)) == F(Flatten(cs))
  }

  function ComposeFrom(Fs: seq<Piece -> Piece>, k: nat, x: Piece): Piece
    requires k <= |Fs|
    decreases |Fs| - k
  {
    if k == |Fs| then x else ComposeFrom(Fs, k + 1, Fs[k](x))
  }

  /** A pipeline of filters that compute functions computes their composition. */
  lemma {:induction false} PipelineComposes<S(!new)>(fs: seq<Step<S>>, law: Law<S>, ss: seq<S>,
      Fs: seq<Piece -> Piece>, k: nat, cs: seq<Piece>)
    requires AllObey(fs, law) && AllLive(law, ss, k) && |ss| == |fs| == |Fs| && k <= |fs|
    requires forall i :: k <= i < |fs| ==> Computes(fs[i], law, ss[i], Fs[i])
    ensures Flatten(Pipeline(fs, law, ss, k, cs)) == ComposeFrom(Fs, k, Flatten(cs))
    decreases |fs| - k
  {
    if k < |fs| {
      PipelineComposes(fs, law, ss, Fs, k + 1, Whole(fs[k], law, ss[k], cs));
      assert Computes(fs[k], law, ss[k], Fs[k]);
    }
  }
}
