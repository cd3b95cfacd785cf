/** The passes over instruction arrays, done in place as the source does them. */
module LpegInPlace {
  import opened LpegCode
  import opened LpegBuild

  /** An array of instructions with the IEnd that every pattern ends with. */
  predicate IsPattern(a: array<Cell>)
    reads a
  {
    a.Length > 0 && a[a.Length - 1] == IEnd && forall i :: 0 <= i < a.Length - 1 ==> !a[i].IEnd?
  }

  function CodeOf(a: array<Cell>): Code
    requires a.Length > 0
    reads a
  {
    a[..a.Length - 1]
  }

  /** Every instruction with a charset is followed by all its charset words. */
  ghost predicate Whole(c: Code) {
    && (forall i :: 0 <= i < |c| ==> i + Size(c[i]) <= |c|)
    && (forall i, j :: 0 <= i < j < |c| && j < i + Size(c[i]) ==> c[j] == CharsetWord)
  }

  // ---- rotation by three reversals ----

  function Reversed(s: Code): (r: Code)
    ensures |r| == |s|
    ensures forall k :: 0 <= k < |s| ==> r[k] == s[|s| - 1 - k]
  {
    if s == [] then [] else Reversed(s[1..]) + [s[0]]
  }

  function Inverted(s: Code, p: nat, e: int): (r: Code)
    requires -1 <= e && p + e < |s|
    ensures |r| == |s|
  {
    s[..p] + Reversed(s[p..p + e + 1]) + s[p + e + 1..]
  }

  /** The first n of the e + 1 words at p stand behind the others. */
  function Rotated(s: Code, p: nat, e: nat, n: nat): Code
    requires n <= e + 1 && p + e < |s|
  {
    s[..p] + s[p + n..p + e + 1] + s[p..p + n] + s[p + e + 1..]
  }

  /** Reverses the slice of e + 1 words at p. */
  method Invert(a: array<Cell>, p: nat, e: int)
    requires -1 <= e && p + e < a.Length
    modifies a
    ensures a[..] == Inverted(old(a[..]), p, e)
  {
    var i, j := p, p + e;
    while i < j
      invariant p <= i <= j + 2 && i + j == 2 * p + e
      invariant forall k :: p <= k < i || j < k <= p + e ==> a[k] == old(a[2 * p + e - k])
      invariant forall k :: 0 <= k < p || i <= k <= j || p + e < k < a.Length ==> a[k] == old(a[k])
    {
      a[i], a[j] := a[j], a[i];
      i, j := i + 1, j - 1;
    }
    ghost var was: Code := old(a[..]);
    InvertIs(was, a[..], p, e);
  }

  lemma InvertIs(s: Code, t: Code, p: nat, e: int)
    requires -1 <= e && p + e < |s| && |t| == |s|
    requires forall k :: p <= k <= p + e ==> t[k] == s[2 * p + e - k]
    requires forall k :: 0 <= k < p || p + e < k < |s| ==> t[k] == s[k]
    ensures t == Inverted(s, p, e)
  {
    forall k | 0 <= k < |s| ensures t[k] == Inverted(s, p, e)[k] {
      if p <= k <= p + e {
        assert Reversed(s[p..p + e + 1])[k - p] == s[p..p + e + 1][e - (k - p)];
      }
    }
  }

  /** Reversing two parts and then their whole swaps them. */
  lemma SwapParts(f: Code, g: Code)
    ensures Reversed(Reversed(f) + Reversed(g)) == g + f
  {
  }

  lemma InvertPart(pre: Code, f: Code, rest: Code)
    ensures Inverted(pre + f + rest, |pre|, |f| - 1) == pre + Reversed(f) + rest
  {
    hide Reversed;
    Slices(pre, f, rest);
    assert |pre| + (|f| - 1) + 1 == |pre| + |f|;
  }

  lemma Slices(a: Code, b: Code, c: Code)
    ensures (a + b + c)[..|a|] == a && (a + b + c)[|a|..|a| + |b|] == b && (a + b + c)[|a| + |b|..] == c
  {
  }

  /** Three reversals rotate. */
  lemma ThreeReversals(s: Code, p: nat, e: nat, n: nat)
    requires n <= e + 1 && p + e < |s|
    ensures Inverted(Inverted(Inverted(s, p, n - 1), p + n, e - n), p, e) == Rotated(s, p, e, n)
  {
    hide Inverted, Reversed;
    var pre, f, g, rest := s[..p], s[p..p + n], s[p + n..p + e + 1], s[p + e + 1..];
    assert s == pre + f + (g + rest);
    InvertPart(pre, f, g + rest);
    JoinFour(pre, Reversed(f), g, rest);
    InvertPart(pre + Reversed(f), g, rest);
    JoinFour(pre, Reversed(f), Reversed(g), rest);
    InvertPart(pre, Reversed(f) + Reversed(g), rest);
    SwapParts(f, g);
    JoinFour(pre, g, f, rest);
  }

  lemma JoinFour(a: Code, b: Code, c: Code, d: Code)
    ensures a + b + (c + d) == (a + b) + c + d && (a + b) + c + d == a + (b + c) + d
  {
  }

  /** rotate */
  method Rotate(a: array<Cell>, p: nat, e: nat, n: nat)
    requires n <= e + 1 && p + e < a.Length
    modifies a
    ensures a[..] == Rotated(old(a[..]), p, e, n)
  {
    hide Inverted, Rotated;
    ThreeReversals(a[..], p, e, n);
    Invert(a, p, n - 1);
    Invert(a, p + n, e - n);
    Invert(a, p, e);
  }

  // ---- optimizechoice ----

  method OptimizeChoice(a: array<Cell>)
    requires IsPattern(a) && Whole(CodeOf(a)) && a.Length > 1 && a[0].IChoice?
    modifies a
    ensures a[..] == OptChoice(old(CodeOf(a))) + [IEnd]
  {
    hide OptChoice, Rotated;
    ghost var c := CodeOf(a);
    PatternWords(a);
    if IsFixCheck(a[1]) {
      var lc := Size(a[1]);
      ChoiceRotated(c, lc);
      Rotate(a, 0, lc, 1);
      a[lc] := IChoice(a[lc].offset, CheckStep(a[0].ck));
      a[0] := SetOffset(a[0], a[lc].offset);
      a[lc] := SetOffset(a[lc], a[lc].offset - lc);
    } else {
      NoRotation(c);
    }
  }

  lemma PatternWords(a: array<Cell>)
    requires IsPattern(a)
    ensures a[..] == CodeOf(a) + [IEnd] && forall i :: 0 <= i < a.Length ==> a[i] == At(CodeOf(a), i)
  {
  }

  lemma NoRotation(c: Code)
    requires c != [] && c[0].IChoice? && !IsFixCheck(At(c, 1))
    ensures OptChoice(c) == c
  {
  }

  lemma ChoiceRotated(c: Code, lc: nat)
    requires Whole(c) && c != [] && c[0].IChoice? && IsFixCheck(At(c, 1)) && lc == Size(At(c, 1))
    ensures lc < |c| && |Rotated(c + [IEnd], 0, lc, 1)| == |c| + 1
    ensures var r := Rotated(c + [IEnd], 0, lc, 1);
            && r[lc] == c[0] && r[0] == c[1]
            && OptChoice(c) + [IEnd] ==
              r[0 := SetOffset(c[1], c[0].offset)][lc := IChoice(c[0].offset - lc, CheckStep(c[1].ck))]
  {
    FitsWhole(c, 1);
    var tail := c[1 + lc..] + [IEnd];
    ChoiceParts(c, lc);
    var x, ch := SetOffset(c[1], c[0].offset), IChoice(c[0].offset - lc, CheckStep(c[1].ck));
    assert OptChoice(c) == [x] + c[2..1 + lc] + [ch] + c[1 + lc..];
    hide *;
    TwoWords(c[1], c[2..1 + lc], c[0], tail, x, ch);
    assert [x] + c[2..1 + lc] + [ch] + c[1 + lc..] + [IEnd] == [x] + c[2..1 + lc] + [ch] + tail;
  }

  lemma ChoiceParts(c: Code, lc: nat)
    requires 1 <= lc && 1 + lc <= |c|
    ensures Rotated(c + [IEnd], 0, lc, 1) == [c[1]] + c[2..1 + lc] + [c[0]] + (c[1 + lc..] + [IEnd])
  {
    var w := c + [IEnd];
    assert w[1..lc + 1] == [c[1]] + c[2..1 + lc];
    assert w[0..1] == [c[0]];
    assert w[lc + 1..] == c[1 + lc..] + [IEnd];
    assert w[..0] == [];
  }

  lemma TwoWords(a: Cell, mid: Code, b: Cell, tail: Code, a2: Cell, b2: Cell)
    ensures var r := [a] + mid + [b] + tail; var lc := 1 + |mid|;
            r[0] == a && r[lc] == b && r[0 := a2][lc := b2] == [a2] + mid + [b2] + tail
  {
  }

  lemma FitsWhole(c: Code, i: nat)
    requires Whole(c) && i < |c|
    ensures i + Size(c[i]) <= |c|
  {
  }

  // ---- optimizecaptures ----

  /** skipchecks at word i, for captures whose largest correction is `up`. */
  method SkipChecksAt(a: array<Cell>, i: nat, up: nat) returns (lc: nat, n: nat)
    requires IsPattern(a) && Whole(CodeOf(a)) && i < a.Length
    ensures (lc, n) == SkipChecks(CodeOf(a), i, MAX_OFF - up)
  {
    hide SkipChecks, Size;
    lc, n := 0, 0;
    ghost var c := CodeOf(a);
    PatternWords(a);
    while IsFixCheck(a[i + lc]) && n + CheckStep(a[i + lc].ck) <= MAX_OFF - up
      invariant i + lc < a.Length
      invariant SkipChecks(c, i, MAX_OFF - up) == Ahead(c, i + lc, MAX_OFF - up - n, lc, n)
      decreases a.Length - lc
    {
      SkipStep(c, i + lc, MAX_OFF - up - n);
      lc, n := lc + Size(a[i + lc]), n + CheckStep(a[i + lc].ck);
    }
    SkipStop(c, i + lc, MAX_OFF - up - n);
  }

  function Ahead(c: Code, i: nat, budget: int, lc: nat, n: nat): (nat, nat) {
    var rest := SkipChecks(c, i, budget);
    (lc + rest.0, n + rest.1)
  }

  lemma SkipStep(c: Code, i: nat, budget: int)
    requires Whole(c) && IsFixCheck(At(c, i)) && CheckStep(At(c, i).ck) <= budget
    ensures i + Size(At(c, i)) <= |c|
    ensures SkipChecks(c, i, budget) ==
            Ahead(c, i + Size(At(c, i)), budget - CheckStep(At(c, i).ck), Size(At(c, i)), CheckStep(At(c, i).ck))
  {
    FitsWhole(c, i);
  }

  lemma SkipStop(c: Code, i: nat, budget: int)
    requires !(IsFixCheck(At(c, i)) && CheckStep(At(c, i).ck) <= budget)
    ensures SkipChecks(c, i, budget) == (0, 0)
  {
  }

  /** Adds n to the corrections of the captures in words start .. i. */
  method CorrectOffsets(a: array<Cell>, start: nat, i: nat, n: nat)
    requires start <= i < a.Length && forall j :: start <= j <= i ==> a[j].ICapture?
    modifies a
    ensures a[..] == Corrected(old(a[..]), start, i, n)
  {
    hide Corrected;
    var j := start;
    while j <= i
      invariant start <= j <= i + 1
      invariant forall k :: 0 <= k < start || j <= k < a.Length ==> a[k] == old(a[k])
      invariant forall k :: start <= k < j ==> a[k] == old(a[k].(off := a[k].off + n))
    {
      a[j] := a[j].(off := a[j].off + n);
      j := j + 1;
    }
    ghost var was: Code := old(a[..]);
    CorrectedIs(was, a[..], start, i, n);
  }

  function Corrected(s: Code, start: nat, i: nat, n: nat): (r: Code)
    requires start <= i < |s|
    ensures |r| == |s|
  {
    s[..start] + Lift(s[start..i + 1], n) + s[i + 1..]
  }

  lemma CorrectedIs(s: Code, t: Code, start: nat, i: nat, n: nat)
    requires start <= i < |s| && |t| == |s| && forall j :: start <= j <= i ==> s[j].ICapture?
    requires forall k :: 0 <= k < start || i < k < |s| ==> t[k] == s[k]
    requires forall k :: start <= k <= i ==> t[k] == s[k].(off := s[k].off + n)
    ensures t == Corrected(s, start, i, n)
  {
    LiftIs(s[start..i + 1], n);
    hide Lift;
    forall k | 0 <= k < |s| ensures t[k] == Corrected(s, start, i, n)[k] {
      if start <= k <= i {
        assert Lift(s[start..i + 1], n)[k - start] == t[k];
      }
    }
  }

  /** Captures are one word each and whole checks move together. */
  lemma MoveUpWhole(c: Code, start: nat, i: nat, end: nat, n: nat)
    requires Whole(c) && start <= i <= end < |c| && (forall j :: start <= j <= i ==> c[j].ICapture?)
    requires forall j :: i < j <= end ==> j + Size(c[j]) <= end + 1
    requires forall k :: 0 <= k < |c| ==> !c[k].IEnd?
    ensures Whole(MoveUp(c, start, i, end, n)) && forall k :: 0 <= k < |c| ==> !MoveUp(c, start, i, end, n)[k].IEnd?
  {
    var r, w := MoveUp(c, start, i, end, n), i + 1 - start;
    hide MoveUp, Size;
    SizeOne();
    forall j | 0 <= j < |r| ensures j + Size(r[j]) <= |r| && !r[j].IEnd? {
      MovedWord(c, start, i, end, n, j);
    }
    forall j, k | 0 <= j < k < |r| && k < j + Size(r[j]) ensures r[k] == CharsetWord {
      MovedWord(c, start, i, end, n, j);
      MovedWord(c, start, i, end, n, k);
      if j < start {
        if k >= start { assert false; }
      } else if j < start + end - i {
        assert c[k + w] == CharsetWord;
      }
    }
  }

  lemma SizeOne()
    ensures forall i: Cell :: i.ICapture? ==> Size(i) == 1
  {
  }

  lemma {:induction false} LiftIs(g: Code, n: nat)
    requires forall j :: 0 <= j < |g| ==> g[j].ICapture?
    ensures forall j :: 0 <= j < |g| ==> Lift(g, n)[j] == g[j].(off := g[j].off + n)
    decreases |g|
  {
    if g != [] {
      LiftIs(g[1..], n);
      forall j | 0 <= j < |g| ensures Lift(g, n)[j] == g[j].(off := g[j].off + n) {
        if j > 0 { assert Lift(g, n)[j] == Lift(g[1..], n)[j - 1]; }
      }
    }
  }

  /** Where a word of the rearranged code comes from. */
  lemma MovedWord(c: Code, start: nat, i: nat, end: nat, n: nat, j: nat)
    requires start <= i <= end < |c| && j < |c| && (forall k :: start <= k <= i ==> c[k].ICapture?)
    ensures var r := MoveUp(c, start, i, end, n);
            && (j < start || j > end ==> r[j] == c[j])
            && (start <= j < start + end - i ==> r[j] == c[j + i + 1 - start])
            && (start + end - i <= j <= end ==> r[j].ICapture?)
  {
    LiftIs(c[start..i + 1], n);
  }

  /** The first capture of the group that ends at word i, and the largest correction in it. */
  method GroupFrom(a: array<Cell>, i: nat, limit: nat) returns (start: nat, maxoff: nat)
    requires IsPattern(a) && limit <= i && i + 1 < a.Length && IsMovableCap(a[i])
    ensures start == GroupStart(CodeOf(a), i, limit) && start <= i && maxoff == MaxOff(CodeOf(a), start, i)
    ensures forall j :: start <= j <= i ==> a[j].ICapture?
  {
    ghost var c := CodeOf(a);
    PatternWords(a);
    start, maxoff := i, a[i].off;
    while start > limit && IsMovableCap(a[start - 1])
      invariant limit <= start <= i && maxoff == MaxOff(c, start, i)
      invariant GroupStart(c, i, limit) == GroupStart(c, start, limit)
      invariant forall j :: start <= j <= i ==> a[j].ICapture?
    {
      assert At(c, start - 1) == a[start - 1];
      start := start - 1;
      if a[start].off > maxoff { maxoff := a[start].off; }
    }
  }

  /** Moves one group of captures behind the checks that follow it; i is the last of them. */
  method MoveGroup(a: array<Cell>, i: nat, limit: nat) returns (next: nat)
    requires IsPattern(a) && Whole(CodeOf(a)) && limit <= i && i + 1 < a.Length
    requires IsMovableCap(a[i]) && IsFixCheck(a[i + 1])
    modifies a
    ensures IsPattern(a) && Whole(CodeOf(a)) && i < next < a.Length
    ensures OptCapsFrom(CodeOf(a), next, limit) == OptCapsFrom(old(CodeOf(a)), i, limit)
  {
    hide OptCapsFrom, GroupStart, MaxOff, SkipChecks, MoveUp, Whole, Corrected, Rotated;
    ghost var c := CodeOf(a);
    PatternWords(a);
    var start, maxoff := GroupFrom(a, i, limit);
    var lc, n := SkipChecksAt(a, i + 1, maxoff);
    GroupStep(c, i, limit);
    SkipsWhole(c, i + 1, MAX_OFF - maxoff);
    if n == 0 {
      next := i + 1;
    } else {
      var end := lc + i;
      MoveUpWhole(c, start, i, end, n);
      RotateCorrected(c, start, i, end, n);
      CorrectOffsets(a, start, i, n);
      Rotate(a, start, end - start, i - start + 1);
      assert CodeOf(a) == MoveUp(c, start, i, end, n);
      next := end + 1;
    }
  }

  lemma GroupStep(c: Code, i: nat, limit: nat)
    requires limit <= i < |c| && IsMovableCap(c[i]) && IsFixCheck(At(c, i + 1))
    ensures var start := GroupStart(c, i, limit); var (lc, n) := SkipChecks(c, i + 1, MAX_OFF - MaxOff(c, start, i));
            OptCapsFrom(c, i, limit) ==
              if n == 0 || lc == 0 then OptCapsFrom(c, i + 1, limit)
              else OptCapsFrom(MoveUp(c, start, i, i + lc, n), i + lc + 1, limit)
  {
    hide GroupStart, MaxOff, SkipChecks, MoveUp;
  }

  lemma RotateCorrected(c: Code, start: nat, i: nat, end: nat, n: nat)
    requires start <= i <= end < |c|
    ensures Rotated(Corrected(c + [IEnd], start, i, n), start, end - start, i - start + 1) ==
            MoveUp(c, start, i, end, n) + [IEnd]
  {
    hide Lift;
    var pre, l, ck, rest := c[..start], Lift(c[start..i + 1], n), c[i + 1..end + 1], c[end + 1..] + [IEnd];
    CorrectedParts(c, start, i, end, n);
    SwapGroups(pre, l, ck, rest);
    MovedParts(pre + ck + l, c[end + 1..]);
    hide *;
  }

  lemma CorrectedParts(c: Code, start: nat, i: nat, end: nat, n: nat)
    requires start <= i <= end < |c|
    ensures Corrected(c + [IEnd], start, i, n) == c[..start] + Lift(c[start..i + 1], n)
            + (c[i + 1..end + 1] + (c[end + 1..] + [IEnd]))
  {
    hide Lift;
    assert (c + [IEnd])[start..i + 1] == c[start..i + 1];
    assert (c + [IEnd])[..start] == c[..start];
    assert (c + [IEnd])[i + 1..] == c[i + 1..end + 1] + (c[end + 1..] + [IEnd]);
  }

  lemma MovedParts(a: Code, b: Code)
    ensures a + (b + [IEnd]) == a + b + [IEnd]
  {
  }

  lemma SwapGroups(pre: Code, l: Code, ck: Code, rest: Code)
    requires |l| > 0
    ensures Rotated(pre + l + (ck + rest), |pre|, |l| + |ck| - 1, |l|) == pre + ck + l + rest
  {
    var s := pre + l + (ck + rest);
    assert s == pre + (l + ck) + rest;
    Slices(pre, l, ck + rest);
    Slices(pre, l + ck, rest);
    assert s == (pre + l) + ck + rest;
    Slices(pre + l, ck, rest);
    assert |pre| + (|l| + |ck| - 1) + 1 == |pre| + |l| + |ck|;
  }

  /** The checks that skipchecks passes are whole instructions. */
  lemma {:induction false} SkipsWhole(c: Code, i: nat, budget: int)
    requires Whole(c) && i <= |c|
    ensures var (lc, n) := SkipChecks(c, i, budget);
            (n > 0 ==> lc > 0) && i + lc <= |c| && forall j :: i <= j < i + lc ==> j + Size(c[j]) <= i + lc
    decreases |c| - i
  {
    if i < |c| && IsFixCheck(c[i]) && CheckStep(c[i].ck) <= budget {
      FitsWhole(c, i);
      SkipsWhole(c, i + Size(c[i]), budget - CheckStep(c[i].ck));
      var lc := SkipChecks(c, i, budget).0;
      forall j | i <= j < i + lc ensures j + Size(c[j]) <= i + lc {
        if i < j < i + Size(c[i]) { assert c[j] == CharsetWord; }
      }
    }
  }

  lemma PassJumpStep(c: Code, i: nat, limit: int)
    requires i < |c| && IsJmp(c[i]) && i + c[i].offset >= limit
    ensures OptCapsFrom(c, i, limit) == OptCapsFrom(c, i + Size(c[i]), i + c[i].offset + 1)
  {
  }

  lemma PassOtherStep(c: Code, i: nat, limit: int)
    requires i < |c| && !(IsJmp(c[i]) && i + c[i].offset >= limit)
    requires !(i >= limit && IsMovableCap(c[i]) && IsFixCheck(At(c, i + 1)))
    ensures OptCapsFrom(c, i, limit) == OptCapsFrom(c, i + Size(c[i]), limit)
  {
  }

  lemma PassStops(c: Code, limit: int)
    ensures OptCapsFrom(c, |c|, limit) == c
  {
  }

  /** optimizecaptures */
  method OptimizeCaptures(a: array<Cell>)
    requires IsPattern(a) && Whole(CodeOf(a))
    modifies a
    ensures IsPattern(a) && CodeOf(a) == OptCaps(old(CodeOf(a)))
  {
    hide OptCapsFrom, Size, IsMovableCap;
    var i, limit: nat := 0, 0;
    ghost var c := CodeOf(a);
    while !a[i].IEnd?
      invariant IsPattern(a) && Whole(CodeOf(a)) && i < a.Length
      invariant OptCapsFrom(CodeOf(a), i, limit) == OptCaps(c)
      decreases a.Length - i
    {
      PatternWords(a);
      FitsWhole(CodeOf(a), i);
      if IsJmp(a[i]) && i + a[i].offset >= limit {
        PassJumpStep(CodeOf(a), i, limit);
        limit := i + a[i].offset + 1;
        i := i + Size(a[i]);
      } else if i >= limit && IsMovableCap(a[i]) && IsFixCheck(a[i + 1]) {
        i := MoveGroup(a, i, limit);
      } else {
        PassOtherStep(CodeOf(a), i, limit);
        i := i + Size(a[i]);
      }
    }
    PassStops(CodeOf(a), limit);
  }

  // ---- optimizejumps ----

  /** The unconditional jumps from word i on lead, within n of them, to another instruction of the pattern. */
  ghost predicate Settled(c: Code, i: int, n: nat)
    decreases n
  {
    0 <= i <= |c| && (At(c, i).IJmp? ==> n > 0 && Settled(c, i + At(c, i).offset, n - 1))
  }

  lemma {:induction false} SettledTarget(c: Code, i: int, n: nat, m: nat)
    requires Settled(c, i, n) && n <= m
    ensures 0 <= Target(c, i, m) <= |c| && !At(c, Target(c, i, m)).IJmp? && Target(c, i, m) == Target(c, i, n)
    decreases n
  {
    if At(c, i).IJmp? { SettledTarget(c, i + At(c, i).offset, n - 1, m - 1); }
  }

  /** target */
  method FollowJumps(a: array<Cell>, i0: nat) returns (i: nat)
    requires IsPattern(a) && Settled(CodeOf(a), i0, a.Length - 1)
    ensures i == Target(CodeOf(a), i0, a.Length - 1) && i < a.Length && !a[i].IJmp?
  {
    ghost var c, n := CodeOf(a), a.Length - 1;
    PatternWords(a);
    i := i0;
    while a[i].IJmp?
      invariant i < a.Length && n >= 0 && Settled(c, i, n) && Target(c, i, n) == Target(c, i0, |c|)
      decreases n
    {
      i, n := i + a[i].offset, n - 1;
    }
  }

  /** The code in which the jumps before word i have been threaded. */
  function HalfThreaded(c: Code, i: nat): (r: Code)
    requires i <= |c|
    ensures |r| == |c|
  {
    OptJumps(c)[..i] + c[i..]
  }

  ghost predicate AllSettled(c: Code) {
    forall i :: 0 <= i < |c| && IsJmp(c[i]) ==> Settled(c, i + c[i].offset, |c|)
  }

  /** A jump that is already threaded leads where it led before. */
  lemma {:induction false} StillSettled(c: Code, i: nat, q: int, n: nat)
    requires AllSettled(c) && i <= |c| && Settled(c, q, n) && n <= |c|
    ensures Settled(HalfThreaded(c, i), q, n) && Target(HalfThreaded(c, i), q, n) == Target(c, q, n)
    decreases n
  {
    var d := HalfThreaded(c, i);
    if At(c, q).IJmp? {
      var q1 := q + At(c, q).offset;
      StillSettled(c, i, q1, n - 1);
      if q < i && c[q].offset != 0 {
        SettledTarget(c, q1, n - 1, |c|);
        var t := Target(c, q1, |c|);
        assert d[q] == IJmp(t - q);
        ThreadedKind(c, i, t);
      }
    } else {
      ThreadedKind(c, i, q);
    }
  }

  lemma ThreadedKind(c: Code, i: nat, q: int)
    requires i <= |c| && 0 <= q <= |c| && !At(c, q).IJmp?
    ensures !At(HalfThreaded(c, i), q).IJmp?
  {
  }

  /** Threads the jump at word i, when those before it have been threaded. */
  method ThreadAt(a: array<Cell>, i: nat, ghost c: Code)
    requires IsPattern(a) && AllSettled(c) && i < |c| && CodeOf(a) == HalfThreaded(c, i)
    modifies a
    ensures IsPattern(a) && CodeOf(a) == HalfThreaded(c, i + 1)
  {
    hide OptJumps, Settled, Target, HalfThreaded, AllSettled;
    PatternWords(a);
    ThreadWord(c, i);
    if IsJmp(a[i]) {
      SettledAt(c, i);
      StillSettled(c, i, i + a[i].offset, |c|);
      var t := FollowJumps(a, i + a[i].offset);
      a[i] := SetOffset(a[i], t - i);
    }
  }

  lemma SettledAt(c: Code, i: nat)
    requires AllSettled(c) && i < |c| && IsJmp(c[i])
    ensures Settled(c, i + c[i].offset, |c|) && 0 <= i + c[i].offset
  {
  }

  /** optimizejumps: later jumps are threaded through the ones before them, which is no different. */
  method OptimizeJumps(a: array<Cell>)
    requires IsPattern(a) && Whole(CodeOf(a)) && AllSettled(CodeOf(a))
    modifies a
    ensures IsPattern(a) && CodeOf(a) == OptJumps(old(CodeOf(a)))
  {
    hide OptJumps, HalfThreaded, AllSettled, Size;
    var i: nat := 0;
    ghost var c := CodeOf(a);
    NoneThreaded(c);
    while !a[i].IEnd?
      invariant IsPattern(a) && i < a.Length && a.Length == |c| + 1 && CodeOf(a) == HalfThreaded(c, i)
      decreases a.Length - i
    {
      PatternWords(a);
      ThreadWord(c, i);
      ThreadRest(c, i);
      var size := Size(a[i]);
      ThreadAt(a, i, c);
      i := i + size;
    }
    AllThreaded(c);
  }

  lemma NoneThreaded(c: Code)
    ensures HalfThreaded(c, 0) == c
  {
  }

  lemma AllThreaded(c: Code)
    ensures HalfThreaded(c, |c|) == OptJumps(c)
  {
  }

  lemma ThreadWord(c: Code, i: nat)
    requires i < |c|
    ensures HalfThreaded(c, i)[i] == c[i]
    ensures HalfThreaded(c, i + 1) ==
            HalfThreaded(c, i)[i := if IsJmp(c[i]) then SetOffset(c[i], Target(c, i + c[i].offset, |c|) - i) else c[i]]
  {
  }

  /** The charset words of an instruction stay as they are. */
  lemma ThreadRest(c: Code, i: nat)
    requires i < |c| && Whole(c)
    ensures i + Size(c[i]) <= |c| && HalfThreaded(c, i + Size(c[i])) == HalfThreaded(c, i + 1)
  {
    var n := Size(c[i]);
    var h, g := HalfThreaded(c, i + n), HalfThreaded(c, i + 1);
    forall j | 0 <= j < |c| ensures h[j] == g[j] {
      if i < j < i + n { assert c[j] == CharsetWord; }
    }
  }

  // ---- verify ----

  /** verify on the whole of a pattern that is not a grammar yet. */
  method Verify(c: Code) returns (r: VRes)
    ensures r == VRun(c, 0, [])
  {
    var p: nat := 0;
    var back: seq<VEntry> := [];
    while p != |c|
      invariant p <= |c| && VRun(c, p, back) == VRun(c, 0, [])
      decreases |c| - p
    {
      var failed, q := false, -1;
      match c[p] {
        case IRet =>
          if back == [] { return VStuck; }
          q, back := back[|back| - 1].p, back[..|back| - 1];
        case IChoice(offset, _) =>
          if |back| >= MAX_BACK_VER { return TooDeep; }
          q, back := p + 1, back + [VEntry(false, p + offset)];
        case ICall(offset) =>
          if At(c, p + 1).IRet? { return VStuck; }
          if |back| >= MAX_BACK_VER { return TooDeep; }
          q, back := p + offset, back + [VEntry(true, p + 1)];
        case IOpenCall(_) =>
          failed := true;
        case IBackCommit(offset) =>
          if back == [] || offset <= 0 { return VStuck; }
          q, back := p + offset, back[..|back| - 1];
        case ICommit(offset) =>
          if back == [] || offset <= 0 { return VStuck; }
          q, back := p + offset, back[..|back| - 1];
        case IPartialCommit(offset) =>
          if back == [] || offset <= 0 { return VStuck; }
          q := p + offset;
        case IBack(n) =>
          if n == 1 && IsFixCheck(At(c, p + 1)) {
            q := p + 1 + Size(At(c, p + 1));
          } else {
            if !At(c, p - 1).IChoice? || back == [] || !At(c, p + At(c, p - 1).offset - 1).IFail? { return VStuck; }
            q, back := p + At(c, p - 1).offset, back[..|back| - 1];
          }
        case ICheck(ck, offset) =>
          if At(c, p + CheckSize(ck)).IBack? {
            q := p + CheckSize(ck) + 1;
          } else if offset == 0 {
            failed := true;
          } else {
            q := p + offset;
          }
        case IJmp(offset) =>
          q := p + offset;
        case IFailTwice =>
          failed := true;
        case IFail =>
          if p > 0 && c[p - 1].IBackCommit? { q := p + 1; } else { failed := true; }
        case ISpan(_) =>
          q := p + CHARSET_INST_SIZE;
        case ICapture(_, _, _, _) =>
          q := p + 1;
        case _ =>
          return VStuck;
      }
      if failed {
        while back != [] && back[|back| - 1].isCall
          invariant VFail(c, p, back) == VRun(c, 0, [])
        {
          back := back[..|back| - 1];
        }
        if back == [] { return Consumes; }
        q, back := back[|back| - 1].p, back[..|back| - 1];
      }
      if !(p < q <= |c|) { return VStuck; }
      p := q;
    }
    r := if back == [] then Accepts else VStuck;
  }
}
