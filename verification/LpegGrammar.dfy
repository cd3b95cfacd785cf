/**
  Grammars: how their rules are laid out, the verifier with its table of rules, and what an
  accepted grammar keeps.  Its jumps come to an end, its stack stays in order, and linking it
  changes no result.
 */
module LpegGrammar {
  import opened LpegCode
  import opened LpegMachine
  import opened LpegPeg
  import opened LpegBlock
  import opened LpegExec
  import opened LpegBuild
  import opened LpegShape
  import opened LpegTypes
  import opened LpegTyping
  import opened LpegInPlace
  import opened LpegCorrect
  import opened LpegDiscipline
  import opened LpegLink

  // ---- layout ----

  datatype Rule = Rule(key: int, patt: Patt)

  /** The rules of a grammar, in the order in which they are laid out, all of which compile. */
  predicate AllCompile(rules: seq<Rule>) {
    forall k :: 0 <= k < |rules| ==> Compile(rules[k].patt).Pattern?
  }

  function RuleCode(rules: seq<Rule>, k: nat): Code
    requires k < |rules| && AllCompile(rules)
  {
    Compile(rules[k].patt).code
  }

  /** The code of the first k rules, each with its IRet. */
  function Bodies(rules: seq<Rule>, k: nat): Code
    requires k <= |rules| && AllCompile(rules)
  {
    if k == 0 then [] else Bodies(rules, k - 1) + RuleCode(rules, k - 1) + [IRet]
  }

  /** Where rule k starts, behind the initial call and jump. */
  function Start(rules: seq<Rule>, k: nat): (r: nat)
    requires k <= |rules| && AllCompile(rules)
    ensures r == 2 + |Bodies(rules, k)|
  {
    if k == 0 then 2 else Start(rules, k - 1) + |RuleCode(rules, k - 1)| + 1
  }

  function Total(rules: seq<Rule>): nat
    requires AllCompile(rules)
  {
    Start(rules, |rules|)
  }

  /** The grammar with open calls; `first` is its initial rule. */
  function GrammarCode(rules: seq<Rule>, first: nat): (c: Code)
    requires AllCompile(rules) && first < |rules|
    ensures |c| == Total(rules)
  {
    [ICall(Start(rules, first)), IJmp(Total(rules) - 1)] + Bodies(rules, |rules|)
  }

  /** The rule with the given key, or the number of rules. */
  function Find(rules: seq<Rule>, key: int, k: nat): (r: nat)
    requires k <= |rules|
    ensures k <= r <= |rules|
    decreases |rules| - k
  {
    if k == |rules| || rules[k].key == key then k else Find(rules, key, k + 1)
  }

  /** The rules have different keys, as the entries of a table do. */
  ghost predicate DistinctKeys(rules: seq<Rule>) {
    forall j, k :: 0 <= j < k < |rules| ==> rules[j].key != rules[k].key
  }

  /** A key leads to its own rule, and one that no rule has leads to none. */
  lemma {:induction false} FindKey(rules: seq<Rule>, key: int, from: nat)
    requires DistinctKeys(rules) && from <= |rules|
    ensures forall k :: from <= k < |rules| && rules[k].key == key ==> Find(rules, key, from) == k
    ensures (forall k :: from <= k < |rules| ==> rules[k].key != key) <==> Find(rules, key, from) == |rules|
    decreases |rules| - from
  {
    if from < |rules| && rules[from].key != key { FindKey(rules, key, from + 1); }
  }

  /** getposition; 0 stands for its error. */
  function Position(rules: seq<Rule>, key: int): nat
    requires AllCompile(rules)
  {
    if Find(rules, key, 0) < |rules| then Start(rules, Find(rules, key, 0)) else 0
  }

  // ---- verify with a table of rules ----

  /** What verify does with the pattern of a rule; the errors are the ones it raises. */
  datatype Scan =
    | Going(p: int, back: seq<VEntry>)
    | Finished(consumes: bool)
    | LeftRecursive
    | TooMany
    | Undefined
    | BadPattern

  /** Is a call that returns to word p pending? */
  predicate Pending(back: seq<VEntry>, p: int) {
    VEntry(true, p) in back
  }

  function Backtracked(back: seq<VEntry>): Scan {
    if back == [] then Finished(true)
    else if Top(back).isCall then Backtracked(Rest(back))
    else Going(Top(back).p, Rest(back))
  }

  function Top(back: seq<VEntry>): VEntry
    requires back != []
  {
    back[|back| - 1]
  }

  function Rest(back: seq<VEntry>): seq<VEntry>
    requires back != []
  {
    back[..|back| - 1]
  }

  /** One turn of verify on code c up to word e. */
  function VTurn(c: Code, rules: seq<Rule>, e: int, st: Scan): Scan
    requires AllCompile(rules)
  {
    if !st.Going? then st
    else
      var p, back := st.p, st.back;
      if p == e then if back == [] then Finished(false) else BadPattern
      else
        match At(c, p)
        case IRet => if back != [] then Going(Top(back).p, Rest(back)) else BadPattern
        case IChoice(offset, _) =>
          if |back| >= MAX_BACK_VER then TooMany else Going(p + 1, back + [VEntry(false, p + offset)])
        case ICall(offset) =>
          if At(c, p + 1).IRet? then BadPattern
          else if |back| >= MAX_BACK_VER then TooMany
          else Going(p + offset, back + [VEntry(true, p + 1)])
        case IOpenCall(key) =>
          if Pending(back, p + 1) then LeftRecursive
          else if |back| >= MAX_BACK_VER then TooMany
          else if Position(rules, key) == 0 then Undefined
          else Going(Position(rules, key), back + [VEntry(true, p + 1)])
        case IBackCommit(offset) => if back != [] && offset > 0 then Going(p + offset, Rest(back)) else BadPattern
        case ICommit(offset) => if back != [] && offset > 0 then Going(p + offset, Rest(back)) else BadPattern
        case IPartialCommit(offset) =>
          if back == [] then BadPattern else if offset > 0 then Going(p + offset, back) else Going(p + 1, Rest(back))
        case IBack(n) =>
          if n == 1 && IsFixCheck(At(c, p + 1)) then Going(p + 1 + Size(At(c, p + 1)), back)
          else if At(c, p - 1).IChoice? && back != [] && At(c, p + At(c, p - 1).offset - 1).IFail? then
            Going(p + At(c, p - 1).offset, Rest(back))
          else BadPattern
        case ICheck(ck, offset) =>
          if At(c, p + CheckSize(ck)).IBack? then Going(p + CheckSize(ck) + 1, back)
          else if offset == 0 then Backtracked(back)
          else Going(p + offset, back)
        case IJmp(offset) => Going(p + offset, back)
        case IFailTwice => Backtracked(back)
        case IFail => if At(c, p - 1).IBackCommit? then Going(p + 1, back) else Backtracked(back)
        case ISpan(_) => Going(p + CHARSET_INST_SIZE, back)
        case ICapture(_, _, _, _) => Going(p + 1, back)
        case IEnd => BadPattern
        case CharsetWord => BadPattern
  }

  function VTurns(c: Code, rules: seq<Rule>, e: int, st: Scan, n: nat): Scan
    requires AllCompile(rules)
    decreases n
  {
    if n == 0 then st else VTurns(c, rules, e, VTurn(c, rules, e, st), n - 1)
  }

  /** verify from word p to word e comes to an end with the given answer, and raises no error. */
  ghost predicate Verifies(c: Code, rules: seq<Rule>, p: int, e: int, consumes: bool)
    requires AllCompile(rules)
  {
    exists n: nat :: VTurns(c, rules, e, Going(p, []), n) == Finished(consumes)
  }

  /** The loop of checkrule from word i on; `open` is the latest open call before it. */
  ghost predicate LoopsChecked(c: Code, rules: seq<Rule>, i: int, to: int, open: int)
    requires AllCompile(rules)
    decreases if i < to then to - i else 0
  {
    i < to ==>
      if At(c, i).IPartialCommit? && At(c, i).offset < 0 then
        (i + At(c, i).offset <= open ==> Verifies(c, rules, i + At(c, i).offset, i, true))
          && LoopsChecked(c, rules, i + 1, to, open)
      else LoopsChecked(c, rules, i + Size(At(c, i)), to, if At(c, i).IOpenCall? then i else open)
  }

  /** checkrule */
  ghost predicate RuleChecked(c: Code, rules: seq<Rule>, k: nat)
    requires AllCompile(rules) && k < |rules|
  {
    && LoopsChecked(c, rules, Start(rules, k), Start(rules, k + 1), 0)
    && (Verifies(c, rules, Start(rules, k), Start(rules, k + 1) - 1, true)
      || Verifies(c, rules, Start(rules, k), Start(rules, k + 1) - 1, false))
  }

  /** fix_l raises no error for the grammar. */
  ghost predicate Accepted(rules: seq<Rule>, first: nat) {
    && AllCompile(rules) && first < |rules| && Total(rules) < MAX_PATT_SIZE - 1
    && (forall k :: 0 <= k < |rules| ==> RuleChecked(GrammarCode(rules, first), rules, k))
    && (forall i :: 0 <= i < |GrammarCode(rules, first)| && GrammarCode(rules, first)[i].IOpenCall? ==>
      Position(rules, GrammarCode(rules, first)[i].key) != 0)
  }

  lemma {:induction false} Stopped(c: Code, rules: seq<Rule>, e: int, st: Scan, n: nat)
    requires AllCompile(rules) && !st.Going?
    ensures VTurns(c, rules, e, st, n) == st
    decreases n
  {
    if n > 0 { Stopped(c, rules, e, st, n - 1); }
  }

  lemma {:induction false} TurnsAdd(c: Code, rules: seq<Rule>, e: int, st: Scan, n: nat, m: nat)
    requires AllCompile(rules)
    ensures VTurns(c, rules, e, st, n + m) == VTurns(c, rules, e, VTurns(c, rules, e, st, n), m)
    decreases n
  {
    if n > 0 { TurnsAdd(c, rules, e, VTurn(c, rules, e, st), n - 1, m); }
  }

  // ---- every rule in its place ----

  lemma {:induction false} BodiesSplit(rules: seq<Rule>, k: nat, m: nat)
    requires AllCompile(rules) && k < m <= |rules|
    ensures var p := |Bodies(rules, k)|; var f := RuleCode(rules, k);
            && |Bodies(rules, k + 1)| == p + |f| + 1 <= |Bodies(rules, m)|
            && Bodies(rules, m)[p..p + |f|] == f && Bodies(rules, m)[p + |f|] == IRet
    decreases m
  {
    hide Compile;
    var p, f := |Bodies(rules, k)|, RuleCode(rules, k);
    if k + 1 == m {
      assert Bodies(rules, m) == Bodies(rules, k) + f + [IRet];
    } else {
      BodiesSplit(rules, k, m - 1);
      var b := Bodies(rules, m - 1);
      assert Bodies(rules, m) == b + (RuleCode(rules, m - 1) + [IRet]);
      assert Bodies(rules, m)[p..p + |f|] == b[p..p + |f|];
    }
  }

  /** Where a rule ends: its IRet. */
  function EndOf(rules: seq<Rule>, k: nat): nat
    requires k < |rules| && AllCompile(rules)
  {
    Start(rules, k) + |RuleCode(rules, k)|
  }

  lemma RulePlaced(rules: seq<Rule>, first: nat, k: nat)
    requires AllCompile(rules) && first < |rules| && k < |rules|
    ensures var c := GrammarCode(rules, first);
            && 2 <= Start(rules, k) <= EndOf(rules, k) < |c| && EndOf(rules, k) + 1 == Start(rules, k + 1) <= |c|
            && Sub(c, Start(rules, k), RuleCode(rules, k)) && c[EndOf(rules, k)] == IRet
  {
    hide Compile, Bodies, Start, RuleCode, AllCompile;
    BodiesSplit(rules, k, |rules|);
    var b := Bodies(rules, |rules|);
    TwoBefore(ICall(Start(rules, first)), IJmp(Total(rules) - 1), b, |Bodies(rules, k)|, |RuleCode(rules, k)|);
  }

  lemma TwoBefore(i: Cell, j: Cell, b: Code, p: nat, n: nat)
    requires p + n < |b|
    ensures var c := [i, j] + b; |c| == 2 + |b| && c[2 + p..2 + p + n] == b[p..p + n] && c[2 + p + n] == b[p + n]
  {
    assert ([i, j] + b)[2..] == b;
  }

  /** Every word behind the first two lies in a rule. */
  lemma {:induction false} RuleAt(rules: seq<Rule>, i: int, m: nat) returns (k: nat)
    requires AllCompile(rules) && m <= |rules| && 2 <= i < Start(rules, m)
    ensures k < m && Start(rules, k) <= i <= EndOf(rules, k)
    decreases m
  {
    hide Compile;
    if Start(rules, m - 1) <= i { k := m - 1; } else { k := RuleAt(rules, i, m - 1); }
  }

  // ---- types ----

  function BodyTypes(rules: seq<Rule>, k: nat): Typing
    requires k <= |rules| && AllCompile(rules)
  {
    if k == 0 then [] else BodyTypes(rules, k - 1) + Types(BlockOf(rules[k - 1].patt), RULE) + [Some(RULE)]
  }

  function GrammarTypes(rules: seq<Rule>): Typing
    requires AllCompile(rules)
  {
    [Some(MAIN), Some(MAIN)] + BodyTypes(rules, |rules|) + [Some(MAIN)]
  }

  lemma RuleLength(rules: seq<Rule>, k: nat)
    requires AllCompile(rules) && k < |rules|
    ensures |Types(BlockOf(rules[k].patt), RULE)| == |RuleCode(rules, k)|
  {
    hide Types, BlockOf, Compile;
    LpegCorrect.Laid(rules[k].patt);
    TypesLength(BlockOf(rules[k].patt), RULE);
  }

  lemma {:induction false} BodyTypesLength(rules: seq<Rule>, k: nat)
    requires AllCompile(rules) && k <= |rules|
    ensures |BodyTypes(rules, k)| == |Bodies(rules, k)|
    decreases k
  {
    hide Types, BlockOf, Compile;
    if k > 0 {
      BodyTypesLength(rules, k - 1);
      RuleLength(rules, k - 1);
    }
  }

  lemma {:induction false} TypesSplit(rules: seq<Rule>, k: nat, m: nat)
    requires AllCompile(rules) && k < m <= |rules|
    ensures var p := |Bodies(rules, k)|; var w := Types(BlockOf(rules[k].patt), RULE);
            && p + |w| < |BodyTypes(rules, m)| && BodyTypes(rules, m)[p..p + |w|] == w
              && BodyTypes(rules, m)[p + |w|] == Some(RULE)
    decreases m
  {
    hide Types, BlockOf, Compile;
    var p, w := |Bodies(rules, k)|, Types(BlockOf(rules[k].patt), RULE);
    BodyTypesLength(rules, k);
    if k + 1 == m {
      assert BodyTypes(rules, m) == BodyTypes(rules, k) + w + [Some(RULE)];
    } else {
      TypesSplit(rules, k, m - 1);
      var b := BodyTypes(rules, m - 1);
      assert BodyTypes(rules, m) == b + (Types(BlockOf(rules[m - 1].patt), RULE) + [Some(RULE)]);
      assert BodyTypes(rules, m)[p..p + |w|] == b[p..p + |w|];
    }
  }

  lemma GrammarTypesAt(rules: seq<Rule>)
    requires AllCompile(rules)
    ensures var h := GrammarTypes(rules);
            |h| == Total(rules) + 1 && Has(h, 0, MAIN) && Has(h, 1, MAIN) && Has(h, Total(rules), MAIN)
  {
    hide Compile;
    BodyTypesLength(rules, |rules|);
  }

  /** Part of b, two places further on. */
  lemma Framed(b: Typing, t: Option<Ty>, p: nat, n: nat)
    requires p + n < |b|
    ensures var h := [t, t] + b + [t]; h[2 + p..2 + p + n] == b[p..p + n] && h[2 + p + n] == b[p + n]
  {
  }

  lemma RuleTypes(rules: seq<Rule>, k: nat)
    requires AllCompile(rules) && k < |rules|
    ensures |GrammarTypes(rules)| > EndOf(rules, k)
    ensures var h := GrammarTypes(rules);
            In(h, Start(rules, k), Types(BlockOf(rules[k].patt), RULE)) && h[EndOf(rules, k)] == Some(RULE)
  {
    hide Types, BlockOf, Compile, BodyTypes, Bodies;
    BodyTypesLength(rules, |rules|);
    TypesSplit(rules, k, |rules|);
    RuleLength(rules, k);
    Framed(BodyTypes(rules, |rules|), Some(MAIN), |Bodies(rules, k)|, |RuleCode(rules, k)|);
  }

  /** The words of a rule are in order, and no jump leaves the rule. */
  lemma RuleFine(rules: seq<Rule>, first: nat, k: nat)
    requires AllCompile(rules) && first < |rules| && k < |rules|
    ensures var c, h := GrammarCode(rules, first), GrammarTypes(rules);
            AllFine(c, h, Start(rules, k), EndOf(rules, k), Start(rules, k), EndOf(rules, k))
              && Has(h, Start(rules, k), RULE) && Has(h, EndOf(rules, k), RULE)
  {
    hide *;
    RulePlaced(rules, first, k);
    RuleTypes(rules, k);
    RuleSizes(rules, first, k);
    BodyFine(GrammarCode(rules, first), GrammarTypes(rules), Start(rules, k), BlockOf(rules[k].patt));
  }

  lemma RuleSizes(rules: seq<Rule>, first: nat, k: nat)
    requires AllCompile(rules) && first < |rules| && k < |rules|
    ensures |GrammarTypes(rules)| == |GrammarCode(rules, first)| + 1
    ensures var b := BlockOf(rules[k].patt);
            Good(b) && RuleCode(rules, k) == Flat(b) && EndOf(rules, k) == Start(rules, k) + |Flat(b)|
  {
    hide Compile, GrammarTypes, Good, BlockOf, Flat;
    GrammarTypesAt(rules);
    LpegCorrect.Laid(rules[k].patt);
  }

  /** The code of a rule's body is in order, up to its return. */
  lemma BodyFine(c: Code, h: Typing, lo: nat, b: Block)
    requires Good(b) && |h| == |c| + 1 && Sub(c, lo, Flat(b)) && In(h, lo, Types(b, RULE))
    requires lo + |Flat(b)| < |c| && h[lo + |Flat(b)|] == Some(RULE) && c[lo + |Flat(b)|] == IRet
    ensures var hi := lo + |Flat(b)|; AllFine(c, h, lo, hi, lo, hi) && Has(h, lo, RULE) && Has(h, hi, RULE)
  {
    hide Types, Flat, Good, AllFine, Shape, Valid, Balanced, Backed, Spine, Here, Sub, In;
    var hi := lo + |Flat(b)|;
    GoodOf(b);
    BackedMore(b, false);
    PartHere(c, h, lo, b, RULE, 0, lo, hi);
    TypedBlock(c, h, lo, b, RULE, 0, 0, lo, hi);
  }

  lemma GrammarTyped(rules: seq<Rule>, first: nat)
    requires AllCompile(rules) && first < |rules|
    ensures Typed(GrammarCode(rules, first), GrammarTypes(rules)) && Has(GrammarTypes(rules), 0, MAIN)
  {
    hide Compile, GrammarTypes, AllFine, Bodies;
    var c, h := GrammarCode(rules, first), GrammarTypes(rules);
    GrammarTypesAt(rules);
    forall p | 0 <= p < |h| ensures WordOk(c, h, p) {
      if p == 0 {
        RuleFine(rules, first, first);
      } else if 2 <= p < |c| {
        RuleWordOk(rules, first, p);
      }
    }
  }

  lemma RuleWordOk(rules: seq<Rule>, first: nat, p: int)
    requires AllCompile(rules) && first < |rules| && 2 <= p < Total(rules)
    ensures p < |GrammarTypes(rules)| && WordOk(GrammarCode(rules, first), GrammarTypes(rules), p)
  {
    hide Compile, GrammarTypes, Bodies;
    var k := RuleAt(rules, p, |rules|);
    RuleFine(rules, first, k);
    RulePlaced(rules, first, k);
    if p < EndOf(rules, k) {
      assert Fine(GrammarCode(rules, first), GrammarTypes(rules), p, Start(rules, k), EndOf(rules, k));
    }
  }

  // ---- chains of jumps ----

  /** Where the rule with a key starts. */
  function RuleOf(rules: seq<Rule>): int -> int
    requires AllCompile(rules)
  {
    (key: int) => Position(rules, key)
  }

  /** The code in which every open call is a jump to its rule. */
  function Hops(c: Code, rule: int -> int): (r: Code)
    ensures |r| == |c|
  {
    seq(|c|, i requires 0 <= i < |c| => if c[i].IOpenCall? then IJmp(rule(c[i].key) - i) else c[i])
  }

  ghost predicate Settles(c: Code, i: int) {
    exists n: nat :: Settled(c, i, n)
  }

  lemma SettlesJump(c: Code, i: int)
    requires 0 <= i <= |c| && (At(c, i).IJmp? ==> Settles(c, i + At(c, i).offset))
    ensures Settles(c, i)
  {
    if At(c, i).IJmp? {
      var n: nat :| Settled(c, i + At(c, i).offset, n);
      assert Settled(c, i, n + 1);
    } else {
      assert Settled(c, i, 0);
    }
  }

  /** k unconditional jumps lead from word q to word i. */
  ghost predicate Path(c: Code, q: int, k: nat, i: int)
    decreases k
  {
    if k == 0 then q == i else At(c, q).IJmp? && Path(c, q + At(c, q).offset, k - 1, i)
  }

  lemma {:induction false} PathMore(c: Code, q: int, k: nat, i: int)
    requires Path(c, q, k, i) && At(c, i).IJmp?
    ensures Path(c, q, k + 1, i + At(c, i).offset)
    decreases k
  {
    if k > 0 {
      PathMore(c, q + At(c, q).offset, k - 1, i);
    } else {
      assert Path(c, i + At(c, i).offset, 0, i + At(c, i).offset);
    }
  }

  lemma {:induction false} PathSettled(c: Code, q: int, k: nat, i: int, n: nat)
    requires Path(c, q, k, i) && Settled(c, q, n)
    ensures n >= k && Settled(c, i, n - k)
    decreases k
  {
    if k > 0 { PathSettled(c, q + At(c, q).offset, k - 1, i, n - 1); }
  }

  /** Jumps that come to an end do not lead in a circle. */
  lemma {:induction false} NoCircle(c: Code, i: int, k: nat, n: nat)
    requires Path(c, i, k, i) && Settled(c, i, n)
    ensures k == 0
    decreases n
  {
    PathSettled(c, i, k, i, n);
    if k > 0 { NoCircle(c, i, k, n - k); }
  }

  lemma {:induction false} Below(v: set<int>, n: nat)
    requires forall y :: y in v ==> 0 <= y < n
    ensures |v| <= n
  {
    if n == 0 {
      assert forall y :: y !in v;
    } else {
      Below(v - {n - 1}, n - 1);
      if n - 1 in v { assert v == (v - {n - 1}) + {n - 1}; } else { assert v == v - {n - 1}; }
    }
  }

  /** All words of v lead to word i. */
  ghost predicate LeadHere(c: Code, v: set<int>, i: int) {
    forall y :: y in v ==> 0 <= y < |c| && LeadsTo(c, y, i)
  }

  ghost predicate LeadsTo(c: Code, y: int, i: int) {
    exists k: nat :: k > 0 && Path(c, y, k, i)
  }

  /** A chain that ends takes no more jumps than there are words. */
  lemma {:induction false} ShortChain(c: Code, i: int, n: nat, v: set<int>)
    requires Settled(c, i, n) && LeadHere(c, v, i)
    ensures |v| <= |c| && Settled(c, i, |c| - |v|)
    decreases n
  {
    Below(v, |c|);
    if At(c, i).IJmp? {
      if i in v {
        var k: nat :| k > 0 && Path(c, i, k, i);
        NoCircle(c, i, k, n);
      }
      var j := i + At(c, i).offset;
      var w := v + {i};
      assert Path(c, j, 0, j);
      assert Path(c, i, 1, j);
      forall y | y in w ensures 0 <= y < |c| && LeadsTo(c, y, j) {
        if y != i {
          var k: nat :| k > 0 && Path(c, y, k, i);
          PathMore(c, y, k, i);
        }
      }
      ShortChain(c, j, n - 1, w);
    }
  }

  lemma SettlesSoon(c: Code, i: int)
    requires Settles(c, i)
    ensures Settled(c, i, |c|)
  {
    var n: nat :| Settled(c, i, n);
    ShortChain(c, i, n, {});
  }

  /** The jumps of d are jumps of c. */
  ghost predicate FewerJumps(c: Code, d: Code) {
    |d| == |c| && forall i :: 0 <= i < |d| && d[i].IJmp? ==> c[i] == d[i]
  }

  lemma {:induction false} FewerSettled(c: Code, d: Code, i: int, n: nat)
    requires FewerJumps(c, d) && Settled(c, i, n)
    ensures Settled(d, i, n)
    decreases n
  {
    if At(d, i).IJmp? { FewerSettled(c, d, i + At(d, i).offset, n - 1); }
  }

  lemma {:induction false} FewerPath(c: Code, d: Code, q: int, k: nat, i: int)
    requires FewerJumps(c, d) && Path(d, q, k, i)
    ensures Path(c, q, k, i)
    decreases k
  {
    if k > 0 { FewerPath(c, d, q + At(d, q).offset, k - 1, i); }
  }

  lemma {:induction false} LinkedFewer(c: Code, rule: int -> int, m: nat)
    requires m <= |c|
    ensures FewerJumps(Hops(c, rule), Linked(c, rule, m))
  {
    var d := Linked(c, rule, m);
    forall i | 0 <= i < |d| && d[i].IJmp? ensures Hops(c, rule)[i] == d[i] {
      LinkedWord(c, rule, m, i);
    }
  }

  /** Where `target` ends, a path leads. */
  lemma {:induction false} TargetPath(c: Code, q: int, n: nat) returns (k: nat)
    ensures Path(c, q, k, Target(c, q, n))
    decreases n
  {
    if n == 0 || !At(c, q).IJmp? {
      k := 0;
    } else {
      var k2 := TargetPath(c, q + At(c, q).offset, n - 1);
      k := k2 + 1;
    }
  }

  // ---- what verify finds out about chains ----

  /** As long as it meets jumps and open calls, verify goes where they lead. */
  lemma HopTurn(c: Code, rules: seq<Rule>, e: int, q: int, back: seq<VEntry>, n: nat)
    requires AllCompile(rules) && 0 <= e < |c| && c[e].IRet? && VTurns(c, rules, e, Going(q, back), n).Finished?
    requires var j := Hops(c, RuleOf(rules)); At(j, q).IJmp?
    ensures n > 0 && VTurn(c, rules, e, Going(q, back)).Going?
            && VTurn(c, rules, e, Going(q, back)).p == q + At(Hops(c, RuleOf(rules)), q).offset
    ensures VTurns(c, rules, e, VTurn(c, rules, e, Going(q, back)), n - 1) == VTurns(c, rules, e, Going(q, back), n)
  {
    hide Compile;
    if n > 0 {
      var st := VTurn(c, rules, e, Going(q, back));
      if !st.Going? { Stopped(c, rules, e, st, n - 1); }
    }
  }

  lemma GoingIn(c: Code, rules: seq<Rule>, e: int, q: int, back: seq<VEntry>, n: nat)
    requires AllCompile(rules) && 0 <= e < |c| && VTurns(c, rules, e, Going(q, back), n).Finished?
    ensures 0 <= q < |c|
  {
    hide Compile;
    if n > 0 && q != e && !(0 <= q < |c|) {
      Stopped(c, rules, e, BadPattern, n - 1);
    }
  }

  lemma {:induction false} VerifyChain(c: Code, rules: seq<Rule>, e: int, q: int, back: seq<VEntry>, n: nat)
    requires AllCompile(rules) && 0 <= e < |c| && c[e].IRet? && VTurns(c, rules, e, Going(q, back), n).Finished?
    ensures Settles(Hops(c, RuleOf(rules)), q)
    decreases n
  {
    hide VTurn, VTurns, Settles, Hops, RuleOf;
    var j := Hops(c, RuleOf(rules));
    GoingIn(c, rules, e, q, back, n);
    if At(j, q).IJmp? {
      HopTurn(c, rules, e, q, back, n);
      var st := VTurn(c, rules, e, Going(q, back));
      VerifyChain(c, rules, e, st.p, st.back, n - 1);
    }
    SettlesJump(j, q);
  }

  lemma {:induction false} FollowPath(c: Code, rules: seq<Rule>, e: int, q: int, back: seq<VEntry>, k: nat, i: int,
      n: nat)
    returns (back2: seq<VEntry>, left: nat)
    requires AllCompile(rules) && 0 <= e < |c| && c[e].IRet? && VTurns(c, rules, e, Going(q, back), n).Finished?
    requires Path(Hops(c, RuleOf(rules)), q, k, i)
    ensures n == left + k && VTurns(c, rules, e, Going(i, back2), left).Finished?
    decreases k
  {
    hide VTurn, VTurns, Hops, RuleOf;
    if k == 0 {
      back2, left := back, n;
    } else {
      HopTurn(c, rules, e, q, back, n);
      var st := VTurn(c, rules, e, Going(q, back));
      back2, left := FollowPath(c, rules, e, st.p, st.back, k - 1, i, n - 1);
    }
  }

  /** verify would never come to an end on a test that is led back to itself. */
  lemma {:induction false} NoTestCircle(c: Code, rules: seq<Rule>, e: int, i: int, back: seq<VEntry>, k: nat, n: nat)
    requires AllCompile(rules) && 0 <= e < |c| && c[e].IRet? && VTurns(c, rules, e, Going(i, back), n).Finished?
    requires 0 <= i < |c| && IsTest(c[i]) && !At(c, i + Size(c[i])).IBack?
             && Path(Hops(c, RuleOf(rules)), i + c[i].offset, k, i)
    ensures false
    decreases n
  {
    hide VTurns, Hops, RuleOf;
    TestTurn(c, rules, e, i, back, n);
    var back2, left := FollowPath(c, rules, e, i + c[i].offset, back, k, i, n - 1);
    NoTestCircle(c, rules, e, i, back2, k, left);
  }

  lemma TestTurn(c: Code, rules: seq<Rule>, e: int, i: int, back: seq<VEntry>, n: nat)
    requires AllCompile(rules) && 0 <= e < |c| && c[e].IRet? && VTurns(c, rules, e, Going(i, back), n).Finished?
    requires 0 <= i < |c| && IsTest(c[i]) && !At(c, i + Size(c[i])).IBack?
    ensures n > 0 && VTurns(c, rules, e, Going(i + c[i].offset, back), n - 1).Finished?
  {
    hide Compile;
    assert n > 0 ==> VTurn(c, rules, e, Going(i, back)) == Going(i + c[i].offset, back);
  }

  // ---- what holds of an accepted grammar ----

  /** The run of verify on rule k, which came to an end. */
  lemma RuleRun(rules: seq<Rule>, first: nat, k: nat) returns (n: nat)
    requires Accepted(rules, first) && k < |rules|
    ensures VTurns(GrammarCode(rules, first), rules, EndOf(rules, k), Going(Start(rules, k), []), n).Finished?
  {
    hide VTurns, Compile, LoopsChecked, Bodies;
    var c := GrammarCode(rules, first);
    assert RuleChecked(c, rules, k);
    RulePlaced(rules, first, k);
    var e, p := EndOf(rules, k), Start(rules, k);
    if Verifies(c, rules, p, e, true) {
      n :| VTurns(c, rules, e, Going(p, []), n) == Finished(true);
    } else {
      n :| VTurns(c, rules, e, Going(p, []), n) == Finished(false);
    }
  }

  lemma RuleSettles(rules: seq<Rule>, first: nat, k: nat)
    requires Accepted(rules, first) && k < |rules|
    ensures Settles(Hops(GrammarCode(rules, first), RuleOf(rules)), Start(rules, k))
  {
    hide VTurns, Compile, Accepted, Bodies, Settles, Hops, RuleOf, GrammarCode;
    AcceptedParts(rules, first);
    RulePlaced(rules, first, k);
    var n := RuleRun(rules, first, k);
    VerifyChain(GrammarCode(rules, first), rules, EndOf(rules, k), Start(rules, k), [], n);
  }

  lemma AcceptedParts(rules: seq<Rule>, first: nat)
    requires Accepted(rules, first)
    ensures AllCompile(rules) && first < |rules|
  {
  }

  /** An open call leads to the start of a rule. */
  lemma CallLeads(rules: seq<Rule>, first: nat, i: int) returns (k: nat)
    requires Accepted(rules, first) && 0 <= i < Total(rules) && GrammarCode(rules, first)[i].IOpenCall?
    ensures k < |rules| && RuleOf(rules)(GrammarCode(rules, first)[i].key) == Start(rules, k)
  {
    k := Find(rules, GrammarCode(rules, first)[i].key, 0);
  }

  /** A word of a rule that is no jump or leads forward in the rule, back to the test of a loop, or to a rule. */
  lemma RuleJump(rules: seq<Rule>, first: nat, k: nat, q: int)
    requires AllCompile(rules) && first < |rules| && k < |rules| && Start(rules, k) <= q < EndOf(rules, k)
    ensures var c := GrammarCode(rules, first);
            && 0 <= q < |c| && Flows(c, q, Start(rules, k), EndOf(rules, k))
  {
    hide Compile, Bodies, Flows, GrammarCode;
    RulePlaced(rules, first, k);
    RuleFine(rules, first, k);
    var c, h := GrammarCode(rules, first), GrammarTypes(rules);
    assert Fine(c, h, q, Start(rules, k), EndOf(rules, k));
    PadFlows(c, q, Start(rules, k), EndOf(rules, k));
  }

  lemma PadFlows(c: Code, q: int, lo: int, hi: int)
    requires 0 <= q < |c|
    ensures c[q] == CharsetWord ==> Flows(c, q, lo, hi)
  {
  }

  lemma {:induction false} WordSettles(rules: seq<Rule>, first: nat, k: nat, q: int)
    requires Accepted(rules, first) && k < |rules| && Start(rules, k) <= q <= EndOf(rules, k)
    ensures Settles(Hops(GrammarCode(rules, first), RuleOf(rules)), q)
    decreases EndOf(rules, k) - q
  {
    hide Compile, Accepted, Bodies, Settles, RuleOf, GrammarCode;
    AcceptedParts(rules, first);
    RulePlaced(rules, first, k);
    var c := GrammarCode(rules, first);
    var j := Hops(c, RuleOf(rules));
    if q < EndOf(rules, k) && At(j, q).IJmp? {
      if c[q].IOpenCall? {
        var k2 := CallLeads(rules, first, q);
        RuleSettles(rules, first, k2);
      } else {
        RuleJump(rules, first, k, q);
        if c[q].offset > 0 { WordSettles(rules, first, k, q + c[q].offset); } else { SettlesJump(j, q + c[q].offset); }
      }
    }
    SettlesJump(j, q);
  }

  /** From every word of an accepted grammar the jumps and open calls come to an end. */
  lemma AllSettles(rules: seq<Rule>, first: nat, q: int)
    requires Accepted(rules, first) && 0 <= q <= Total(rules)
    ensures Settles(Hops(GrammarCode(rules, first), RuleOf(rules)), q)
  {
    hide Compile, Accepted, Bodies, Settles, RuleOf;
    AcceptedParts(rules, first);
    var c := GrammarCode(rules, first);
    var j := Hops(c, RuleOf(rules));
    if 2 <= q < |c| {
      var k := RuleAt(rules, q, |rules|);
      WordSettles(rules, first, k, q);
    } else {
      SettlesJump(j, Total(rules));
      SettlesJump(j, q);
    }
  }

  lemma LinkedSettled(rules: seq<Rule>, first: nat, m: nat, q: int)
    requires Accepted(rules, first) && m <= Total(rules) && 0 <= q <= Total(rules)
    ensures Settled(Linked(GrammarCode(rules, first), RuleOf(rules), m), q, Total(rules))
  {
    hide Compile, Accepted, Bodies, Settles, RuleOf, Hops, Linked, Settled, GrammarCode;
    AcceptedParts(rules, first);
    AllSettles(rules, first, q);
    var c := GrammarCode(rules, first);
    SettlesSoon(Hops(c, RuleOf(rules)), q);
    LinkedFewer(c, RuleOf(rules), m);
    FewerSettled(Hops(c, RuleOf(rules)), Linked(c, RuleOf(rules), m), q, Total(rules));
  }

  /** Every word of a grammar's code that jumps leads to a word of the code. */
  lemma JumpInside(rules: seq<Rule>, first: nat, i: int)
    requires AllCompile(rules) && first < |rules| && 0 <= i < Total(rules)
    ensures var c := GrammarCode(rules, first); IsJmp(c[i]) ==> 0 <= i + c[i].offset <= |c|
  {
    hide Compile, Bodies, GrammarTypes;
    var c, h := GrammarCode(rules, first), GrammarTypes(rules);
    GrammarTyped(rules, first);
    GrammarTypesAt(rules);
    assert WordOk(c, h, i);
    if i >= 2 {
      var k := RuleAt(rules, i, |rules|);
      RulePlaced(rules, first, k);
      RuleFine(rules, first, k);
      if i < EndOf(rules, k) { assert Fine(c, h, i, Start(rules, k), EndOf(rules, k)); }
    }
  }

  lemma LinkedJumpInside(rules: seq<Rule>, first: nat, i: int)
    requires Accepted(rules, first) && 0 <= i < Total(rules)
    ensures var d := Linked(GrammarCode(rules, first), RuleOf(rules), Total(rules)); IsJmp(d[i]) ==>
            0 <= i + d[i].offset <= |d|
  {
    hide Compile, Accepted, Bodies, Linked, RuleOf, GrammarCode;
    AcceptedParts(rules, first);
    var c := GrammarCode(rules, first);
    LinkedWord(c, RuleOf(rules), |c|, i);
    if c[i].IOpenCall? {
      var k := CallLeads(rules, first, i);
      RulePlaced(rules, first, k);
    } else {
      JumpInside(rules, first, i);
    }
  }

  /** In an accepted grammar `target` always ends: when calls are corrected, and when jumps are threaded. */
  lemma AcceptedSettled(rules: seq<Rule>, first: nat)
    requires Accepted(rules, first)
    ensures CallsSettled(GrammarCode(rules, first), RuleOf(rules))
            && AllSettled(Linked(GrammarCode(rules, first), RuleOf(rules), Total(rules)))
  {
    hide Compile, Accepted, Bodies, Linked, RuleOf, GrammarCode, Settled;
    AcceptedParts(rules, first);
    var c := GrammarCode(rules, first);
    forall i | 0 <= i < |c| && c[i].IOpenCall? ensures Settled(Linked(c, RuleOf(rules), i), i + 1, |c|) {
      LinkedSettled(rules, first, i, i + 1);
    }
    var d := Linked(c, RuleOf(rules), |c|);
    forall i | 0 <= i < |d| && IsJmp(d[i]) ensures Settled(d, i + d[i].offset, |d|) {
      LinkedJumpInside(rules, first, i);
      LinkedSettled(rules, first, |c|, i + d[i].offset);
    }
  }

  lemma AcceptedInCode(rules: seq<Rule>, first: nat)
    requires Accepted(rules, first)
    ensures InCode(GrammarCode(rules, first), RuleOf(rules))
  {
    hide Compile, Accepted, Bodies, RuleOf, GrammarCode;
    AcceptedParts(rules, first);
    var c := GrammarCode(rules, first);
    forall i | 0 <= i < |c| && (c[i].IJmp? || c[i].IOpenCall?)
      ensures i + AllCalls(c, RuleOf(rules))[i].offset != GIVEUP {
      if c[i].IOpenCall? {
        var k := CallLeads(rules, first, i);
        RulePlaced(rules, first, k);
      } else {
        JumpInside(rules, first, i);
      }
    }
  }

  lemma GrammarWhole(rules: seq<Rule>, first: nat)
    requires AllCompile(rules) && first < |rules|
    ensures Whole(GrammarCode(rules, first))
  {
    hide Compile, Bodies, GrammarTypes;
    var c, h := GrammarCode(rules, first), GrammarTypes(rules);
    forall i | 0 <= i < |c| ensures i + Size(c[i]) <= |c| && forall j :: i < j < i + Size(c[i]) ==>
      c[j] == CharsetWord {
      if i >= 2 {
        var k := RuleAt(rules, i, |rules|);
        RulePlaced(rules, first, k);
        RuleFine(rules, first, k);
        if i < EndOf(rules, k) {
          assert Fine(c, h, i, Start(rules, k), EndOf(rules, k));
          if h[i].Some? {
            forall j | i < j < i + Size(c[i]) ensures c[j] == CharsetWord { SubAt(c, i, Words(c[i]), j - i); }
          }
        }
      }
    }
  }

  /** The layout has no IEnd inside. */
  lemma LaidPattern(rules: seq<Rule>, first: nat)
    requires AllCompile(rules) && first < |rules|
    ensures forall i :: 0 <= i < Total(rules) ==> !GrammarCode(rules, first)[i].IEnd?
  {
    hide Compile, Bodies, GrammarTypes;
    var c, h := GrammarCode(rules, first), GrammarTypes(rules);
    forall i | 0 <= i < |c| ensures !c[i].IEnd? {
      if i >= 2 {
        var k := RuleAt(rules, i, |rules|);
        RulePlaced(rules, first, k);
        RuleFine(rules, first, k);
        if i < EndOf(rules, k) { assert Fine(c, h, i, Start(rules, k), EndOf(rules, k)); }
      }
    }
  }

  // ---- no test is led back to itself ----

  /** A path from behind a test back to it passes the start of a rule. */
  lemma {:induction false} PathEntry(rules: seq<Rule>, first: nat, k: nat, i: int, q: int, n: nat) returns (k2: nat,
      n2: nat)
    requires Accepted(rules, first) && k < |rules| && Start(rules, k) <= i < EndOf(rules, k) && 0 <= i < Total(rules)
             && IsTest(GrammarCode(rules, first)[i])
    requires Path(Hops(GrammarCode(rules, first), RuleOf(rules)), q, n, i)
    requires i < q <= EndOf(rules, k) && i + GrammarCode(rules, first)[i].offset <= q
    ensures k2 < |rules| && Path(Hops(GrammarCode(rules, first), RuleOf(rules)), Start(rules, k2), n2, i)
    decreases n
  {
    hide Compile, Accepted, Bodies, RuleOf, GrammarCode;
    AcceptedParts(rules, first);
    RulePlaced(rules, first, k);
    var c := GrammarCode(rules, first);
    var j := Hops(c, RuleOf(rules));
    assert n > 0 && At(j, q).IJmp? && q < EndOf(rules, k);
    if c[q].IOpenCall? {
      k2 := CallLeads(rules, first, q);
      n2 := n - 1;
    } else {
      RuleJump(rules, first, k, q);
      assert c[q].offset > 0 by {
        if c[q].offset < 0 { TestStops(j, q + c[q].offset, n - 1, i); }
      }
      k2, n2 := PathEntry(rules, first, k, i, q + c[q].offset, n - 1);
    }
  }

  /** A path does not go on from a test. */
  lemma TestStops(c: Code, q: int, n: nat, i: int)
    requires Path(c, q, n, i) && At(c, q).ICheck?
    ensures q == i && n == 0
  {
  }

  lemma AcceptedLinkable(rules: seq<Rule>, first: nat)
    requires Accepted(rules, first)
    ensures Linkable(Linked(GrammarCode(rules, first), RuleOf(rules), Total(rules)))
  {
    hide Compile, Accepted, Bodies, RuleOf, GrammarCode, Linked;
    AcceptedParts(rules, first);
    var c := GrammarCode(rules, first);
    var d := Linked(c, RuleOf(rules), |c|);
    forall i | 0 <= i < |d| && d[i].IJmp? ensures i + d[i].offset != GIVEUP { LinkedJumpIn(rules, first, i); }
    forall i | 0 <= i < |d| && IsTest(d[i]) ensures Target(d, i + d[i].offset, |d|) != i {
      LinkedWord(c, RuleOf(rules), |c|, i);
      if Target(d, i + d[i].offset, |d|) == i { NoTestLoop(rules, first, i); }
    }
  }

  lemma LinkedJumpIn(rules: seq<Rule>, first: nat, i: int)
    requires Accepted(rules, first) && 0 <= i < Total(rules)
    ensures var d := Linked(GrammarCode(rules, first), RuleOf(rules), Total(rules)); d[i].IJmp? ==>
            i + d[i].offset != GIVEUP
  {
    hide Compile, Accepted, Bodies, RuleOf, GrammarCode, Linked;
    AcceptedParts(rules, first);
    AcceptedInCode(rules, first);
    HopIs(GrammarCode(rules, first), RuleOf(rules), Total(rules), i);
  }

  lemma NoTestLoop(rules: seq<Rule>, first: nat, i: int)
    requires Accepted(rules, first) && 0 <= i < Total(rules) && IsTest(GrammarCode(rules, first)[i])
    requires var d := Linked(GrammarCode(rules, first), RuleOf(rules), Total(rules));
             Target(d, i + GrammarCode(rules, first)[i].offset, Total(rules)) == i
    ensures false
  {
    hide Compile, Accepted, Bodies, RuleOf, Linked, Hops, VTurns, Target;
    AcceptedParts(rules, first);
    var c := GrammarCode(rules, first);
    var d, j, q := Linked(c, RuleOf(rules), |c|), Hops(c, RuleOf(rules)), i + c[i].offset;
    var n := TargetPath(d, q, |c|);
    LinkedFewer(c, RuleOf(rules), |c|);
    FewerPath(j, d, q, n, i);
    var k := RuleAt(rules, i, |rules|);
    RulePlaced(rules, first, k);
    RuleJump(rules, first, k, i);
    if At(c, i + Size(c[i])).IBack? {
      HopsKeep(c, RuleOf(rules), q);
      TestStops(j, q, n, i);
    } else {
      var k2, n2 := PathEntry(rules, first, k, i, q, n);
      RulePlaced(rules, first, k2);
      var m := RuleRun(rules, first, k2);
      var back, left := FollowPath(c, rules, EndOf(rules, k2), Start(rules, k2), [], n2, i, m);
      NoTestCircle(c, rules, EndOf(rules, k2), i, back, n, left);
    }
  }

  lemma HopsKeep(c: Code, rule: int -> int, q: int)
    ensures At(c, q).ICheck? ==> At(Hops(c, rule), q).ICheck?
  {
  }

  // ---- stack discipline ----

  lemma CallTarget(rules: seq<Rule>, first: nat, i: int)
    requires Accepted(rules, first) && 0 <= i < Total(rules) && GrammarCode(rules, first)[i].IOpenCall?
    ensures Has(GrammarTypes(rules), RuleOf(rules)(GrammarCode(rules, first)[i].key), RULE)
  {
    hide Compile, Accepted, Bodies, RuleOf, GrammarCode, GrammarTypes;
    AcceptedParts(rules, first);
    var k := CallLeads(rules, first, i);
    RuleFine(rules, first, k);
  }

  lemma CallsTyped(rules: seq<Rule>, first: nat)
    requires Accepted(rules, first)
    ensures Typed(AllCalls(GrammarCode(rules, first), RuleOf(rules)), GrammarTypes(rules))
  {
    hide Compile, Accepted, Bodies, RuleOf, GrammarCode, GrammarTypes;
    AcceptedParts(rules, first);
    GrammarTyped(rules, first);
    var c, h := GrammarCode(rules, first), GrammarTypes(rules);
    var d := AllCalls(c, RuleOf(rules));
    forall p | 0 <= p < |h| ensures WordOk(d, h, p) {
      assert WordOk(c, h, p);
      if p < |c| && c[p].IOpenCall? { CallTarget(rules, first, p); }
    }
  }

  /** The types of two words are the same but for the bytes passed. */
  predicate SameTy(t: Ty, u: Ty) {
    t.inRule == u.inRule && t.opens == u.opens
  }

  /** Jumps do not change the type. */
  lemma {:induction false} TargetHas(c: Code, h: Typing, q: int, t: Ty, n: nat)
    requires Has(h, q, t) && |h| == |c| + 1 && forall p :: 0 <= p < |c| && c[p].IJmp? ==> WordOk(c, h, p)
    ensures Has(h, Target(c, q, n), t)
    decreases n
  {
    hide Target;
    TargetStep(c, q, n);
    if n > 0 && At(c, q).IJmp? {
      assert WordOk(c, h, q);
      TargetHas(c, h, q + At(c, q).offset, t, n - 1);
    }
  }

  lemma TargetStep(c: Code, q: int, n: nat)
    ensures Target(c, q, n) == if n == 0 || !At(c, q).IJmp? then q else Target(c, q + At(c, q).offset, n - 1)
  {
  }

  /** A call whose continuation leads to a return stands where the rule has nothing on the stack. */
  lemma {:induction false} TailTyped(rules: seq<Rule>, first: nat, i: int)
    requires Accepted(rules, first) && 0 <= i < Total(rules) && TailCall(GrammarCode(rules, first), RuleOf(rules), i)
    ensures i < |GrammarTypes(rules)| && (GrammarTypes(rules)[i].Some? ==> SameTy(GrammarTypes(rules)[i].value, RULE))
    decreases i
  {
    hide Compile, Accepted, Bodies, RuleOf, GrammarCode, GrammarTypes, Target;
    AcceptedParts(rules, first);
    GrammarTyped(rules, first);
    var c, h := GrammarCode(rules, first), GrammarTypes(rules);
    var d := Linked(c, RuleOf(rules), i);
    if h[i].Some? {
      assert WordOk(c, h, i);
      LinkedJumpsTyped(rules, first, i);
      TargetHas(d, h, i + 1, h[i].value, |c|);
      var r := Target(d, i + 1, |c|);
      HopIs2(c, RuleOf(rules), i, r);
      assert WordOk(c, h, r);
    }
  }

  lemma HopIs2(c: Code, rule: int -> int, m: nat, q: int)
    requires m <= |c|
    ensures At(Linked(c, rule, m), q).IRet? ==> At(c, q).IRet? && 0 <= q < |c|
  {
    if 0 <= q < |c| { LinkedWord(c, rule, m, q); }
  }

  lemma {:induction false} LinkedJumpsTyped(rules: seq<Rule>, first: nat, m: nat)
    requires Accepted(rules, first) && m <= Total(rules)
    ensures var d, h := Linked(GrammarCode(rules, first), RuleOf(rules), m), GrammarTypes(rules);
            |h| == |d| + 1 && forall p :: 0 <= p < |d| && d[p].IJmp? ==> WordOk(d, h, p)
    decreases m, 0
  {
    hide Compile, Accepted, Bodies, RuleOf, GrammarCode, GrammarTypes, Target, Linked;
    AcceptedParts(rules, first);
    GrammarTyped(rules, first);
    var c, h := GrammarCode(rules, first), GrammarTypes(rules);
    var d := Linked(c, RuleOf(rules), m);
    forall p | 0 <= p < |d| && d[p].IJmp? ensures WordOk(d, h, p) {
      assert WordOk(c, h, p);
      LinkedWord(c, RuleOf(rules), m, p);
      if c[p].IOpenCall? {
        TailOf(c, RuleOf(rules), m, p);
        TailTyped(rules, first, p);
        CallTarget(rules, first, p);
      }
    }
  }

  lemma TailOf(c: Code, rule: int -> int, m: nat, p: int)
    requires m <= |c| && 0 <= p < |c| && c[p].IOpenCall?
    ensures Linked(c, rule, m)[p].IJmp? ==>
            p < m && TailCall(c, rule, p) && Linked(c, rule, m)[p] == IJmp(rule(c[p].key) - p)
    ensures Linked(c, rule, m)[p].ICall? ==> Linked(c, rule, m)[p] == ICall(rule(c[p].key) - p)
  {
    LinkedWord(c, rule, m, p);
  }

  lemma LinkedTyped(rules: seq<Rule>, first: nat)
    requires Accepted(rules, first)
    ensures Typed(Linked(GrammarCode(rules, first), RuleOf(rules), Total(rules)), GrammarTypes(rules))
  {
    hide Compile, Accepted, Bodies, RuleOf, GrammarCode, GrammarTypes, Target, Linked;
    AcceptedParts(rules, first);
    GrammarTyped(rules, first);
    var c, h := GrammarCode(rules, first), GrammarTypes(rules);
    var d := Linked(c, RuleOf(rules), |c|);
    LinkedJumpsTyped(rules, first, |c|);
    forall p | 0 <= p < |h| ensures WordOk(d, h, p) {
      assert WordOk(c, h, p);
      if p < |c| {
        LinkedWord(c, RuleOf(rules), |c|, p);
        if c[p].IOpenCall? {
          TailOf(c, RuleOf(rules), |c|, p);
          CallTarget(rules, first, p);
        }
      }
    }
  }

  /** Threading the jumps of typed code leaves it typed. */
  lemma ThreadedTyped(c: Code, h: Typing)
    requires Typed(c, h)
    ensures Typed(OptJumps(c), h)
  {
    hide Target, OptJumps;
    var d := OptJumps(c);
    assert forall p :: 0 <= p < |c| && c[p].IJmp? ==> WordOk(c, h, p);
    forall p | 0 <= p < |h| ensures WordOk(d, h, p) {
      assert WordOk(c, h, p);
      ThreadedWord(c, p);
      if 0 <= p < |c| && IsJmp(c[p]) && h[p].Some? { ThreadedOk(c, h, p); }
    }
  }

  lemma ThreadedWord(c: Code, p: int)
    ensures 0 <= p < |c| && IsJmp(c[p]) ==> At(OptJumps(c), p) == SetOffset(c[p], Target(c, p + c[p].offset, |c|) - p)
    ensures !(0 <= p < |c| && IsJmp(c[p])) ==> At(OptJumps(c), p) == At(c, p)
  {
  }

  /** The type with which a jumping instruction of type t leaves for its target. */
  function JumpTy(i: Cell, t: Ty): Ty
    requires HasOffset(i) && t.opens != []
  {
    if i.ICall? then RULE else if i.ICommit? || i.IBackCommit? then Pop(t) else t
  }

  lemma ThreadedOk(c: Code, h: Typing, p: int)
    requires Typed(c, h) && 0 <= p < |c| && IsJmp(c[p]) && h[p].Some? && h[p].value.opens != []
             && InstOk(h, p, c[p], h[p].value)
    ensures InstOk(h, p, SetOffset(c[p], Target(c, p + c[p].offset, |c|) - p), h[p].value)
  {
    hide Target;
    var t := h[p].value;
    var u := JumpTy(c[p], t);
    assert forall q :: 0 <= q < |c| && c[q].IJmp? ==> WordOk(c, h, q);
    TargetHas(c, h, p + c[p].offset, u, |c|);
  }

  /** The code that fix_l returns. */
  function Fixed(rules: seq<Rule>, first: nat): Code
    requires AllCompile(rules) && first < |rules|
  {
    OptJumps(Linked(GrammarCode(rules, first), RuleOf(rules), Total(rules)))
  }

  /**
    Stack discipline of grammars.  On the code of an accepted grammar, with calls or with its
    tail calls turned into jumps and all jumps threaded, every state of every run is in order.
   */
  lemma GrammarDiscipline(rules: seq<Rule>, first: nat, x: seq<Byte>, i: int)
    requires Accepted(rules, first) && 0 <= i <= |x|
    ensures Disciplined(AllCalls(GrammarCode(rules, first), RuleOf(rules)), x, Init(i))
            && Disciplined(Fixed(rules, first), x, Init(i))
  {
    hide Compile, Accepted, Bodies, RuleOf, GrammarCode, GrammarTypes, Linked, AllCalls, OptJumps, Typed, Disciplined;
    AcceptedParts(rules, first);
    GrammarTypesAt(rules);
    CallsTyped(rules, first);
    LinkedTyped(rules, first);
    var c, h := GrammarCode(rules, first), GrammarTypes(rules);
    ThreadedTyped(Linked(c, RuleOf(rules), |c|), h);
    TypedDiscipline(AllCalls(c, RuleOf(rules)), h, x, i);
    TypedDiscipline(Fixed(rules, first), h, x, i);
  }

  // ---- linking ----

  /**
    Linking an accepted grammar changes the result of no run: the code that fix_l returns halts
    exactly where the grammar with plain calls does, in the same state.
   */
  lemma AcceptedLinked(rules: seq<Rule>, first: nat, x: seq<Byte>, i: int, h: State)
    requires Accepted(rules, first) && 0 <= i <= |x| && h.Halted()
    ensures Reaches(AllCalls(GrammarCode(rules, first), RuleOf(rules)), x, Init(i), h) <==>
            Reaches(Fixed(rules, first), x, Init(i), h)
  {
    hide Compile, Accepted, Bodies, RuleOf, GrammarCode, Linked, AllCalls, OptJumps, Reaches, Disciplined, Linkable,
      InCode;
    AcceptedParts(rules, first);
    GrammarDiscipline(rules, first, x, i);
    AcceptedInCode(rules, first);
    AcceptedLinkable(rules, first);
    GrammarLinked(GrammarCode(rules, first), RuleOf(rules), x, i, h);
  }
}
