/** Inputs of the search that decide about its exceptions, and inputs on which it must succeed. */
module Rc2Inputs {
  import opened Cores
  import opened Logic
  import opened Rc2
  import opened Runs
  import opened Strata
  import opened Weights

  lemma {:induction false} TableEntry(soft: seq<(Formula, nat)>, i: nat)
    requires i < |soft| && forall j, k | 0 <= j < k < |soft| :: soft[j].0 != soft[k].0
    ensures soft[i].0 in TableOf(soft) && TableOf(soft)[soft[i].0] == soft[i].1
  {
    var init := soft[..|soft| - 1];
    if i < |init| {
      TableEntry(init, i);
    } else {
      TableKeys(init);
    }
  }

  lemma {:induction false} TableSize(soft: seq<(Formula, nat)>)
    requires forall j, k | 0 <= j < k < |soft| :: soft[j].0 != soft[k].0
    ensures |TableOf(soft)| == |soft|
  {
    if soft != [] {
      var init, last := soft[..|soft| - 1], soft[|soft| - 1];
      TableSize(init);
      TableKeys(init);
      assert TableOf(soft).Keys == TableOf(init).Keys + {last.0};
    }
  }

  /** A contradiction that needs every one of the soft constraints cannot be split. */
  lemma MinimalIsUnsplit(hard: seq<Formula>, fs: set<Formula>)
    requires fs != {} && !Consistent(hard, fs) && forall f | f in fs :: Consistent(hard, fs - {f})
    ensures Unsplit(hard, fs)
  {
    hide Consistent, Satisfiable;
    var f :| f in fs;
    ConsistentPart(hard, fs - {f}, {});
    forall part | part <= fs && part != {} ensures Consistent(hard, fs - part) {
      var g :| g in part;
      ConsistentPart(hard, fs - {g}, fs - part);
    }
  }

  /** `not (a and b)` as the only hard constraint. */
  function Exclusion(a: Symbol, b: Symbol): seq<Formula> {
    [Not(And([Atom(a), Atom(b)]))]
  }

  /** For equal weights the condition that every missing model implies is that the wishes contradict each other. */
  lemma OutweighedWhenUniform(hard: seq<Formula>, soft: Table)
    requires UserTable(soft) && Uniform(soft) && soft != map[]
    ensures Outweighed(hard, soft) <==> !Consistent(hard, soft.Keys)
  {
    if w: World :| Models(w, hard) && forall f | f in soft.Keys :: Eval(w, f, Literal) {
      SumZero(soft, Indicator(FalseIn(w)));
      var f :| f in soft;
      assert soft[f] > Cost(soft, w);
    }
    if !Consistent(hard, soft.Keys) {
      forall w: World, f | Models(w, hard) && f in soft ensures soft[f] <= Cost(soft, w) {
        var g :| g in soft && !Eval(w, g, Literal);
        SumRemove(soft, g, Indicator(FalseIn(w)));
        assert soft[f] == soft[g];
      }
    }
  }

  /** Two wishes of equal weight that exclude each other: no solver can avoid the exception. */
  method TwoExclusive(solver: Solver, a: Symbol, b: Symbol) returns (r: Outcome<(nat, set<Formula>)>, rc2: RC2)
    requires solver.Valid() && solver.asserted == [] && a != b
    modifies solver
    ensures r.NoModel?
  {
    ExclusionIsDoomed(a, b, solver.WholeCores());
    r, rc2 := FromFormulas(solver, Exclusion(a, b), [(Atom(a), 1), (Atom(b), 1)]);
  }

  lemma ExclusionMeans(a: Symbol, b: Symbol, w: World)
    ensures NameFree(Exclusion(a, b)[0])
    ensures Models(w, Exclusion(a, b)) <==> !w(Atom(a)) || !w(Atom(b))
  {
    var both := [Atom(a), Atom(b)];
    assert both[0] == Atom(a) && both[1] == Atom(b);
    assert Eval(w, both[0], Literal) == w(Atom(a)) && Eval(w, both[1], Literal) == w(Atom(b));
    assert Eval(w, And(both), Literal) <==> w(Atom(a)) && w(Atom(b));
    assert Exclusion(a, b) == [Not(And(both))];
    assert Eval(w, Not(And(both)), Literal) <==> !Eval(w, And(both), Literal);
    assert Exclusion(a, b)[0] == Not(And(both));
    assert Models(w, Exclusion(a, b)) <==> Eval(w, Not(And(both)), Literal);
  }

  lemma OneWishHolds(a: Symbol, b: Symbol, wish: Symbol)
    requires a != b && (wish == a || wish == b)
    ensures Consistent(Exclusion(a, b), {Atom(wish)})
  {
    var w: World := f => f == Atom(wish);
    ExclusionMeans(a, b, w);
    assert Eval(w, Atom(wish), Literal);
  }

  lemma BothWishesFail(a: Symbol, b: Symbol)
    ensures !Consistent(Exclusion(a, b), {Atom(a), Atom(b)})
  {
    forall w: World | Models(w, Exclusion(a, b)) ensures exists f | f in {Atom(a), Atom(b)} :: !Eval(w, f, Literal) {
      ExclusionMeans(a, b, w);
      assert !Eval(w, Atom(a), Literal) || !Eval(w, Atom(b), Literal);
    }
  }

  lemma ExclusionIsDoomed(a: Symbol, b: Symbol, whole: bool)
    requires a != b
    ensures Doomed(Exclusion(a, b), TableOf([(Atom(a), 1), (Atom(b), 1)]), whole)
    ensures NameFree(Exclusion(a, b)[0])
  {
    hide Consistent, Exclusion, TableOf, Unsplit;
    var hard, soft := Exclusion(a, b), [(Atom(a), 1), (Atom(b), 1)];
    var fs := {Atom(a), Atom(b)};
    TableKeys(soft);
    TableEntry(soft, 0);
    TableEntry(soft, 1);
    assert soft[0].0 == Atom(a) && soft[1].0 == Atom(b);
    assert Listed(soft) == fs;
    BothWishesFail(a, b);
    OneWishHolds(a, b, a);
    OneWishHolds(a, b, b);
    assert fs - {Atom(a)} == {Atom(b)} && fs - {Atom(b)} == {Atom(a)};
    MinimalIsUnsplit(hard, fs);
    ExclusionMeans(a, b, f => false);
  }

  ghost function ListWeight(soft: seq<(Formula, nat)>): nat {
    if soft == [] then 0 else ListWeight(soft[..|soft| - 1]) + soft[|soft| - 1].1
  }

  lemma {:induction false} WeightOfList(soft: seq<(Formula, nat)>)
    ensures Weight(TableOf(soft)) == ListWeight(soft)
  {
    if soft != [] {
      var init, last := soft[..|soft| - 1], soft[|soft| - 1];
      WeightOfList(init);
      SumAdded(TableOf(init), last.0, last.1, Indicator(Always()));
    }
  }

  lemma ListAppend(soft: seq<(Formula, nat)>, last: (Formula, nat), w: World)
    ensures ListCost(soft + [last], w) == ListCost(soft, w) + if Eval(w, last.0, Literal) then 0 else last.1
    ensures ListWeight(soft + [last]) == ListWeight(soft) + last.1
    ensures ListCost([], w) == 0 == ListWeight([])
  {
    assert (soft + [last])[..|soft|] == soft;
  }

  /** Two wishes of different weights. */
  function Unequal(a: Symbol, b: Symbol): seq<(Formula, nat)> {
    [(Atom(a), 2), (Atom(b), 1)]
  }

  lemma UnequalCost(a: Symbol, b: Symbol, w: World)
    ensures ListCost(Unequal(a, b), w) == (if w(Atom(a)) then 0 else 2) + if w(Atom(b)) then 0 else 1
    ensures ListWeight(Unequal(a, b)) == 3
  {
    ListAppend([], (Atom(a), 2), w);
    ListAppend([(Atom(a), 2)], (Atom(b), 1), w);
    assert [] + [(Atom(a), 2)] == [(Atom(a), 2)];
    assert [(Atom(a), 2)] + [(Atom(b), 1)] == Unequal(a, b);
  }

  lemma UnequalIsPromising(a: Symbol, b: Symbol, w: World)
    requires a != b && w == (f => f == Atom(a))
    ensures Models(w, Exclusion(a, b)) && ListCost(Unequal(a, b), w) == 1
    ensures Promising(Exclusion(a, b), TableOf(Unequal(a, b)))
  {
    var soft := Unequal(a, b);
    ExclusionMeans(a, b, w);
    UnequalCost(a, b, w);
    TableCost(soft, w);
    WeightOfList(soft);
    TableEntry(soft, 0);
    assert soft[0].0 == Atom(a);
  }

  /** Wishes that exclude each other, with different weights: every solver finds the optimum. */
  method TwoUnequal(solver: Solver, a: Symbol, b: Symbol) returns (r: Outcome<(nat, set<Formula>)>, rc2: RC2)
    requires solver.Valid() && solver.asserted == [] && a != b
    modifies solver
    ensures r == Done((1, {Atom(b)}))
  {
    hide *;
    ghost var only: World := f => f == Atom(a);
    UnequalIsPromising(a, b, only);
    UnequalFits(a, b, only);
    r, rc2 := FromFormulas(solver, Exclusion(a, b), Unequal(a, b));
    ghost var best: World :| Models(best, Exclusion(a, b)) && ListCost(Unequal(a, b), best) == r.value.0 &&
      r.value.1 == ListFalses(Unequal(a, b), best);
    UnequalBest(a, b, best);
  }

  lemma UnequalFits(a: Symbol, b: Symbol, w: World)
    ensures Unequal(a, b) != [] && forall f | f in Exclusion(a, b) :: NameFree(f)
    ensures forall i | 0 <= i < |Unequal(a, b)| :: NameFree(Unequal(a, b)[i].0) && Unequal(a, b)[i].1 > 0
  {
    ExclusionMeans(a, b, w);
  }

  lemma UnequalBest(a: Symbol, b: Symbol, best: World)
    requires Models(best, Exclusion(a, b)) && ListCost(Unequal(a, b), best) <= 1
    ensures ListCost(Unequal(a, b), best) == 1
    ensures ListFalses(Unequal(a, b), best) == {Atom(b)}
  {
    ExclusionMeans(a, b, best);
    UnequalCost(a, b, best);
    assert Unequal(a, b)[0].0 == Atom(a) && Unequal(a, b)[1].0 == Atom(b);
    assert Eval(best, Atom(a), Literal) && !Eval(best, Atom(b), Literal);
  }

  /** Three wishes of which the heaviest excludes the other two. */
  function Rivalry(a: Symbol, b: Symbol, c: Symbol): seq<Formula> {
    [Or([Not(Atom(c)), And([Not(Atom(a)), Not(Atom(b))])])]
  }

  function Rivals(a: Symbol, b: Symbol, c: Symbol): seq<(Formula, nat)> {
    [(Atom(a), 2), (Atom(b), 2), (Atom(c), 3)]
  }

  function RivalTable(a: Symbol, b: Symbol, c: Symbol): Table {
    map[Atom(a) := 2, Atom(b) := 2, Atom(c) := 3]
  }

  lemma PairMeans(p: Formula, q: Formula, w: World)
    ensures Eval(w, And([p, q]), Literal) <==> Eval(w, p, Literal) && Eval(w, q, Literal)
    ensures Eval(w, Or([p, q]), Literal) <==> Eval(w, p, Literal) || Eval(w, q, Literal)
    ensures NameFree(p) && NameFree(q) ==> NameFree(And([p, q])) && NameFree(Or([p, q]))
  {
    assert [p, q][0] == p && [p, q][1] == q;
    assert forall g :: g in [p, q] <==> g == p || g == q;
  }

  lemma RivalryMeans(a: Symbol, b: Symbol, c: Symbol, w: World)
    ensures forall f | f in Rivalry(a, b, c) :: NameFree(f)
    ensures Models(w, Rivalry(a, b, c)) <==> !w(Atom(c)) || (!w(Atom(a)) && !w(Atom(b)))
  {
    var neither := And([Not(Atom(a)), Not(Atom(b))]);
    PairMeans(Not(Atom(a)), Not(Atom(b)), w);
    PairMeans(Not(Atom(c)), neither, w);
    forall x ensures NameFree(Not(Atom(x))) && Eval(w, Not(Atom(x)), Literal) == !w(Atom(x)) {}
    hide Eval, NameFree;
    assert Rivalry(a, b, c)[0] == Or([Not(Atom(c)), neither]);
    assert Models(w, Rivalry(a, b, c)) <==> Eval(w, Or([Not(Atom(c)), neither]), Literal);
  }

  lemma RivalCost(a: Symbol, b: Symbol, c: Symbol, w: World)
    requires a != b && b != c && a != c
    ensures TableOf(Rivals(a, b, c)) == RivalTable(a, b, c) && Weight(RivalTable(a, b, c)) == 7
    ensures ListCost(Rivals(a, b, c), w) == Cost(RivalTable(a, b, c), w) ==
            (if w(Atom(a)) then 0 else 2) + (if w(Atom(b)) then 0 else 2) + if w(Atom(c)) then 0 else 3
  {
    hide ListCost, Cost, Weight;
    var none: seq<(Formula, nat)> := [];
    var one, two := none + [(Atom(a), 2)], none + [(Atom(a), 2)] + [(Atom(b), 2)];
    var soft := Rivals(a, b, c);
    assert soft == two + [(Atom(c), 3)];
    ListAppend(none, (Atom(a), 2), w);
    ListAppend(one, (Atom(b), 2), w);
    ListAppend(two, (Atom(c), 3), w);
    assert soft[0].0 == Atom(a) && soft[1].0 == Atom(b) && soft[2].0 == Atom(c);
    TableEntry(soft, 0);
    TableEntry(soft, 1);
    TableEntry(soft, 2);
    TableKeys(soft);
    assert TableOf(soft).Keys == {Atom(a), Atom(b), Atom(c)};
    TableCost(soft, w);
    WeightOfList(soft);
  }

  /** A core over the wishes holds the heaviest one and another one. */
  lemma RivalCore(a: Symbol, b: Symbol, c: Symbol, core: seq<Formula>)
    requires a != b && b != c && a != c
    requires IsCore(Rivalry(a, b, c), core) && forall f | f in core :: f in {Atom(a), Atom(b), Atom(c)}
    ensures Atom(c) in core && (Atom(a) in core || Atom(b) in core)
  {
    var others: World := f => f == Atom(a) || f == Atom(b);
    var heaviest: World := f => f == Atom(c);
    RivalryMeans(a, b, c, others);
    RivalryMeans(a, b, c, heaviest);
    FalsifiedIffSome(others, core);
    FalsifiedIffSome(heaviest, core);
  }

  /** The table after the first core: the heaviest wish has weight 1 left, and one of the others nothing. */
  ghost predicate Opened(a: Symbol, b: Symbol, c: Symbol, m: Table) {
    && (forall f | f in m :: f in {Atom(a), Atom(b), Atom(c)})
    && Atom(c) in m && m[Atom(c)] == 1
    && (Atom(a) in m ==> m[Atom(a)] == 2) && (Atom(b) in m ==> m[Atom(b)] == 2)
  }

  ghost function Spent(s: State): nat {
    s.charged + TotalWeight(s.cores)
  }

  /** Where a run on the three wishes can be. The cheapest world costs 3. */
  ghost predicate RivalPhase(a: Symbol, b: Symbol, c: Symbol, s: State) {
    || s == State(RivalTable(a, b, c), [], 0, false)
    || (s.charged == 0 && |s.cores| == 1 && s.cores[0].1 == 2 && Opened(a, b, c, s.ws))
    || (s.charged == 2 && s.cores == [] && exists f :: f in s.ws && s.ws[f] >= 2)
    || (Spent(s) == 3 && s.ws != map[])
  }

  lemma SpentTake(hard: seq<Formula>, s: State, s': State, c: Core)
    requires Takes(hard, s, s', c)
    ensures Spent(s') == Spent(s) + c.1
  {
    TotalWeightAppend(s.cores, c);
  }

  /** What is left of the wishes after a core. */
  lemma RivalLeft(a: Symbol, b: Symbol, c: Symbol, s: State, s': State, k: Core)
    requires Takes(Rivalry(a, b, c), s, s', k) && forall f | f in s.ws :: s.ws[f] > 0
    ensures forall f :: WeightOf(s'.ws, f) == WeightOf(s.ws, f) - if f in k.0 then k.1 else 0
    ensures forall f | f in s'.ws :: f in s.ws && s'.ws[f] > 0
    ensures exists f | f in k.0 :: s.ws[f] == k.1
    ensures forall f | f in k.0 :: f in s.ws && k.1 <= s.ws[f]
  {
    hide IsCore, Rivalry, WeightOf;
    forall f { SubtractAllExact(s.ws, k.0, k.1, f); }
  }

  lemma RivalTake0(a: Symbol, b: Symbol, c: Symbol, s: State, s': State, k: Core)
    requires a != b && b != c && a != c
    requires s == State(RivalTable(a, b, c), [], 0, false) && Takes(Rivalry(a, b, c), s, s', k)
    ensures RivalPhase(a, b, c, s')
  {
    RivalLeft(a, b, c, s, s', k);
    RivalCore(a, b, c, k.0);
    hide IsCore, Rivalry, SubtractAll;
    assert k.1 == 2;
    assert WeightOf(s'.ws, Atom(c)) == 1;
    assert forall f | f in {Atom(a), Atom(b)} && f in s'.ws :: WeightOf(s'.ws, f) == 2;
  }

  lemma RivalTake1(a: Symbol, b: Symbol, c: Symbol, s: State, s': State, k: Core)
    requires a != b && b != c && a != c && Spent(s) == 2 && Spent(s') == 2 + k.1
    requires Opened(a, b, c, s.ws) && Takes(Rivalry(a, b, c), s, s', k) && k.1 > 0
    ensures RivalPhase(a, b, c, s')
  {
    RivalLeft(a, b, c, s, s', k);
    RivalCore(a, b, c, k.0);
    hide IsCore, Rivalry, SubtractAll, Spent;
    assert k.1 == 1;
    var other := if Atom(a) in k.0 then Atom(a) else Atom(b);
    assert WeightOf(s'.ws, other) == 1;
  }

  lemma RivalTake2(a: Symbol, b: Symbol, c: Symbol, s: State, s': State, k: Core)
    requires Spent(s') == 3 && k.1 == 1 && (exists f :: f in s.ws && s.ws[f] >= 2)
    requires Takes(Rivalry(a, b, c), s, s', k) && forall f | f in s.ws :: s.ws[f] > 0
    ensures RivalPhase(a, b, c, s')
  {
    RivalLeft(a, b, c, s, s', k);
    var f :| f in s.ws && s.ws[f] >= 2;
    assert WeightOf(s'.ws, f) >= 1;
  }

  lemma RivalTake(a: Symbol, b: Symbol, c: Symbol, soft: Table, s: State, s': State, k: Core, cheapest: World)
    requires a != b && b != c && a != c
    requires RivalPhase(a, b, c, s) && Takes(Rivalry(a, b, c), s, s', k)
    requires Kept(Rivalry(a, b, c), soft, s) && Kept(Rivalry(a, b, c), soft, s')
    requires Models(cheapest, Rivalry(a, b, c)) && Cost(soft, cheapest) == 3
    ensures RivalPhase(a, b, c, s')
  {
    var hard := Rivalry(a, b, c);
    SpentTake(hard, s, s', k);
    KeptBelow(hard, soft, s', cheapest);
    assert s'.cores == s.cores + [k] && k in s'.cores && k.1 > 0;
    hide Balanced, IsCore, Rivalry, SubtractAll;
    if s == State(RivalTable(a, b, c), [], 0, false) {
      RivalTake0(a, b, c, s, s', k);
    } else if s.charged == 0 && |s.cores| == 1 && s.cores[0].1 == 2 && Opened(a, b, c, s.ws) {
      RivalTake1(a, b, c, s, s', k);
    } else if s.charged == 2 && s.cores == [] && exists f :: f in s.ws && s.ws[f] >= 2 {
      RivalTake2(a, b, c, s, s', k);
    }
  }

  lemma RivalCharge(a: Symbol, b: Symbol, c: Symbol, s: State, s': State)
    requires RivalPhase(a, b, c, s) && Charges(Rivalry(a, b, c), s, s')
    ensures RivalPhase(a, b, c, s')
  {
    var (core, w) := s.cores[0];
    var first := Bound(NegateAll(core), 1);
    assert first in s'.ws && s'.ws[first] >= w;
  }

  lemma {:induction false} RivalAlways(a: Symbol, b: Symbol, c: Symbol, s: State, n: nat, cheapest: World)
    requires a != b && b != c && a != c
    requires ReachedIn(Rivalry(a, b, c), RivalTable(a, b, c), s, n)
    requires UserTable(RivalTable(a, b, c))
    requires Models(cheapest, Rivalry(a, b, c)) && Cost(RivalTable(a, b, c), cheapest) == 3
    ensures RivalPhase(a, b, c, s)
    decreases n
  {
    hide RivalPhase, Takes, Charges, Kept, Rivalry, RivalTable, UserTable, Models, Cost;
    var hard, soft := Rivalry(a, b, c), RivalTable(a, b, c);
    if n == 0 {
      RivalStart(a, b, c);
    } else {
      var p :| ReachedIn(hard, soft, p, n - 1) && Next(hard, p, s);
      RivalAlways(a, b, c, p, n - 1, cheapest);
      if Charges(hard, p, s) {
        RivalCharge(a, b, c, p, s);
      } else {
        var k :| Takes(hard, p, s, k);
        KeptAlways(hard, soft, p, n - 1);
        KeptAlways(hard, soft, s, n);
        RivalTake(a, b, c, soft, p, s, k, cheapest);
      }
    }
  }

  lemma RivalStart(a: Symbol, b: Symbol, c: Symbol)
    ensures RivalPhase(a, b, c, State(RivalTable(a, b, c), [], 0, false))
  {}

  /** No choice of cores uses up the three wishes, although none weighs more than the cost of any world. */
  lemma RivalsAreNeverUsedUp(a: Symbol, b: Symbol, c: Symbol)
    requires a != b && b != c && a != c
    ensures !Queried(Rivalry(a, b, c), TableOf(Rivals(a, b, c)), map[])
    ensures OutweighedList(Rivalry(a, b, c), Rivals(a, b, c))
    ensures !Heavy(Rivalry(a, b, c), TableOf(Rivals(a, b, c)))
  {
    var hard, soft := Rivalry(a, b, c), RivalTable(a, b, c);
    var cheapest: World := f => f == Atom(a) || f == Atom(b);
    RivalryMeans(a, b, c, cheapest);
    forall w: World ensures ListCost(Rivals(a, b, c), w) >= 3 || !Models(w, hard) {
      RivalryMeans(a, b, c, w);
      RivalCost(a, b, c, w);
    }
    RivalCost(a, b, c, cheapest);
    assert UserTable(soft);
    hide Rivalry, RivalTable, Rivals, TableOf, Models, Cost;
    if Queried(hard, soft, map[]) {
      var s :| Reached(hard, soft, s) && s.ws == map[] && !s.charging;
      var n: nat :| ReachedIn(hard, soft, s, n);
      RivalAlways(a, b, c, s, n, cheapest);
      assert false;
    }
  }

  /** On them every solver returns the cost 3: the condition of the exception is not sufficient. */
  method ThreeRivals(solver: Solver, a: Symbol, b: Symbol, c: Symbol)
    returns (r: Outcome<(nat, set<Formula>)>, rc2: RC2)
    requires solver.Valid() && solver.asserted == [] && a != b && b != c && a != c
    modifies solver
    ensures r == Done((3, {Atom(c)}))
    ensures OutweighedList(Rivalry(a, b, c), Rivals(a, b, c))
  {
    hide *;
    ghost var cheapest: World := f => f == Atom(a) || f == Atom(b);
    RivalsFit(a, b, c, cheapest);
    RivalsAreNeverUsedUp(a, b, c);
    r, rc2 := FromFormulas(solver, Rivalry(a, b, c), Rivals(a, b, c));
    ghost var best: World :| Models(best, Rivalry(a, b, c)) && ListCost(Rivals(a, b, c), best) == r.value.0 &&
      r.value.1 == ListFalses(Rivals(a, b, c), best);
    RivalsBest(a, b, c, best);
  }

  lemma RivalsFit(a: Symbol, b: Symbol, c: Symbol, cheapest: World)
    requires a != b && b != c && a != c && cheapest == (f => f == Atom(a) || f == Atom(b))
    ensures Rivals(a, b, c) != [] && forall f | f in Rivalry(a, b, c) :: NameFree(f)
    ensures forall i | 0 <= i < |Rivals(a, b, c)| :: NameFree(Rivals(a, b, c)[i].0) && Rivals(a, b, c)[i].1 > 0
    ensures Models(cheapest, Rivalry(a, b, c)) && Satisfiable(Rivalry(a, b, c))
    ensures ListCost(Rivals(a, b, c), cheapest) == 3
  {
    RivalryMeans(a, b, c, cheapest);
    RivalCost(a, b, c, cheapest);
  }

  lemma RivalsBest(a: Symbol, b: Symbol, c: Symbol, best: World)
    requires a != b && b != c && a != c
    requires Models(best, Rivalry(a, b, c)) && ListCost(Rivals(a, b, c), best) <= 3
    ensures ListCost(Rivals(a, b, c), best) == 3 && ListFalses(Rivals(a, b, c), best) == {Atom(c)}
  {
    RivalryMeans(a, b, c, best);
    RivalCost(a, b, c, best);
    var soft := Rivals(a, b, c);
    assert soft[0].0 == Atom(a) && soft[1].0 == Atom(b) && soft[2].0 == Atom(c);
    assert Eval(best, Atom(a), Literal) && Eval(best, Atom(b), Literal) && !Eval(best, Atom(c), Literal);
  }

  /** More than 20 wishes that can all be met, one of them lighter than the others, which are equal. */
  method LightTailRaises(solver: Solver, hard: seq<Formula>, soft: seq<(Formula, nat)>, light: nat)
    returns (r: Outcome<(nat, set<Formula>)>, rc2: RC2)
    requires solver.Valid() && solver.asserted == []
    requires forall f | f in hard :: NameFree(f)
    requires forall i | 0 <= i < |soft| :: NameFree(soft[i].0) && soft[i].1 > 0
    requires Consistent(hard, Listed(soft)) && |soft| > 20 && light < |soft|
    requires forall i, j | 0 <= i < j < |soft| :: soft[i].0 != soft[j].0
    requires forall i | 0 <= i < |soft| && i != light :: soft[light].1 < soft[i].1
    requires forall i, j | 0 <= i < |soft| && 0 <= j < |soft| && i != light && j != light :: soft[i].1 == soft[j].1
    modifies solver
    ensures r.IndexError?
  {
    r, rc2 := FromFormulas(solver, hard, soft);
    LightTailOf(soft, light);
    LightTailOverruns(TableOf(soft), soft[light].0);
  }

  lemma LightTailOf(soft: seq<(Formula, nat)>, light: nat)
    requires |soft| > 20 && light < |soft|
    requires forall i, j | 0 <= i < j < |soft| :: soft[i].0 != soft[j].0
    requires forall i | 0 <= i < |soft| && i != light :: soft[light].1 < soft[i].1
    requires forall i, j | 0 <= i < |soft| && 0 <= j < |soft| && i != light && j != light :: soft[i].1 == soft[j].1
    ensures LightTail(TableOf(soft), soft[light].0)
  {
    TableKeys(soft);
    TableSize(soft);
    forall i: nat | i < |soft| ensures soft[i].0 in TableOf(soft) && TableOf(soft)[soft[i].0] == soft[i].1 {
      TableEntry(soft, i);
    }
    assert forall f | f in TableOf(soft) :: exists i | 0 <= i < |soft| :: soft[i].0 == f;
  }
}
