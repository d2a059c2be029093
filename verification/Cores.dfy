/** Unsatisfiable cores of weighted soft constraints, and the cost that they leave behind.

    Every world that satisfies the hard constraints pays a penalty for each soft constraint:
    1 for a false formula of the user, and for "at most k of S" the number of true members
    of S beyond k. The penalty of a bound therefore already holds the weights of the bounds
    k + 1, k + 2, ... that have not been introduced yet. The invariant `Balanced` says that
    the original cost is the cost charged so far plus the weighted penalties that are left. */
module Cores {
  import opened Logic
  import opened Sets
  import opened Weights

  // ----- penalties -----

  function Negate(f: Formula): Formula {
    if f.Not? then f.arg else Not(f)
  }

  function NegateAll(core: seq<Formula>): (s: seq<Formula>)
    ensures |s| == |core|
    ensures forall i | 0 <= i < |s| :: s[i] == Negate(core[i])
  {
    if core == [] then [] else [Negate(core[0])] + NegateAll(core[1..])
  }

  function Bound(s: seq<Formula>, k: nat): Formula {
    Name(AtMost(s, k))
  }

  predicate IsBound(f: Formula) {
    f.Name? && f.def.AtMost?
  }

  ghost function Penalty(w: World, f: Formula): nat {
    if IsBound(f) then
      var trues := CountTrue(w, f.def.fs, Unfolded);
      if trues <= f.def.k then 0 else trues - f.def.k
    else if Eval(w, f, Unfolded) then 0 else 1
  }

  ghost function PenaltyIn(w: World): Formula -> nat {
    f => Penalty(w, f)
  }

  /** The sum of `val` over a core. */
  ghost function Charge(core: seq<Formula>, val: Formula -> nat): nat {
    if core == [] then 0 else val(core[0]) + Charge(core[1..], val)
  }

  ghost function CorePenalty(w: World, core: seq<Formula>): nat {
    Charge(core, PenaltyIn(w))
  }

  ghost function Falsified(w: World, core: seq<Formula>): nat {
    if core == [] then 0 else (if Eval(w, core[0], Unfolded) then 0 else 1) + Falsified(w, core[1..])
  }

  lemma PenaltyIffFalse(w: World, f: Formula)
    ensures Penalty(w, f) == 0 <==> Eval(w, f, Unfolded)
  {
    if IsBound(f) {
      assert Eval(w, f, Unfolded) == Eval(w, f.def, Unfolded);
    }
  }

  lemma {:induction false} PenaltyBounds(w: World, core: seq<Formula>)
    ensures Falsified(w, core) <= CorePenalty(w, core)
  {
    if core != [] {
      PenaltyIffFalse(w, core[0]);
      PenaltyBounds(w, core[1..]);
    }
  }

  lemma {:induction false} CountNegated(w: World, core: seq<Formula>)
    ensures CountTrue(w, NegateAll(core), Unfolded) == Falsified(w, core)
  {
    if core != [] {
      assert NegateAll(core)[1..] == NegateAll(core[1..]);
      CountNegated(w, core[1..]);
    }
  }

  lemma {:induction false} CountBound(w: World, fs: seq<Formula>, r: Reading)
    ensures CountTrue(w, fs, r) <= |fs|
  {
    if fs != [] { CountBound(w, fs[1..], r); }
  }

  lemma {:induction false} FalsifiedIffSome(w: World, core: seq<Formula>)
    ensures Falsified(w, core) >= 1 <==> exists c | c in core :: !Eval(w, c, Unfolded)
  {
    if core != [] {
      FalsifiedIffSome(w, core[1..]);
      assert core == [core[0]] + core[1..];
      if c :| c in core && !Eval(w, c, Unfolded) {
        assert c == core[0] || c in core[1..];
      }
    }
  }

  // ----- names are a conservative extension -----

  /** A formula of the user, or a bound over negated soft constraints whose formula is in `defined`. */
  ghost predicate Soft(f: Formula, defined: set<Formula>) {
    || NameFree(f)
    || (IsBound(f) && f.def in defined &&
        forall s | s in f.def.fs :: NameFree(s) || (s.Not? && Soft(s.arg, defined)))
  }

  lemma SoftMonotone(f: Formula, defined: set<Formula>, defined': set<Formula>)
    requires Soft(f, defined) && defined <= defined'
    ensures Soft(f, defined')
  {
    if !NameFree(f) {
      forall s | s in f.def.fs ensures NameFree(s) || (s.Not? && Soft(s.arg, defined')) {
        if !NameFree(s) { SoftMonotone(s.arg, defined, defined'); }
      }
    }
  }

  /** The world in which every name has the value of the formula it names. */
  ghost function Canonical(w: World): World {
    f => Eval(w, f, Unfolded)
  }

  lemma CanonicalReading(w: World, f: Formula)
    ensures Eval(Canonical(w), f, Literal) == Eval(w, f, Unfolded)
  {
    match f
    case Atom(_) =>
    case Name(_) =>
    case Not(g) => CanonicalReading(w, g);
    case Implies(g, h) => CanonicalReading(w, g); CanonicalReading(w, h);
    case And(fs) => forall g | g in fs { CanonicalReading(w, g); }
    case Or(fs) => forall g | g in fs { CanonicalReading(w, g); }
    case AtMost(fs, _) => CanonicalCount(w, fs);
  }

  lemma CanonicalCount(w: World, fs: seq<Formula>)
    ensures CountTrue(Canonical(w), fs, Literal) == CountTrue(w, fs, Unfolded)
  {
    if fs != [] {
      CanonicalReading(w, fs[0]);
      CanonicalCount(w, fs[1..]);
    }
  }

  /** The solver holds the hard constraints and `name ==> formula` for every defined name. */
  ghost predicate Asserts(asserted: seq<Formula>, hard: seq<Formula>, defined: set<Formula>) {
    && (forall f | f in hard :: NameFree(f) && f in asserted)
    && (forall d | d in defined :: Implies(Name(d), d) in asserted)
    && (forall f | f in asserted :: f in hard || (f.Implies? && f.lhs == Name(f.rhs)))
  }

  /** Every world of the hard constraints extends to the names. */
  lemma ConservativeExtension(w: World, asserted: seq<Formula>, hard: seq<Formula>, defined: set<Formula>)
    requires Asserts(asserted, hard, defined) && Models(w, hard)
    ensures Models(Canonical(w), asserted)
  {
    forall f | f in asserted ensures Eval(Canonical(w), f, Literal) {
      CanonicalReading(w, f);
      if f in hard {
        NameFreeReading(w, f);
      }
    }
  }

  /** A name that is true in a model of the definitions stands for a true formula. */
  lemma NameImplies(w: World, f: Formula, defined: set<Formula>)
    requires Soft(f, defined)
    requires forall d | d in defined :: Eval(w, Implies(Name(d), d), Literal)
    requires Eval(w, f, Literal)
    ensures Eval(w, f, Unfolded)
    decreases f
  {
    if NameFree(f) {
      NameFreeReading(w, f);
    } else {
      assert Eval(w, Implies(Name(f.def), f.def), Literal);
      CountImplies(w, f.def.fs, defined);
    }
  }

  lemma CountImplies(w: World, fs: seq<Formula>, defined: set<Formula>)
    requires forall s | s in fs :: NameFree(s) || (s.Not? && Soft(s.arg, defined))
    requires forall d | d in defined :: Eval(w, Implies(Name(d), d), Literal)
    ensures CountTrue(w, fs, Unfolded) <= CountTrue(w, fs, Literal)
    decreases fs
  {
    if fs != [] {
      var s := fs[0];
      if NameFree(s) {
        NameFreeReading(w, s);
      } else if Eval(w, s.arg, Literal) {
        assert s.arg < s;
        NameImplies(w, s.arg, defined);
      }
      CountImplies(w, fs[1..], defined);
    }
  }

  /** Every world of the hard constraints falsifies a member of the core. */
  ghost predicate IsCore(hard: seq<Formula>, core: seq<Formula>) {
    forall w: World | Models(w, hard) :: Falsified(w, core) >= 1
  }

  lemma UnsatGivesCore(asserted: seq<Formula>, hard: seq<Formula>, defined: set<Formula>, core: seq<Formula>)
    requires Asserts(asserted, hard, defined)
    requires !Satisfiable(asserted + core)
    ensures IsCore(hard, core)
  {
    forall w: World | Models(w, hard) ensures Falsified(w, core) >= 1 {
      ConservativeExtension(w, asserted, hard, defined);
      FalsifiedIffSome(w, core);
      if forall c | c in core :: Eval(w, c, Unfolded) {
        forall c | c in core { CanonicalReading(w, c); }
        assert Models(Canonical(w), asserted + core);
        assert false;
      }
    }
  }

  // ----- one core, on tables -----

  /** `sub` applied to every member of the core. */
  ghost function SubtractAll(m: Table, core: seq<Formula>, w: nat): Table
    requires Distinct(core) && forall c | c in core :: c in m
  {
    if core == [] then m else SubtractAll(Subtracted(m, core[0], w), core[1..], w)
  }

  lemma {:induction false} SumSubtractAll(m: Table, core: seq<Formula>, w: nat, val: Formula -> nat)
    requires Distinct(core) && forall c | c in core :: c in m && w <= m[c]
    ensures Sum(SubtractAll(m, core, w), val) + w * Charge(core, val) == Sum(m, val)
  {
    if core != [] {
      SumSubtracted(m, core[0], w, val);
      SumSubtractAll(Subtracted(m, core[0], w), core[1..], w, val);
      Distribute(val(core[0]), Charge(core[1..], val), w);
    }
  }

  lemma {:induction false} SubtractAllShrinks(m: Table, core: seq<Formula>, w: nat)
    requires Distinct(core) && forall c | c in core :: c in m && w <= m[c]
    requires forall f | f in m :: m[f] > 0
    ensures forall f | f in SubtractAll(m, core, w) :: f in m && SubtractAll(m, core, w)[f] > 0
  {
    if core != [] { SubtractAllShrinks(Subtracted(m, core[0], w), core[1..], w); }
  }

  /** The weakened form of a soft constraint; a formula of the user is dropped altogether. */
  ghost function RelaxOne(m: Table, f: Formula, w: nat): Table {
    if IsBound(f) && f.def.k + 1 < |f.def.fs| then Added(m, Bound(f.def.fs, f.def.k + 1), w) else m
  }

  ghost function RelaxAll(m: Table, core: seq<Formula>, w: nat): Table
    decreases |core|
  {
    if core == [] then m else RelaxAll(RelaxOne(m, core[0], w), core[1..], w)
  }

  ghost function Relaxed(m: Table, core: seq<Formula>, w: nat): Table {
    Added(RelaxAll(m, core, w), Bound(NegateAll(core), 1), w)
  }

  lemma SumRelaxOne(m: Table, f: Formula, w: nat, world: World)
    ensures Penalty(world, f) >= if Eval(world, f, Unfolded) then 0 else 1
    ensures Sum(RelaxOne(m, f, w), PenaltyIn(world)) ==
            Sum(m, PenaltyIn(world)) + w * (Penalty(world, f) - if Eval(world, f, Unfolded) then 0 else 1)
  {
    PenaltyIffFalse(world, f);
    if IsBound(f) {
      CountBound(world, f.def.fs, Unfolded);
      SumAdded(m, Bound(f.def.fs, f.def.k + 1), w, PenaltyIn(world));
    }
  }

  lemma {:induction false} SumRelaxAll(m: Table, core: seq<Formula>, w: nat, world: World)
    ensures Sum(RelaxAll(m, core, w), PenaltyIn(world)) ==
            Sum(m, PenaltyIn(world)) + w * (CorePenalty(world, core) - Falsified(world, core))
    decreases |core|
  {
    if core != [] {
      SumRelaxOne(m, core[0], w, world);
      SumRelaxAll(RelaxOne(m, core[0], w), core[1..], w, world);
      var paid := if Eval(world, core[0], Unfolded) then 0 else 1;
      Distribute(Penalty(world, core[0]) - paid, CorePenalty(world, core[1..]) - Falsified(world, core[1..]), w);
    }
  }

  /** Weakening a core by one unit makes every world of the hard constraints pay exactly `w` less. */
  lemma SumRelaxed(m: Table, core: seq<Formula>, w: nat, world: World)
    requires Falsified(world, core) >= 1
    ensures Sum(Relaxed(m, core, w), PenaltyIn(world)) + w == Sum(m, PenaltyIn(world)) + w * CorePenalty(world, core)
  {
    var m' := RelaxAll(m, core, w);
    SumRelaxAll(m, core, w, world);
    SumAdded(m', Bound(NegateAll(core), 1), w, PenaltyIn(world));
    CountNegated(world, core);
    var cp, fa := CorePenalty(world, core), Falsified(world, core);
    PenaltyBounds(world, core);
    Distribute(cp - fa, fa - 1, w);
    Distribute(cp - 1, 1, w);
  }

  // ----- cost and the invariant -----

  function FalseIn(w: World): Formula -> bool {
    f => !Eval(w, f, Literal)
  }

  /** The weight of the soft constraints of the user that `w` falsifies. */
  ghost function Cost(soft: Table, w: World): nat {
    Sum(soft, Indicator(FalseIn(w)))
  }

  ghost predicate UserTable(soft: Table) {
    forall f | f in soft :: NameFree(f) && soft[f] > 0
  }

  lemma CostIsPenalty(soft: Table, w: World)
    requires UserTable(soft)
    ensures Cost(soft, w) == Sum(soft, PenaltyIn(w))
    ensures Cost(soft, w) <= Sum(soft, Indicator(Always()))
  {
    forall f | f in soft { NameFreeReading(w, f); }
    SumAgrees(soft, Indicator(FalseIn(w)), PenaltyIn(w));
    SumMonotone(soft, Indicator(FalseIn(w)), Indicator(Always()));
  }

  type Core = (seq<Formula>, nat)

  /** What the cores that are taken out of the table but not yet weakened still owe. */
  ghost function Pending(w: World, cores: seq<Core>): nat {
    if cores == [] then 0 else cores[0].1 * CorePenalty(w, cores[0].0) + Pending(w, cores[1..])
  }

  lemma {:induction false} PendingAppend(w: World, cores: seq<Core>, c: Core)
    ensures Pending(w, cores + [c]) == Pending(w, cores) + c.1 * CorePenalty(w, c.0)
  {
    if cores != [] {
      assert (cores + [c])[1..] == cores[1..] + [c];
      PendingAppend(w, cores[1..], c);
    }
  }

  ghost function WeightOf(m: Table, f: Formula): nat {
    if f in m then m[f] else 0
  }

  ghost function TotalWeight(cores: seq<Core>): nat {
    if cores == [] then 0 else cores[0].1 + TotalWeight(cores[1..])
  }

  /** A soft constraint of the user has lost no more than what is charged or pending. */
  ghost predicate Covered(soft: Table, charged: nat, cores: seq<Core>, ws: Table) {
    forall f | f in soft :: soft[f] <= charged + TotalWeight(cores) + WeightOf(ws, f)
  }

  /** The original cost is what is charged, what the pending cores owe, and the penalties that are left. */
  ghost predicate Decomposed(hard: seq<Formula>, soft: Table, charged: nat, cores: seq<Core>, ws: Table) {
    forall w: World | Models(w, hard) :: Cost(soft, w) == charged + Pending(w, cores) + Sum(ws, PenaltyIn(w))
  }

  ghost predicate Balanced(hard: seq<Formula>, soft: Table, charged: nat, cores: seq<Core>, ws: Table) {
    Decomposed(hard, soft, charged, cores, ws) && Covered(soft, charged, cores, ws)
  }

  lemma {:induction false} TotalWeightAppend(cores: seq<Core>, c: Core)
    ensures TotalWeight(cores + [c]) == TotalWeight(cores) + c.1
  {
    if cores != [] {
      assert (cores + [c])[1..] == cores[1..] + [c];
      TotalWeightAppend(cores[1..], c);
    }
  }

  /** Each formula of the core loses at most `w`, and no other formula loses anything. */
  lemma {:induction false} SubtractAllAt(m: Table, core: seq<Formula>, w: nat, f: Formula)
    requires Distinct(core) && forall c | c in core :: c in m
    ensures WeightOf(SubtractAll(m, core, w), f) + (if f in core then w else 0) >= WeightOf(m, f)
    ensures f !in core ==> WeightOf(SubtractAll(m, core, w), f) == WeightOf(m, f)
  {
    if core != [] {
      SubtractAllAt(Subtracted(m, core[0], w), core[1..], w, f);
      assert f in core <==> f == core[0] || f in core[1..];
    }
  }

  lemma {:induction false} RelaxAllAt(m: Table, core: seq<Formula>, w: nat, f: Formula)
    ensures WeightOf(RelaxAll(m, core, w), f) >= WeightOf(m, f)
    decreases |core|
  {
    if core != [] { RelaxAllAt(RelaxOne(m, core[0], w), core[1..], w, f); }
  }

  lemma CoveredCore(soft: Table, charged: nat, cores: seq<Core>, ws: Table, core: seq<Formula>, w: nat)
    requires Covered(soft, charged, cores, ws)
    requires Distinct(core) && forall c | c in core :: c in ws
    ensures Covered(soft, charged, cores + [(core, w)], SubtractAll(ws, core, w))
  {
    TotalWeightAppend(cores, (core, w));
    forall f | f in soft
      ensures soft[f] <= charged + TotalWeight(cores + [(core, w)]) + WeightOf(SubtractAll(ws, core, w), f)
    {
      SubtractAllAt(ws, core, w, f);
    }
  }

  lemma CoveredRelax(soft: Table, charged: nat, cores: seq<Core>, ws: Table)
    requires cores != [] && Covered(soft, charged, cores, ws)
    ensures Covered(soft, charged + cores[0].1, cores[1..], Relaxed(ws, cores[0].0, cores[0].1))
  {
    var (core, w) := cores[0];
    forall f | f in soft ensures WeightOf(Relaxed(ws, core, w), f) >= WeightOf(ws, f) {
      RelaxAllAt(ws, core, w, f);
    }
  }

  lemma {:induction false} PendingAtLeast(hard: seq<Formula>, cores: seq<Core>, w: World)
    requires Models(w, hard) && forall c | c in cores :: IsCore(hard, c.0)
    ensures Pending(w, cores) >= TotalWeight(cores)
  {
    if cores != [] {
      assert cores[0] in cores;
      PenaltyBounds(w, cores[0].0);
      ScaleMonotone(cores[0].1, 1, CorePenalty(w, cores[0].0));
      PendingAtLeast(hard, cores[1..], w);
    }
  }

  /** No soft constraint weighs more than the cost of any world of the hard constraints. */
  ghost predicate Outweighed(hard: seq<Formula>, soft: Table) {
    forall w: World, f: Formula | Models(w, hard) && f in soft :: soft[f] <= Cost(soft, w)
  }

  /** Moving a core from the table to the pending list. */
  lemma BalancedCore(hard: seq<Formula>, soft: Table, charged: nat, cores: seq<Core>, ws: Table, core: seq<Formula>,
      w: nat)
    requires Balanced(hard, soft, charged, cores, ws)
    requires Distinct(core) && forall c | c in core :: c in ws && w <= ws[c]
    ensures Balanced(hard, soft, charged, cores + [(core, w)], SubtractAll(ws, core, w))
  {
    CoveredCore(soft, charged, cores, ws, core, w);
    forall a: World | Models(a, hard)
      ensures Cost(soft, a) == charged + Pending(a, cores + [(core, w)]) + Sum(SubtractAll(ws, core, w), PenaltyIn(a))
    {
      PendingAppend(a, cores, (core, w));
      SumSubtractAll(ws, core, w, PenaltyIn(a));
    }
  }

  /** Charging the first pending core and weakening it. */
  lemma BalancedRelax(hard: seq<Formula>, soft: Table, charged: nat, cores: seq<Core>, ws: Table)
    requires cores != [] && IsCore(hard, cores[0].0)
    requires Balanced(hard, soft, charged, cores, ws)
    ensures Balanced(hard, soft, charged + cores[0].1, cores[1..], Relaxed(ws, cores[0].0, cores[0].1))
  {
    CoveredRelax(soft, charged, cores, ws);
    forall a: World | Models(a, hard)
      ensures Cost(soft, a) ==
              charged + cores[0].1 + Pending(a, cores[1..]) + Sum(Relaxed(ws, cores[0].0, cores[0].1), PenaltyIn(a))
    {
      SumRelaxed(ws, cores[0].0, cores[0].1, a);
    }
  }

  /** Whatever is still owed is not negative: the cost charged so far bounds every world from below. */
  lemma BalancedLowerBound(hard: seq<Formula>, soft: Table, charged: nat, cores: seq<Core>, ws: Table, w: World)
    requires Balanced(hard, soft, charged, cores, ws) && Models(w, hard)
    ensures charged <= Cost(soft, w)
    ensures cores == [] && (forall f | f in ws :: Eval(w, f, Unfolded)) ==> Cost(soft, w) == charged
  {
    if cores == [] && (forall f | f in ws :: Eval(w, f, Unfolded)) {
      forall f | f in ws { PenaltyIffFalse(w, f); }
      SumZero(ws, PenaltyIn(w));
    }
  }

  lemma {:induction false} SubtractWhole(m: Table, core: seq<Formula>, w: nat)
    requires Distinct(core) && forall c | c in core :: c in m && m[c] == w
    ensures SubtractAll(m, core, w) == m - Members(core)
  {
    if core == [] {
      assert Members(core) == {};
    } else {
      SubtractWhole(Subtracted(m, core[0], w), core[1..], w);
      assert Members(core) == {core[0]} + Members(core[1..]);
    }
  }

  ghost function Members(core: seq<Formula>): set<Formula> {
    set f | f in core
  }

  lemma InitiallyBalanced(hard: seq<Formula>, soft: Table)
    requires UserTable(soft)
    ensures Balanced(hard, soft, 0, [], soft)
  {
    forall w: World | Models(w, hard) ensures Cost(soft, w) == 0 + Pending(w, []) + Sum(soft, PenaltyIn(w)) {
      CostIsPenalty(soft, w);
    }
  }

  lemma SubtractAllExact(m: Table, core: seq<Formula>, w: nat, f: Formula)
    requires Distinct(core) && forall g | g in core :: g in m && w <= m[g]
    requires forall g | g in m :: m[g] > 0
    ensures WeightOf(SubtractAll(m, core, w), f) == WeightOf(m, f) - if f in core then w else 0
    ensures forall g | g in SubtractAll(m, core, w) :: g in m && SubtractAll(m, core, w)[g] > 0
  {
    SubtractAllShrinks(m, core, w);
    SubtractAllPoint(m, core, w, f);
  }

  lemma {:induction false} SubtractAllPoint(m: Table, core: seq<Formula>, w: nat, f: Formula)
    requires Distinct(core) && forall g | g in core :: g in m && w <= m[g]
    ensures WeightOf(SubtractAll(m, core, w), f) == WeightOf(m, f) - if f in core then w else 0
  {
    if core != [] {
      SubtractAllPoint(Subtracted(m, core[0], w), core[1..], w, f);
      assert f in core <==> f == core[0] || f in core[1..];
    }
  }
}
