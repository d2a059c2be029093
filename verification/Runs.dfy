/** A transition system over the input alone that contains every run of the search, whatever the solver answers. */
module Runs {
  import opened Cores
  import opened Logic
  import opened Sets
  import opened Strata
  import opened Weights

  /** The table, the cores taken out of it in this pass and not yet charged, and the cost charged so far.
      `charging` says that some cores of the pass are charged already. */
  datatype State = State(ws: Table, cores: seq<Core>, charged: nat, charging: bool)

  ghost predicate IsLeastCore(hard: seq<Formula>, ws: Table, core: seq<Formula>, w: nat) {
    && core != [] && Distinct(core) && IsCore(hard, core)
    && (forall c | c in core :: c in ws && w <= ws[c])
    && (exists c | c in core :: ws[c] == w)
  }

  /** Something is left, and it can hold together with the hard constraints. */
  ghost predicate Rests(hard: seq<Formula>, ws: Table) {
    ws != map[] && exists w: World :: Models(w, hard) && forall f | f in ws :: Eval(w, f, Unfolded)
  }

  /** A solver may answer with the core `c`. */
  ghost predicate Takes(hard: seq<Formula>, s: State, s': State, c: Core) {
    && !s.charging && IsLeastCore(hard, s.ws, c.0, c.1)
    && s' == State(SubtractAll(s.ws, c.0, c.1), s.cores + [c], s.charged, false)
  }

  /** The first pending core is charged and weakened. */
  ghost predicate Charges(hard: seq<Formula>, s: State, s': State) {
    && s.cores != [] && (s.charging || Rests(hard, s.ws))
    && s' == State(Relaxed(s.ws, s.cores[0].0, s.cores[0].1), s.cores[1..], s.charged + s.cores[0].1, |s.cores| > 1)
  }

  ghost predicate Next(hard: seq<Formula>, s: State, s': State) {
    Charges(hard, s, s') || exists c :: Takes(hard, s, s', c)
  }

  ghost predicate ReachedIn(hard: seq<Formula>, soft: Table, s: State, n: nat)
    decreases n
  {
    if n == 0 then s == State(soft, [], 0, false) else
      exists p :: ReachedIn(hard, soft, p, n - 1) && Next(hard, p, s)
  }

  /** The states of all runs; they depend on nothing but the input. */
  ghost predicate Reached(hard: seq<Formula>, soft: Table, s: State) {
    exists n: nat :: ReachedIn(hard, soft, s, n)
  }

  /** A table that `check` can be asked about. */
  ghost predicate Queried(hard: seq<Formula>, soft: Table, ws: Table) {
    exists s :: Reached(hard, soft, s) && s.ws == ws && !s.charging
  }

  lemma ReachedTake(hard: seq<Formula>, soft: Table, s: State, s': State, c: Core)
    requires Reached(hard, soft, s) && Takes(hard, s, s', c)
    ensures Reached(hard, soft, s')
  {
    var n: nat :| ReachedIn(hard, soft, s, n);
    assert Next(hard, s, s') && ReachedIn(hard, soft, s, n + 1 - 1);
    assert ReachedIn(hard, soft, s', n + 1);
  }

  lemma ReachedCharge(hard: seq<Formula>, soft: Table, s: State, s': State)
    requires Reached(hard, soft, s) && Charges(hard, s, s')
    ensures Reached(hard, soft, s')
  {
    var n: nat :| ReachedIn(hard, soft, s, n);
    assert Next(hard, s, s') && ReachedIn(hard, soft, s, n + 1 - 1);
    assert ReachedIn(hard, soft, s', n + 1);
  }

  lemma ReachedStart(hard: seq<Formula>, soft: Table)
    ensures Reached(hard, soft, State(soft, [], 0, false))
  {
    assert ReachedIn(hard, soft, State(soft, [], 0, false), 0);
  }

  lemma IsQueried(hard: seq<Formula>, soft: Table, s: State)
    requires Reached(hard, soft, s) && !s.charging
    ensures Queried(hard, soft, s.ws)
  {}

  // ----- what every run keeps -----

  ghost function Weight(m: Table): nat {
    Sum(m, Indicator(Always()))
  }

  /** The weight that the cores took out of the table. */
  ghost function Taken(cores: seq<Core>): nat {
    if cores == [] then 0 else cores[0].1 * |cores[0].0| + Taken(cores[1..])
  }

  lemma {:induction false} TakenAppend(cores: seq<Core>, c: Core)
    ensures Taken(cores + [c]) == Taken(cores) + c.1 * |c.0|
  {
    if cores != [] {
      assert (cores + [c])[1..] == cores[1..] + [c];
      TakenAppend(cores[1..], c);
    }
  }

  lemma {:induction false} ChargeIsLength(core: seq<Formula>)
    ensures Charge(core, Indicator(Always())) == |core|
  {
    if core != [] { ChargeIsLength(core[1..]); }
  }

  lemma {:induction false} CountIsLess(m: Table)
    requires forall f | f in m :: m[f] > 0
    ensures |m| <= Weight(m)
    decreases |m|
  {
    if m != map[] {
      var f :| f in m;
      SumRemove(m, f, Indicator(Always()));
      CountIsLess(m - {f});
    }
  }

  lemma {:induction false} RelaxAllAdds(m: Table, core: seq<Formula>, w: nat)
    requires w > 0 && forall f | f in m :: m[f] > 0
    ensures Weight(RelaxAll(m, core, w)) <= Weight(m) + w * |core|
    ensures forall f | f in RelaxAll(m, core, w) :: RelaxAll(m, core, w)[f] > 0
    decreases |core|
  {
    if core != [] {
      var f := core[0];
      if IsBound(f) { SumAdded(m, Bound(f.def.fs, f.def.k + 1), w, Indicator(Always())); }
      RelaxAllAdds(RelaxOne(m, f, w), core[1..], w);
      Distribute(1, |core| - 1, w);
    }
  }

  lemma RelaxedAdds(m: Table, core: seq<Formula>, w: nat)
    requires w > 0 && forall f | f in m :: m[f] > 0
    ensures Weight(Relaxed(m, core, w)) <= Weight(m) + w * |core| + w
    ensures forall f | f in Relaxed(m, core, w) :: Relaxed(m, core, w)[f] > 0
  {
    RelaxAllAdds(m, core, w);
    SumAdded(RelaxAll(m, core, w), Bound(NegateAll(core), 1), w, Indicator(Always()));
  }

  /** The decomposition of the cost, and a bound on the weight of the table. */
  ghost predicate Kept(hard: seq<Formula>, soft: Table, s: State) {
    && Balanced(hard, soft, s.charged, s.cores, s.ws)
    && (forall c | c in s.cores :: IsCore(hard, c.0) && c.1 > 0)
    && (forall f | f in s.ws :: s.ws[f] > 0)
    && Weight(s.ws) + Taken(s.cores) <= Weight(soft) + s.charged
  }

  lemma KeptTake(hard: seq<Formula>, soft: Table, s: State, s': State, c: Core)
    requires Kept(hard, soft, s) && Takes(hard, s, s', c)
    ensures Kept(hard, soft, s')
  {
    hide Balanced, Sum, IsCore;
    var (core, w) := c;
    BalancedCore(hard, soft, s.charged, s.cores, s.ws, core, w);
    SumSubtractAll(s.ws, core, w, Indicator(Always()));
    ChargeIsLength(core);
    TakenAppend(s.cores, c);
    SubtractAllShrinks(s.ws, core, w);
  }

  lemma KeptCharge(hard: seq<Formula>, soft: Table, s: State, s': State)
    requires Kept(hard, soft, s) && Charges(hard, s, s')
    ensures Kept(hard, soft, s')
  {
    hide Balanced, Sum, IsCore, Relaxed;
    BalancedRelax(hard, soft, s.charged, s.cores, s.ws);
    RelaxedAdds(s.ws, s.cores[0].0, s.cores[0].1);
  }

  lemma {:induction false} KeptAlways(hard: seq<Formula>, soft: Table, s: State, n: nat)
    requires UserTable(soft) && ReachedIn(hard, soft, s, n)
    ensures Kept(hard, soft, s)
    decreases n
  {
    hide Kept, Takes, Charges;
    if n == 0 {
      KeptStart(hard, soft);
    } else {
      var p :| ReachedIn(hard, soft, p, n - 1) && Next(hard, p, s);
      KeptAlways(hard, soft, p, n - 1);
      if Charges(hard, p, s) {
        KeptCharge(hard, soft, p, s);
      } else {
        var c :| Takes(hard, p, s, c);
        KeptTake(hard, soft, p, s, c);
      }
    }
  }

  lemma KeptStart(hard: seq<Formula>, soft: Table)
    requires UserTable(soft)
    ensures Kept(hard, soft, State(soft, [], 0, false))
  {
    InitiallyBalanced(hard, soft);
  }

  /** What is charged and pending is at most the cost of any world. */
  lemma KeptBelow(hard: seq<Formula>, soft: Table, s: State, w: World)
    requires Kept(hard, soft, s) && Models(w, hard)
    ensures s.charged + TotalWeight(s.cores) <= Cost(soft, w)
  {
    PendingAtLeast(hard, s.cores, w);
  }

  /** No table in a run has more entries than the weight of the input and the cost of any world together. */
  lemma QueriedSize(hard: seq<Formula>, soft: Table, t: Table, w: World)
    requires UserTable(soft) && Queried(hard, soft, t) && Models(w, hard)
    ensures |t| <= Weight(soft) + Cost(soft, w)
  {
    var s :| Reached(hard, soft, s) && s.ws == t;
    var n: nat :| ReachedIn(hard, soft, s, n);
    KeptAlways(hard, soft, s, n);
    KeptBelow(hard, soft, s, w);
    CountIsLess(t);
  }

  // ----- equal weights stay equal -----

  /** No formula is listed together with its double negation. */
  ghost predicate NoDoubleNegation(fs: set<Formula>) {
    forall f | f in fs :: Not(Not(f)) !in fs
  }

  predicate Relaxable(f: Formula) {
    IsBound(f) && f.def.k + 1 < |f.def.fs|
  }

  function Weaker(f: Formula): Formula
    requires Relaxable(f)
  {
    Bound(f.def.fs, f.def.k + 1)
  }

  ghost predicate AllWeigh(m: Table, w: nat) {
    forall f | f in m :: m[f] == w
  }

  lemma {:induction false} RelaxAllFresh(m: Table, core: seq<Formula>, w: nat)
    requires Distinct(core) && AllWeigh(m, w) && forall f | f in core && Relaxable(f) :: Weaker(f) !in m
    ensures AllWeigh(RelaxAll(m, core, w), w)
    ensures forall g :: g in RelaxAll(m, core, w) <==> g in m || exists f | f in core && Relaxable(f) :: g == Weaker(f)
    decreases |core|
  {
    if core != [] {
      var m' := RelaxOne(m, core[0], w);
      assert core[0] in core && forall f :: f in core <==> f == core[0] || f in core[1..];
      assert AllWeigh(m', w);
      assert forall f | f in core[1..] && Relaxable(f) :: Weaker(f) !in m';
      RelaxAllFresh(m', core[1..], w);
    }
  }

  /** A formula of the user, or a bound that is made from a charged core, one step after the other. */
  ghost predicate Traced(soft: Table, gone: set<Formula>, lists: set<seq<Formula>>, f: Formula) {
    || (NameFree(f) && f in soft)
    || (IsBound(f) && f.def.k >= 1 && f.def.fs in lists && (f.def.k >= 2 ==> Bound(f.def.fs, f.def.k - 1) in gone))
  }

  /** The table and the pending cores have no member in common with each other or with the charged cores. */
  ghost predicate Apart(s: State, gone: set<Formula>) {
    && (forall f | f in s.ws :: f !in gone)
    && (forall c, f | c in s.cores && f in c.0 :: f !in s.ws && f !in gone)
    && (forall i, j, f | 0 <= i < j < |s.cores| && f in s.cores[i].0 :: f !in s.cores[j].0)
  }

  /** `gone` are the members of the charged cores, `lists` their negations. */
  ghost predicate Level(soft: Table, w: nat, s: State, gone: set<Formula>, lists: set<seq<Formula>>) {
    && AllWeigh(s.ws, w) && Apart(s, gone)
    && (forall c | c in s.cores :: c.1 == w && c.0 != [] && Distinct(c.0))
    && (forall f | f in s.ws || f in gone :: Traced(soft, gone, lists, f))
    && (forall c, f | c in s.cores && f in c.0 :: Traced(soft, gone, lists, f))
    && Charged(gone, lists)
  }

  lemma LevelTake(hard: seq<Formula>, soft: Table, w: nat, s: State, s': State, c: Core, gone: set<Formula>,
      lists: set<seq<Formula>>)
    requires Level(soft, w, s, gone, lists) && Takes(hard, s, s', c)
    ensures Level(soft, w, s', gone, lists)
  {
    hide Traced, IsCore;
    SubtractWhole(s.ws, c.0, w);
    assert forall f :: f in Members(c.0) <==> f in c.0;
    assert forall d :: d in s'.cores <==> d in s.cores || d == c;
  }

  lemma NotDoubled(soft: Table, gone: set<Formula>, lists: set<seq<Formula>>, g: Formula)
    requires NoDoubleNegation(soft.Keys) && Traced(soft, gone, lists, g)
    ensures !Traced(soft, gone, lists, Not(Not(g)))
  {
    if NameFree(g) {
      assert g in soft.Keys;
    } else {
      assert !NameFree(Not(g)) && !NameFree(Not(Not(g)));
    }
  }

  lemma NegateMeets(f: Formula, g: Formula)
    requires Negate(f) == Negate(g)
    ensures f == g || f == Not(Not(g)) || g == Not(Not(f))
  {
    assert f.Not? ==> f == Not(f.arg);
    assert g.Not? ==> g == Not(g.arg);
  }

  lemma NegateInjective(soft: Table, gone: set<Formula>, lists: set<seq<Formula>>, f: Formula, g: Formula)
    requires NoDoubleNegation(soft.Keys) && Traced(soft, gone, lists, f) && Traced(soft, gone, lists, g)
    requires Negate(f) == Negate(g)
    ensures f == g
  {
    NotDoubled(soft, gone, lists, f);
    NotDoubled(soft, gone, lists, g);
    hide Traced;
    NegateMeets(f, g);
  }

  lemma NegateAllInjective(soft: Table, gone: set<Formula>, lists: set<seq<Formula>>, a: seq<Formula>, b: seq<Formula>)
    requires NoDoubleNegation(soft.Keys) && NegateAll(a) == NegateAll(b)
    requires forall f | f in a || f in b :: Traced(soft, gone, lists, f)
    ensures a == b
  {
    hide Traced;
    forall i | 0 <= i < |a| ensures a[i] == b[i] {
      assert NegateAll(a)[i] == NegateAll(b)[i];
      NegateInjective(soft, gone, lists, a[i], b[i]);
    }
  }

  /** The bound over a core that is charged now was never made before. */
  lemma NewList(soft: Table, w: nat, s: State, gone: set<Formula>, lists: set<seq<Formula>>)
    requires NoDoubleNegation(soft.Keys) && Level(soft, w, s, gone, lists) && s.cores != []
    ensures NegateAll(s.cores[0].0) !in lists
  {
    hide Traced;
    var core := s.cores[0].0;
    assert s.cores[0] in s.cores && core[0] in core && core[0] !in gone;
    forall l | l in lists ensures l != NegateAll(core) {
      var charged :| l == NegateAll(charged) && charged != [] && forall f | f in charged :: f in gone;
      if l == NegateAll(core) { NegateAllInjective(soft, gone, lists, core, charged); }
    }
  }

  /** What charging a core puts into the table: the bound over it and the weaker bounds. */
  ghost predicate Enters(core: seq<Formula>, g: Formula) {
    g == Bound(NegateAll(core), 1) || exists f | f in core && Relaxable(f) :: g == Weaker(f)
  }

  lemma EntersFirst(soft: Table, w: nat, s: State, gone: set<Formula>, lists: set<seq<Formula>>, g: Formula)
    requires NoDoubleNegation(soft.Keys) && Level(soft, w, s, gone, lists) && s.cores != []
    requires Enters(s.cores[0].0, g)
    ensures !Traced(soft, gone, lists, g)
    ensures Traced(soft, gone + Members(s.cores[0].0), lists + {NegateAll(s.cores[0].0)}, g)
    ensures g == Bound(NegateAll(s.cores[0].0), 1) || g.def.k >= 2
  {
    var core := s.cores[0].0;
    NewList(soft, w, s, gone, lists);
    LevelPending(soft, w, s, gone, lists);
    hide Level, Traced, NoDoubleNegation, Weaker;
    if g == Bound(NegateAll(core), 1) {
      ListIsNew(soft, gone, lists, core);
    } else {
      var f :| f in core && Relaxable(f) && g == Weaker(f);
      WeakerIsNew(soft, gone, lists, core, f);
    }
  }

  lemma ListIsNew(soft: Table, gone: set<Formula>, lists: set<seq<Formula>>, core: seq<Formula>)
    requires NegateAll(core) !in lists
    ensures !Traced(soft, gone, lists, Bound(NegateAll(core), 1))
    ensures Traced(soft, gone + Members(core), lists + {NegateAll(core)}, Bound(NegateAll(core), 1))
  {}

  lemma WeakerIsNew(soft: Table, gone: set<Formula>, lists: set<seq<Formula>>, core: seq<Formula>, f: Formula)
    requires f in core && Relaxable(f) && Traced(soft, gone, lists, f) && f !in gone
    ensures !Traced(soft, gone, lists, Weaker(f)) && IsBound(Weaker(f)) && Weaker(f).def.k >= 2
    ensures Traced(soft, gone + Members(core), lists + {NegateAll(core)}, Weaker(f))
  {
    assert f == Bound(f.def.fs, f.def.k);
  }

  lemma LevelPending(soft: Table, w: nat, s: State, gone: set<Formula>, lists: set<seq<Formula>>)
    requires Level(soft, w, s, gone, lists) && s.cores != []
    ensures forall f | f in s.cores[0].0 :: Traced(soft, gone, lists, f) && f !in gone
  {
    hide Traced;
    assert s.cores[0] in s.cores;
  }

  lemma ChargedTable(soft: Table, w: nat, s: State, gone: set<Formula>, lists: set<seq<Formula>>)
    requires NoDoubleNegation(soft.Keys) && Level(soft, w, s, gone, lists) && s.cores != []
    ensures AllWeigh(Relaxed(s.ws, s.cores[0].0, w), w)
    ensures forall g :: g in Relaxed(s.ws, s.cores[0].0, w) <==> g in s.ws || Enters(s.cores[0].0, g)
  {
    hide Traced;
    var core := s.cores[0].0;
    assert s.cores[0] in s.cores;
    forall g | Enters(core, g) ensures g !in s.ws && (g == Bound(NegateAll(core), 1) || g.def.k >= 2) {
      EntersFirst(soft, w, s, gone, lists, g);
    }
    forall f | f in core && Relaxable(f) ensures Weaker(f) !in s.ws { assert Enters(core, Weaker(f)); }
    RelaxAllFresh(s.ws, core, w);
    var first := Bound(NegateAll(core), 1);
    assert Enters(core, first);
    assert first !in RelaxAll(s.ws, core, w) by {
      forall f | f in core && Relaxable(f) ensures first != Weaker(f) { assert Enters(core, Weaker(f)); }
    }
  }

  lemma TracedMore(soft: Table, gone: set<Formula>, lists: set<seq<Formula>>, gone': set<Formula>,
      lists': set<seq<Formula>>, f: Formula)
    requires Traced(soft, gone, lists, f) && gone <= gone' && lists <= lists'
    ensures Traced(soft, gone', lists', f)
  {}

  lemma ChargedApart(s: State, s': State, gone: set<Formula>)
    requires Apart(s, gone) && s.cores != [] && s'.cores == s.cores[1..]
    requires forall g :: g in s'.ws <==> g in s.ws || Enters(s.cores[0].0, g)
    requires forall g | Enters(s.cores[0].0, g) ::
      g !in s.ws && g !in gone && forall c | c in s.cores :: g !in c.0
    ensures Apart(s', gone + Members(s.cores[0].0))
  {
    hide Enters;
    assert s.cores[0] in s.cores && forall c | c in s'.cores :: c in s.cores;
    forall c, f | c in s'.cores && f in c.0 ensures f !in s'.ws && f !in gone + Members(s.cores[0].0) {
      var j :| 0 <= j < |s'.cores| && s'.cores[j] == c;
      assert s.cores[j + 1] == c;
    }
    forall i, j, f | 0 <= i < j < |s'.cores| && f in s'.cores[i].0 ensures f !in s'.cores[j].0 {
      assert f in s.cores[i + 1].0;
    }
  }

  ghost predicate Charged(gone: set<Formula>, lists: set<seq<Formula>>) {
    forall l | l in lists :: exists core :: l == NegateAll(core) && core != [] && forall f | f in core :: f in gone
  }

  lemma ChargedMore(gone: set<Formula>, lists: set<seq<Formula>>, core: seq<Formula>)
    requires Charged(gone, lists) && core != []
    ensures Charged(gone + Members(core), lists + {NegateAll(core)})
  {
    var gone' := gone + Members(core);
    forall l | l in lists + {NegateAll(core)}
      ensures exists c :: l == NegateAll(c) && c != [] && forall f | f in c :: f in gone'
    {
      if l == NegateAll(core) {
        assert forall f | f in core :: f in gone';
      } else {
        var c :| l == NegateAll(c) && c != [] && forall f | f in c :: f in gone;
        assert forall f | f in c :: f in gone';
      }
    }
  }

  lemma LevelCharge(hard: seq<Formula>, soft: Table, w: nat, s: State, s': State, gone: set<Formula>,
      lists: set<seq<Formula>>)
    requires NoDoubleNegation(soft.Keys) && Level(soft, w, s, gone, lists) && Charges(hard, s, s')
    ensures Level(soft, w, s', gone + Members(s.cores[0].0), lists + {NegateAll(s.cores[0].0)})
  {
    hide Traced, Enters, Apart, Relaxed, AllWeigh, Rests, Charged, NoDoubleNegation;
    var core := s.cores[0].0;
    var gone', lists' := gone + Members(core), lists + {NegateAll(core)};
    assert s.cores[0] in s.cores && forall c | c in s'.cores :: c in s.cores;
    ChargedTable(soft, w, s, gone, lists);
    ChargedMore(gone, lists, core);
    forall g | Enters(core, g) ensures !Traced(soft, gone, lists, g) && Traced(soft, gone', lists', g) {
      EntersFirst(soft, w, s, gone, lists, g);
    }
    ChargedApart(s, s', gone);
    forall f | Traced(soft, gone, lists, f) ensures Traced(soft, gone', lists', f) {
      TracedMore(soft, gone, lists, gone', lists', f);
    }
    assert forall f | f in Members(core) :: f in core;
  }

  lemma {:induction false} LevelAlways(hard: seq<Formula>, soft: Table, w: nat, s: State, n: nat)
    returns (gone: set<Formula>, lists: set<seq<Formula>>)
    requires UserTable(soft) && AllWeigh(soft, w) && NoDoubleNegation(soft.Keys) && ReachedIn(hard, soft, s, n)
    ensures Level(soft, w, s, gone, lists)
    decreases n
  {
    if n == 0 {
      gone, lists := {}, {};
    } else {
      hide Level, Takes, Charges;
      var p :| ReachedIn(hard, soft, p, n - 1) && Next(hard, p, s);
      gone, lists := LevelAlways(hard, soft, w, p, n - 1);
      if Charges(hard, p, s) {
        LevelCharge(hard, soft, w, p, s, gone, lists);
        gone, lists := gone + Members(p.cores[0].0), lists + {NegateAll(p.cores[0].0)};
      } else {
        var c :| Takes(hard, p, s, c);
        LevelTake(hard, soft, w, p, s, c, gone, lists);
      }
    }
  }

  /** With equal weights every table of every run has equal weights, so the scan never passes the end. */
  lemma EqualWeightsNeverOverrun(hard: seq<Formula>, soft: Table, t: Table)
    requires UserTable(soft) && Uniform(soft) && NoDoubleNegation(soft.Keys) && Queried(hard, soft, t)
    ensures Uniform(t) && !TailOverruns(t)
  {
    var s :| Reached(hard, soft, s) && s.ws == t;
    var n: nat :| ReachedIn(hard, soft, s, n);
    var w := if soft == map[] then 0 else var f :| f in soft; soft[f];
    var gone, lists := LevelAlways(hard, soft, w, s, n);
    if TailOverruns(t) { TailIsLong(t); }
  }

  /** With any world of the hard constraints: its cost and the weight of the input together exceed 20. */
  ghost predicate Heavy(hard: seq<Formula>, soft: Table) {
    forall w: World | Models(w, hard) :: Weight(soft) + Cost(soft, w) > 20
  }

  /** A world that costs less than one wish weighs, in a problem that is light enough for short tables. */
  ghost predicate Promising(hard: seq<Formula>, soft: Table) {
    exists w: World, f: Formula ::
      Models(w, hard) && f in soft && Cost(soft, w) < soft[f] && Weight(soft) + Cost(soft, w) <= 20
  }

  lemma PromisingMeans(hard: seq<Formula>, soft: Table)
    ensures Promising(hard, soft) ==> Satisfiable(hard) && !Outweighed(hard, soft) && !Heavy(hard, soft)
  {}

  /** What an index error says about the input. */
  lemma OverrunMeans(hard: seq<Formula>, soft: Table, t: Table)
    requires UserTable(soft) && Queried(hard, soft, t) && TailOverruns(t)
    ensures Heavy(hard, soft) && !(Uniform(soft) && NoDoubleNegation(soft.Keys))
  {
    hide Queried, TailOverruns, Cost, Weight, Uniform, NoDoubleNegation;
    TailIsLong(t);
    forall w: World | Models(w, hard) ensures Weight(soft) + Cost(soft, w) > 20 { QueriedSize(hard, soft, t, w); }
    if Uniform(soft) && NoDoubleNegation(soft.Keys) {
      EqualWeightsNeverOverrun(hard, soft, t);
      assert false;
    }
  }
}
