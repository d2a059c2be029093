/** Core-guided MaxSAT in the style of RC2: the search, and its entry point. */
module Rc2 {
  import opened Cores
  import opened Logic
  import opened Runs
  import opened Sets
  import opened Strata
  import opened Weights

  /** The result of a step of the source: a value, the answer `unsat`, or one of its two exceptions. */
  datatype Outcome<T> =
    | Done(value: T)
    | HardUnsat
    | NoModel     // a model is asked for after an `unsat` answer
    | IndexError  // a query runs past the end of the sorted soft constraints

  function Lesser(a: nat, b: nat): nat {
    if b < a then b else a
  }

  ghost predicate Attained(hard: seq<Formula>, soft: Table, cost: nat) {
    || cost == Sum(soft, Indicator(Always()))
    || exists w: World :: Models(w, hard) && Cost(soft, w) == cost
  }

  /** Some world of the hard constraints satisfies all of `fs`. */
  ghost predicate Consistent(hard: seq<Formula>, fs: set<Formula>) {
    exists w: World :: Models(w, hard) && forall f | f in fs :: Eval(w, f, Literal)
  }

  lemma CoreIsInconsistent(hard: seq<Formula>, core: seq<Formula>, fs: set<Formula>)
    requires IsCore(hard, core) && forall c | c in core :: NameFree(c) && c in fs
    ensures !Consistent(hard, fs)
  {
    forall w: World | Models(w, hard) ensures exists f | f in fs :: !Eval(w, f, Literal) {
      FalsifiedIffSome(w, core);
      var c :| c in core && !Eval(w, c, Unfolded);
      NameFreeReading(w, c);
    }
  }

  /** All of `fs` is inconsistent, and no part and its rest are one consistent and the other not. */
  ghost predicate Unsplit(hard: seq<Formula>, fs: set<Formula>) {
    && Satisfiable(hard) && !Consistent(hard, fs)
    && forall part | part <= fs && part != {} && Consistent(hard, part) :: Consistent(hard, fs - part)
  }

  /** Inputs on which the cores of the first pass use up the table: whatever the solver answers, or
      (with equal weights) when its cores are not minimized. */
  ghost predicate Doomed(hard: seq<Formula>, soft: Table, wholeCores: bool) {
    && soft != map[]
    && ((Uniform(soft) && (Unsplit(hard, soft.Keys) || (wholeCores && !Consistent(hard, soft.Keys)))) ||
        (Satisfiable(hard) && |soft| <= 20 && forall f | f in soft :: !Consistent(hard, {f})))
  }

  /** What is left of constraints of equal weight are the constraints that no core holds. */
  ghost predicate Packed(soft: Table, ws: Table, cores: seq<Core>) {
    && (forall f | f in ws :: f in soft && ws[f] == soft[f])
    && (forall c, f | c in cores && f in c.0 :: f in soft && f !in ws)
  }

  lemma PackedCore(soft: Table, ws: Table, cores: seq<Core>, core: seq<Formula>, w: nat)
    requires Uniform(soft) && Packed(soft, ws, cores)
    requires Distinct(core) && forall c | c in core :: c in ws && ws[c] == w
    ensures SubtractAll(ws, core, w) == ws - Members(core)
    ensures Packed(soft, ws - Members(core), cores + [(core, w)])
  {
    SubtractWhole(ws, core, w);
  }

  /** The first pass, after some cores; `start` is the table before, `whole` says that cores are not minimized. */
  ghost predicate Progress(hard: seq<Formula>, soft: Table, whole: bool, start: Table, ws: Table, cores: seq<Core>) {
    start == soft ==>
      && ws.Keys <= soft.Keys
      && (cores == [] ==> ws == soft)
      && (Consistent(hard, soft.Keys) ==> cores == [])
      && (Uniform(soft) ==> Packed(soft, ws, cores) && (whole && cores != [] ==> ws == map[]))
  }

  /** How a first pass ends. */
  ghost predicate Verdict(hard: seq<Formula>, soft: Table, whole: bool, start: Table, r: Outcome<seq<Core>>) {
    start == soft ==>
      && (Consistent(hard, soft.Keys) ==> r == if TailOverruns(soft) then IndexError else Done([]))
      && (Doomed(hard, soft, whole) ==> r.NoModel?)
  }

  lemma ProgressCore(hard: seq<Formula>, soft: Table, whole: bool, start: Table, ws: Table, cores: seq<Core>,
      core: seq<Formula>, w: nat)
    requires UserTable(soft) && Progress(hard, soft, whole, start, ws, cores)
    requires core != [] && Distinct(core) && IsCore(hard, core) && forall c | c in core :: c in ws && w <= ws[c]
    requires exists c | c in core :: ws[c] == w
    requires whole && Uniform(ws) ==> forall f | f in ws :: f in core
    requires SubtractAll(ws, core, w).Keys <= ws.Keys
    ensures Progress(hard, soft, whole, start, SubtractAll(ws, core, w), cores + [(core, w)])
  {
    if start == soft {
      CoreIsInconsistent(hard, core, soft.Keys);
      if Uniform(soft) {
        PackedCore(soft, ws, cores, core, w);
        assert whole ==> ws - Members(core) == map[];
      }
    }
  }

  lemma ConsistentPart(hard: seq<Formula>, fs: set<Formula>, part: set<Formula>)
    requires Consistent(hard, fs) && part <= fs
    ensures Consistent(hard, part) && Satisfiable(hard)
  {}

  lemma VerdictDone(hard: seq<Formula>, soft: Table, whole: bool, start: Table, ws: Table, cores: seq<Core>,
      defined: set<Formula>)
    requires UserTable(soft) && Progress(hard, soft, whole, start, ws, cores) && CoresOk(cores, hard, defined)
    requires ws != map[] && Consistent(hard, ws.Keys) && !TailOverruns(ws)
    ensures Verdict(hard, soft, whole, start, Done(cores))
  {
    if start == soft {
      var f :| f in ws;
      ConsistentPart(hard, ws.Keys, {f});
      if Uniform(soft) && cores != [] {
        assert CoreOk(cores[0], hard, defined);
        CoreIsInconsistent(hard, cores[0].0, soft.Keys - ws.Keys);
      }
    }
  }

  lemma VerdictUsedUp(hard: seq<Formula>, soft: Table, whole: bool, start: Table, cores: seq<Core>)
    requires Progress(hard, soft, whole, start, map[], cores) && !TailOverruns(map[])
    requires start == map[] ==> cores == []
    ensures Verdict(hard, soft, whole, start, if soft == map[] then Done(cores) else NoModel)
  {}

  /** How `get_cores` ends without an answer. */
  ghost predicate Stops(hard: seq<Formula>, soft: Table, whole: bool, start: Table, ws: Table, answers: seq<Answer>,
      from: nat, r: Outcome<seq<Core>>) {
    && Verdict(hard, soft, whole, start, r)
    && if r.IndexError? then
         |ws| > 20 && Queried(hard, soft, ws) && TailOverruns(ws) && Satisfiable(hard) && !EmptyCore(answers, from)
       else r.HardUnsat? && !Satisfiable(hard) && ws != map[] && EmptyCore(answers, from)
  }

  /** On a doomed input neither the index error nor the answer `unsat` comes first. */
  lemma VerdictIndex(hard: seq<Formula>, soft: Table, whole: bool, start: Table, ws: Table, cores: seq<Core>,
      answers: seq<Answer>, from: nat)
    requires Progress(hard, soft, whole, start, ws, cores) && TailOverruns(ws) && |ws| > 20 && !Uniform(ws)
    requires Queried(hard, soft, ws) && Satisfiable(hard) && !EmptyCore(answers, from)
    ensures Stops(hard, soft, whole, start, ws, answers, from, IndexError)
  {
    if start == soft { SubsetSize(ws.Keys, soft.Keys); }
  }

  lemma VerdictUnsat(hard: seq<Formula>, soft: Table, whole: bool, start: Table, ws: Table, cores: seq<Core>,
      answers: seq<Answer>, from: nat)
    requires Progress(hard, soft, whole, start, ws, cores) && IsCore(hard, [])
    requires ws != map[] && !(whole && Uniform(ws)) && EmptyCore(answers, from)
    ensures Stops(hard, soft, whole, start, ws, answers, from, HardUnsat)
  {
    NoWorld(hard);
    if Consistent(hard, soft.Keys) { ConsistentPart(hard, soft.Keys, {}); }
  }

  ghost predicate CoreOk(c: Core, hard: seq<Formula>, defined: set<Formula>) {
    c.1 > 0 && AllSoft(Members(c.0), defined) && IsCore(hard, c.0)
  }

  ghost predicate CoresOk(cores: seq<Core>, hard: seq<Formula>, defined: set<Formula>) {
    forall c | c in cores :: CoreOk(c, hard, defined)
  }

  lemma NothingTaken(hard: seq<Formula>, soft: Table, whole: bool, start: Table, defined: set<Formula>)
    ensures CoresOk([], hard, defined) && Progress(hard, soft, whole, start, start, [])
  {}

  lemma CoresOkAppend(cores: seq<Core>, c: Core, hard: seq<Formula>, defined: set<Formula>)
    requires CoresOk(cores, hard, defined) && CoreOk(c, hard, defined)
    ensures CoresOk(cores + [c], hard, defined)
  {}

  /** When the cores use up the whole table, every soft constraint has been paid for in full. */
  lemma UsedUp(hard: seq<Formula>, soft: Table, charged: nat, cores: seq<Core>, defined: set<Formula>)
    requires Balanced(hard, soft, charged, cores, map[])
    requires CoresOk(cores, hard, defined)
    ensures Outweighed(hard, soft)
  {
    forall c | c in cores ensures IsCore(hard, c.0) { assert CoreOk(c, hard, defined); }
    forall w: World, f | Models(w, hard) && f in soft ensures soft[f] <= Cost(soft, w) {
      PendingAtLeast(hard, cores, w);
    }
  }

  lemma CoresOkMonotone(cores: seq<Core>, hard: seq<Formula>, defined: set<Formula>, defined': set<Formula>)
    requires CoresOk(cores, hard, defined) && defined <= defined'
    ensures CoresOk(cores, hard, defined')
  {
    forall c | c in cores { AllSoftMonotone(Members(c.0), defined, defined'); }
  }

  /** The dictionaries `names` and `bounds` describe the same bounds, all over soft constraints. */
  ghost predicate Registered(names: map<Formula, Formula>, bounds: map<Formula, (seq<Formula>, nat)>) {
    && (forall d | d in names :: d.AtMost? && names[d] == Name(d) && Name(d) in bounds && Soft(Name(d), names.Keys))
    && (forall b | b in bounds :: IsBound(b) && b.def in names && bounds[b] == (b.def.fs, b.def.k))
  }

  ghost predicate AllSoft(fs: set<Formula>, defined: set<Formula>) {
    forall f | f in fs :: Soft(f, defined)
  }

  ghost predicate SoftTable(ws: Table, defined: set<Formula>) {
    AllSoft(ws.Keys, defined) && forall f | f in ws :: ws[f] > 0
  }

  lemma AllSoftMonotone(fs: set<Formula>, defined: set<Formula>, defined': set<Formula>)
    requires AllSoft(fs, defined) && defined <= defined'
    ensures AllSoft(fs, defined')
  {
    forall f | f in fs { SoftMonotone(f, defined, defined'); }
  }

  lemma NegatedAreSoft(core: seq<Formula>, defined: set<Formula>)
    requires AllSoft(Members(core), defined)
    ensures forall x | x in NegateAll(core) :: NameFree(x) || (x.Not? && Soft(x.arg, defined))
  {
    forall x | x in NegateAll(core) ensures NameFree(x) || (x.Not? && Soft(x.arg, defined)) {
      var i :| 0 <= i < |core| && x == Negate(core[i]);
      assert core[i] in Members(core);
    }
  }

  lemma SoftBound(f: Formula, names: map<Formula, Formula>, bounds: map<Formula, (seq<Formula>, nat)>)
    requires Soft(f, names.Keys) && Registered(names, bounds)
    ensures f in bounds <==> IsBound(f)
    ensures f in bounds ==> bounds[f] == (f.def.fs, f.def.k)
    ensures f in bounds ==> forall s | s in f.def.fs :: NameFree(s) || (s.Not? && Soft(s.arg, names.Keys))
  {}

  // ----- the record of the queries -----

  ghost predicate AllSat(answers: seq<Answer>, from: nat, to: int) {
    to <= |answers| && forall k | from <= k < to :: answers[k].Sat?
  }

  lemma OneMoreSat(before: seq<Answer>, after: seq<Answer>, from: nat)
    requires AllSat(before, from, |before|) && before <= after && |after| == |before| + 1
    ensures AllSat(after, from, |after| - 1)
    ensures after[|after| - 1].Sat? ==> AllSat(after, from, |after|)
  {}

  /** Among the answers from `from` on there is an empty core. */
  ghost predicate EmptyCore(answers: seq<Answer>, from: nat) {
    exists k | from <= k < |answers| :: answers[k] == Unsat([])
  }

  lemma NoEmptyCoreYet(before: seq<Answer>, after: seq<Answer>, from: nat, unsat: bool)
    requires from <= |before| && before <= after && !EmptyCore(before, from)
    requires AllSat(after, |before|, |after| - if unsat then 1 else 0) && (unsat ==> |before| < |after|)
    ensures EmptyCore(after, from) <==> unsat && after[|after| - 1] == Unsat([])
  {
    forall k | from <= k < |after| - (if unsat then 1 else 0) ensures after[k] != Unsat([]) {
      if k < |before| { assert after[k] == before[k]; }
    }
  }

  lemma EmptyCoreStays(before: seq<Answer>, after: seq<Answer>, from: nat, start: nat)
    requires from <= start == |before| && before <= after && !EmptyCore(before, from)
    ensures EmptyCore(after, from) <==> EmptyCore(after, start)
  {
    forall k | from <= k < start ensures after[k] != Unsat([]) { assert after[k] == before[k]; }
  }

  lemma NoneYet(answers: seq<Answer>)
    ensures !EmptyCore(answers, |answers|)
  {}

  lemma HardIsAsserted(asserted: seq<Formula>, hard: seq<Formula>, defined: set<Formula>)
    requires Asserts(asserted, hard, defined)
    ensures Satisfiable(asserted) ==> Satisfiable(hard)
  {
    if w: World :| Models(w, asserted) { assert Models(w, hard); }
  }

  lemma CoreOfNothing(asserted: seq<Formula>, hard: seq<Formula>, defined: set<Formula>, core: seq<Formula>)
    requires Asserts(asserted, hard, defined)
    ensures !Satisfiable(hard) && MinimalCore(asserted, core) ==> core == []
  {
    HardIsAsserted(asserted, hard, defined);
    if !Satisfiable(hard) && MinimalCore(asserted, core) { MinimalOfNothing(asserted, core); }
  }

  /** What `check` has still to ask after the first `i` soft constraints. */
  ghost predicate Asking(s: seq<Formula>, ws: Table, before: seq<seq<Formula>>, asked: seq<seq<Formula>>, i: nat) {
    (forall f | f in s :: f in ws) && asked + Queries(s, ws, i) == before + Queries(s, ws, 0)
  }

  /** The new queries are prefixes of a sorted list of the table, as the strata say; `all` of them were made. */
  ghost predicate Asks(ws: Table, before: seq<seq<Formula>>, asked: seq<seq<Formula>>, all: bool) {
    exists s :: Descending(s, ws) && asked <= before + Queries(s, ws, 0) &&
      (all ==> asked == before + Queries(s, ws, 0))
  }

  lemma AsksNext(s: seq<Formula>, ws: Table, before: seq<seq<Formula>>, asked: seq<seq<Formula>>, i: nat)
    requires Descending(s, ws) && Asking(s, ws, before, asked, i) && i < |s|
    ensures var end := StratumEnd(s, ws, i, i);
            if end > |s| then Asks(ws, before, asked, true)
            else Asking(s, ws, before, asked + [s[..end]], end) && Asks(ws, before, asked + [s[..end]], false)
  {
    var end := StratumEnd(s, ws, i, i);
    assert SameStratum(s, ws, i, i);
    if end > |s| {
      assert Queries(s, ws, i) == [];
      assert asked + [] == asked;
    } else {
      assert asked + Queries(s, ws, i) == asked + [s[..end]] + Queries(s, ws, end);
    }
  }

  lemma OverrunsNext(s: seq<Formula>, ws: Table, i: nat)
    requires (forall f | f in s :: f in ws) && i < |s|
    ensures var end := StratumEnd(s, ws, i, i);
            Overruns(s, ws, i) == if end > |s| then true else Overruns(s, ws, end)
  {
    assert SameStratum(s, ws, i, i);
  }

  /** How a call of `check` that began with `from` answers and the questions `before` ends with `r`. */
  ghost predicate Answered(ws: Table, asserted: seq<Formula>, from: nat, before: seq<seq<Formula>>,
      asked: seq<seq<Formula>>, answers: seq<Answer>, r: Outcome<bool>) {
    && (r.Done? || r.IndexError?)
    && AllSat(answers, from, |answers| - if r == Done(false) then 1 else 0)
    && Asks(ws, before, asked, r != Done(false))
    && (if ws == map[] then r == Done(true) && from == |answers| else from < |answers|)
    && (ws != map[] && !Satisfiable(asserted) ==> r == Done(false))
    && (r != Done(false) ==> (r.IndexError? <==> TailOverruns(ws)))
    && (r.IndexError? ==> |ws| > 20 && !Uniform(ws))
  }

  /** Before the query number `i`: all answers of this call so far were `sat`. */
  ghost predicate Recorded(s: seq<Formula>, ws: Table, asserted: seq<Formula>, from: nat, before: seq<seq<Formula>>,
      asked: seq<seq<Formula>>, answers: seq<Answer>, i: nat) {
    && Descending(s, ws) && Asking(s, ws, before, asked, i) && i <= |s|
    && from <= |answers| && AllSat(answers, from, |answers|)
    && (if i == 0 then from == |answers| else from < |answers| && Satisfiable(asserted))
    && Overruns(s, ws, i) == Overruns(s, ws, 0) && (Uniform(ws) ==> i == 0 || i == |s|)
  }

  lemma ListsTable(s: seq<Formula>, ws: Table)
    requires Distinct(s) && |s| == |ws| && (forall f :: f in s <==> f in ws)
    requires forall i, j | 0 <= i < j < |s| :: ws[s[j]] <= ws[s[i]]
    ensures Descending(s, ws)
  {}

  lemma PrefixIsListed(s: seq<Formula>, ws: Table, end: nat)
    requires Descending(s, ws) && end <= |s|
    ensures Distinct(s[..end]) && forall f | f in s[..end] :: f in ws
    ensures s[..end] == s ==> forall f | f in ws :: f in s[..end]
  {}

  lemma RecordStart(s: seq<Formula>, ws: Table, asserted: seq<Formula>, asked: seq<seq<Formula>>, answers: seq<Answer>)
    requires Descending(s, ws)
    ensures Recorded(s, ws, asserted, |answers|, asked, asked, answers, 0)
  {}

  lemma RecordNext(s: seq<Formula>, ws: Table, asserted: seq<Formula>, from: nat, before: seq<seq<Formula>>,
      asked: seq<seq<Formula>>, answers: seq<Answer>, i: nat, answers': seq<Answer>)
    requires Recorded(s, ws, asserted, from, before, asked, answers, i) && i < |s|
    requires answers <= answers' && |answers'| == |answers| + 1
    requires StratumEnd(s, ws, i, i) <= |s|
    ensures var end := StratumEnd(s, ws, i, i);
            && (Uniform(ws) ==> s[..end] == s)
            && Answered(ws, asserted, from, before, asked + [s[..end]], answers', Done(false))
            && (answers'[|answers|].Sat? && Satisfiable(asserted) ==>
                 Recorded(s, ws, asserted, from, before, asked + [s[..end]], answers', end))
  {
    hide Asking, Asks, Overruns, Satisfiable, Uniform, SameStratum, TailOverruns;
    Listing(s, ws);
    OneMoreSat(answers, answers', from);
    AsksNext(s, ws, before, asked, i);
    OverrunsNext(s, ws, i);
    AlwaysGoesOn(s, ws, i);
    assert s[i] in ws;
  }

  lemma AlwaysGoesOn(s: seq<Formula>, ws: Table, i: nat)
    requires (forall f | f in s :: f in ws) && i < |s|
    ensures SameStratum(s, ws, i, i)
  {}

  lemma RecordOverruns(s: seq<Formula>, ws: Table, asserted: seq<Formula>, from: nat, before: seq<seq<Formula>>,
      asked: seq<seq<Formula>>, answers: seq<Answer>, i: nat)
    requires Recorded(s, ws, asserted, from, before, asked, answers, i) && 0 < i < |s|
    requires StratumEnd(s, ws, i, i) > |s|
    ensures Answered(ws, asserted, from, before, asked, answers, IndexError)
  {
    hide Asking, Asks, Overruns, Satisfiable, Uniform, SameStratum, TailOverruns, AllSat;
    AsksNext(s, ws, before, asked, i);
    OverrunsNext(s, ws, i);
    Listing(s, ws);
    TailIsLong(ws);
  }

  lemma RecordDone(s: seq<Formula>, ws: Table, asserted: seq<Formula>, from: nat, before: seq<seq<Formula>>,
      asked: seq<seq<Formula>>, answers: seq<Answer>)
    requires Recorded(s, ws, asserted, from, before, asked, answers, |s|)
    ensures Answered(ws, asserted, from, before, asked, answers, Done(true))
  {
    hide Satisfiable, Uniform, TailOverruns, AllSat;
    Listing(s, ws);
    assert asked + [] == asked;
    assert ws == map[] <==> s == [] by {
      if f :| f in ws { assert f in s; }
    }
  }

  lemma AnsweredMeans(hard: seq<Formula>, defined: set<Formula>, ws: Table, asserted: seq<Formula>,
      answers: seq<Answer>, before: seq<seq<Formula>>, asked: seq<seq<Formula>>, answers': seq<Answer>, from: nat,
      r: Outcome<bool>)
    requires Answered(ws, asserted, |answers|, before, asked, answers', r) && Asserts(asserted, hard, defined)
    requires from <= |answers| && answers <= answers' && !EmptyCore(answers, from)
    requires r == Done(false) ==> answers' != []
    ensures r.Done? || r.IndexError?
    ensures r == Done(false) ==> ws != map[] && (EmptyCore(answers', from) <==> answers'[|answers'| - 1] == Unsat([]))
    ensures r != Done(false) ==> !EmptyCore(answers', from) && (ws != map[] ==> Satisfiable(hard))
    ensures r == Done(true) ==> !TailOverruns(ws) && (ws == map[] ==> answers' == answers)
    ensures r.IndexError? ==> TailOverruns(ws) && |ws| > 20 && !Uniform(ws)
  {
    hide Asks, AllSat, TailOverruns, Uniform, EmptyCore, Satisfiable;
    HardIsAsserted(asserted, hard, defined);
    NoEmptyCoreYet(answers, answers', from, r == Done(false));
  }

  class RC2 {
    const solver: Solver
    ghost const hard: seq<Formula>
    var bounds: map<Formula, (seq<Formula>, nat)>
    var names: map<Formula, Formula>
    var ws: Table   // the dictionary `Ws` that every method updates in place
    var ws0: Table
    var minCost: nat
    var maxCost: nat

    ghost predicate Valid()
      reads this`bounds, this`names, this`ws, this`ws0, solver`asserted
    {
      && solver.Valid()
      && Asserts(solver.asserted, hard, names.Keys)
      && Registered(names, bounds)
      && SoftTable(ws, names.Keys)
      && UserTable(ws0)
    }

    /** The last answer is a model of everything asserted and of every soft constraint left. */
    ghost predicate AllSatisfied()
      reads this`ws, solver`asserted, solver`answers, solver`asked
    {
      && solver.HasModel()
      && Models(solver.Model(), solver.asserted)
      && forall f | f in ws :: Eval(solver.Model(), f, Literal)
    }

    /** The last answer is a model of everything asserted and of `fs`. */
    ghost predicate Holding(fs: seq<Formula>)
      reads solver`asserted, solver`answers
    {
      && solver.HasModel() && Models(solver.Model(), solver.asserted)
      && forall f | f in fs :: Eval(solver.Model(), f, Literal)
    }

    /** The last answer is a set of soft constraints that cannot hold together. */
    ghost predicate HasCore()
      reads this`ws, solver`asserted, solver`answers, solver`asked
    {
      && solver.answers != []
      && var last := solver.answers[|solver.answers| - 1];
      && last.Unsat? && Distinct(last.core)
      && (forall c | c in last.core :: c in ws)
      && !Satisfiable(solver.asserted + last.core)
    }

    constructor (solver: Solver, ws: Table)
      requires solver.Valid() && UserTable(ws)
      requires forall f | f in solver.asserted :: NameFree(f)
      ensures Valid()
      ensures this.solver == solver && this.ws == ws && hard == solver.asserted
      ensures names == map[] && bounds == map[]
    {
      this.solver := solver;
      hard := solver.asserted;
      bounds, names := map[], map[];
      this.ws, ws0 := ws, map[];
      minCost, maxCost := 0, 0;
    }

    method AtMostName(s: seq<Formula>, k: nat) returns (name: Formula)
      requires Valid()
      requires forall x | x in s :: NameFree(x) || (x.Not? && Soft(x.arg, names.Keys))
      modifies this`names, this`bounds, solver`asserted
      ensures Valid()
      ensures name == Bound(s, k) && Soft(name, names.Keys)
      ensures names.Keys == old(names.Keys) + {AtMost(s, k)}
      ensures solver.asserted ==
              old(solver.asserted) + if AtMost(s, k) in old(names) then [] else [Implies(name, AtMost(s, k))]
    {
      var fml := AtMost(s, k);
      if fml in names {
        return names[fml];
      }
      name := Name(fml);
      solver.Add(Implies(name, fml));
      bounds := bounds[name := (s, k)];
      names := names[fml := name];
      assert names.Keys == old(names.Keys) + {fml};
      forall x | x in s && !NameFree(x) ensures Soft(x.arg, names.Keys) {
        SoftMonotone(x.arg, old(names.Keys), names.Keys);
      }
      forall d | d in old(names) ensures Soft(Name(d), names.Keys) {
        SoftMonotone(Name(d), old(names.Keys), names.Keys);
      }
      AllSoftMonotone(ws.Keys, old(names.Keys), names.Keys);
    }

    method GetCost() returns (r: Outcome<nat>)
      ensures r == if ws0 == map[] then Done(0)
                   else if solver.HasModel() then Done(Cost(ws0, solver.Model())) else NoModel
    {
      if ws0 == map[] {
        return Done(0);
      }
      if !solver.HasModel() {
        return NoModel;
      }
      var cost := WeightWhere(ws0, FalseIn(solver.Model()));
      r := Done(cost);
    }

    method UpdateMaxCost() returns (r: Outcome<()>)
      requires Valid() && Attained(hard, ws0, maxCost)
      requires ws0 != map[] && solver.HasModel() ==> Models(solver.Model(), solver.asserted)
      modifies this`maxCost
      ensures Attained(hard, ws0, maxCost) && maxCost <= old(maxCost)
      ensures r == if ws0 == map[] || solver.HasModel() then Done(()) else NoModel
      ensures r.Done? && ws0 != map[] ==> maxCost == Lesser(old(maxCost), Cost(ws0, solver.Model()))
    {
      var cost := GetCost();
      if cost.NoModel? {
        return NoModel;
      }
      if ws0 == map[] {
        SumZero(ws0, Indicator(Always()));
      } else {
        assert Models(solver.Model(), hard);
      }
      maxCost := if cost.value < maxCost then cost.value else maxCost;
      r := Done(());
    }

    /** One query; a `sat` answer improves the upper bound. */
    method Query(assumptions: seq<Formula>) returns (sat: bool)
      requires Valid() && Attained(hard, ws0, maxCost)
      requires Distinct(assumptions) && forall f | f in assumptions :: f in ws
      modifies this`maxCost, solver`answers, solver`asked
      ensures Valid() && Attained(hard, ws0, maxCost) && maxCost <= old(maxCost)
      ensures sat ==> Holding(assumptions)
      ensures sat && ws0 != map[] ==> maxCost <= Cost(ws0, solver.Model())
      ensures !sat ==> HasCore()
      ensures !sat && solver.WholeCores() ==> solver.answers[|solver.answers| - 1].core == assumptions
      ensures |solver.answers| == |old(solver.answers)| + 1 && old(solver.answers) <= solver.answers
      ensures solver.answers[|solver.answers| - 1].Sat? == sat && solver.asked == old(solver.asked) + [assumptions]
      ensures !sat && solver.MinimalCores() ==>
        MinimalCore(solver.asserted, solver.answers[|solver.answers| - 1].core)
    {
      var ans := solver.Check(assumptions);
      sat := ans.Sat?;
      if sat {
        assert Models(ans.model, solver.asserted + assumptions);
        var _ := UpdateMaxCost();
      }
    }

    /** Asks for longer and longer prefixes of the soft constraints, heaviest first. */
    method Check() returns (r: Outcome<bool>)
      requires Valid() && Attained(hard, ws0, maxCost)
      modifies this`maxCost, solver`answers, solver`asked
      ensures Attained(hard, ws0, maxCost) && maxCost <= old(maxCost)
      ensures old(solver.answers) <= solver.answers
      ensures Answered(ws, solver.asserted, |old(solver.answers)|, old(solver.asked), solver.asked, solver.answers, r)
      ensures r == Done(true) && ws != map[] ==> AllSatisfied()
      ensures r == Done(false) ==> HasCore()
      ensures r == Done(false) && Uniform(ws) && solver.WholeCores() ==>
        forall f | f in ws :: f in solver.answers[|solver.answers| - 1].core
      ensures r == Done(false) && solver.MinimalCores() ==>
        MinimalCore(solver.asserted, solver.answers[|solver.answers| - 1].core)
    {
      hide Soft, Eval, NameFree, CountTrue, Registered, Asserts, UserTable, SoftTable, Attained, Uniform, Answered;
      hide StratumEnd, Satisfiable, MinimalCore, Recorded, Valid, Holding, AllSatisfied, Distinct, Descending;
      var s := SortByWeight(ws);
      ListsTable(s, ws);
      RecordStart(s, ws, solver.asserted, solver.asked, solver.answers);
      var i := 0;
      while i < |s|
        invariant Valid() && Attained(hard, ws0, maxCost) && maxCost <= old(maxCost) && i <= |s|
        invariant old(solver.answers) <= solver.answers
        invariant Recorded(s, ws, solver.asserted, |old(solver.answers)|, old(solver.asked), solver.asked,
          solver.answers, i)
        invariant 0 < i ==> Holding(s[..i])
      {
        ghost var start, asked, answers := i, solver.asked, solver.answers;
        i := NextStratum(s, ws, i);
        if i > |s| {
          RecordOverruns(s, ws, solver.asserted, |old(solver.answers)|, old(solver.asked), asked, answers, start);
          return IndexError;
        }
        PrefixIsListed(s, ws, i);
        var sat := Query(s[..i]);
        if sat { HasWorld(s[..i]); }
        RecordNext(s, ws, solver.asserted, |old(solver.answers)|, old(solver.asked), asked, answers, start,
          solver.answers);
        if !sat {
          return Done(false);
        }
      }
      RecordDone(s, ws, solver.asserted, |old(solver.answers)|, old(solver.asked), solver.asked, solver.answers);
      HoldsAll(s, i);
      r := Done(true);
    }

    lemma HoldsAll(s: seq<Formula>, i: nat)
      requires Descending(s, ws) && i == |s| && (0 < i ==> Holding(s[..i]))
      ensures ws != map[] ==> AllSatisfied()
    {
      hide Models;
      assert s[..i] == s;
      if f :| f in ws { assert f in s; }
    }

    lemma HasWorld(fs: seq<Formula>)
      requires Holding(fs)
      ensures Satisfiable(solver.asserted)
    {}

    method Lightest(core: seq<Formula>) returns (w: nat)
      requires core != [] && forall f | f in core :: f in ws
      ensures exists f | f in core :: ws[f] == w
      ensures forall f | f in core :: w <= ws[f]
    {
      w := ws[core[0]];
      for i := 1 to |core|
        invariant exists f | f in core :: ws[f] == w
        invariant forall f | f in core[..i] :: w <= ws[f]
      {
        if ws[core[i]] < w { w := ws[core[i]]; }
      }
    }

    /** `for f in core: sub(Ws, f, w)` */
    method SubtractCore(core: seq<Formula>, w: nat)
      requires Distinct(core) && forall f | f in core :: f in ws
      modifies this`ws
      ensures ws == SubtractAll(old(ws), core, w)
    {
      for i := 0 to |core|
        invariant forall f | f in core[i..] :: f in ws
        invariant SubtractAll(ws, core[i..], w) == SubtractAll(old(ws), core, w)
      {
        assert core[i..][1..] == core[i + 1..];
        ws := Subtracted(ws, core[i], w);
      }
    }

    /** Moves a core from the table to the pending cores. */
    method TakeCore(core: seq<Formula>, ghost cores: seq<Core>) returns (w: nat)
      requires Valid() && Balanced(hard, ws0, minCost, cores, ws)
      requires core != [] && Distinct(core) && forall f | f in core :: f in ws
      requires IsCore(hard, core)
      modifies this`ws
      ensures Valid() && Balanced(hard, ws0, minCost, cores + [(core, w)], ws)
      ensures CoreOk((core, w), hard, names.Keys)
      ensures Sum(ws, Indicator(Always())) < Sum(old(ws), Indicator(Always()))
      ensures ws == SubtractAll(old(ws), core, w) && ws.Keys <= old(ws.Keys)
      ensures (exists c | c in core :: old(ws)[c] == w) && forall c | c in core :: w <= old(ws)[c]
      ensures IsLeastCore(hard, old(ws), core, w)
    {
      w := Lightest(core);
      BalancedCore(hard, ws0, minCost, cores, ws, core, w);
      SumSubtractAll(ws, core, w, Indicator(Always()));
      SubtractAllShrinks(ws, core, w);
      ChargePositive(core, w);
      SubtractCore(core, w);
    }

    /** Between the queries of a pass that began with the table `start`, before the answer number `from`. */
    ghost predicate Taking(start: Table, from: nat, cores: seq<Core>)
      reads this, solver
    {
      && Valid() && Attained(hard, ws0, maxCost) && CoresOk(cores, hard, names.Keys)
      && Balanced(hard, ws0, minCost, cores, ws)
      && (ws == map[] && ws0 != map[] ==> !solver.HasModel())
      && (start == map[] ==> cores == [] && ws == map[]) && ws.Keys <= start.Keys
      && Progress(hard, ws0, solver.WholeCores(), start, ws, cores)
      && Reached(hard, ws0, State(ws, cores, minCost, false))
      && from <= |solver.answers| && !EmptyCore(solver.answers, from)
      && (solver.MinimalCores() && !Satisfiable(hard) ==> ws == start)
    }

    /** The head and the body of the loop of `get_cores`: takes one core out, or `Done([])` if there is none. */
    method NextCore(ghost start: Table, ghost from: nat, ghost cores: seq<Core>) returns (r: Outcome<seq<Core>>)
      requires Taking(start, from, cores)
      modifies this`ws, this`maxCost, solver`answers, solver`asked
      ensures Valid() && Attained(hard, ws0, maxCost) && maxCost <= old(maxCost)
      ensures old(solver.answers) <= solver.answers && ws.Keys <= start.Keys
      ensures !r.Done? ==> Stops(hard, ws0, solver.WholeCores(), start, ws, solver.answers, from, r)
      ensures r == Done([]) ==> Taking(start, from, cores) && ws == old(ws) && !TailOverruns(ws)
      ensures r == Done([]) && ws != map[] ==> AllSatisfied() && Satisfiable(hard)
      ensures r.Done? && r.value != [] ==> Taking(start, from, cores + r.value) && Weight(ws) < Weight(old(ws))
    {
      hide Soft, Eval, NameFree, CountTrue, Registered, Asserts, UserTable, SoftTable, Balanced, IsCore, Attained;
      hide Progress, Verdict, Consistent, TailOverruns, Uniform, CoresOk, CoreOk, Outweighed, Satisfiable, Models,
          Distinct, SubtractAll, Sum, Cost, Reached, Queried, IsLeastCore, Valid, AllSat, EmptyCore, MinimalCore,
          Answered, Stops, AllSatisfied;
      ghost var whole, answers, asked := solver.WholeCores(), solver.answers, solver.asked;
      IsQueried(hard, ws0, State(ws, cores, minCost, false));
      ValidMeans();
      var sat := Check();
      AnsweredMeans(hard, names.Keys, ws, solver.asserted, answers, asked, solver.asked, solver.answers, from, sat);
      if sat.IndexError? {
        VerdictIndex(hard, ws0, whole, start, ws, cores, solver.answers, from);
        return IndexError;
      }
      if sat.value {
        return Done([]);
      }
      var core := solver.answers[|solver.answers| - 1].core;
      CoreOfNothing(solver.asserted, hard, names.Keys, core);
      UnsatGivesCore(solver.asserted, hard, names.Keys, core);
      if core == [] {
        VerdictUnsat(hard, ws0, whole, start, ws, cores, solver.answers, from);
        return HardUnsat;
      }
      ghost var table := ws;
      var w := TakeCore(core, cores);
      CoresOkAppend(cores, (core, w), hard, names.Keys);
      ProgressCore(hard, ws0, whole, start, table, cores, core, w);
      ReachedTake(hard, ws0, State(table, cores, minCost, false), State(ws, cores + [(core, w)], minCost, false),
        (core, w));
      r := Done([(core, w)]);
    }

    /** Takes cores out of `ws` until what is left can be satisfied. */
    method GetCores() returns (r: Outcome<seq<Core>>)
      requires Valid() && Attained(hard, ws0, maxCost) && Balanced(hard, ws0, minCost, [], ws)
      requires ws == map[] ==> ws0 == map[]
      requires Reached(hard, ws0, State(ws, [], minCost, false))
      modifies this`ws, this`maxCost, solver`answers, solver`asked
      ensures Valid() && Attained(hard, ws0, maxCost) && maxCost <= old(maxCost)
      ensures r.Done? ==> CoresOk(r.value, hard, names.Keys)
      ensures r.Done? ==> Balanced(hard, ws0, minCost, r.value, ws)
      ensures r.Done? && old(ws) != map[] && ws0 != map[] ==>
        ws != map[] && AllSatisfied() && maxCost <= Cost(ws0, solver.Model())
      ensures old(ws) == map[] ==> r == Done([])
      ensures ws.Keys <= old(ws.Keys)
      ensures r.HardUnsat? ==> !Satisfiable(hard) && ws != map[]
      ensures r.NoModel? ==> ws == map[] && ws0 != map[] && Outweighed(hard, ws0)
      ensures r.IndexError? ==> |ws| > 20
      ensures Verdict(hard, ws0, solver.WholeCores(), old(ws), r)
      ensures r.Done? ==> Reached(hard, ws0, State(ws, r.value, minCost, false))
      ensures r.NoModel? || r.IndexError? ==> Queried(hard, ws0, ws)
      ensures r.IndexError? ==> TailOverruns(ws)
      ensures old(solver.answers) <= solver.answers
      ensures r.HardUnsat? <==> EmptyCore(solver.answers, |old(solver.answers)|)
      ensures solver.MinimalCores() && !Satisfiable(hard) && old(ws) != map[] ==> r.HardUnsat?
    {
      hide Soft, Eval, NameFree, CountTrue, Registered, Asserts, UserTable, SoftTable, Balanced, IsCore, Attained;
      hide Progress, Verdict, Consistent, TailOverruns, Uniform, CoresOk, CoreOk, Outweighed, Satisfiable, Models,
          Distinct, Sum, Weight, Cost, Reached, Queried, Valid, EmptyCore;
      var cores: seq<Core> := [];
      ghost var whole := solver.WholeCores();
      NothingTaken(hard, ws0, whole, ws, names.Keys);
      NoneYet(solver.answers);
      while true
        invariant Taking(old(ws), |old(solver.answers)|, cores) && maxCost <= old(maxCost)
        invariant old(solver.answers) <= solver.answers
        decreases Weight(ws)
      {
        hide Taking;
        var next := NextCore(old(ws), |old(solver.answers)|, cores);
        if !next.Done? {
          return if next.HardUnsat? then HardUnsat else IndexError;
        }
        if next.value == [] {
          break;
        }
        cores := cores + next.value;
      }
      ValidMeans();
      IsQueried(hard, ws0, State(ws, cores, minCost, false));
      if ws == map[] {
        UsedUp(hard, ws0, minCost, cores, names.Keys);
        VerdictUsedUp(hard, ws0, whole, old(ws), cores);
      } else {
        Settled();
        VerdictDone(hard, ws0, whole, old(ws), ws, cores, names.Keys);
      }
      var updated := UpdateMaxCost();
      if updated.NoModel? {
        return NoModel;
      }
      r := Done(cores);
    }

    /** Adds the weakened form of one member of a core. */
    method RelaxMember(f: Formula, w: nat)
      requires Valid() && w > 0 && Soft(f, names.Keys)
      modifies this`ws, this`names, this`bounds, solver`asserted
      ensures Valid() && ws == RelaxOne(old(ws), f, w)
      ensures old(names.Keys) <= names.Keys
    {
      hide Eval, Soft, NameFree, CountTrue, Asserts, UserTable, Registered;
      SoftBound(f, names, bounds);
      if f in bounds {
        var (s, k) := bounds[f];
        if k + 1 < |s| {
          var name := AtMostName(s, k + 1);
          ws := Added(ws, name, w);
        }
      }
    }

    /** Puts back what is left of a core that has been charged. */
    method UpdateBounds(core: seq<Formula>, w: nat)
      requires Valid() && w > 0 && AllSoft(Members(core), names.Keys)
      modifies this`ws, this`names, this`bounds, solver`asserted
      ensures Valid() && ws == Relaxed(old(ws), core, w) && ws != map[]
      ensures old(names.Keys) <= names.Keys
    {
      hide Soft, Eval, NameFree, CountTrue, Registered, Asserts, UserTable;
      for i := 0 to |core|
        invariant Valid() && old(names.Keys) <= names.Keys
        invariant AllSoft(Members(core), names.Keys)
        invariant RelaxAll(ws, core[i..], w) == RelaxAll(old(ws), core, w)
      {
        assert core[i..][1..] == core[i + 1..];
        ghost var known := names.Keys;
        RelaxMember(core[i], w);
        AllSoftMonotone(Members(core), known, names.Keys);
      }
      NegatedAreSoft(core, names.Keys);
      var name := AtMostName(NegateAll(core), 1);
      ws := Added(ws, name, w);
      assert name in ws;
    }

    /** Charges the cores that were found and weakens them. */
    method ChargeCores(cores: seq<Core>)
      requires Valid() && CoresOk(cores, hard, names.Keys)
      requires Balanced(hard, ws0, minCost, cores, ws)
      requires Rests(hard, ws) && Reached(hard, ws0, State(ws, cores, minCost, false))
      modifies this`ws, this`names, this`bounds, this`minCost, solver`asserted
      ensures Valid() && Balanced(hard, ws0, minCost, [], ws)
      ensures old(minCost) + |cores| <= minCost
      ensures cores != [] ==> ws != map[]
      ensures Reached(hard, ws0, State(ws, [], minCost, false))
    {
      hide Soft, Eval, NameFree, CountTrue, Registered, Asserts, UserTable, SoftTable, Balanced, IsCore;
      hide Reached, Rests, Relaxed;
      for i := 0 to |cores|
        invariant Valid() && CoresOk(cores, hard, names.Keys)
        invariant Balanced(hard, ws0, minCost, cores[i..], ws)
        invariant old(minCost) + i <= minCost
        invariant 0 < i ==> ws != map[]
        invariant i == 0 ==> Rests(hard, ws)
        invariant Reached(hard, ws0, State(ws, cores[i..], minCost, 0 < i < |cores|))
      {
        var (core, w) := cores[i];
        assert CoreOk(cores[i], hard, names.Keys);
        assert cores[i..][1..] == cores[i + 1..];
        BalancedRelax(hard, ws0, minCost, cores[i..], ws);
        ghost var known, s := names.Keys, State(ws, cores[i..], minCost, 0 < i < |cores|);
        minCost := minCost + w;
        UpdateBounds(core, w);
        CoresOkMonotone(cores, hard, known, names.Keys);
        ReachedCharge(hard, ws0, s, State(ws, cores[i + 1..], minCost, i + 1 < |cores|));
      }
    }

    lemma ValidMeans()
      requires Valid()
      ensures solver.Valid() && Asserts(solver.asserted, hard, names.Keys) && UserTable(ws0)
      ensures forall f | f in ws :: ws[f] > 0
    {}

    lemma ModelOfHard()
      requires Valid() && AllSatisfied()
      ensures Models(solver.Model(), hard)
    {}

    lemma Settled()
      requires Valid() && AllSatisfied()
      ensures Consistent(hard, ws.Keys)
    {
      assert Models(solver.Model(), hard);
    }

    lemma SettledUnfolded()
      requires Valid() && AllSatisfied() && ws != map[]
      ensures Rests(hard, ws)
    {
      forall f | f in ws { NameImplies(solver.Model(), f, names.Keys); }
      assert Models(solver.Model(), hard);
    }

    /** The last model satisfies what is left, so it costs exactly what was charged. */
    lemma ModelIsOptimal()
      requires Valid() && AllSatisfied()
      requires Balanced(hard, ws0, minCost, [], ws)
      ensures Models(solver.Model(), hard) && Cost(ws0, solver.Model()) == minCost
    {
      forall f | f in ws { NameImplies(solver.Model(), f, names.Keys); }
      BalancedLowerBound(hard, ws0, minCost, [], ws, solver.Model());
    }

    /** One pass: cores, then their weaker forms. `Done(false)` means that there was no core. */
    method Pass() returns (r: Outcome<bool>)
      requires Valid() && Attained(hard, ws0, maxCost) && Balanced(hard, ws0, minCost, [], ws)
      requires ws == map[] <==> ws0 == map[]
      requires Reached(hard, ws0, State(ws, [], minCost, false))
      modifies this`ws, this`names, this`bounds, this`minCost, this`maxCost
      modifies solver`asserted, solver`answers, solver`asked
      ensures r.Done? ==> Valid() && Attained(hard, ws0, maxCost) && Balanced(hard, ws0, minCost, [], ws)
      ensures r.Done? ==> (ws == map[] <==> ws0 == map[])
      ensures r == Done(true) ==> old(minCost) < minCost <= Sum(ws0, Indicator(Always()))
      ensures r != Done(true) ==> minCost == old(minCost)
      ensures r == Done(false) && ws0 != map[] ==> AllSatisfied() && maxCost <= Cost(ws0, solver.Model())
      ensures ws0 == map[] ==> r == Done(false)
      ensures r.HardUnsat? ==> !Satisfiable(hard) && ws != map[]
      ensures r.NoModel? ==> ws == map[] && Outweighed(hard, ws0)
      ensures r.IndexError? ==> |ws| > 20
      ensures old(ws) == ws0 && Consistent(hard, ws0.Keys) ==>
              r == if TailOverruns(ws0) then IndexError else Done(false)
      ensures old(ws) == ws0 && Doomed(hard, ws0, solver.WholeCores()) ==> r.NoModel?
      ensures r.Done? ==> Reached(hard, ws0, State(ws, [], minCost, false))
      ensures r.NoModel? || r.IndexError? ==> Queried(hard, ws0, ws)
      ensures r.IndexError? ==> TailOverruns(ws)
      ensures old(solver.answers) <= solver.answers
      ensures r.HardUnsat? <==> EmptyCore(solver.answers, |old(solver.answers)|)
      ensures solver.MinimalCores() && !Satisfiable(hard) && old(ws) != map[] ==> r.HardUnsat?
    {
      hide Soft, Eval, NameFree, CountTrue, Registered, Asserts, SoftTable, Balanced, Attained, AllSatisfied,
          CoresOk, Models;
      hide Doomed, Consistent, TailOverruns, Outweighed, Reached, Queried, Rests, EmptyCore, Satisfiable;
      var found := GetCores();
      if !found.Done? {
        return if found.HardUnsat? then HardUnsat else if found.NoModel? then NoModel else IndexError;
      }
      if found.value == [] {
        return Done(false);
      }
      HasModelWhenSatisfied();
      ghost var sample := solver.Model();
      ModelOfHard();
      SettledUnfolded();
      ChargeCores(found.value);
      BalancedLowerBound(hard, ws0, minCost, [], ws, sample);
      assert UserTable(ws0);
      CostIsPenalty(ws0, sample);
      r := Done(true);
    }

    /** The search. Every exit leaves a lower bound in `minCost`. */
    method MaxSat() returns (r: Outcome<(nat, set<Formula>)>)
      requires Valid() && UserTable(ws)
      modifies this, solver`asserted, solver`answers, solver`asked
      ensures ws0 == old(ws)
      ensures forall w: World | Models(w, hard) :: minCost <= Cost(ws0, w)
      ensures r.Done? && ws0 != map[] ==> r.value.0 == minCost == maxCost
      ensures r.Done? && ws0 != map[] ==> Optimum(hard, ws0, r.value.0, r.value.1)
      ensures ws0 == map[] ==> r == Done((0, {}))
      ensures r.HardUnsat? ==> !Satisfiable(hard)
      ensures r.NoModel? <==> ws == map[] && ws0 != map[]
      ensures r.IndexError? ==> |ws| > 20
      ensures r.NoModel? ==> Outweighed(hard, ws0)
      ensures Doomed(hard, ws0, solver.WholeCores()) ==> r.NoModel?
      ensures r.NoModel? ==> Queried(hard, ws0, map[])
      ensures r.IndexError? ==> exists t :: Queried(hard, ws0, t) && TailOverruns(t)
      ensures r.IndexError? ==> Heavy(hard, ws0) && !(Uniform(ws0) && NoDoubleNegation(ws0.Keys))
      ensures Consistent(hard, ws0.Keys) ==> r == if TailOverruns(ws0) then IndexError else Done((0, {}))
      ensures Promising(hard, ws0) ==> r.Done?
      ensures old(solver.answers) <= solver.answers
      ensures r.HardUnsat? <==> EmptyCore(solver.answers, |old(solver.answers)|)
      ensures solver.MinimalCores() && !Satisfiable(hard) && ws0 != map[] ==> r.HardUnsat?
    {
      hide Doomed, Consistent, TailOverruns, Outweighed, Optimum, Sum, Cost, Reached, Queried, Heavy, Uniform,
          NoDoubleNegation, Promising, EmptyCore, Satisfiable;
      hide Soft, Eval, NameFree, CountTrue, Registered, Asserts, Models, SoftTable, UserTable, Balanced, Attained,
          AllSatisfied;
      minCost := 0;
      maxCost := WeightWhere(ws, Always());
      ws0 := ws;
      InitiallyBalanced(hard, ws0);
      InitiallyAttained(hard, ws0);
      ReachedStart(hard, ws0);
      NoneYet(solver.answers);
      PromisingMeans(hard, ws0);
      while true
        invariant Valid() && ws0 == old(ws) && UserTable(ws0) && Attained(hard, ws0, maxCost)
        invariant Balanced(hard, ws0, minCost, [], ws)
        invariant ws == map[] <==> ws0 == map[]
        invariant Reached(hard, ws0, State(ws, [], minCost, false))
        invariant (Consistent(hard, ws0.Keys) || Doomed(hard, ws0, solver.WholeCores())) ==> ws == ws0 && minCost == 0
        invariant old(solver.answers) <= solver.answers && !EmptyCore(solver.answers, |old(solver.answers)|)
        invariant solver.MinimalCores() && !Satisfiable(hard) ==> ws == ws0
        decreases Sum(ws0, Indicator(Always())) - minCost
      {
        LowerBounds(hard, ws0, minCost, [], ws);
        ghost var answers := solver.answers;
        var more := Pass();
        EmptyCoreStays(answers, solver.answers, |old(solver.answers)|, |answers|);
        if !more.Done? {
          if more.IndexError? { OverrunMeans(hard, ws0, ws); }
          return if more.HardUnsat? then HardUnsat else if more.NoModel? then NoModel else IndexError;
        }
        if !more.value {
          break;
        }
      }
      LowerBounds(hard, ws0, minCost, [], ws);
      if ws0 == map[] {
        return Done((0, {}));
      }
      HasModelWhenSatisfied();
      Conclusion();
      var falses := set f | f in ws0 && FalseIn(solver.Model())(f);
      assert falses == Falses(ws0, solver.Model());
      r := Done((minCost, falses));
    }

    lemma Conclusion()
      requires Valid() && AllSatisfied() && Balanced(hard, ws0, minCost, [], ws)
      requires Attained(hard, ws0, maxCost) && maxCost <= Cost(ws0, solver.Model())
      ensures maxCost == minCost && Optimum(hard, ws0, minCost, Falses(ws0, solver.Model()))
      ensures minCost == 0 ==> Falses(ws0, solver.Model()) == {}
    {
      ModelIsOptimal();
      LowerBounds(hard, ws0, minCost, [], ws);
      AttainedIsAbove(hard, ws0, minCost, maxCost, solver.Model());
      if minCost == 0 { ZeroCost(ws0, solver.Model()); }
    }

    lemma HasModelWhenSatisfied()
      requires AllSatisfied()
      ensures solver.HasModel()
    {}
  }

  lemma InitiallyAttained(hard: seq<Formula>, soft: Table)
    ensures Attained(hard, soft, Sum(soft, Indicator(Always())))
  {}

  ghost function Falses(soft: Table, w: World): set<Formula> {
    set f | f in soft && FalseIn(w)(f)
  }

  /** `falses` is what a cheapest world of the hard constraints falsifies, and `cost` is its weight. */
  ghost predicate Optimum(hard: seq<Formula>, soft: Table, cost: nat, falses: set<Formula>) {
    && (exists best: World :: Models(best, hard) && Cost(soft, best) == cost && Falses(soft, best) == falses)
    && (forall w: World | Models(w, hard) :: cost <= Cost(soft, w))
  }

  lemma ZeroCost(soft: Table, w: World)
    requires UserTable(soft) && Cost(soft, w) == 0
    ensures Falses(soft, w) == {}
  {
    if f :| f in Falses(soft, w) {
      SumRemove(soft, f, Indicator(FalseIn(w)));
      assert false;
    }
  }

  lemma AttainedIsAbove(hard: seq<Formula>, soft: Table, lower: nat, cost: nat, sample: World)
    requires Attained(hard, soft, cost) && UserTable(soft)
    requires Models(sample, hard) && Cost(soft, sample) == lower
    requires forall w: World | Models(w, hard) :: lower <= Cost(soft, w)
    ensures lower <= cost
  {
    CostIsPenalty(soft, sample);
  }

  lemma NoWorld(hard: seq<Formula>)
    requires IsCore(hard, [])
    ensures !Satisfiable(hard)
  {
    forall w: World ensures !Models(w, hard) {
      assert Falsified(w, []) == 0;
    }
  }

  lemma ChargePositive(core: seq<Formula>, w: nat)
    requires core != [] && w > 0
    ensures w * Charge(core, Indicator(Always())) > 0
  {
    assert Charge(core, Indicator(Always())) >= 1;
  }

  lemma LowerBounds(hard: seq<Formula>, soft: Table, charged: nat, cores: seq<Core>, ws: Table)
    requires Balanced(hard, soft, charged, cores, ws)
    ensures forall w: World | Models(w, hard) :: charged <= Cost(soft, w)
  {
  }

  // ----- the entry point -----

  /** The soft constraints as the caller lists them; a formula listed twice has the sum of its costs. */
  function TableOf(soft: seq<(Formula, nat)>): Table {
    if soft == [] then map[] else
      var last := soft[|soft| - 1];
      Added(TableOf(soft[..|soft| - 1]), last.0, last.1)
  }

  ghost function Listed(soft: seq<(Formula, nat)>): set<Formula> {
    set i | 0 <= i < |soft| :: soft[i].0
  }

  /** The listed formulas that the world falsifies. */
  ghost function ListFalses(soft: seq<(Formula, nat)>, w: World): set<Formula> {
    set i | 0 <= i < |soft| && !Eval(w, soft[i].0, Literal) :: soft[i].0
  }

  ghost function ListCost(soft: seq<(Formula, nat)>, w: World): nat {
    if soft == [] then 0 else
      var last := soft[|soft| - 1];
      ListCost(soft[..|soft| - 1], w) + if Eval(w, last.0, Literal) then 0 else last.1
  }

  /** No listed formula weighs more, over the whole list, than the cost of any world of the hard constraints. */
  ghost predicate OutweighedList(hard: seq<Formula>, soft: seq<(Formula, nat)>) {
    forall w: World, f: Formula | Models(w, hard) && f in TableOf(soft) :: TableOf(soft)[f] <= ListCost(soft, w)
  }

  lemma {:induction false} TableCost(soft: seq<(Formula, nat)>, w: World)
    ensures Cost(TableOf(soft), w) == ListCost(soft, w)
  {
    if soft != [] {
      var init, last := soft[..|soft| - 1], soft[|soft| - 1];
      TableCost(init, w);
      SumAdded(TableOf(init), last.0, last.1, Indicator(FalseIn(w)));
    }
  }

  lemma {:induction false} TableIsUserTable(soft: seq<(Formula, nat)>)
    requires forall i | 0 <= i < |soft| :: NameFree(soft[i].0) && soft[i].1 > 0
    ensures UserTable(TableOf(soft))
    ensures soft != [] ==> TableOf(soft) != map[]
  {
    if soft != [] {
      TableIsUserTable(soft[..|soft| - 1]);
      assert soft[|soft| - 1].0 in TableOf(soft);
    }
  }

  method AddAll(solver: Solver, hard: seq<Formula>)
    modifies solver`asserted
    ensures solver.asserted == old(solver.asserted) + hard
  {
    for i := 0 to |hard|
      invariant solver.asserted == old(solver.asserted) + hard[..i]
    {
      solver.Add(hard[i]);
    }
    assert hard[..|hard|] == hard;
  }

  method BuildTable(soft: seq<(Formula, nat)>) returns (ws: Table)
    ensures ws == TableOf(soft)
  {
    ws := map[];
    for i := 0 to |soft|
      invariant ws == TableOf(soft[..i])
    {
      assert soft[..i + 1][..i] == soft[..i];
      ws := Added(ws, soft[i].0, soft[i].1);
    }
    assert soft[..|soft|] == soft;
  }

  lemma EmptyTable()
    ensures TableOf([]) == map[]
  {}

  method FromFormulas(solver: Solver, hard: seq<Formula>, soft: seq<(Formula, nat)>)
    returns (r: Outcome<(nat, set<Formula>)>, rc2: RC2)
    requires solver.Valid() && solver.asserted == []
    requires forall f | f in hard :: NameFree(f)
    requires forall i | 0 <= i < |soft| :: NameFree(soft[i].0) && soft[i].1 > 0
    modifies solver
    ensures forall w: World | Models(w, hard) :: rc2.minCost <= ListCost(soft, w)
    ensures r.Done? && soft != [] ==> exists best: World ::
      && Models(best, hard) && ListCost(soft, best) == r.value.0
      && r.value.1 == ListFalses(soft, best)
    ensures r.Done? && soft != [] ==> forall w: World | Models(w, hard) :: r.value.0 <= ListCost(soft, w)
    ensures soft == [] ==> r == Done((0, {}))
    ensures r.HardUnsat? ==> !Satisfiable(hard)
    ensures r.NoModel? ==> OutweighedList(hard, soft)
    ensures Doomed(hard, TableOf(soft), solver.WholeCores()) ==> r.NoModel?
    ensures Consistent(hard, Listed(soft)) ==> r == if TailOverruns(TableOf(soft)) then IndexError else Done((0, {}))
    ensures soft != [] && Uniform(TableOf(soft)) && solver.WholeCores() ==>
            (r.NoModel? <==> !Consistent(hard, Listed(soft)))
    ensures r.NoModel? ==> Queried(hard, TableOf(soft), map[])
    ensures r.IndexError? ==> exists t :: Queried(hard, TableOf(soft), t) && TailOverruns(t)
    ensures r.IndexError? ==> Heavy(hard, TableOf(soft)) && !(Uniform(TableOf(soft)) && NoDoubleNegation(Listed(soft)))
    ensures Promising(hard, TableOf(soft)) ==> r.Done?
    ensures r.HardUnsat? <==> EmptyCore(solver.answers, |old(solver.answers)|)
    ensures solver.MinimalCores() && !Satisfiable(hard) && soft != [] ==> r.HardUnsat?
  {
    hide EmptyCore, Queried, Heavy, NoDoubleNegation, Promising;
    hide Eval, Soft, CountTrue, NameFree, TableOf, ListCost, Consistent, TailOverruns, Uniform, Unsplit;
    TableKeys(soft);
    AddAll(solver, hard);
    assert [] + hard == hard;
    var ws := BuildTable(soft);
    TableIsUserTable(soft);
    EmptyTable();
    rc2 := new RC2(solver, ws);
    r := rc2.MaxSat();
    forall w: World { TableCost(soft, w); }
    if r.Done? && soft != [] {
      ghost var best: World :| Models(best, hard) && Cost(ws, best) == r.value.0 && Falses(ws, best) == r.value.1;
      assert r.value.1 == ListFalses(soft, best);
    }
  }

  lemma {:induction false} TableKeys(soft: seq<(Formula, nat)>)
    ensures TableOf(soft).Keys == Listed(soft)
  {
    if soft != [] {
      var init, last := soft[..|soft| - 1], soft[|soft| - 1];
      TableKeys(init);
      assert TableOf(soft).Keys == TableOf(init).Keys + {last.0};
      forall f | f in TableOf(init).Keys ensures f in set i | 0 <= i < |soft| :: soft[i].0 {
        var i :| 0 <= i < |init| && init[i].0 == f;
        assert soft[i].0 == f;
      }
    }
  }
}
