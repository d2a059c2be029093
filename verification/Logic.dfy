/** Propositional formulas with cardinality constraints, and the solver that decides them.
    The solver is foreign code: it appears only through the promise `Faithful`. */
module Logic {
  import opened Sets

  /** A Boolean variable of the user: a plain name, or the cell x_row_col of a matrix. */
  datatype Symbol = Named(name: string) | Cell(row: nat, col: nat)

  /** `Name(d)` is a fresh Boolean variable whose name is the text of the formula `d`. */
  datatype Formula =
    | Atom(symbol: Symbol)
    | Name(def: Formula)
    | Not(arg: Formula)
    | Implies(lhs: Formula, rhs: Formula)
    | And(fs: seq<Formula>)
    | Or(fs: seq<Formula>)
    | AtMost(fs: seq<Formula>, k: nat)

  /** Gives every Boolean variable (an `Atom` or a `Name`) its value. */
  type World = Formula -> bool

  /** `Literal`: a name is a variable like any other. `Unfolded`: a name is read as the formula it names. */
  datatype Reading = Literal | Unfolded

  predicate Eval(w: World, f: Formula, r: Reading) {
    match f
    case Atom(_) => w(f)
    case Name(d) => if r == Unfolded then Eval(w, d, r) else w(f)
    case Not(g) => !Eval(w, g, r)
    case Implies(g, h) => Eval(w, g, r) ==> Eval(w, h, r)
    case And(fs) => forall g | g in fs :: Eval(w, g, r)
    case Or(fs) => exists g | g in fs :: Eval(w, g, r)
    case AtMost(fs, k) => CountTrue(w, fs, r) <= k
  }

  function CountTrue(w: World, fs: seq<Formula>, r: Reading): nat {
    if fs == [] then 0 else (if Eval(w, fs[0], r) then 1 else 0) + CountTrue(w, fs[1..], r)
  }

  ghost predicate Models(w: World, fs: seq<Formula>) {
    forall f | f in fs :: Eval(w, f, Literal)
  }

  ghost predicate Satisfiable(fs: seq<Formula>) {
    exists w: World :: Models(w, fs)
  }

  predicate NameFree(f: Formula) {
    match f
    case Atom(_) => true
    case Name(_) => false
    case Not(g) => NameFree(g)
    case Implies(g, h) => NameFree(g) && NameFree(h)
    case And(fs) => forall g | g in fs :: NameFree(g)
    case Or(fs) => forall g | g in fs :: NameFree(g)
    case AtMost(fs, _) => forall g | g in fs :: NameFree(g)
  }

  lemma NameFreeReading(w: World, f: Formula)
    requires NameFree(f)
    ensures Eval(w, f, Literal) == Eval(w, f, Unfolded)
  {
    match f
    case Atom(_) =>
    case Not(g) => NameFreeReading(w, g);
    case Implies(g, h) => NameFreeReading(w, g); NameFreeReading(w, h);
    case And(fs) => forall g | g in fs { NameFreeReading(w, g); }
    case Or(fs) => forall g | g in fs { NameFreeReading(w, g); }
    case AtMost(fs, _) => NameFreeCount(w, fs);
  }

  lemma NameFreeCount(w: World, fs: seq<Formula>)
    requires forall g | g in fs :: NameFree(g)
    ensures CountTrue(w, fs, Literal) == CountTrue(w, fs, Unfolded)
  {
    if fs != [] {
      NameFreeReading(w, fs[0]);
      NameFreeCount(w, fs[1..]);
    }
  }

  datatype Answer = Sat(model: World) | Unsat(core: seq<Formula>)

  ghost predicate Faithful(ans: Answer, asserted: seq<Formula>, assumptions: seq<Formula>) {
    match ans
    case Sat(m) => Models(m, asserted + assumptions)
    case Unsat(core) =>
      && Distinct(core)
      && (forall c | c in core :: c in assumptions)
      && !Satisfiable(asserted + core)
  }

  ghost predicate MinimalCore(asserted: seq<Formula>, core: seq<Formula>) {
    forall i | 0 <= i < |core| :: Satisfiable(asserted + (core[..i] + core[i + 1..]))
  }

  /** When the assertions have no world, only the empty core is minimal. */
  lemma MinimalOfNothing(asserted: seq<Formula>, core: seq<Formula>)
    requires !Satisfiable(asserted) && MinimalCore(asserted, core)
    ensures core == []
  {
    if core != [] {
      assert Satisfiable(asserted + (core[..0] + core[1..]));
      FewerAreSatisfiable(asserted, core[..0] + core[1..]);
      assert false;
    }
  }

  lemma FewerAreSatisfiable(fs: seq<Formula>, more: seq<Formula>)
    requires Satisfiable(fs + more)
    ensures Satisfiable(fs)
  {
    var w: World :| Models(w, fs + more);
    assert forall f | f in fs :: f in fs + more;
    assert Models(w, fs);
  }

  /** An incremental solver. `decide` may answer the same question differently on different calls. */
  class Solver {
    const decide: (nat, seq<Formula>, seq<Formula>) -> Answer
    var asserted: seq<Formula>
    var answers: seq<Answer>
    ghost var asked: seq<seq<Formula>>   // the assumptions of the queries

    ghost predicate Valid() {
      forall n: nat, fs: seq<Formula>, ass: seq<Formula> ::
        Distinct(ass) ==> Faithful(decide(n, fs, ass), fs, ass)
    }

    /** Every core is the whole list of assumptions: the solver minimizes nothing. */
    ghost predicate WholeCores() {
      forall n: nat, fs: seq<Formula>, ass: seq<Formula> ::
        Distinct(ass) && decide(n, fs, ass).Unsat? ==> decide(n, fs, ass).core == ass
    }

    /** No member of a core can be left out, as with a solver that minimizes its cores. */
    ghost predicate MinimalCores() {
      forall n: nat, fs: seq<Formula>, ass: seq<Formula> ::
        Distinct(ass) && decide(n, fs, ass).Unsat? ==> MinimalCore(fs, decide(n, fs, ass).core)
    }

    constructor (decide: (nat, seq<Formula>, seq<Formula>) -> Answer)
      ensures this.decide == decide && asserted == [] && answers == [] && asked == []
    {
      this.decide := decide;
      asserted, answers, asked := [], [], [];
    }

    method Add(f: Formula)
      modifies this`asserted
      ensures asserted == old(asserted) + [f]
    {
      asserted := asserted + [f];
    }

    method Check(assumptions: seq<Formula>) returns (ans: Answer)
      requires Valid() && Distinct(assumptions)
      modifies this`answers, this`asked
      ensures answers == old(answers) + [ans] && asked == old(asked) + [assumptions]
      ensures ans == decide(|old(answers)|, asserted, assumptions)
      ensures Faithful(ans, asserted, assumptions)
      ensures WholeCores() && ans.Unsat? ==> ans.core == assumptions
      ensures MinimalCores() && ans.Unsat? ==> MinimalCore(asserted, ans.core)
    {
      ans := decide(|answers|, asserted, assumptions);
      answers, asked := answers + [ans], asked + [assumptions];
    }

    /** The source raises an exception when it asks for a model after an `unsat` answer. */
    predicate HasModel()
      reads this`answers
    {
      answers != [] && answers[|answers| - 1].Sat?
    }

    function Model(): World
      requires HasModel()
      reads this`answers
    {
      answers[|answers| - 1].model
    }
  }

  /** A faithful solver that does not minimize cores exists: no theorem that requires one is empty. */
  ghost function Ideal(n: nat, asserted: seq<Formula>, assumptions: seq<Formula>): (ans: Answer)
    requires Distinct(assumptions)
    ensures Faithful(ans, asserted, assumptions)
    ensures ans.Unsat? ==> ans.core == assumptions
  {
    if m: World :| Models(m, asserted + assumptions) then Sat(m) else Unsat(assumptions)
  }

  /** What is left of an unsatisfiable list when members are dropped as long as that is possible. */
  ghost function Shrunk(asserted: seq<Formula>, core: seq<Formula>): (r: seq<Formula>)
    requires Distinct(core) && !Satisfiable(asserted + core)
    ensures Distinct(r) && (forall c | c in r :: c in core)
    ensures !Satisfiable(asserted + r) && MinimalCore(asserted, r)
    decreases |core|
  {
    if i :| 0 <= i < |core| && !Satisfiable(asserted + (core[..i] + core[i + 1..]))
    then Shrunk(asserted, core[..i] + core[i + 1..]) else core
  }

  /** A faithful solver that minimizes its cores exists as well. */
  ghost function IdealMinimal(n: nat, asserted: seq<Formula>, assumptions: seq<Formula>): (ans: Answer)
    requires Distinct(assumptions)
    ensures Faithful(ans, asserted, assumptions)
    ensures ans.Unsat? ==> MinimalCore(asserted, ans.core)
  {
    if m: World :| Models(m, asserted + assumptions) then Sat(m) else Unsat(Shrunk(asserted, assumptions))
  }
}
