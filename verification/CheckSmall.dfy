/** Bisection for a small model: several 32-bit values are pushed down at once with push and pop. */
module CheckSmall {
  const MAX := 0xFFFF_FFFF
  const HALF := 0x8000_0000

  type UInt32 = x: int | 0 <= x <= MAX

  /** The values of the terms to minimize in one model. */
  type Vec = seq<UInt32>

  ghost predicate Below(v: Vec, u: Vec) {
    |v| == |u| && forall i | 0 <= i < |v| :: v[i] <= u[i]
  }

  // ----- the solver -----

  /** The assertion that term `index` is at most `limit`. */
  datatype Bound = Bound(index: nat, limit: UInt32)

  ghost predicate Meets(v: Vec, bounds: seq<Bound>) {
    forall b | b in bounds :: b.index < |v| && v[b.index] <= b.limit
  }

  datatype Answer = Sat(values: Vec) | Unsat

  ghost predicate Faithful(ans: Answer, feasible: Vec -> bool, bounds: seq<Bound>) {
    match ans
    case Sat(v) => feasible(v) && Meets(v, bounds)
    case Unsat => forall v: Vec | feasible(v) :: !Meets(v, bounds)
  }

  /** A solver with base assertions, seen through the vectors they allow. */
  class BoundSolver {
    const num: nat
    ghost const feasible: Vec -> bool
    const decide: (nat, seq<Bound>) -> Answer
    var bounds: seq<Bound>
    var marks: seq<nat>
    var calls: nat

    ghost predicate Valid() {
      && (forall n: nat, bs: seq<Bound> :: Faithful(decide(n, bs), feasible, bs))
      && forall v: Vec | feasible(v) :: |v| == num
    }

    constructor (num: nat, ghost feasible: Vec -> bool, decide: (nat, seq<Bound>) -> Answer)
      ensures this.num == num && this.feasible == feasible && this.decide == decide
      ensures bounds == [] && marks == []
    {
      this.num, this.feasible, this.decide := num, feasible, decide;
      bounds, marks, calls := [], [], 0;
    }

    method Push()
      modifies this`marks
      ensures marks == old(marks) + [|bounds|]
    {
      marks := marks + [|bounds|];
    }

    method Pop()
      requires marks != [] && marks[|marks| - 1] <= |bounds|
      modifies this`marks, this`bounds
      ensures marks == old(marks[..|marks| - 1])
      ensures bounds == old(bounds[..marks[|marks| - 1]])
    {
      bounds := bounds[..marks[|marks| - 1]];
      marks := marks[..|marks| - 1];
    }

    method Assert(b: Bound)
      modifies this`bounds
      ensures bounds == old(bounds) + [b]
    {
      bounds := bounds + [b];
    }

    method Check() returns (ans: Answer)
      requires Valid()
      modifies this`calls
      ensures ans == decide(old(calls), bounds) && Faithful(ans, feasible, bounds)
    {
      ans := decide(calls, bounds);
      calls := calls + 1;
    }
  }

  // ----- the middle of a range, in 32 bits -----

  /** `(upper + lower) / 2` on unsigned 32-bit operands: the sum wraps around. */
  function Middle(upper: UInt32, lower: UInt32): (m: UInt32)
    ensures m < HALF
  {
    (upper + lower) % 0x1_0000_0000 / 2
  }

  /** The middle splits the range exactly when the sum does not wrap around. */
  lemma MiddleSplits(upper: UInt32, lower: UInt32)
    requires lower < upper
    ensures lower <= Middle(upper, lower) < upper <==> upper + lower <= MAX
  {
    if upper + lower > MAX {
      assert (upper + lower) % 0x1_0000_0000 == upper + lower - 0x1_0000_0000;
    }
  }

  /** Whether or not the sum wraps around, the middle is below the upper end. */
  lemma MiddleIsBelow(upper: UInt32, lower: UInt32)
    requires lower < upper
    ensures Middle(upper, lower) < upper
    ensures upper <= HALF || lower == 0 ==> lower <= Middle(upper, lower)
    ensures lower == 0 ==> Middle(upper, lower) == upper / 2
  {
    if upper <= HALF { MiddleSplits(upper, lower); }
  }

  /** Where the sum does not wrap around, neither half is longer than half of the range. */
  lemma MiddleHalves(upper: UInt32, lower: UInt32)
    requires lower < upper && (upper <= HALF || lower == 0)
    ensures 0 <= Middle(upper, lower) - lower <= (upper - lower) / 2
    ensures 0 <= upper - (Middle(upper, lower) + 1) <= (upper - lower) / 2
  {
    assert upper + lower <= MAX;
    assert Middle(upper, lower) == (upper + lower) / 2;
  }

  // ----- progress -----

  /** The number of bits of a length. */
  function Bits(d: nat): nat {
    if d == 0 then 0 else 1 + Bits(d / 2)
  }

  lemma {:induction false} BitsMonotone(a: nat, b: nat)
    requires a <= b
    ensures Bits(a) <= Bits(b)
  {
    if a != 0 { BitsMonotone(a / 2, b / 2); }
  }

  function Pow2(k: nat): nat {
    if k == 0 then 1 else 2 * Pow2(k - 1)
  }

  lemma {:induction false} BitsBound(d: nat, k: nat)
    requires d < Pow2(k)
    ensures Bits(d) <= k
  {
    if d != 0 && k > 0 { BitsBound(d / 2, k - 1); }
  }

  lemma WordHas32Bits(d: nat)
    requires d <= MAX
    ensures Bits(d) <= 32
  {
    assert Pow2(8) == 0x100 && Pow2(16) == 0x1_0000 && Pow2(24) == 0x100_0000 && Pow2(32) == 0x1_0000_0000;
    BitsBound(d, 32);
  }

  /** The bits of all ranges together. */
  ghost function BitRoom(u: Vec, l: Vec): nat
    requires Below(l, u)
  {
    if u == [] then 0 else Bits(u[0] - l[0]) + BitRoom(u[1..], l[1..])
  }

  lemma {:induction false} BitRoomShrinks(u: Vec, l: Vec, u': Vec, l': Vec)
    requires Below(l, l') && Below(l', u') && Below(u', u)
    ensures Below(l, u) && BitRoom(u', l') <= BitRoom(u, l)
  {
    hide Bits;
    if u != [] {
      BitsMonotone(u'[0] - l'[0], u[0] - l[0]);
      BitRoomShrinks(u[1..], l[1..], u'[1..], l'[1..]);
    }
  }

  lemma {:induction false} BitRoomLoses(u: Vec, l: Vec, l': Vec, i: nat)
    requires Below(l, l') && Below(l', u) && i < |u| && Bits(u[i] - l'[i]) < Bits(u[i] - l[i])
    ensures Below(l, u) && BitRoom(u, l') < BitRoom(u, l)
  {
    hide Bits;
    if i == 0 {
      BitRoomShrinks(u[1..], l[1..], u[1..], l'[1..]);
    } else {
      BitsMonotone(u[0] - l'[0], u[0] - l[0]);
      BitRoomLoses(u[1..], l[1..], l'[1..], i - 1);
    }
  }

  lemma {:induction false} BitRoomBound(u: Vec, l: Vec)
    requires Below(l, u)
    ensures BitRoom(u, l) <= 32 * |u|
  {
    if u != [] {
      WordHas32Bits(u[0] - l[0]);
      BitRoomBound(u[1..], l[1..]);
    }
  }

  ghost function Room(u: Vec, l: Vec): nat
    requires Below(l, u)
  {
    if u == [] then 0 else u[0] - l[0] + Room(u[1..], l[1..])
  }

  lemma {:induction false} RoomShrinks(u: Vec, l: Vec, u': Vec, l': Vec)
    requires Below(l, l') && Below(l', u') && Below(u', u)
    ensures Below(l, u) && Room(u', l') <= Room(u, l)
    ensures u' != u || l' != l ==> Room(u', l') < Room(u, l)
  {
    if u != [] {
      RoomShrinks(u[1..], l[1..], u'[1..], l'[1..]);
      if u'[1..] == u[1..] && l'[1..] == l[1..] && u'[0] == u[0] && l'[0] == l[0] {
        assert u == [u[0]] + u[1..] && u' == [u'[0]] + u'[1..];
        assert l == [l[0]] + l[1..] && l' == [l'[0]] + l'[1..];
      }
    }
  }

  // ----- the invariant -----

  /** Every feasible vector inside the upper box is at or above `l`. */
  ghost predicate Brackets(feasible: Vec -> bool, u: Vec, l: Vec) {
    Below(l, u) && forall v: Vec | feasible(v) && Below(v, u) :: Below(l, v)
  }

  ghost predicate Satisfiable(feasible: Vec -> bool) {
    exists v: Vec :: feasible(v)
  }

  /** `u` is the value of a model, or no model has been seen and `u` excludes nothing. */
  ghost predicate Open(feasible: Vec -> bool, u: Vec) {
    feasible(u) || forall v: Vec | feasible(v) :: Below(v, u)
  }

  ghost function UpperBounds(u: Vec, n: nat): seq<Bound>
    requires n <= |u|
  {
    if n == 0 then [] else UpperBounds(u, n - 1) + [Bound(n - 1, u[n - 1])]
  }

  lemma {:induction false} MeetsUpper(v: Vec, u: Vec, n: nat)
    requires n <= |u| == |v|
    ensures Meets(v, UpperBounds(u, n)) <==> forall i | 0 <= i < n :: v[i] <= u[i]
  {
    if n > 0 {
      MeetsUpper(v, u, n - 1);
      var last := Bound(n - 1, u[n - 1]);
      assert last in UpperBounds(u, n);
      assert forall b :: b in UpperBounds(u, n) <==> b in UpperBounds(u, n - 1) || b == last;
    }
  }

  lemma MeetsAppend(v: Vec, a: seq<Bound>, b: seq<Bound>)
    ensures Meets(v, a + b) <==> Meets(v, a) && Meets(v, b)
  {
    assert forall x | x in a :: x in a + b;
    assert forall x | x in b :: x in a + b;
  }

  /** Inside the upper box the bounds of the frame say only what the bound added last says. */
  ghost predicate FrameMeans(bounds: seq<Bound>, u: Vec, pending: bool, index: int, limit: UInt32) {
    && (pending ==> 0 <= index < |u|)
    && forall v: Vec | Below(v, u) :: Meets(v, bounds) <==> (pending ==> v[index] <= limit)
  }

  /** After a `sat` answer every old bound holds all over the new box. */
  lemma FrameAfterSat(bounds: seq<Bound>, u: Vec, v: Vec)
    requires Meets(v, bounds) && |v| == |u|
    ensures FrameMeans(bounds, v, false, 0, 0)
  {
    forall x: Vec | Below(x, v) ensures Meets(x, bounds) {
      forall b | b in bounds ensures b.index < |x| && x[b.index] <= b.limit {}
    }
  }

  lemma FrameWithBound(bounds: seq<Bound>, u: Vec, index: nat, limit: UInt32)
    requires FrameMeans(bounds, u, false, 0, 0) && index < |u|
    ensures FrameMeans(bounds + [Bound(index, limit)], u, true, index, limit)
  {
    forall v: Vec | Below(v, u) ensures Meets(v, bounds + [Bound(index, limit)]) <==> v[index] <= limit {
      MeetsAppend(v, bounds, [Bound(index, limit)]);
      assert [Bound(index, limit)][0] == Bound(index, limit);
    }
  }

  /** What a query asks once the upper bounds are asserted. */
  lemma QueryMeans(bounds: seq<Bound>, u: Vec, pending: bool, index: int, limit: UInt32, v: Vec)
    requires FrameMeans(bounds, u, pending, index, limit) && |v| == |u|
    ensures Meets(v, bounds + UpperBounds(u, |u|)) <==> Below(v, u) && (pending ==> v[index] <= limit)
  {
    MeetsAppend(v, bounds, UpperBounds(u, |u|));
    MeetsUpper(v, u, |u|);
  }

  lemma BracketsNarrow(feasible: Vec -> bool, u: Vec, l: Vec, v: Vec)
    requires Brackets(feasible, u, l) && feasible(v) && Below(v, u)
    ensures Brackets(feasible, v, l)
  {
    forall x: Vec | feasible(x) && Below(x, v) ensures Below(l, x) { assert Below(x, u); }
  }

  /** An `unsat` answer raises the lower end past the middle. */
  lemma BracketsRaise(feasible: Vec -> bool, u: Vec, l: Vec, index: nat, limit: UInt32)
    requires Brackets(feasible, u, l) && index < |u| && limit < u[index]
    requires forall v: Vec | feasible(v) && Below(v, u) :: v[index] > limit
    ensures Brackets(feasible, u, l[index := limit + 1])
  {}

  // ----- the search -----

  method AssertUppers(solver: BoundSolver, upper: array<UInt32>)
    modifies solver`bounds
    ensures solver.bounds == old(solver.bounds) + UpperBounds(upper[..], upper.Length)
  {
    for i := 0 to upper.Length
      invariant solver.bounds == old(solver.bounds) + UpperBounds(upper[..], i)
    {
      solver.Assert(Bound(i, upper[i]));
    }
  }

  method Narrow(upper: array<UInt32>, values: Vec)
    requires |values| == upper.Length
    modifies upper
    ensures forall i | 0 <= i < upper.Length ::
      upper[i] == if values[i] < old(upper[i]) then values[i] else old(upper[i])
  {
    for i := 0 to upper.Length
      invariant forall t | 0 <= t < i :: upper[t] == if values[t] < old(upper[t]) then values[t] else old(upper[t])
      invariant forall t | i <= t < upper.Length :: upper[t] == old(upper[t])
    {
      if values[i] < upper[i] {
        upper[i] := values[i];
      }
    }
  }

  /** Bisects the first range that is still open. */
  method NewBound(solver: BoundSolver, upper: array<UInt32>, lower: array<UInt32>, limit0: UInt32)
    returns (someWork: bool, index: nat, limit: UInt32)
    requires Below(lower[..], upper[..])
    modifies solver`bounds
    ensures !someWork ==> upper[..] == lower[..] && solver.bounds == old(solver.bounds) && index == 0 && limit == limit0
    ensures someWork ==>
      && index < upper.Length && lower[index] < upper[index] && upper[..index] == lower[..index]
      && limit == Middle(upper[index], lower[index])
      && solver.bounds == old(solver.bounds) + [Bound(index, limit)]
  {
    someWork, index, limit := false, 0, limit0;
    for i := 0 to upper.Length
      invariant !someWork && index == 0 && limit == limit0 && solver.bounds == old(solver.bounds)
      invariant forall t | 0 <= t < i :: upper[t] == lower[t]
    {
      if lower[i] < upper[i] {
        limit := Middle(upper[i], lower[i]);
        index := i;
        solver.Assert(Bound(i, limit));
        someWork := true;
        break;
      }
    }
  }

  /** No value is above 2^31. */
  ghost predicate Low(v: Vec) {
    forall i | 0 <= i < |v| :: v[i] <= HALF
  }

  /** A feasible vector in the box that is above 2^31 somewhere can be halved there. */
  ghost predicate Halves(feasible: Vec -> bool, box: Vec) {
    forall u: Vec, i | feasible(u) && Below(u, box) && 0 <= i < |u| :: u[i] <= HALF || Halved(feasible, u, i)
  }

  ghost predicate Halved(feasible: Vec -> bool, u: Vec, i: nat)
    requires i < |u|
  {
    exists v: Vec :: feasible(v) && Below(v, u) && v[i] <= u[i] / 2
  }

  lemma HalvesInside(feasible: Vec -> bool, box: Vec, box': Vec)
    requires Halves(feasible, box) && Below(box', box)
    ensures Halves(feasible, box')
  {
    forall u: Vec, i | feasible(u) && Below(u, box') && 0 <= i < |u| ensures u[i] <= HALF || Halved(feasible, u, i) {
      assert Below(u, box);
    }
  }

  lemma LowHalves(feasible: Vec -> bool, box: Vec)
    requires Low(box)
    ensures Halves(feasible, box)
  {}

  /** No range has a sum of its ends that wraps around. */
  ghost predicate Calm(u: Vec, l: Vec) {
    |u| == |l| && forall i | 0 <= i < |u| :: u[i] <= HALF || l[i] == 0
  }

  /** The middle of an open range waits for its query. */
  ghost predicate Bisects(u: Vec, l: Vec, index: int, limit: UInt32) {
    0 <= index < |u| == |l| && l[index] < u[index] && limit == Middle(u[index], l[index])
  }

  /** What holds before every query of a pass; `pending` says that a bound was just added. */
  ghost predicate Ready(feasible: Vec -> bool, bounds: seq<Bound>, u: Vec, l: Vec, pending: bool, index: int,
      limit: UInt32) {
    && Brackets(feasible, u, l) && Open(feasible, u)
    && FrameMeans(bounds, u, pending, index, limit)
    && (pending ==> feasible(u) && Bisects(u, l, index, limit))
  }

  lemma SatNarrows(feasible: Vec -> bool, bounds: seq<Bound>, u: Vec, l: Vec, pending: bool, index: int,
      limit: UInt32, v: Vec)
    requires Ready(feasible, bounds, u, l, pending, index, limit)
    requires feasible(v) && |v| == |u| && Meets(v, bounds + UpperBounds(u, |u|))
    ensures Below(v, u) && Brackets(feasible, v, l)
    ensures FrameMeans(bounds + UpperBounds(u, |u|), v, false, 0, 0)
    ensures pending ==> Room(v, l) < Room(u, l)
    ensures Room(v, l) <= Room(u, l) && BitRoom(v, l) <= BitRoom(u, l)
  {
    QueryMeans(bounds, u, pending, index, limit, v);
    if pending { MiddleIsBelow(u[index], l[index]); }
    FrameAfterSat(bounds + UpperBounds(u, |u|), u, v);
    BracketsNarrow(feasible, u, l, v);
    assert Below(l, v);
    RoomShrinks(u, l, v, l);
    BitRoomShrinks(u, l, v, l);
  }

  /** What every round and every pass keeps, whatever the solver answers. */
  ghost predicate Keeps(feasible: Vec -> bool, u: Vec, l: Vec, u': Vec, l': Vec) {
    && Below(u', u)
    && (Low(l) ==> Low(l'))
    && (Calm(u, l) && Halves(feasible, u) ==> Calm(u', l') && Halves(feasible, u'))
  }

  lemma KeepsBox(feasible: Vec -> bool, u: Vec, l: Vec, u': Vec)
    requires Below(u', u) && |l| == |u|
    ensures Keeps(feasible, u, l, u', l)
  {
    if Halves(feasible, u) { HalvesInside(feasible, u, u'); }
  }

  lemma KeepsTrans(feasible: Vec -> bool, u: Vec, l: Vec, u': Vec, l': Vec, u'': Vec, l'': Vec)
    requires Keeps(feasible, u, l, u', l') && Keeps(feasible, u', l', u'', l'')
    ensures Keeps(feasible, u, l, u'', l'')
  {}

  lemma KeepsMeans(feasible: Vec -> bool, u: Vec, l: Vec, u': Vec, l': Vec)
    requires Keeps(feasible, u, l, u', l')
    ensures Below(u', u) && (Low(l) ==> Low(l'))
    ensures Calm(u, l) && Halves(feasible, u) ==> Calm(u', l') && Halves(feasible, u')
  {}

  lemma BelowTrans(a: Vec, b: Vec, c: Vec)
    requires Below(a, b) && Below(b, c)
    ensures Below(a, c)
  {}

  lemma BelowSelf(a: Vec)
    ensures Below(a, a)
  {}

  /** A range whose lower half was just refuted does not reach above 2^31, if such ranges can be halved. */
  lemma RefutedIsLow(feasible: Vec -> bool, u: Vec, l: Vec, index: int, limit: UInt32)
    requires Bisects(u, l, index, limit) && feasible(u) && Calm(u, l) && Halves(feasible, u)
    requires forall v: Vec | feasible(v) && Below(v, u) :: v[index] > limit
    ensures u[index] <= HALF && l[index] <= limit
  {
    MiddleIsBelow(u[index], l[index]);
    BelowSelf(u);
  }

  /** A refuted lower half takes a bit off its range. */
  lemma LosesBit(u: Vec, l: Vec, index: int, limit: UInt32)
    requires Bisects(u, l, index, limit) && Below(l, u) && u[index] <= HALF
    ensures Below(l, l[index := limit + 1]) && Below(l[index := limit + 1], u)
    ensures BitRoom(u, l[index := limit + 1]) < BitRoom(u, l)
  {
    MiddleHalves(u[index], l[index]);
    var l' := l[index := limit + 1];
    BitsMonotone(u[index] - l'[index], (u[index] - l[index]) / 2);
    BitRoomLoses(u, l, l', index);
  }

  lemma UnsatRaises(feasible: Vec -> bool, bounds: seq<Bound>, u: Vec, l: Vec, pending: bool, index: int, limit: UInt32)
    requires Ready(feasible, bounds, u, l, pending, index, limit)
    requires forall v: Vec | feasible(v) :: |v| == |u| && !Meets(v, bounds + UpperBounds(u, |u|))
    ensures !pending ==> !Satisfiable(feasible)
    ensures pending ==> Brackets(feasible, u, l[index := limit + 1]) && Keeps(feasible, u, l, u, l[index := limit + 1])
    ensures pending && Calm(u, l) && Halves(feasible, u) ==>
      Below(l, l[index := limit + 1]) && BitRoom(u, l[index := limit + 1]) < BitRoom(u, l)
  {
    forall v: Vec | feasible(v) ensures !(Below(v, u) && (pending ==> v[index] <= limit)) {
      QueryMeans(bounds, u, pending, index, limit, v);
    }
    if pending {
      MiddleIsBelow(u[index], l[index]);
      BracketsRaise(feasible, u, l, index, limit);
      if Calm(u, l) && Halves(feasible, u) {
        RefutedIsLow(feasible, u, l, index, limit);
        LosesBit(u, l, index, limit);
      }
    }
  }

  /** The answer to the next query, after the upper bounds are asserted. */
  ghost function NextAnswer(solver: BoundSolver, u: Vec): Answer
    reads solver`calls, solver`bounds
  {
    solver.decide(solver.calls, solver.bounds + UpperBounds(u, |u|))
  }

  /** One round of the inner loop. */
  method Round(solver: BoundSolver, upper: array<UInt32>, lower: array<UInt32>, ghost pending: bool, index0: int,
      limit0: UInt32)
    returns (sat: bool, someWork: bool, index: int, limit: UInt32)
    requires solver.Valid() && upper.Length == lower.Length == solver.num && upper != lower
    requires Satisfiable(solver.feasible) || index0 == -1
    requires Ready(solver.feasible, solver.bounds, upper[..], lower[..], pending, index0, limit0)
    modifies solver`bounds, solver`calls, upper, lower
    ensures sat ==>
      && Ready(solver.feasible, solver.bounds, upper[..], lower[..], someWork, index, limit)
      && solver.feasible(upper[..]) && lower[..] == old(lower[..])
      && (pending ==> Room(upper[..], lower[..]) < Room(old(upper[..]), old(lower[..])))
      && Room(upper[..], lower[..]) <= Room(old(upper[..]), old(lower[..]))
      && BitRoom(upper[..], lower[..]) <= BitRoom(old(upper[..]), old(lower[..]))
      && (!someWork ==> upper[..] == lower[..])
    ensures sat == old(NextAnswer(solver, upper[..])).Sat?
    ensures sat ==> upper[..] == old(NextAnswer(solver, upper[..])).values
    ensures !sat ==> someWork && index == index0 && upper[..] == old(upper[..])
    ensures !sat && !pending ==> !Satisfiable(solver.feasible) && lower[..] == old(lower[..])
    ensures !sat && pending ==> Brackets(solver.feasible, upper[..], lower[..])
    ensures Below(lower[..], upper[..])
    ensures Keeps(solver.feasible, old(upper[..]), old(lower[..]), upper[..], lower[..])
    ensures !sat && pending && Calm(old(upper[..]), old(lower[..])) && Halves(solver.feasible, old(upper[..])) ==>
      Below(old(lower[..]), lower[..]) && BitRoom(upper[..], lower[..]) < BitRoom(old(upper[..]), old(lower[..]))
    ensures Satisfiable(solver.feasible) ==> solver.feasible(upper[..])
  {
    hide FrameMeans, Brackets, Meets, Room, BitRoom, Open, UpperBounds, Low, Halves, Calm, Keeps, Below;
    someWork, index, limit := true, index0, limit0;
    ghost var u: Vec, l: Vec, frame := upper[..], lower[..], solver.bounds;
    AssertUppers(solver, upper);
    var ans := solver.Check();
    sat := ans.Sat?;
    if !sat {
      UnsatRaises(solver.feasible, frame, u, l, pending, index, limit);
      KeepsBox(solver.feasible, u, l, u);
      if index != -1 {
        lower[index] := limit + 1;
        assert lower[..] == l[index := limit + 1];
      }
      if pending { BelowOf(solver.feasible, u, lower[..]); } else { BelowOf(solver.feasible, u, l); }
      return;
    }
    SatNarrows(solver.feasible, frame, u, l, pending, index, limit, ans.values);
    KeepsBox(solver.feasible, u, l, ans.values);
    Narrow(upper, ans.values);
    assert upper[..] == ans.values;
    BelowOf(solver.feasible, upper[..], l);
    someWork, index, limit := NewBound(solver, upper, lower, limit);
    if someWork {
      FrameWithBound(frame + UpperBounds(u, |u|), upper[..], index, limit);
    }
    NowReady(solver.feasible, solver.bounds, upper[..], lower[..], someWork, index, limit);
  }

  lemma BelowOf(feasible: Vec -> bool, u: Vec, l: Vec)
    requires Brackets(feasible, u, l)
    ensures Below(l, u)
  {}

  lemma NowReady(feasible: Vec -> bool, bounds: seq<Bound>, u: Vec, l: Vec, pending: bool, index: int, limit: UInt32)
    requires Brackets(feasible, u, l) && feasible(u)
    requires if pending then FrameMeans(bounds, u, true, index, limit) && Bisects(u, l, index, limit)
             else FrameMeans(bounds, u, false, 0, 0)
    ensures Ready(feasible, bounds, u, l, pending, index, limit)
  {}

  /** Between a push and its pop: `sat` answers lower the box, one `unsat` answer raises a lower end. */
  method Pass(solver: BoundSolver, upper: array<UInt32>, lower: array<UInt32>, index0: int, limit0: UInt32)
    returns (someWork: bool, index: int, limit: UInt32)
    requires solver.Valid() && solver.bounds == [] && upper.Length == lower.Length == solver.num && upper != lower
    requires Brackets(solver.feasible, upper[..], lower[..]) && Open(solver.feasible, upper[..])
    requires Satisfiable(solver.feasible) || index0 == -1
    modifies solver, upper, lower
    ensures solver.bounds == [] && solver.marks == old(solver.marks)
    ensures Brackets(solver.feasible, upper[..], lower[..]) && Open(solver.feasible, upper[..])
    ensures Satisfiable(solver.feasible) || index == -1
    ensures Satisfiable(solver.feasible) ==> solver.feasible(upper[..])
    ensures !someWork ==> upper[..] == lower[..]
    ensures Keeps(solver.feasible, old(upper[..]), old(lower[..]), upper[..], lower[..])
    ensures (Satisfiable(solver.feasible) && someWork &&
             Calm(old(upper[..]), old(lower[..])) && Halves(solver.feasible, old(upper[..]))) ==>
      Below(old(lower[..]), lower[..]) && Below(lower[..], upper[..]) &&
      BitRoom(upper[..], lower[..]) < BitRoom(old(upper[..]), old(lower[..]))
    ensures old(NextAnswer(solver, upper[..])).Sat? ==> Below(upper[..], old(NextAnswer(solver, upper[..])).values)
    ensures !Satisfiable(solver.feasible) ==> someWork && upper[..] == old(upper[..]) && lower[..] == old(lower[..])
  {
    someWork, index, limit := true, index0, limit0;
    ghost var u: Vec, l: Vec, first := upper[..], lower[..], NextAnswer(solver, upper[..]);
    solver.Push();
    var checkIsSat := true;
    ghost var pending := false;
    StartsReady(solver.feasible, u, l, index, limit);
    BelowOf(solver.feasible, u, l);
    KeepsBox(solver.feasible, u, l, u);
    hide *;
    while checkIsSat && someWork
      invariant solver.marks == old(solver.marks) + [0]
      invariant |u| == |l| == upper.Length && Below(l, u)
      invariant checkIsSat ==> Ready(solver.feasible, solver.bounds, upper[..], lower[..], pending && someWork,
          index, limit)
      invariant Brackets(solver.feasible, upper[..], lower[..]) && Below(lower[..], upper[..])
      invariant Satisfiable(solver.feasible) && (pending || !checkIsSat) ==> solver.feasible(upper[..])
      invariant pending ==> Satisfiable(solver.feasible) && first.Sat? && Below(upper[..], first.values)
      invariant !checkIsSat ==> someWork
      invariant Keeps(solver.feasible, u, l, upper[..], lower[..])
      invariant !checkIsSat && Satisfiable(solver.feasible) && Calm(u, l) && Halves(solver.feasible, u) ==>
        Below(l, lower[..]) && BitRoom(upper[..], lower[..]) < BitRoom(u, l)
      invariant checkIsSat ==> lower[..] == l && BitRoom(upper[..], l) <= BitRoom(u, l)
      invariant !pending ==> index == index0 && someWork && upper[..] == u && lower[..] == l
      invariant !pending && checkIsSat ==> NextAnswer(solver, u) == first
      invariant !pending && !checkIsSat ==> first.Unsat? && !Satisfiable(solver.feasible)
      invariant !someWork ==> upper[..] == lower[..]
      decreases checkIsSat, Room(upper[..], lower[..]), !pending
    {
      ghost var before: Vec, low: Vec := upper[..], lower[..];
      var more, index', limit';
      checkIsSat, more, index', limit' := Round(solver, upper, lower, pending, index, limit);
      someWork, index, limit := more, index', limit';
      KeepsTrans(solver.feasible, u, l, before, low, upper[..], lower[..]);
      KeepsMeans(solver.feasible, u, l, before, low);
      if checkIsSat {
        FeasibleIsSatisfiable(solver.feasible, upper[..]);
        if pending { BelowTrans(upper[..], before, first.values); } else { BelowSelf(upper[..]); }
        pending := true;
        ReadyBrackets(solver.feasible, solver.bounds, upper[..], lower[..], someWork, index, limit);
      }
      BelowOf(solver.feasible, upper[..], lower[..]);
    }
    solver.Pop();
    StaysOpen(solver.feasible, u, upper[..]);
  }
  lemma StartsReady(feasible: Vec -> bool, u: Vec, l: Vec, index: int, limit: UInt32)
    requires Brackets(feasible, u, l) && Open(feasible, u)
    ensures Ready(feasible, [], u, l, false, index, limit)
  {}

  lemma ReadyBrackets(feasible: Vec -> bool, bounds: seq<Bound>, u: Vec, l: Vec, pending: bool, index: int,
      limit: UInt32)
    requires Ready(feasible, bounds, u, l, pending, index, limit)
    ensures Brackets(feasible, u, l)
  {}

  lemma StaysOpen(feasible: Vec -> bool, u: Vec, u': Vec)
    requires Open(feasible, u) && if Satisfiable(feasible) then feasible(u') else u' == u
    ensures Open(feasible, u')
  {}

  lemma FeasibleIsSatisfiable(feasible: Vec -> bool, v: Vec)
    requires feasible(v)
    ensures Satisfiable(feasible)
  {}

  /** No other feasible vector lies inside the box of `u`. */
  ghost predicate ParetoMinimal(feasible: Vec -> bool, u: Vec) {
    feasible(u) && forall v: Vec | feasible(v) && Below(v, u) :: v == u
  }

  lemma ClosedIsMinimal(feasible: Vec -> bool, u: Vec)
    requires Brackets(feasible, u, u) && feasible(u)
    ensures ParetoMinimal(feasible, u)
  {
    forall v: Vec | feasible(v) && Below(v, u) ensures v == u { assert Below(u, v); }
  }

  /** Where the search starts: no value is excluded. */
  ghost function Box(n: nat): Vec {
    seq(n, _ => MAX)
  }

  lemma StartsOpen(feasible: Vec -> bool, u: Vec, l: Vec)
    requires u == Box(|l|) && (forall i | 0 <= i < |l| :: l[i] == 0)
    requires forall v: Vec | feasible(v) :: |v| == |l|
    ensures Brackets(feasible, u, l) && Open(feasible, u) && Calm(u, l) && Low(l)
  {}

  // ----- the search, and when it ends -----

  ghost predicate IsOnly(feasible: Vec -> bool, x: Vec) {
    feasible(x) && forall v: Vec | feasible(v) :: v == x
  }

  ghost predicate NoneLow(feasible: Vec -> bool) {
    forall v: Vec | feasible(v) :: !Low(v)
  }

  /** There is a model, and either vectors that are not low can be halved or the first model is low. */
  ghost predicate Ends(feasible: Vec -> bool, num: nat, first: Answer) {
    Satisfiable(feasible) && (Halves(feasible, Box(num)) || (first.Sat? && Low(first.values)))
  }

  lemma EndsMeans(feasible: Vec -> bool, num: nat, first: Answer, u: Vec, l: Vec, u': Vec, l': Vec)
    requires Ends(feasible, num, first) && u == Box(num) && Calm(u, l) && Keeps(feasible, u, l, u', l')
    requires first.Sat? ==> Below(u', first.values)
    requires |l'| == |u'|
    ensures Calm(u', l') && Halves(feasible, u')
  {
    if first.Sat? && Low(first.values) { LowHalves(feasible, u'); }
  }

  /** A single feasible vector can be halved everywhere exactly when it is low. */
  lemma OnlyVector(solver: BoundSolver, x: Vec, first: Answer)
    requires solver.Valid() && IsOnly(solver.feasible, x)
    ensures if Low(x) then Ends(solver.feasible, solver.num, first) else NoneLow(solver.feasible)
  {}

  lemma EndsLow(feasible: Vec -> bool, u: Vec)
    requires ParetoMinimal(feasible, u) && Low(u)
    ensures !NoneLow(feasible)
  {}

  /** A gap across 2^31 does no harm: of {0, 2^32 - 1} the greater value can be halved. */
  lemma GapIsHalved(feasible: Vec -> bool)
    requires forall v: Vec :: feasible(v) <==> v == [0] || v == [MAX]
    ensures Halves(feasible, Box(1))
  {
    forall u: Vec, i | feasible(u) && Below(u, Box(1)) && 0 <= i < |u| ensures u[i] <= HALF || Halved(feasible, u, i) {
      var least: Vec := [0];
      assert feasible(least) && Below(least, u) && least[0] <= u[0] / 2;
    }
  }

  /** The search, where it ends for certain: with both ends equal to the values of a model that no other
      model undercuts. */
  method CheckSmall(solver: BoundSolver) returns (upper: array<UInt32>, lower: array<UInt32>)
    requires solver.Valid() && solver.bounds == []
    requires Ends(solver.feasible, solver.num, NextAnswer(solver, Box(solver.num)))
    modifies solver
    ensures upper[..] == lower[..] && Low(upper[..])
    ensures ParetoMinimal(solver.feasible, upper[..])
    ensures solver.bounds == [] && solver.marks == old(solver.marks)
  {
    upper := new UInt32[solver.num](_ => MAX);
    lower := new UInt32[solver.num](_ => 0);
    StartsOpen(solver.feasible, upper[..], lower[..]);
    assert upper[..] == Box(solver.num);
    ghost var first, started := NextAnswer(solver, Box(solver.num)), false;
    hide *;
    var someWork, index, limit := true, -1, 0;
    while someWork
      invariant fresh(upper) && fresh(lower)
      invariant upper.Length == lower.Length == solver.num && upper != lower
      invariant solver.bounds == [] && solver.marks == old(solver.marks)
      invariant Brackets(solver.feasible, upper[..], lower[..]) && Open(solver.feasible, upper[..])
      invariant Calm(upper[..], lower[..]) && Low(lower[..]) && Satisfiable(solver.feasible)
      invariant if started then Halves(solver.feasible, upper[..])
                else upper[..] == Box(solver.num) && NextAnswer(solver, upper[..]) == first
      invariant !someWork ==> started && upper[..] == lower[..] && solver.feasible(upper[..])
      decreases !started, someWork, BitRoom(upper[..], lower[..])
    {
      BelowOf(solver.feasible, upper[..], lower[..]);
      ghost var u: Vec, l: Vec := upper[..], lower[..];
      someWork, index, limit := Pass(solver, upper, lower, index, limit);
      KeepsMeans(solver.feasible, u, l, upper[..], lower[..]);
      BelowOf(solver.feasible, upper[..], lower[..]);
      if !started { EndsMeans(solver.feasible, solver.num, first, u, l, upper[..], lower[..]); }
      started := true;
    }
    ClosedIsMinimal(solver.feasible, upper[..]);
  }

  /** The search, stopped after so many passes: it can only end at a low vector, so it never ends when
      no feasible vector is low; it ends when every feasible vector can be halved where it is not low,
      and when the first model is low. */
  method CheckSmallUpTo(solver: BoundSolver, passes: nat)
    returns (someWork: bool, upper: array<UInt32>, lower: array<UInt32>)
    requires solver.Valid() && solver.bounds == []
    modifies solver
    ensures solver.bounds == [] && solver.marks == old(solver.marks)
    ensures !someWork ==> upper[..] == lower[..] && ParetoMinimal(solver.feasible, upper[..]) && Low(upper[..])
    ensures NoneLow(solver.feasible) ==> someWork
    ensures passes > 32 * solver.num + 1 ==>
      Ends(solver.feasible, solver.num, old(NextAnswer(solver, Box(solver.num)))) ==> !someWork
    ensures forall x: Vec | IsOnly(solver.feasible, x) && passes > 32 * solver.num + 1 :: someWork <==> !Low(x)
  {
    ghost var first := NextAnswer(solver, Box(solver.num));
    upper := new UInt32[solver.num](_ => MAX);
    lower := new UInt32[solver.num](_ => 0);
    StartsOpen(solver.feasible, upper[..], lower[..]);
    assert upper[..] == Box(solver.num);
    ghost var ends := Ends(solver.feasible, solver.num, first);
    hide *;
    someWork := true;
    var index, limit, done := -1, 0, 0;
    while someWork && done < passes
      invariant fresh(upper) && fresh(lower)
      invariant upper.Length == lower.Length == solver.num && upper != lower
      invariant solver.bounds == [] && solver.marks == old(solver.marks)
      invariant Brackets(solver.feasible, upper[..], lower[..]) && Open(solver.feasible, upper[..]) && Low(lower[..])
      invariant Satisfiable(solver.feasible) || index == -1
      invariant !someWork ==> upper[..] == lower[..] && solver.feasible(upper[..])
      invariant ends ==> Satisfiable(solver.feasible)
      invariant done == 0 ==> upper[..] == Box(solver.num) && Calm(upper[..], lower[..])
      invariant done == 0 ==> NextAnswer(solver, Box(solver.num)) == first
      invariant done <= passes && Below(lower[..], upper[..])
      invariant ends && done > 0 ==> Calm(upper[..], lower[..]) && Halves(solver.feasible, upper[..])
      invariant ends && done > 0 && someWork ==> BitRoom(upper[..], lower[..]) + done <= 32 * solver.num + 1
    {
      ghost var u: Vec, l: Vec := upper[..], lower[..];
      someWork, index, limit := Pass(solver, upper, lower, index, limit);
      KeepsMeans(solver.feasible, u, l, upper[..], lower[..]);
      BelowOf(solver.feasible, upper[..], lower[..]);
      if done == 0 {
        BitRoomBound(upper[..], lower[..]);
        if ends { EndsMeans(solver.feasible, solver.num, first, u, l, upper[..], lower[..]); }
      }
      done := done + 1;
    }
    if !someWork {
      ClosedIsMinimal(solver.feasible, upper[..]);
      EndsLow(solver.feasible, upper[..]);
    }
    forall x: Vec | IsOnly(solver.feasible, x) ensures if Low(x) then ends else NoneLow(solver.feasible) {
      OnlyVector(solver, x, first);
    }
  }

  /** Without a model the first pass changes nothing, so the loop around it never ends. */
  method PassWithoutModel(solver: BoundSolver, upper: array<UInt32>, lower: array<UInt32>, limit0: UInt32)
    returns (someWork: bool, index: int, limit: UInt32)
    requires solver.Valid() && solver.bounds == [] && upper.Length == lower.Length == solver.num && upper != lower
    requires Below(lower[..], upper[..]) && !Satisfiable(solver.feasible)
    modifies solver, upper, lower
    ensures someWork && index == -1
    ensures upper[..] == old(upper[..]) && lower[..] == old(lower[..]) && solver.bounds == []
  {
    someWork, index, limit := Pass(solver, upper, lower, -1, limit0);
  }
}
