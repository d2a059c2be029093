/** Comparison of two quantifier profiles: accumulation, two-pass merge, and the order of the report. */
module ProfileDiff {
  import opened MachineInt

  const MODULUS := 0x1_0000_0000

  type UInt32 = x: int | 0 <= x < MODULUS

  function ToUnsigned(x: int): UInt32 {
    x % MODULUS
  }

  function Max(a: UInt32, b: UInt32): UInt32 {
    if a < b then b else a
  }

  datatype Entry = Entry(instances: UInt32, generation: UInt32, cost: UInt32)

  type Profile = map<string, Entry>

  // ----- parse: the accumulation of one profile -----

  /** The fields of one profile line, as `atoi` reads them. */
  datatype Sample = Sample(qid: string, instances: Int32, generation: Int32, cost: Int32)

  ghost function TotalInstances(samples: seq<Sample>, qid: string): int {
    if samples == [] then 0 else
      var last := samples[|samples| - 1];
      TotalInstances(samples[..|samples| - 1], qid) + if last.qid == qid then last.instances else 0
  }

  /** `bound` is the largest value of the field over the samples of `qid`. */
  ghost predicate IsMax(samples: seq<Sample>, qid: string, field: Sample -> Int32, bound: UInt32) {
    && (forall s | s in samples && s.qid == qid :: ToUnsigned(field(s)) <= bound)
    && (bound == 0 || exists s | s in samples && s.qid == qid :: ToUnsigned(field(s)) == bound)
  }

  function Generation(): Sample -> Int32 { (s: Sample) => s.generation }

  function Cost(): Sample -> Int32 { (s: Sample) => s.cost }

  /** The entry sums up and maximizes over the samples of `q`. */
  ghost predicate Summarizes(samples: seq<Sample>, q: string, entry: Entry) {
    && entry.instances == TotalInstances(samples, q) % MODULUS
    && IsMax(samples, q, Generation(), entry.generation)
    && IsMax(samples, q, Cost(), entry.cost)
  }

  ghost predicate Accumulates(samples: seq<Sample>, data: Profile) {
    && (forall q :: q in data <==> exists s | s in samples :: s.qid == q)
    && forall q | q in data :: Summarizes(samples, q, data[q])
  }

  function Updated(entry: Entry, s: Sample): Entry {
    Entry(ToUnsigned(entry.instances + s.instances),
          Max(entry.generation, ToUnsigned(s.generation)),
          Max(entry.cost, ToUnsigned(s.cost)))
  }

  lemma {:induction false} NoInstances(samples: seq<Sample>, q: string)
    requires forall s | s in samples :: s.qid != q
    ensures TotalInstances(samples, q) == 0
  {
    if samples != [] { NoInstances(samples[..|samples| - 1], q); }
  }

  lemma MaxStep(samples: seq<Sample>, q: string, field: Sample -> Int32, bound: UInt32, s: Sample)
    requires IsMax(samples, q, field, bound)
    ensures IsMax(samples + [s], q, field, if s.qid == q then Max(bound, ToUnsigned(field(s))) else bound)
  {
    var all := samples + [s];
    assert forall x :: x in all <==> x in samples || x == s;
  }

  lemma TotalStep(samples: seq<Sample>, q: string, s: Sample)
    ensures TotalInstances(samples + [s], q) == TotalInstances(samples, q) + if s.qid == q then s.instances else 0
  {
    assert (samples + [s])[..|samples|] == samples;
  }

  lemma SumModulus(total: int, more: int)
    ensures ToUnsigned(total % MODULUS + more) == (total + more) % MODULUS
  {}

  lemma SummarizesStep(samples: seq<Sample>, q: string, entry: Entry, s: Sample)
    requires Summarizes(samples, q, entry)
    ensures Summarizes(samples + [s], q, if s.qid == q then Updated(entry, s) else entry)
  {
    TotalStep(samples, q, s);
    SumModulus(TotalInstances(samples, q), s.instances);
    MaxStep(samples, q, Generation(), entry.generation, s);
    MaxStep(samples, q, Cost(), entry.cost, s);
    hide ToUnsigned, Max, IsMax, TotalInstances;
    assert Generation()(s) == s.generation && Cost()(s) == s.cost;
  }

  lemma AccumulatesStep(samples: seq<Sample>, data: Profile, s: Sample, entry: Entry)
    requires Accumulates(samples, data)
    requires entry == if s.qid in data then data[s.qid] else Entry(0, 0, 0)
    ensures Accumulates(samples + [s], data[s.qid := Updated(entry, s)])
  {
    assert forall x :: x in samples + [s] <==> x in samples || x == s;
    if s.qid !in data {
      NoInstances(samples, s.qid);
      assert Summarizes(samples, s.qid, entry);
    }
    hide Summarizes, Updated;
    forall q | q in data || q == s.qid { SummarizesStep(samples, q, if q in data then data[q] else entry, s); }
  }

  lemma FieldsSummarized(samples: seq<Sample>, data: Profile)
    requires Accumulates(samples, data)
    ensures forall s | s in samples ::
      && s.qid in data && data[s.qid].instances == TotalInstances(samples, s.qid) % MODULUS
      && ToUnsigned(s.generation) <= data[s.qid].generation && ToUnsigned(s.cost) <= data[s.qid].cost
    ensures forall q | q in data ::
      && (data[q].generation == 0 ||
          exists s | s in samples && s.qid == q :: ToUnsigned(s.generation) == data[q].generation)
      && (data[q].cost == 0 || exists s | s in samples && s.qid == q :: ToUnsigned(s.cost) == data[q].cost)
  {
    hide TotalInstances;
    assert forall s: Sample :: Generation()(s) == s.generation && Cost()(s) == s.cost;
  }

  method Accumulate(samples: seq<Sample>) returns (data: Profile)
    ensures Accumulates(samples, data)
    ensures forall s | s in samples ::
      && s.qid in data && data[s.qid].instances == TotalInstances(samples, s.qid) % MODULUS
      && ToUnsigned(s.generation) <= data[s.qid].generation && ToUnsigned(s.cost) <= data[s.qid].cost
    ensures forall q | q in data ::
      && (data[q].generation == 0 ||
          exists s | s in samples && s.qid == q :: ToUnsigned(s.generation) == data[q].generation)
      && (data[q].cost == 0 || exists s | s in samples && s.qid == q :: ToUnsigned(s.cost) == data[q].cost)
  {
    data := map[];
    for i := 0 to |samples|
      invariant Accumulates(samples[..i], data)
    {
      var s := samples[i];
      var entry := if s.qid in data then data[s.qid] else Entry(0, 0, 0);
      AccumulatesStep(samples[..i], data, s, entry);
      assert samples[..i + 1] == samples[..i] + [s];
      data := data[s.qid := Updated(entry, s)];
    }
    assert samples[..|samples|] == samples;
    FieldsSummarized(samples, data);
  }

  // ----- diff: the merge of two profiles -----

  datatype DiffEntry = DiffEntry(instances: Int32, generation: Int32, cost: Int32, leftOnly: bool, rightOnly: bool)

  /** `(int)x`, and the negation of one. */
  function Minus(x: UInt32): Int32 {
    Wrap(0 - Wrap(x))
  }

  /** One field of the merge, from the values on the sides that have the quantifier. */
  function Field(inLeft: bool, inRight: bool, l: UInt32, r: UInt32): Int32 {
    if inLeft && inRight then Wrap(ToUnsigned(l - r)) else if inLeft then Wrap(l) else Minus(r)
  }

  function At(p: Profile, q: string): Entry {
    if q in p then p[q] else Entry(0, 0, 0)
  }

  /** The entry of a quantifier that occurs in at least one profile. */
  function Merged(left: Profile, right: Profile, q: string): DiffEntry {
    var l, r := At(left, q), At(right, q);
    DiffEntry(Field(q in left, q in right, l.instances, r.instances),
              Field(q in left, q in right, l.generation, r.generation),
              Field(q in left, q in right, l.cost, r.cost), q !in right, q !in left)
  }

  /** The two passes over the maps. */
  method Diff(left: Profile, right: Profile) returns (data: map<string, DiffEntry>)
    ensures data.Keys == left.Keys + right.Keys
    ensures forall q | q in data :: data[q] == Merged(left, right, q)
  {
    hide Wrap, ToUnsigned, Minus;
    data := map[];
    var rest := left.Keys;
    while rest != {}
      invariant rest <= left.Keys && data.Keys == left.Keys - rest
      invariant forall q | q in data :: data[q] == Merged(left, right, q)
    {
      var q :| q in rest;
      var l := left[q];
      if q in right {
        var r := right[q];
        data := data[q := DiffEntry(Wrap(ToUnsigned(l.instances - r.instances)),
            Wrap(ToUnsigned(l.generation - r.generation)),
                                    Wrap(ToUnsigned(l.cost - r.cost)), false, false)];
      } else {
        data := data[q := DiffEntry(Wrap(l.instances), Wrap(l.generation), Wrap(l.cost), true, false)];
      }
      rest := rest - {q};
    }
    rest := right.Keys;
    while rest != {}
      invariant rest <= right.Keys && data.Keys == left.Keys + (right.Keys - rest)
      invariant forall q | q in data :: data[q] == Merged(left, right, q)
    {
      var q :| q in rest;
      if q !in left {
        var r := right[q];
        data := data[q := DiffEntry(Minus(r.instances), Minus(r.generation), Minus(r.cost), false, true)];
      }
      rest := rest - {q};
    }
  }

  /** A difference of two counts, brought into the signed range by at most one turn. */
  function Turned(x: int): int {
    if x > HIGH then x - MODULUS else if x < LOW then x + MODULUS else x
  }

  lemma WrapTurns(x: int)
    requires -MODULUS < x < MODULUS
    ensures Wrap(x) == Turned(x) && Wrap(ToUnsigned(x)) == Turned(x)
  {
    if x < 0 {
      assert x % MODULUS == x + MODULUS;
    } else {
      assert x % MODULUS == x;
    }
  }

  lemma FieldTurns(inLeft: bool, inRight: bool, l: UInt32, r: UInt32)
    requires (!inLeft ==> l == 0) && (!inRight ==> r == 0)
    ensures Field(inLeft, inRight, l, r) == Turned(l - r)
  {
    hide Wrap, ToUnsigned;
    WrapTurns(l - r);
    WrapTurns(r);
    WrapTurns(0 - Turned(r));
  }

  /** A field is the difference modulo 2^32, with 0 for the side that lacks the quantifier; it is the
      true difference exactly when that fits in 32 bits. */
  lemma FieldIsDifference(inLeft: bool, inRight: bool, l: UInt32, r: UInt32)
    requires (!inLeft ==> l == 0) && (!inRight ==> r == 0)
    ensures Congruent(Field(inLeft, inRight, l, r), l - r)
    ensures Field(inLeft, inRight, l, r) == l - r <==> Fits(l - r)
  {
    hide Field;
    FieldTurns(inLeft, inRight, l, r);
  }

  ghost predicate Congruent(a: int, b: int) {
    (a - b) % MODULUS == 0
  }

  /** Only a difference of 2^31 is not negated, on whichever sides the quantifier occurs. */
  lemma FieldSwaps(inLeft: bool, inRight: bool, l: UInt32, r: UInt32)
    requires (!inLeft ==> l == 0) && (!inRight ==> r == 0)
    ensures Field(inRight, inLeft, r, l) == 0 - Field(inLeft, inRight, l, r) <==> Abs(l - r) != 0x8000_0000
  {
    hide Field;
    FieldTurns(inLeft, inRight, l, r);
    FieldTurns(inRight, inLeft, r, l);
  }

  lemma AtAbsent(p: Profile, q: string)
    ensures q !in p ==> At(p, q) == Entry(0, 0, 0)
  {}

  /** Comparing in the other direction swaps the flags and negates each delta that is not 2^31. */
  lemma SwapNegates(left: Profile, right: Profile, q: string)
    ensures var d, e, l, r := Merged(left, right, q), Merged(right, left, q), At(left, q), At(right, q);
            && e.leftOnly == d.rightOnly && e.rightOnly == d.leftOnly
            && (e.instances == 0 - d.instances <==> Abs(l.instances - r.instances) != 0x8000_0000)
            && (e.generation == 0 - d.generation <==> Abs(l.generation - r.generation) != 0x8000_0000)
            && (e.cost == 0 - d.cost <==> Abs(l.cost - r.cost) != 0x8000_0000)
  {
    hide Field, At;
    AtAbsent(left, q);
    AtAbsent(right, q);
    var l, r := At(left, q), At(right, q);
    FieldSwaps(q in left, q in right, l.instances, r.instances);
    FieldSwaps(q in left, q in right, l.generation, r.generation);
    FieldSwaps(q in left, q in right, l.cost, r.cost);
  }

  ghost function SumOver(qs: set<string>, f: string -> int): int {
    if qs == {} then 0 else
      var q :| q in qs;
      f(q) + SumOver(qs - {q}, f)
  }

  lemma {:induction false} SumOverRemove(qs: set<string>, f: string -> int, q: string)
    requires q in qs
    ensures SumOver(qs, f) == f(q) + SumOver(qs - {q}, f)
    decreases |qs|
  {
    var p :| p in qs && SumOver(qs, f) == f(p) + SumOver(qs - {p}, f);
    if p != q {
      SumOverRemove(qs - {p}, f, q);
      SumOverRemove(qs - {q}, f, p);
      assert qs - {p} - {q} == qs - {q} - {p};
    }
  }

  function InstancesIn(p: Profile): string -> int {
    (q: string) => At(p, q).instances
  }

  function DeltaIn(left: Profile, right: Profile): string -> int {
    (q: string) => Merged(left, right, q).instances
  }

  lemma {:induction false} SumOverDifference(qs: set<string>, d: string -> int, f: string -> int, g: string -> int)
    requires forall q :: Congruent(d(q), f(q) - g(q))
    ensures Congruent(SumOver(qs, d), SumOver(qs, f) - SumOver(qs, g))
    ensures (forall q | q in qs :: d(q) == f(q) - g(q)) ==> SumOver(qs, d) == SumOver(qs, f) - SumOver(qs, g)
    decreases |qs|
  {
    if qs != {} {
      var q :| q in qs;
      SumOverRemove(qs, d, q);
      SumOverRemove(qs, f, q);
      SumOverRemove(qs, g, q);
      SumOverDifference(qs - {q}, d, f, g);
      CongruentSum(d(q), f(q) - g(q), SumOver(qs - {q}, d), SumOver(qs - {q}, f) - SumOver(qs - {q}, g));
    }
  }

  lemma CongruentSum(a: int, b: int, c: int, d: int)
    requires Congruent(a, b) && Congruent(c, d)
    ensures Congruent(a + c, b + d)
  {}

  /** No instance difference leaves the signed 32-bit range. */
  ghost predicate DeltasFit(left: Profile, right: Profile) {
    forall q | q in left || q in right :: Fits(At(left, q).instances - At(right, q).instances)
  }

  /** The deltas of the instances add up to the difference of the totals: modulo 2^32 always, and truly
      when every difference fits. */
  lemma DeltasSum(left: Profile, right: Profile)
    ensures var deltas := SumOver(left.Keys + right.Keys, DeltaIn(left, right));
            var difference := SumOver(left.Keys, InstancesIn(left)) - SumOver(right.Keys, InstancesIn(right));
            Congruent(deltas, difference) && (DeltasFit(left, right) ==> deltas == difference)
  {
    hide SumOver, InstancesIn, DeltaIn, Congruent;
    var qs := left.Keys + right.Keys;
    forall q { DeltaIsDifference(left, right, q); }
    SumOverDifference(qs, DeltaIn(left, right), InstancesIn(left), InstancesIn(right));
    TotalOverMore(left, qs);
    TotalOverMore(right, qs);
  }

  lemma DeltaIsDifference(left: Profile, right: Profile, q: string)
    ensures Congruent(DeltaIn(left, right)(q), InstancesIn(left)(q) - InstancesIn(right)(q))
    ensures DeltaIn(left, right)(q) == InstancesIn(left)(q) - InstancesIn(right)(q) <==>
            Fits(At(left, q).instances - At(right, q).instances)
  {
    FieldIsDifference(q in left, q in right, At(left, q).instances, At(right, q).instances);
  }

  lemma TotalOverMore(p: Profile, qs: set<string>)
    requires p.Keys <= qs
    ensures SumOver(qs, InstancesIn(p)) == SumOver(p.Keys, InstancesIn(p))
  {
    AbsentAddNothing(p, qs - p.Keys);
    assert p.Keys + (qs - p.Keys) == qs;
    SumOverUnion(p.Keys, qs - p.Keys, InstancesIn(p));
  }

  lemma {:induction false} AbsentAddNothing(p: Profile, qs: set<string>)
    requires qs !! p.Keys
    ensures SumOver(qs, InstancesIn(p)) == 0
    decreases |qs|
  {
    if qs != {} {
      var q :| q in qs;
      SumOverRemove(qs, InstancesIn(p), q);
      AbsentAddNothing(p, qs - {q});
    }
  }

  lemma {:induction false} SumOverUnion(a: set<string>, b: set<string>, f: string -> int)
    requires a !! b
    ensures SumOver(a + b, f) == SumOver(a, f) + SumOver(b, f)
    decreases |a|
  {
    if a == {} {
      assert a + b == b;
    } else {
      var q :| q in a;
      SumOverRemove(a, f, q);
      SumOverRemove(a + b, f, q);
      assert a + b - {q} == a - {q} + b;
      SumOverUnion(a - {q}, b, f);
    }
  }

  // ----- the order of the report -----

  datatype Item = Item(qid: string, e: DiffEntry)

  datatype Key = Instances | Generations | Costs

  function Delta(k: Key, e: DiffEntry): Int32 {
    match k
    case Instances => e.instances
    case Generations => e.generation
    case Costs => e.cost
  }

  /** `std::string::operator<` */
  predicate StringLess(a: string, b: string) {
    b != "" && (a == "" || a[0] < b[0] || (a[0] == b[0] && StringLess(a[1..], b[1..])))
  }

  /** The first difference decides, and a proper prefix comes first. */
  lemma {:induction false} StringLessMeans(a: string, b: string)
    ensures StringLess(a, b) <==>
            exists i | 0 <= i <= |a| && i < |b| :: a[..i] == b[..i] && (i == |a| || a[i] < b[i])
  {
    assert a[..0] == b[..0];
    if a == "" || b == "" {
    } else if a[0] != b[0] {
      forall i | 0 < i <= |a| && i < |b| ensures a[..i] != b[..i] {
        assert a[..i][0] == a[0] && b[..i][0] == b[0];
      }
    } else {
      var a', b' := a[1..], b[1..];
      StringLessMeans(a', b');
      if i :| 0 <= i <= |a'| && i < |b'| && a'[..i] == b'[..i] && (i == |a'| || a'[i] < b'[i]) {
        assert a[..i + 1] == [a[0]] + a'[..i] && b[..i + 1] == [b[0]] + b'[..i];
        assert a[..i + 1] == b[..i + 1];
      }
      if i :| 0 <= i <= |a| && i < |b| && a[..i] == b[..i] && (i == |a| || a[i] < b[i]) {
        assert i > 0;
        assert a'[..i - 1] == a[..i][1..] && b'[..i - 1] == b[..i][1..];
      }
    }
  }

  lemma {:induction false} StringLessTrichotomy(a: string, b: string)
    ensures !(StringLess(a, b) && StringLess(b, a))
    ensures a == b <==> !StringLess(a, b) && !StringLess(b, a)
  {
    if a != "" && b != "" {
      StringLessTrichotomy(a[1..], b[1..]);
      assert a == [a[0]] + a[1..] && b == [b[0]] + b[1..];
    }
  }

  lemma {:induction false} StringLessTransitive(a: string, b: string, c: string)
    requires StringLess(a, b) && StringLess(b, c)
    ensures StringLess(a, c)
  {
    if a != "" && a[0] == b[0] == c[0] { StringLessTransitive(a[1..], b[1..], c[1..]); }
  }

  /** The comparator `diff_item_lt_*`, as it is written. */
  predicate Less(k: Key, l: Item, r: Item) {
    var lt, eq := Delta(k, l.e) < Delta(k, r.e), Delta(k, l.e) == Delta(k, r.e);
    if l.e.leftOnly then
      if r.e.leftOnly then (if eq then StringLess(l.qid, r.qid) else lt) else false
    else if l.e.rightOnly then
      if r.e.rightOnly then (if eq then StringLess(l.qid, r.qid) else lt) else true
    else if r.e.rightOnly then false
    else if r.e.leftOnly then true
    else lt
  }

  predicate OneSided(i: Item) {
    !(i.e.leftOnly && i.e.rightOnly)
  }

  function Rank(e: DiffEntry): nat {
    if e.rightOnly then 0 else if e.leftOnly then 2 else 1
  }

  /** By rank (right only, both, left only), then delta, then name. */
  predicate Before(k: Key, l: Item, r: Item) {
    || Rank(l.e) < Rank(r.e)
    || (Rank(l.e) == Rank(r.e) && Delta(k, l.e) < Delta(k, r.e))
    || (Rank(l.e) == Rank(r.e) && Delta(k, l.e) == Delta(k, r.e) && StringLess(l.qid, r.qid))
  }

  ghost predicate Equivalent(k: Key, l: Item, r: Item) {
    !Less(k, l, r) && !Less(k, r, l)
  }

  /** The comparator is a strict weak order on the items that the merge produces. */
  lemma StrictWeakOrder(k: Key, a: Item, b: Item, c: Item)
    requires OneSided(a) && OneSided(b) && OneSided(c)
    ensures !Less(k, a, a)
    ensures Less(k, a, b) && Less(k, b, c) ==> Less(k, a, c)
    ensures Equivalent(k, a, b) && Equivalent(k, b, c) ==> Equivalent(k, a, c)
  {
    StringLessTrichotomy(a.qid, a.qid);
    StringLessTrichotomy(a.qid, b.qid);
    StringLessTrichotomy(b.qid, c.qid);
    StringLessTrichotomy(a.qid, c.qid);
    if StringLess(a.qid, b.qid) && StringLess(b.qid, c.qid) { StringLessTransitive(a.qid, b.qid, c.qid); }
  }

  /** Items with both flags would break it; the merge never makes one. */
  lemma BothFlagsBreakTheOrder()
    ensures exists a, b, c :: OneSided(a) && OneSided(b) && !OneSided(c) &&
              Less(Instances, a, b) && Less(Instances, b, c) && !Less(Instances, a, c)
  {
    var a := Item("a", DiffEntry(2, 0, 0, false, true));
    var b := Item("b", DiffEntry(0, 0, 0, true, false));
    var c := Item("c", DiffEntry(1, 0, 0, true, true));
    assert Less(Instances, a, b) && Less(Instances, b, c) && !Less(Instances, a, c);
  }

  lemma MergedIsOneSided(left: Profile, right: Profile, q: string)
    requires q in left || q in right
    ensures OneSided(Item(q, Merged(left, right, q)))
    ensures Merged(left, right, q).leftOnly <==> q !in right
    ensures Merged(left, right, q).rightOnly <==> q !in left
  {}

  lemma BeforeIsStrict(k: Key, a: Item, b: Item, c: Item)
    ensures !(Before(k, a, b) && Before(k, b, a))
    ensures Before(k, a, b) && Before(k, b, c) ==> Before(k, a, c)
  {
    StringLessTrichotomy(a.qid, b.qid);
    if StringLess(a.qid, b.qid) && StringLess(b.qid, c.qid) { StringLessTransitive(a.qid, b.qid, c.qid); }
  }

  ghost predicate ByName(s: seq<Item>) {
    forall i, j | 0 <= i < j < |s| :: StringLess(s[i].qid, s[j].qid)
  }

  ghost predicate InOrder(k: Key, s: seq<Item>) {
    forall i, j | 0 <= i < j < |s| :: Before(k, s[i], s[j])
  }

  /** What `stable_sort` promises. */
  ghost predicate IsStableSort(k: Key, input: seq<Item>, output: seq<Item>) {
    && multiset(output) == multiset(input)
    && (forall i, j | 0 <= i < j < |output| :: !Less(k, output[j], output[i]))
    && forall i, j | 0 <= i < j < |output| && Equivalent(k, output[i], output[j]) ::
      Earlier(input, output[i], output[j])
  }

  ghost predicate Earlier(s: seq<Item>, a: Item, b: Item) {
    exists i, j :: 0 <= i < j < |s| && s[i] == a && s[j] == b
  }

  /** A stable sort of items in name order gives the order of `Before`. */
  lemma StableSortOrders(k: Key, input: seq<Item>, output: seq<Item>)
    requires ByName(input) && (forall x | x in input :: OneSided(x)) && IsStableSort(k, input, output)
    ensures InOrder(k, output)
  {
    forall i, j | 0 <= i < j < |output| ensures Before(k, output[i], output[j]) {
      assert output[i] in multiset(output) && output[j] in multiset(output);
      assert output[i] in input && output[j] in input;
      StringLessTrichotomy(output[i].qid, output[j].qid);
      if Equivalent(k, output[i], output[j]) {
        var a, b :| 0 <= a < b < |input| && input[a] == output[i] && input[b] == output[j];
        assert StringLess(input[a].qid, input[b].qid);
      }
    }
  }

  /** The first item of an ordered list comes before every other item. */
  lemma HeadIsFirst(k: Key, s: seq<Item>, x: Item)
    requires InOrder(k, s) && s != [] && x in multiset(s)
    ensures x == s[0] || Before(k, s[0], x)
  {
    var i :| 0 <= i < |s| && s[i] == x;
  }

  lemma SameHead(k: Key, s: seq<Item>, t: seq<Item>)
    requires InOrder(k, s) && InOrder(k, t) && multiset(s) == multiset(t) && s != []
    ensures t != [] && s[0] == t[0]
  {
    assert s[0] in multiset(t);
    assert t[0] in multiset(s);
    HeadIsFirst(k, s, t[0]);
    HeadIsFirst(k, t, s[0]);
    BeforeIsStrict(k, s[0], t[0], s[0]);
  }

  lemma Tail(k: Key, s: seq<Item>)
    requires InOrder(k, s) && s != []
    ensures InOrder(k, s[1..]) && multiset(s[1..]) == multiset(s) - multiset{s[0]}
    ensures s == [s[0]] + s[1..]
  {
    assert s == [s[0]] + s[1..];
  }

  lemma EmptyBag(t: seq<Item>)
    requires |multiset(t)| == 0
    ensures t == []
  {
    assert |multiset(t)| == |t|;
  }

  /** There is only one such order. */
  lemma {:induction false} OrderIsUnique(k: Key, s: seq<Item>, t: seq<Item>)
    requires InOrder(k, s) && InOrder(k, t) && multiset(s) == multiset(t)
    ensures s == t
    decreases |s|
  {
    hide *;
    if s == [] {
      EmptyBag(t);
    } else {
      SameHead(k, s, t);
      Tail(k, s);
      Tail(k, t);
      OrderIsUnique(k, s[1..], t[1..]);
    }
  }

  // ----- the report -----

  lemma {:induction false} LeastExists(qs: set<string>)
    requires qs != {}
    ensures exists q | q in qs :: forall p | p in qs && p != q :: StringLess(q, p)
    decreases |qs|
  {
    var q :| q in qs;
    var rest := qs - {q};
    if rest == {} {
      assert forall p | p in qs :: p == q || p in rest;
    } else {
      LeastExists(rest);
      var r :| r in rest && forall p | p in rest && p != r :: StringLess(r, p);
      StringLessTrichotomy(q, r);
      var least := if StringLess(q, r) then q else r;
      forall p | p in qs && p != least ensures StringLess(least, p) {
        assert p == q || p in rest;
        if StringLess(q, r) && p != r { StringLessTransitive(q, r, p); }
      }
    }
  }

  /** The entries of the map in the order in which a `std::map` is iterated. */
  method Flatten(data: map<string, DiffEntry>) returns (flat: seq<Item>)
    ensures ByName(flat)
    ensures forall x :: x in flat <==> x.qid in data && data[x.qid] == x.e
  {
    flat := [];
    var rest := data.Keys;
    while rest != {}
      invariant rest <= data.Keys && ByName(flat)
      invariant forall x :: x in flat <==> x.qid in data.Keys - rest && data[x.qid] == x.e
      invariant forall x, q | x in flat && q in rest :: StringLess(x.qid, q)
    {
      LeastExists(rest);
      var q :| q in rest && forall p | p in rest && p != q :: StringLess(q, p);
      flat := flat + [Item(q, data[q])];
      rest := rest - {q};
    }
  }

  function Insert(k: Key, s: seq<Item>, x: Item): seq<Item> {
    if s == [] || Less(k, x, s[0]) then [x] + s else [s[0]] + Insert(k, s[1..], x)
  }

  lemma {:induction false} InsertKeeps(k: Key, s: seq<Item>, x: Item)
    ensures multiset(Insert(k, s, x)) == multiset(s) + multiset{x}
    ensures forall y :: y in Insert(k, s, x) <==> y == x || y in s
  {
    if s != [] && !Less(k, x, s[0]) {
      InsertKeeps(k, s[1..], x);
      assert s == [s[0]] + s[1..];
    }
  }

  lemma InOrderFront(k: Key, h: Item, s: seq<Item>)
    requires InOrder(k, s) && forall y | y in s :: Before(k, h, y)
    ensures InOrder(k, [h] + s)
  {}

  lemma {:induction false} InsertInOrder(k: Key, s: seq<Item>, x: Item)
    requires InOrder(k, s) && OneSided(x) && forall y | y in s :: OneSided(y) && StringLess(y.qid, x.qid)
    ensures InOrder(k, Insert(k, s, x))
  {
    if s == [] || Less(k, x, s[0]) {
      forall y | y in s ensures Before(k, x, y) {
        StringLessTrichotomy(x.qid, s[0].qid);
        assert Before(k, x, s[0]);
        HeadIsFirst(k, s, y);
        BeforeIsStrict(k, x, s[0], y);
      }
      InOrderFront(k, x, s);
    } else {
      InsertInOrder(k, s[1..], x);
      InsertKeeps(k, s[1..], x);
      assert s[0] in s;
      forall y | y in Insert(k, s[1..], x) ensures Before(k, s[0], y) {
        if y != x { HeadIsFirst(k, s, y); var i :| 1 <= i < |s| && s[i] == y; }
      }
      InOrderFront(k, s[0], Insert(k, s[1..], x));
    }
  }

  lemma OrderIsStable(k: Key, input: seq<Item>, output: seq<Item>)
    requires ByName(input) && (forall x | x in input :: OneSided(x))
    requires InOrder(k, output) && multiset(output) == multiset(input)
    ensures IsStableSort(k, input, output)
  {
    forall i, j | 0 <= i < j < |output|
      ensures !Less(k, output[j], output[i])
      ensures Equivalent(k, output[i], output[j]) ==> Earlier(input, output[i], output[j])
    {
      assert output[i] in multiset(output) && output[j] in multiset(output);
      var a :| 0 <= a < |input| && input[a] == output[i];
      var b :| 0 <= b < |input| && input[b] == output[j];
      assert Before(k, output[i], output[j]);
      StringLessTrichotomy(output[i].qid, output[j].qid);
      assert OneSided(input[a]) && OneSided(input[b]);
      assert b < a ==> StringLess(input[b].qid, input[a].qid);
      if Equivalent(k, output[i], output[j]) {
        assert StringLess(input[a].qid, input[b].qid);
        assert a < b;
      }
    }
  }

  /** Any stable sort gives the one list in order; an insertion stands for the library's. */
  method StableSort(k: Key, input: seq<Item>) returns (output: seq<Item>)
    requires ByName(input) && forall x | x in input :: OneSided(x)
    ensures IsStableSort(k, input, output)
    ensures InOrder(k, output)
  {
    output := [];
    for i := 0 to |input|
      invariant InOrder(k, output) && multiset(output) == multiset(input[..i])
      invariant forall y :: y in output <==> y in input[..i]
    {
      assert input[..i + 1] == input[..i] + [input[i]];
      InsertInOrder(k, output, input[i]);
      InsertKeeps(k, output, input[i]);
      output := Insert(k, output, input[i]);
    }
    assert input[..|input|] == input;
    OrderIsStable(k, input, output);
  }

  /** The difference of the counts on the two sides, with 0 for a side that lacks the quantifier. */
  ghost predicate IsDifference(delta: int, l: int, r: int) {
    Congruent(delta, l - r) && (delta == l - r <==> Fits(l - r))
  }

  /** What an item says about the two profiles. */
  ghost predicate Compares(left: Profile, right: Profile, x: Item) {
    && (x.qid in left || x.qid in right)
    && (x.e.leftOnly <==> x.qid !in right) && (x.e.rightOnly <==> x.qid !in left)
    && IsDifference(x.e.instances, At(left, x.qid).instances, At(right, x.qid).instances)
    && IsDifference(x.e.generation, At(left, x.qid).generation, At(right, x.qid).generation)
    && IsDifference(x.e.cost, At(left, x.qid).cost, At(right, x.qid).cost)
  }

  lemma MergedCompares(left: Profile, right: Profile, q: string)
    requires q in left || q in right
    ensures Compares(left, right, Item(q, Merged(left, right, q)))
  {
    hide Field, Congruent;
    var l, r := At(left, q), At(right, q);
    FieldIsDifference(q in left, q in right, l.instances, r.instances);
    FieldIsDifference(q in left, q in right, l.generation, r.generation);
    FieldIsDifference(q in left, q in right, l.cost, r.cost);
  }

  /** Right only, then both, then left only. */
  ghost predicate SidesInOrder(left: Profile, right: Profile, p: string, q: string) {
    p !in left || q !in right || (p in right && q in left)
  }

  ghost predicate SameSides(left: Profile, right: Profile, p: string, q: string) {
    (p in left <==> q in left) && (p in right <==> q in right)
  }

  /** Items of the same sides are in the order of one delta, and of their names where it is equal. */
  ghost predicate DeltasInOrder(x: int, p: string, y: int, q: string) {
    x < y || (x == y && StringLess(p, q))
  }

  /** The option decides which delta counts. */
  ghost predicate Sorted(left: Profile, right: Profile, k: Key, x: Item, y: Item) {
    && SidesInOrder(left, right, x.qid, y.qid)
    && (SameSides(left, right, x.qid, y.qid) ==>
          match k
          case Instances => DeltasInOrder(x.e.instances, x.qid, y.e.instances, y.qid)
          case Generations => DeltasInOrder(x.e.generation, x.qid, y.e.generation, y.qid)
          case Costs => DeltasInOrder(x.e.cost, x.qid, y.e.cost, y.qid))
  }

  lemma BeforeMeans(left: Profile, right: Profile, k: Key, x: Item, y: Item)
    requires Compares(left, right, x) && Compares(left, right, y) && Before(k, x, y)
    ensures Sorted(left, right, k, x, y)
  {
    hide IsDifference;
  }

  /** The report: every quantifier of either profile once, in the order of `Before`. */
  method Report(left: Profile, right: Profile, k: Key) returns (report: seq<Item>)
    ensures InOrder(k, report)
    ensures forall x :: x in report <==> (x.qid in left || x.qid in right) && x.e == Merged(left, right, x.qid)
    ensures forall x | x in report :: Compares(left, right, x)
    ensures forall i, j | 0 <= i < j < |report| :: Sorted(left, right, k, report[i], report[j])
  {
    hide Merged, Compares, Sorted;
    var data := Diff(left, right);
    var flat := Flatten(data);
    forall x | x in flat ensures OneSided(x) { MergedIsOneSided(left, right, x.qid); }
    report := StableSort(k, flat);
    forall x ensures x in report <==> x in flat {
      assert x in report <==> x in multiset(report);
      assert x in flat <==> x in multiset(flat);
    }
    forall x | x in report ensures Compares(left, right, x) { MergedCompares(left, right, x.qid); }
    forall i, j | 0 <= i < j < |report| ensures Sorted(left, right, k, report[i], report[j]) {
      assert report[i] in report && report[j] in report;
      BeforeMeans(left, right, k, report[i], report[j]);
    }
  }
}
