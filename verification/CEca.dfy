/** The event-condition-action machine m183_LTL_CTL in C, over signed 32-bit globals. */
module CEca {
  import opened MachineInt

  /** The globals a1504052271, a355441369 and a553774011. */
  datatype State = State(x: int, y: int, v: int)

  datatype Reaction = Accept(next: State, output: int) | Reject

  const START := State(140, 296, 4)

  // ----- one reaction over the integers, as a decision tree -----

  function Handler1(st: State, input: int): Reaction {
    if input == 56 then
      var y := Rem((((Rem(Rem((st.y * st.x), 14999), 95) + 212) - 3724) * 5), 95) + 250;
      var x := (((Rem(Rem((st.x * y), 14999), 12) + 146) * 1) + 26865) - 26866;
      Accept(st.(y := y, x := x), 64)
    else if input == 57 then
      var x := (((Rem(Rem((st.x * st.y), 14999), 105) + 27) - 4968) + 11739) - 6772;
      Accept(st.(x := x, v := 7), 60)
    else Reject
  }

  function Handler2(st: State, input: int): Reaction {
    if input == 57 then
      Accept(st.(v := 9), 60)
    else if input == 56 then
      var y := (Rem(((st.x * st.x) * 1), 48) + 68) * 1;
      var x := (((st.x * y) + 12704) + 528) + 896;
      Accept(st.(y := y, x := x), 64)
    else Reject
  }

  function Handler3(st: State, input: int): Reaction {
    if input == 59 then
      var x := (((Rem(st.x, 12) + 146) * 1) - 18935) + 18934;
      var y := (Rem(Quot((x * x), 5), 95) + 164) - 33;
      Accept(st.(x := x, y := y), 60)
    else Reject
  }

  function Handler4(st: State, input: int): Reaction {
    if input == 56 then
      var y := (((st.x * st.x) + 10765) + 1445) + 189;
      var x := Rem((Quot((Rem((st.x * y), 14999) - 8929), 5) * 5), 12) + 145;
      Accept(st.(y := y, x := x), 63)
    else Reject
  }

  function Handler5(st: State, input: int): Reaction {
    if input == 56 then
      var x := Quot(Quot(((st.x + 9836) * 10), 9), 5);
      var y := Quot(((Rem(Rem((x * x), 14999), 48) + 50) * 9), 10) - 18;
      Accept(st.(x := x, y := y), 66)
    else Reject
  }

  function Handler6(st: State, input: int): Reaction {
    if input == 57 then
      var x := (Quot((Rem(Rem((st.x * st.y), 14999), 105) - 14), 5) - 24176) + 24226;
      Accept(st.(x := x, v := 4), 63)
    else if input == 58 then
      Accept(st, 64)
    else if input == 55 then
      var x := (Quot((Rem(Rem((st.x * st.y), 14999), 105) + 4), 5) + 5260) - 5306;
      Accept(st.(x := x, v := 2), 62)
    else Reject
  }

  function Handler7(st: State, input: int): Reaction {
    if input == 59 then
      var y := Rem(((Rem(Rem((st.y * st.x), 14999), 95) + 212) * 5), 95) + 169;
      Accept(st.(y := y), 64)
    else Reject
  }

  function Handler8(st: State, input: int): Reaction {
    if input == 57 then
      Accept(st, 65)
    else if input == 58 then
      var x := Quot(((Quot(((Rem((st.x * st.y), 14999) - 19076) * 10), 9) + 29218) * (-1)), 10);
      var y := (((Rem((st.y * x), 14999) + 17432) * 1) - 12283) + 19411;
      Accept(st.(x := x, y := y), 61)
    else Reject
  }

  function Step(st: State, input: int): Reaction {
    if st.x <= -80 then
      if 308 < st.y then Handler1(st, input) else Reject
    else if st.x <= 132 then
      if st.v == 2 then Handler2(st, input)
      else if st.v == 4 then Handler3(st, input)
      else if st.v == 7 then Handler4(st, input)
      else if st.v == 9 then Handler5(st, input)
      else Reject
    else if st.x <= 158 then
      if 116 < st.y <= 308 then Handler6(st, input)
      else if 308 < st.y then Handler7(st, input)
      else Reject
    else
      if 19 < st.y <= 116 then Handler8(st, input) else Reject
  }

  // ----- the eight modes -----

  datatype Mode = M1 | M2 | M3 | M4 | M5 | M6 | M7 | M8

  predicate InMode(st: State, m: Mode) {
    match m
    case M1 => -2468 <= st.x <= -802 && 9562 <= st.y <= 24560
    case M2 => -46 <= st.x <= -25 && st.v == 2
    case M3 => 48 <= st.x <= 68 && st.v == 4
    case M4 => -78 <= st.x <= 26 && st.v == 7
    case M5 => -46 <= st.x <= -25 && st.v == 9
    case M6 => 134 <= st.x <= 156 && 131 <= st.y <= 296
    case M7 => 134 <= st.x <= 156 && 12399 <= st.y <= 18483
    case M8 => 2175 <= st.x <= 12428 && 27 <= st.y <= 115
  }

  datatype Move = Go(mode: Mode, output: int) | Stay

  /** The Mealy machine over the modes. */
  function Delta(m: Mode, input: int): Move {
    match m
    case M1 => if input == 56 then Go(M6, 64) else if input == 57 then Go(M4, 60) else Stay
    case M2 => if input == 57 then Go(M5, 60) else if input == 56 then Go(M8, 64) else Stay
    case M3 => if input == 59 then Go(M6, 60) else Stay
    case M4 => if input == 56 then Go(M7, 63) else Stay
    case M5 => if input == 56 then Go(M8, 66) else Stay
    case M6 =>
      if input == 57 then Go(M3, 63)
      else if input == 58 then Go(M6, 64)
      else if input == 55 then Go(M2, 62) else Stay
    case M7 => if input == 59 then Go(M6, 64) else Stay
    case M8 => if input == 57 then Go(M8, 65) else if input == 58 then Go(M1, 61) else Stay
  }

  ghost predicate Matches(r: Reaction, move: Move) {
    match move
    case Stay => r == Reject
    case Go(m, output) => r.Accept? && r.output == output && InMode(r.next, m)
  }

  /** The guards under which the cascade calls the handler of a mode. */
  predicate Guard(st: State, m: Mode) {
    match m
    case M1 => st.x <= -80 && 308 < st.y
    case M2 => -80 < st.x <= 132 && st.v == 2
    case M3 => -80 < st.x <= 132 && st.v == 4
    case M4 => -80 < st.x <= 132 && st.v == 7
    case M5 => -80 < st.x <= 132 && st.v == 9
    case M6 => 132 < st.x <= 158 && 116 < st.y <= 308
    case M7 => 132 < st.x <= 158 && 308 < st.y
    case M8 => 158 < st.x && 19 < st.y <= 116
  }

  /** In its mode a state opens the guards of its handler and of no other, so it is in no other mode. */
  lemma OnlyHandler(st: State, m: Mode, other: Mode)
    requires InMode(st, m)
    ensures Guard(st, other) <==> other == m
    ensures InMode(st, other) ==> other == m
  {}

  function HandlerOf(m: Mode, st: State, input: int): Reaction {
    match m
    case M1 => Handler1(st, input)
    case M2 => Handler2(st, input)
    case M3 => Handler3(st, input)
    case M4 => Handler4(st, input)
    case M5 => Handler5(st, input)
    case M6 => Handler6(st, input)
    case M7 => Handler7(st, input)
    case M8 => Handler8(st, input)
  }

  /** In any state, in a mode or not, the guards of at most one handler are open, and that handler reacts. */
  lemma StepByGuards(st: State, m: Mode, other: Mode, input: int)
    requires Guard(st, m)
    ensures Guard(st, other) <==> other == m
    ensures Step(st, input) == HandlerOf(m, st, input)
  {
    hide Handler1, Handler2, Handler3, Handler4, Handler5, Handler6, Handler7, Handler8;
  }

  lemma NoGuardRejects(st: State, input: int)
    requires forall m :: !Guard(st, m)
    ensures Step(st, input) == Reject
  {
    hide Handler1, Handler2, Handler3, Handler4, Handler5, Handler6, Handler7, Handler8;
    assert !Guard(st, M1) && !Guard(st, M2) && !Guard(st, M3) && !Guard(st, M4);
    assert !Guard(st, M5) && !Guard(st, M6) && !Guard(st, M7) && !Guard(st, M8);
  }

  /** The guards alone do not prevent overflow: the first handler multiplies out of range here. */
  lemma GuardsAllowOverflow()
    ensures exists st :: Guard(st, M1) && Fits(st.x) && Fits(st.y) && !Fits(st.y * st.x)
  {
    var st := State(-80000, 80000, 0);
    assert Guard(st, M1) && !Fits(st.y * st.x);
  }

  lemma Simulates1(st: State, input: int)
    requires InMode(st, M1)
    ensures Matches(Step(st, input), Delta(M1, input))
  {
    hide Rem;
    ProductBounds(st.y, -st.x, 9562, 24560, 802, 2468);
    assert st.y * (-st.x) == -(st.y * st.x);
    assert st.y * (-st.x) == -(st.x * st.y);
    var y := Handler1(st, 56).next.y;
    ProductBounds(y, -st.x, 155, 250, 802, 2468);
    assert y * (-st.x) == -(st.x * y);
  }

  lemma Simulates2(st: State, input: int)
    requires InMode(st, M2)
    ensures Matches(Step(st, input), Delta(M2, input))
  {
    hide Rem;
    ProductBounds(-st.x, -st.x, 25, 46, 25, 46);
    assert (-st.x) * (-st.x) == st.x * st.x;
    var y := Handler2(st, 56).next.y;
    ProductBounds(-st.x, y, 25, 46, 68, 115);
    assert (-st.x) * y == -(st.x * y);
  }

  lemma Simulates3(st: State, input: int)
    requires InMode(st, M3)
    ensures Matches(Step(st, input), Delta(M3, input))
  {
    hide Rem;
    var x := Handler3(st, 59).next.x;
    ProductBounds(x, x, 145, 156, 145, 156);
  }

  lemma Simulates4(st: State, input: int)
    requires InMode(st, M4)
    ensures Matches(Step(st, input), Delta(M4, input))
  {
    hide Rem;
    ProductBounds(Abs(st.x), Abs(st.x), 0, 78, 0, 78);
    assert Abs(st.x) * Abs(st.x) == st.x * st.x;
  }

  lemma Simulates5(st: State, input: int)
    requires InMode(st, M5)
    ensures Matches(Step(st, input), Delta(M5, input))
  {
    hide Rem;
    var x := Handler5(st, 56).next.x;
    ProductBounds(x, x, 2175, 2180, 2175, 2180);
  }

  lemma Simulates6(st: State, input: int)
    requires InMode(st, M6)
    ensures Matches(Step(st, input), Delta(M6, input))
  {
    hide Rem;
    ProductBounds(st.x, st.y, 134, 156, 131, 296);
  }

  lemma Simulates7(st: State, input: int)
    requires InMode(st, M7)
    ensures Matches(Step(st, input), Delta(M7, input))
  {
    hide Rem;
    ProductBounds(st.y, st.x, 12399, 18483, 134, 156);
  }

  lemma Simulates8(st: State, input: int)
    requires InMode(st, M8)
    ensures Matches(Step(st, input), Delta(M8, input))
  {
    hide Rem;
    ProductBounds(st.x, st.y, 2175, 12428, 27, 115);
    var x := Handler8(st, 58).next.x;
    ProductBounds(st.y, -x, 27, 115, 802, 2468);
    assert st.y * (-x) == -(st.y * x);
  }

  lemma Quotients8(r: int)
    requires 0 <= r <= 14998
    ensures -21196 <= Quot((r - 19076) * 10, 9) <= -4531
    ensures -2468 <= Quot((Quot((r - 19076) * 10, 9) + 29218) * -1, 10) <= -802
  {}

  /** One step of the machine in a mode is one move of the Mealy machine. */
  lemma StepSimulates(st: State, m: Mode, input: int)
    requires InMode(st, m)
    ensures Matches(Step(st, input), Delta(m, input))
  {
    hide Step, Delta;
    match m
    case M1 => Simulates1(st, input);
    case M2 => Simulates2(st, input);
    case M3 => Simulates3(st, input);
    case M4 => Simulates4(st, input);
    case M5 => Simulates5(st, input);
    case M6 => Simulates6(st, input);
    case M7 => Simulates7(st, input);
    case M8 => Simulates8(st, input);
  }

  // ----- the values written -----

  /** What the handlers of the modes write, with the division of the integers, which leaves no negative remainder. */
  function Written(m: Mode, st: State, input: int): State {
    match m
    case M1 =>
      if input == 56 then st.(y := Written1Y(st.x, st.y), x := 145 - -st.x * Written1Y(st.x, st.y) % 14999 % 12)
      else st.(x := 26 - -st.x * st.y % 14999 % 105, v := 7)
    case M2 =>
      if input == 57 then st.(v := 9)
      else var y := st.x * st.x % 48 + 68; st.(y := y, x := st.x * y + 14128)
    case M3 => var x := st.x % 12 + 145; st.(x := x, y := x * x / 5 % 95 + 131)
    case M4 => var y := st.x * st.x + 12399; st.(y := y, x := Written4X(st.x * y))
    case M5 => var x := 10 * (st.x + 9836) / 9 / 5; st.(x := x, y := 9 * (x * x % 14999 % 48 + 50) / 10 - 18)
    case M6 =>
      var r := st.x * st.y % 14999 % 105;
      if input == 57 then st.(x := 50 + (if r < 14 then -((14 - r) / 5) else (r - 14) / 5), v := 4)
      else if input == 55 then st.(x := (r + 4) / 5 - 46, v := 2) else st
    case M7 => st.(y := 5 * (st.x * st.y % 14999 % 95 + 212) % 95 + 169)
    case M8 =>
      if input == 57 then st
      else var x := Written8X(st.x * st.y % 14999); st.(x := x, y := 24560 - -x * st.y % 14999)
  }

  function Written1Y(x: int, y: int): int {
    250 - 5 * (3512 + -x * y % 14999 % 95) % 95
  }

  /** The remainder of the product takes its sign, and so does the last remainder. */
  function Written4X(product: int): int {
    var a := (if product < 0 then -(-product % 14999) else product % 14999) - 8929;
    145 + if a < 0 then -(5 * (-a / 5) % 12) else 5 * (a / 5) % 12
  }

  function Written8X(r: int): int {
    -((29218 - 10 * (19076 - r) / 9) / 10)
  }

  lemma WritesInMode(st: State, m: Mode, input: int)
    requires InMode(st, m)
    ensures var r := Step(st, input); r.Accept? ==> r.next == Written(m, st, input)
  {
    hide Step, Written;
    match m
    case M1 => Writes1(st, input);
    case M2 => Writes2(st, input);
    case M3 => Writes3(st, input);
    case M4 => Writes4(st, input);
    case M5 => Writes5(st, input);
    case M6 => Writes6(st, input);
    case M7 => Writes7(st, input);
    case M8 => Writes8(st, input);
  }

  lemma Writes1(st: State, input: int)
    requires InMode(st, M1)
    ensures var r := Step(st, input); r.Accept? ==> r.next == Written(M1, st, input)
  {
    NegativeProduct(st.y, -st.x);
    var y := Written1Y(st.x, st.y);
    if input == 56 {
      assert Handler1(st, 56).next.y == y;
      NegativeProduct(y, -st.x);
    }
  }

  lemma NegativeProduct(a: int, b: int)
    requires a > 0 && b > 0
    ensures a * b == b * a > 0 && a * (-b) == (-b) * a == -(a * b)
    ensures forall k | k > 0 :: Rem(a * (-b), k) == -(a * b % k)
  {}

  lemma Writes2(st: State, input: int)
    requires InMode(st, M2)
    ensures var r := Step(st, input); r.Accept? ==> r.next == Written(M2, st, input)
  {
    ProductBounds(-st.x, -st.x, 25, 46, 25, 46);
    assert (-st.x) * (-st.x) == st.x * st.x;
  }

  lemma Writes3(st: State, input: int)
    requires InMode(st, M3)
    ensures var r := Step(st, input); r.Accept? ==> r.next == Written(M3, st, input)
  {
    var x := st.x % 12 + 145;
    ProductBounds(x, x, 145, 156, 145, 156);
  }

  lemma Writes4(st: State, input: int)
    requires InMode(st, M4)
    ensures var r := Step(st, input); r.Accept? ==> r.next == Written(M4, st, input)
  {
    var y := st.x * st.x + 12399;
    if input == 56 {
      assert Handler4(st, 56).next.y == y;
      Remainder4(st.x * y);
    }
  }

  lemma Remainder4(product: int)
    ensures Rem(Quot(Rem(product, 14999) - 8929, 5) * 5, 12) + 145 == Written4X(product)
  {}

  lemma Writes5(st: State, input: int)
    requires InMode(st, M5)
    ensures var r := Step(st, input); r.Accept? ==> r.next == Written(M5, st, input)
  {
    Quotients5(st.x);
    var x := 10 * (st.x + 9836) / 9 / 5;
    ProductBounds(x, x, 2175, 2180, 2175, 2180);
  }

  lemma Writes6(st: State, input: int)
    requires InMode(st, M6)
    ensures var r := Step(st, input); r.Accept? ==> r.next == Written(M6, st, input)
  {
    ProductBounds(st.x, st.y, 134, 156, 131, 296);
  }

  lemma Writes7(st: State, input: int)
    requires InMode(st, M7)
    ensures var r := Step(st, input); r.Accept? ==> r.next == Written(M7, st, input)
  {
    ProductBounds(st.y, st.x, 12399, 18483, 134, 156);
    assert st.x * st.y == st.y * st.x;
  }

  lemma Writes8(st: State, input: int)
    requires InMode(st, M8)
    ensures var r := Step(st, input); r.Accept? ==> r.next == Written(M8, st, input)
  {
    ProductBounds(st.x, st.y, 2175, 12428, 27, 115);
    var r := st.x * st.y % 14999;
    Quotients8(r);
    var x := Written8X(r);
    if input == 58 {
      assert Handler8(st, 58).next.x == x;
      NegativeProduct(st.y, -x);
    }
  }

  lemma SignedProduct(a: int, b: int, bound: nat, high: nat)
    requires Abs(a) <= bound && 0 <= b <= high
    ensures -(bound * high) <= a * b <= bound * high
  {
    ProductBounds(Abs(a), b, 0, bound, 0, high);
    SignedProducts(b, Abs(a));
  }

  lemma SquareBound(a: int, bound: nat)
    requires Abs(a) <= bound
    ensures 0 <= a * a <= bound * bound
  {
    ProductBounds(Abs(a), Abs(a), 0, bound, 0, bound);
  }

  lemma Quotients4(r: int)
    requires -14998 <= r <= 14998
    ensures -5000 <= Quot(r - 8929, 5) <= 2000
  {}

  lemma Quotients5(x: int)
    requires -46 <= x <= -25
    ensures Fits(Quot((x + 9836) * 10, 9)) && 2175 <= Quot(Quot((x + 9836) * 10, 9), 5) <= 2180
  {}

  lemma SmallQuotient(a: nat)
    ensures 0 <= Quot(a, 10) <= a
  {}

  // ----- whole runs -----

  datatype Event = Printed(output: int) | Invalid(input: int)

  function Shown(r: Reaction, input: int): Event {
    if r.Accept? then Printed(r.output) else Invalid(input)
  }

  function NextState(st: State, r: Reaction): State {
    if r.Accept? then r.next else st
  }

  /** The lines a list of inputs leaves on the two streams, in order. */
  function Run(st: State, inputs: seq<int>): seq<Event>
    decreases |inputs|
  {
    if inputs == [] then [] else
      match Step(st, inputs[0])
      case Accept(next, output) => [Printed(output)] + Run(next, inputs[1..])
      case Reject => [Invalid(inputs[0])] + Run(st, inputs[1..])
  }

  function After(st: State, inputs: seq<int>): State
    decreases |inputs|
  {
    if inputs == [] then st else
      match Step(st, inputs[0])
      case Accept(next, _) => After(next, inputs[1..])
      case Reject => After(st, inputs[1..])
  }

  lemma {:induction false} RunAppend(st: State, inputs: seq<int>, input: int)
    ensures var r := Step(After(st, inputs), input);
            Run(st, inputs + [input]) == Run(st, inputs) + [Shown(r, input)] &&
            After(st, inputs + [input]) == NextState(After(st, inputs), r)
    decreases |inputs|
  {
    hide Step;
    if inputs == [] {
      assert [input][1..] == [] && inputs + [input] == [input];
      assert Run(st, [input]) == [Shown(Step(st, input), input)] + Run(NextState(st, Step(st, input)), [input][1..]);
    } else {
      var st' := NextState(st, Step(st, inputs[0]));
      assert (inputs + [input])[1..] == inputs[1..] + [input];
      RunAppend(st', inputs[1..], input);
    }
  }

  lemma RunOfNothing(st: State)
    ensures Run(st, []) == [] && After(st, []) == st
  {}

  function MealyRun(m: Mode, inputs: seq<int>): seq<Event>
    decreases |inputs|
  {
    if inputs == [] then [] else
      match Delta(m, inputs[0])
      case Go(m', output) => [Printed(output)] + MealyRun(m', inputs[1..])
      case Stay => [Invalid(inputs[0])] + MealyRun(m, inputs[1..])
  }

  function ModeAfter(m: Mode, inputs: seq<int>): Mode
    decreases |inputs|
  {
    if inputs == [] then m else
      match Delta(m, inputs[0])
      case Go(m', _) => ModeAfter(m', inputs[1..])
      case Stay => ModeAfter(m, inputs[1..])
  }

  /** The machine and the Mealy machine show the same trace and stay in the same mode. */
  lemma {:induction false} RunSimulates(st: State, m: Mode, inputs: seq<int>)
    requires InMode(st, m)
    ensures Run(st, inputs) == MealyRun(m, inputs)
    ensures InMode(After(st, inputs), ModeAfter(m, inputs))
    decreases |inputs|
  {
    hide Step, Delta, InMode;
    if inputs != [] {
      StepSimulates(st, m, inputs[0]);
      match Delta(m, inputs[0])
      case Go(m', _) => RunSimulates(Step(st, inputs[0]).next, m', inputs[1..]);
      case Stay => RunSimulates(st, m, inputs[1..]);
    }
  }

  /** Every state that some inputs reach from the start is in exactly one mode. */
  lemma ReachableStatesHaveOneMode(inputs: seq<int>)
    ensures Run(START, inputs) == MealyRun(M6, inputs)
    ensures exists m :: InMode(After(START, inputs), m) &&
              forall m' :: InMode(After(START, inputs), m') ==> m' == m
  {
    RunSimulates(START, M6, inputs);
    var m := ModeAfter(M6, inputs);
    forall m' | InMode(After(START, inputs), m') ensures m' == m {
      OnlyHandler(After(START, inputs), m, m');
    }
  }

  // ----- the program -----

  /** The globals of the program. Every `CAdd`, `CSub`, `CMul`, `CDiv` and `CMod` below is proved
      to stay inside the 32-bit range, from the invariant that the state is in a mode. */
  class Program {
    var a1504052271: Int32
    var a355441369: Int32
    var a553774011: Int32
    var cf: Int32
    var events: seq<Event>   // the lines on stdout and stderr, in order

    constructor ()
      ensures Fields() == START && Valid() && events == []
    {
      a1504052271, a355441369, a553774011, cf := 140, 296, 4, 1;
      events := [];
      new;
      assert InMode(Fields(), M6);
    }

    function Fields(): State
      reads this
    {
      State(a1504052271, a355441369, a553774011)
    }

    ghost predicate Valid()
      reads this
    {
      exists m :: InMode(Fields(), m)
    }

    twostate predicate Reacts(r: Reaction)
      reads this
    {
      match r
      case Accept(next, output) => Fields() == next && cf == 0 && events == old(events) + [Printed(output)]
      case Reject => Fields() == old(Fields()) && cf == old(cf) && events == old(events)
    }

    method Block1A(input: int)
      requires InMode(Fields(), M1)
      modifies this
      ensures Reacts(if old(cf) == 1 && input == 56 then Handler1(old(Fields()), input) else Reject)
    {
      hide Rem;
      if input == 56 && cf == 1 {
        cf := 0;
        ProductBounds(a355441369, -a1504052271, 9562, 24560, 802, 2468);
        assert a355441369 * (-a1504052271) == -(a355441369 * a1504052271);
        a355441369 := CAdd(CMod(CMul(CAdd(CAdd(CMod(CMod(CMul(a355441369, a1504052271), 14999), 95), 212), -3724),
            5), 95), 250);
        ProductBounds(a355441369, -a1504052271, 155, 250, 802, 2468);
        assert a355441369 * (-a1504052271) == -(a1504052271 * a355441369);
        a1504052271 := CSub(CSub(CMul(CAdd(CMod(CMod(CMul(a1504052271, a355441369), 14999), 12), 146), 1), -26865),
            26866);
        events := events + [Printed(64)];
      }
    }

    method Block1B(input: int)
      requires cf == 1 ==> InMode(Fields(), M1)
      modifies this
      ensures Reacts(if old(cf) == 1 && input == 57 then Handler1(old(Fields()), input) else Reject)
    {
      hide Rem;
      if input == 57 && cf == 1 {
        cf := 0;
        ProductBounds(a355441369, -a1504052271, 9562, 24560, 802, 2468);
        assert a355441369 * (-a1504052271) == -(a1504052271 * a355441369);
        a1504052271 := CSub(CSub(CAdd(CAdd(CMod(CMod(CMul(a1504052271, a355441369), 14999), 105), 27), -4968),
            -11739), 6772);
        a553774011 := 7;
        events := events + [Printed(60)];
      }
    }

    method CalculateOutputM1(input: int)
      requires InMode(Fields(), M1)
      modifies this
      ensures Reacts(if old(cf) == 1 then Handler1(old(Fields()), input) else Reject)
    {
      hide Rem, Quot;
      Block1A(input);
      Block1B(input);
    }

    method Block2A(input: int)
      requires InMode(Fields(), M2)
      modifies this
      ensures Reacts(if old(cf) == 1 && input == 57 then Handler2(old(Fields()), input) else Reject)
    {
      hide Rem;
      if input == 57 && cf == 1 {
        cf := 0;
        a553774011 := 9;
        events := events + [Printed(60)];
      }
    }

    method Block2B(input: int)
      requires cf == 1 ==> InMode(Fields(), M2)
      modifies this
      ensures Reacts(if old(cf) == 1 && input == 56 then Handler2(old(Fields()), input) else Reject)
    {
      hide Rem;
      if input == 56 && cf == 1 {
        cf := 0;
        ProductBounds(-a1504052271, -a1504052271, 25, 46, 25, 46);
        assert (-a1504052271) * (-a1504052271) == a1504052271 * a1504052271;
        a355441369 := CMul(CAdd(CMod(CMul(CMul(a1504052271, a1504052271), 1), 48), 68), 1);
        ProductBounds(-a1504052271, a355441369, 25, 46, 68, 115);
        assert (-a1504052271) * a355441369 == -(a1504052271 * a355441369);
        a1504052271 := CAdd(CSub(CSub(CMul(a1504052271, a355441369), -12704), -528), 896);
        events := events + [Printed(64)];
      }
    }

    method CalculateOutputM2(input: int)
      requires InMode(Fields(), M2)
      modifies this
      ensures Reacts(if old(cf) == 1 then Handler2(old(Fields()), input) else Reject)
    {
      hide Rem, Quot;
      Block2A(input);
      Block2B(input);
    }

    method CalculateOutputM3(input: int)
      requires InMode(Fields(), M3)
      modifies this
      ensures Reacts(if old(cf) == 1 then Handler3(old(Fields()), input) else Reject)
    {
      hide Rem;
      if input == 59 && cf == 1 {
        cf := 0;
        a1504052271 := CAdd(CSub(CMul(CAdd(CMod(a1504052271, 12), 146), 1), 18935), 18934);
        ProductBounds(a1504052271, a1504052271, 145, 156, 145, 156);
        a355441369 := CSub(CAdd(CMod(CDiv(CMul(a1504052271, a1504052271), 5), 95), 164), 33);
        events := events + [Printed(60)];
      }
    }

    method CalculateOutputM4(input: int)
      requires InMode(Fields(), M4)
      modifies this
      ensures Reacts(if old(cf) == 1 then Handler4(old(Fields()), input) else Reject)
    {
      hide Rem, Quot;
      if input == 56 && cf == 1 {
        cf := 0;
        SquareBound(a1504052271, 78);
        a355441369 := CSub(CAdd(CSub(CMul(a1504052271, a1504052271), -10765), 1445), -189);
        SignedProduct(a1504052271, a355441369, 78, 18483);
        Quotients4(Rem(a1504052271 * a355441369, 14999));
        a1504052271 := CAdd(CMod(CMul(CDiv(CSub(CMod(CMul(a1504052271, a355441369), 14999), 8929), 5), 5), 12), 145);
        events := events + [Printed(63)];
      }
    }

    method CalculateOutputM5(input: int)
      requires InMode(Fields(), M5)
      modifies this
      ensures Reacts(if old(cf) == 1 then Handler5(old(Fields()), input) else Reject)
    {
      hide Rem, Quot;
      if input == 56 && cf == 1 {
        cf := 0;
        Quotients5(a1504052271);
        a1504052271 := CDiv(CDiv(CMul(CAdd(a1504052271, 9836), 10), 9), 5);
        ProductBounds(a1504052271, a1504052271, 2175, 2180, 2175, 2180);
        SmallQuotient((Rem(Rem(a1504052271 * a1504052271, 14999), 48) + 50) * 9);
        a355441369 := CAdd(CDiv(CMul(CAdd(CMod(CMod(CMul(a1504052271, a1504052271), 14999), 48), 50), 9), 10), -18);
        events := events + [Printed(66)];
      }
    }

    method Block6A(input: int)
      requires InMode(Fields(), M6)
      modifies this
      ensures Reacts(if old(cf) == 1 && input == 57 then Handler6(old(Fields()), input) else Reject)
    {
      hide Rem;
      if input == 57 && cf == 1 {
        cf := 0;
        ProductBounds(a1504052271, a355441369, 134, 156, 131, 296);
        a1504052271 := CSub(CSub(CDiv(CSub(CMod(CMod(CMul(a1504052271, a355441369), 14999), 105), 14), 5), 24176),
            -24226);
        a553774011 := 4;
        events := events + [Printed(63)];
      }
    }

    method Block6B(input: int)
      requires cf == 1 ==> InMode(Fields(), M6)
      modifies this
      ensures Reacts(if old(cf) == 1 && input == 58 then Handler6(old(Fields()), input) else Reject)
    {
      hide Rem;
      if input == 58 && cf == 1 {
        cf := 0;
        events := events + [Printed(64)];
      }
    }

    method Block6C(input: int)
      requires cf == 1 ==> InMode(Fields(), M6)
      modifies this
      ensures Reacts(if old(cf) == 1 && input == 55 then Handler6(old(Fields()), input) else Reject)
    {
      hide Rem;
      if input == 55 && cf == 1 {
        cf := 0;
        ProductBounds(a1504052271, a355441369, 134, 156, 131, 296);
        a1504052271 := CSub(CSub(CDiv(CAdd(CMod(CMod(CMul(a1504052271, a355441369), 14999), 105), 4), 5), -5260), 5306);
        a553774011 := 2;
        events := events + [Printed(62)];
      }
    }

    method CalculateOutputM6(input: int)
      requires InMode(Fields(), M6)
      modifies this
      ensures Reacts(if old(cf) == 1 then Handler6(old(Fields()), input) else Reject)
    {
      hide Rem, Quot;
      Block6A(input);
      Block6B(input);
      Block6C(input);
    }

    method CalculateOutputM7(input: int)
      requires InMode(Fields(), M7)
      modifies this
      ensures Reacts(if old(cf) == 1 then Handler7(old(Fields()), input) else Reject)
    {
      hide Rem;
      if input == 59 && cf == 1 {
        cf := 0;
        ProductBounds(a355441369, a1504052271, 12399, 18483, 134, 156);
        a355441369 := CSub(CMod(CMul(CAdd(CMod(CMod(CMul(a355441369, a1504052271), 14999), 95), 212), 5), 95), -169);
        events := events + [Printed(64)];
      }
    }

    method Block8A(input: int)
      requires InMode(Fields(), M8)
      modifies this
      ensures Reacts(if old(cf) == 1 && input == 57 then Handler8(old(Fields()), input) else Reject)
    {
      hide Rem;
      if input == 57 && cf == 1 {
        cf := 0;
        events := events + [Printed(65)];
      }
    }

    method Block8B(input: int)
      requires cf == 1 ==> InMode(Fields(), M8)
      modifies this
      ensures Reacts(if old(cf) == 1 && input == 58 then Handler8(old(Fields()), input) else Reject)
    {
      hide Rem, Quot;
      if input == 58 && cf == 1 {
        cf := 0;
        ProductBounds(a1504052271, a355441369, 2175, 12428, 27, 115);
        Quotients8(Rem(a1504052271 * a355441369, 14999));
        a1504052271 := CDiv(CMul(CAdd(CDiv(CMul(CAdd(CMod(CMul(a1504052271, a355441369), 14999), -19076), 10), 9),
            29218), -1), 10);
        assert -2468 <= a1504052271 <= -802;
        ProductBounds(a355441369, -a1504052271, 27, 115, 802, 2468);
        assert a355441369 * (-a1504052271) == -(a355441369 * a1504052271);
        a355441369 := CSub(CAdd(CMul(CAdd(CMod(CMul(a355441369, a1504052271), 14999), 17432), 1), -12283), -19411);
        events := events + [Printed(61)];
      }
    }

    method CalculateOutputM8(input: int)
      requires InMode(Fields(), M8)
      modifies this
      ensures Reacts(if old(cf) == 1 then Handler8(old(Fields()), input) else Reject)
    {
      hide Rem, Quot;
      Block8A(input);
      Block8B(input);
    }

    method CalculateOutput(input: int)
      requires Valid()
      modifies this
      ensures Valid()
      ensures var r := Step(old(Fields()), input);
              Fields() == NextState(old(Fields()), r) && events == old(events) + [Shown(r, input)]
    {
      hide Handler1, Handler2, Handler3, Handler4, Handler5, Handler6, Handler7, Handler8;
      ghost var m :| InMode(Fields(), m);
      StepSimulates(Fields(), m, input);
      ghost var m' := if Delta(m, input).Go? then Delta(m, input).mode else m;
      cf := 1;
      if cf == 1 && a1504052271 <= -80 {
        if 308 < a355441369 && cf == 1 {
          CalculateOutputM1(input);
        }
      }
      if -80 < a1504052271 && 132 >= a1504052271 && cf == 1 {
        if a553774011 == 2 && cf == 1 {
          CalculateOutputM2(input);
        }
        if a553774011 == 4 && cf == 1 {
          CalculateOutputM3(input);
        }
        if cf == 1 && a553774011 == 7 {
          CalculateOutputM4(input);
        }
        if a553774011 == 9 && cf == 1 {
          CalculateOutputM5(input);
        }
      }
      if cf == 1 && 132 < a1504052271 && 158 >= a1504052271 {
        if 116 < a355441369 && 308 >= a355441369 && cf == 1 {
          CalculateOutputM6(input);
        }
        if 308 < a355441369 && cf == 1 {
          CalculateOutputM7(input);
        }
      }
      if cf == 1 && 158 < a1504052271 {
        if cf == 1 && 19 < a355441369 && 116 >= a355441369 {
          CalculateOutputM8(input);
        }
      }
      if cf == 1 {
        events := events + [Invalid(input)];
      }
      assert InMode(Fields(), m');
    }

    /** The loop of `main` over the numbers it reads: it ends at the first one outside 55 to 59. */
    method Loop(inputs: seq<int>) returns (handled: nat)
      requires Valid()
      modifies this
      ensures Valid()
      ensures handled <= |inputs| && forall i | 0 <= i < handled :: 55 <= inputs[i] <= 59
      ensures handled < |inputs| ==> !(55 <= inputs[handled] <= 59)
      ensures events == old(events) + Run(old(Fields()), inputs[..handled])
      ensures Fields() == After(old(Fields()), inputs[..handled])
    {
      hide Step, Run, After;
      handled := 0;
      RunOfNothing(Fields());
      while handled < |inputs|
        invariant Valid() && handled <= |inputs| && forall i | 0 <= i < handled :: 55 <= inputs[i] <= 59
        invariant events == old(events) + Run(old(Fields()), inputs[..handled])
        invariant Fields() == After(old(Fields()), inputs[..handled])
      {
        var input := inputs[handled];
        if input != 55 && input != 56 && input != 57 && input != 58 && input != 59 {
          return;
        }
        RunAppend(old(Fields()), inputs[..handled], input);
        assert inputs[..handled + 1] == inputs[..handled] + [input];
        CalculateOutput(input);
        handled := handled + 1;
      }
    }
  }
}
