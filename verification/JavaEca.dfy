/** The event-condition-action machine m183_LTL in Java: eight handlers behind a guarded cascade. */
module JavaEca {
  import opened MachineInt

  /** The fields a2108127495, a422009172, a1522448132 and a1745113960. */
  datatype State = State(x: int, y: int, z: int, s: string)

  datatype Reaction = Accept(next: State, output: string) | Reject

  const START := State(-44, -68, 173, "h")

  // ----- one reaction, as a decision tree -----

  function Handler1(ar: Arithmetic, st: State, input: string): Reaction {
    if input == "usr2_ai1_VoidReply" then
      Accept(st.(x := Mul(ar, Sub(ar, Sub(ar, Mod(ar, Mod(ar, Mul(ar, st.x, st.z), 14999), 72), 91), -1), 1),
          s := "h"), "ai1_VoidReply")
    else Reject
  }

  function Handler2(ar: Arithmetic, st: State, input: string): Reaction {
    if input == "usr4_ni1_ne1" then Accept(st, "ni1_ne1")
    else if input == "ai1_ce2" then
      Accept(st.(x := Add(ar, Sub(ar, Sub(ar, Mod(ar, st.x, 59), -98), 4), -42), s := "h"), "usr4_ai1_ce2")
    else Reject
  }

  function Handler3Z(ar: Arithmetic, x: int): int {
    Add(ar, Mod(ar, Mul(ar, Sub(ar, Mod(ar, Mul(ar, x, x), 50), 75), 5), 50), -31)
  }

  function Handler3(ar: Arithmetic, st: State, input: string): Reaction {
    if input == "usr4_ai1_VoidReply" then
      var z := Handler3Z(ar, st.x);
      Accept(st.(z := z, x := Add(ar, Mul(ar, Sub(ar, Mul(ar, st.x, z), 22476), 1), -3649)), "usr2_ai1_ce4")
    else Reject
  }

  function Handler4(ar: Arithmetic, st: State, input: string): Reaction {
    if input == "ai1_ce2" then Accept(st, "ai1_VoidReply")
    else if input == "ai1_ce1" then
      Accept(st.(x := Sub(ar, Mod(ar, Sub(ar, Sub(ar, st.x, -7243), -1395), 59), -16), s := "g"), "usr4_ai1_ce1")
    else if input == "usr4_ni1_ne1" then Accept(st.(s := "i"), "usr2_ai1_ce4")
    else Reject
  }

  function Handler5(ar: Arithmetic, st: State, input: string): Reaction {
    if input == "usr2_ai1_VoidReply" then Accept(st.(s := "h"), "none") else Reject
  }

  function Handler6(ar: Arithmetic, st: State, input: string): Reaction {
    if input == "usr4_ni1_ne1" then
      var x := Mul(ar, Mul(ar, Add(ar, st.x, 13863), 2), 1);
      Accept(st.(x := x, y := Add(ar, Add(ar,
          Sub(ar, Mod(ar, Add(ar, Mod(ar, Mul(ar, x, x), 14999), -1380), 47), -150), 23887), -23885)), "none")
    else if input == "usr4_ai1_VoidReply" then
      Accept(st.(x := Add(ar, Add(ar, Add(ar, st.x, -139), -4), 5), s := "e"), "ai1_VoidReply")
    else Reject
  }

  function Handler7(ar: Arithmetic, st: State, input: string): Reaction {
    if input == "usr4_ni1_ne1" then
      Accept(st.(x := Sub(ar, Sub(ar, Sub(ar, Sub(ar, st.x, 128), -3384), 4504), -1107), s := "g"), "none")
    else if input == "usr4_ai1_VoidReply" then
      Accept(st.(x := Sub(ar, Mod(ar, Mul(ar, Sub(ar, Sub(ar, st.x, 22339), -35662), 2), 72), 149)), "ai1_VoidReply")
    else Reject
  }

  function Handler8(ar: Arithmetic, st: State, input: string): Reaction {
    if input == "usr4_ai1_VoidReply" then
      Accept(st.(x := Add(ar, Mod(ar, Mul(ar,
          Add(ar, Mod(ar, Div(ar, Mod(ar, Mul(ar, st.x, st.y), 14999), 5), 72), -156), 5), 72), -65), s := "e"),
             "ni1_ne1__ai1_VoidReply")
    else Reject
  }

  /** At most one handler can run, so the cascade is a decision tree. */
  function Step(ar: Arithmetic, st: State, input: string): Reaction {
    if st.x <= -164 then
      if -83 < st.z <= 18 then Handler1(ar, st, input) else Reject
    else if st.x <= -19 then
      if st.s == "e" then Handler2(ar, st, input)
      else if st.s == "g" then Handler3(ar, st, input)
      else if st.s == "h" then Handler4(ar, st, input)
      else if st.s == "i" then Handler5(ar, st, input)
      else Reject
    else if st.x <= 100 then
      if st.s == "g" then Handler6(ar, st, input)
      else if st.s == "h" then Handler7(ar, st, input)
      else Reject
    else
      if 103 < st.y <= 198 then Handler8(ar, st, input) else Reject
  }

  // ----- the eight modes -----

  datatype Mode = M1 | M2 | M3 | M4 | M5 | M6 | M7 | M8

  predicate InMode(st: State, m: Mode) {
    match m
    case M1 => -23366 <= st.x <= -14953 && -76 <= st.z <= -31
    case M2 => -136 <= st.x <= -64 && st.s == "e"
    case M3 => -147 <= st.x <= -89 && st.s == "g"
    case M4 => -164 < st.x <= -19 && st.s == "h"
    case M5 => -164 < st.x <= -19 && st.s == "i"
    case M6 => 16 <= st.x <= 74 && st.s == "g"
    case M7 => -6 <= st.x <= 52 && st.s == "h"
    case M8 => 27758 <= st.x <= 27874 && 106 <= st.y <= 198
  }

  datatype Move = Go(mode: Mode, output: string) | Stay

  /** The Mealy machine over the modes. */
  function Delta(m: Mode, input: string): Move {
    match m
    case M1 => if input == "usr2_ai1_VoidReply" then Go(M4, "ai1_VoidReply") else Stay
    case M2 =>
      if input == "usr4_ni1_ne1" then Go(M2, "ni1_ne1")
      else if input == "ai1_ce2" then Go(M7, "usr4_ai1_ce2") else Stay
    case M3 => if input == "usr4_ai1_VoidReply" then Go(M1, "usr2_ai1_ce4") else Stay
    case M4 =>
      if input == "ai1_ce2" then Go(M4, "ai1_VoidReply")
      else if input == "ai1_ce1" then Go(M6, "usr4_ai1_ce1")
      else if input == "usr4_ni1_ne1" then Go(M5, "usr2_ai1_ce4") else Stay
    case M5 => if input == "usr2_ai1_VoidReply" then Go(M4, "none") else Stay
    case M6 =>
      if input == "usr4_ni1_ne1" then Go(M8, "none")
      else if input == "usr4_ai1_VoidReply" then Go(M2, "ai1_VoidReply") else Stay
    case M7 =>
      if input == "usr4_ni1_ne1" then Go(M3, "none")
      else if input == "usr4_ai1_VoidReply" then Go(M4, "ai1_VoidReply") else Stay
    case M8 => if input == "usr4_ai1_VoidReply" then Go(M2, "ni1_ne1__ai1_VoidReply") else Stay
  }

  ghost predicate Matches(r: Reaction, move: Move) {
    match move
    case Stay => r == Reject
    case Go(m, output) => r.Accept? && r.output == output && InMode(r.next, m)
  }

  /** The guards under which the cascade calls the handler of a mode. */
  predicate Guard(st: State, m: Mode) {
    match m
    case M1 => st.x <= -164 && -83 < st.z <= 18
    case M2 => -164 < st.x <= -19 && st.s == "e"
    case M3 => -164 < st.x <= -19 && st.s == "g"
    case M4 => -164 < st.x <= -19 && st.s == "h"
    case M5 => -164 < st.x <= -19 && st.s == "i"
    case M6 => -19 < st.x <= 100 && st.s == "g"
    case M7 => -19 < st.x <= 100 && st.s == "h"
    case M8 => 100 < st.x && 103 < st.y <= 198
  }

  /** In its mode a state opens the guards of its handler and of no other, so it is in no other mode. */
  lemma OnlyHandler(st: State, m: Mode, other: Mode)
    requires InMode(st, m)
    ensures Guard(st, other) <==> other == m
    ensures InMode(st, other) ==> other == m
  {}

  function HandlerOf(m: Mode, ar: Arithmetic, st: State, input: string): Reaction {
    match m
    case M1 => Handler1(ar, st, input)
    case M2 => Handler2(ar, st, input)
    case M3 => Handler3(ar, st, input)
    case M4 => Handler4(ar, st, input)
    case M5 => Handler5(ar, st, input)
    case M6 => Handler6(ar, st, input)
    case M7 => Handler7(ar, st, input)
    case M8 => Handler8(ar, st, input)
  }

  /** In any state, in a mode or not, the guards of at most one handler are open, and that handler reacts. */
  lemma StepByGuards(ar: Arithmetic, st: State, m: Mode, other: Mode, input: string)
    requires Guard(st, m)
    ensures Guard(st, other) <==> other == m
    ensures Step(ar, st, input) == HandlerOf(m, ar, st, input)
  {
    hide Handler1, Handler2, Handler3, Handler4, Handler5, Handler6, Handler7, Handler8;
  }

  lemma NoGuardRejects(ar: Arithmetic, st: State, input: string)
    requires forall m :: !Guard(st, m)
    ensures Step(ar, st, input) == Reject
  {
    hide Handler1, Handler2, Handler3, Handler4, Handler5, Handler6, Handler7, Handler8;
    assert !Guard(st, M1) && !Guard(st, M2) && !Guard(st, M3) && !Guard(st, M4);
    assert !Guard(st, M5) && !Guard(st, M6) && !Guard(st, M7) && !Guard(st, M8);
  }

  lemma Simulates1(ar: Arithmetic, st: State, input: string)
    requires InMode(st, M1)
    ensures Matches(Step(ar, st, input), Delta(M1, input))
    ensures Step(Wrapping, st, input) == Step(Unbounded, st, input)
  {
    hide Wrap, Rem, Quot;
    ProductBounds(-st.x, -st.z, 14953, 23366, 31, 76);
    assert (-st.x) * (-st.z) == st.x * st.z;
  }

  lemma RemOfMultiple(w: int)
    requires -75 <= w <= 0
    ensures -45 <= Rem(w * 5, 50) <= 0
  {
    assert Abs(w * 5) % 50 == 5 * (-w % 10);
  }

  lemma Handler3ZBounds(x: int)
    requires -147 <= x <= -89
    ensures -76 <= Handler3Z(Unbounded, x) == Handler3Z(Wrapping, x) <= -31
  {
    hide Wrap, Rem, Quot;
    ProductBounds(-x, -x, 89, 147, 89, 147);
    assert (-x) * (-x) == x * x;
    RemOfMultiple(Rem(x * x, 50) - 75);
  }

  lemma Simulates3(ar: Arithmetic, st: State, input: string)
    requires InMode(st, M3)
    ensures Matches(Step(ar, st, input), Delta(M3, input))
    ensures Step(Wrapping, st, input) == Step(Unbounded, st, input)
  {
    hide Wrap, Rem, Quot, Handler3Z;
    Handler3ZBounds(st.x);
    var z := Handler3Z(ar, st.x);
    ProductBounds(-st.x, -z, 89, 147, 31, 76);
    assert (-st.x) * (-z) == st.x * z;
  }

  lemma Simulates6(ar: Arithmetic, st: State, input: string)
    requires InMode(st, M6)
    ensures Matches(Step(ar, st, input), Delta(M6, input))
    ensures Step(Wrapping, st, input) == Step(Unbounded, st, input)
  {
    hide Wrap, Rem, Quot;
    var x := (st.x + 13863) * 2;
    ProductBounds(x, x, 27758, 27874, 27758, 27874);
  }

  lemma Simulates8(ar: Arithmetic, st: State, input: string)
    requires InMode(st, M8)
    ensures Matches(Step(ar, st, input), Delta(M8, input))
    ensures Step(Wrapping, st, input) == Step(Unbounded, st, input)
  {
    hide Wrap, Rem;
    ProductBounds(st.x, st.y, 27758, 27874, 106, 198);
  }

  lemma Simulates2(ar: Arithmetic, st: State, input: string)
    requires InMode(st, M2)
    ensures Matches(Step(ar, st, input), Delta(M2, input))
    ensures Step(Wrapping, st, input) == Step(Unbounded, st, input)
  {
    hide Wrap, Rem, Quot;
  }

  lemma Simulates4(ar: Arithmetic, st: State, input: string)
    requires InMode(st, M4)
    ensures Matches(Step(ar, st, input), Delta(M4, input))
    ensures Step(Wrapping, st, input) == Step(Unbounded, st, input)
  {
    hide Wrap, Rem, Quot;
  }

  lemma Simulates5(ar: Arithmetic, st: State, input: string)
    requires InMode(st, M5)
    ensures Matches(Step(ar, st, input), Delta(M5, input))
    ensures Step(Wrapping, st, input) == Step(Unbounded, st, input)
  {
    hide Wrap, Rem, Quot;
  }

  lemma Simulates7(ar: Arithmetic, st: State, input: string)
    requires InMode(st, M7)
    ensures Matches(Step(ar, st, input), Delta(M7, input))
    ensures Step(Wrapping, st, input) == Step(Unbounded, st, input)
  {
    hide Wrap, Rem, Quot;
  }

  /** One step of the machine in a mode is one move of the Mealy machine, with or without wrap-around. */
  lemma StepSimulates(ar: Arithmetic, st: State, m: Mode, input: string)
    requires InMode(st, m)
    ensures Matches(Step(ar, st, input), Delta(m, input))
    ensures Step(Wrapping, st, input) == Step(Unbounded, st, input)
  {
    hide Step, Delta;
    match m
    case M1 => Simulates1(ar, st, input);
    case M2 => Simulates2(ar, st, input);
    case M3 => Simulates3(ar, st, input);
    case M4 => Simulates4(ar, st, input);
    case M5 => Simulates5(ar, st, input);
    case M6 => Simulates6(ar, st, input);
    case M7 => Simulates7(ar, st, input);
    case M8 => Simulates8(ar, st, input);
  }

  // ----- the values written -----

  /** What the handlers of the modes write, with the division of the integers, which leaves no negative remainder. */
  function Written(m: Mode, st: State, input: string): State {
    match m
    case M1 => st.(s := "h", x := st.x * st.z % 14999 % 72 - 90)
    case M2 => if input == "ai1_ce2" then st.(s := "h", x := 52 - -st.x % 59) else st
    case M3 => st.(z := Written3Z(st.x), x := st.x * Written3Z(st.x) - 26125)
    case M4 =>
      if input == "ai1_ce1" then st.(s := "g", x := (st.x + 8638) % 59 + 16)
      else if input == "usr4_ni1_ne1" then st.(s := "i") else st
    case M5 => st.(s := "h")
    case M6 =>
      if input == "usr4_ni1_ne1" then st.(x := Written6X(st.x), y := Written6Y(Written6X(st.x)))
      else st.(s := "e", x := st.x - 138)
    case M7 =>
      if input == "usr4_ni1_ne1" then st.(s := "g", x := st.x - 141) else st.(x := (2 * st.x + 26646) % 72 - 149)
    case M8 => st.(s := "e", x := -65 - 5 * (156 - st.x * st.y % 14999 / 5 % 72) % 72)
  }

  function Written3Z(x: int): int {
    -31 - 5 * (75 - x * x % 50) % 50
  }

  function Written6X(x: int): int {
    2 * x + 27726
  }

  /** The remainder takes the sign of `square - 1380`. */
  function Written6Y(x: int): int {
    var square := x * x % 14999;
    152 + if square < 1380 then -((1380 - square) % 47) else (square - 1380) % 47
  }

  lemma WritesInMode(st: State, m: Mode, input: string)
    requires InMode(st, m)
    ensures var r := Step(Wrapping, st, input); r.Accept? ==> r.next == Written(m, st, input)
  {
    StepSimulates(Wrapping, st, m, input);
    hide Wrap;
    match m
    case M1 => Writes1(st, input);
    case M2 =>
    case M3 => Writes3(st, input);
    case M4 =>
    case M5 =>
    case M6 => Writes6(st, input);
    case M7 =>
    case M8 => Writes8(st, input);
  }

  lemma Writes1(st: State, input: string)
    requires InMode(st, M1)
    ensures var r := Step(Unbounded, st, input); r.Accept? ==> r.next == Written(M1, st, input)
  {
    hide Wrap;
    ProductBounds(-st.x, -st.z, 14953, 23366, 31, 76);
    assert (-st.x) * (-st.z) == st.x * st.z;
  }

  lemma Writes3(st: State, input: string)
    requires InMode(st, M3)
    ensures var r := Step(Unbounded, st, input); r.Accept? ==> r.next == Written(M3, st, input)
  {
    hide Wrap;
    ProductBounds(-st.x, -st.x, 89, 147, 89, 147);
    assert (-st.x) * (-st.x) == st.x * st.x;
    assert Handler3Z(Unbounded, st.x) == Written3Z(st.x);
  }

  lemma Writes6(st: State, input: string)
    requires InMode(st, M6)
    ensures var r := Step(Unbounded, st, input); r.Accept? ==> r.next == Written(M6, st, input)
  {
    hide Wrap;
    var x := Written6X(st.x);
    ProductBounds(x, x, 27758, 27874, 27758, 27874);
  }

  lemma Writes8(st: State, input: string)
    requires InMode(st, M8)
    ensures var r := Step(Unbounded, st, input); r.Accept? ==> r.next == Written(M8, st, input)
  {
    hide Wrap;
    ProductBounds(st.x, st.y, 27758, 27874, 106, 198);
  }

  // ----- every intermediate value fits -----

  // The assignments of the handlers once more, in an arithmetic whose every operation demands that
  // its result fits in 32 bits: in its mode no handler leaves the range, not even halfway.

  function Fit1(st: State): (r: Int32)
    requires InMode(st, M1)
    ensures r == Handler1(Unbounded, st, "usr2_ai1_VoidReply").next.x
  {
    ProductBounds(-st.x, -st.z, 14953, 23366, 31, 76);
    assert (-st.x) * (-st.z) == st.x * st.z;
    CMul(CSub(CSub(CMod(CMod(CMul(st.x, st.z), 14999), 72), 91), -1), 1)
  }

  function Fit2(st: State): (r: Int32)
    requires InMode(st, M2)
    ensures r == Handler2(Unbounded, st, "ai1_ce2").next.x
  {
    CAdd(CSub(CSub(CMod(st.x, 59), -98), 4), -42)
  }

  function Fit3Z(st: State): (r: Int32)
    requires InMode(st, M3)
    ensures r == Handler3(Unbounded, st, "usr4_ai1_VoidReply").next.z
  {
    ProductBounds(-st.x, -st.x, 89, 147, 89, 147);
    assert (-st.x) * (-st.x) == st.x * st.x;
    CAdd(CMod(CMul(CSub(CMod(CMul(st.x, st.x), 50), 75), 5), 50), -31)
  }

  function Fit3X(st: State, z: Int32): (r: Int32)
    requires InMode(st, M3) && -76 <= z <= -31
    ensures r == st.x * z - 22476 - 3649
  {
    ProductBounds(-st.x, -z, 89, 147, 31, 76);
    assert (-st.x) * (-z) == st.x * z;
    CAdd(CMul(CSub(CMul(st.x, z), 22476), 1), -3649)
  }

  lemma Fit3(st: State)
    requires InMode(st, M3)
    ensures -76 <= Fit3Z(st) <= -31
    ensures Handler3(Unbounded, st, "usr4_ai1_VoidReply").next == st.(z := Fit3Z(st), x := Fit3X(st, Fit3Z(st)))
  {
    hide Rem, Quot;
    Handler3ZBounds(st.x);
  }

  function Fit4(st: State): (r: Int32)
    requires InMode(st, M4)
    ensures r == Handler4(Unbounded, st, "ai1_ce1").next.x
  {
    CSub(CMod(CSub(CSub(st.x, -7243), -1395), 59), -16)
  }

  function Fit6X(st: State): (r: Int32)
    requires InMode(st, M6)
    ensures r == Handler6(Unbounded, st, "usr4_ni1_ne1").next.x
  {
    CMul(CMul(CAdd(st.x, 13863), 2), 1)
  }

  function Fit6Y(st: State): (r: Int32)
    requires InMode(st, M6)
    ensures r == Handler6(Unbounded, st, "usr4_ni1_ne1").next.y
  {
    var x := Fit6X(st);
    ProductBounds(x, x, 27758, 27874, 27758, 27874);
    CAdd(CAdd(CSub(CMod(CAdd(CMod(CMul(x, x), 14999), -1380), 47), -150), 23887), -23885)
  }

  function Fit6(st: State): (r: Int32)
    requires InMode(st, M6)
    ensures r == Handler6(Unbounded, st, "usr4_ai1_VoidReply").next.x
  {
    CAdd(CAdd(CAdd(st.x, -139), -4), 5)
  }

  function Fit7(st: State): (r: Int32)
    requires InMode(st, M7)
    ensures r == Handler7(Unbounded, st, "usr4_ni1_ne1").next.x
  {
    CSub(CSub(CSub(CSub(st.x, 128), -3384), 4504), -1107)
  }

  function Fit7Wide(st: State): (r: Int32)
    requires InMode(st, M7)
    ensures r == Handler7(Unbounded, st, "usr4_ai1_VoidReply").next.x
  {
    CSub(CMod(CMul(CSub(CSub(st.x, 22339), -35662), 2), 72), 149)
  }

  function Fit8(st: State): (r: Int32)
    requires InMode(st, M8)
    ensures r == Handler8(Unbounded, st, "usr4_ai1_VoidReply").next.x
  {
    ProductBounds(st.x, st.y, 27758, 27874, 106, 198);
    CAdd(CMod(CMul(CAdd(CMod(CDiv(CMod(CMul(st.x, st.y), 14999), 5), 72), -156), 5), 72), -65)
  }

  // ----- whole runs -----

  datatype Event = Printed(output: string) | Rejected

  function Shown(r: Reaction): Event {
    if r.Accept? then Printed(r.output) else Rejected
  }

  function NextState(st: State, r: Reaction): State {
    if r.Accept? then r.next else st
  }

  /** The lines among the events. */
  function Lines(events: seq<Event>): seq<string> {
    if events == [] then [] else
      (if events[0].Printed? then [events[0].output] else []) + Lines(events[1..])
  }

  lemma LinesOfNothing()
    ensures Lines([]) == []
  {}

  lemma {:induction false} LinesAppend(events: seq<Event>, event: Event)
    ensures Lines(events + [event]) == Lines(events) + if event.Printed? then [event.output] else []
  {
    if events != [] {
      assert (events + [event])[1..] == events[1..] + [event];
      LinesAppend(events[1..], event);
    }
  }

  /** What the main loop shows for a list of inputs; a rejected input leaves the state alone. */
  function Run(ar: Arithmetic, st: State, inputs: seq<string>): seq<Event>
    decreases |inputs|
  {
    if inputs == [] then [] else
      match Step(ar, st, inputs[0])
      case Accept(next, output) => [Printed(output)] + Run(ar, next, inputs[1..])
      case Reject => [Rejected] + Run(ar, st, inputs[1..])
  }

  function After(ar: Arithmetic, st: State, inputs: seq<string>): State
    decreases |inputs|
  {
    if inputs == [] then st else
      match Step(ar, st, inputs[0])
      case Accept(next, _) => After(ar, next, inputs[1..])
      case Reject => After(ar, st, inputs[1..])
  }

  lemma RunUnfolds(ar: Arithmetic, st: State, inputs: seq<string>, i: nat)
    requires i < |inputs|
    ensures var r := Step(ar, st, inputs[i]);
            Run(ar, st, inputs[i..]) == [Shown(r)] + Run(ar, NextState(st, r), inputs[i + 1..]) &&
            After(ar, st, inputs[i..]) == After(ar, NextState(st, r), inputs[i + 1..])
  {
    hide Step;
    assert inputs[i..][0] == inputs[i] && inputs[i..][1..] == inputs[i + 1..];
  }

  lemma RunOfNothing(ar: Arithmetic, st: State)
    ensures Run(ar, st, []) == [] && After(ar, st, []) == st
  {}

  function MealyRun(m: Mode, inputs: seq<string>): seq<Event>
    decreases |inputs|
  {
    if inputs == [] then [] else
      match Delta(m, inputs[0])
      case Go(m', output) => [Printed(output)] + MealyRun(m', inputs[1..])
      case Stay => [Rejected] + MealyRun(m, inputs[1..])
  }

  function ModeAfter(m: Mode, inputs: seq<string>): Mode
    decreases |inputs|
  {
    if inputs == [] then m else
      match Delta(m, inputs[0])
      case Go(m', _) => ModeAfter(m', inputs[1..])
      case Stay => ModeAfter(m, inputs[1..])
  }

  /** The Java machine, the machine over the integers and the Mealy machine show the same trace
      and stay in the same mode, whatever the inputs. */
  lemma {:induction false} RunSimulates(st: State, m: Mode, inputs: seq<string>)
    requires InMode(st, m)
    ensures Run(Wrapping, st, inputs) == Run(Unbounded, st, inputs) == MealyRun(m, inputs)
    ensures After(Wrapping, st, inputs) == After(Unbounded, st, inputs)
    ensures InMode(After(Wrapping, st, inputs), ModeAfter(m, inputs))
    decreases |inputs|
  {
    hide Step, Delta, InMode;
    if inputs != [] {
      StepSimulates(Wrapping, st, m, inputs[0]);
      match Delta(m, inputs[0])
      case Go(m', _) => RunSimulates(Step(Wrapping, st, inputs[0]).next, m', inputs[1..]);
      case Stay => RunSimulates(st, m, inputs[1..]);
    }
  }

  /** Every state that some inputs reach is in exactly one mode. */
  lemma ReachableStatesHaveOneMode(inputs: seq<string>)
    ensures Run(Wrapping, START, inputs) == MealyRun(M4, inputs)
    ensures exists m :: InMode(After(Wrapping, START, inputs), m) &&
              forall m' :: InMode(After(Wrapping, START, inputs), m') ==> m' == m
  {
    RunSimulates(START, M4, inputs);
    var m := ModeAfter(M4, inputs);
    forall m' | InMode(After(Wrapping, START, inputs), m') ensures m' == m {
      OnlyHandler(After(Wrapping, START, inputs), m, m');
    }
  }

  // ----- the program -----

  class Eca {
    var a422009172: Int32
    var cf: bool
    var a2108127495: Int32
    var a1522448132: Int32
    var a1745113960: string
    var printed: seq<string>   // System.out

    constructor ()
      ensures Fields() == START && cf && printed == []
    {
      a422009172, cf, a2108127495, a1522448132, a1745113960 := -68, true, -44, 173, "h";
      printed := [];
    }

    function Fields(): State
      reads this
    {
      State(a2108127495, a422009172, a1522448132, a1745113960)
    }

    /** The reaction `r` took place in between, or the object is unchanged. */
    twostate predicate Reacts(r: Reaction)
      reads this
    {
      match r
      case Accept(next, output) => Fields() == next && !cf && printed == old(printed) + [output]
      case Reject => Fields() == old(Fields()) && cf == old(cf) && printed == old(printed)
    }

    /** The Mealy machine's move took place: into a state of the next mode, with its output. */
    twostate predicate Moves(move: Move)
      reads this
    {
      match move
      case Go(m, output) => InMode(Fields(), m) && !cf && printed == old(printed) + [output]
      case Stay => Fields() == old(Fields()) && cf == old(cf) && printed == old(printed)
    }

    method CalculateOutputM1(input: string)
      modifies this
      ensures Reacts(if old(cf) then Handler1(Wrapping, old(Fields()), input) else Reject)
      ensures old(cf) && InMode(old(Fields()), M1) ==> Moves(Delta(M1, input))
    {
      hide Rem, Quot, Wrap;
      if cf && InMode(Fields(), M1) { Simulates1(Wrapping, Fields(), input); }
      if input == "usr2_ai1_VoidReply" && cf {
        cf := false;
        a1745113960 := "h";
        a2108127495 := Mul(Wrapping, Sub(Wrapping,
            Sub(Wrapping, Mod(Wrapping, Mod(Wrapping, Mul(Wrapping, a2108127495, a1522448132), 14999), 72), 91), -1),
            1);
        printed := printed + ["ai1_VoidReply"];
      }
    }

    method CalculateOutputM2(input: string)
      modifies this
      ensures Reacts(if old(cf) then Handler2(Wrapping, old(Fields()), input) else Reject)
      ensures old(cf) && InMode(old(Fields()), M2) ==> Moves(Delta(M2, input))
    {
      if cf && InMode(Fields(), M2) { Simulates2(Wrapping, Fields(), input); }
      if input == "usr4_ni1_ne1" && cf {
        cf := false;
        printed := printed + ["ni1_ne1"];
      }
      if input == "ai1_ce2" && cf {
        cf := false;
        a1745113960 := "h";
        a2108127495 := Add(Wrapping, Sub(Wrapping, Sub(Wrapping, Mod(Wrapping, a2108127495, 59), -98), 4), -42);
        printed := printed + ["usr4_ai1_ce2"];
      }
    }

    method CalculateOutputM3(input: string)
      modifies this
      ensures Reacts(if old(cf) then Handler3(Wrapping, old(Fields()), input) else Reject)
      ensures old(cf) && InMode(old(Fields()), M3) ==> Moves(Delta(M3, input))
    {
      hide Rem, Quot, Wrap;
      if cf && InMode(Fields(), M3) { Simulates3(Wrapping, Fields(), input); }
      if cf && input == "usr4_ai1_VoidReply" {
        cf := false;
        a1522448132 := Add(Wrapping, Mod(Wrapping,
            Mul(Wrapping, Sub(Wrapping, Mod(Wrapping, Mul(Wrapping, a2108127495, a2108127495), 50), 75), 5), 50), -31);
        a2108127495 := Add(Wrapping, Mul(Wrapping, Sub(Wrapping, Mul(Wrapping, a2108127495, a1522448132), 22476), 1),
            -3649);
        printed := printed + ["usr2_ai1_ce4"];
      }
    }

    method CalculateOutputM4(input: string)
      modifies this
      ensures Reacts(if old(cf) then Handler4(Wrapping, old(Fields()), input) else Reject)
      ensures old(cf) && InMode(old(Fields()), M4) ==> Moves(Delta(M4, input))
    {
      if cf && InMode(Fields(), M4) { Simulates4(Wrapping, Fields(), input); }
      if cf && input == "ai1_ce2" {
        cf := false;
        printed := printed + ["ai1_VoidReply"];
      }
      if cf && input == "ai1_ce1" {
        cf := false;
        a1745113960 := "g";
        a2108127495 := Sub(Wrapping, Mod(Wrapping, Sub(Wrapping, Sub(Wrapping, a2108127495, -7243), -1395), 59), -16);
        printed := printed + ["usr4_ai1_ce1"];
      }
      if input == "usr4_ni1_ne1" && cf {
        cf := false;
        a1745113960 := "i";
        printed := printed + ["usr2_ai1_ce4"];
      }
    }

    method CalculateOutputM5(input: string)
      modifies this
      ensures Reacts(if old(cf) then Handler5(Wrapping, old(Fields()), input) else Reject)
      ensures old(cf) && InMode(old(Fields()), M5) ==> Moves(Delta(M5, input))
    {
      if cf && InMode(Fields(), M5) { Simulates5(Wrapping, Fields(), input); }
      if input == "usr2_ai1_VoidReply" && cf {
        cf := false;
        a1745113960 := "h";
        printed := printed + ["none"];
      }
    }

    method CalculateOutputM6(input: string)
      modifies this
      ensures Reacts(if old(cf) then Handler6(Wrapping, old(Fields()), input) else Reject)
      ensures old(cf) && InMode(old(Fields()), M6) ==> Moves(Delta(M6, input))
    {
      hide Rem, Quot, Wrap;
      if cf && InMode(Fields(), M6) { Simulates6(Wrapping, Fields(), input); }
      if input == "usr4_ni1_ne1" && cf {
        cf := false;
        a2108127495 := Mul(Wrapping, Mul(Wrapping, Add(Wrapping, a2108127495, 13863), 2), 1);
        a422009172 := Add(Wrapping, Add(Wrapping,
            Sub(Wrapping, Mod(Wrapping, Add(Wrapping, Mod(Wrapping, Mul(Wrapping, a2108127495, a2108127495), 14999),
            -1380), 47), -150), 23887), -23885);
        printed := printed + ["none"];
      }
      if cf && input == "usr4_ai1_VoidReply" {
        cf := false;
        a1745113960 := "e";
        a2108127495 := Add(Wrapping, Add(Wrapping, Add(Wrapping, a2108127495, -139), -4), 5);
        printed := printed + ["ai1_VoidReply"];
      }
    }

    method CalculateOutputM7(input: string)
      modifies this
      ensures Reacts(if old(cf) then Handler7(Wrapping, old(Fields()), input) else Reject)
      ensures old(cf) && InMode(old(Fields()), M7) ==> Moves(Delta(M7, input))
    {
      hide Rem, Quot, Wrap;
      if cf && InMode(Fields(), M7) { Simulates7(Wrapping, Fields(), input); }
      if input == "usr4_ni1_ne1" && cf {
        cf := false;
        a1745113960 := "g";
        a2108127495 := Sub(Wrapping, Sub(Wrapping, Sub(Wrapping, Sub(Wrapping, a2108127495, 128), -3384), 4504), -1107);
        printed := printed + ["none"];
      }
      if cf && input == "usr4_ai1_VoidReply" {
        cf := false;
        a2108127495 := Sub(Wrapping, Mod(Wrapping,
            Mul(Wrapping, Sub(Wrapping, Sub(Wrapping, a2108127495, 22339), -35662), 2), 72), 149);
        printed := printed + ["ai1_VoidReply"];
      }
    }

    method CalculateOutputM8(input: string)
      modifies this
      ensures Reacts(if old(cf) then Handler8(Wrapping, old(Fields()), input) else Reject)
      ensures old(cf) && InMode(old(Fields()), M8) ==> Moves(Delta(M8, input))
    {
      hide Rem, Quot, Wrap;
      if cf && InMode(Fields(), M8) { Simulates8(Wrapping, Fields(), input); }
      if input == "usr4_ai1_VoidReply" && cf {
        cf := false;
        a1745113960 := "e";
        a2108127495 := Add(Wrapping, Mod(Wrapping,
            Mul(Wrapping, Add(Wrapping, Mod(Wrapping,
            Div(Wrapping, Mod(Wrapping, Mul(Wrapping, a2108127495, a422009172), 14999), 5), 72), -156), 5), 72), -65);
        printed := printed + ["ni1_ne1__ai1_VoidReply"];
      }
    }

    /** `ok` is false when the source throws. */
    method CalculateOutput(input: string) returns (ok: bool)
      modifies this
      ensures var r := Step(Wrapping, old(Fields()), input);
              ok == r.Accept? && cf == !ok &&
              Fields() == (if ok then r.next else old(Fields())) &&
              printed == old(printed) + if ok then [r.output] else []
    {
      hide Handler1, Handler2, Handler3, Handler4, Handler5, Handler6, Handler7, Handler8;
      cf := true;
      if cf && a2108127495 <= -164 {
        if cf && -83 < a1522448132 && 18 >= a1522448132 {
          CalculateOutputM1(input);
        }
      }
      if cf && -164 < a2108127495 && -19 >= a2108127495 {
        if cf && a1745113960 == "e" {
          CalculateOutputM2(input);
        }
        if cf && a1745113960 == "g" {
          CalculateOutputM3(input);
        }
        if cf && a1745113960 == "h" {
          CalculateOutputM4(input);
        }
        if a1745113960 == "i" && cf {
          CalculateOutputM5(input);
        }
      }
      if -19 < a2108127495 && 100 >= a2108127495 && cf {
        if cf && a1745113960 == "g" {
          CalculateOutputM6(input);
        }
        if cf && a1745113960 == "h" {
          CalculateOutputM7(input);
        }
      }
      if cf && 100 < a2108127495 {
        if 103 < a422009172 && 198 >= a422009172 && cf {
          CalculateOutputM8(input);
        }
      }
      ok := !cf;
    }

    /** The loop of the program over the lines it is given; a thrown exception is caught and reported. */
    method Loop(inputs: seq<string>) returns (events: seq<Event>)
      modifies this
      ensures events == Run(Wrapping, old(Fields()), inputs)
      ensures Fields() == After(Wrapping, old(Fields()), inputs)
      ensures printed == old(printed) + Lines(events)
    {
      hide Step, Run, After, Lines;
      events := [];
      LinesOfNothing();
      assert inputs[0..] == inputs && events + Run(Wrapping, Fields(), inputs) == Run(Wrapping, Fields(), inputs);
      for i := 0 to |inputs|
        invariant events + Run(Wrapping, Fields(), inputs[i..]) == Run(Wrapping, old(Fields()), inputs)
        invariant After(Wrapping, Fields(), inputs[i..]) == After(Wrapping, old(Fields()), inputs)
        invariant printed == old(printed) + Lines(events)
      {
        RunUnfolds(Wrapping, Fields(), inputs, i);
        var ok := CalculateOutput(inputs[i]);
        var event := if ok then Printed(printed[|printed| - 1]) else Rejected;
        LinesAppend(events, event);
        events := events + [event];
      }
      RunOfNothing(Wrapping, Fields());
      assert inputs[|inputs|..] == [];
    }
  }
}
