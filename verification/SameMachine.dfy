/** The Java machine and the C program show the same traces, up to the numbering of the symbols. */
module SameMachine {
  import Java = JavaEca
  import C = CEca
  import opened MachineInt

  /** The numbers of the symbols that the machines read or show; 0 is the number of no symbol. */
  function Code(symbol: string): nat {
    if symbol == "ai1_ce1" then 55
    else if symbol == "usr4_ai1_VoidReply" then 56
    else if symbol == "usr4_ni1_ne1" then 57
    else if symbol == "ai1_ce2" then 58
    else if symbol == "usr2_ai1_VoidReply" then 59
    else if symbol == "none" then 60
    else if symbol == "usr4_ai1_ce2" then 61
    else if symbol == "usr4_ai1_ce1" then 62
    else if symbol == "usr2_ai1_ce4" then 63
    else if symbol == "ai1_VoidReply" then 64
    else if symbol == "ni1_ne1" then 65
    else if symbol == "ni1_ne1__ai1_VoidReply" then 66
    else 0
  }

  function Codes(symbols: seq<string>): seq<int> {
    seq(|symbols|, i requires 0 <= i < |symbols| => Code(symbols[i]))
  }

  /** The C program's name for a mode of the Java machine. */
  function Twin(m: Java.Mode): C.Mode {
    match m
    case M1 => C.M7
    case M2 => C.M8
    case M3 => C.M4
    case M4 => C.M6
    case M5 => C.M3
    case M6 => C.M2
    case M7 => C.M1
    case M8 => C.M5
  }

  function CodedMove(move: Java.Move): C.Move {
    match move
    case Go(m, output) => C.Go(Twin(m), Code(output))
    case Stay => C.Stay
  }

  /** An exception of the Java machine is the complaint of the C program about the input. */
  function CodedEvent(event: Java.Event, input: string): C.Event {
    match event
    case Printed(output) => C.Printed(Code(output))
    case Rejected => C.Invalid(Code(input))
  }

  function CodedEvents(events: seq<Java.Event>, inputs: seq<string>): seq<C.Event>
    requires |events| == |inputs|
  {
    seq(|inputs|, i requires 0 <= i < |inputs| => CodedEvent(events[i], inputs[i]))
  }

  /** The two Mealy machines are one machine. */
  lemma SameMoves(m: Java.Mode, input: string)
    ensures C.Delta(Twin(m), Code(input)) == CodedMove(Java.Delta(m, input))
  {}

  lemma {:induction false} MealyRunLength(m: Java.Mode, inputs: seq<string>)
    ensures |Java.MealyRun(m, inputs)| == |inputs|
    decreases |inputs|
  {
    if inputs != [] {
      var move := Java.Delta(m, inputs[0]);
      MealyRunLength(if move.Go? then move.mode else m, inputs[1..]);
    }
  }

  lemma {:induction false} SameMealyRuns(m: Java.Mode, inputs: seq<string>)
    ensures |Java.MealyRun(m, inputs)| == |inputs|
    ensures C.MealyRun(Twin(m), Codes(inputs)) == CodedEvents(Java.MealyRun(m, inputs), inputs)
    ensures C.ModeAfter(Twin(m), Codes(inputs)) == Twin(Java.ModeAfter(m, inputs))
    decreases |inputs|
  {
    hide Code, Twin, Java.Delta, C.Delta;
    MealyRunLength(m, inputs);
    if inputs != [] {
      var move := Java.Delta(m, inputs[0]);
      var m' := if move.Go? then move.mode else m;
      SameMoves(m, inputs[0]);
      SameMealyRuns(m', inputs[1..]);
      assert Codes(inputs)[0] == Code(inputs[0]) && Codes(inputs)[1..] == Codes(inputs[1..]);
      var events := Java.MealyRun(m, inputs);
      assert events[1..] == Java.MealyRun(m', inputs[1..]);
      assert CodedEvents(events, inputs) ==
             [CodedEvent(events[0], inputs[0])] + CodedEvents(events[1..], inputs[1..]);
    }
  }

  /** From twin modes the two programs show the same trace for all lists of inputs, whatever their variables hold. */
  lemma SameTraces(st: Java.State, st': C.State, m: Java.Mode, inputs: seq<string>)
    requires Java.InMode(st, m) && C.InMode(st', Twin(m))
    ensures |Java.Run(Wrapping, st, inputs)| == |inputs|
    ensures C.Run(st', Codes(inputs)) == CodedEvents(Java.Run(Wrapping, st, inputs), inputs)
    ensures var m' := Java.ModeAfter(m, inputs);
            Java.InMode(Java.After(Wrapping, st, inputs), m') && C.InMode(C.After(st', Codes(inputs)), Twin(m'))
  {
    hide Java.InMode, C.InMode;
    Java.RunSimulates(st, m, inputs);
    C.RunSimulates(st', Twin(m), Codes(inputs));
    SameMealyRuns(m, inputs);
  }

  /** The symbol with a number. */
  function Symbol(code: int): string {
    match code
    case 55 => "ai1_ce1"
    case 56 => "usr4_ai1_VoidReply"
    case 57 => "usr4_ni1_ne1"
    case 58 => "ai1_ce2"
    case 59 => "usr2_ai1_VoidReply"
    case 60 => "none"
    case 61 => "usr4_ai1_ce2"
    case 62 => "usr4_ai1_ce1"
    case 63 => "usr2_ai1_ce4"
    case 64 => "ai1_VoidReply"
    case 65 => "ni1_ne1"
    case 66 => "ni1_ne1__ai1_VoidReply"
    case _ => ""
  }

  /** No two symbols share a number, so the numbered trace determines the trace. */
  lemma SymbolOfCode(symbol: string)
    requires Code(symbol) != 0
    ensures Symbol(Code(symbol)) == symbol
  {}

  lemma CodeOfSymbol(code: int)
    requires 55 <= code <= 66
    ensures Code(Symbol(code)) == code
  {}

  lemma FromTheStart(inputs: seq<string>)
    ensures |Java.Run(Wrapping, Java.START, inputs)| == |inputs|
    ensures C.Run(C.START, Codes(inputs)) == CodedEvents(Java.Run(Wrapping, Java.START, inputs), inputs)
  {
    SameTraces(Java.START, C.START, Java.M4, inputs);
  }

  /** The strings that the Java program names as its inputs. */
  const INPUTS := {"ai1_ce1", "usr4_ai1_VoidReply", "usr4_ni1_ne1", "ai1_ce2", "usr2_ai1_VoidReply"}

  lemma InputsAreRead(inputs: seq<string>)
    requires forall s | s in inputs :: s in INPUTS
    ensures forall i | 0 <= i < |inputs| :: 55 <= Codes(inputs)[i] <= 59
  {
    forall i | 0 <= i < |inputs| ensures 55 <= Codes(inputs)[i] <= 59 {
      assert inputs[i] in INPUTS;
    }
  }

  /** Both programs over the same inputs: no number stops the C program, and its lines are the events of the other. */
  method RunBoth(java: Java.Eca, c: C.Program, ghost m: Java.Mode, inputs: seq<string>)
    returns (events: seq<Java.Event>, handled: nat)
    requires Java.InMode(java.Fields(), m) && C.InMode(c.Fields(), Twin(m)) && c.Valid()
    requires forall s | s in inputs :: s in INPUTS
    modifies java, c
    ensures handled == |events| == |inputs|
    ensures c.events == old(c.events) + CodedEvents(events, inputs)
    ensures var m' := Java.ModeAfter(m, inputs);
            Java.InMode(java.Fields(), m') && C.InMode(c.Fields(), Twin(m'))
  {
    hide Java.Run, C.Run, Java.InMode, C.InMode, Code, Twin;
    SameTraces(java.Fields(), c.Fields(), m, inputs);
    InputsAreRead(inputs);
    events := java.Loop(inputs);
    handled := c.Loop(Codes(inputs));
    assert Codes(inputs)[..handled] == Codes(inputs);
  }

  // ----- no smaller machine -----

  /** Four words that tell any two modes apart. */
  const PROBES: seq<seq<string>> := [["usr2_ai1_VoidReply"], ["usr4_ni1_ne1"], ["usr4_ai1_VoidReply"],
    ["usr4_ni1_ne1", "usr4_ai1_VoidReply"]]

  lemma OneInput(m: Java.Mode, a: string)
    ensures Java.MealyRun(m, [a]) ==
            [if Java.Delta(m, a).Go? then Java.Printed(Java.Delta(m, a).output) else Java.Rejected]
  {
    hide Java.Delta;
    assert [a][1..] == [];
  }

  lemma ModesDiffer(m: Java.Mode, m': Java.Mode)
    requires forall w | w in PROBES :: Java.MealyRun(m, w) == Java.MealyRun(m', w)
    ensures m == m'
  {
    assert PROBES[0] in PROBES && PROBES[1] in PROBES && PROBES[2] in PROBES && PROBES[3] in PROBES;
    OneInput(m, "usr2_ai1_VoidReply");
    OneInput(m', "usr2_ai1_VoidReply");
    OneInput(m, "usr4_ni1_ne1");
    OneInput(m', "usr4_ni1_ne1");
    OneInput(m, "usr4_ai1_VoidReply");
    OneInput(m', "usr4_ai1_VoidReply");
    TwoInputs();
  }

  /** Modes 6 and 7 show the same for every single input and differ in the second. */
  lemma TwoInputs()
    ensures Java.MealyRun(Java.M6, PROBES[3]) != Java.MealyRun(Java.M7, PROBES[3])
  {
    var w := PROBES[3];
    assert w[1..] == ["usr4_ai1_VoidReply"];
    OneInput(Java.M8, "usr4_ai1_VoidReply");
    OneInput(Java.M3, "usr4_ai1_VoidReply");
    assert Java.MealyRun(Java.M6, w) == [Java.Printed("none")] + Java.MealyRun(Java.M8, w[1..]);
    assert Java.MealyRun(Java.M7, w) == [Java.Printed("none")] + Java.MealyRun(Java.M3, w[1..]);
    assert Java.MealyRun(Java.M6, w)[1] != Java.MealyRun(Java.M7, w)[1];
  }

  lemma {:induction false} MealyRunAppend(m: Java.Mode, u: seq<string>, w: seq<string>)
    ensures Java.MealyRun(m, u + w) == Java.MealyRun(m, u) + Java.MealyRun(Java.ModeAfter(m, u), w)
    decreases |u|
  {
    hide Java.Delta;
    if u == [] {
      assert u + w == w;
    } else {
      var move := Java.Delta(m, u[0]);
      MealyRunAppend(if move.Go? then move.mode else m, u[1..], w);
      assert (u + w)[1..] == u[1..] + w;
    }
  }

  function Distance(m: Java.Mode): nat {
    match m
    case M4 => 0
    case M5 | M6 => 1
    case M2 | M8 => 2
    case M7 => 3
    case M3 => 4
    case M1 => 5
  }

  /** Inputs that lead from the start to a mode. */
  function Access(m: Java.Mode): seq<string>
    decreases Distance(m)
  {
    match m
    case M4 => []
    case M6 => ["ai1_ce1"]
    case M5 => ["usr4_ni1_ne1"]
    case M8 => Access(Java.M6) + ["usr4_ni1_ne1"]
    case M2 => Access(Java.M6) + ["usr4_ai1_VoidReply"]
    case M7 => Access(Java.M2) + ["ai1_ce2"]
    case M3 => Access(Java.M7) + ["usr4_ni1_ne1"]
    case M1 => Access(Java.M3) + ["usr4_ai1_VoidReply"]
  }

  lemma {:induction false} ModeAfterAppend(m: Java.Mode, u: seq<string>, a: string)
    ensures var last := Java.ModeAfter(m, u);
            Java.ModeAfter(m, u + [a]) == if Java.Delta(last, a).Go? then Java.Delta(last, a).mode else last
    decreases |u|
  {
    hide Java.Delta;
    if u == [] {
      assert u + [a] == [a] && [a][1..] == [];
    } else {
      var move := Java.Delta(m, u[0]);
      ModeAfterAppend(if move.Go? then move.mode else m, u[1..], a);
      assert (u + [a])[1..] == u[1..] + [a];
    }
  }

  lemma AccessReaches(m: Java.Mode)
    ensures Java.ModeAfter(Java.M4, Access(m)) == m
  {
    ModeAfterAppend(Java.M4, [], "ai1_ce1");
    ModeAfterAppend(Java.M4, [], "usr4_ni1_ne1");
    assert [] + ["ai1_ce1"] == ["ai1_ce1"] && [] + ["usr4_ni1_ne1"] == ["usr4_ni1_ne1"];
    ModeAfterAppend(Java.M4, Access(Java.M6), "usr4_ni1_ne1");
    ModeAfterAppend(Java.M4, Access(Java.M6), "usr4_ai1_VoidReply");
    ModeAfterAppend(Java.M4, Access(Java.M2), "ai1_ce2");
    ModeAfterAppend(Java.M4, Access(Java.M7), "usr4_ni1_ne1");
    ModeAfterAppend(Java.M4, Access(Java.M3), "usr4_ai1_VoidReply");
  }

  /** A machine, given by the state it is in after some inputs and by what it shows from a state on, has the traces
      of the program. */
  ghost predicate ShowsTraces<S(!new)>(after: seq<string> -> S, show: (S, seq<string>) -> seq<Java.Event>) {
    forall u, w ::
      Java.Run(Wrapping, Java.START, u + w) == Java.Run(Wrapping, Java.START, u) + show(after(u), w)
  }

  /** The eight modes are such a machine. */
  lemma EightStatesSuffice()
    ensures ShowsTraces(u => Java.ModeAfter(Java.M4, u), (m, w) => Java.MealyRun(m, w))
  {
    hide Java.Run, Java.MealyRun, Java.ModeAfter;
    forall u, w ensures Java.Run(Wrapping, Java.START, u + w) ==
                        Java.Run(Wrapping, Java.START, u) + Java.MealyRun(Java.ModeAfter(Java.M4, u), w) {
      Java.ReachableStatesHaveOneMode(u);
      Java.ReachableStatesHaveOneMode(u + w);
      MealyRunAppend(Java.M4, u, w);
    }
  }

  /** No such machine has fewer states: after the eight words it is in eight different ones. */
  lemma EightStatesAreNeeded<S(!new)>(after: seq<string> -> S, show: (S, seq<string>) -> seq<Java.Event>,
      m: Java.Mode, m': Java.Mode)
    requires ShowsTraces(after, show)
    ensures after(Access(m)) == after(Access(m')) ==> m == m'
  {
    hide Java.Run, Java.MealyRun, Java.ModeAfter, Access, ShowsTraces;
    if after(Access(m)) == after(Access(m')) {
      forall w | w in PROBES ensures Java.MealyRun(m, w) == Java.MealyRun(m', w) {
        ShowsTheRun(after, show, m, w);
        ShowsTheRun(after, show, m', w);
      }
      ModesDiffer(m, m');
    }
  }

  lemma ShowsTheRun<S(!new)>(after: seq<string> -> S, show: (S, seq<string>) -> seq<Java.Event>, m: Java.Mode,
      w: seq<string>)
    requires ShowsTraces(after, show)
    ensures show(after(Access(m)), w) == Java.MealyRun(m, w)
  {
    hide Java.Run, Java.MealyRun, Java.ModeAfter, Access;
    var u := Access(m);
    AccessReaches(m);
    Java.ReachableStatesHaveOneMode(u);
    Java.ReachableStatesHaveOneMode(u + w);
    MealyRunAppend(Java.M4, u, w);
    var before := Java.Run(Wrapping, Java.START, u);
    assert before + show(after(u), w) == before + Java.MealyRun(m, w);
    assert (before + show(after(u), w))[|before|..] == show(after(u), w);
    assert (before + Java.MealyRun(m, w))[|before|..] == Java.MealyRun(m, w);
  }

  // ----- recorded runs -----

  /** A recorded run: the inputs, each with the output it is answered with. */
  type Record = seq<(string, string)>

  function Fed(run: Record): seq<string> {
    seq(|run|, i requires 0 <= i < |run| => run[i].0)
  }

  function Expected(run: Record): seq<Java.Event> {
    seq(|run|, i requires 0 <= i < |run| => Java.Printed(run[i].1))
  }

  /** The repeated part of the recorded runs: from mode 4 through modes 6, 8 (if `wide`), 2 and 7 and back. */
  function Round(wide: bool, repeats: nat): Record {
    [("ai1_ce1", "usr4_ai1_ce1")] +
    (if wide then [("usr4_ni1_ne1", "none"), ("usr4_ai1_VoidReply", "ni1_ne1__ai1_VoidReply")]
     else [("usr4_ai1_VoidReply", "ai1_VoidReply")]) +
    Repeated(repeats) + [("ai1_ce2", "usr4_ai1_ce2"), ("usr4_ai1_VoidReply", "ai1_VoidReply")]
  }

  function Repeated(repeats: nat): Record {
    if repeats == 0 then [] else [("usr4_ni1_ne1", "ni1_ne1")] + Repeated(repeats - 1)
  }

  function Rounds(rounds: seq<(bool, nat)>): Record {
    if rounds == [] then [] else Round(rounds[0].0, rounds[0].1) + Rounds(rounds[1..])
  }

  ghost predicate Leads(m: Java.Mode, run: Record, m': Java.Mode) {
    Java.MealyRun(m, Fed(run)) == Expected(run) && Java.ModeAfter(m, Fed(run)) == m'
  }

  lemma {:induction false} LeadsOn(m: Java.Mode, run: Record, k: Java.Mode, rest: Record, m': Java.Mode)
    requires Leads(m, run, k) && Leads(k, rest, m')
    ensures Leads(m, run + rest, m')
    decreases |run|
  {
    hide Java.Delta;
    if run == [] {
      assert run + rest == rest;
    } else {
      var move := Java.Delta(m, run[0].0);
      var next := if move.Go? then move.mode else m;
      assert Fed(run)[0] == run[0].0 && Fed(run)[1..] == Fed(run[1..]);
      assert Expected(run)[0] == Java.Printed(run[0].1) && Expected(run)[1..] == Expected(run[1..]);
      LeadsOn(next, run[1..], k, rest, m');
      assert Fed(run + rest)[0] == run[0].0 && Fed(run + rest)[1..] == Fed(run[1..] + rest);
      assert Expected(run + rest) == [Java.Printed(run[0].1)] + Expected(run[1..] + rest);
    }
  }

  lemma LeadsOne(m: Java.Mode, input: string, output: string)
    requires Java.Delta(m, input).Go? && Java.Delta(m, input).output == output
    ensures Leads(m, [(input, output)], Java.Delta(m, input).mode)
  {
    hide Java.Delta;
    OneInput(m, input);
    ModeAfterAppend(m, [], input);
    assert [] + [input] == [input] == Fed([(input, output)]);
    assert Expected([(input, output)]) == [Java.Printed(output)];
  }

  lemma {:induction false} RepeatedLeads(repeats: nat)
    ensures Leads(Java.M2, Repeated(repeats), Java.M2)
  {
    if repeats > 0 {
      LeadsOne(Java.M2, "usr4_ni1_ne1", "ni1_ne1");
      RepeatedLeads(repeats - 1);
      LeadsOn(Java.M2, [("usr4_ni1_ne1", "ni1_ne1")], Java.M2, Repeated(repeats - 1), Java.M2);
    } else {
      assert Fed([]) == [] && Expected([]) == [];
    }
  }

  lemma RoundLeads(wide: bool, repeats: nat)
    ensures Leads(Java.M4, Round(wide, repeats), Java.M4)
  {
    hide Leads;
    LeadsOne(Java.M4, "ai1_ce1", "usr4_ai1_ce1");
    LeadsOne(Java.M6, "usr4_ni1_ne1", "none");
    LeadsOne(Java.M8, "usr4_ai1_VoidReply", "ni1_ne1__ai1_VoidReply");
    LeadsOne(Java.M6, "usr4_ai1_VoidReply", "ai1_VoidReply");
    LeadsOne(Java.M2, "ai1_ce2", "usr4_ai1_ce2");
    LeadsOne(Java.M7, "usr4_ai1_VoidReply", "ai1_VoidReply");
    var entry: Record := [("ai1_ce1", "usr4_ai1_ce1")];
    var none: Record, both: Record := [("usr4_ni1_ne1", "none")], [("usr4_ai1_VoidReply", "ni1_ne1__ai1_VoidReply")];
    LeadsOn(Java.M6, none, Java.M8, both, Java.M2);
    var way: Record := if wide then none + both else [("usr4_ai1_VoidReply", "ai1_VoidReply")];
    LeadsOn(Java.M4, entry, Java.M6, way, Java.M2);
    RepeatedLeads(repeats);
    LeadsOn(Java.M4, entry + way, Java.M2, Repeated(repeats), Java.M2);
    var back: Record, home: Record := [("ai1_ce2", "usr4_ai1_ce2")], [("usr4_ai1_VoidReply", "ai1_VoidReply")];
    LeadsOn(Java.M2, back, Java.M7, home, Java.M4);
    LeadsOn(Java.M4, entry + way + Repeated(repeats), Java.M2, back + home, Java.M4);
    assert entry + way + Repeated(repeats) + (back + home) == Round(wide, repeats);
  }

  /** Every run of rounds, as the recorded ones are, is answered by the Java machine as the record says. */
  lemma {:induction false} RoundsLead(rounds: seq<(bool, nat)>)
    ensures Leads(Java.M4, Rounds(rounds), Java.M4)
  {
    if rounds == [] {
      assert Fed([]) == [] && Expected([]) == [];
    } else {
      RoundLeads(rounds[0].0, rounds[0].1);
      RoundsLead(rounds[1..]);
      LeadsOn(Java.M4, Round(rounds[0].0, rounds[0].1), Java.M4, Rounds(rounds[1..]), Java.M4);
    }
  }

  lemma RecordedRuns(rounds: seq<(bool, nat)>, n: nat)
    requires n <= |Rounds(rounds)|
    ensures Java.Run(Wrapping, Java.START, Fed(Rounds(rounds)[..n])) == Expected(Rounds(rounds)[..n])
  {
    var run := Rounds(rounds);
    RoundsLead(rounds);
    var u, w := Fed(run[..n]), Fed(run[n..]);
    assert u + w == Fed(run);
    MealyRunAppend(Java.M4, u, w);
    Java.ReachableStatesHaveOneMode(u);
    SameMealyRuns(Java.M4, u);
    assert Java.MealyRun(Java.M4, Fed(run))[..n] == Expected(run)[..n] == Expected(run[..n]);
    assert (Java.MealyRun(Java.M4, u) + Java.MealyRun(Java.ModeAfter(Java.M4, u), w))[..n] == Java.MealyRun(Java.M4, u);
  }
}
