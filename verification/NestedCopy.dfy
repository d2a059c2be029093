/** The copy of the Java machine whose guard for large values, and whose exception, stand inside the guard for small
    ones: it follows the original exactly as long as the original does not use its eighth handler. */
module NestedCopy {
  import opened JavaEca
  import opened MachineInt

  datatype Response =
    | Answers(next: State, output: string)
    | Throws
    | Ignores   // no line, no exception, no change

  /** One reaction of the copy. */
  function Nested(st: State, input: string): Response {
    if st.x > 100 then Ignores else
      match Step(Wrapping, st, input)
      case Accept(next, output) => Answers(next, output)
      case Reject => if st.x > -19 then Throws else Ignores
  }

  lemma StepInMiddle(st: State, input: string)
    requires -19 < st.x <= 100
    ensures Step(Wrapping, st, input) ==
            if st.s == "g" then Handler6(Wrapping, st, input)
            else if st.s == "h" then Handler7(Wrapping, st, input) else Reject
  {}

  /** The method of the copy, over the values. */
  method CalculateOutput(e: Eca, input: string) returns (thrown: bool)
    modifies e
    ensures match Nested(old(e.Fields()), input)
            case Answers(next, output) => e.Fields() == next && !thrown && e.printed == old(e.printed) + [output]
            case Throws => e.Fields() == old(e.Fields()) && thrown && e.printed == old(e.printed)
            case Ignores => e.Fields() == old(e.Fields()) && !thrown && e.printed == old(e.printed)
  {
    hide Handler1, Handler2, Handler3, Handler4, Handler5, Handler6, Handler7, Handler8;
    e.cf := true;
    if e.cf && e.a2108127495 <= -164 {
      if e.cf && -83 < e.a1522448132 && 18 >= e.a1522448132 {
        e.CalculateOutputM1(input);
      }
    }
    if e.cf && -164 < e.a2108127495 && -19 >= e.a2108127495 {
      if e.cf && e.a1745113960 == "e" {
        e.CalculateOutputM2(input);
      }
      if e.cf && e.a1745113960 == "g" {
        e.CalculateOutputM3(input);
      }
      if e.cf && e.a1745113960 == "h" {
        e.CalculateOutputM4(input);
      }
      if e.a1745113960 == "i" && e.cf {
        e.CalculateOutputM5(input);
      }
    }
    thrown := false;
    if -19 < e.a2108127495 && 100 >= e.a2108127495 && e.cf {
      thrown := Middle(e, input);
    }
  }

  /** The nested part. */
  method Middle(e: Eca, input: string) returns (thrown: bool)
    requires e.cf && -19 < e.a2108127495 <= 100
    modifies e
    ensures match Step(Wrapping, old(e.Fields()), input)
            case Accept(next, output) =>
              e.Fields() == next && !thrown && !e.cf && e.printed == old(e.printed) + [output]
            case Reject => e.Fields() == old(e.Fields()) && thrown && e.printed == old(e.printed)
  {
    hide Step, Handler6, Handler7, Handler8;
    StepInMiddle(e.Fields(), input);
    if e.cf && e.a1745113960 == "g" {
      e.CalculateOutputM6(input);
    }
    if e.cf && e.a1745113960 == "h" {
      e.CalculateOutputM7(input);
    }
    if e.cf && 100 < e.a2108127495 {
      assert false;   // the guards and the call of the eighth handler stand here
    }
    thrown := e.cf;
  }

  /** In a mode the copy ignores what it does not know, except in modes 6 and 7, where it throws; in mode 8 it ignores
      everything. */
  lemma NestedInMode(st: State, m: Mode, input: string)
    requires InMode(st, m)
    ensures Nested(st, input) ==
            if m == M8 then Ignores
            else if Delta(m, input).Go? then
              Answers(Step(Wrapping, st, input).next, Step(Wrapping, st, input).output)
            else if m == M6 || m == M7 then Throws else Ignores
  {
    hide Step, Delta;
    StepSimulates(Wrapping, st, m, input);
  }

  function NestedNext(st: State, input: string): State {
    if Nested(st, input).Answers? then Nested(st, input).next else st
  }

  /** The lines of the copy for a list of inputs. */
  function NestedLines(st: State, inputs: seq<string>): seq<string>
    decreases |inputs|
  {
    if inputs == [] then [] else
      (if Nested(st, inputs[0]).Answers? then [Nested(st, inputs[0]).output] else []) +
      NestedLines(NestedNext(st, inputs[0]), inputs[1..])
  }

  function NestedAfter(st: State, inputs: seq<string>): State
    decreases |inputs|
  {
    if inputs == [] then st else NestedAfter(NestedNext(st, inputs[0]), inputs[1..])
  }

  /** The copy never leaves mode 8. */
  lemma {:induction false} Stuck(st: State, inputs: seq<string>)
    requires st.x > 100
    ensures NestedLines(st, inputs) == [] && NestedAfter(st, inputs) == st
    decreases |inputs|
  {
    if inputs != [] { Stuck(st, inputs[1..]); }
  }

  /** Some input meets the original in mode 8 and leads it out. */
  predicate Departs(m: Mode, inputs: seq<string>)
    decreases |inputs|
  {
    inputs != [] && ((m == M8 && inputs[0] == "usr4_ai1_VoidReply") || Departs(ModeAfter(m, [inputs[0]]), inputs[1..]))
  }

  lemma OneStep(m: Mode, input: string)
    ensures ModeAfter(m, [input]) == if Delta(m, input).Go? then Delta(m, input).mode else m
  {
    hide Delta;
    assert [input][1..] == [];
  }

  lemma LinesOfRun(st: State, inputs: seq<string>)
    requires inputs != []
    ensures var r := Step(Wrapping, st, inputs[0]);
            Lines(Run(Wrapping, st, inputs)) ==
              (if r.Accept? then [r.output] else []) + Lines(Run(Wrapping, NextState(st, r), inputs[1..])) &&
            After(Wrapping, st, inputs) == After(Wrapping, NextState(st, r), inputs[1..])
  {
    hide Step;
  }

  /** The copy prints a prefix of what the original prints. It prints all of it, and ends in the same state, exactly
      when no input leads the original out of mode 8. */
  lemma {:induction false} NestedFollows(st: State, m: Mode, inputs: seq<string>)
    requires InMode(st, m)
    ensures NestedLines(st, inputs) <= Lines(Run(Wrapping, st, inputs))
    ensures NestedLines(st, inputs) == Lines(Run(Wrapping, st, inputs)) <==> !Departs(m, inputs)
    ensures !Departs(m, inputs) ==> NestedAfter(st, inputs) == After(Wrapping, st, inputs)
    ensures Departs(m, inputs) ==> InMode(NestedAfter(st, inputs), M8)
    decreases |inputs|
  {
    hide Step, Delta, Nested, InMode;
    if inputs != [] {
      var input, rest := inputs[0], inputs[1..];
      var r := Step(Wrapping, st, input);
      NestedInMode(st, m, input);
      StepSimulates(Wrapping, st, m, input);
      LinesOfRun(st, inputs);
      OneStep(m, input);
      if m == M8 {
        LeavingEight(input);
        Eight(st);
        Stuck(st, inputs);
        if r.Reject? { NestedFollows(st, m, rest); }
      } else {
        NestedFollows(NextState(st, r), ModeAfter(m, [input]), rest);
      }
    }
  }

  lemma LeavingEight(input: string)
    ensures Delta(M8, input).Go? <==> input == "usr4_ai1_VoidReply"
  {}

  lemma Eight(st: State)
    requires InMode(st, M8)
    ensures st.x > 100
  {}

  /** From the start three inputs are enough for the copy to lose a line. */
  lemma LosesALine()
    ensures Departs(M4, ["ai1_ce1", "usr4_ni1_ne1", "usr4_ai1_VoidReply"])
  {
    var inputs := ["ai1_ce1", "usr4_ni1_ne1", "usr4_ai1_VoidReply"];
    OneStep(M4, "ai1_ce1");
    OneStep(M6, "usr4_ni1_ne1");
    assert inputs[1..] == ["usr4_ni1_ne1", "usr4_ai1_VoidReply"];
    assert inputs[1..][1..] == ["usr4_ai1_VoidReply"];
    assert Departs(M8, ["usr4_ai1_VoidReply"]);
    assert Departs(M6, inputs[1..]);
  }
}
