/** The instrumented machine: every value is a heap object, every operation writes a shared temporary.
    It refines the plain machine because no field is ever one of the temporaries: assignments copy. */
module Instrumented {
  import opened MachineInt
  import opened JavaEca

  /** A boxed integer. `slot` is n for the shared temporary `var_n`, and 0 for every other box. */
  class MyInt {
    ghost const slot: nat
    var val: Int32

    constructor (v: Int32, ghost slot: nat := 0)
      ensures val == v && this.slot == slot
    {
      val := v;
      this.slot := slot;
    }
  }

  class MyBool {
    ghost const slot: nat
    var val: bool

    constructor (v: bool, ghost slot: nat := 0)
      ensures val == v && this.slot == slot
    {
      val := v;
      this.slot := slot;
    }
  }

  class MyString {
    var val: string

    constructor (v: string)
      ensures val == v
    {
      val := v;
    }
  }

  /** What goes to System.out: a line of `myPrint`, with a line break before it, or the trace of `myIf`. */
  datatype Chunk = Line(text: string) | Branch(taken: bool)

  function Payload(out: seq<Chunk>): seq<string> {
    if out == [] then [] else (if out[0].Line? then [out[0].text] else []) + Payload(out[1..])
  }

  lemma {:induction false} PayloadAppend(out: seq<Chunk>, c: Chunk)
    ensures Payload(out + [c]) == Payload(out) + if c.Line? then [c.text] else []
  {
    if out != [] {
      assert (out + [c])[1..] == out[1..] + [c];
      PayloadAppend(out[1..], c);
    }
  }

  lemma {:induction false} PayloadConcat(a: seq<Chunk>, b: seq<Chunk>)
    ensures Payload(a + b) == Payload(a) + Payload(b)
  {
    if a == [] {
      assert a + b == b;
    } else {
      assert (a + b)[1..] == a[1..] + b;
      PayloadConcat(a[1..], b);
    }
  }

  // ----- the stream of one call -----

  /** A block of a handler: the test of its guard and, if it is taken, its line. */
  function Block(taken: bool, line: string): seq<Chunk> {
    if taken then [Branch(true), Line(line)] else [Branch(false)]
  }

  lemma BlockShows(out: seq<Chunk>, line: string)
    ensures out + [Branch(true)] + [Line(line)] == out + Block(true, line)
    ensures out + [Branch(false)] == out + Block(false, line)
  {}

  /** A handler that is called: all its blocks are tested in order, also after one was taken. */
  function HandlerTrace(open: bool, m: Mode, input: string): seq<Chunk> {
    match m
    case M1 => Block(open && input == "usr2_ai1_VoidReply", "ai1_VoidReply")
    case M2 => Block(open && input == "usr4_ni1_ne1", "ni1_ne1") + Block(open && input == "ai1_ce2", "usr4_ai1_ce2")
    case M3 => Block(open && input == "usr4_ai1_VoidReply", "usr2_ai1_ce4")
    case M4 =>
      Block(open && input == "ai1_ce2", "ai1_VoidReply") + Block(open && input == "ai1_ce1", "usr4_ai1_ce1") +
      Block(open && input == "usr4_ni1_ne1", "usr2_ai1_ce4")
    case M5 => Block(open && input == "usr2_ai1_VoidReply", "none")
    case M6 | M7 =>
      Block(open && input == "usr4_ni1_ne1", "none") + Block(open && input == "usr4_ai1_VoidReply", "ai1_VoidReply")
    case M8 => Block(open && input == "usr4_ai1_VoidReply", "ni1_ne1__ai1_VoidReply")
  }

  /** The last test before a handler, and the handler if it succeeds. */
  function Guarded(here: bool, m: Mode, input: string): seq<Chunk> {
    [Branch(here)] + if here then HandlerTrace(true, m, input) else []
  }

  function Strings2Trace(s: string, input: string): seq<Chunk> {
    Guarded(s == "e", M2, input) + Guarded(s == "g", M3, input) + Guarded(s == "h", M4, input) +
    Guarded(s == "i", M5, input)
  }

  function Strings3Trace(s: string, input: string): seq<Chunk> {
    Guarded(s == "g", M6, input) + Guarded(s == "h", M7, input)
  }

  lemma Joined2(out: seq<Chunk>, a: seq<Chunk>, b: seq<Chunk>)
    ensures out + a + b == out + (a + b)
  {}

  lemma Joined3(out: seq<Chunk>, a: seq<Chunk>, b: seq<Chunk>, c: seq<Chunk>)
    ensures out + a + b + c == out + (a + b + c)
  {}

  lemma Joined4(out: seq<Chunk>, a: seq<Chunk>, b: seq<Chunk>, c: seq<Chunk>, d: seq<Chunk>)
    ensures out + a + b + c + d == out + (a + b + c + d)
  {}

  /** The four outer tests of the cascade; `open` says that no handler has run yet. */
  function Region1Trace(open: bool, st: State, input: string): seq<Chunk> {
    var here := open && st.x <= -164;
    [Branch(here)] + if here then Guarded(-83 < st.z <= 18, M1, input) else []
  }

  function Region2Trace(open: bool, st: State, input: string): seq<Chunk> {
    var here := open && -164 < st.x <= -19;
    [Branch(here)] + if here then Strings2Trace(st.s, input) else []
  }

  function Region3Trace(open: bool, st: State, input: string): seq<Chunk> {
    var here := open && -19 < st.x <= 100;
    [Branch(here)] + if here then Strings3Trace(st.s, input) else []
  }

  function Region4Trace(open: bool, st: State, input: string): seq<Chunk> {
    var here := open && 100 < st.x;
    [Branch(here)] + if here then Guarded(103 < st.y <= 198, M8, input) else []
  }

  /** When a handler has run, the tests of the other regions fail, and they would have failed before it. */
  lemma Closed2(now: State, st: State, input: string)
    requires !(-164 < st.x <= -19)
    ensures Region2Trace(false, now, input) == Region2Trace(true, st, input)
  {}

  lemma Closed3(now: State, st: State, input: string)
    requires !(-19 < st.x <= 100)
    ensures Region3Trace(false, now, input) == Region3Trace(true, st, input)
  {}

  lemma Closed4(now: State, st: State, input: string)
    requires !(100 < st.x)
    ensures Region4Trace(false, now, input) == Region4Trace(true, st, input)
  {}

  function CascadeTrace(st: State, input: string): seq<Chunk> {
    Region1Trace(true, st, input) + Region2Trace(true, st, input) +
    Region3Trace(true, st, input) + Region4Trace(true, st, input)
  }

  /** All that one call of `calculateOutput` prints; the last test is the one before the exception. */
  function Trace(st: State, input: string): seq<Chunk> {
    CascadeTrace(st, input) + [Branch(Step(Wrapping, st, input).Reject?)]
  }

  function LineOf(r: Reaction): seq<string> {
    if r.Accept? then [r.output] else []
  }

  lemma BlockLines(taken: bool, line: string)
    ensures Payload(Block(taken, line)) == if taken then [line] else []
  {
    PayloadAppend([], Branch(taken));
    PayloadAppend([Branch(true)], Line(line));
    assert [] + [Branch(taken)] == [Branch(taken)] && [Branch(true)] + [Line(line)] == Block(true, line);
  }

  lemma TwoBlocks(s: string, line: string, s': string, line': string, input: string)
    requires s != s'
    ensures Payload(Block(input == s, line) + Block(input == s', line')) ==
            if input == s then [line] else if input == s' then [line'] else []
  {
    hide Block, Payload;
    PayloadConcat(Block(input == s, line), Block(input == s', line'));
    BlockLines(input == s, line);
    BlockLines(input == s', line');
  }

  lemma HandlerLines(m: Mode, st: State, input: string)
    ensures Payload(HandlerTrace(true, m, input)) == LineOf(HandlerOf(m, Wrapping, st, input))
  {
    hide Add, Sub, Mul, Div, Mod, Block, Payload;
    match m
    case M1 => BlockLines(input == "usr2_ai1_VoidReply", "ai1_VoidReply");
    case M2 => TwoBlocks("usr4_ni1_ne1", "ni1_ne1", "ai1_ce2", "usr4_ai1_ce2", input);
    case M3 => BlockLines(input == "usr4_ai1_VoidReply", "usr2_ai1_ce4");
    case M4 =>
      TwoBlocks("ai1_ce2", "ai1_VoidReply", "ai1_ce1", "usr4_ai1_ce1", input);
      BlockLines(input == "usr4_ni1_ne1", "usr2_ai1_ce4");
      PayloadConcat(Block(input == "ai1_ce2", "ai1_VoidReply") + Block(input == "ai1_ce1", "usr4_ai1_ce1"),
        Block(input == "usr4_ni1_ne1", "usr2_ai1_ce4"));
    case M5 => BlockLines(input == "usr2_ai1_VoidReply", "none");
    case M6 => TwoBlocks("usr4_ni1_ne1", "none", "usr4_ai1_VoidReply", "ai1_VoidReply", input);
    case M7 => TwoBlocks("usr4_ni1_ne1", "none", "usr4_ai1_VoidReply", "ai1_VoidReply", input);
    case M8 => BlockLines(input == "usr4_ai1_VoidReply", "ni1_ne1__ai1_VoidReply");
  }

  lemma GuardedLines(here: bool, m: Mode, st: State, input: string)
    ensures Payload(Guarded(here, m, input)) == if here then LineOf(HandlerOf(m, Wrapping, st, input)) else []
  {
    hide HandlerTrace, HandlerOf;
    PayloadConcat([Branch(here)], if here then HandlerTrace(true, m, input) else []);
    HandlerLines(m, st, input);
  }

  lemma TestLines(here: bool, rest: seq<Chunk>)
    ensures Payload([Branch(here)] + rest) == Payload(rest)
  {
    assert ([Branch(here)] + rest)[1..] == rest;
  }

  lemma OuterLines(st: State, input: string)
    ensures Payload(Region1Trace(true, st, input)) ==
            if st.x <= -164 && -83 < st.z <= 18 then LineOf(Handler1(Wrapping, st, input)) else []
    ensures Payload(Region4Trace(true, st, input)) ==
            if 100 < st.x && 103 < st.y <= 198 then LineOf(Handler8(Wrapping, st, input)) else []
  {
    hide Guarded, Handler1, Handler8;
    TestLines(st.x <= -164, if st.x <= -164 then Guarded(-83 < st.z <= 18, M1, input) else []);
    TestLines(100 < st.x, if 100 < st.x then Guarded(103 < st.y <= 198, M8, input) else []);
    GuardedLines(-83 < st.z <= 18, M1, st, input);
    GuardedLines(103 < st.y <= 198, M8, st, input);
  }

  /** The tests of the strings `a` and `b`, each with its handler. */
  lemma TwoStrings(s: string, a: string, m: Mode, b: string, m': Mode, st: State, input: string)
    requires a != b
    ensures Payload(Guarded(s == a, m, input) + Guarded(s == b, m', input)) ==
            if s == a then LineOf(HandlerOf(m, Wrapping, st, input))
            else if s == b then LineOf(HandlerOf(m', Wrapping, st, input)) else []
  {
    hide Guarded, HandlerOf, Payload;
    PayloadConcat(Guarded(s == a, m, input), Guarded(s == b, m', input));
    GuardedLines(s == a, m, st, input);
    GuardedLines(s == b, m', st, input);
  }

  lemma InnerLines(st: State, input: string)
    ensures -164 < st.x <= -19 ==>
            Payload(Strings2Trace(st.s, input)) == LineOf(Step(Wrapping, st, input))
    ensures -19 < st.x <= 100 ==>
            Payload(Strings3Trace(st.s, input)) == LineOf(Step(Wrapping, st, input))
  {
    hide Guarded, Handler1, Handler2, Handler3, Handler4, Handler5, Handler6, Handler7, Handler8, Payload;
    var first, second := Guarded(st.s == "e", M2, input) + Guarded(st.s == "g", M3, input),
      Guarded(st.s == "h", M4, input) + Guarded(st.s == "i", M5, input);
    assert Strings2Trace(st.s, input) == first + second;
    PayloadConcat(first, second);
    TwoStrings(st.s, "e", M2, "g", M3, st, input);
    TwoStrings(st.s, "h", M4, "i", M5, st, input);
    TwoStrings(st.s, "g", M6, "h", M7, st, input);
  }

  lemma RegionLines(st: State, input: string)
    ensures Payload(Region2Trace(true, st, input)) ==
            if -164 < st.x <= -19 then LineOf(Step(Wrapping, st, input)) else []
    ensures Payload(Region3Trace(true, st, input)) ==
            if -19 < st.x <= 100 then LineOf(Step(Wrapping, st, input)) else []
  {
    hide Step, Strings2Trace, Strings3Trace;
    InnerLines(st, input);
    TestLines(-164 < st.x <= -19, if -164 < st.x <= -19 then Strings2Trace(st.s, input) else []);
    TestLines(-19 < st.x <= 100, if -19 < st.x <= 100 then Strings3Trace(st.s, input) else []);
  }

  /** The lines of the stream are the plain machine's lines. */
  lemma TraceLines(st: State, input: string)
    ensures Payload(Trace(st, input)) == LineOf(Step(Wrapping, st, input))
  {
    hide Region1Trace, Region2Trace, Region3Trace, Region4Trace, Handler1, Handler2, Handler3, Handler4, Handler5,
      Handler6, Handler7, Handler8;
    var r1, r2, r3, r4 := Region1Trace(true, st, input), Region2Trace(true, st, input),
      Region3Trace(true, st, input), Region4Trace(true, st, input);
    OuterLines(st, input);
    RegionLines(st, input);
    PayloadConcat(r1, r2);
    PayloadConcat(r1 + r2, r3);
    PayloadConcat(r1 + r2 + r3, r4);
    PayloadAppend(CascadeTrace(st, input), Branch(Step(Wrapping, st, input).Reject?));
  }

  lemma Blocks2(out: seq<Chunk>, open: bool, i: string)
    ensures out + Block(open && i == "usr4_ni1_ne1", "ni1_ne1") +
            Block(open && i == "ai1_ce2", "usr4_ai1_ce2") ==
            out + HandlerTrace(open, M2, i)
  {
    hide Block;
  }

  lemma Blocks4(out: seq<Chunk>, open: bool, i: string)
    ensures out + Block(open && i == "ai1_ce2", "ai1_VoidReply") +
            Block(open && i == "ai1_ce1", "usr4_ai1_ce1") +
            Block(open && i == "usr4_ni1_ne1", "usr2_ai1_ce4") ==
            out + HandlerTrace(open, M4, i)
  {
    hide Block;
  }

  lemma Blocks6(out: seq<Chunk>, open: bool, i: string)
    ensures out + Block(open && i == "usr4_ni1_ne1", "none") +
            Block(open && i == "usr4_ai1_VoidReply", "ai1_VoidReply") ==
            out + HandlerTrace(open, M6, i)
  {
    hide Block;
  }

  lemma Blocks7(out: seq<Chunk>, open: bool, i: string)
    ensures out + Block(open && i == "usr4_ni1_ne1", "none") +
            Block(open && i == "usr4_ai1_VoidReply", "ai1_VoidReply") ==
            out + HandlerTrace(open, M7, i)
  {
    hide Block;
  }

  /** The class `I`: temporaries shared by all handlers, and what its methods print. */
  class Interpreter {
    const var1: MyInt
    const var2: MyInt
    const var3: MyInt
    const var4: MyInt
    const var5: MyInt
    const var6: MyInt
    const var7: MyInt
    const var8: MyInt
    const bool1: MyBool
    const bool2: MyBool
    const bool3: MyBool
    const bool4: MyBool
    var out: seq<Chunk>   // System.out

    /** The printed lines, without the trace between them. */
    function Printed(): seq<string>
      reads this`out
    {
      Payload(out)
    }

    ghost predicate Valid() {
      && var1.slot == 1 && var2.slot == 2 && var3.slot == 3 && var4.slot == 4
      && var5.slot == 5 && var6.slot == 6 && var7.slot == 7 && var8.slot == 8
      && bool1.slot == 1 && bool2.slot == 2 && bool3.slot == 3 && bool4.slot == 4
    }

    ghost function Vars(): set<MyInt> {
      {var1, var2, var3, var4, var5, var6, var7, var8}
    }

    ghost function Bools(): set<MyBool> {
      {bool1, bool2, bool3, bool4}
    }

    constructor ()
      ensures Valid() && out == []
      ensures fresh(Vars()) && fresh(Bools())
    {
      var1 := new MyInt(0, 1);
      var2 := new MyInt(0, 2);
      var3 := new MyInt(0, 3);
      var4 := new MyInt(0, 4);
      var5 := new MyInt(0, 5);
      var6 := new MyInt(0, 6);
      var7 := new MyInt(0, 7);
      var8 := new MyInt(0, 8);
      bool1 := new MyBool(false, 1);
      bool2 := new MyBool(false, 2);
      bool3 := new MyBool(false, 3);
      bool4 := new MyBool(false, 4);
      out := [];
    }

    static method MyAdd(a: MyInt, b: MyInt, c: MyInt)
      modifies a
      ensures a.val == Add(Wrapping, old(b.val), old(c.val))
    {
      a.val := Add(Wrapping, b.val, c.val);
    }

    static method MyAddInt(a: MyInt, b: MyInt, c: Int32)
      modifies a
      ensures a.val == Add(Wrapping, old(b.val), c)
    {
      var boxed := new MyInt(c);
      MyAdd(a, b, boxed);
    }

    static method MyDel(a: MyInt, b: MyInt, c: MyInt)
      modifies a
      ensures a.val == Sub(Wrapping, old(b.val), old(c.val))
    {
      a.val := Sub(Wrapping, b.val, c.val);
    }

    static method MyDelInt(a: MyInt, b: MyInt, c: Int32)
      modifies a
      ensures a.val == Sub(Wrapping, old(b.val), c)
    {
      var boxed := new MyInt(c);
      MyDel(a, b, boxed);
    }

    static method MyMul(a: MyInt, b: MyInt, c: MyInt)
      modifies a
      ensures a.val == Mul(Wrapping, old(b.val), old(c.val))
    {
      a.val := Mul(Wrapping, b.val, c.val);
    }

    static method MyMulInt(a: MyInt, b: MyInt, c: Int32)
      modifies a
      ensures a.val == Mul(Wrapping, old(b.val), c)
    {
      var boxed := new MyInt(c);
      MyMul(a, b, boxed);
    }

    static method MyDiv(a: MyInt, b: MyInt, c: MyInt)
      requires c.val != 0
      modifies a
      ensures a.val == Div(Wrapping, old(b.val), old(c.val))
    {
      a.val := Div(Wrapping, b.val, c.val);
    }

    static method MyDivInt(a: MyInt, b: MyInt, c: Int32)
      requires c != 0
      modifies a
      ensures a.val == Div(Wrapping, old(b.val), c)
    {
      var boxed := new MyInt(c);
      MyDiv(a, b, boxed);
    }

    static method MyMod(a: MyInt, b: MyInt, c: MyInt)
      requires c.val != 0
      modifies a
      ensures a.val == Mod(Wrapping, old(b.val), old(c.val))
      ensures old(b.val) == old(c.val) * Quot(old(b.val), old(c.val)) + a.val
      ensures Abs(a.val) < Abs(old(c.val)) && (a.val == 0 || (a.val < 0) == (old(b.val) < 0))
    {
      QuotRem(b.val, c.val);
      a.val := Mod(Wrapping, b.val, c.val);
    }

    static method MyModInt(a: MyInt, b: MyInt, c: Int32)
      requires c != 0
      modifies a
      ensures a.val == Mod(Wrapping, old(b.val), c)
    {
      var boxed := new MyInt(c);
      MyMod(a, b, boxed);
    }

    static method MyEquals(a: MyBool, b: MyString, c: string)
      modifies a
      ensures a.val == (old(b.val) == c)
    {
      a.val := b.val == c;
    }

    static method MyLess(a: MyBool, b: Int32, c: MyInt)
      modifies a
      ensures a.val == (b < old(c.val))
    {
      a.val := b < c.val;
    }

    static method MyGreaterEqual(a: MyBool, b: Int32, c: MyInt)
      modifies a
      ensures a.val == (b >= old(c.val))
    {
      a.val := b >= c.val;
    }

    static method MyLessEqual(a: MyBool, b: MyInt, c: Int32)
      modifies a
      ensures a.val == (old(b.val) <= c)
    {
      a.val := b.val <= c;
    }

    static method MyAnd(a: MyBool, b: MyBool, c: MyBool)
      modifies a
      ensures a.val == (old(b.val) && old(c.val))
    {
      a.val := b.val && c.val;
    }

    /** Every assignment of the program goes through a copy. */
    static method MyAssignInt(b: MyInt) returns (a: MyInt)
      ensures fresh(a) && a.slot == 0 && a.val == b.val
    {
      a := new MyInt(b.val);
    }

    static method MyAssignBool(b: MyBool) returns (a: MyBool)
      ensures fresh(a) && a.slot == 0 && a.val == b.val
    {
      a := new MyBool(b.val);
    }

    static method MyAssignString(b: MyString) returns (a: MyString)
      ensures fresh(a) && a.val == b.val
    {
      a := new MyString(b.val);
    }

    method MyPrint(a: string)
      modifies this`out
      ensures out == old(out) + [Line(a)] && Printed() == old(Printed()) + [a]
    {
      PayloadAppend(out, Line(a));
      out := out + [Line(a)];
    }

    method MyIf(a: MyBool) returns (b: bool)
      modifies this`out
      ensures b == a.val && out == old(out) + [Branch(b)] && Printed() == old(Printed())
    {
      PayloadAppend(out, Branch(a.val));
      out := out + [Branch(a.val)];
      b := a.val;
    }
  }

  lemma StepOutside(st: State, input: string)
    ensures st.x <= -164 ==>
              Step(Wrapping, st, input) == if -83 < st.z <= 18 then Handler1(Wrapping, st, input) else Reject
    ensures 100 < st.x ==>
              Step(Wrapping, st, input) == if 103 < st.y <= 198 then Handler8(Wrapping, st, input) else Reject
  {}

  lemma StepInMiddle(st: State, input: string)
    requires -19 < st.x <= 100
    ensures Step(Wrapping, st, input) ==
            if st.s == "g" then Handler6(Wrapping, st, input)
            else if st.s == "h" then Handler7(Wrapping, st, input) else Reject
  {}

  class InstrumentedEca {
    const I: Interpreter
    var a422009172: MyInt
    var cf: MyBool
    var a2108127495: MyInt
    var a1522448132: MyInt
    var a1745113960: MyString

    /** The fields are not temporaries. */
    ghost predicate Valid()
      reads this
    {
      && I.Valid()
      && a422009172.slot == 0 && a2108127495.slot == 0 && a1522448132.slot == 0 && cf.slot == 0
    }

    constructor (I: Interpreter)
      requires I.Valid()
      ensures Valid() && this.I == I && Fields() == START && cf.val
    {
      this.I := I;
      a422009172 := new MyInt(-68);
      cf := new MyBool(true);
      a2108127495 := new MyInt(-44);
      a1522448132 := new MyInt(173);
      a1745113960 := new MyString("h");
    }

    function Fields(): State
      reads this`a2108127495, this`a422009172, this`a1522448132, this`a1745113960
      reads a2108127495, a422009172, a1522448132, a1745113960
    {
      State(a2108127495.val, a422009172.val, a1522448132.val, a1745113960.val)
    }

    /** The same reaction as in the plain machine, read through the boxes, while `chunks` were printed. */
    twostate predicate Reacts(r: Reaction, chunks: seq<Chunk>)
      reads this, a2108127495, a422009172, a1522448132, a1745113960, cf, I
    {
      && I.out == old(I.out) + chunks
      && match r
         case Accept(next, _) => Fields() == next && !cf.val
         case Reject => Fields() == old(Fields()) && cf.val == old(cf.val)
    }

    method SetCf(v: bool)
      requires Valid()
      modifies this`cf
      ensures Valid() && fresh(cf) && cf.val == v
      ensures Fields() == old(Fields())
    {
      var boxed := new MyBool(v);
      cf := Interpreter.MyAssignBool(boxed);
    }

    method SetString(v: string)
      modifies this`a1745113960
      ensures fresh(a1745113960) && Fields() == old(Fields()).(s := v)
    {
      var boxed := new MyString(v);
      a1745113960 := Interpreter.MyAssignString(boxed);
    }

    /** The calls that open every block: is the input `s`, and may a handler still run? */
    method Guard(input: MyString, s: string) returns (b: bool)
      requires Valid()
      modifies I`out, I.bool1, I.bool2
      ensures b == (input.val == s && old(cf.val)) && I.out == old(I.out) + [Branch(b)]
    {
      Interpreter.MyEquals(I.bool1, input, s);
      Interpreter.MyAnd(I.bool2, I.bool1, cf);
      b := I.MyIf(I.bool2);
    }

    method Compute1()
      requires Valid()
      modifies this`a2108127495, I.Vars()
      ensures Valid() && fresh(a2108127495)
      ensures var st := old(Fields());
              Fields() ==
                st.(x := Mul(Wrapping, Sub(Wrapping, Sub(Wrapping, Mod(Wrapping, Mod(Wrapping, Mul(Wrapping,
                  st.x, st.z), 14999), 72), 91), -1), 1))
    {
      hide Add, Sub, Mul, Div, Mod;
      Interpreter.MyMul(I.var1, a2108127495, a1522448132);
      Interpreter.MyModInt(I.var2, I.var1, 14999);
      Interpreter.MyModInt(I.var3, I.var2, 72);
      Interpreter.MyDelInt(I.var4, I.var3, 91);
      Interpreter.MyDelInt(I.var5, I.var4, -1);
      Interpreter.MyMulInt(I.var6, I.var5, 1);
      a2108127495 := Interpreter.MyAssignInt(I.var6);
    }

    method Compute2()
      requires Valid()
      modifies this`a2108127495, I.Vars()
      ensures Valid() && fresh(a2108127495)
      ensures var st := old(Fields());
              Fields() == st.(x := Add(Wrapping, Sub(Wrapping, Sub(Wrapping, Mod(Wrapping, st.x, 59), -98), 4), -42))
    {
      hide Add, Sub, Mul, Div, Mod;
      Interpreter.MyModInt(I.var1, a2108127495, 59);
      Interpreter.MyDelInt(I.var2, I.var1, -98);
      Interpreter.MyDelInt(I.var3, I.var2, 4);
      Interpreter.MyAddInt(I.var4, I.var3, -42);
      a2108127495 := Interpreter.MyAssignInt(I.var4);
    }

    method Compute3Z()
      requires Valid()
      modifies this`a1522448132, I.Vars()
      ensures Valid() && fresh(a1522448132)
      ensures var st := old(Fields());
              Fields() ==
                st.(z := Add(Wrapping, Mod(Wrapping, Mul(Wrapping, Sub(Wrapping, Mod(Wrapping, Mul(Wrapping,
                  st.x, st.x), 50), 75), 5), 50), -31))
    {
      hide Add, Sub, Mul, Div, Mod;
      Interpreter.MyMul(I.var1, a2108127495, a2108127495);
      Interpreter.MyModInt(I.var2, I.var1, 50);
      Interpreter.MyDelInt(I.var3, I.var2, 75);
      Interpreter.MyMulInt(I.var4, I.var3, 5);
      Interpreter.MyModInt(I.var5, I.var4, 50);
      Interpreter.MyAddInt(I.var6, I.var5, -31);
      a1522448132 := Interpreter.MyAssignInt(I.var6);
    }

    method Compute3X()
      requires Valid()
      modifies this`a2108127495, I.Vars()
      ensures Valid() && fresh(a2108127495)
      ensures var st := old(Fields());
              Fields() ==
                st.(x := Add(Wrapping, Mul(Wrapping, Sub(Wrapping, Mul(Wrapping, st.x, st.z), 22476), 1), -3649))
    {
      hide Add, Sub, Mul, Div, Mod;
      Interpreter.MyMul(I.var1, a2108127495, a1522448132);
      Interpreter.MyDelInt(I.var2, I.var1, 22476);
      Interpreter.MyMulInt(I.var3, I.var2, 1);
      Interpreter.MyAddInt(I.var4, I.var3, -3649);
      a2108127495 := Interpreter.MyAssignInt(I.var4);
    }

    method Compute4()
      requires Valid()
      modifies this`a2108127495, I.Vars()
      ensures Valid() && fresh(a2108127495)
      ensures var st := old(Fields());
              Fields() ==
                st.(x := Sub(Wrapping, Mod(Wrapping, Sub(Wrapping, Sub(Wrapping, st.x, -7243), -1395), 59), -16))
    {
      hide Add, Sub, Mul, Div, Mod;
      var c1 := new MyInt(-7243);
      Interpreter.MyDel(I.var1, a2108127495, c1);
      Interpreter.MyDelInt(I.var2, I.var1, -1395);
      Interpreter.MyModInt(I.var3, I.var2, 59);
      Interpreter.MyDelInt(I.var4, I.var3, -16);
      a2108127495 := Interpreter.MyAssignInt(I.var4);
    }

    method Compute6X()
      requires Valid()
      modifies this`a2108127495, I.Vars()
      ensures Valid() && fresh(a2108127495)
      ensures var st := old(Fields());
              Fields() == st.(x := Mul(Wrapping, Mul(Wrapping, Add(Wrapping, st.x, 13863), 2), 1))
    {
      hide Add, Sub, Mul, Div, Mod;
      var c1 := new MyInt(13863);
      Interpreter.MyAdd(I.var1, a2108127495, c1);
      Interpreter.MyMulInt(I.var2, I.var1, 2);
      Interpreter.MyMulInt(I.var3, I.var2, 1);
      a2108127495 := Interpreter.MyAssignInt(I.var3);
    }

    method Compute6Y()
      requires Valid()
      modifies this`a422009172, I.Vars()
      ensures Valid() && fresh(a422009172)
      ensures var st := old(Fields());
              Fields() ==
                st.(y := Add(Wrapping, Add(Wrapping, Sub(Wrapping, Mod(Wrapping, Add(Wrapping, Mod(Wrapping,
                  Mul(Wrapping, st.x, st.x), 14999), -1380), 47), -150), 23887), -23885))
    {
      hide Add, Sub, Mul, Div, Mod;
      Interpreter.MyMul(I.var1, a2108127495, a2108127495);
      Interpreter.MyModInt(I.var2, I.var1, 14999);
      Interpreter.MyAddInt(I.var3, I.var2, -1380);
      Interpreter.MyModInt(I.var4, I.var3, 47);
      Interpreter.MyDelInt(I.var5, I.var4, -150);
      Interpreter.MyAddInt(I.var6, I.var5, 23887);
      Interpreter.MyAddInt(I.var7, I.var6, -23885);
      a422009172 := Interpreter.MyAssignInt(I.var7);
    }

    method Compute6()
      requires Valid()
      modifies this`a2108127495, I.Vars()
      ensures Valid() && fresh(a2108127495)
      ensures var st := old(Fields());
              Fields() == st.(x := Add(Wrapping, Add(Wrapping, Add(Wrapping, st.x, -139), -4), 5))
    {
      hide Add, Sub, Mul, Div, Mod;
      Interpreter.MyAddInt(I.var1, a2108127495, -139);
      Interpreter.MyAddInt(I.var2, I.var1, -4);
      Interpreter.MyAddInt(I.var3, I.var2, 5);
      a2108127495 := Interpreter.MyAssignInt(I.var3);
    }

    method Compute7()
      requires Valid()
      modifies this`a2108127495, I.Vars()
      ensures Valid() && fresh(a2108127495)
      ensures var st := old(Fields());
              Fields() ==
                st.(x := Sub(Wrapping, Sub(Wrapping, Sub(Wrapping, Sub(Wrapping, st.x, 128), -3384), 4504), -1107))
    {
      hide Add, Sub, Mul, Div, Mod;
      var c1 := new MyInt(128);
      Interpreter.MyDel(I.var1, a2108127495, c1);
      Interpreter.MyDelInt(I.var2, I.var1, -3384);
      Interpreter.MyDelInt(I.var3, I.var2, 4504);
      Interpreter.MyDelInt(I.var4, I.var3, -1107);
      a2108127495 := Interpreter.MyAssignInt(I.var4);
    }

    method Compute7Wide()
      requires Valid()
      modifies this`a2108127495, I.Vars()
      ensures Valid() && fresh(a2108127495)
      ensures var st := old(Fields());
              Fields() ==
                st.(x := Sub(Wrapping, Mod(Wrapping, Mul(Wrapping, Sub(Wrapping, Sub(Wrapping,
                  st.x, 22339), -35662), 2), 72), 149))
    {
      hide Add, Sub, Mul, Div, Mod;
      var c1 := new MyInt(22339);
      Interpreter.MyDel(I.var1, a2108127495, c1);
      Interpreter.MyDelInt(I.var2, I.var1, -35662);
      Interpreter.MyMulInt(I.var3, I.var2, 2);
      Interpreter.MyModInt(I.var4, I.var3, 72);
      Interpreter.MyDelInt(I.var5, I.var4, 149);
      a2108127495 := Interpreter.MyAssignInt(I.var5);
    }

    method Compute8()
      requires Valid()
      modifies this`a2108127495, I.Vars()
      ensures Valid() && fresh(a2108127495)
      ensures var st := old(Fields());
              Fields() ==
                st.(x := Add(Wrapping, Mod(Wrapping, Mul(Wrapping, Add(Wrapping, Mod(Wrapping, Div(Wrapping,
                  Mod(Wrapping, Mul(Wrapping, st.x, st.y), 14999), 5), 72), -156), 5), 72), -65))
    {
      hide Add, Sub, Mul, Div, Mod;
      Interpreter.MyMul(I.var1, a2108127495, a422009172);
      Interpreter.MyModInt(I.var2, I.var1, 14999);
      Interpreter.MyDivInt(I.var3, I.var2, 5);
      Interpreter.MyModInt(I.var4, I.var3, 72);
      Interpreter.MyAddInt(I.var5, I.var4, -156);
      Interpreter.MyMulInt(I.var6, I.var5, 5);
      Interpreter.MyModInt(I.var7, I.var6, 72);
      Interpreter.MyAddInt(I.var8, I.var7, -65);
      a2108127495 := Interpreter.MyAssignInt(I.var8);
    }

    method CalculateOutputM1(input: MyString)
      requires Valid()
      modifies this, I, I.Vars(), I.Bools()
      ensures Valid()
      ensures Reacts(if old(cf.val) then Handler1(Wrapping, old(Fields()), input.val) else Reject,
                     HandlerTrace(old(cf.val), M1, input.val))
    {
      hide Add, Sub, Mul, Div, Mod, Block;
      BlockShows(I.out, "ai1_VoidReply");
      var b := Guard(input, "usr2_ai1_VoidReply");
      if b {
        SetCf(false);
        SetString("h");
        Compute1();
        I.MyPrint("ai1_VoidReply");
      }
    }

    method Block2A(input: MyString)
      requires Valid()
      modifies this, I, I.Vars(), I.Bools()
      ensures Valid()
      ensures Reacts(if old(cf.val) && input.val == "usr4_ni1_ne1"
                     then Handler2(Wrapping, old(Fields()), input.val) else Reject,
                     Block(old(cf.val) && input.val == "usr4_ni1_ne1", "ni1_ne1"))
    {
      hide Add, Sub, Mul, Div, Mod, Block;
      BlockShows(I.out, "ni1_ne1");
      var b := Guard(input, "usr4_ni1_ne1");
      if b {
        SetCf(false);
        I.MyPrint("ni1_ne1");
      }
    }

    method Block2B(input: MyString)
      requires Valid()
      modifies this, I, I.Vars(), I.Bools()
      ensures Valid()
      ensures Reacts(if old(cf.val) && input.val == "ai1_ce2"
                     then Handler2(Wrapping, old(Fields()), input.val) else Reject,
                     Block(old(cf.val) && input.val == "ai1_ce2", "usr4_ai1_ce2"))
    {
      hide Add, Sub, Mul, Div, Mod, Block;
      BlockShows(I.out, "usr4_ai1_ce2");
      var b := Guard(input, "ai1_ce2");
      if b {
        SetCf(false);
        SetString("h");
        Compute2();
        I.MyPrint("usr4_ai1_ce2");
      }
    }

    method CalculateOutputM2(input: MyString)
      requires Valid()
      modifies this, I, I.Vars(), I.Bools()
      ensures Valid()
      ensures Reacts(if old(cf.val) then Handler2(Wrapping, old(Fields()), input.val) else Reject,
                     HandlerTrace(old(cf.val), M2, input.val))
    {
      hide Add, Sub, Mul, Div, Mod, Block, HandlerTrace;
      ghost var out, open, i := I.out, cf.val, input.val;
      Blocks2(out, open, i);
      Block2A(input);
      Block2B(input);
    }

    method CalculateOutputM3(input: MyString)
      requires Valid()
      modifies this, I, I.Vars(), I.Bools()
      ensures Valid()
      ensures Reacts(if old(cf.val) then Handler3(Wrapping, old(Fields()), input.val) else Reject,
                     HandlerTrace(old(cf.val), M3, input.val))
    {
      hide Add, Sub, Mul, Div, Mod, Block;
      BlockShows(I.out, "usr2_ai1_ce4");
      var b := Guard(input, "usr4_ai1_VoidReply");
      if b {
        SetCf(false);
        Compute3Z();
        Compute3X();
        I.MyPrint("usr2_ai1_ce4");
      }
    }

    method Block4A(input: MyString)
      requires Valid()
      modifies this, I, I.Vars(), I.Bools()
      ensures Valid()
      ensures Reacts(if old(cf.val) && input.val == "ai1_ce2"
                     then Handler4(Wrapping, old(Fields()), input.val) else Reject,
                     Block(old(cf.val) && input.val == "ai1_ce2", "ai1_VoidReply"))
    {
      hide Add, Sub, Mul, Div, Mod, Block;
      BlockShows(I.out, "ai1_VoidReply");
      var b := Guard(input, "ai1_ce2");
      if b {
        SetCf(false);
        I.MyPrint("ai1_VoidReply");
      }
    }

    method Block4B(input: MyString)
      requires Valid()
      modifies this, I, I.Vars(), I.Bools()
      ensures Valid()
      ensures Reacts(if old(cf.val) && input.val == "ai1_ce1"
                     then Handler4(Wrapping, old(Fields()), input.val) else Reject,
                     Block(old(cf.val) && input.val == "ai1_ce1", "usr4_ai1_ce1"))
    {
      hide Add, Sub, Mul, Div, Mod, Block;
      BlockShows(I.out, "usr4_ai1_ce1");
      var b := Guard(input, "ai1_ce1");
      if b {
        SetCf(false);
        SetString("g");
        Compute4();
        I.MyPrint("usr4_ai1_ce1");
      }
    }

    method Block4C(input: MyString)
      requires Valid()
      modifies this, I, I.Vars(), I.Bools()
      ensures Valid()
      ensures Reacts(if old(cf.val) && input.val == "usr4_ni1_ne1"
                     then Handler4(Wrapping, old(Fields()), input.val) else Reject,
                     Block(old(cf.val) && input.val == "usr4_ni1_ne1", "usr2_ai1_ce4"))
    {
      hide Add, Sub, Mul, Div, Mod, Block;
      BlockShows(I.out, "usr2_ai1_ce4");
      var b := Guard(input, "usr4_ni1_ne1");
      if b {
        SetCf(false);
        SetString("i");
        I.MyPrint("usr2_ai1_ce4");
      }
    }

    method CalculateOutputM4(input: MyString)
      requires Valid()
      modifies this, I, I.Vars(), I.Bools()
      ensures Valid()
      ensures Reacts(if old(cf.val) then Handler4(Wrapping, old(Fields()), input.val) else Reject,
                     HandlerTrace(old(cf.val), M4, input.val))
    {
      hide Add, Sub, Mul, Div, Mod, Block, HandlerTrace;
      ghost var out, open, i := I.out, cf.val, input.val;
      Blocks4(out, open, i);
      Block4A(input);
      Block4B(input);
      Block4C(input);
    }

    method CalculateOutputM5(input: MyString)
      requires Valid()
      modifies this, I, I.Vars(), I.Bools()
      ensures Valid()
      ensures Reacts(if old(cf.val) then Handler5(Wrapping, old(Fields()), input.val) else Reject,
                     HandlerTrace(old(cf.val), M5, input.val))
    {
      hide Add, Sub, Mul, Div, Mod, Block;
      BlockShows(I.out, "none");
      var b := Guard(input, "usr2_ai1_VoidReply");
      if b {
        SetCf(false);
        SetString("h");
        I.MyPrint("none");
      }
    }

    method Block6A(input: MyString)
      requires Valid()
      modifies this, I, I.Vars(), I.Bools()
      ensures Valid()
      ensures Reacts(if old(cf.val) && input.val == "usr4_ni1_ne1"
                     then Handler6(Wrapping, old(Fields()), input.val) else Reject,
                     Block(old(cf.val) && input.val == "usr4_ni1_ne1", "none"))
    {
      hide Add, Sub, Mul, Div, Mod, Block;
      BlockShows(I.out, "none");
      var b := Guard(input, "usr4_ni1_ne1");
      if b {
        SetCf(false);
        Compute6X();
        Compute6Y();
        I.MyPrint("none");
      }
    }

    method Block6B(input: MyString)
      requires Valid()
      modifies this, I, I.Vars(), I.Bools()
      ensures Valid()
      ensures Reacts(if old(cf.val) && input.val == "usr4_ai1_VoidReply"
                     then Handler6(Wrapping, old(Fields()), input.val) else Reject,
                     Block(old(cf.val) && input.val == "usr4_ai1_VoidReply", "ai1_VoidReply"))
    {
      hide Add, Sub, Mul, Div, Mod, Block;
      BlockShows(I.out, "ai1_VoidReply");
      var b := Guard(input, "usr4_ai1_VoidReply");
      if b {
        SetCf(false);
        SetString("e");
        Compute6();
        I.MyPrint("ai1_VoidReply");
      }
    }

    method CalculateOutputM6(input: MyString)
      requires Valid()
      modifies this, I, I.Vars(), I.Bools()
      ensures Valid()
      ensures Reacts(if old(cf.val) then Handler6(Wrapping, old(Fields()), input.val) else Reject,
                     HandlerTrace(old(cf.val), M6, input.val))
    {
      hide Add, Sub, Mul, Div, Mod, Block, HandlerTrace;
      ghost var out, open, i := I.out, cf.val, input.val;
      Blocks6(out, open, i);
      Block6A(input);
      Block6B(input);
    }

    method Block7A(input: MyString)
      requires Valid()
      modifies this, I, I.Vars(), I.Bools()
      ensures Valid()
      ensures Reacts(if old(cf.val) && input.val == "usr4_ni1_ne1"
                     then Handler7(Wrapping, old(Fields()), input.val) else Reject,
                     Block(old(cf.val) && input.val == "usr4_ni1_ne1", "none"))
    {
      hide Add, Sub, Mul, Div, Mod, Block;
      BlockShows(I.out, "none");
      var b := Guard(input, "usr4_ni1_ne1");
      if b {
        SetCf(false);
        SetString("g");
        Compute7();
        I.MyPrint("none");
      }
    }

    method Block7B(input: MyString)
      requires Valid()
      modifies this, I, I.Vars(), I.Bools()
      ensures Valid()
      ensures Reacts(if old(cf.val) && input.val == "usr4_ai1_VoidReply"
                     then Handler7(Wrapping, old(Fields()), input.val) else Reject,
                     Block(old(cf.val) && input.val == "usr4_ai1_VoidReply", "ai1_VoidReply"))
    {
      hide Add, Sub, Mul, Div, Mod, Block;
      BlockShows(I.out, "ai1_VoidReply");
      var b := Guard(input, "usr4_ai1_VoidReply");
      if b {
        SetCf(false);
        Compute7Wide();
        I.MyPrint("ai1_VoidReply");
      }
    }

    method CalculateOutputM7(input: MyString)
      requires Valid()
      modifies this, I, I.Vars(), I.Bools()
      ensures Valid()
      ensures Reacts(if old(cf.val) then Handler7(Wrapping, old(Fields()), input.val) else Reject,
                     HandlerTrace(old(cf.val), M7, input.val))
    {
      hide Add, Sub, Mul, Div, Mod, Block, HandlerTrace;
      ghost var out, open, i := I.out, cf.val, input.val;
      Blocks7(out, open, i);
      Block7A(input);
      Block7B(input);
    }

    method CalculateOutputM8(input: MyString)
      requires Valid()
      modifies this, I, I.Vars(), I.Bools()
      ensures Valid()
      ensures Reacts(if old(cf.val) then Handler8(Wrapping, old(Fields()), input.val) else Reject,
                     HandlerTrace(old(cf.val), M8, input.val))
    {
      hide Add, Sub, Mul, Div, Mod, Block;
      BlockShows(I.out, "ni1_ne1__ai1_VoidReply");
      var b := Guard(input, "usr4_ai1_VoidReply");
      if b {
        SetCf(false);
        SetString("e");
        Compute8();
        I.MyPrint("ni1_ne1__ai1_VoidReply");
      }
    }

    /** The calls that test a range of a field. */
    method GuardRange(low: Int32, high: Int32, v: MyInt) returns (b: bool)
      requires Valid() && v.slot == 0
      modifies I`out, I.Bools()
      ensures b == (old(cf.val) && low < old(v.val) <= high) && I.out == old(I.out) + [Branch(b)]
    {
      Interpreter.MyLess(I.bool1, low, v);
      Interpreter.MyGreaterEqual(I.bool2, high, v);
      Interpreter.MyAnd(I.bool3, I.bool1, I.bool2);
      Interpreter.MyAnd(I.bool4, cf, I.bool3);
      b := I.MyIf(I.bool4);
    }

    method OnString2(input: MyString)
      requires Valid()
      modifies this, I, I.Vars(), I.Bools()
      ensures Valid()
      ensures Reacts(if old(cf.val) && old(Fields()).s == "e"
                     then Handler2(Wrapping, old(Fields()), input.val) else Reject,
                     Guarded(old(cf.val) && old(Fields()).s == "e", M2, input.val))
    {
      hide Handler2, HandlerTrace;
      var b := Guard(a1745113960, "e");
      if b {
        CalculateOutputM2(input);
      }
    }

    method OnString3(input: MyString)
      requires Valid()
      modifies this, I, I.Vars(), I.Bools()
      ensures Valid()
      ensures Reacts(if old(cf.val) && old(Fields()).s == "g"
                     then Handler3(Wrapping, old(Fields()), input.val) else Reject,
                     Guarded(old(cf.val) && old(Fields()).s == "g", M3, input.val))
    {
      hide Handler3, HandlerTrace;
      var b := Guard(a1745113960, "g");
      if b {
        CalculateOutputM3(input);
      }
    }

    method OnString4(input: MyString)
      requires Valid()
      modifies this, I, I.Vars(), I.Bools()
      ensures Valid()
      ensures Reacts(if old(cf.val) && old(Fields()).s == "h"
                     then Handler4(Wrapping, old(Fields()), input.val) else Reject,
                     Guarded(old(cf.val) && old(Fields()).s == "h", M4, input.val))
    {
      hide Handler4, HandlerTrace;
      var b := Guard(a1745113960, "h");
      if b {
        CalculateOutputM4(input);
      }
    }

    method OnString5(input: MyString)
      requires Valid()
      modifies this, I, I.Vars(), I.Bools()
      ensures Valid()
      ensures Reacts(if old(cf.val) && old(Fields()).s == "i"
                     then Handler5(Wrapping, old(Fields()), input.val) else Reject,
                     Guarded(old(cf.val) && old(Fields()).s == "i", M5, input.val))
    {
      hide Handler5, HandlerTrace;
      var b := Guard(a1745113960, "i");
      if b {
        CalculateOutputM5(input);
      }
    }

    method OnString6(input: MyString)
      requires Valid()
      modifies this, I, I.Vars(), I.Bools()
      ensures Valid()
      ensures Reacts(if old(cf.val) && old(Fields()).s == "g"
                     then Handler6(Wrapping, old(Fields()), input.val) else Reject,
                     Guarded(old(cf.val) && old(Fields()).s == "g", M6, input.val))
    {
      hide Handler6, HandlerTrace;
      var b := Guard(a1745113960, "g");
      if b {
        CalculateOutputM6(input);
      }
    }

    method OnString7(input: MyString)
      requires Valid()
      modifies this, I, I.Vars(), I.Bools()
      ensures Valid()
      ensures Reacts(if old(cf.val) && old(Fields()).s == "h"
                     then Handler7(Wrapping, old(Fields()), input.val) else Reject,
                     Guarded(old(cf.val) && old(Fields()).s == "h", M7, input.val))
    {
      hide Handler7, HandlerTrace;
      var b := Guard(a1745113960, "h");
      if b {
        CalculateOutputM7(input);
      }
    }

    method Range1(input: MyString)
      requires Valid() && cf.val && Fields().x <= -164
      modifies this, I, I.Vars(), I.Bools()
      ensures Valid()
      ensures var st := old(Fields());
              Reacts(Step(Wrapping, st, input.val), Guarded(-83 < st.z <= 18, M1, input.val))
    {
      hide Step, Handler1, HandlerTrace;
      StepOutside(Fields(), input.val);
      ghost var out, st := I.out, Fields();
      var r := GuardRange(-83, 18, a1522448132);
      if r {
        CalculateOutputM1(input);
        Joined2(out, [Branch(r)], HandlerTrace(true, M1, input.val));
      }
    }

    method Region1(input: MyString)
      requires Valid()
      modifies this, I, I.Vars(), I.Bools()
      ensures Valid()
      ensures Reacts(if old(cf.val) && old(Fields()).x <= -164
                     then Step(Wrapping, old(Fields()), input.val) else Reject,
                     Region1Trace(old(cf.val), old(Fields()), input.val))
    {
      hide Step, Guarded;
      ghost var out, st := I.out, Fields();
      Interpreter.MyLessEqual(I.bool1, a2108127495, -164);
      Interpreter.MyAnd(I.bool2, cf, I.bool1);
      var b := I.MyIf(I.bool2);
      if b {
        Range1(input);
        Joined2(out, [Branch(b)], Guarded(-83 < st.z <= 18, M1, input.val));
      }
    }

    method Strings2(input: MyString)
      requires Valid() && cf.val && -164 < Fields().x <= -19
      modifies this, I, I.Vars(), I.Bools()
      ensures Valid()
      ensures Reacts(Step(Wrapping, old(Fields()), input.val), Strings2Trace(old(Fields()).s, input.val))
    {
      hide Handler1, Handler2, Handler3, Handler4, Handler5, Handler6, Handler7, Handler8, Guarded;
      ghost var out, s, i := I.out, Fields().s, input.val;
      Joined4(out, Guarded(s == "e", M2, i), Guarded(s == "g", M3, i), Guarded(s == "h", M4, i),
        Guarded(s == "i", M5, i));
      OnString2(input);
      OnString3(input);
      OnString4(input);
      OnString5(input);
    }

    method Region2(input: MyString)
      requires Valid()
      modifies this, I, I.Vars(), I.Bools()
      ensures Valid()
      ensures Reacts(if old(cf.val) && -164 < old(Fields()).x <= -19
                     then Step(Wrapping, old(Fields()), input.val) else Reject,
                     Region2Trace(old(cf.val), old(Fields()), input.val))
    {
      hide Step, Strings2Trace;
      ghost var out, st := I.out, Fields();
      var b := GuardRange(-164, -19, a2108127495);
      if b {
        Strings2(input);
        Joined2(out, [Branch(b)], Strings2Trace(st.s, input.val));
      }
    }

    method Strings3(input: MyString)
      requires Valid() && cf.val && -19 < Fields().x <= 100
      modifies this, I, I.Vars(), I.Bools()
      ensures Valid()
      ensures Reacts(Step(Wrapping, old(Fields()), input.val), Strings3Trace(old(Fields()).s, input.val))
    {
      hide Step, Handler6, Handler7, Guarded;
      StepInMiddle(Fields(), input.val);
      ghost var out, s, i := I.out, Fields().s, input.val;
      assert out + Guarded(s == "g", M6, i) + Guarded(s == "h", M7, i) ==
             out + (Guarded(s == "g", M6, i) + Guarded(s == "h", M7, i));
      OnString6(input);
      OnString7(input);
    }

    method Region3(input: MyString)
      requires Valid()
      modifies this, I, I.Vars(), I.Bools()
      ensures Valid()
      ensures Reacts(if old(cf.val) && -19 < old(Fields()).x <= 100
                     then Step(Wrapping, old(Fields()), input.val) else Reject,
                     Region3Trace(old(cf.val), old(Fields()), input.val))
    {
      hide Step, Strings3Trace;
      ghost var out, st := I.out, Fields();
      var b := GuardRange(-19, 100, a2108127495);
      if b {
        Strings3(input);
        Joined2(out, [Branch(b)], Strings3Trace(st.s, input.val));
      }
    }

    method Range4(input: MyString)
      requires Valid() && cf.val && 100 < Fields().x
      modifies this, I, I.Vars(), I.Bools()
      ensures Valid()
      ensures var st := old(Fields());
              Reacts(Step(Wrapping, st, input.val), Guarded(103 < st.y <= 198, M8, input.val))
    {
      hide Step, Handler8, HandlerTrace;
      StepOutside(Fields(), input.val);
      ghost var out, st := I.out, Fields();
      var r := GuardRange(103, 198, a422009172);
      if r {
        CalculateOutputM8(input);
        Joined2(out, [Branch(r)], HandlerTrace(true, M8, input.val));
      }
    }

    method Region4(input: MyString)
      requires Valid()
      modifies this, I, I.Vars(), I.Bools()
      ensures Valid()
      ensures Reacts(if old(cf.val) && 100 < old(Fields()).x then Step(Wrapping, old(Fields()), input.val) else Reject,
                     Region4Trace(old(cf.val), old(Fields()), input.val))
    {
      hide Step, Guarded;
      ghost var out, st := I.out, Fields();
      Interpreter.MyLess(I.bool1, 100, a2108127495);
      Interpreter.MyAnd(I.bool2, cf, I.bool1);
      var b := I.MyIf(I.bool2);
      if b {
        Range4(input);
        Joined2(out, [Branch(b)], Guarded(103 < st.y <= 198, M8, input.val));
      }
    }

    /** `ok` is false when the source throws. */
    method CalculateOutput(input: MyString) returns (ok: bool)
      requires Valid()
      modifies this, I, I.Vars(), I.Bools()
      ensures Valid()
      ensures var r := Step(Wrapping, old(Fields()), input.val);
              ok == r.Accept? && cf.val == !ok &&
              Fields() == (if ok then r.next else old(Fields())) &&
              I.Printed() == old(I.Printed()) + if ok then [r.output] else []
      ensures I.out == old(I.out) + Trace(old(Fields()), input.val)
    {
      hide Step, CascadeTrace;
      ResetCf();
      Cascade(input);
      assert old(I.out) + CascadeTrace(old(Fields()), input.val) + [Branch(cf.val)] ==
             old(I.out) + (CascadeTrace(old(Fields()), input.val) + [Branch(cf.val)]);
      var b := I.MyIf(cf);
      ok := !b;
      TraceLines(old(Fields()), input.val);
      PayloadConcat(old(I.out), Trace(old(Fields()), input.val));
    }

    method ResetCf()
      requires Valid()
      modifies this`cf
      ensures Valid() && fresh(cf) && cf.val && Fields() == old(Fields())
    {
      cf := new MyBool(true);
    }

    method LeftRegions(input: MyString)
      requires Valid() && cf.val
      modifies this, I, I.Vars(), I.Bools()
      ensures Valid()
      ensures var st, i := old(Fields()), input.val;
              Reacts(if st.x <= -19 then Step(Wrapping, st, i) else Reject,
                     Region1Trace(true, st, i) + Region2Trace(true, st, i))
    {
      hide Step, Region1Trace, Region2Trace;
      ghost var out, st, i := I.out, Fields(), input.val;
      Joined2(out, Region1Trace(true, st, i), Region2Trace(true, st, i));
      Region1(input);
      if !cf.val { Closed2(Fields(), st, i); }
      Region2(input);
    }

    method Cascade(input: MyString)
      requires Valid() && cf.val
      modifies this, I, I.Vars(), I.Bools()
      ensures Valid()
      ensures Reacts(Step(Wrapping, old(Fields()), input.val), CascadeTrace(old(Fields()), input.val))
    {
      hide Step, Region1Trace, Region2Trace, Region3Trace, Region4Trace;
      ghost var out, st, i := I.out, Fields(), input.val;
      Joined3(out, Region1Trace(true, st, i) + Region2Trace(true, st, i), Region3Trace(true, st, i),
        Region4Trace(true, st, i));
      LeftRegions(input);
      if !cf.val { Closed3(Fields(), st, i); }
      Region3(input);
      if !cf.val { Closed4(Fields(), st, i); }
      Region4(input);
    }
  }

  /** One input: from equal values both machines end with equal values, print the same line or throw. */
  method StepBoth(plain: Eca, inst: InstrumentedEca, input: string) returns (event: Event)
    requires inst.Valid() && plain.Fields() == inst.Fields()
    modifies plain, inst, inst.I, inst.I.Vars(), inst.I.Bools()
    ensures inst.Valid() && plain.Fields() == inst.Fields() && plain.cf == inst.cf.val == event.Rejected?
    ensures plain.printed == old(plain.printed) + if event.Printed? then [event.output] else []
    ensures inst.I.Printed() == old(inst.I.Printed()) + if event.Printed? then [event.output] else []
    ensures inst.I.out == old(inst.I.out) + Trace(old(inst.Fields()), input)
    ensures var r := Step(Wrapping, old(plain.Fields()), input);
            event == Shown(r) && plain.Fields() == NextState(old(plain.Fields()), r)
  {
    hide Step, Trace;
    var boxed := new MyString(input);
    var kept := inst.CalculateOutput(boxed);
    var ok := plain.CalculateOutput(input);
    assert kept == ok;
    event := if ok then Printed(plain.printed[|plain.printed| - 1]) else Rejected;
  }

  /** All that the instrumented machine prints for a list of inputs. */
  function Stream(st: State, inputs: seq<string>): seq<Chunk>
    decreases |inputs|
  {
    if inputs == [] then [] else
      Trace(st, inputs[0]) + Stream(NextState(st, Step(Wrapping, st, inputs[0])), inputs[1..])
  }

  lemma StreamUnfolds(st: State, inputs: seq<string>, i: nat, out: seq<Chunk>)
    requires i < |inputs|
    ensures var next := NextState(st, Step(Wrapping, st, inputs[i]));
            out + Stream(st, inputs[i..]) == out + Trace(st, inputs[i]) + Stream(next, inputs[i + 1..])
  {
    hide Step, Trace;
    assert inputs[i..][0] == inputs[i] && inputs[i..][1..] == inputs[i + 1..];
  }

  lemma StreamOfNothing(st: State, out: seq<Chunk>)
    ensures out + Stream(st, []) == out
  {}

  /** The refinement over a whole run: equal values at the end, equal lines, and the same inputs rejected. */
  method Lockstep(plain: Eca, inst: InstrumentedEca, inputs: seq<string>) returns (events: seq<Event>)
    requires inst.Valid() && plain.Fields() == inst.Fields()
    modifies plain, inst, inst.I, inst.I.Vars(), inst.I.Bools()
    ensures inst.Valid() && plain.Fields() == inst.Fields()
    ensures plain.Fields() == After(Wrapping, old(plain.Fields()), inputs)
    ensures inputs != [] ==> plain.cf == inst.cf.val
    ensures events == Run(Wrapping, old(plain.Fields()), inputs)
    ensures plain.printed == old(plain.printed) + Lines(events)
    ensures inst.I.Printed() == old(inst.I.Printed()) + Lines(events)
    ensures inst.I.out == old(inst.I.out) + Stream(old(inst.Fields()), inputs)
  {
    hide *;
    events := [];
    LinesOfNothing();
    assert inputs[0..] == inputs;
    for i := 0 to |inputs|
      invariant inst.Valid() && plain.Fields() == inst.Fields()
      invariant i > 0 ==> plain.cf == inst.cf.val
      invariant plain.printed == old(plain.printed) + Lines(events)
      invariant inst.I.Printed() == old(inst.I.Printed()) + Lines(events)
      invariant inst.I.out + Stream(inst.Fields(), inputs[i..]) == old(inst.I.out) + Stream(old(inst.Fields()), inputs)
      invariant events + Run(Wrapping, plain.Fields(), inputs[i..]) == Run(Wrapping, old(plain.Fields()), inputs)
      invariant After(Wrapping, plain.Fields(), inputs[i..]) == After(Wrapping, old(plain.Fields()), inputs)
    {
      RunUnfolds(Wrapping, plain.Fields(), inputs, i);
      StreamUnfolds(inst.Fields(), inputs, i, inst.I.out);
      var event := StepBoth(plain, inst, inputs[i]);
      LinesAppend(events, event);
      events := events + [event];
    }
    RunOfNothing(Wrapping, plain.Fields());
    StreamOfNothing(inst.Fields(), inst.I.out);
    assert inputs[|inputs|..] == [];
  }
}
