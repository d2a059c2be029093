# Verified models of the machines, searches and build graph code in stcrap

This project models, in Dafny 4.11, the parts of the repository whose behaviour is hardest to see
from the code, and proves what they guarantee. `dafny verify dfyconfig.toml` checks everything.

| file | what it models |
|---|---|
| `Logic.dfy`, `Weights.dfy`, `Cores.dfy`, `Strata.dfy`, `Runs.dfy`, `Rc2.dfy`, `Rc2Inputs.dfy` | the core-guided MaxSAT search of `rc2.py` |
| `MachineInt.dfy`, `JavaEca.dfy`, `CEca.dfy` | the two event-condition-action machines, in Java and in C |
| `SameMachine.dfy` | that the two machines are one, with the least number of states |
| `NestedCopy.dfy` | the copy of the Java machine that nests its last guard |
| `Instrumented.dfy` | the instrumented Java machine, whose values are heap objects that share temporaries |
| `CheckSmall.dfy` | the bisection of `CheckSmall` over several 32-bit terms |
| `AllInterval.dfy` | the encoding and enumeration of all-interval series |
| `Registry.dfy`, `Includes.dfy`, `Symlink.dfy` | component registry, include rules and relative links of the build scripts |
| `Visit.dfy` | the traversal of a shared expression |
| `ProfileDiff.dfy` | the comparison of two quantifier profiles |
| `Sets.dfy` | what several of them need about lists and sets |

## Reading the model

**Solvers.** The Z3 solver is foreign. It appears as an arbitrary function from the number of the
call and the assertions to an answer, with one promise: a `sat` answer is a model of the assertions
and assumptions, an `unsat` answer is a set of assumptions that cannot hold with the assertions.
Every theorem holds for every solver that keeps it. Some speak of solvers that minimize cores, or of
solvers that do not; `Ideal` and `IdealMinimal` show that both kinds exist. Asking for a
model after an `unsat` answer is an exception.

**RC2.** The fresh variable `Bool("...")` made for a cardinality formula is the constructor `Name`
of that formula. A world gives names values of their own; the *unfolded* reading replaces a name by
its formula. The invariant is a decomposition of the cost of every world that satisfies the hard
constraints: the charged cost, plus the pending cores, plus the penalties of the soft constraints
that are left. The penalty of "at most k of S" is the number of true members beyond k, which
already holds the weights of the bounds that have not been introduced yet.
Two exceptions of the source are part of the model. When the cores of one pass use up the whole
table, `check` answers `sat` without a query and the model that is asked for next does not exist
(`NoModel`). When the second disjunct of the scan at rc2.py:64 passes the end of the list, an index
error follows (`IndexError`). Optimality is proved for every run that returns. When hard and soft
constraints can hold together, `IndexError` has an exact condition on the weights and `NoModel` does
not occur. When they cannot, the cores that the solver picks decide. `Runs.dfy` is a transition system
over the input alone that contains every run, whatever the solver answers, and both exceptions are
tied to it: `NoModel` needs a run that uses up the table, `IndexError` one with a table whose scan passes
the end. From that follow conditions on the input: `NoModel` needs that no soft constraint weighs more
than the cheapest world (exact for equal weights and cores that are not minimized, not sufficient in
general: `ThreeRivals`); `IndexError` needs a weight and an optimum that together exceed 20, and does
not happen for equal weights when no formula is listed with its double negation. `Doomed` collects
inputs on which `NoModel` must be raised. The source's answer for an empty problem does not depend on
the hard constraints, and the model keeps that.

**The machines.** `Handler1` to `Handler8` and `Step` are the reactions as a decision tree; the
classes follow the cascades of the source with their flag, and are proved against the tree for every
state (in C: for every reachable state, because elsewhere overflow is undefined). The eight modes are
an inductive invariant and the states of a Mealy machine. The mode bounds are those of the handlers:
no bound is assumed.
In the instrumented class `slot` is ghost: it numbers the shared temporaries, and `Valid` says that
no field is one of them. The three-call guard and the operation chains that the source repeats
inline are methods of their own (`Guard`, `GuardRange`, `Compute...`, `Block...`, `Range...`,
`Strings...`, `Region...`), with the operands of `myAnd` in one order.
`SameMachine.dfy` relates the two programs by the numbering of the symbols that the repository
ships with the C version. Their variables differ; their modes correspond one to one. `NestedCopy.dfy`
is a copy that does not refine the original, with the exact condition on the inputs under which it
still prints the same.

**CheckSmall.** The base assertions are the set of value vectors they allow. Above 2^31 the unsigned
sum of the ends can wrap around. A vector is *low* when no value is above 2^31. The search can only
end at a low vector; it ends for certain when every feasible vector that is not low can be halved
where it is not, and when the first model is low.

**Build scripts.** That the dependencies of a component are registered, which emission relies on, is the
invariant of the registry. A header is the pair of its component's directory and its name, which is what the
source path, the processed key and the `.node` target are made from. Paths of links are strings;
components appear only in the specification.

**Where the code and its comments differ, the code is followed.** The comment of the all-interval
script reads `x_ij` as "integer i is at position j", but the rows are the positions; it also speaks
of sequences of length n-1 where n numbers are printed. The comment on links speaks of a leading
slash where the code tests the trailing one. The guard in the Java main loop is a conjunction of
five different equalities on one string, so it never throws.

## Model

| member | source | states |
|---|---|---|
| `Rc2.FromFormulas` | Z3/z3-master/examples/python/rc2.py:141-147 | For positive integer costs: a returned cost is the weight, over the caller's own list, of what some world of the hard constraints falsifies; the returned set is exactly what that world falsifies; no world of the hard constraints costs less; `unsat` is returned only when the hard constraints have no world. When hard and soft constraints can hold together it returns `(0, {})`, or raises the index error exactly when the scan passes the end of the sorted list. The missing-model exception is raised only when no listed formula weighs more than the cost of any world, always on the inputs of `Doomed`, and for equal weights and a solver that does not minimize cores exactly when hard and soft constraints contradict each other. The index error is raised only when some run over the input has a table whose scan passes the end, so only when the weight of the input and the cost of any world together exceed 20, and never for equal weights when no formula is listed with its double negation. A light problem with a world that costs less than one wish weighs always returns the optimum. `unsat` is returned exactly when the solver answers with an empty core during the search; with a solver whose cores lose no member without becoming satisfiable, that is always so when the hard constraints have no world and a soft constraint is listed |
| `Rc2.RC2.MaxSat` | Z3/z3-master/examples/python/rc2.py:114-128 | Optimality with `min_cost == max_cost == cost`; at every exit, also by an exception, `min_cost` bounds the cost of every world from below; an empty problem returns `(0, {})` even if the hard constraints are contradictory; the search terminates; the conditions of both exceptions and of a certain success depend only on the table that is passed in, as for `FromFormulas`; `unsat` is returned exactly when some answer of this call is an empty core, and always when the hard constraints have no world, the table is not empty and cores are minimal |
| `Rc2.RC2.Pass` | Z3/z3-master/examples/python/rc2.py:118-127 | One round keeps the cost decomposition; a round with a core raises `min_cost` and keeps it at most the total weight; a round without one leaves a model of everything that is left |
| `Rc2.RC2.GetCores` | Z3/z3-master/examples/python/rc2.py:78-90 | Every core it lists is falsified by every world of the hard constraints; the decomposition holds with the listed cores as pending debt; it returns `unsat` exactly when one of its queries is answered with an empty core, which means that the hard constraints have no world; it terminates because the total weight drops |
| `Rc2.RC2.NextCore` | Z3/z3-master/examples/python/rc2.py:80-88 | The head and the body of that loop: one call of `check`; after `sat` nothing has changed and what is left holds together; an empty core ends the search with `unsat`; any other core is taken out at its least weight, which lowers the total weight |
| `Logic.MinimalOfNothing` | Z3/z3-master/examples/python/rc2.py:80-84 | When the assertions have no world, the only core without a superfluous member is the empty one |
| `Rc2.RC2.TakeCore` | Z3/z3-master/examples/python/rc2.py:85-88 | Taking a core out at its least weight keeps the decomposition and strictly lowers the total weight |
| `Rc2.RC2.Lightest` | Z3/z3-master/examples/python/rc2.py:85 | The weight taken is the least weight in the core |
| `Rc2.RC2.SubtractCore` | Z3/z3-master/examples/python/rc2.py:86-87 | The loop applies `sub` to every member of the core once |
| `Rc2.RC2.ChargeCores` | Z3/z3-master/examples/python/rc2.py:123-127 | Charging and weakening all listed cores settles the pending debt exactly |
| `Rc2.RC2.UpdateBounds` | Z3/z3-master/examples/python/rc2.py:101-107 | The new table is the old one with every bound of the core weakened by one and one new bound over the negated core; the registry invariant is kept |
| `Rc2.RC2.RelaxMember` | Z3/z3-master/examples/python/rc2.py:102-106 | A bound k of S is followed by k + 1 exactly when k + 1 is below the size of S; other formulas are dropped |
| `Rc2.RC2.AtMostName` | Z3/z3-master/examples/python/rc2.py:36-44 | A known formula asserts nothing; a new one asserts exactly `name ==> formula`; the dictionaries stay consistent |
| `Rc2.RC2.Check` | Z3/z3-master/examples/python/rc2.py:55-72 | The queries are prefixes of one list of the table, heaviest first, each ending where the scan from the end of the last one stops; all of them before an unsatisfiable one were answered `sat`. `sat` means a model of all soft constraints (or an empty table, without a query), `unsat` means a core among the soft constraints; when no query is unsatisfiable, all prefixes were asked, and the index error occurs exactly when the strata run past the end, which needs more than 20 soft constraints |
| `Rc2.RC2.Query` | Z3/z3-master/examples/python/rc2.py:67-71 | One query: a model improves the upper bound, otherwise there is a core |
| `Strata.NextStratum` | Z3/z3-master/examples/python/rc2.py:62-66 | The prefix ends at the least position at which both disjuncts fail; it passes the end of the list exactly when a query was made before and 20 times the rest is less than the length |
| `Strata.LightTailOverruns` | Z3/z3-master/examples/python/rc2.py:62-67 | With more than 20 soft constraints, all of the same weight except one lighter one, the scan passes the end of every sorted list |
| `Rc2Inputs.LightTailRaises` | Z3/z3-master/examples/python/rc2.py:141-147 | Such a problem, when all of it can hold together, raises the index error with every solver |
| `Strata.OrderIrrelevant` | Z3/z3-master/examples/python/rc2.py:56-66 | Whether the scan passes the end does not depend on the order of constraints of equal weight |
| `Rc2.UsedUp` | Z3/z3-master/examples/python/rc2.py:78-89 | When cores use up the whole table, no soft constraint weighs more than the cost of any world |
| `Rc2Inputs.OutweighedWhenUniform` | Z3/z3-master/examples/python/rc2.py:114-128 | For equal weights that condition says exactly that hard and soft constraints contradict each other |
| `Rc2Inputs.MinimalIsUnsplit` | Z3/z3-master/examples/python/rc2.py:78-89 | A contradiction that needs every soft constraint cannot be split, so with equal weights every solver runs into the exception |
| `Rc2.VerdictDone` | Z3/z3-master/examples/python/rc2.py:78-89 | A first pass that leaves constraints behind: there was no core if all can hold together, and the input was not one on which the table must be used up |
| `Rc2Inputs.TwoExclusive` | Z3/z3-master/examples/python/rc2.py:141-147 | `not (a and b)` with the wishes a and b of weight 1: every solver runs into the missing-model exception |
| `Rc2.RC2.GetCost` | Z3/z3-master/examples/python/rc2.py:74-76 | The weight of the original soft constraints that the last model falsifies, or the missing-model exception |
| `Rc2.RC2.UpdateMaxCost` | Z3/z3-master/examples/python/rc2.py:49-51 | `max_cost` becomes the lesser of its value and the cost of the model, and stays a cost that is attained or the total |
| `Cores.SumRelaxed` | Z3/z3-master/examples/python/rc2.py:92-107 | Weakening a core changes the penalty of every world of the hard constraints by exactly the charged weight |
| `Cores.BalancedCore` | Z3/z3-master/examples/python/rc2.py:85-88 | The decomposition survives moving a core to the pending list |
| `Cores.BalancedRelax` | Z3/z3-master/examples/python/rc2.py:124-127 | The decomposition survives charging the first pending core |
| `Cores.BalancedLowerBound` | Z3/z3-master/examples/python/rc2.py:114-128 | The charged cost bounds every world, and is the cost of a world that satisfies all that is left |
| `Cores.ConservativeExtension` | Z3/z3-master/examples/python/rc2.py:36-44 | Every world of the hard constraints extends to all names |
| `Cores.NameImplies` | Z3/z3-master/examples/python/rc2.py:36-44 | A name true in a model of the definitions stands for a true formula, through any nesting of bounds |
| `Cores.UnsatGivesCore` | Z3/z3-master/examples/python/rc2.py:78-84 | An unsatisfiable set of soft constraints is falsified by every world of the hard constraints |
| `Rc2.TableCost` | Z3/z3-master/examples/python/rc2.py:141-147 | The table of weights prices a world as the caller's list does |
| `Runs.KeptAlways` | Z3/z3-master/examples/python/rc2.py:78-127 | In every state of every run the decomposition of the cost holds, and the weight of the table is at most the weight of the input plus the charged cost |
| `Runs.QueriedSize` | Z3/z3-master/examples/python/rc2.py:55-127 | No table of any run has more entries than the weight of the input and the cost of any world together |
| `Runs.EqualWeightsNeverOverrun` | Z3/z3-master/examples/python/rc2.py:55-127 | With equal weights, and no formula listed with its double negation, every table of every run has equal weights, so the scan never passes the end, whatever the solver answers |
| `Runs.NewList` | Z3/z3-master/examples/python/rc2.py:92-107 | The bound over a core that is charged was never made before |
| `Runs.ChargedTable` | Z3/z3-master/examples/python/rc2.py:101-107 | Charging a core adds its bound and the weaker bounds of its members, all new, with the weight of the core |
| `Runs.OverrunMeans` | Z3/z3-master/examples/python/rc2.py:62-67 | What an index error in a run says about the input |
| `Strata.TailIsLong` | Z3/z3-master/examples/python/rc2.py:62-67 | A scan that passes the end needs more than 20 entries, and not all of one weight |
| `Rc2Inputs.TwoUnequal` | Z3/z3-master/examples/python/rc2.py:141-147 | `not (a and b)` with the wishes a of weight 2 and b of weight 1: every solver returns cost 1 and {b} |
| `Rc2Inputs.ThreeRivals` | Z3/z3-master/examples/python/rc2.py:141-147 | Wishes a, b of weight 2 that exclude the wish c of weight 3: no wish weighs more than the cost of any world, and still every solver returns cost 3 and {c} |
| `Rc2Inputs.RivalsAreNeverUsedUp` | Z3/z3-master/examples/python/rc2.py:78-127 | On those wishes no run uses up the table, so the condition of the missing-model exception is not sufficient |
| `Weights.SumAdded` | Z3/z3-master/examples/python/rc2.py:16-17 | `add` raises every weighted sum by the weight times the value |
| `Weights.SumSubtracted` | Z3/z3-master/examples/python/rc2.py:19-24 | `sub` lowers every weighted sum by the weight times the value |
| `Weights.SortByWeight` | Z3/z3-master/examples/python/rc2.py:56-59 | The keys, each once, heaviest first |
| `Logic.NameFreeReading` | Z3/z3-master/examples/python/rc2.py:13-14 | A formula of the user has the same value whether names are read or unfolded |
| `JavaEca.StepSimulates` | m183_LTL_CTL.java:15-139 | In each of the eight modes a step of the machine is the move of the Mealy machine, into its next mode, with its output; wrap-around changes nothing |
| `JavaEca.RunSimulates` | m183_LTL_CTL.java:15-139 | Equal traces of the 32-bit machine, the machine over the integers and the Mealy machine for all input lists, and the mode reached |
| `JavaEca.ReachableStatesHaveOneMode` | m183_LTL_CTL.java:9-13 | Every state reachable from the start is in exactly one mode |
| `JavaEca.OnlyHandler` | m183_LTL_CTL.java:102-136 | In its mode a state opens the guard of its handler and of no other; no state is in two modes |
| `JavaEca.StepByGuards` | m183_LTL_CTL.java:102-136 | In every state, in a mode or not, the guards of at most one handler are open, and the step is that handler's reaction |
| `JavaEca.NoGuardRejects` | m183_LTL_CTL.java:102-139 | A state that opens no guard rejects every input |
| `JavaEca.WritesInMode` | m183_LTL_CTL.java:15-98 | What each handler writes in its mode, as a formula over the integers with one sign of division: no truncation and no wrap-around is left in it |
| `JavaEca.Fit1` | m183_LTL_CTL.java:19 | All intermediate values fit in 32 bits in the mode of the handler; the value is the exact one |
| `JavaEca.Fit2` | m183_LTL_CTL.java:31 | As above, for the second handler |
| `JavaEca.Fit3` | m183_LTL_CTL.java:38-39 | As above, for the two assignments of the third handler, the second reading what the first wrote |
| `JavaEca.Fit4` | m183_LTL_CTL.java:51 | As above, for the fourth handler |
| `JavaEca.Fit6X` | m183_LTL_CTL.java:69 | As above, for the first assignment of the sixth handler |
| `JavaEca.Fit6Y` | m183_LTL_CTL.java:70 | As above, for the second assignment of the sixth handler |
| `JavaEca.Fit6` | m183_LTL_CTL.java:75 | As above, for the other block of the sixth handler |
| `JavaEca.Fit7` | m183_LTL_CTL.java:83 | As above, for the seventh handler |
| `JavaEca.Fit7Wide` | m183_LTL_CTL.java:87 | As above, for the other block of the seventh handler |
| `JavaEca.Fit8` | m183_LTL_CTL.java:95 | As above, for the eighth handler |
| `JavaEca.Eca.CalculateOutputM1` | m183_LTL_CTL.java:15-22 | In mode 1 with the flag up it makes the move of the Mealy machine: into a state of the next mode, with its output, or nothing when the mode does not accept the input; for every other state the new fields, flag and output in wrapping arithmetic |
| `JavaEca.Eca.CalculateOutputM2` | m183_LTL_CTL.java:23-34 | In mode 2 with the flag up it makes the move of the Mealy machine: into a state of the next mode, with its output, or nothing when the mode does not accept the input; for every other state the new fields, flag and output in wrapping arithmetic |
| `JavaEca.Eca.CalculateOutputM3` | m183_LTL_CTL.java:35-42 | In mode 3 with the flag up it makes the move of the Mealy machine: into a state of the next mode, with its output, or nothing when the mode does not accept the input; for every other state the new fields, flag and output in wrapping arithmetic |
| `JavaEca.Eca.CalculateOutputM4` | m183_LTL_CTL.java:43-58 | In mode 4 with the flag up it makes the move of the Mealy machine: into a state of the next mode, with its output, or nothing when the mode does not accept the input; for every other state the new fields, flag and output in wrapping arithmetic |
| `JavaEca.Eca.CalculateOutputM5` | m183_LTL_CTL.java:59-65 | In mode 5 with the flag up it makes the move of the Mealy machine: into a state of the next mode, with its output, or nothing when the mode does not accept the input; for every other state the new fields, flag and output in wrapping arithmetic |
| `JavaEca.Eca.CalculateOutputM6` | m183_LTL_CTL.java:66-78 | In mode 6 with the flag up it makes the move of the Mealy machine: into a state of the next mode, with its output, or nothing when the mode does not accept the input; for every other state the new fields, flag and output in wrapping arithmetic |
| `JavaEca.Eca.CalculateOutputM7` | m183_LTL_CTL.java:79-90 | In mode 7 with the flag up it makes the move of the Mealy machine: into a state of the next mode, with its output, or nothing when the mode does not accept the input; for every other state the new fields, flag and output in wrapping arithmetic |
| `JavaEca.Eca.CalculateOutputM8` | m183_LTL_CTL.java:91-98 | In mode 8 with the flag up it makes the move of the Mealy machine: into a state of the next mode, with its output, or nothing when the mode does not accept the input; for every other state the new fields, flag and output in wrapping arithmetic |
| `JavaEca.Eca.CalculateOutput` | m183_LTL_CTL.java:102-139 | For every state: at most one handler acts although later guards read the changed fields; exactly the reactions of the decision tree, one output or an exception, and the flag tells which |
| `JavaEca.Eca.Loop` | m183_LTL_CTL.java:146-158 | The events of the main loop are the trace of the machine, and the printed lines are the lines among them; a rejected input leaves the state alone |
| `MachineInt.QuotRem` | m183_LTL_CTL.java:19 | Division truncates toward zero and the remainder has the sign of the dividend |
| `MachineInt.Wrap` | m183_LTL_CTL.java:19 | Storing in 32 bits keeps the value modulo 2^32, and keeps it unchanged in range |
| `Instrumented.Lockstep` | Assignment1/Code/T1Final/instm183_LTL_CTLDirect.java:16-279 | The refinement: for every state and all inputs, fields, flag, printed lines and exceptions of the instrumented machine are those of the plain machine; the whole stream of the instrumented machine, with the trace of `myIf` between the lines, is `Stream` of the plain machine's states |
| `Instrumented.TraceLines` | Assignment1/Code/T1Final/instm183_LTL_CTLDirect.java:197-279 | The lines in the stream of one call are the plain machine's line, or none when it throws |
| `Instrumented.StepBoth` | Assignment1/Code/T1Final/instm183_LTL_CTLDirect.java:197-279 | The same for one input |
| `Instrumented.InstrumentedEca.CalculateOutput` | Assignment1/Code/T1Final/instm183_LTL_CTLDirect.java:197-279 | For every state the boxed machine reacts as the plain decision tree, its fields stay apart from the temporaries, and it prints exactly the outcome of every test of the cascade and of the called handler, in order, and the line |
| `Instrumented.InstrumentedEca.CalculateOutputM1` | Assignment1/Code/T1Final/instm183_LTL_CTLDirect.java:16-32 | Through the shared temporaries the handler computes what the plain handler computes, in the boxes of the fields |
| `Instrumented.InstrumentedEca.CalculateOutputM2` | Assignment1/Code/T1Final/instm183_LTL_CTLDirect.java:34-56 | Through the shared temporaries the handler computes what the plain handler computes, in the boxes of the fields |
| `Instrumented.InstrumentedEca.CalculateOutputM3` | Assignment1/Code/T1Final/instm183_LTL_CTLDirect.java:58-78 | Through the shared temporaries the handler computes what the plain handler computes, in the boxes of the fields |
| `Instrumented.InstrumentedEca.CalculateOutputM4` | Assignment1/Code/T1Final/instm183_LTL_CTLDirect.java:80-107 | Through the shared temporaries the handler computes what the plain handler computes, in the boxes of the fields |
| `Instrumented.InstrumentedEca.CalculateOutputM5` | Assignment1/Code/T1Final/instm183_LTL_CTLDirect.java:109-117 | Through the shared temporaries the handler computes what the plain handler computes, in the boxes of the fields |
| `Instrumented.InstrumentedEca.CalculateOutputM6` | Assignment1/Code/T1Final/instm183_LTL_CTLDirect.java:119-149 | Through the shared temporaries the handler computes what the plain handler computes, in the boxes of the fields |
| `Instrumented.InstrumentedEca.CalculateOutputM7` | Assignment1/Code/T1Final/instm183_LTL_CTLDirect.java:151-176 | Through the shared temporaries the handler computes what the plain handler computes, in the boxes of the fields |
| `Instrumented.InstrumentedEca.CalculateOutputM8` | Assignment1/Code/T1Final/instm183_LTL_CTLDirect.java:178-195 | Through the shared temporaries the handler computes what the plain handler computes, in the boxes of the fields |
| `Instrumented.Interpreter.MyAssignInt` | Assignment1/Code/T1Final/instm183_LTL_CTLDirect.java:666-669 | An assignment makes a fresh box with the same value, which is not a temporary |
| `Instrumented.Interpreter.MyAssignBool` | Assignment1/Code/T1Final/instm183_LTL_CTLDirect.java:661-664 | As above, for booleans |
| `Instrumented.Interpreter.MyAssignString` | Assignment1/Code/T1Final/instm183_LTL_CTLDirect.java:677-680 | As above, for strings |
| `Instrumented.Interpreter.MyMod` | Assignment1/Code/T1Final/instm183_LTL_CTLDirect.java:628-630 | Whatever the aliasing of the boxes, the target gets the remainder with the sign of the dividend that truncating division leaves, smaller than the divisor; no wrap-around can happen |
| `CEca.StepSimulates` | sources/m183_LTL_CTL.c:26-145 | In each of the eight modes a step of the C machine is the move of the Mealy machine |
| `CEca.RunSimulates` | sources/m183_LTL_CTL.c:26-151 | Equal traces, including the inputs reported as invalid, for all input lists, and the mode reached |
| `CEca.ReachableStatesHaveOneMode` | sources/m183_LTL_CTL.c:21-24 | Every state reachable from the initial globals is in exactly one mode |
| `CEca.OnlyHandler` | sources/m183_LTL_CTL.c:112-145 | In its mode a state opens the guard of its handler and of no other; no state is in two modes |
| `CEca.StepByGuards` | sources/m183_LTL_CTL.c:112-145 | In every state, in a mode or not, the guards of at most one handler are open, and the step is that handler's reaction |
| `CEca.NoGuardRejects` | sources/m183_LTL_CTL.c:112-151 | A state that opens no guard rejects every input |
| `CEca.WritesInMode` | sources/m183_LTL_CTL.c:26-110 | What each handler writes in its mode, as a formula over the integers in which no division truncates |
| `CEca.GuardsAllowOverflow` | sources/m183_LTL_CTL.c:26-30 | The guards alone do not prevent overflow: a state outside the modes opens the first handler, whose first product leaves the 32-bit range |
| `CEca.Program.CalculateOutputM1` | sources/m183_LTL_CTL.c:26-38 | In the mode of the handler no operation leaves the signed 32-bit range, and the globals get the exact values |
| `CEca.Program.CalculateOutputM2` | sources/m183_LTL_CTL.c:39-50 | In the mode of the handler no operation leaves the signed 32-bit range, and the globals get the exact values |
| `CEca.Program.CalculateOutputM3` | sources/m183_LTL_CTL.c:51-58 | In the mode of the handler no operation leaves the signed 32-bit range, and the globals get the exact values |
| `CEca.Program.CalculateOutputM4` | sources/m183_LTL_CTL.c:59-66 | In the mode of the handler no operation leaves the signed 32-bit range, and the globals get the exact values |
| `CEca.Program.CalculateOutputM5` | sources/m183_LTL_CTL.c:67-74 | In the mode of the handler no operation leaves the signed 32-bit range, and the globals get the exact values |
| `CEca.Program.CalculateOutputM6` | sources/m183_LTL_CTL.c:75-91 | In the mode of the handler no operation leaves the signed 32-bit range, and the globals get the exact values |
| `CEca.Program.CalculateOutputM7` | sources/m183_LTL_CTL.c:92-98 | In the mode of the handler no operation leaves the signed 32-bit range, and the globals get the exact values |
| `CEca.Program.CalculateOutputM8` | sources/m183_LTL_CTL.c:99-110 | In the mode of the handler no operation leaves the signed 32-bit range, and the globals get the exact values |
| `CEca.Program.CalculateOutput` | sources/m183_LTL_CTL.c:112-151 | From a reachable state: no undefined overflow, one line on one of the two streams, the state of the decision tree, and a reachable state again |
| `CEca.Program.Loop` | sources/m183_LTL_CTL.c:153-165 | The loop stops at the first number outside 55 to 59; until then the lines on both streams, in order, are the trace of the machine, and the state stays reachable |
| `SameMachine.SameTraces` | sources/m183_LTL_CTL_alphabet_mapping_C_version.txt:1-67 | The Java machine and the C program are one machine: from corresponding modes, whatever their variables hold, every list of inputs gives the same trace up to the numbers of the symbols, an exception there being an invalid input here, and corresponding modes again |
| `SameMachine.SameMoves` | sources/m183_LTL_CTL_alphabet_mapping_C_version.txt:1-67 | One move of the one Mealy machine is the move of the other, in numbers |
| `SameMachine.FromTheStart` | sources/m183_LTL_CTL.c:21-24 | So the two programs show the same trace from their starting values |
| `SameMachine.RunBoth` | sources/m183_LTL_CTL.c:153-165 | The two programs side by side, over inputs of the Java alphabet: the C program reads them all, and its lines are the events of the Java program in numbers |
| `SameMachine.SymbolOfCode` | sources/m183_LTL_CTL_alphabet_mapping_C_version.txt:1-67 | The numbering loses nothing: a number determines its symbol |
| `SameMachine.CodeOfSymbol` | sources/m183_LTL_CTL_alphabet_mapping_C_version.txt:1-67 | Every number from 55 to 66 stands for a symbol |
| `SameMachine.EightStatesSuffice` | m183_LTL_CTL.java:102-139 | The eight modes, as a machine, show the traces of the program |
| `SameMachine.EightStatesAreNeeded` | m183_LTL_CTL.java:102-139 | Any machine whose future depends on its state alone and that shows the traces of the program is in different states after the words that lead to different modes: it has at least eight states |
| `SameMachine.RecordedRuns` | sources/m183.traces:2-3608 | Every beginning of a sequence of rounds, the shape of all recorded runs, is answered by the Java machine with the recorded outputs |
| `NestedCopy.CalculateOutput` | instm183_LTL_CTLCond.java:232-318 | The copy that nests the last guard and the exception in the guard before: it reacts like the original up to 100, throws only between -19 and 100, and above 100 ignores everything |
| `NestedCopy.NestedFollows` | instm183_LTL_CTLCond.java:232-318 | For all inputs from any mode the copy prints a prefix of the lines of the original; it prints all of them exactly when no input leads the original out of its eighth mode, and otherwise it ends in that mode |
| `NestedCopy.NestedInMode` | instm183_LTL_CTLCond.java:281-318 | On an input the original rejects, the copy throws exactly in modes 6 and 7 |
| `NestedCopy.LosesALine` | instm183_LTL_CTLCond.java:281-318 | Three inputs from the start on which the copy loses a line |
| `CheckSmall.CheckSmall` | Z3/z3-master/examples/dotnet/Program.cs:1825-1894 | With a model, and when every feasible vector above 2^31 somewhere can be halved there or the first model of the solver is up to 2^31, the search ends with both arrays equal, at the values of a model, with no other feasible vector at or below them; push and pop are balanced |
| `CheckSmall.CheckSmallUpTo` | Z3/z3-master/examples/dotnet/Program.cs:1825-1894 | For all assertions, after any number of passes: the search has ended only at a minimal model with all values up to 2^31, so without such a model it never ends; after more than 32 passes for each term and one more it has ended in the case above, and when the first model is up to 2^31; a single feasible vector is reached by then exactly when its values are up to 2^31 |
| `CheckSmall.Pass` | Z3/z3-master/examples/dotnet/Program.cs:1841-1892 | For all assertions: between push and pop every feasible vector in the upper box stays at or above `lower`, the box does not grow, its lower ends stay up to 2^31, and the next pass finds its precondition again; the room between the arrays shrinks while no sum wraps around; without any model nothing changes, and each pass that works takes a bit off the length of some range when vectors above 2^31 can be halved |
| `CheckSmall.Round` | Z3/z3-master/examples/dotnet/Program.cs:1846-1890 | One query: `sat` lowers the box to the values of the model, `unsat` moves one lower end past the middle |
| `CheckSmall.NewBound` | Z3/z3-master/examples/dotnet/Program.cs:1874-1890 | The first open range is bisected, or both arrays are equal |
| `CheckSmall.Narrow` | Z3/z3-master/examples/dotnet/Program.cs:1862-1872 | Each upper end becomes the lesser of its value and the value in the model |
| `CheckSmall.MiddleSplits` | Z3/z3-master/examples/dotnet/Program.cs:1883 | The 32-bit middle lies inside the range exactly when the sum does not wrap around |
| `CheckSmall.MiddleHalves` | Z3/z3-master/examples/dotnet/Program.cs:1883 | Where the sum does not wrap around, the parts on both sides of the middle are at most half of the range |
| `CheckSmall.RefutedIsLow` | Z3/z3-master/examples/dotnet/Program.cs:1853-1857 | When vectors above 2^31 can be halved, a lower half is refuted only below 2^31 |
| `CheckSmall.GapIsHalved` | Z3/z3-master/examples/dotnet/Program.cs:1838-1892 | The feasible values 0 and 2^32 - 1 of one term meet the condition for the end of the search |
| `CheckSmall.PassWithoutModel` | Z3/z3-master/examples/dotnet/Program.cs:1838-1892 | Without a model a pass leaves all variables as they were and asks for another pass: the loop never ends |
| `AllInterval.EncodingIsExact` | Z3/z3-master/examples/python/all_interval_series.py:13-42 | The worlds of the encoding are the all-interval series, one to one, for every n >= 1 |
| `AllInterval.ConstraintsMeanEncodes` | Z3/z3-master/examples/python/all_interval_series.py:20-42 | The asserted formulas say exactly: one true cell per row and column, one gap per position, one position per gap |
| `AllInterval.DiffMeansGap` | Z3/z3-master/examples/python/all_interval_series.py:13-17 | The difference formula is true exactly when the neighbours are that far apart |
| `AllInterval.OneMeansExactlyOne` | Z3/z3-master/examples/python/all_interval_series.py:28-41 | The pair of constraints the source adds means that exactly one formula of the list is true |
| `AllInterval.Ais` | Z3/z3-master/examples/python/all_interval_series.py:20-42 | The loops assert exactly the four families, in order |
| `AllInterval.ProcessModel` | Z3/z3-master/examples/python/all_interval_series.py:44-63 | The printed list is the series of the model, the block its true cells, and the assertion in the loop never fails |
| `AllInterval.BlockRemovesOne` | Z3/z3-master/examples/python/all_interval_series.py:65-71 | A blocking clause removes exactly the world it was read from |
| `AllInterval.AllModels` | Z3/z3-master/examples/python/all_interval_series.py:65-75 | The loop terminates, prints every series for n exactly once and nothing else, and the count is the number of series; the lines are the series of the solver's models in the order of the answers, and the last answer is `unsat` |
| `Registry.ComponentRegistry.Add` | Z3/z3-master/scripts/mk_util.py:949-961 | Registration fails exactly for a taken name or an unknown dependency and then changes nothing; otherwise every `deps` list is still the transitive closure without duplicates, with smaller ids; the new list is, over the declared dependencies in order, each followed by its own list, the first occurrences |
| `Registry.ComponentRegistry.FindAllDeps` | Z3/z3-master/scripts/mk_util.py:935-946 | The first occurrences in the list of the declared dependencies, each followed by its own `deps`, in order; as a set, what they reach; an error exactly when one is unknown |
| `Registry.ComponentRegistry.RegComponent` | Z3/z3-master/scripts/mk_util.py:2262-2268 | Registering a component that is new and lists the closure of its declared dependencies keeps the registry valid; the component gets the next id |
| `Registry.ComponentRegistry.SortComponents` | Z3/z3-master/scripts/mk_util.py:1171-1172 | A permutation of the names by falling id; an error exactly when a name is unknown |
| `Registry.DependenciesComeLater` | Z3/z3-master/scripts/mk_util.py:1170-1172 | In the link order every component stands before all components it depends on |
| `Registry.ComponentRegistry.AddInOrder` | Z3/z3-master/scripts/mk_util.py:2272-2286 | A sequence of registrations succeeds exactly when no name is taken and every dependency is registered earlier; then every component has its declared dependencies and its position as id, and every `deps` list is the transitive closure |
| `Registry.NoCycles` | Z3/z3-master/scripts/mk_util.py:949-961 | No component reaches itself |
| `Registry.NewReaches` | Z3/z3-master/scripts/mk_util.py:935-946 | A new component reaches what it declares and what that reaches |
| `Registry.OldReaches` | Z3/z3-master/scripts/mk_util.py:2262-2268 | A registration changes no older closure |
| `Includes.RuleWriter.MakeAll` | Z3/z3-master/scripts/mk_util.py:1003-1063 | Over all components, on any finite include graph: emission ends; each header has at most one rule; every node that a rule needs has one; every rule lists what its file includes; every object file has a rule; every rule is wanted, through a chain of rules, by an object file. It aborts only when a job reaches an include that nobody provides, and exactly then when no two components share a directory. Every rule lists one node for each include line, in order: the component's own file when it has one, otherwise that of the first dependency that has one. The rules written are exactly those of the depth-first emission (`EmitJobs`), with one object rule per job, in the order of the jobs |
| `Includes.RuleWriter.AddHRule` | Z3/z3-master/scripts/mk_util.py:1003-1013 | A header is entered before the rules below it are emitted; afterwards exactly the entered headers that are not on the call stack have a rule |
| `Includes.RuleWriter.AddRuleForEachInclude` | Z3/z3-master/scripts/mk_util.py:991-997 | Afterwards every included header is entered |
| `Includes.RuleWriter.AddCppRule` | Z3/z3-master/scripts/mk_util.py:1015-1024 | The rule of the object file lists only entered headers |
| `Includes.InDirFinds` | Z3/z3-master/scripts/mk_util.py:970-979 | The owner found is the first dependency, in order, that has the file; none is found exactly when no dependency has it |
| `Includes.FindFileIsProvider` | Z3/z3-master/scripts/mk_util.py:970-979 | The component itself is asked first, then its dependencies in order; the search fails exactly when nobody has the file |
| `Includes.NothingBroken` | Z3/z3-master/scripts/mk_util.py:970-997 | Below a file that has a rule, a closed set of rules leaves no include unresolved, when no two components share a directory |
| `Includes.NothingSuperfluous` | Z3/z3-master/scripts/mk_util.py:991-1013 | When no header is left that no later rule lists, every rule leads to an object file |
| `Includes.ConsistentIsClosed` | Z3/z3-master/scripts/mk_util.py:1003-1013 | With an empty call stack the rules are closed |
| `Symlink.RoundTrip` | Z3/z3-master/scripts/mk_util.py:3303-3339 | For normalised relative paths: the text written, resolved from the directory of the link, leads exactly to the target; the method fails exactly when that directory is a proper ancestor of the target other than the root |
| `Symlink.CreateRelativeSymbolicLink` | Z3/z3-master/scripts/mk_util.py:3303-3339 | For all strings: the loop computes the climb, ends, and never trips its assertion |
| `Symlink.FailsExactly` | Z3/z3-master/scripts/mk_util.py:3303-3339 | For all strings: the method fails exactly on an empty or absolute path, and when the directory of the link is not the root and is, with a slash behind it, a prefix of the target |
| `Symlink.PrefixOfAbsolute` | Z3/z3-master/scripts/mk_util.py:3282-3301 | The prefix test on characters is proper ancestry on components |
| `Symlink.ClimbMeets` | Z3/z3-master/scripts/mk_util.py:3325-3331 | The walk ends at the deepest common ancestor that is proper for the target, one `../` per step |
| `Symlink.DirnameOfAbsolute` | Z3/z3-master/scripts/mk_util.py:3330 | `dirname` drops the last component |
| `Symlink.JoinedText` | Z3/z3-master/scripts/mk_util.py:3333-3338 | Removing double slashes leaves the climb and the rest joined by one slash; without a climb from below the root the text is absolute |
| `Visit.Visitor.Visit` | Z3/z3-master/examples/c++/example.cpp:805-832 | With the visited nodes closed under children except on the call stack: exactly the nodes below the argument become visited; what is logged are the first occurrences of applications in the unfolding, argument by argument from the left, each after everything below it |
| `Visit.Visitor.VisitRoot` | Z3/z3-master/examples/c++/example.cpp:834-846 | From scratch: the visited set is what the root reaches; the log is the list of first occurrences of applications in the left-to-right post-order of the expression unfolded to a tree |
| `Sets.FirstOnesInOrder` | Z3/z3-master/examples/c++/example.cpp:805-832 | First occurrences: each member once, in the order in which members first occur |
| `Visit.ReachIsClosed` | Z3/z3-master/examples/c++/example.cpp:816-827 | Reachability is closed under children |
| `Visit.VisitedBelow` | Z3/z3-master/examples/c++/example.cpp:809-811 | Skipping a visited node misses nothing below it |
| `ProfileDiff.Accumulate` | Z3/z3-master/contrib/qprofdiff/main.cpp:73-87 | Each entry sums the instances of its quantifier modulo 2^32 and has the greatest generation and cost; exactly the quantifiers of the lines have entries |
| `ProfileDiff.Diff` | Z3/z3-master/contrib/qprofdiff/main.cpp:155-199 | The two passes give every quantifier of either side its entry, and no other |
| `ProfileDiff.SwapNegates` | Z3/z3-master/contrib/qprofdiff/main.cpp:155-199 | For all profiles: swapping the inputs swaps the flags, and negates a delta exactly when the counts do not differ by 2^31, on whichever sides the quantifier occurs |
| `ProfileDiff.FieldIsDifference` | Z3/z3-master/contrib/qprofdiff/main.cpp:170-196 | The 32-bit conversions give the difference modulo 2^32 always, and the true difference exactly when it fits |
| `ProfileDiff.DeltasSum` | Z3/z3-master/contrib/qprofdiff/main.cpp:155-199 | For all profiles the instance deltas add up to the left total minus the right total modulo 2^32, and truly when every difference fits in 32 bits |
| `ProfileDiff.StrictWeakOrder` | Z3/z3-master/contrib/qprofdiff/main.cpp:113-126 | Each comparator is a strict weak order on items that are not on both sides only |
| `ProfileDiff.BothFlagsBreakTheOrder` | Z3/z3-master/contrib/qprofdiff/main.cpp:113-122 | With both flags set transitivity fails |
| `ProfileDiff.MergedIsOneSided` | Z3/z3-master/contrib/qprofdiff/main.cpp:155-199 | The merge never sets both flags; they tell which side lacks the quantifier |
| `ProfileDiff.StableSortOrders` | Z3/z3-master/contrib/qprofdiff/main.cpp:201-214 | Any stable sort of items in name order gives: right only, both, left only; then by delta; then by name |
| `ProfileDiff.OrderIsUnique` | Z3/z3-master/contrib/qprofdiff/main.cpp:210-214 | There is only one list in that order |
| `ProfileDiff.Report` | Z3/z3-master/contrib/qprofdiff/main.cpp:155-214 | Every quantifier of either profile once, with its merged entry: quantifiers of the right profile only, of both, of the left only; within a group by the difference of the generation, the instances or the cost, whichever the key names; then by name. The differences are those of the two profiles' own entries, field by field |
| `ProfileDiff.StringLessMeans` | Z3/z3-master/contrib/qprofdiff/main.cpp:124 | Names compare by the first character in which they differ; a proper beginning comes first |

## Left out

- Rc2.RC2.Check: does not fix the order of soft constraints of equal weight, because the source's order comes from dictionary insertion; every order is covered.
- Rc2.RC2.AtMostName: does not model `simplify`, so formulas that Z3 would merge stay apart; names of user variables are taken to differ from the texts of cardinality formulas.
- Rc2.RC2.GetCost: takes models to be total; a model evaluation that leaves a soft constraint undetermined counts it as false in the source.
- Rc2.RC2.MaxSat: zero or negative weights; the source's documentation and formats give positive ones. When hard and soft constraints contradict each other, the conditions of the index error are necessary and not sufficient: whether a run with such a table happens depends on the cores the solver picks.
- Rc2.FromFormulas: for unequal weights the condition of the missing-model exception is necessary but not sufficient (`Rc2Inputs.ThreeRivals`), because the cores the solver picks decide.
- Reading weighted problems from a file (`from_file`), statistics and cost printing of `rc2.py`.
- Taint flags and variable names of the instrumented classes, random fuzzing and `reset`; they do not influence the values.
- NestedCopy.CalculateOutput: works on values, not on boxes, and prints no trace of `myIf`; the branch data that two of the copies collect are left out.
- The other instrumented copies of the machine, which repeat the one in `Instrumented.dfy`.
- Reading inputs from the console in both machines.
- CheckSmall.CheckSmall: requires one of two conditions under which the source ends for certain; `CheckSmallUpTo` covers all assertions. Where a low model exists and both conditions fail, nothing is said about the end.
- AllInterval.AllModels: n = 0, where the source asks the API for a conjunction of nothing.
- Registry.ComponentRegistry.Add: path normalisation and the other attributes of component classes.
- Includes.RuleWriter.MakeAll: keys are pairs of directory and name; the source's keys are the joined text, so directory `a` with `b/../c.h` and directory `a/b` with `../c.h` are one key there and two here. Also the text of the rules, the Windows variant with `VS_PAR`, and the extraction of names from include lines; a missing include aborts, as in the source.
- Symlink.RoundTrip: paths with empty, `.` or `..` components; the method itself is modelled on all strings.
- Visit.Visitor.Visit: the text that is printed for an application.
- ProfileDiff.Accumulate: splitting lines into tokens, including tokens that stay from an earlier line.
- ProfileDiff.Diff: the negation of the least 32-bit number is undefined in C++ and wraps in the model; the order of iteration of the two passes does not matter and is left open.
- ProfileDiff.Report: the printing of the report and the suppression of unchanged lines.
- The Sudoku programs, the remaining API examples, the API generators, packaging and configuration scripts: straight-line code or text generation.
