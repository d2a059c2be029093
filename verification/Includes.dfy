/** Emission of the makefile rules that follow `#include` lines across components. */
module Includes {
  import opened Registry
  import opened Sets

  /** A file of a component: the directory of the component and the name that is included.
      It stands for the source path, the key in `_Processed_Headers` and the `.node` target. */
  datatype File = File(dir: string, name: string)

  /** `HeaderRule` writes `target.node`, `ObjectRule` the object file of `target`. */
  datatype Rule =
    | HeaderRule(target: File, prereqs: seq<File>)
    | ObjectRule(target: File, prereqs: seq<File>)

  /** The source tree: which files exist, and the names in their include lines. */
  datatype Tree = Tree(files: set<File>, includes: map<File, seq<string>>, components: map<string, Component>)
  {
    ghost predicate WellFormed() {
      && includes.Keys == files
      && (forall n | n in components :: components[n].name == n)
      && forall c, d | c in components && d in components[c].deps :: d in components
    }

    ghost predicate DistinctDirs() {
      forall a, b | a in components && b in components && components[a].path == components[b].path :: a == b
    }

    function Lines(f: File): seq<string> {
      if f in includes then includes[f] else []
    }
  }

  function InDir(tree: Tree, dirs: seq<string>, name: string): Outcome<Component>
    requires forall d | d in dirs :: d in tree.components
  {
    if dirs == [] then MKException
    else if File(tree.components[dirs[0]].path, name) in tree.files then Ok(tree.components[dirs[0]])
    else InDir(tree, dirs[1..], name)
  }

  /** `find_file`: the component itself, then its dependencies in order. */
  function FindFile(tree: Tree, c: Component, name: string): (r: Outcome<Component>)
    requires forall d | d in c.deps :: d in tree.components
  {
    if File(c.path, name) in tree.files then Ok(c) else InDir(tree, c.deps, name)
  }

  /** Whose file an include line means: the component's own if it has one, and otherwise that of the
      first dependency that has one. */
  ghost predicate Provider(tree: Tree, c: Component, name: string, d: Component)
    requires forall e | e in c.deps :: e in tree.components
  {
    if File(c.path, name) in tree.files then d == c else First(tree, c.deps, name, d)
  }

  ghost predicate First(tree: Tree, dirs: seq<string>, name: string, d: Component)
    requires forall e | e in dirs :: e in tree.components
  {
    exists i | 0 <= i < |dirs| ::
      && d == tree.components[dirs[i]] && File(d.path, name) in tree.files
      && forall j | 0 <= j < i :: File(tree.components[dirs[j]].path, name) !in tree.files
  }

  lemma {:induction false} InDirFinds(tree: Tree, dirs: seq<string>, name: string)
    requires forall d | d in dirs :: d in tree.components
    ensures forall d :: InDir(tree, dirs, name) == Ok(d) <==> First(tree, dirs, name, d)
    ensures InDir(tree, dirs, name).MKException? <==>
            forall d | d in dirs :: File(tree.components[d].path, name) !in tree.files
  {
    if dirs != [] {
      var rest := dirs[1..];
      InDirFinds(tree, rest, name);
      assert forall d | d in dirs :: d == dirs[0] || d in rest;
      if File(tree.components[dirs[0]].path, name) !in tree.files {
        forall d ensures First(tree, rest, name, d) <==> First(tree, dirs, name, d) {
          FirstShift(tree, dirs, name, d);
        }
      } else {
        forall d ensures First(tree, dirs, name, d) <==> d == tree.components[dirs[0]] {
          assert dirs[0] in dirs;
          FirstHere(tree, dirs, name, d);
        }
      }
    }
  }

  lemma FirstHere(tree: Tree, dirs: seq<string>, name: string, d: Component)
    requires dirs != [] && forall e | e in dirs :: e in tree.components
    requires File(tree.components[dirs[0]].path, name) in tree.files
    ensures First(tree, dirs, name, d) <==> d == tree.components[dirs[0]]
  {
    if d == tree.components[dirs[0]] {
      assert 0 < |dirs| && d == tree.components[dirs[0]];
    }
  }

  lemma FirstShift(tree: Tree, dirs: seq<string>, name: string, d: Component)
    requires dirs != [] && forall e | e in dirs :: e in tree.components
    requires File(tree.components[dirs[0]].path, name) !in tree.files
    ensures First(tree, dirs[1..], name, d) <==> First(tree, dirs, name, d)
  {
    var rest := dirs[1..];
    if First(tree, rest, name, d) {
      var i :| 0 <= i < |rest| && d == tree.components[rest[i]] && File(d.path, name) in tree.files
        && forall j | 0 <= j < i :: File(tree.components[rest[j]].path, name) !in tree.files;
      forall j | 0 <= j < i + 1 ensures File(tree.components[dirs[j]].path, name) !in tree.files {
        if j > 0 { assert dirs[j] == rest[j - 1]; }
      }
      assert d == tree.components[dirs[i + 1]];
    }
    if First(tree, dirs, name, d) {
      var i :| 0 <= i < |dirs| && d == tree.components[dirs[i]] && File(d.path, name) in tree.files
        && forall j | 0 <= j < i :: File(tree.components[dirs[j]].path, name) !in tree.files;
      forall j | 0 <= j < i - 1 ensures File(tree.components[rest[j]].path, name) !in tree.files {
        assert rest[j] == dirs[j + 1];
      }
      assert d == tree.components[rest[i - 1]];
    }
  }

  /** `find_file` finds the provider, and fails exactly when there is none. */
  lemma FindFileIsProvider(tree: Tree, c: Component, name: string)
    requires forall d | d in c.deps :: d in tree.components
    ensures forall d :: FindFile(tree, c, name) == Ok(d) <==> Provider(tree, c, name, d)
    ensures FindFile(tree, c, name).Ok? ==> File(FindFile(tree, c, name).value.path, name) in tree.files
  {
    InDirFinds(tree, c.deps, name);
  }

  /** One node for each include line, in order, each that of the provider. */
  ghost predicate Resolved(tree: Tree, c: Component, names: seq<string>, prereqs: seq<File>)
    requires forall d | d in c.deps :: d in tree.components
  {
    && |prereqs| == |names|
    && forall i | 0 <= i < |names| ::
      exists d :: Provider(tree, c, names[i], d) && prereqs[i] == File(d.path, names[i])
  }

  lemma {:induction false} PrereqsResolve(tree: Tree, c: Component, names: seq<string>)
    requires (forall d | d in c.deps :: d in tree.components) && Prereqs(tree, c, names).Ok?
    ensures Resolved(tree, c, names, Prereqs(tree, c, names).value)
  {
    if names != [] {
      PrereqsResolve(tree, c, names[1..]);
      FindFileIsProvider(tree, c, names[0]);
      var all, rest := Prereqs(tree, c, names).value, Prereqs(tree, c, names[1..]).value;
      forall i | 0 <= i < |names|
        ensures exists d :: Provider(tree, c, names[i], d) && all[i] == File(d.path, names[i])
      {
        if i == 0 {
          assert Provider(tree, c, names[0], FindFile(tree, c, names[0]).value);
        } else {
          assert names[i] == names[1..][i - 1] && all[i] == rest[i - 1];
        }
      }
    }
  }

  /** The nodes that a rule for the file lists. */
  function Prereqs(tree: Tree, c: Component, names: seq<string>): Outcome<seq<File>>
    requires forall d | d in c.deps :: d in tree.components
  {
    if names == [] then Ok([]) else
      var owner, rest := FindFile(tree, c, names[0]), Prereqs(tree, c, names[1..]);
      if owner.Ok? && rest.Ok? then Ok([File(owner.value.path, names[0])] + rest.value) else MKException
  }

  /** Within `n` includes below the file there is an include that nobody provides. */
  ghost predicate Broken(tree: Tree, c: Component, base: string, n: nat)
    decreases n, 1
  {
    var names := tree.Lines(File(c.path, base));
    (forall d | d in c.deps :: d in tree.components) && exists i | 0 <= i < |names| :: BrokenAt(tree, c, names[i], n)
  }

  ghost predicate BrokenAt(tree: Tree, c: Component, name: string, n: nat)
    requires forall d | d in c.deps :: d in tree.components
    decreases n, 0
  {
    || (forall d :: !Provider(tree, c, name, d))
    || (n > 0 && exists d :: Provider(tree, c, name, d) && Broken(tree, d, name, n - 1))
  }

  // ----- what the output means -----

  ghost function HeaderTargets(out: seq<Rule>): multiset<File> {
    if out == [] then multiset{} else
      HeaderTargets(out[..|out| - 1]) +
      match out[|out| - 1] case HeaderRule(t, _) => multiset{t} case ObjectRule(_, _) => multiset{}
  }

  /** The rule lists what its file includes, as some component of the file's directory sees it. */
  ghost predicate Genuine(tree: Tree, rule: Rule) {
    exists n :: n in tree.components && tree.components[n].path == rule.target.dir &&
      (forall d | d in tree.components[n].deps :: d in tree.components) &&
      Resolved(tree, tree.components[n], tree.Lines(rule.target), rule.prereqs)
  }

  /** `open` are the headers whose rules are still being built, on the call stack. */
  ghost predicate Consistent(tree: Tree, processed: set<File>, open: set<File>, out: seq<Rule>) {
    && processed <= tree.files && open <= processed
    && HeaderTargets(out) == multiset(processed - open)
    && forall r | r in out :: Genuine(tree, r) && forall p | p in r.prereqs :: p in processed
  }

  lemma ConsistentAppend(tree: Tree, processed: set<File>, open: set<File>, out: seq<Rule>, rule: Rule)
    requires Consistent(tree, processed, open, out) && Genuine(tree, rule)
    requires forall p | p in rule.prereqs :: p in processed
    requires rule.HeaderRule? ==> rule.target in open
    ensures Consistent(tree, processed, if rule.HeaderRule? then open - {rule.target} else open, out + [rule])
  {
    assert (out + [rule])[..|out|] == out;
    if rule.HeaderRule? {
      assert processed - (open - {rule.target}) == processed - open + {rule.target};
      assert multiset(processed - open + {rule.target}) == multiset(processed - open) + multiset{rule.target};
    }
  }

  lemma ConsistentOpen(tree: Tree, processed: set<File>, open: set<File>, out: seq<Rule>, key: File)
    requires Consistent(tree, processed, open, out) && key in tree.files && key !in processed
    ensures Consistent(tree, processed + {key}, open + {key}, out)
  {
    assert processed + {key} - (open + {key}) == processed - open;
  }

  /** The closure property: each header has at most one rule, and every node that any rule needs has one. */
  ghost predicate RulesClosed(out: seq<Rule>) {
    && (forall f :: HeaderTargets(out)[f] <= 1)
    && forall r, p | r in out && p in r.prereqs :: HeaderTargets(out)[p] == 1
  }

  lemma ConsistentIsClosed(tree: Tree, processed: set<File>, out: seq<Rule>)
    requires Consistent(tree, processed, {}, out)
    ensures RulesClosed(out)
  {
    assert processed - {} == processed;
  }

  /** The headers whose rules no later rule lists. */
  ghost function Dangling(out: seq<Rule>): set<File> {
    if out == [] then {} else
      var last := out[|out| - 1];
      var listed := Dangling(out[..|out| - 1]) - (set p | p in last.prereqs);
      if last.HeaderRule? then listed + {last.target} else listed
  }

  lemma DanglingAppend(out: seq<Rule>, rule: Rule)
    ensures Dangling(out + [rule]) ==
            Dangling(out) - (set p | p in rule.prereqs) + if rule.HeaderRule? then {rule.target} else {}
  {
    assert (out + [rule])[..|out|] == out;
  }

  /** The rule is for an object file, or a later rule that is needed lists its header. */
  ghost predicate Needed(out: seq<Rule>, i: nat)
    requires i < |out|
    decreases |out| - i
  {
    out[i].ObjectRule? || exists j | i < j < |out| :: out[i].target in out[j].prereqs && Needed(out, j)
  }

  lemma {:induction false} ListedLater(out: seq<Rule>, i: nat)
    requires i < |out| && out[i].HeaderRule? && out[i].target !in Dangling(out)
    ensures exists j | i < j < |out| :: out[i].target in out[j].prereqs
  {
    var n := |out| - 1;
    if i < n && out[i].target !in out[n].prereqs {
      ListedLater(out[..n], i);
    }
  }

  /** Nothing dangles: every rule is wanted, through a chain of rules, by an object file. */
  lemma {:induction false} NothingSuperfluous(out: seq<Rule>, i: nat)
    requires i < |out| && Dangling(out) == {}
    ensures Needed(out, i)
    decreases |out| - i
  {
    if out[i].HeaderRule? {
      ListedLater(out, i);
      var j :| i < j < |out| && out[i].target in out[j].prereqs;
      NothingSuperfluous(out, j);
    }
  }

  lemma {:induction false} HasRule(out: seq<Rule>, f: File)
    requires f in HeaderTargets(out)
    ensures exists r | r in out :: r.target == f
  {
    var last := out[|out| - 1];
    if last.target == f {
      assert last in out;
    } else {
      HasRule(out[..|out| - 1], f);
    }
  }

  /** Below a file that has a rule, closed rules leave no include unresolved. */
  lemma {:induction false} NothingBroken(tree: Tree, out: seq<Rule>, rule: Rule, n: string, base: string, depth: nat)
    requires tree.WellFormed() && tree.DistinctDirs() && n in tree.components
    requires RulesClosed(out) && forall r | r in out :: Genuine(tree, r)
    requires rule in out && rule.target == File(tree.components[n].path, base)
    ensures !Broken(tree, tree.components[n], base, depth)
    decreases depth
  {
    hide HeaderTargets, Provider;
    var c := tree.components[n];
    var names := tree.Lines(rule.target);
    assert Resolved(tree, c, names, rule.prereqs);
    forall i | 0 <= i < |names| ensures !BrokenAt(tree, c, names[i], depth) {
      var owner :| Provider(tree, c, names[i], owner) && rule.prereqs[i] == File(owner.path, names[i]);
      ProviderIsKnown(tree, c, names[i], owner);
      if depth > 0 {
        assert rule.prereqs[i] in rule.prereqs;
        HasRule(out, rule.prereqs[i]);
        var r :| r in out && r.target == rule.prereqs[i];
        NothingBroken(tree, out, r, owner.name, names[i], depth - 1);
      }
    }
  }

  /** There is at most one provider, and it is a component of the tree. */
  lemma ProviderIsKnown(tree: Tree, c: Component, name: string, d: Component)
    requires KnownIn(tree, c) && Provider(tree, c, name, d)
    ensures KnownIn(tree, d) && File(d.path, name) in tree.files
    ensures forall e | Provider(tree, c, name, e) :: e == d
  {
    FindFileIsProvider(tree, c, name);
  }

  // ----- the order of the rules -----

  ghost predicate KnownIn(tree: Tree, c: Component) {
    tree.WellFormed() && c.name in tree.components && tree.components[c.name] == c
  }

  ghost predicate AllKnown(tree: Tree, jobs: seq<(Component, string)>) {
    forall i | 0 <= i < |jobs| :: KnownIn(tree, jobs[i].0)
  }

  datatype Emission = Emission(processed: set<File>, rules: seq<Rule>)

  /** What the include lines emit, from the first to the last. */
  ghost function EmitAll(tree: Tree, c: Component, names: seq<string>, processed: set<File>): (r: Outcome<Emission>)
    requires KnownIn(tree, c)
    ensures r.Ok? ==> processed <= r.value.processed
    decreases |tree.files - processed|, 1, |names|
  {
    if names == [] then Ok(Emission(processed, [])) else
      var before, owner := EmitAll(tree, c, names[..|names| - 1], processed), FindFile(tree, c, names[|names| - 1]);
      if before.MKException? || owner.MKException? then MKException else
        FindFileIsProvider(tree, c, names[|names| - 1]);
        ProviderIsKnown(tree, c, names[|names| - 1], owner.value);
        SubsetSize(tree.files - before.value.processed, tree.files - processed);
        var more := EmitHeader(tree, owner.value, names[|names| - 1], before.value.processed);
        if more.MKException? then MKException
        else Ok(Emission(more.value.processed, before.value.rules + more.value.rules))
  }

  /** A header that is not processed yet: first the rules for what it includes, then its own. */
  ghost function EmitHeader(tree: Tree, c: Component, header: string, processed: set<File>): (r: Outcome<Emission>)
    requires KnownIn(tree, c) && File(c.path, header) in tree.files
    ensures r.Ok? ==> processed <= r.value.processed
    decreases |tree.files - processed|, 0, 0
  {
    var key := File(c.path, header);
    if key in processed then Ok(Emission(processed, [])) else
      SubsetSize(tree.files - (processed + {key}), tree.files - processed);
      var below, prereqs := EmitAll(tree, c, tree.Lines(key), processed + {key}), Prereqs(tree, c, tree.Lines(key));
      if below.MKException? || prereqs.MKException? then MKException
      else Ok(Emission(below.value.processed, below.value.rules + [HeaderRule(key, prereqs.value)]))
  }

  /** The makefiles of the components, one object file after the other. */
  ghost function EmitJobs(tree: Tree, jobs: seq<(Component, string)>, processed: set<File>): Outcome<Emission>
    requires AllKnown(tree, jobs)
  {
    if jobs == [] then Ok(Emission(processed, [])) else
      var (c, cppfile) := jobs[|jobs| - 1];
      var before := EmitJobs(tree, jobs[..|jobs| - 1], processed);
      if before.MKException? then MKException else
        var file := File(c.path, cppfile);
        var more := EmitAll(tree, c, tree.Lines(file), before.value.processed);
        var prereqs := Prereqs(tree, c, tree.Lines(file));
        if more.MKException? || prereqs.MKException? then MKException else
          var rule := ObjectRule(file, prereqs.value);
          Ok(Emission(more.value.processed, before.value.rules + more.value.rules + [rule]))
  }

  /** The rules of object files among the rules. */
  ghost function Objects(out: seq<Rule>): seq<Rule> {
    if out == [] then [] else
      var last := out[|out| - 1];
      Objects(out[..|out| - 1]) + if last.ObjectRule? then [last] else []
  }

  lemma {:induction false} ObjectsAppend(a: seq<Rule>, b: seq<Rule>)
    ensures Objects(a + b) == Objects(a) + Objects(b)
  {
    if b == [] {
      assert a + b == a;
    } else {
      ObjectsAppend(a, b[..|b| - 1]);
      assert (a + b)[..|a + b| - 1] == a + b[..|b| - 1];
    }
  }

  lemma OneObject(rule: Rule)
    ensures Objects([rule]) == if rule.ObjectRule? then [rule] else []
  {
    assert [rule][..0] == [];
  }

  lemma {:induction false} HeadersOnly(tree: Tree, c: Component, names: seq<string>, processed: set<File>)
    requires KnownIn(tree, c) && EmitAll(tree, c, names, processed).Ok?
    ensures Objects(EmitAll(tree, c, names, processed).value.rules) == []
    decreases |tree.files - processed|, 1, |names|
  {
    if names != [] {
      var last := names[|names| - 1];
      HeadersOnly(tree, c, names[..|names| - 1], processed);
      var before, owner := EmitAll(tree, c, names[..|names| - 1], processed).value, FindFile(tree, c, last).value;
      FindFileIsProvider(tree, c, last);
      ProviderIsKnown(tree, c, last, owner);
      SubsetSize(tree.files - before.processed, tree.files - processed);
      HeaderOnly(tree, owner, last, before.processed);
      ObjectsAppend(before.rules, EmitHeader(tree, owner, last, before.processed).value.rules);
    }
  }

  lemma {:induction false} HeaderOnly(tree: Tree, c: Component, header: string, processed: set<File>)
    requires KnownIn(tree, c) && File(c.path, header) in tree.files && EmitHeader(tree, c, header, processed).Ok?
    ensures Objects(EmitHeader(tree, c, header, processed).value.rules) == []
    decreases |tree.files - processed|, 0, 0
  {
    var key := File(c.path, header);
    if key !in processed {
      SubsetSize(tree.files - (processed + {key}), tree.files - processed);
      HeadersOnly(tree, c, tree.Lines(key), processed + {key});
      var below := EmitAll(tree, c, tree.Lines(key), processed + {key}).value.rules;
      var rule := HeaderRule(key, Prereqs(tree, c, tree.Lines(key)).value);
      ObjectsAppend(below, [rule]);
      OneObject(rule);
    }
  }

  /** One object rule for each job, in order, with the nodes of what the job's file includes. */
  ghost predicate ObjectForEach(tree: Tree, jobs: seq<(Component, string)>, rules: seq<Rule>)
    requires AllKnown(tree, jobs)
  {
    && |rules| == |jobs|
    && forall i | 0 <= i < |jobs| ::
      var (c, cppfile) := jobs[i];
      && rules[i].ObjectRule? && rules[i].target == File(c.path, cppfile)
      && (forall d | d in c.deps :: d in tree.components)
      && Resolved(tree, c, tree.Lines(File(c.path, cppfile)), rules[i].prereqs)
  }

  lemma ObjectForOneMore(tree: Tree, jobs: seq<(Component, string)>, rules: seq<Rule>, rule: Rule)
    requires AllKnown(tree, jobs) && jobs != [] && ObjectForEach(tree, jobs[..|jobs| - 1], rules)
    requires rule.ObjectRule? && rule.target == File(jobs[|jobs| - 1].0.path, jobs[|jobs| - 1].1)
    requires forall d | d in jobs[|jobs| - 1].0.deps :: d in tree.components
    requires Resolved(tree, jobs[|jobs| - 1].0, tree.Lines(rule.target), rule.prereqs)
    ensures ObjectForEach(tree, jobs, rules + [rule])
  {
    hide Resolved;
    forall i | 0 <= i < |jobs| - 1 ensures jobs[i] == jobs[..|jobs| - 1][i] && (rules + [rule])[i] == rules[i] {}
  }

  lemma {:induction false} JobsObjects(tree: Tree, jobs: seq<(Component, string)>, processed: set<File>)
    requires AllKnown(tree, jobs) && EmitJobs(tree, jobs, processed).Ok?
    ensures ObjectForEach(tree, jobs, Objects(EmitJobs(tree, jobs, processed).value.rules))
  {
    if jobs != [] {
      var init := jobs[..|jobs| - 1];
      var (c, cppfile) := jobs[|jobs| - 1];
      var before, file := EmitJobs(tree, init, processed).value, File(c.path, cppfile);
      var more := EmitAll(tree, c, tree.Lines(file), before.processed).value;
      var rule := ObjectRule(file, Prereqs(tree, c, tree.Lines(file)).value);
      assert KnownIn(tree, c) && EmitJobs(tree, jobs, processed).value.rules == before.rules + more.rules + [rule];
      hide EmitAll, Prereqs, Resolved, Objects, ObjectForEach, EmitJobs;
      JobsObjects(tree, init, processed);
      HeadersOnly(tree, c, tree.Lines(file), before.processed);
      PrereqsResolve(tree, c, tree.Lines(file));
      ObjectsAppend(before.rules + more.rules, [rule]);
      ObjectsAppend(before.rules, more.rules);
      OneObject(rule);
      assert Objects(before.rules) + [] == Objects(before.rules);
      ObjectForOneMore(tree, jobs, Objects(before.rules), rule);
    }
  }

  // ----- the writer -----

  class RuleWriter {
    const tree: Tree
    var processed: set<File>
    var out: seq<Rule>

    constructor (tree: Tree)
      ensures this.tree == tree && processed == {} && out == []
      ensures Consistent(tree, processed, {}, out) && Dangling(out) == {}
    {
      this.tree := tree;
      processed, out := {}, [];
    }

    ghost predicate Knows(c: Component) {
      KnownIn(tree, c)
    }

    lemma OwnerIsKnown(c: Component, name: string)
      requires Knows(c) && FindFile(tree, c, name).Ok?
      ensures Knows(FindFile(tree, c, name).value)
      ensures File(FindFile(tree, c, name).value.path, name) in tree.files
    {
      FindFileIsProvider(tree, c, name);
      ProviderIsKnown(tree, c, name, FindFile(tree, c, name).value);
    }

    lemma NothingEmitted(c: Component, processed: set<File>)
      requires Knows(c)
      ensures EmitAll(tree, c, [], processed) == Ok(Emission(processed, []))
    {}

    lemma NothingListed(c: Component)
      requires Knows(c)
      ensures (forall d | d in c.deps :: d in tree.components) && Prereqs(tree, c, []) == Ok([])
    {}

    lemma BrokenHere(c: Component, base: string, i: nat)
      requires Knows(c) && i < |tree.Lines(File(c.path, base))|
      requires FindFile(tree, c, tree.Lines(File(c.path, base))[i]).MKException?
      ensures Broken(tree, c, base, 0)
    {
      var name := tree.Lines(File(c.path, base))[i];
      FindFileIsProvider(tree, c, name);
      assert BrokenAt(tree, c, name, 0);
    }

    lemma BrokenBelow(c: Component, base: string, i: nat, n: nat, name: string)
      requires Knows(c) && i < |tree.Lines(File(c.path, base))| && name == tree.Lines(File(c.path, base))[i]
      requires FindFile(tree, c, name).Ok? && Broken(tree, FindFile(tree, c, name).value, name, n)
      ensures Broken(tree, c, base, n + 1)
    {
      FindFileIsProvider(tree, c, name);
      assert Provider(tree, c, name, FindFile(tree, c, name).value);
      assert BrokenAt(tree, c, name, n + 1);
    }

    lemma EmitNext(c: Component, names: seq<string>, i: nat, processed: set<File>)
      requires Knows(c) && i < |names| && EmitAll(tree, c, names[..i], processed).Ok?
      ensures FindFile(tree, c, names[i]).Ok? ==> Knows(FindFile(tree, c, names[i]).value)
      ensures FindFile(tree, c, names[i]).Ok? ==> File(FindFile(tree, c, names[i]).value.path, names[i]) in tree.files
      ensures
        var before, owner := EmitAll(tree, c, names[..i], processed).value, FindFile(tree, c, names[i]);
        var next := EmitAll(tree, c, names[..i + 1], processed);
        if owner.MKException? then next.MKException? else
          var more := EmitHeader(tree, owner.value, names[i], before.processed);
          if more.MKException? then next.MKException?
          else next == Ok(Emission(more.value.processed, before.rules + more.value.rules))
    {
      assert names[..i + 1][..i] == names[..i] && names[..i + 1][i] == names[i];
      if FindFile(tree, c, names[i]).Ok? { OwnerIsKnown(c, names[i]); }
    }

    lemma {:induction false} EmitMissing(c: Component, names: seq<string>, i: nat, processed: set<File>)
      requires Knows(c) && i < |names| && EmitAll(tree, c, names[..i + 1], processed).MKException?
      ensures EmitAll(tree, c, names, processed).MKException?
      decreases |names|
    {
      if i + 1 < |names| {
        var init := names[..|names| - 1];
        assert init[..i + 1] == names[..i + 1];
        EmitMissing(c, init, i, processed);
      } else {
        assert names[..i + 1] == names;
      }
    }

    lemma OneJob(c: Component, cppfile: string, processed: set<File>)
      requires Knows(c)
      ensures
        var file := File(c.path, cppfile);
        var more, prereqs := EmitAll(tree, c, tree.Lines(file), processed), Prereqs(tree, c, tree.Lines(file));
        EmitJobs(tree, [(c, cppfile)], processed) ==
          if more.MKException? || prereqs.MKException? then MKException
          else Ok(Emission(more.value.processed, more.value.rules + [ObjectRule(file, prereqs.value)]))
    {
      hide EmitAll, Prereqs;
      var jobs := [(c, cppfile)];
      assert jobs[0] == (c, cppfile) && jobs[..0] == [];
      var file := File(c.path, cppfile);
      var more := EmitAll(tree, c, tree.Lines(file), processed);
      if more.Ok? { assert [] + more.value.rules == more.value.rules; }
    }

    /** Emits a rule for everything the file includes. False when an include cannot be found. */
    method AddRuleForEachInclude(c: Component, base: string, ghost open: set<File>) returns (ok: bool)
      requires Knows(c) && Consistent(tree, processed, open, out)
      modifies this
      ensures ok ==> Consistent(tree, processed, open, out)
      ensures old(processed) <= processed && old(out) <= out
      ensures ok ==> AllProcessed(Prereqs(tree, c, tree.Lines(File(c.path, base))), processed)
      ensures !ok ==> exists n: nat :: Broken(tree, c, base, n)
      ensures ok ==>
        Dangling(out) <= old(Dangling(out)) + set p | p in Prereqs(tree, c, tree.Lines(File(c.path, base))).value
      ensures Emitted(EmitAll(tree, c, tree.Lines(File(c.path, base)), old(processed)), ok, old(out), out, processed)
      decreases |tree.files - processed|, 1
    {
      hide Consistent, FindFile, HeaderTargets, Dangling, Provider, EmitAll, EmitHeader;
      hide Broken, BrokenAt, Prereqs, KnownIn;
      NothingEmitted(c, processed);
      NothingListed(c);
      var names := tree.Lines(File(c.path, base));
      ghost var listed: seq<File> := [];
      for i := 0 to |names|
        invariant Consistent(tree, processed, open, out)
        invariant old(processed) <= processed && old(out) <= out
        invariant |tree.files - processed| <= |tree.files - old(processed)|
        invariant Prereqs(tree, c, names[..i]) == Ok(listed) && forall p | p in listed :: p in processed
        invariant Dangling(out) <= old(Dangling(out)) + set p | p in listed
        invariant Emitted(EmitAll(tree, c, names[..i], old(processed)), true, old(out), out, processed)
      {
        var owner := FindFile(tree, c, names[i]);
        EmitNext(c, names, i, old(processed));
        if owner.MKException? {
          EmitMissing(c, names, i, old(processed));
          BrokenHere(c, base, i);
          return false;
        }
        OwnerIsKnown(c, names[i]);
        var done := AddHRule(owner.value, names[i], open);
        if !done {
          ghost var n: nat :| Broken(tree, owner.value, names[i], n);
          BrokenBelow(c, base, i, n, names[i]);
          EmitMissing(c, names, i, old(processed));
          return false;
        }
        SubsetSize(tree.files - processed, tree.files - old(processed));
        PrereqsAppend(tree, c, names[..i], names[i]);
        assert names[..i + 1] == names[..i] + [names[i]];
        listed := listed + [File(owner.value.path, names[i])];
      }
      assert names[..|names|] == names;
      ok := true;
    }

    /** Emits the rule of a header, after the rules of what it includes; once per header. */
    method AddHRule(c: Component, header: string, ghost open: set<File>) returns (ok: bool)
      requires Knows(c) && Consistent(tree, processed, open, out) && File(c.path, header) in tree.files
      modifies this
      ensures ok ==> Consistent(tree, processed, open, out) && File(c.path, header) in processed
      ensures !ok ==> exists n: nat :: Broken(tree, c, header, n)
      ensures ok ==> Dangling(out) <= old(Dangling(out)) + {File(c.path, header)}
      ensures old(processed) <= processed && old(out) <= out
      ensures Emitted(EmitHeader(tree, c, header, old(processed)), ok, old(out), out, processed)
      decreases |tree.files - processed|, 0
    {
      hide Prereqs, HeaderTargets, Dangling, EmitAll, Resolved;
      var key := File(c.path, header);
      if key in processed {
        return true;
      }
      ConsistentOpen(tree, processed, open, out, key);
      SubsetSize(tree.files - (processed + {key}), tree.files - processed);
      processed := processed + {key};
      var done := AddRuleForEachInclude(c, header, open + {key});
      if !done {
        return false;
      }
      var rule := HeaderRule(key, Prereqs(tree, c, tree.Lines(key)).value);
      PrereqsResolve(tree, c, tree.Lines(key));
      assert Genuine(tree, rule);
      ConsistentAppend(tree, processed, open + {key}, out, rule);
      assert open + {key} - {key} == open;
      DanglingAppend(out, rule);
      out := out + [rule];
      ok := true;
    }

    /** Emits the rule of an object file. */
    method AddCppRule(c: Component, cppfile: string) returns (ok: bool)
      requires Knows(c) && Consistent(tree, processed, {}, out)
      modifies this
      ensures ok ==> Consistent(tree, processed, {}, out)
      ensures Emitted(EmitJobs(tree, [(c, cppfile)], old(processed)), ok, old(out), out, processed)
      ensures !ok ==> exists n: nat :: Broken(tree, c, cppfile, n)
      ensures ok ==> Dangling(out) <= old(Dangling(out))
      ensures old(processed) <= processed && old(out) <= out
    {
      hide Prereqs, HeaderTargets, Dangling, EmitAll, Resolved;
      OneJob(c, cppfile, processed);
      ok := AddRuleForEachInclude(c, cppfile, {});
      if ok {
        var file := File(c.path, cppfile);
        var rule := ObjectRule(file, Prereqs(tree, c, tree.Lines(file)).value);
        PrereqsResolve(tree, c, tree.Lines(file));
        assert Genuine(tree, rule);
        ConsistentAppend(tree, processed, {}, out, rule);
        DanglingAppend(out, rule);
        out := out + [rule];
      }
    }

    /** The makefiles of all components, which share the set of processed headers. */
    method MakeAll(jobs: seq<(Component, string)>) returns (ok: bool)
      requires AllKnown(tree, jobs)
      requires Consistent(tree, processed, {}, out) && Dangling(out) == {}
      modifies this
      ensures ok ==> RulesClosed(out)
      ensures ok ==> forall i: nat | i < |out| :: Needed(out, i)
      ensures !ok ==> exists j, n: nat | j in jobs :: Broken(tree, j.0, j.1, n)
      ensures ok && tree.DistinctDirs() ==> forall j, n: nat | j in jobs :: !Broken(tree, j.0, j.1, n)
      ensures Emitted(EmitJobs(tree, jobs, old(processed)), ok, old(out), out, processed)
      ensures ok ==> old(out) <= out && ObjectForEach(tree, jobs, Objects(out[|old(out)|..]))
      ensures ok ==> forall r | r in out :: Genuine(tree, r)
    {
      hide HeaderTargets, Dangling, EmitJobs, EmitAll, Prereqs, Resolved, Broken;
      NoJobs(processed);
      assert jobs[..0] == [];
      for i := 0 to |jobs|
        invariant Consistent(tree, processed, {}, out) && Dangling(out) == {}
        invariant Emitted(EmitJobs(tree, jobs[..i], old(processed)), true, old(out), out, processed)
      {
        var (c, cppfile) := jobs[i];
        assert KnownIn(tree, c);
        var done := AddCppRule(c, cppfile);
        JobsNext(jobs, i, old(processed));
        if !done {
          JobsMissing(jobs, i, old(processed));
          return false;
        }
      }
      assert jobs[..|jobs|] == jobs;
      JobsObjects(tree, jobs, old(processed));
      assert out[|old(out)|..] == EmitJobs(tree, jobs, old(processed)).value.rules;
      ConsistentIsClosed(tree, processed, out);
      forall i: nat | i < |out| ensures Needed(out, i) { NothingSuperfluous(out, i); }
      forall j, n: nat | j in jobs && tree.DistinctDirs() ensures !Broken(tree, j.0, j.1, n) {
        var i :| 0 <= i < |jobs| && jobs[i] == j;
        var rule := Objects(out[|old(out)|..])[i];
        ObjectIsRule(out[|old(out)|..], i);
        NothingBroken(tree, out, rule, j.0.name, j.1, n);
      }
      ok := true;
    }

    lemma NoJobs(processed: set<File>)
      ensures EmitJobs(tree, [], processed) == Ok(Emission(processed, []))
    {}

    lemma JobsNext(jobs: seq<(Component, string)>, i: nat, processed: set<File>)
      requires AllKnown(tree, jobs) && i < |jobs| && EmitJobs(tree, jobs[..i], processed).Ok?
      ensures AllKnown(tree, jobs[..i + 1]) && AllKnown(tree, [jobs[i]])
      ensures
        var before := EmitJobs(tree, jobs[..i], processed).value;
        var one, next := EmitJobs(tree, [jobs[i]], before.processed), EmitJobs(tree, jobs[..i + 1], processed);
        if one.MKException? then next.MKException?
        else next == Ok(Emission(one.value.processed, before.rules + one.value.rules))
    {
      hide EmitAll, Prereqs;
      var (c, cppfile) := jobs[i];
      var before, file := EmitJobs(tree, jobs[..i], processed).value, File(c.path, cppfile);
      OneJob(c, cppfile, before.processed);
      assert jobs[..i + 1][..i] == jobs[..i] && jobs[..i + 1][i] == jobs[i];
      var more, prereqs := EmitAll(tree, c, tree.Lines(file), before.processed), Prereqs(tree, c, tree.Lines(file));
      if more.Ok? && prereqs.Ok? {
        var rule := ObjectRule(file, prereqs.value);
        assert before.rules + (more.value.rules + [rule]) == before.rules + more.value.rules + [rule];
      }
    }

    lemma {:induction false} JobsMissing(jobs: seq<(Component, string)>, i: nat, processed: set<File>)
      requires AllKnown(tree, jobs) && i < |jobs|
      requires EmitJobs(tree, jobs[..i + 1], processed).MKException?
      ensures EmitJobs(tree, jobs, processed).MKException?
      decreases |jobs|
    {
      if i + 1 < |jobs| {
        var init := jobs[..|jobs| - 1];
        assert init[..i + 1] == jobs[..i + 1];
        JobsMissing(init, i, processed);
      } else {
        assert jobs[..i + 1] == jobs;
      }
    }
  }

  lemma {:induction false} ObjectIsRule(out: seq<Rule>, i: nat)
    requires i < |Objects(out)|
    ensures Objects(out)[i] in out
  {
    var init := out[..|out| - 1];
    assert out == init + [out[|out| - 1]];
    if i < |Objects(init)| { ObjectIsRule(init, i); }
  }

  /** The writer has added exactly this; when it stopped, so does the specification. */
  ghost predicate Emitted(e: Outcome<Emission>, ok: bool, before: seq<Rule>, out: seq<Rule>, processed: set<File>) {
    if ok then e.Ok? && processed == e.value.processed && out == before + e.value.rules else e.MKException?
  }

  ghost predicate AllProcessed(prereqs: Outcome<seq<File>>, processed: set<File>) {
    prereqs.Ok? && forall p | p in prereqs.value :: p in processed
  }

  lemma {:induction false} PrereqsAppend(tree: Tree, c: Component, names: seq<string>, name: string)
    requires forall d | d in c.deps :: d in tree.components
    requires Prereqs(tree, c, names).Ok? && FindFile(tree, c, name).Ok?
    ensures Prereqs(tree, c, names + [name]) ==
            Ok(Prereqs(tree, c, names).value + [File(FindFile(tree, c, name).value.path, name)])
  {
    if names == [] {
      assert names + [name] == [name];
      var one: seq<string> := [name];
      assert one[0] == name && one[1..] == [];
      assert Prereqs(tree, c, one[1..]) == Ok([]);
      var file := File(FindFile(tree, c, name).value.path, name);
      assert Prereqs(tree, c, one) == Ok([file] + []);
      assert [file] + [] == [] + [file];
      assert Prereqs(tree, c, names).value == [];
    } else {
      assert (names + [name])[1..] == names[1..] + [name];
      PrereqsAppend(tree, c, names[1..], name);
      var first, rest := File(FindFile(tree, c, names[0]).value.path, names[0]), Prereqs(tree, c, names[1..]).value;
      var last := File(FindFile(tree, c, name).value.path, name);
      assert [first] + (rest + [last]) == [first] + rest + [last];
    }
  }
}
