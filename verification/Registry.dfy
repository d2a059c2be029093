/** The component registry of the build scripts: dependency closure, registration and link order. */
module Registry {
  import opened Sets

  /** `deps` is what `find_all_deps` computed when the component was created. */
  datatype Component = Component(name: string, path: string, deps: seq<string>, id: nat)

  // ----- the declared dependency graph -----

  type Graph = map<string, seq<string>>

  /** `b` can be reached from `a` in `n` declared steps. */
  ghost predicate ReachesIn(g: Graph, a: string, b: string, n: nat)
    decreases n
  {
    a in g && n > 0 &&
    if n == 1 then b in g[a] else exists m | m in g[a] :: ReachesIn(g, m, b, n - 1)
  }

  ghost predicate Reaches(g: Graph, a: string, b: string) {
    exists n: nat :: ReachesIn(g, a, b, n)
  }

  ghost predicate Closed(g: Graph) {
    forall a, b | a in g && b in g[a] :: b in g
  }

  lemma {:induction false} OldReach(g: Graph, name: string, deps: seq<string>, a: string, b: string, n: nat)
    requires Closed(g) && name !in g && a in g
    ensures ReachesIn(g, a, b, n) <==> ReachesIn(g[name := deps], a, b, n)
    decreases n
  {
    if n > 1 {
      forall m | m in g[a] { OldReach(g, name, deps, m, b, n - 1); }
    }
  }

  /** Adding a component changes no old path. */
  lemma OldReaches(g: Graph, name: string, deps: seq<string>, a: string, b: string)
    requires Closed(g) && name !in g && a in g
    ensures Reaches(g, a, b) <==> Reaches(g[name := deps], a, b)
  {
    var g' := g[name := deps];
    if n: nat :| ReachesIn(g, a, b, n) { OldReach(g, name, deps, a, b, n); }
    if n: nat :| ReachesIn(g', a, b, n) { OldReach(g, name, deps, a, b, n); }
  }

  /** What the new component reaches: its declared dependencies and what they reach. */
  lemma NewReaches(g: Graph, name: string, deps: seq<string>, b: string)
    requires Closed(g) && name !in g && forall d | d in deps :: d in g
    ensures Reaches(g[name := deps], name, b) <==> b in deps || exists d | d in deps :: Reaches(g, d, b)
  {
    var g' := g[name := deps];
    if n: nat :| ReachesIn(g', name, b, n) {
      if n > 1 {
        var m :| m in g'[name] && ReachesIn(g', m, b, n - 1);
        OldReach(g, name, deps, m, b, n - 1);
        assert Reaches(g, m, b);
      }
    }
    if b in deps {
      assert ReachesIn(g', name, b, 1);
    }
    if d :| d in deps && Reaches(g, d, b) {
      var n: nat :| ReachesIn(g, d, b, n);
      OldReach(g, name, deps, d, b, n);
      assert d in g'[name] && ReachesIn(g', name, b, n + 1);
    }
  }

  // ----- the registry -----

  datatype Outcome<T> = Ok(value: T) | MKException

  ghost predicate KnownAll(deps: seq<string>, known: set<string>) {
    forall d | d in deps :: d in known
  }

  /** The list of `c` is the transitive closure of the declared dependencies, once each, with smaller ids. */
  ghost predicate Transitive(g: Graph, m: map<string, Component>, c: Component) {
    && Distinct(c.deps)
    && (forall d :: d in c.deps <==> Reaches(g, c.name, d))
    && (forall d | d in c.deps :: d in m && m[d].id < c.id)
  }

  ghost predicate AllTransitive(g: Graph, m: map<string, Component>) {
    forall n | n in m :: m[n].name == n && Transitive(g, m, m[n])
  }

  /** Ids are the positions in the list of components. */
  ghost predicate Numbered(m: map<string, Component>, components: seq<Component>, nextId: nat) {
    && |components| == nextId
    && (forall n | n in m :: m[n].id < nextId && components[m[n].id] == m[n])
    && (forall i | 0 <= i < nextId ::
          components[i].id == i && components[i].name in m && m[components[i].name] == components[i])
  }

  lemma AddTransitive(g: Graph, m: map<string, Component>, deps: seq<string>, c: Component)
    requires Closed(g) && g.Keys == m.Keys && c.name !in g && AllTransitive(g, m)
    requires forall n | n in m :: m[n].id < c.id
    requires KnownAll(deps, g.Keys) && Distinct(c.deps)
    requires forall d :: d in c.deps <==> d in deps || exists e | e in deps :: Reaches(g, e, d)
    ensures Closed(g[c.name := deps]) && AllTransitive(g[c.name := deps], m[c.name := c])
  {
    var g', m' := g[c.name := deps], m[c.name := c];
    forall n | n in m' ensures m'[n].name == n && Transitive(g', m', m'[n]) {
      if n == c.name {
        forall d ensures d in c.deps <==> Reaches(g', c.name, d) { NewReaches(g, c.name, deps, d); }
        forall d | d in c.deps ensures d in m && m[d].id < c.id {
          if d !in deps {
            var e :| e in deps && Reaches(g, e, d);
            assert d in m[e].deps;
          }
        }
      } else {
        forall d ensures d in m[n].deps <==> Reaches(g', n, d) { OldReaches(g, c.name, deps, n, d); }
      }
    }
  }

  lemma AddNumbered(m: map<string, Component>, components: seq<Component>, nextId: nat, c: Component)
    requires Numbered(m, components, nextId) && c.name !in m && c.id == nextId
    ensures Numbered(m[c.name := c], components + [c], nextId + 1)
  {}

  function NamesOf(script: seq<(string, string, seq<string>)>): set<string> {
    set i | 0 <= i < |script| :: script[i].0
  }

  ghost predicate MayFollow(script: seq<(string, string, seq<string>)>, next: (string, string, seq<string>)) {
    next.0 !in NamesOf(script) && KnownAll(next.2, NamesOf(script))
  }

  /** No name is taken when it is registered, and every dependency is. */
  ghost predicate DeclaredBeforeUse(script: seq<(string, string, seq<string>)>) {
    forall i | 0 <= i < |script| :: MayFollow(script[..i], script[i])
  }

  /** The registrations of the script, each with its declared dependencies and its position as id. */
  ghost predicate Recorded(script: seq<(string, string, seq<string>)>, g: Graph, m: map<string, Component>) {
    && g.Keys == NamesOf(script) == m.Keys
    && forall i | 0 <= i < |script| ::
      var (name, path, deps) := script[i];
      name in g && g[name] == deps && name in m && m[name].path == path && m[name].id == i
  }

  lemma NextDeclared(script: seq<(string, string, seq<string>)>, i: nat)
    requires i < |script| && DeclaredBeforeUse(script[..i])
    ensures MayFollow(script[..i], script[i]) ==> DeclaredBeforeUse(script[..i + 1])
    ensures DeclaredBeforeUse(script) ==> MayFollow(script[..i], script[i])
  {
    var s := script[..i + 1];
    assert s == script[..i] + [script[i]];
    assert s[..i] == script[..i];
    forall j | 0 <= j < i ensures s[..j] == script[..i][..j] {}
  }

  lemma RecordNext(script: seq<(string, string, seq<string>)>, i: nat, g: Graph, m: map<string, Component>,
      c: Component)
    requires i < |script| && Recorded(script[..i], g, m) && script[i].0 !in g
    requires c.id == i && c.path == script[i].1
    ensures Recorded(script[..i + 1], g[script[i].0 := script[i].2], m[script[i].0 := c])
  {
    assert script[..i + 1] == script[..i] + [script[i]];
  }

  /** Each declared dependency, followed by its own list. */
  ghost function Expanded(deps: seq<string>, m: map<string, Component>): seq<string>
    requires KnownAll(deps, m.Keys)
  {
    if deps == [] then [] else
      var d := deps[|deps| - 1];
      Expanded(deps[..|deps| - 1], m) + [d] + m[d].deps
  }

  lemma ExpandedAppend(deps: seq<string>, d: string, m: map<string, Component>)
    requires KnownAll(deps + [d], m.Keys)
    ensures KnownAll(deps, m.Keys) && d in m
    ensures Expanded(deps + [d], m) == Expanded(deps, m) + [d] + m[d].deps
  {
    assert forall e | e in deps :: e in deps + [d];
    assert (deps + [d])[|deps|] == d;
    assert (deps + [d])[..|deps|] == deps;
  }

  lemma {:induction false} ExpandedMembers(deps: seq<string>, g: Graph, m: map<string, Component>)
    requires KnownAll(deps, m.Keys) && AllTransitive(g, m)
    ensures forall d :: d in Expanded(deps, m) <==> d in deps || exists e | e in deps :: Reaches(g, e, d)
  {
    if deps != [] {
      var init, last := deps[..|deps| - 1], deps[|deps| - 1];
      ExpandedMembers(init, g, m);
      assert forall d :: d in deps <==> d in init || d == last;
      assert m[last].name == last && forall d :: d in m[last].deps <==> Reaches(g, last, d);
    }
  }

  /** Later components do not change it. */
  lemma {:induction false} ExpandedOld(deps: seq<string>, m: map<string, Component>, c: Component)
    requires KnownAll(deps, m.Keys) && c.name !in m
    ensures KnownAll(deps, m[c.name := c].Keys) && Expanded(deps, m[c.name := c]) == Expanded(deps, m)
  {
    if deps != [] { ExpandedOld(deps[..|deps| - 1], m, c); }
  }

  /** Every list holds the first occurrences, in order, of the declared dependencies and their lists. */
  ghost predicate InOrder(g: Graph, m: map<string, Component>) {
    g.Keys == m.Keys && forall n | n in m :: KnownAll(g[n], m.Keys) && m[n].deps == FirstOnes(Expanded(g[n], m))
  }

  lemma AddInList(g: Graph, m: map<string, Component>, deps: seq<string>, c: Component)
    requires InOrder(g, m) && c.name !in m && KnownAll(deps, m.Keys) && c.deps == FirstOnes(Expanded(deps, m))
    ensures InOrder(g[c.name := deps], m[c.name := c])
  {
    hide Expanded;
    ExpandedOld(deps, m, c);
    forall n | n in m { ExpandedOld(g[n], m, c); }
  }

  class ComponentRegistry {
    var nextId: nat
    var components: seq<Component>
    var componentNames: set<string>
    var name2Component: map<string, Component>
    ghost var declared: Graph

    /** Every component's `deps` lists, without duplicates and in a fixed order, exactly what it can reach. */
    ghost predicate Valid()
      reads this
    {
      && componentNames == name2Component.Keys == declared.Keys
      && Closed(declared)
      && AllTransitive(declared, name2Component)
      && InOrder(declared, name2Component)
      && Numbered(name2Component, components, nextId)
    }

    constructor ()
      ensures Valid() && nextId == 0 && name2Component == map[] && declared == map[]
    {
      nextId, components, componentNames, name2Component, declared := 0, [], {}, map[], map[];
    }

    /** The dependencies of `deps` and `deps` themselves, each once; an unknown name is an error. */
    method FindAllDeps(deps: seq<string>) returns (r: Outcome<seq<string>>)
      requires Valid()
      ensures r.Ok? <==> KnownAll(deps, componentNames)
      ensures r.Ok? ==> r.value == FirstOnes(Expanded(deps, name2Component))
      ensures r.Ok? ==> Distinct(r.value)
      ensures r.Ok? ==> forall d :: d in r.value <==> d in deps || exists e | e in deps :: Reaches(declared, e, d)
    {
      hide AllTransitive, Numbered, Closed, Reaches, Distinct, InOrder, FirstOnes, Expanded;
      var newDeps: seq<string> := [];
      Nothing();
      assert deps[..0] == [];
      for i := 0 to |deps|
        invariant KnownAll(deps[..i], componentNames)
        invariant newDeps == FirstOnes(Expanded(deps[..i], name2Component))
      {
        var dep := deps[i];
        if dep !in componentNames {
          return MKException;
        }
        ghost var list := Expanded(deps[..i], name2Component);
        assert deps[..i + 1] == deps[..i] + [dep];
        ExpandedAppend(deps[..i], dep, name2Component);
        TakeFirst(list, dep);
        if dep !in newDeps {
          newDeps := newDeps + [dep];
        }
        list := list + [dep];
        var more := name2Component[dep].deps;
        NoneTaken(list, more);
        for j := 0 to |more|
          invariant newDeps == FirstOnes(list + more[..j])
        {
          TakeNext(list, more, j);
          if more[j] !in newDeps {
            newDeps := newDeps + [more[j]];
          }
        }
      }
      assert deps[..|deps|] == deps;
      ExpandedMembers(deps, declared, name2Component);
      FirstOnesMeans(Expanded(deps, name2Component));
      r := Ok(newDeps);
    }

    lemma Nothing()
      ensures KnownAll([], componentNames) && FirstOnes(Expanded([], name2Component)) == []
    {}

    lemma NoneTaken(list: seq<string>, more: seq<string>)
      ensures list + more[..0] == list && more[..|more|] == more
    {}

    lemma TakeNext(list: seq<string>, more: seq<string>, j: nat)
      requires j < |more|
      ensures var before := FirstOnes(list + more[..j]);
              FirstOnes(list + more[..j + 1]) == if more[j] in before then before else before + [more[j]]
    {
      TakeFirst(list + more[..j], more[j]);
      assert list + more[..j + 1] == list + more[..j] + [more[j]];
    }

    lemma TakeFirst(list: seq<string>, d: string)
      ensures FirstOnes(list + [d]) == if d in FirstOnes(list) then FirstOnes(list) else FirstOnes(list) + [d]
    {
      FirstOnesAppend(list, d);
      FirstOnesMeans(list);
    }

    /** The component is new, and its list is the closure of what it declares, in order. */
    ghost predicate Registrable(name: string, c: Component, deps: seq<string>)
      reads this
    {
      && c.name == name && name !in componentNames && KnownAll(deps, componentNames) && Distinct(c.deps)
      && KnownAll(deps, name2Component.Keys) && c.deps == FirstOnes(Expanded(deps, name2Component))
      && forall d :: d in c.deps <==> d in deps || exists e | e in deps :: Reaches(declared, e, d)
    }

    lemma Grows(deps: seq<string>, c: Component)
      requires Valid() && c.name !in componentNames && c.id == nextId
      requires KnownAll(deps, componentNames) && Distinct(c.deps)
      requires KnownAll(deps, name2Component.Keys) && c.deps == FirstOnes(Expanded(deps, name2Component))
      requires forall d :: d in c.deps <==> d in deps || exists e | e in deps :: Reaches(declared, e, d)
      ensures InOrder(declared[c.name := deps], name2Component[c.name := c])
      ensures Closed(declared[c.name := deps])
      ensures AllTransitive(declared[c.name := deps], name2Component[c.name := c])
      ensures Numbered(name2Component[c.name := c], components + [c], nextId + 1)
    {
      hide Expanded, FirstOnes;
      AddInList(declared, name2Component, deps, c);
      AddTransitive(declared, name2Component, deps, c);
      AddNumbered(name2Component, components, nextId, c);
    }

    /** `add_lib` and its variants: creates the component and registers it. */
    method Add(name: string, path: string, deps: seq<string>) returns (r: Outcome<Component>)
      requires Valid()
      modifies this
      ensures Valid()
      ensures r.Ok? <==> name !in old(componentNames) && KnownAll(deps, old(componentNames))
      ensures r.MKException? ==>
        name2Component == old(name2Component) && declared == old(declared) && nextId == old(nextId)
      ensures r.Ok? ==>
        && declared == old(declared)[name := deps] && nextId == old(nextId) + 1
        && r.value.name == name && r.value.path == path && r.value.id == old(nextId)
        && name2Component == old(name2Component)[name := r.value]
        && r.value.deps == FirstOnes(Expanded(deps, old(name2Component)))
    {
      hide AllTransitive, Numbered, Closed, Reaches, Distinct, KnownAll, InOrder, FirstOnes, Expanded;
      if name in componentNames {
        return MKException;
      }
      var all := FindAllDeps(deps);
      if all.MKException? {
        return MKException;
      }
      var c := RegComponent(name, Component(name, path, all.value, 0), deps);
      r := Ok(c);
    }

    lemma NothingRecorded(script: seq<(string, string, seq<string>)>)
      requires Valid() && declared == map[]
      ensures DeclaredBeforeUse(script[..0]) && Recorded(script[..0], declared, name2Component)
    {}

    lemma KnownNames(script: seq<(string, string, seq<string>)>, next: (string, string, seq<string>))
      requires Valid() && Recorded(script, declared, name2Component)
      ensures MayFollow(script, next) <==> next.0 !in componentNames && KnownAll(next.2, componentNames)
      ensures next.0 in declared <==> next.0 in componentNames
    {}

    /** A build script: registrations in a row, up to the first error. */
    method AddInOrder(script: seq<(string, string, seq<string>)>) returns (ok: bool)
      requires Valid() && declared == map[] && nextId == 0
      modifies this
      ensures Valid()
      ensures ok <==> DeclaredBeforeUse(script)
      ensures ok ==> nextId == |script| && Recorded(script, declared, name2Component)
    {
      hide *;
      NothingRecorded(script);
      for i := 0 to |script|
        invariant Valid() && nextId == i && DeclaredBeforeUse(script[..i])
        invariant Recorded(script[..i], declared, name2Component)
      {
        NextDeclared(script, i);
        ghost var g, m := declared, name2Component;
        var (name, path, deps) := script[i];
        KnownNames(script[..i], script[i]);
        var r := Add(name, path, deps);
        if r.MKException? {
          return false;
        }
        RecordNext(script, i, g, m, r.value);
      }
      assert script[..|script|] == script;
      ok := true;
    }

    /** Numbers the component and enters it everywhere: a valid registry stays valid. */
    method RegComponent(name: string, c: Component, ghost deps: seq<string>) returns (registered: Component)
      modifies this
      ensures old(Valid() && Registrable(name, c, deps)) ==> Valid()
      ensures registered == c.(id := old(nextId)) && nextId == old(nextId) + 1
      ensures name2Component == old(name2Component)[name := registered] && declared == old(declared)[name := deps]
      ensures components == old(components) + [registered] && componentNames == old(componentNames) + {name}
    {
      hide AllTransitive, Numbered, Closed, Reaches, KnownAll, InOrder, FirstOnes, Expanded;
      if Valid() && Registrable(name, c, deps) { Grows(deps, c.(id := nextId)); }
      registered := c.(id := nextId);
      nextId := nextId + 1;
      components := components + [registered];
      componentNames := componentNames + {name};
      name2Component := name2Component[name := registered];
      declared := declared[name := deps];
    }

    /** `sort_components`: newest first; a name that is not registered is a key error. */
    method SortComponents(cnames: seq<string>) returns (r: Outcome<seq<string>>)
      requires Valid()
      ensures r.Ok? <==> KnownAll(cnames, componentNames)
      ensures r.Ok? ==> multiset(r.value) == multiset(cnames) && ById(r.value, name2Component)
    {
      hide AllTransitive, Numbered, Closed, InOrder, Insert;
      var sorted: seq<string> := [];
      for i := 0 to |cnames|
        invariant KnownAll(cnames[..i], componentNames) && KnownAll(sorted, componentNames)
        invariant multiset(sorted) == multiset(cnames[..i])
        invariant ById(sorted, name2Component)
      {
        if cnames[i] !in componentNames {
          return MKException;
        }
        assert cnames[..i + 1] == cnames[..i] + [cnames[i]];
        InsertSorted(sorted, cnames[i], name2Component);
        sorted := Insert(sorted, cnames[i], name2Component);
      }
      assert cnames[..|cnames|] == cnames;
      r := Ok(sorted);
    }
  }

  // ----- link order -----

  ghost predicate ById(s: seq<string>, m: map<string, Component>) {
    && (forall n | n in s :: n in m)
    && forall i, j | 0 <= i < j < |s| :: m[s[i]].id >= m[s[j]].id
  }

  function Insert(s: seq<string>, c: string, m: map<string, Component>): seq<string>
    requires c in m && forall n | n in s :: n in m
  {
    if s == [] || m[s[0]].id < m[c].id then [c] + s else [s[0]] + Insert(s[1..], c, m)
  }

  lemma {:induction false} InsertKeeps(s: seq<string>, c: string, m: map<string, Component>)
    requires c in m && forall n | n in s :: n in m
    ensures multiset(Insert(s, c, m)) == multiset(s) + multiset{c}
    ensures forall n :: n in Insert(s, c, m) <==> n == c || n in s
  {
    if s != [] && !(m[s[0]].id < m[c].id) {
      InsertKeeps(s[1..], c, m);
      assert s == [s[0]] + s[1..];
    }
  }

  lemma ByIdFront(h: string, rest: seq<string>, m: map<string, Component>)
    requires h in m && ById(rest, m) && forall n | n in rest :: m[h].id >= m[n].id
    ensures ById([h] + rest, m)
  {}

  lemma {:induction false} InsertSorted(s: seq<string>, c: string, m: map<string, Component>)
    requires c in m && ById(s, m)
    ensures ById(Insert(s, c, m), m) && multiset(Insert(s, c, m)) == multiset(s) + multiset{c}
  {
    InsertKeeps(s, c, m);
    if s == [] || m[s[0]].id < m[c].id {
      ByIdFront(c, s, m);
    } else {
      InsertSorted(s[1..], c, m);
      InsertKeeps(s[1..], c, m);
      ByIdFront(s[0], Insert(s[1..], c, m), m);
    }
  }

  /** In a sorted list every component stands before all the components it depends on. */
  lemma DependenciesComeLater(g: Graph, m: map<string, Component>, s: seq<string>, i: nat, j: nat)
    requires AllTransitive(g, m) && ById(s, m)
    requires i < |s| && j < |s| && Reaches(g, s[i], s[j])
    ensures i < j
  {
    assert s[i] in m && Transitive(g, m, m[s[i]]);
    assert s[j] in m[s[i]].deps;
  }

  /** No component depends on itself, however its dependencies were declared. */
  lemma NoCycles(g: Graph, m: map<string, Component>, c: string)
    requires AllTransitive(g, m) && c in m
    ensures !Reaches(g, c, c)
  {
    assert Transitive(g, m, m[c]);
  }
}
