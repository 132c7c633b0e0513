/** The resolver builder run by `build_provider`: every constructor parameter is resolved to
    a registration (by declared type, or by exact alias or name when unannotated), and a
    depth-first search with an explicit stack of types in progress compiles one resolver per
    registration, failing on the first back edge. Factory and instance registrations are
    leaves of the search. */
module Resolution {
  import opened Model
  import Lifetimes

  /** The registration that a constructor parameter of `owner` resolves to. A union (or
      `Optional`) annotation is refused; an annotated parameter resolves by its type; an
      unannotated one by the exact alias of its name, else by the one type its name is an
      alias of (class names and their snake_case forms are aliases too). */
  function ParamTarget(tab: Table, owner: Type, p: Param): (r: Result<Type, BuildError>)
    ensures r.Ok? ==> r.value in tab.regs
    ensures r.Err? ==> !r.error.CircularDependency? && r.error.param == p.name && r.error.owner == owner
    ensures p.annotation.Union? ==> r == Err(UnsupportedUnionType(p.name, owner))
    ensures p.annotation.Plain? ==> (r.Ok? <==> p.annotation.t in tab.regs) && (r.Ok? ==> r.value == p.annotation.t)
  {
    match p.annotation
    case Union(_) => Err(UnsupportedUnionType(p.name, owner))
    case Plain(t) => if t in tab.regs then Ok(t) else Err(CannotResolveParameter(p.name, owner))
    case Unannotated =>
      if p.name in tab.exact then
        (if tab.exact[p.name] in tab.regs then Ok(tab.exact[p.name])
         else Err(CannotResolveParameter(p.name, owner)))
      else if p.name in tab.aliases && |tab.aliases[p.name]| > 1 then
        Err(AmbiguousAlias(p.name, owner))
      else if p.name in tab.aliases && |tab.aliases[p.name]| == 1 && tab.aliases[p.name][0] in tab.regs then
        Ok(tab.aliases[p.name][0])
      else Err(CannotResolveParameter(p.name, owner))
  }

  /** `u` is a constructor registration with a parameter at position `j`. */
  ghost predicate HasParam(tab: Table, u: Type, j: int) {
    u in tab.regs && tab.regs[u].strategy.Concrete? && 0 <= j < |tab.regs[u].strategy.params|
  }

  /** The dependency graph: `u` depends on `v` when a constructor parameter of `u` resolves
      to `v`. Only constructor registrations have outgoing edges. */
  ghost predicate DependsOn(tab: Table, u: Type, v: Type) {
    exists j :: HasParam(tab, u, j) && ParamTarget(tab, u, tab.regs[u].strategy.params[j]) == Ok(v)
  }

  ghost predicate IsPath(tab: Table, p: seq<Type>) {
    forall i :: 0 <= i < |p| - 1 ==> DependsOn(tab, p[i], p[i + 1])
  }

  /** A cycle: a path of at least one edge that ends where it starts. */
  ghost predicate IsCycle(tab: Table, c: seq<Type>) {
    |c| >= 2 && c[0] == c[|c| - 1] && IsPath(tab, c)
  }

  ghost predicate Acyclic(tab: Table) {
    forall c :: !IsCycle(tab, c)
  }

  /** Every constructor parameter of every registration resolves. */
  ghost predicate ParamsResolve(tab: Table) {
    forall u, j :: HasParam(tab, u, j) ==> ParamTarget(tab, u, tab.regs[u].strategy.params[j]).Ok?
  }

  /** `e` is the error some constructor parameter resolves to. */
  ghost predicate BadParameter(tab: Table, e: BuildError) {
    exists u, j :: HasParam(tab, u, j) && ParamTarget(tab, u, tab.regs[u].strategy.params[j]) == Err(e)
  }

  /** What a build error means: a cycle of the graph, or a parameter that does not resolve. */
  ghost predicate Explained(tab: Table, e: BuildError) {
    if e.CircularDependency? then IsCycle(tab, e.cycle) else BadParameter(tab, e)
  }

  function Elems(s: seq<Type>): set<Type> {
    set x | x in s
  }

  function IndexOf(s: seq<Type>, v: Type): (k: nat)
    requires v in s
    ensures k < |s| && s[k] == v
  {
    if s[0] == v then 0 else 1 + IndexOf(s[1..], v)
  }

  ghost predicate Extends(small: map<Type, Resolver>, big: map<Type, Resolver>) {
    forall k :: k in small ==> k in big && big[k] == small[k]
  }

  /** Finished ("black") types are registered and are not on the stack of types in progress. */
  ghost predicate Outside(tab: Table, done: map<Type, Resolver>, stack: seq<Type>) {
    forall k :: k in done ==> k in tab.regs && k !in stack
  }

  lemma FewerUnvisited(keys: set<Type>, stack: seq<Type>, t: Type)
    requires t in keys && t !in stack
    ensures |keys - Elems(stack + [t])| < |keys - Elems(stack)|
  {
    assert Elems(stack + [t]) == Elems(stack) + {t};
    assert keys - Elems(stack) == (keys - Elems(stack + [t])) + {t};
  }

  /** Compiles the resolver of `t`, which is not finished and not in progress. `stack` holds
      the types in progress ("grey"), `done` the finished ones ("black") with their resolvers. */
  function Visit(tab: Table, t: Type, stack: seq<Type>, done: map<Type, Resolver>)
    : (r: Result<(Resolver, map<Type, Resolver>), BuildError>)
    requires t in tab.regs && t !in stack && t !in done
    requires Outside(tab, done, stack)
    ensures r.Ok? ==> Extends(done, r.value.1) && Outside(tab, r.value.1, stack)
    ensures r.Ok? ==> t in r.value.1 && r.value.1[t] == r.value.0
    decreases |tab.regs.Keys - Elems(stack)|, 0, 0
  {
    var reg := tab.regs[t];
    match reg.strategy
    case Instance(o) =>
      Ok((InstanceResolver(o), done[t := InstanceResolver(o)]))
    case ByFactory(f) =>
      var res := FactoryResolver(t, reg.lifetime, f.args);
      Ok((res, done[t := res]))
    case Concrete(impl, params) =>
      FewerUnvisited(tab.regs.Keys, stack, t);
      match VisitParams(tab, t, params, 0, stack + [t], done, [])
      case Err(e) => Err(e)
      case Ok((deps, done')) =>
        var res := TypeResolver(t, reg.lifetime, impl, deps);
        Ok((res, done'[t := res]))
  }

  /** Resolves the parameters of `owner` from position `i` on; `acc` holds the resolvers of
      the parameters before `i`. */
  function VisitParams(tab: Table, owner: Type, params: seq<Param>, i: nat, stack: seq<Type>,
                       done: map<Type, Resolver>, acc: seq<Resolver>)
    : (r: Result<(seq<Resolver>, map<Type, Resolver>), BuildError>)
    requires i <= |params|
    requires Outside(tab, done, stack)
    ensures r.Ok? ==> Extends(done, r.value.1) && Outside(tab, r.value.1, stack)
    decreases |tab.regs.Keys - Elems(stack)|, 1, |params| - i
  {
    if i == |params| then Ok((acc, done))
    else
      match ParamTarget(tab, owner, params[i])
      case Err(e) => Err(e)
      case Ok(v) =>
        if v in done then VisitParams(tab, owner, params, i + 1, stack, done, acc + [done[v]])
        else if v in stack then Err(CircularDependency(stack[IndexOf(stack, v)..] + [v]))
        else
          match Visit(tab, v, stack, done)
          case Err(e) => Err(e)
          case Ok((res, done')) => VisitParams(tab, owner, params, i + 1, stack, done', acc + [res])
  }

  /** The loop of `build_provider` over the registrations in order, from position `i` on. */
  function BuildFrom(tab: Table, i: nat, done: map<Type, Resolver>)
    : (r: Result<map<Type, Resolver>, BuildError>)
    requires tab.Valid() && i <= |tab.order|
    requires Outside(tab, done, [])
    ensures r.Ok? ==> Extends(done, r.value) && Outside(tab, r.value, [])
    ensures r.Ok? ==> forall j :: i <= j < |tab.order| ==> tab.order[j] in r.value
    decreases |tab.order| - i
  {
    if i == |tab.order| then Ok(done)
    else
      var t := tab.order[i];
      if t in done then BuildFrom(tab, i + 1, done)
      else
        match Visit(tab, t, [], done)
        case Err(e) => Err(e)
        case Ok((_, done')) => BuildFrom(tab, i + 1, done')
  }

  /** `build_provider`'s compilation of every registration. */
  function Build(tab: Table): (r: Result<map<Type, Resolver>, BuildError>)
    requires tab.Valid()
    ensures r.Ok? ==> r.value.Keys == tab.regs.Keys
  {
    BuildFrom(tab, 0, map[])
  }

  // ---------------------------------------------------------------------------------------
  // What a compiled resolver is

  /** Parameter `p` of `owner` resolves to a finished type whose resolver is `d`. */
  ghost predicate Resolves(tab: Table, owner: Type, p: Param, d: Resolver, done: map<Type, Resolver>) {
    ParamTarget(tab, owner, p).Ok? && ParamTarget(tab, owner, p).value in done
    && d == done[ParamTarget(tab, owner, p).value]
  }

  ghost predicate DepsMatch(tab: Table, owner: Type, params: seq<Param>, deps: seq<Resolver>,
                            done: map<Type, Resolver>) {
    |deps| == |params| && forall j :: 0 <= j < |params| ==> Resolves(tab, owner, params[j], deps[j], done)
  }

  /** The resolver of `t` is the one its registration calls for: the instance itself, the
      factory, or the constructor applied to the resolvers of its parameters' targets. */
  ghost predicate CompiledAt(tab: Table, done: map<Type, Resolver>, t: Type)
    requires t in done && t in tab.regs
  {
    var reg := tab.regs[t];
    match reg.strategy
    case Instance(o) => done[t] == InstanceResolver(o)
    case ByFactory(f) => done[t] == FactoryResolver(t, reg.lifetime, f.args)
    case Concrete(impl, params) =>
      done[t].TypeResolver? && done[t] == TypeResolver(t, reg.lifetime, impl, done[t].deps)
      && DepsMatch(tab, t, params, done[t].deps, done)
  }

  ghost predicate Compiled(tab: Table, done: map<Type, Resolver>) {
    forall t :: t in done ==> t in tab.regs && CompiledAt(tab, done, t)
  }

  lemma CompiledAtGrows(tab: Table, m: map<Type, Resolver>, m': map<Type, Resolver>, t: Type)
    requires t in m && t in tab.regs && CompiledAt(tab, m, t) && Extends(m, m')
    ensures t in m' && CompiledAt(tab, m', t)
  {
    var reg := tab.regs[t];
    if reg.strategy.Concrete? {
      var params := reg.strategy.params;
      forall j | 0 <= j < |params|
        ensures Resolves(tab, t, params[j], m'[t].deps[j], m')
      {
        assert Resolves(tab, t, params[j], m[t].deps[j], m);
      }
    }
  }

  lemma CompiledGrows(tab: Table, m: map<Type, Resolver>, m': map<Type, Resolver>)
    requires Compiled(tab, m) && Extends(m, m')
    requires forall k :: k in m' && k !in m ==> k in tab.regs && CompiledAt(tab, m', k)
    ensures Compiled(tab, m')
  {
    forall k | k in m
      ensures CompiledAt(tab, m', k)
    {
      CompiledAtGrows(tab, m, m', k);
    }
  }

  lemma PathExtend(tab: Table, stack: seq<Type>, v: Type)
    requires IsPath(tab, stack) && |stack| > 0 && DependsOn(tab, stack[|stack| - 1], v)
    ensures IsPath(tab, stack + [v])
  {
    var p := stack + [v];
    forall i | 0 <= i < |p| - 1
      ensures DependsOn(tab, p[i], p[i + 1])
    {
      if i < |stack| - 1 {
        assert p[i] == stack[i] && p[i + 1] == stack[i + 1];
      }
    }
  }

  lemma PathSuffix(tab: Table, p: seq<Type>, k: nat)
    requires IsPath(tab, p) && k <= |p|
    ensures IsPath(tab, p[k..])
  {
    var q := p[k..];
    forall i | 0 <= i < |q| - 1
      ensures DependsOn(tab, q[i], q[i + 1])
    {
      assert q[i] == p[k + i] && q[i + 1] == p[k + i + 1];
    }
  }

  /** The soundness of one visit: on success the new finished map is compiled, on failure the
      error is explained by the graph. */
  lemma {:induction false} VisitSound(tab: Table, t: Type, stack: seq<Type>, done: map<Type, Resolver>)
    requires t in tab.regs && t !in stack && t !in done
    requires Outside(tab, done, stack) && Compiled(tab, done)
    requires IsPath(tab, stack + [t])
    ensures var r := Visit(tab, t, stack, done);
      && (r.Ok? ==> Compiled(tab, r.value.1))
      && (r.Err? ==> Explained(tab, r.error))
    decreases |tab.regs.Keys - Elems(stack)|, 0, 0
  {
    var reg := tab.regs[t];
    var r := Visit(tab, t, stack, done);
    match reg.strategy
    case Instance(o) =>
      CompiledGrows(tab, done, r.value.1);
    case ByFactory(f) =>
      CompiledGrows(tab, done, r.value.1);
    case Concrete(impl, params) =>
      FewerUnvisited(tab.regs.Keys, stack, t);
      var stack' := stack + [t];
      assert stack'[|stack'| - 1] == t;
      VisitParamsSound(tab, t, params, 0, stack', done, []);
      var rp := VisitParams(tab, t, params, 0, stack', done, []);
      if rp.Ok? {
        var deps := rp.value.0;
        var done' := rp.value.1;
        assert t !in done';
        var res := TypeResolver(t, reg.lifetime, impl, deps);
        assert r.value.1 == done'[t := res];
        assert Extends(done', done'[t := res]);
        forall j | 0 <= j < |params|
          ensures Resolves(tab, t, params[j], deps[j], done'[t := res])
        {
          assert Resolves(tab, t, params[j], deps[j], done');
        }
        CompiledGrows(tab, done', done'[t := res]);
      }
  }

  lemma {:induction false} VisitParamsSound(tab: Table, owner: Type, params: seq<Param>, i: nat,
                                            stack: seq<Type>, done: map<Type, Resolver>,
                                            acc: seq<Resolver>)
    requires i <= |params|
    requires Outside(tab, done, stack) && Compiled(tab, done)
    requires IsPath(tab, stack) && |stack| > 0 && stack[|stack| - 1] == owner
    requires owner in tab.regs && tab.regs[owner].strategy.Concrete?
    requires tab.regs[owner].strategy.params == params
    requires |acc| == i && forall j :: 0 <= j < i ==> Resolves(tab, owner, params[j], acc[j], done)
    ensures var r := VisitParams(tab, owner, params, i, stack, done, acc);
      && (r.Ok? ==> Compiled(tab, r.value.1) && DepsMatch(tab, owner, params, r.value.0, r.value.1))
      && (r.Err? ==> Explained(tab, r.error))
    decreases |tab.regs.Keys - Elems(stack)|, 1, |params| - i
  {
    if i < |params| {
      var pt := ParamTarget(tab, owner, params[i]);
      assert HasParam(tab, owner, i);
      if pt.Err? {
        assert BadParameter(tab, pt.error);
      } else {
        var v := pt.value;
        assert DependsOn(tab, owner, v);
        if v in done {
          var acc' := acc + [done[v]];
          assert forall j :: 0 <= j < i + 1 ==> Resolves(tab, owner, params[j], acc'[j], done) by {
            assert acc'[i] == done[v];
            assert forall j :: 0 <= j < i ==> acc'[j] == acc[j];
          }
          VisitParamsSound(tab, owner, params, i + 1, stack, done, acc');
        } else if v in stack {
          var k := IndexOf(stack, v);
          PathExtend(tab, stack, v);
          PathSuffix(tab, stack + [v], k);
          assert (stack + [v])[k..] == stack[k..] + [v];
        } else {
          PathExtend(tab, stack, v);
          VisitSound(tab, v, stack, done);
          var rv := Visit(tab, v, stack, done);
          if rv.Ok? {
            var res := rv.value.0;
            var done' := rv.value.1;
            var acc' := acc + [res];
            assert forall j :: 0 <= j < i + 1 ==> Resolves(tab, owner, params[j], acc'[j], done') by {
              assert acc'[i] == res && done'[v] == res;
              forall j | 0 <= j < i
                ensures Resolves(tab, owner, params[j], acc'[j], done')
              {
                assert acc'[j] == acc[j];
                assert Resolves(tab, owner, params[j], acc[j], done);
              }
            }
            VisitParamsSound(tab, owner, params, i + 1, stack, done', acc');
          }
        }
      }
    }
  }

  lemma {:induction false} BuildFromSound(tab: Table, i: nat, done: map<Type, Resolver>)
    requires tab.Valid() && i <= |tab.order|
    requires Outside(tab, done, []) && Compiled(tab, done)
    ensures var r := BuildFrom(tab, i, done);
      && (r.Ok? ==> Compiled(tab, r.value))
      && (r.Err? ==> Explained(tab, r.error))
    decreases |tab.order| - i
  {
    if i < |tab.order| {
      var t := tab.order[i];
      if t in done {
        BuildFromSound(tab, i + 1, done);
      } else {
        assert [] + [t] == [t];
        VisitSound(tab, t, [], done);
        var rv := Visit(tab, t, [], done);
        if rv.Ok? {
          BuildFromSound(tab, i + 1, rv.value.1);
        }
      }
    }
  }

  /** `build_provider` either compiles every registration as its strategy calls for, or fails
      with an error the graph explains: a real cycle, or a parameter that does not resolve. */
  lemma BuildSound(tab: Table)
    requires tab.Valid()
    ensures Build(tab).Ok? ==> Compiled(tab, Build(tab).value)
    ensures Build(tab).Err? ==> Explained(tab, Build(tab).error)
  {
    BuildFromSound(tab, 0, map[]);
  }

  // ---------------------------------------------------------------------------------------
  // Cycle detection is exact

  /** The depth of a resolver tree. */
  function Height(r: Resolver): nat {
    match r
    case TypeResolver(_, _, _, deps) => 1 + MaxHeight(deps)
    case _ => 0
  }

  function MaxHeight(ds: seq<Resolver>): nat {
    if ds == [] then 0
    else
      var h, m := Height(ds[0]), MaxHeight(ds[1..]);
      if h > m then h else m
  }

  lemma {:induction false} DepNoHigher(ds: seq<Resolver>, j: nat)
    requires j < |ds|
    ensures Height(ds[j]) <= MaxHeight(ds)
  {
    if j > 0 {
      DepNoHigher(ds[1..], j - 1);
    }
  }

  /** In a compiled map, a dependency's resolver is strictly lower than its dependent's. */
  lemma EdgeDescends(tab: Table, m: map<Type, Resolver>, u: Type, v: Type)
    requires Compiled(tab, m) && u in m && DependsOn(tab, u, v)
    ensures v in m && Height(m[v]) < Height(m[u])
  {
    var j :| HasParam(tab, u, j) && ParamTarget(tab, u, tab.regs[u].strategy.params[j]) == Ok(v);
    assert CompiledAt(tab, m, u);
    var deps := m[u].deps;
    assert Resolves(tab, u, tab.regs[u].strategy.params[j], deps[j], m);
    DepNoHigher(deps, j);
  }

  lemma {:induction false} PathDescends(tab: Table, m: map<Type, Resolver>, p: seq<Type>)
    requires Compiled(tab, m) && IsPath(tab, p) && |p| >= 1 && p[0] in m
    ensures p[|p| - 1] in m && Height(m[p[|p| - 1]]) + |p| - 1 <= Height(m[p[0]])
    decreases |p|
  {
    if |p| > 1 {
      EdgeDescends(tab, m, p[0], p[1]);
      PathSuffix(tab, p, 1);
      PathDescends(tab, m, p[1..]);
    }
  }

  /** A compiled map that covers every registration leaves no room for a cycle. */
  lemma CompiledIsAcyclic(tab: Table, m: map<Type, Resolver>)
    requires Compiled(tab, m) && tab.regs.Keys <= m.Keys
    ensures Acyclic(tab)
  {
    forall c | IsCycle(tab, c)
      ensures false
    {
      assert DependsOn(tab, c[0], c[1]);
      PathDescends(tab, m, c);
    }
  }

  /** A reported circular dependency is a cycle of the dependency graph. */
  lemma CircularDependencyIsACycle(tab: Table)
    requires tab.Valid()
    ensures Build(tab).Err? && Build(tab).error.CircularDependency? ==> IsCycle(tab, Build(tab).error.cycle)
  {
    BuildSound(tab);
  }

  /** Any other build error is the error of a constructor parameter that does not resolve
      (a union annotation, a missing registration, an ambiguous alias). */
  lemma OtherErrorsNameAParameter(tab: Table)
    requires tab.Valid()
    ensures Build(tab).Err? && !Build(tab).error.CircularDependency? ==> BadParameter(tab, Build(tab).error)
  {
    BuildSound(tab);
  }

  /** A successful build proves that the graph has no cycle and that every parameter of
      every constructor resolved. */
  lemma BuildOkMeansAcyclic(tab: Table)
    requires tab.Valid()
    ensures Build(tab).Ok? ==> Acyclic(tab) && ParamsResolve(tab)
  {
    var r := Build(tab);
    if r.Ok? {
      BuildSound(tab);
      CompiledIsAcyclic(tab, r.value);
      forall u, j | HasParam(tab, u, j)
        ensures ParamTarget(tab, u, tab.regs[u].strategy.params[j]).Ok?
      {
        assert CompiledAt(tab, r.value, u);
        assert Resolves(tab, u, tab.regs[u].strategy.params[j], r.value[u].deps[j], r.value);
      }
    }
  }

  /** When every parameter resolves, `build_provider` succeeds exactly when the dependency
      graph is acyclic, and its only possible error is a circular dependency. */
  lemma BuildSucceedsIffAcyclic(tab: Table)
    requires tab.Valid() && ParamsResolve(tab)
    ensures Build(tab).Ok? <==> Acyclic(tab)
    ensures Build(tab).Err? ==> Build(tab).error.CircularDependency?
  {
    BuildOkMeansAcyclic(tab);
    BuildSound(tab);
    if Build(tab).Err? {
      var e := Build(tab).error;
      if !e.CircularDependency? {
        assert false;
      }
      assert IsCycle(tab, e.cycle);
    }
  }

  /** Factory and instance registrations are leaves: every type on a cycle is a constructor
      registration, so a factory anywhere on a loop breaks it. */
  lemma CyclesAvoidLeaves(tab: Table, c: seq<Type>)
    requires IsCycle(tab, c)
    ensures forall k :: 0 <= k < |c| ==> c[k] in tab.regs && tab.regs[c[k]].strategy.Concrete?
  {
    forall k | 0 <= k < |c|
      ensures c[k] in tab.regs && tab.regs[c[k]].strategy.Concrete?
    {
      var i := if k == |c| - 1 then 0 else k;
      assert c[i] == c[k];
      assert DependsOn(tab, c[i], c[i + 1]);
    }
  }

  /** Along a path, a rank that drops on every edge keeps dropping. */
  lemma {:induction false} PathRankDescends(tab: Table, rank: map<Type, nat>, p: seq<Type>, k: nat)
    requires forall u, v :: DependsOn(tab, u, v) ==> u in rank && v in rank && rank[v] < rank[u]
    requires IsPath(tab, p) && 0 < k < |p|
    ensures p[0] in rank && p[k] in rank && rank[p[k]] < rank[p[0]]
  {
    assert DependsOn(tab, p[k - 1], p[k]);
    if k > 1 {
      PathRankDescends(tab, rank, p, k - 1);
    }
  }

  /** A graph whose edges all go down a rank has no cycle: the usual way to show a
      registration table is acyclic. */
  lemma RankedIsAcyclic(tab: Table, rank: map<Type, nat>)
    requires forall u, v :: DependsOn(tab, u, v) ==> u in rank && v in rank && rank[v] < rank[u]
    ensures Acyclic(tab)
  {
    forall c | IsCycle(tab, c)
      ensures false
    {
      PathRankDescends(tab, rank, c, |c| - 1);
    }
  }

  /** A successful build gives every registration the resolver its strategy calls for; in
      particular the resolver of a constructor registration holds, for each parameter, the
      very resolver registered for the parameter's target. */
  lemma BuiltResolversMatchRegistrations(tab: Table, u: Type)
    requires tab.Valid() && Build(tab).Ok? && u in tab.regs
    ensures var m := Build(tab).value;
      match tab.regs[u].strategy
      case Instance(o) => m[u] == InstanceResolver(o)
      case ByFactory(f) => m[u] == FactoryResolver(u, tab.regs[u].lifetime, f.args)
      case Concrete(impl, params) =>
        && m[u].TypeResolver? && m[u] == TypeResolver(u, tab.regs[u].lifetime, impl, m[u].deps)
        && |m[u].deps| == |params|
        && forall j :: 0 <= j < |params| ==>
             ParamTarget(tab, u, params[j]).Ok? && m[u].deps[j] == m[ParamTarget(tab, u, params[j]).value]
  {
    BuildSound(tab);
    var m := Build(tab).value;
    assert CompiledAt(tab, m, u);
    if tab.regs[u].strategy.Concrete? {
      var params := tab.regs[u].strategy.params;
      forall j | 0 <= j < |params|
        ensures ParamTarget(tab, u, params[j]).Ok? && m[u].deps[j] == m[ParamTarget(tab, u, params[j]).value]
      {
        assert Resolves(tab, u, params[j], m[u].deps[j], m);
      }
    }
  }

  /** An exact alias decides an unannotated parameter even when general aliases of the same
      name exist. */
  lemma ExactAliasWins(tab: Table, owner: Type, p: Param)
    requires p.annotation.Unannotated? && p.name in tab.exact && tab.exact[p.name] in tab.regs
    ensures ParamTarget(tab, owner, p) == Ok(tab.exact[p.name])
  {
  }

  /** The type of the objects each registered key stands for: a constructor's
      implementation, the registered type itself for a factory, an instance's own type. */
  function Kinds(tab: Table): (kind: map<Type, Type>)
    ensures kind.Keys == tab.regs.Keys
    ensures forall k :: k in kind && tab.regs[k].strategy.Concrete? ==> kind[k] == tab.regs[k].strategy.impl
  {
    map k | k in tab.regs ::
      match tab.regs[k].strategy
      case Concrete(impl, _) => impl
      case ByFactory(_) => k
      case Instance(o) => o.ofType
  }

  /** Every resolver a successful build compiles builds, for each key in its tree, objects of
      the type that key stands for, so what `get` hands out is typed as registered. */
  lemma {:induction false} BuiltResolverAgrees(tab: Table, u: Type)
    requires tab.Valid() && Build(tab).Ok? && u in tab.regs
    ensures Lifetimes.Agrees(Build(tab).value[u], Kinds(tab))
    ensures Lifetimes.Builds(Build(tab).value[u]) == Kinds(tab)[u]
    decreases Build(tab).value[u]
  {
    BuiltResolversMatchRegistrations(tab, u);
    var m := Build(tab).value;
    match tab.regs[u].strategy
    case Concrete(impl, params) =>
      forall d | d in m[u].deps
        ensures Lifetimes.Agrees(d, Kinds(tab))
      {
        var j :| 0 <= j < |m[u].deps| && m[u].deps[j] == d;
        var v := ParamTarget(tab, u, params[j]).value;
        BuiltResolverAgrees(tab, v);
      }
    case ByFactory(_) =>
    case Instance(_) =>
  }

  /** A registered constructor with a union-typed parameter, `Optional[X]` included, makes
      `build_provider` fail, whatever else the table holds. */
  lemma UnionParameterFailsBuild(tab: Table, u: Type, j: int)
    requires tab.Valid() && HasParam(tab, u, j) && tab.regs[u].strategy.params[j].annotation.Union?
    ensures Build(tab).Err?
  {
    BuildOkMeansAcyclic(tab);
  }

  /** Without an exact alias, an unannotated parameter resolves to the one type its name
      stands for: a type registered under that class name or snake_case name, or added with
      `add_alias`. */
  lemma NameResolvesParameter(tab: Table, owner: Type, p: Param, t: Type)
    requires p.annotation.Unannotated? && p.name !in tab.exact
    requires p.name in tab.aliases && tab.aliases[p.name] == [t] && t in tab.regs
    ensures ParamTarget(tab, owner, p) == Ok(t)
  {
  }
}
