/** The test suite's situations, stated over the model: which registration tables build,
    which fail and with what, and what sequences of `get` calls return. The example classes'
    constructors are given as parameter lists: `Circle(circle: ICircle)`,
    `TrickyCircle(circle: ICircle)`, `Jing(jang: Jang)`, `Jang(jing: Jing)`, `W(x: X)`, `X(y: Y)`,
    `Y(z: Z)`, `Z(w: W)`, `A()`, `B(a: A)`, `C(a: A, b: B)`, `Shape(circle: Circle)`,
    `TypeWithOptional(foo: Optional[Foo])`, `P()`, `R(p: P)`, `IdGetter()`, `Cat(name)`. */
module Scenarios {
  import opened Model
  import opened Resolution
  import opened Lifetimes
  import opened Provider
  import opened Sessions
  import Collection
  import Names
  import NameExamples

  const ICircle := Type(1, "ICircle")
  const Circle := Type(2, "Circle")
  const Jing := Type(3, "Jing")
  const Jang := Type(4, "Jang")
  const W := Type(5, "W")
  const X := Type(6, "X")
  const Y := Type(7, "Y")
  const Z := Type(8, "Z")
  const TrickyCircle := Type(9, "TrickyCircle")
  const A := Type(10, "A")
  const B := Type(11, "B")
  const C := Type(12, "C")
  const IdGetter := Type(13, "IdGetter")
  const Foo := Type(14, "Foo")
  const TypeWithOptional := Type(15, "TypeWithOptional")
  const Shape := Type(16, "Shape")
  const P := Type(17, "P")
  const R := Type(18, "R")
  const Cat := Type(19, "Cat")

  function Transient(impl: Type, params: seq<Param>): Registration {
    Registration(Lifetime.Transient, Concrete(impl, params))
  }

  function Needs(name: string, t: Type): Param {
    Param(name, Plain(t))
  }

  // ---------------------------------------------------------------------------------------
  // Circular dependencies

  /** `add_transient(ICircle, Circle)`: the circle needs itself, and the reported cycle is made
      of `ICircle` alone. */
  lemma CircleIsCircular(tab: Table)
    requires tab.Valid()
    requires tab.regs == map[ICircle := Transient(Circle, [Needs("circle", ICircle)])]
    ensures Build(tab).Err? && Build(tab).error.CircularDependency?
    ensures forall t :: t in Build(tab).error.cycle ==> t == ICircle
    ensures |Build(tab).error.cycle| >= 2 && ICircle in Build(tab).error.cycle
  {
    assert ParamsResolve(tab) by {
      forall u, j | HasParam(tab, u, j)
        ensures ParamTarget(tab, u, tab.regs[u].strategy.params[j]).Ok?
      {
        assert u == ICircle && j == 0;
      }
    }
    assert HasParam(tab, ICircle, 0);
    assert IsCycle(tab, [ICircle, ICircle]);
    BuildSucceedsIffAcyclic(tab);
    CircularDependencyIsACycle(tab);
    CyclesAvoidLeaves(tab, Build(tab).error.cycle);
    assert Build(tab).error.cycle[0] in Build(tab).error.cycle;
  }

  /** `Jing` and `Jang`, both constructed, need each other. */
  lemma JingJangIsCircular(tab: Table)
    requires tab.Valid()
    requires tab.regs == map[Jing := Transient(Jing, [Needs("jang", Jang)]),
                             Jang := Transient(Jang, [Needs("jing", Jing)])]
    ensures Build(tab).Err? && Build(tab).error.CircularDependency?
  {
    assert ParamsResolve(tab) by {
      forall u, j | HasParam(tab, u, j)
        ensures ParamTarget(tab, u, tab.regs[u].strategy.params[j]).Ok?
      {
        assert j == 0;
      }
    }
    assert HasParam(tab, Jing, 0) && HasParam(tab, Jang, 0);
    assert IsCycle(tab, [Jing, Jang, Jing]);
    BuildSucceedsIffAcyclic(tab);
  }

  /** W needs X needs Y needs Z needs W, all constructed. */
  lemma DeepCycleIsCircular(tab: Table)
    requires tab.Valid()
    requires tab.regs == map[W := Transient(W, [Needs("x", X)]), X := Transient(X, [Needs("y", Y)]),
                             Y := Transient(Y, [Needs("z", Z)]), Z := Transient(Z, [Needs("w", W)])]
    ensures Build(tab).Err? && Build(tab).error.CircularDependency?
  {
    assert ParamsResolve(tab) by {
      forall u, j | HasParam(tab, u, j)
        ensures ParamTarget(tab, u, tab.regs[u].strategy.params[j]).Ok?
      {
        assert j == 0;
      }
    }
    assert HasParam(tab, W, 0) && HasParam(tab, X, 0) && HasParam(tab, Y, 0) && HasParam(tab, Z, 0);
    assert IsCycle(tab, [W, X, Y, Z, W]);
    BuildSucceedsIffAcyclic(tab);
  }

  /** `TrickyCircle` is not on a cycle, but the circle it needs is: the build fails, and the
      reported cycle is made of `ICircle` alone. */
  lemma NestedCycleIsCircular(tab: Table)
    requires tab.Valid()
    requires tab.regs == map[ICircle := Transient(Circle, [Needs("circle", ICircle)]),
                             TrickyCircle := Transient(TrickyCircle, [Needs("circle", ICircle)])]
    ensures Build(tab).Err? && Build(tab).error.CircularDependency?
    ensures forall t :: t in Build(tab).error.cycle ==> t == ICircle
    ensures |Build(tab).error.cycle| >= 2 && ICircle in Build(tab).error.cycle
  {
    assert ParamsResolve(tab) by {
      forall u, j | HasParam(tab, u, j)
        ensures ParamTarget(tab, u, tab.regs[u].strategy.params[j]).Ok?
      {
        assert j == 0;
      }
    }
    assert HasParam(tab, ICircle, 0);
    assert IsCycle(tab, [ICircle, ICircle]);
    BuildSucceedsIffAcyclic(tab);
    CircularDependencyIsACycle(tab);
    var c := Build(tab).error.cycle;
    forall k | 0 < k < |c|
      ensures c[k] == ICircle
    {
      assert DependsOn(tab, c[k - 1], c[k]);
    }
    assert c[0] == c[|c| - 1];
    assert c[0] in c;
  }

  // ---------------------------------------------------------------------------------------
  // Graphs that build

  /** The edges of the diamond. */
  lemma DiamondEdges(tab: Table)
    requires tab.regs == map[A := Transient(A, []), B := Transient(B, [Needs("a", A)]),
                             C := Transient(C, [Needs("a", A), Needs("b", B)]), IdGetter := Transient(IdGetter, [])]
    ensures ParamsResolve(tab)
    ensures forall u, v :: DependsOn(tab, u, v) ==> (u == B && v == A) || (u == C && (v == A || v == B))
  {
    forall u, j | HasParam(tab, u, j)
      ensures ParamTarget(tab, u, tab.regs[u].strategy.params[j]).Ok?
      ensures (u == B && j == 0) || (u == C && (j == 0 || j == 1))
    {
      assert u == A || u == B || u == C || u == IdGetter;
    }
    forall u, v | DependsOn(tab, u, v)
      ensures (u == B && v == A) || (u == C && (v == A || v == B))
    {
      var j :| HasParam(tab, u, j) && ParamTarget(tab, u, tab.regs[u].strategy.params[j]) == Ok(v);
    }
  }

  /** C needs A and B, and B needs A: a diamond, not a cycle. The resolver of C holds the
      resolvers of A and B, and that of B the resolver of A. */
  lemma DiamondBuilds(tab: Table)
    requires tab.Valid()
    requires tab.regs == map[A := Transient(A, []), B := Transient(B, [Needs("a", A)]),
                             C := Transient(C, [Needs("a", A), Needs("b", B)]), IdGetter := Transient(IdGetter, [])]
    ensures Build(tab).Ok?
    ensures var m := Build(tab).value;
      m[C].TypeResolver? && m[C].deps == [m[A], m[B]] && m[B].TypeResolver? && m[B].deps == [m[A]]
  {
    DiamondEdges(tab);
    var rank := map[A := 0, IdGetter := 0, B := 1, C := 2];
    RankedIsAcyclic(tab, rank);
    BuildSucceedsIffAcyclic(tab);
    BuiltResolversMatchRegistrations(tab, C);
    BuiltResolversMatchRegistrations(tab, B);
  }

  /** The first `get(C)` of the diamond's provider: `c` is a C, `c.a` an A, `c.b` a B and
      `c.b.a` an A. */
  lemma DiamondObjects(tab: Table, names: map<string, Type>)
    requires tab.Valid()
    requires tab.regs == map[A := Transient(A, []), B := Transient(B, [Needs("a", A)]),
                             C := Transient(C, [Needs("a", A), Needs("b", B)]), IdGetter := Transient(IdGetter, [])]
    ensures Build(tab).Ok? && DiamondTyped(GetSpec(Build(tab).value, names, ByType(C), Caches(map[], map[], 0)).0)
  {
    DiamondBuilds(tab);
    var m := Build(tab).value;
    BuiltResolversMatchRegistrations(tab, B);
    BuiltResolversMatchRegistrations(tab, C);
    forall t | t in m
      ensures Agrees(m[t], Kinds(tab))
    {
      BuiltResolverAgrees(tab, t);
    }
    BuiltResolverAgrees(tab, A);
    DiamondObjectsFrom(m, names, Kinds(tab));
  }

  /** `got` is a C whose `a` is an A and whose `b` is a B, with `b.a` an A. */
  ghost predicate DiamondTyped(got: Option<Obj>) {
    && got.Some? && got.value.ofType == C && |got.value.args| == 2
    && got.value.args[0].Ref? && got.value.args[0].obj.ofType == A
    && got.value.args[1].Ref? && got.value.args[1].obj.ofType == B
    && |got.value.args[1].obj.args| == 1
    && got.value.args[1].obj.args[0].Ref? && got.value.args[1].obj.args[0].obj.ofType == A
  }

  /** Transient resolvers shaped like the diamond build, on empty caches, the objects the
      interdependencies test inspects. */
  lemma DiamondObjectsFrom(m: map<Type, Resolver>, names: map<string, Type>, kind: map<Type, Type>)
    requires forall t :: t in m ==> Agrees(m[t], kind)
    requires A in m && B in m && C in m && Builds(m[A]) == A
    requires m[C] == TypeResolver(C, Lifetime.Transient, C, [m[A], m[B]])
    requires m[B] == TypeResolver(B, Lifetime.Transient, B, [m[A]])
    ensures DiamondTyped(GetSpec(m, names, ByType(C), Caches(map[], map[], 0)).0)
  {
    var c := Caches(map[], map[], 0);
    InstantiateAllTyped(m[C].deps, c, kind);
    InstantiateAllInOrder(m[C].deps, c, 1);
    assert m[C].deps[..1] == [m[A]];
    var before := InstantiateAll([m[A]], c).1;
    InstantiateAllTyped([m[A]], c, kind);
    InstantiateAllTyped(m[B].deps, before, kind);
  }

  /** The edges of the chain W, X, Y, Z when Z comes from a factory: Z needs nothing. */
  lemma FactoryChainEdges(tab: Table)
    requires tab.regs == map[W := Transient(W, [Needs("x", X)]), X := Transient(X, [Needs("y", Y)]),
                             Y := Transient(Y, [Needs("z", Z)]),
                             Z := Registration(Lifetime.Transient, ByFactory(Factory(Some(Z), [Null])))]
    ensures ParamsResolve(tab)
    ensures forall u, v :: DependsOn(tab, u, v) ==> (u == W && v == X) || (u == X && v == Y) || (u == Y && v == Z)
  {
    forall u, j | HasParam(tab, u, j)
      ensures ParamTarget(tab, u, tab.regs[u].strategy.params[j]).Ok?
      ensures j == 0 && (u == W || u == X || u == Y)
    {
      assert u == W || u == X || u == Y || u == Z;
    }
    forall u, v | DependsOn(tab, u, v)
      ensures (u == W && v == X) || (u == X && v == Y) || (u == Y && v == Z)
    {
      var j :| HasParam(tab, u, j) && ParamTarget(tab, u, tab.regs[u].strategy.params[j]) == Ok(v);
    }
  }

  /** W needs X needs Y needs Z, and Z comes from a factory that passes `None` for its W: the
      build succeeds, and Z's resolver calls the factory with that `None`. */
  lemma FactoryBreaksDeepCycle(tab: Table)
    requires tab.Valid()
    requires tab.regs == map[W := Transient(W, [Needs("x", X)]), X := Transient(X, [Needs("y", Y)]),
                             Y := Transient(Y, [Needs("z", Z)]),
                             Z := Registration(Lifetime.Transient, ByFactory(Factory(Some(Z), [Null])))]
    ensures Build(tab).Ok?
    ensures Build(tab).value[Z] == FactoryResolver(Z, Lifetime.Transient, [Null])
  {
    FactoryChainEdges(tab);
    RankedIsAcyclic(tab, map[Z := 0, Y := 1, X := 2, W := 3]);
    BuildSucceedsIffAcyclic(tab);
    BuiltResolversMatchRegistrations(tab, Z);
  }

  /** Jing needs Jang, and Jang comes from a factory that passes `None` for its Jing. */
  lemma FactoryBreaksCycle(tab: Table)
    requires tab.Valid()
    requires tab.regs == map[Jing := Transient(Jing, [Needs("jang", Jang)]),
                             Jang := Registration(Lifetime.Transient, ByFactory(Factory(Some(Jang), [Null])))]
    ensures Build(tab).Ok?
    ensures Build(tab).value[Jing] == TypeResolver(Jing, Lifetime.Transient, Jing,
                                                   [FactoryResolver(Jang, Lifetime.Transient, [Null])])
  {
    assert ParamsResolve(tab) by {
      forall u, j | HasParam(tab, u, j)
        ensures ParamTarget(tab, u, tab.regs[u].strategy.params[j]).Ok?
      {
        assert j == 0;
      }
    }
    var rank := map[Jang := 0, Jing := 1];
    forall u, v | DependsOn(tab, u, v)
      ensures u in rank && v in rank && rank[v] < rank[u]
    {
      var j :| HasParam(tab, u, j) && ParamTarget(tab, u, tab.regs[u].strategy.params[j]) == Ok(v);
    }
    RankedIsAcyclic(tab, rank);
    BuildSucceedsIffAcyclic(tab);
    BuiltResolversMatchRegistrations(tab, Jing);
    BuiltResolversMatchRegistrations(tab, Jang);
  }

  /** A transient constructor resolver with one dependency builds, on any caches, an object of
      its implementation whose one argument is what the dependency builds on those caches. */
  lemma OneDependency(r: Resolver, c: Caches)
    requires r.TypeResolver? && r.lifetime == Lifetime.Transient && |r.deps| == 1
    ensures Instantiate(r, c).0.ofType == r.impl
    ensures Instantiate(r, c).0.args == [Ref(Instantiate(r.deps[0], c).0)]
  {
    InstantiateAllInOrder(r.deps, c, 0);
    assert r.deps[..0] == [];
  }

  /** `w` is a W, `w.x` an X, `w.x.y` a Y, `w.x.y.z` a Z, and `w.x.y.z.w` is `None`. */
  ghost predicate ChainShaped(got: Option<Obj>) {
    got.Some? && got.value.ofType == W && |got.value.args| == 1 && got.value.args[0].Ref? &&
    var x := got.value.args[0].obj;
    x.ofType == X && |x.args| == 1 && x.args[0].Ref? &&
    var y := x.args[0].obj;
    y.ofType == Y && |y.args| == 1 && y.args[0].Ref? &&
    var z := y.args[0].obj;
    z.ofType == Z && z.args == [Null]
  }

  /** Transient resolvers shaped like the chain W, X, Y with Z from a factory passing `None`
      build, on any caches, the object chain the deep-cycle test inspects. */
  lemma ChainObjectsFrom(m: map<Type, Resolver>, names: map<string, Type>, c: Caches)
    requires W in m && X in m && Y in m && Z in m
    requires m[W] == TypeResolver(W, Lifetime.Transient, W, [m[X]])
    requires m[X] == TypeResolver(X, Lifetime.Transient, X, [m[Y]])
    requires m[Y] == TypeResolver(Y, Lifetime.Transient, Y, [m[Z]])
    requires m[Z] == FactoryResolver(Z, Lifetime.Transient, [Null])
    ensures ChainShaped(GetSpec(m, names, ByType(W), c).0)
  {
    OneDependency(m[W], c);
    OneDependency(m[X], c);
    OneDependency(m[Y], c);
  }

  /** `provider.get(W)` on the chain's provider, whatever its caches hold, returns a W whose
      x, x.y and x.y.z are an X, a Y and a Z, and whose x.y.z.w is `None`. */
  lemma FactoryChainObjects(tab: Table, names: map<string, Type>, c: Caches)
    requires tab.Valid()
    requires tab.regs == map[W := Transient(W, [Needs("x", X)]), X := Transient(X, [Needs("y", Y)]),
                             Y := Transient(Y, [Needs("z", Z)]),
                             Z := Registration(Lifetime.Transient, ByFactory(Factory(Some(Z), [Null])))]
    ensures Build(tab).Ok?
    ensures ChainShaped(GetSpec(Build(tab).value, names, ByType(W), c).0)
  {
    FactoryBreaksDeepCycle(tab);
    var m := Build(tab).value;
    BuiltResolversMatchRegistrations(tab, W);
    BuiltResolversMatchRegistrations(tab, X);
    BuiltResolversMatchRegistrations(tab, Y);
    assert m[W].deps == [m[X]];
    assert m[X].deps == [m[Y]];
    assert m[Y].deps == [m[Z]];
    ChainObjectsFrom(m, names, c);
  }

  /** `jing` is a Jing whose jang is a Jang whose jing is `None`. */
  ghost predicate JingShaped(got: Option<Obj>) {
    && got.Some? && got.value.ofType == Jing && |got.value.args| == 1 && got.value.args[0].Ref?
    && got.value.args[0].obj.ofType == Jang && got.value.args[0].obj.args == [Null]
  }

  /** `provider.get(Jing)` on the Jing and Jang provider, whatever its caches hold, returns a
      Jing whose jang is a Jang whose jing is `None`. */
  lemma FactoryCycleObjects(tab: Table, names: map<string, Type>, c: Caches)
    requires tab.Valid()
    requires tab.regs == map[Jing := Transient(Jing, [Needs("jang", Jang)]),
                             Jang := Registration(Lifetime.Transient, ByFactory(Factory(Some(Jang), [Null])))]
    ensures Build(tab).Ok?
    ensures JingShaped(GetSpec(Build(tab).value, names, ByType(Jing), c).0)
  {
    FactoryBreaksCycle(tab);
    OneDependency(Build(tab).value[Jing], c);
  }

  /** A circle registered as an instance, and a shape that needs a circle: the shape's
      resolver hands it that very instance. */
  lemma InstanceBreaksCycle(tab: Table, circle: Obj)
    requires tab.Valid() && circle.ofType == Circle
    requires tab.regs == map[Circle := Registration(Singleton, Instance(circle)),
                             Shape := Transient(Shape, [Needs("circle", Circle)])]
    ensures Build(tab).Ok?
    ensures Build(tab).value[Shape] == TypeResolver(Shape, Lifetime.Transient, Shape, [InstanceResolver(circle)])
  {
    assert ParamsResolve(tab) by {
      forall u, j | HasParam(tab, u, j)
        ensures ParamTarget(tab, u, tab.regs[u].strategy.params[j]).Ok?
      {
        assert j == 0;
      }
    }
    var rank := map[Circle := 0, Shape := 1];
    forall u, v | DependsOn(tab, u, v)
      ensures u in rank && v in rank && rank[v] < rank[u]
    {
      var j :| HasParam(tab, u, j) && ParamTarget(tab, u, tab.regs[u].strategy.params[j]) == Ok(v);
    }
    RankedIsAcyclic(tab, rank);
    BuildSucceedsIffAcyclic(tab);
    BuiltResolversMatchRegistrations(tab, Shape);
    BuiltResolversMatchRegistrations(tab, Circle);
  }

  // ---------------------------------------------------------------------------------------
  // Parameters that do not resolve

  /** An `Optional[Foo]` parameter makes the build fail, naming the parameter `foo`. */
  lemma OptionalParameterIsRefused(tab: Table)
    requires tab.Valid()
    requires tab.regs == map[Foo := Transient(Foo, []),
                             TypeWithOptional := Transient(TypeWithOptional, [Param("foo", Union([Foo]))])]
    ensures Build(tab) == Err(UnsupportedUnionType("foo", TypeWithOptional))
  {
    assert HasParam(tab, TypeWithOptional, 0);
    BuildOkMeansAcyclic(tab);
    forall u, v | DependsOn(tab, u, v)
      ensures false
    {
    }
    RankedIsAcyclic(tab, map[]);
    CircularDependencyIsACycle(tab);
    OtherErrorsNameAParameter(tab);
    var e := Build(tab).error;
    var u, j :| HasParam(tab, u, j) && ParamTarget(tab, u, tab.regs[u].strategy.params[j]) == Err(e);
    assert u == TypeWithOptional && j == 0;
  }

  // ---------------------------------------------------------------------------------------
  // Lifetimes

  /** A fresh provider: nothing cached, no context used. */
  const Start := World(map[], map[], 0)

  function Get(t: Type, context: Option<nat>): Call {
    Call(ByType(t), context)
  }

  /** Three calls in one context and one without: all four are the same singleton. */
  lemma SingletonServices(rs: map<Type, Resolver>, names: map<string, Type>)
    requires Built(rs, IdGetter, Singleton)
    ensures var calls := [Get(IdGetter, Some(0)), Get(IdGetter, Some(0)), Get(IdGetter, Some(0)), Get(IdGetter, None)];
      var results := Run(rs, names, Start, calls).0;
      results[0] == results[1] == results[2] == results[3]
  {
    var calls := [Get(IdGetter, Some(0)), Get(IdGetter, Some(0)), Get(IdGetter, Some(0)), Get(IdGetter, None)];
    RunIsRun(rs, names, Start, calls);
    var (results, ws) := Run(rs, names, Start, calls);
    SingletonIsOneInstance(rs, names, calls, ws, results, 0, 1, IdGetter);
    SingletonIsOneInstance(rs, names, calls, ws, results, 0, 2, IdGetter);
    SingletonIsOneInstance(rs, names, calls, ws, results, 0, 3, IdGetter);
  }

  /** Three calls in one context and one without: four different transient objects. */
  lemma TransientServices(rs: map<Type, Resolver>, names: map<string, Type>)
    requires Built(rs, IdGetter, Lifetime.Transient)
    ensures var calls := [Get(IdGetter, Some(0)), Get(IdGetter, Some(0)), Get(IdGetter, Some(0)), Get(IdGetter, None)];
      var results := Run(rs, names, Start, calls).0;
      forall i, j :: 0 <= i < j < 4 ==> IsNot(results[i], results[j])
  {
    var calls := [Get(IdGetter, Some(0)), Get(IdGetter, Some(0)), Get(IdGetter, Some(0)), Get(IdGetter, None)];
    RunIsRun(rs, names, Start, calls);
    var (results, ws) := Run(rs, names, Start, calls);
    forall i, j | 0 <= i < j < 4
      ensures IsNot(results[i], results[j])
    {
      TransientIsAlwaysNew(rs, names, calls, ws, results, i, j, IdGetter, IdGetter);
    }
  }

  /** Three calls in one context give one scoped object; the call without a context gives
      another. */
  lemma ScopedServices(rs: map<Type, Resolver>, names: map<string, Type>)
    requires Built(rs, IdGetter, Scoped)
    ensures var calls := [Get(IdGetter, Some(0)), Get(IdGetter, Some(0)), Get(IdGetter, Some(0)), Get(IdGetter, None)];
      var results := Run(rs, names, Start, calls).0;
      results[0] == results[1] == results[2] && IsNot(results[3], results[0])
  {
    var calls := [Get(IdGetter, Some(0)), Get(IdGetter, Some(0)), Get(IdGetter, Some(0)), Get(IdGetter, None)];
    RunIsRun(rs, names, Start, calls);
    var (results, ws) := Run(rs, names, Start, calls);
    ScopedIsOnePerContext(rs, names, calls, ws, results, 0, 1, IdGetter);
    ScopedIsOnePerContext(rs, names, calls, ws, results, 0, 2, IdGetter);
    ScopedWithoutContextIsNew(rs, names, calls, ws, results, 3, 0, IdGetter);
  }

  /** Two contexts, used in turn: each has its own scoped object, which it keeps. */
  lemma ScopedPerContext(rs: map<Type, Resolver>, names: map<string, Type>)
    requires Built(rs, IdGetter, Scoped)
    ensures var calls := [Get(IdGetter, Some(0)), Get(IdGetter, Some(1)), Get(IdGetter, Some(0)), Get(IdGetter, Some(1))];
      var results := Run(rs, names, Start, calls).0;
      IsNot(results[0], results[1]) && results[2] == results[0] && results[3] == results[1]
  {
    var calls := [Get(IdGetter, Some(0)), Get(IdGetter, Some(1)), Get(IdGetter, Some(0)), Get(IdGetter, Some(1))];
    RunIsRun(rs, names, Start, calls);
    var (results, ws) := Run(rs, names, Start, calls);
    ScopedDiffersAcrossContexts(rs, names, calls, ws, results, 0, 1, IdGetter, IdGetter);
    ScopedIsOnePerContext(rs, names, calls, ws, results, 0, 2, IdGetter);
    ScopedIsOnePerContext(rs, names, calls, ws, results, 1, 3, IdGetter);
  }

  /** A scoped factory: the cat of a call without a context is not the cat of a later
      context, and within that context every call returns the same cat. */
  lemma ScopedFactory(rs: map<Type, Resolver>, names: map<string, Type>)
    requires Built(rs, Cat, Scoped)
    ensures var calls := [Get(Cat, None), Get(Cat, Some(0)), Get(Cat, Some(0)), Get(Cat, Some(0)), Get(Cat, Some(0))];
      var results := Run(rs, names, Start, calls).0;
      && IsNot(results[1], results[0])
      && results[2] == results[1] && results[3] == results[1] && results[4] == results[1]
  {
    var calls := [Get(Cat, None), Get(Cat, Some(0)), Get(Cat, Some(0)), Get(Cat, Some(0)), Get(Cat, Some(0))];
    RunIsRun(rs, names, Start, calls);
    var (results, ws) := Run(rs, names, Start, calls);
    ScopedWithoutContextIsNew(rs, names, calls, ws, results, 0, 1, Cat);
    ScopedIsOnePerContext(rs, names, calls, ws, results, 1, 2, Cat);
    ScopedIsOnePerContext(rs, names, calls, ws, results, 1, 3, Cat);
    ScopedIsOnePerContext(rs, names, calls, ws, results, 1, 4, Cat);
  }

  /** P is a singleton and R, transient, needs P: the R returned after P holds that P. */
  lemma SingletonByProvider(rs: map<Type, Resolver>, names: map<string, Type>)
    requires Built(rs, P, Singleton) && Built(rs, R, Lifetime.Transient)
    requires rs[R].TypeResolver? && rs[R].deps == [rs[P]]
    ensures var results := Run(rs, names, Start, [Get(P, None), Get(R, None)]).0;
      results[0].Some? && results[1].Some? && results[1].value.args == [Ref(results[0].value)]
  {
    var calls := [Get(P, None), Get(R, None)];
    RunIsRun(rs, names, Start, calls);
    var (results, ws) := Run(rs, names, Start, calls);
    InjectedSingletonIsShared(rs, names, calls, ws, results, 0, 1, P, R, 0);
  }

  /** P and R are both singletons and R needs P: the R returned after P holds that P, and
      asking for R again returns the same R. */
  lemma BothSingletons(rs: map<Type, Resolver>, names: map<string, Type>)
    requires rs == map[P := TypeResolver(P, Singleton, P, []),
                       R := TypeResolver(R, Singleton, R, [TypeResolver(P, Singleton, P, [])])]
    ensures var results := Run(rs, names, Start, [Get(P, None), Get(R, None), Get(R, None)]).0;
      && results[0].Some? && results[1].Some?
      && results[1].value.args == [Ref(results[0].value)]
      && results[2] == results[1]
  {
    var calls := [Get(P, None), Get(R, None), Get(R, None)];
    RunIsRun(rs, names, Start, calls);
    var (results, ws) := Run(rs, names, Start, calls);
    StepAt(rs, names, calls, ws, results, 0);
    assert ws[1].singletons.Keys == {P};
    InjectedSingletonIsShared(rs, names, calls, ws, results, 0, 1, P, R, 0);
    SingletonIsOneInstance(rs, names, calls, ws, results, 1, 2, R);
  }

  /** `add_exact_transient(Foo)` on a new collection: `Foo in services`, `Cat not in services`. */
  method ServiceCollectionContains() returns (services: Collection.ServiceCollection)
    ensures services.Contains(Foo) && !services.Contains(Cat)
  {
    services := new Collection.ServiceCollection();
    var _ := services.AddType(Lifetime.Transient, Foo, None, []);
  }

  /** `add_exact_transient(IdGetter)`, then `build_provider`: `IdGetter in provider`, `Foo not
      in provider`. */
  lemma ServiceProviderContains(tab: Table)
    requires tab.Valid() && tab.regs == map[IdGetter := Transient(IdGetter, [])]
    ensures Build(tab).Ok?
    ensures Knows(Build(tab).value, NameIndex(tab.aliases), ByType(IdGetter))
    ensures !Knows(Build(tab).value, NameIndex(tab.aliases), ByType(Foo))
  {
    RankedIsAcyclic(tab, map[]);
    BuildSucceedsIffAcyclic(tab);
  }

  /** A name of `later` and of its snake_case form is none of CatsController's three names. */
  predicate NamedApart(later: Type) {
    var snake := Names.ToStandardParamName(later.name);
    && later.name != "CatsController" && later.name != "cats_controller" && later.name != "k"
    && snake != "CatsController" && snake != "cats_controller" && snake != "k"
  }

  /** After `add_exact_transient(CatsController)` and the registrations of the
      `ServiceSettings` instance and of `FooDBContext`, 'CatsController' and 'cats_controller'
      stand for CatsController and 'k' is still unused. `cats` is CatsController; `tab` is
      the table before its registration, `t1`, `t2` and `t3` the tables after each of the
      three registrations. */
  lemma CatsControllerNames(tab: Table, cats: Type, reg: Registration, t1: Table,
                            settings: Type, settingsReg: Registration, t2: Table,
                            context: Type, contextReg: Registration, t3: Table, name: string)
    requires tab.Valid() && cats.name == "CatsController"
    requires "CatsController" !in tab.aliases && "cats_controller" !in tab.aliases && "k" !in tab.aliases
    requires Collection.Register(tab, cats, reg) == Ok(t1)
    requires NamedApart(settings) && Collection.Register(t1, settings, settingsReg) == Ok(t2)
    requires NamedApart(context) && Collection.Register(t2, context, contextReg) == Ok(t3)
    requires name == "CatsController" || name == "cats_controller" || name == "k"
    ensures t3.Valid() && cats in t3.regs && t3.regs[cats] == reg
    ensures name == "k" <==> name !in t3.aliases
    ensures name != "k" ==> NameIndex(t3.aliases)[name] == cats
  {
    NameExamples.CatsControllerName(cats.name);
    if name == "k" {
      Collection.RegisterKeepsOtherNames(tab, cats, reg, name);
    } else {
      Collection.RegisteredNamesReachKey(tab, cats, reg, name);
    }
    Collection.RegisterKeepsOtherNames(t1, settings, settingsReg, name);
    Collection.RegisterKeepsOtherNames(t2, context, contextReg, name);
  }

  /** The table after `add_alias(name, key)`: still well-formed, with the same registrations. */
  function WithAlias(t: Table, name: string, key: Type): (r: Table)
    requires t.Valid()
    ensures r.Valid() && r.regs == t.regs && r.exact == t.exact
    ensures name in r.aliases && key in r.aliases[name]
  {
    t.(aliases := Collection.AddAliasTo(t.aliases, name, key))
  }

  /** What each key stands for depends only on the registrations. */
  lemma SameKinds(t: Table, t': Table)
    requires t.regs == t'.regs
    ensures Kinds(t) == Kinds(t')
  {
  }

  /** On a provider built from `t`, `get` by a name that stands for a constructor registration
      of `key` whose implementation is `key` does what `get(key)` does and returns an object of
      type `key`, on any caches in which every cached object has its key's type. */
  lemma NamedGetIsImpl(t: Table, key: Type, name: string, c: Caches)
    requires t.Valid() && key in t.regs && t.regs[key].strategy.Concrete? && t.regs[key].strategy.impl == key
    requires Build(t).Ok? && name in NameIndex(t.aliases) && NameIndex(t.aliases)[name] == key
    requires CachedTyped(c, Kinds(t))
    ensures var got := GetSpec(Build(t).value, NameIndex(t.aliases), ByName(name), c);
      && got == GetSpec(Build(t).value, NameIndex(t.aliases), ByType(key), c)
      && got.0.Some? && got.0.value.ofType == key
  {
    var rs := Build(t).value;
    NameLookupIsTypeLookup(rs, NameIndex(t.aliases), name, c);
    BuiltResolverAgrees(t, key);
    GetTyped(rs, NameIndex(t.aliases), ByType(key), c, Kinds(t));
  }

  /** Then `add_alias('k', CatsController)` and `build_provider`: `get` by 'CatsController',
      'cats_controller' or 'k' does what `get(CatsController)` does, and returns a
      CatsController. `reg` is the `add_exact_transient` registration, whose implementation is
      CatsController itself; `c` is any state of the provider's caches in which every cached
      object has its key's type, as a new provider's empty caches have. */
  lemma GetByNameOrAlias(tab: Table, cats: Type, reg: Registration, t1: Table,
                         settings: Type, settingsReg: Registration, t2: Table,
                         context: Type, contextReg: Registration, t3: Table, name: string, c: Caches)
    requires tab.Valid() && cats.name == "CatsController"
    requires "CatsController" !in tab.aliases && "cats_controller" !in tab.aliases && "k" !in tab.aliases
    requires reg.strategy.Concrete? && reg.strategy.impl == cats
    requires Collection.Register(tab, cats, reg) == Ok(t1)
    requires NamedApart(settings) && Collection.Register(t1, settings, settingsReg) == Ok(t2)
    requires NamedApart(context) && Collection.Register(t2, context, contextReg) == Ok(t3)
    requires name == "CatsController" || name == "cats_controller" || name == "k"
    requires Build(WithAlias(t3, "k", cats)).Ok? && CachedTyped(c, Kinds(t3))
    ensures var t4 := WithAlias(t3, "k", cats);
      var got := GetSpec(Build(t4).value, NameIndex(t4.aliases), ByName(name), c);
      && name in NameIndex(t4.aliases) && NameIndex(t4.aliases)[name] == cats
      && got == GetSpec(Build(t4).value, NameIndex(t4.aliases), ByType(cats), c)
      && got.0.Some? && got.0.value.ofType == cats
  {
    CatsControllerNames(tab, cats, reg, t1, settings, settingsReg, t2, context, contextReg, t3, name);
    Collection.AliasIndex(t3.aliases, "k", cats, name);
    var t4 := WithAlias(t3, "k", cats);
    SameKinds(t3, t4);
    NamedGetIsImpl(t4, cats, name, c);
  }

  /** Asking a provider with no registrations for a name returns `None`. */
  lemma MissingServiceIsNone(c: Caches)
    ensures GetSpec(map[], NameIndex(map[]), ByName("not_existing"), c) == (None, c)
  {
  }
}
