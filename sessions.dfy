/** A provider in use: a sequence of `get` calls, each with or without a `GetServiceContext`,
    and what lifetimes promise about the objects those calls return. */
module Sessions {
  import opened Model
  import opened Lifetimes
  import opened Provider

  /** One `get` call: the key, and the context passed, if any. Contexts are told apart by a
      number; a number not seen before is a newly created context. */
  datatype Call = Call(key: Key, context: Option<nat>)

  /** The provider's singletons, the scoped services of every context used so far, and the
      id counter. */
  datatype World = World(singletons: map<Type, Obj>, contexts: map<nat, map<Type, Obj>>, next: nat)

  /** Python's `a is not b` for two results of `get`: both are objects, and their
      identities differ. */
  predicate IsNot(a: Option<Obj>, b: Option<Obj>) {
    a.Some? && b.Some? && a.value.id != b.value.id
  }

  /** The caches a call made in context `k` works with. */
  function CachesIn(w: World, k: Option<nat>): Caches {
    Caches(w.singletons, if k.Some? && k.value in w.contexts then w.contexts[k.value] else map[], w.next)
  }

  ghost predicate WorldValid(w: World) {
    && CachesValid(CachesIn(w, None))
    && (forall k :: k in w.contexts ==> CachesValid(CachesIn(w, Some(k))))
  }

  /** Nothing any context or the provider cached is lost or replaced, and the counter never
      goes back. */
  ghost predicate WorldGrows(w: World, w': World) {
    && w.next <= w'.next
    && SubMap(w.singletons, w'.singletons)
    && (forall k :: k in w.contexts ==> k in w'.contexts && SubMap(w.contexts[k], w'.contexts[k]))
  }

  lemma WorldGrowsTransitive(w1: World, w2: World, w3: World)
    requires WorldGrows(w1, w2) && WorldGrows(w2, w3)
    ensures WorldGrows(w1, w3)
  {
  }

  /** One `get` call. A call without a context uses a fresh one, whose scoped services are
      dropped afterwards. A call for an unknown key returns nothing and issues no object. */
  function Step(rs: map<Type, Resolver>, names: map<string, Type>, w: World, call: Call): (res: (Option<Obj>, World))
    ensures res.0.Some? <==> Knows(rs, names, call.key)
    ensures res.0.None? ==> res.1.singletons == w.singletons && res.1.next == w.next
  {
    var (r, c) := GetSpec(rs, names, call.key, CachesIn(w, call.context));
    var contexts := if call.context.Some? then w.contexts[call.context.value := c.scoped] else w.contexts;
    (r, World(c.singletons, contexts, c.next))
  }

  /** A call keeps everything cached so far, and every object it caches was issued. */
  lemma StepGrows(rs: map<Type, Resolver>, names: map<string, Type>, w: World, call: Call)
    ensures WorldGrows(w, Step(rs, names, w, call).1)
    ensures WorldValid(w) ==> WorldValid(Step(rs, names, w, call).1)
  {
    var c := CachesIn(w, call.context);
    var (r, c') := GetSpec(rs, names, call.key, c);
    var w' := Step(rs, names, w, call).1;
    assert Grows(c, c');
    forall k | k in w.contexts
      ensures k in w'.contexts && SubMap(w.contexts[k], w'.contexts[k])
    {
      if call.context == Some(k) {
        assert w'.contexts[k] == c'.scoped;
      }
    }
    if WorldValid(w) {
      assert CachesValid(c);
      forall k | k in w'.contexts
        ensures CachesValid(CachesIn(w', Some(k)))
      {
        if call.context != Some(k) {
          assert CachesValid(CachesIn(w, Some(k)));
        }
      }
    }
  }

  /** `t` is registered under the given lifetime through a factory or a constructor. */
  predicate Built(rs: map<Type, Resolver>, t: Type, lifetime: Lifetime) {
    t in rs && !rs[t].InstanceResolver? && rs[t].lifetime == lifetime
  }

  /** One call for a singleton returns the object the provider caches for it afterwards, and
      the object it cached before, if there was one. */
  lemma StepSingleton(rs: map<Type, Resolver>, names: map<string, Type>, w: World, call: Call, t: Type)
    requires Target(rs, names, call.key) == Some(t) && Built(rs, t, Singleton)
    ensures var (r, w') := Step(rs, names, w, call);
      && rs[t].key in w'.singletons && r == Some(w'.singletons[rs[t].key])
      && (rs[t].key in w.singletons ==> r == Some(w.singletons[rs[t].key]))
  {
    var c := CachesIn(w, call.context);
    var (o, c') := Instantiate(rs[t], c);
    assert GetSpec(rs, names, call.key, c) == (Some(o), c');
    assert Cached(rs[t], c') == Some(o);
  }

  /** One call for a scoped service in context `k` returns the object that context caches for
      it afterwards, and the object it cached before, if there was one. */
  lemma StepScoped(rs: map<Type, Resolver>, names: map<string, Type>, w: World, call: Call, t: Type, k: nat)
    requires Target(rs, names, call.key) == Some(t) && Built(rs, t, Scoped) && call.context == Some(k)
    ensures var (r, w') := Step(rs, names, w, call);
      && k in w'.contexts && rs[t].key in w'.contexts[k] && r == Some(w'.contexts[k][rs[t].key])
      && (k in w.contexts && rs[t].key in w.contexts[k] ==> r == Some(w.contexts[k][rs[t].key]))
  {
    var c := CachesIn(w, call.context);
    var (o, c') := Instantiate(rs[t], c);
    assert GetSpec(rs, names, call.key, c) == (Some(o), c');
    assert Cached(rs[t], c') == Some(o);
  }

  /** One call for a service its caches hold returns the cached object. */
  lemma StepCached(rs: map<Type, Resolver>, names: map<string, Type>, w: World, call: Call, t: Type)
    requires Target(rs, names, call.key) == Some(t) && t in rs && !rs[t].InstanceResolver?
    requires Cached(rs[t], CachesIn(w, call.context)).Some?
    ensures Step(rs, names, w, call).0 == Cached(rs[t], CachesIn(w, call.context))
  {
    var c := CachesIn(w, call.context);
    assert GetSpec(rs, names, call.key, c) == (Some(Instantiate(rs[t], c).0), Instantiate(rs[t], c).1);
  }

  /** One call for a service its caches do not hold builds a new object. */
  lemma StepFresh(rs: map<Type, Resolver>, names: map<string, Type>, w: World, call: Call, t: Type)
    requires Target(rs, names, call.key) == Some(t) && t in rs && !rs[t].InstanceResolver?
    requires Cached(rs[t], CachesIn(w, call.context)).None?
    ensures var (r, w') := Step(rs, names, w, call);
      r.Some? && Fresh(CachesIn(w, None), CachesIn(w', None), r.value)
  {
    var c := CachesIn(w, call.context);
    var (o, c') := Instantiate(rs[t], c);
    assert GetSpec(rs, names, call.key, c) == (Some(o), c');
    assert Fresh(c, c', o);
  }

  /** One call that builds a service whose `k`-th dependency is a singleton already cached
      passes that cached object as the `k`-th argument. */
  lemma StepInjects(rs: map<Type, Resolver>, names: map<string, Type>, w: World, call: Call, p: Type, r: Type, k: nat)
    requires Target(rs, names, call.key) == Some(r) && Built(rs, p, Singleton) && rs[p].key in w.singletons
    requires r in rs && rs[r].TypeResolver? && k < |rs[r].deps| && rs[r].deps[k] == rs[p]
    requires Cached(rs[r], CachesIn(w, call.context)).None?
    ensures var res := Step(rs, names, w, call).0;
      res.Some? && k < |res.value.args| && res.value.args[k] == Ref(w.singletons[rs[p].key])
  {
    var c := CachesIn(w, call.context);
    var (o, c') := Instantiate(rs[r], c);
    assert GetSpec(rs, names, call.key, c) == (Some(o), c');
    assert o.args == InstantiateAll(rs[r].deps, c).0;
    assert Cached(rs[r].deps[k], c) == Some(w.singletons[rs[p].key]);
  }

  /** A call without a context leaves the contexts as they were. */
  lemma StepWithoutContext(rs: map<Type, Resolver>, names: map<string, Type>, w: World, call: Call)
    requires call.context.None?
    ensures Step(rs, names, w, call).1.contexts == w.contexts
  {
  }

  /** A singleton cached before keeps its object. */
  lemma SingletonKept(w: World, w': World, key: Type)
    requires WorldGrows(w, w') && key in w.singletons
    ensures key in w'.singletons && w'.singletons[key] == w.singletons[key]
  {
  }

  /** A scoped service cached in a context before keeps its object there. */
  lemma ScopedKept(w: World, w': World, k: nat, key: Type)
    requires WorldGrows(w, w') && k in w.contexts && key in w.contexts[k]
    ensures k in w'.contexts && key in w'.contexts[k] && w'.contexts[k][key] == w.contexts[k][key]
  {
  }

  /** `ws` are the states a sequence of calls passes through and `results` what the calls
      returned: call `j` is made in state `ws[j]`, returns `results[j]` and leaves `ws[j + 1]`. */
  ghost predicate IsRun(rs: map<Type, Resolver>, names: map<string, Type>, calls: seq<Call>, ws: seq<World>, results: seq<Option<Obj>>) {
    && |ws| == |calls| + 1 && |results| == |calls|
    && forall j {:trigger Step(rs, names, ws[j], calls[j])} :: 0 <= j < |calls| ==>
         Step(rs, names, ws[j], calls[j]) == (results[j], ws[j + 1])
  }

  /** The calls made one after another from `w`: what each returned, and the states they pass
      through. */
  function Run(rs: map<Type, Resolver>, names: map<string, Type>, w: World, calls: seq<Call>): (res: (seq<Option<Obj>>, seq<World>))
    ensures |res.0| == |calls| && |res.1| == |calls| + 1
  {
    if calls == [] then ([], [w])
    else
      var (results, ws) := Run(rs, names, w, calls[..|calls| - 1]);
      var (r, w') := Step(rs, names, ws[|ws| - 1], calls[|calls| - 1]);
      (results + [r], ws + [w'])
  }

  /** `Run` makes each call in the state the calls before it left. */
  lemma {:induction false} RunIsRun(rs: map<Type, Resolver>, names: map<string, Type>, w: World, calls: seq<Call>)
    ensures var (results, ws) := Run(rs, names, w, calls); IsRun(rs, names, calls, ws, results) && ws[0] == w
    decreases |calls|
  {
    if calls != [] {
      RunIsRun(rs, names, w, calls[..|calls| - 1]);
      var (results, ws) := Run(rs, names, w, calls[..|calls| - 1]);
      ExtendRun(rs, names, calls, ws, results);
      var (r, w') := Step(rs, names, ws[|calls| - 1], calls[|calls| - 1]);
      assert Run(rs, names, w, calls) == (results + [r], ws + [w']);
    }
  }

  /** A run of all calls but the last, followed by the last call, is a run of all of them. */
  lemma ExtendRun(rs: map<Type, Resolver>, names: map<string, Type>, calls: seq<Call>, ws: seq<World>, results: seq<Option<Obj>>)
    requires calls != [] && IsRun(rs, names, calls[..|calls| - 1], ws, results)
    ensures var (r, w') := Step(rs, names, ws[|calls| - 1], calls[|calls| - 1]);
      IsRun(rs, names, calls, ws + [w'], results + [r])
  {
    var n := |calls| - 1;
    var prefix := calls[..n];
    var (r, w') := Step(rs, names, ws[n], calls[n]);
    var results', ws' := results + [r], ws + [w'];
    forall j | 0 <= j < n + 1
      ensures Step(rs, names, ws'[j], calls[j]) == (results'[j], ws'[j + 1])
    {
      assert ws'[j] == ws[j];
      if j < n {
        assert prefix[j] == calls[j] && results'[j] == results[j] && ws'[j + 1] == ws[j + 1];
        assert Step(rs, names, ws[j], prefix[j]) == (results[j], ws[j + 1]);
      }
    }
  }

  /** Call `j` of a run. */
  lemma StepAt(rs: map<Type, Resolver>, names: map<string, Type>, calls: seq<Call>, ws: seq<World>, results: seq<Option<Obj>>, j: nat)
    requires IsRun(rs, names, calls, ws, results) && j < |calls|
    ensures Step(rs, names, ws[j], calls[j]) == (results[j], ws[j + 1])
  {
  }

  /** Whatever happens between two calls, the caches only grow. */
  lemma {:induction false} TraceGrows(rs: map<Type, Resolver>, names: map<string, Type>, calls: seq<Call>, ws: seq<World>, results: seq<Option<Obj>>, i: nat, j: nat)
    requires IsRun(rs, names, calls, ws, results) && i <= j <= |calls|
    ensures WorldGrows(ws[i], ws[j])
    decreases j
  {
    if i < j {
      TraceGrows(rs, names, calls, ws, results, i, j - 1);
      StepAt(rs, names, calls, ws, results, j - 1);
      StepGrows(rs, names, ws[j - 1], calls[j - 1]);
      WorldGrowsTransitive(ws[i], ws[j - 1], ws[j]);
    }
  }

  /** If every cached object was issued when the calls began, the same holds before each call. */
  lemma {:induction false} TraceValid(rs: map<Type, Resolver>, names: map<string, Type>, calls: seq<Call>, ws: seq<World>, results: seq<Option<Obj>>, j: nat)
    requires IsRun(rs, names, calls, ws, results) && WorldValid(ws[0]) && j <= |calls|
    ensures WorldValid(ws[j])
  {
    if j > 0 {
      TraceValid(rs, names, calls, ws, results, j - 1);
      StepAt(rs, names, calls, ws, results, j - 1);
      StepGrows(rs, names, ws[j - 1], calls[j - 1]);
    }
  }

  /** Every object the provider or a context caches has the type `kind` gives its key. */
  ghost predicate WorldTyped(w: World, kind: map<Type, Type>) {
    && CachedTyped(CachesIn(w, None), kind)
    && forall k :: k in w.contexts ==> CachedTyped(CachesIn(w, Some(k)), kind)
  }

  /** With resolvers that agree with `kind`, a call hands out an object of the type its
      key's resolver builds, and every cache stays typed. */
  lemma StepTyped(rs: map<Type, Resolver>, names: map<string, Type>, w: World, call: Call, kind: map<Type, Type>)
    requires (forall t :: t in rs ==> Agrees(rs[t], kind)) && WorldTyped(w, kind)
    ensures WorldTyped(Step(rs, names, w, call).1, kind)
    ensures var r := Step(rs, names, w, call).0;
      Target(rs, names, call.key).Some? ==> r.Some? && r.value.ofType == Builds(rs[Target(rs, names, call.key).value])
  {
    var c := CachesIn(w, call.context);
    assert CachedTyped(c, kind);
    var w' := Step(rs, names, w, call).1;
    var c' := GetSpec(rs, names, call.key, c).1;
    if Target(rs, names, call.key).Some? {
      InstantiateTyped(rs[Target(rs, names, call.key).value], c, kind);
    }
    assert CachedTyped(c', kind);
    forall k | k in w'.contexts
      ensures CachedTyped(CachesIn(w', Some(k)), kind)
    {
      if call.context != Some(k) {
        assert CachedTyped(CachesIn(w, Some(k)), kind);
      }
    }
  }

  /** On a run from a typed state, every state stays typed. */
  lemma {:induction false} TraceTyped(rs: map<Type, Resolver>, names: map<string, Type>, calls: seq<Call>, ws: seq<World>, results: seq<Option<Obj>>, kind: map<Type, Type>, j: nat)
    requires IsRun(rs, names, calls, ws, results) && j <= |calls|
    requires (forall t :: t in rs ==> Agrees(rs[t], kind)) && WorldTyped(ws[0], kind)
    ensures WorldTyped(ws[j], kind)
  {
    if j > 0 {
      TraceTyped(rs, names, calls, ws, results, kind, j - 1);
      StepAt(rs, names, calls, ws, results, j - 1);
      StepTyped(rs, names, ws[j - 1], calls[j - 1], kind);
    }
  }

  /** `isinstance`: whatever any call of a run returns for a known key, new or cached, is an
      object of the type that key's resolver builds. */
  lemma ResultTyped(rs: map<Type, Resolver>, names: map<string, Type>, calls: seq<Call>, ws: seq<World>, results: seq<Option<Obj>>, kind: map<Type, Type>, j: nat, t: Type)
    requires IsRun(rs, names, calls, ws, results) && j < |calls|
    requires (forall t :: t in rs ==> Agrees(rs[t], kind)) && WorldTyped(ws[0], kind)
    requires Target(rs, names, calls[j].key) == Some(t)
    ensures results[j].Some? && results[j].value.ofType == Builds(rs[t])
  {
    TraceTyped(rs, names, calls, ws, results, kind, j);
    StepAt(rs, names, calls, ws, results, j);
    StepTyped(rs, names, ws[j], calls[j], kind);
  }

  /** A registered instance is what every call for it returns. */
  lemma InstanceIsReturned(rs: map<Type, Resolver>, names: map<string, Type>, calls: seq<Call>, ws: seq<World>, results: seq<Option<Obj>>, j: nat, t: Type)
    requires IsRun(rs, names, calls, ws, results)
    requires j < |calls| && Target(rs, names, calls[j].key) == Some(t)
    requires rs[t].InstanceResolver?
    ensures results[j] == Some(rs[t].instance)
  {
    StepAt(rs, names, calls, ws, results, j);
  }

  /** After call `i` for a singleton, the provider caches what it returned. */
  lemma SingletonCachedAfter(rs: map<Type, Resolver>, names: map<string, Type>, calls: seq<Call>, ws: seq<World>, results: seq<Option<Obj>>, i: nat, t: Type)
    requires IsRun(rs, names, calls, ws, results)
    requires i < |calls| && Target(rs, names, calls[i].key) == Some(t) && Built(rs, t, Singleton)
    ensures rs[t].key in ws[i + 1].singletons && results[i] == Some(ws[i + 1].singletons[rs[t].key])
  {
    StepAt(rs, names, calls, ws, results, i);
    StepSingleton(rs, names, ws[i], calls[i], t);
  }

  /** A singleton is one object: every call for it returns the same object, whatever the
      contexts of the calls. */
  lemma SingletonIsOneInstance(rs: map<Type, Resolver>, names: map<string, Type>, calls: seq<Call>, ws: seq<World>, results: seq<Option<Obj>>, i: nat, j: nat, t: Type)
    requires IsRun(rs, names, calls, ws, results)
    requires i < j < |calls|
    requires Target(rs, names, calls[i].key) == Some(t) && Target(rs, names, calls[j].key) == Some(t)
    requires Built(rs, t, Singleton)
    ensures results[j] == results[i]
  {
    SingletonCachedAfter(rs, names, calls, ws, results, i, t);
    TraceGrows(rs, names, calls, ws, results, i + 1, j);
    SingletonKept(ws[i + 1], ws[j], rs[t].key);
    StepAt(rs, names, calls, ws, results, j);
    StepSingleton(rs, names, ws[j], calls[j], t);
  }

  /** Within one context a scoped service is one object. */
  lemma ScopedIsOnePerContext(rs: map<Type, Resolver>, names: map<string, Type>, calls: seq<Call>, ws: seq<World>, results: seq<Option<Obj>>, i: nat, j: nat, t: Type)
    requires IsRun(rs, names, calls, ws, results)
    requires i < j < |calls|
    requires Target(rs, names, calls[i].key) == Some(t) && Target(rs, names, calls[j].key) == Some(t)
    requires Built(rs, t, Scoped)
    requires calls[i].context.Some? && calls[j].context == calls[i].context
    ensures results[j] == results[i]
  {
    var k := calls[i].context.value;
    StepAt(rs, names, calls, ws, results, i);
    StepScoped(rs, names, ws[i], calls[i], t, k);
    TraceGrows(rs, names, calls, ws, results, i + 1, j);
    ScopedKept(ws[i + 1], ws[j], k, rs[t].key);
    StepAt(rs, names, calls, ws, results, j);
    StepScoped(rs, names, ws[j], calls[j], t, k);
  }

  /** A service that is not cached when it is asked for is built anew: its id was never
      issued before the call, and it is below the counter afterwards. */
  lemma NewWhenNotCached(rs: map<Type, Resolver>, names: map<string, Type>, calls: seq<Call>, ws: seq<World>, results: seq<Option<Obj>>, j: nat, t: Type)
    requires IsRun(rs, names, calls, ws, results)
    requires j < |calls| && Target(rs, names, calls[j].key) == Some(t) && t in rs && !rs[t].InstanceResolver?
    requires Cached(rs[t], CachesIn(ws[j], calls[j].context)).None?
    ensures results[j].Some? && Fresh(CachesIn(ws[j], None), CachesIn(ws[j + 1], None), results[j].value)
  {
    StepAt(rs, names, calls, ws, results, j);
    StepFresh(rs, names, ws[j], calls[j], t);
  }

  /** Every object a call returns for a service that is not an instance was issued by the end
      of the call, provided every cached object was issued when the calls began. */
  lemma StepIssued(rs: map<Type, Resolver>, names: map<string, Type>, w: World, call: Call, t: Type)
    requires WorldValid(w)
    requires Target(rs, names, call.key) == Some(t) && t in rs && !rs[t].InstanceResolver?
    ensures var (r, w') := Step(rs, names, w, call);
      r.Some? && Issued(CachesIn(w', None), r.value)
  {
    var c := CachesIn(w, call.context);
    assert CachesValid(c);
    var (o, c') := Instantiate(rs[t], c);
    assert GetSpec(rs, names, call.key, c) == (Some(o), c');
    if Cached(rs[t], c).Some? {
      assert Issued(c, o);
    }
  }

  /** What a call for a service that is not an instance returns was issued before the call
      ended, provided every cached object was issued when the calls began. */
  lemma ResultIssued(rs: map<Type, Resolver>, names: map<string, Type>, calls: seq<Call>, ws: seq<World>, results: seq<Option<Obj>>, i: nat, t: Type)
    requires IsRun(rs, names, calls, ws, results) && WorldValid(ws[0])
    requires i < |calls| && Target(rs, names, calls[i].key) == Some(t) && t in rs && !rs[t].InstanceResolver?
    ensures results[i].Some? && Issued(CachesIn(ws[i + 1], None), results[i].value)
  {
    TraceValid(rs, names, calls, ws, results, i);
    StepAt(rs, names, calls, ws, results, i);
    StepIssued(rs, names, ws[i], calls[i], t);
  }

  /** A transient service is a new object on every call. */
  lemma TransientIsAlwaysNew(rs: map<Type, Resolver>, names: map<string, Type>, calls: seq<Call>, ws: seq<World>, results: seq<Option<Obj>>, i: nat, j: nat, t: Type, u: Type)
    requires IsRun(rs, names, calls, ws, results)
    requires i < j < |calls|
    requires Target(rs, names, calls[i].key) == Some(t) && Target(rs, names, calls[j].key) == Some(u)
    requires Built(rs, t, Transient) && Built(rs, u, Transient)
    ensures IsNot(results[i], results[j])
  {
    NewWhenNotCached(rs, names, calls, ws, results, i, t);
    NewWhenNotCached(rs, names, calls, ws, results, j, u);
    TraceGrows(rs, names, calls, ws, results, i + 1, j);
  }

  /** `o` is not an object built while the counter went from `lo` to `hi`. */
  ghost predicate Outside(o: Obj, lo: nat, hi: nat) {
    !(o.id.Made? && lo <= o.id.n < hi)
  }

  /** No context caches an object built while the counter went from `lo` to `hi`. */
  ghost predicate ContextsAvoid(w: World, lo: nat, hi: nat) {
    forall k, t :: k in w.contexts && t in w.contexts[k] ==> Outside(w.contexts[k][t], lo, hi)
  }

  /** A call caches in its context only objects it builds itself. */
  lemma StepKeepsAvoid(rs: map<Type, Resolver>, names: map<string, Type>, w: World, call: Call, lo: nat, hi: nat)
    requires ContextsAvoid(w, lo, hi) && hi <= w.next
    ensures ContextsAvoid(Step(rs, names, w, call).1, lo, hi)
  {
    var c := CachesIn(w, call.context);
    var (r, c') := GetSpec(rs, names, call.key, c);
    var w' := Step(rs, names, w, call).1;
    forall k, t | k in w'.contexts && t in w'.contexts[k]
      ensures Outside(w'.contexts[k][t], lo, hi)
    {
      if call.context == Some(k) {
        assert w'.contexts[k] == c'.scoped;
        if t !in c.scoped {
          assert Fresh(c, c', c'.scoped[t]);
        }
      }
    }
  }

  /** Every cached object was issued before the counter reached `lo`. */
  lemma ValidAvoids(w: World, lo: nat, hi: nat)
    requires WorldValid(w) && w.next <= lo
    ensures ContextsAvoid(w, lo, hi)
  {
    forall k, t | k in w.contexts && t in w.contexts[k]
      ensures Outside(w.contexts[k][t], lo, hi)
    {
      assert CachesValid(CachesIn(w, Some(k)));
    }
  }

  /** After a call without a context, no context ever caches what that call built. */
  lemma {:induction false} ContextlessNeverCached(rs: map<Type, Resolver>, names: map<string, Type>, calls: seq<Call>, ws: seq<World>, results: seq<Option<Obj>>, i: nat, m: nat)
    requires IsRun(rs, names, calls, ws, results) && WorldValid(ws[0])
    requires i < m <= |calls| && calls[i].context.None?
    ensures ContextsAvoid(ws[m], ws[i].next, ws[i + 1].next)
    decreases m
  {
    var lo, hi := ws[i].next, ws[i + 1].next;
    if m == i + 1 {
      TraceValid(rs, names, calls, ws, results, i);
      ValidAvoids(ws[i], lo, hi);
      StepAt(rs, names, calls, ws, results, i);
      StepWithoutContext(rs, names, ws[i], calls[i]);
    } else {
      ContextlessNeverCached(rs, names, calls, ws, results, i, m - 1);
      TraceGrows(rs, names, calls, ws, results, i + 1, m - 1);
      StepKeepsAvoid(rs, names, ws[m - 1], calls[m - 1], lo, hi);
      StepAt(rs, names, calls, ws, results, m - 1);
    }
  }

  /** A scoped service asked for without a context is a new object, unlike what any other call
      for it returns, before or after, in a context or not. */
  lemma ScopedWithoutContextIsNew(rs: map<Type, Resolver>, names: map<string, Type>, calls: seq<Call>, ws: seq<World>, results: seq<Option<Obj>>, i: nat, j: nat, t: Type)
    requires IsRun(rs, names, calls, ws, results) && WorldValid(ws[0])
    requires i < |calls| && j < |calls| && i != j
    requires Target(rs, names, calls[i].key) == Some(t) && Target(rs, names, calls[j].key) == Some(t)
    requires Built(rs, t, Scoped)
    requires calls[i].context.None?
    ensures IsNot(results[i], results[j])
  {
    NewWhenNotCached(rs, names, calls, ws, results, i, t);
    if j < i {
      ResultIssued(rs, names, calls, ws, results, j, t);
      TraceGrows(rs, names, calls, ws, results, j + 1, i);
    } else {
      TraceGrows(rs, names, calls, ws, results, i + 1, j);
      if Cached(rs[t], CachesIn(ws[j], calls[j].context)).Some? {
        ContextlessNeverCached(rs, names, calls, ws, results, i, j);
        StepAt(rs, names, calls, ws, results, j);
        StepCached(rs, names, ws[j], calls[j], t);
      } else {
        NewWhenNotCached(rs, names, calls, ws, results, j, t);
      }
    }
  }


  /** No object is cached in two different contexts: their entries have different ids. */
  ghost predicate ContextsApart(w: World) {
    forall k1, k2, t1, t2 ::
      k1 in w.contexts && k2 in w.contexts && k1 != k2 && t1 in w.contexts[k1] && t2 in w.contexts[k2]
      ==> w.contexts[k1][t1].id != w.contexts[k2][t2].id
  }

  /** What a call leaves in a context was there before, or was built by the call. */
  lemma StepContextEntry(rs: map<Type, Resolver>, names: map<string, Type>, w: World, call: Call, k: nat, t: Type)
    requires var w' := Step(rs, names, w, call).1; k in w'.contexts && t in w'.contexts[k]
    ensures var w' := Step(rs, names, w, call).1;
      || (k in w.contexts && t in w.contexts[k] && w'.contexts[k][t] == w.contexts[k][t])
      || (call.context == Some(k) && Fresh(CachesIn(w, None), CachesIn(w', None), w'.contexts[k][t]))
  {
    var c := CachesIn(w, call.context);
    var (r, c') := GetSpec(rs, names, call.key, c);
    if call.context == Some(k) && t !in c.scoped {
      assert Fresh(c, c', c'.scoped[t]);
    }
  }

  /** A call keeps different contexts from sharing an object: it adds to its own context only
      objects it builds, and those were never issued before. */
  lemma StepKeepsApart(rs: map<Type, Resolver>, names: map<string, Type>, w: World, call: Call)
    requires WorldValid(w) && ContextsApart(w)
    ensures ContextsApart(Step(rs, names, w, call).1)
  {
    var w' := Step(rs, names, w, call).1;
    forall k1, k2, t1, t2 |
      k1 in w'.contexts && k2 in w'.contexts && k1 != k2 && t1 in w'.contexts[k1] && t2 in w'.contexts[k2]
      ensures w'.contexts[k1][t1].id != w'.contexts[k2][t2].id
    {
      StepContextEntry(rs, names, w, call, k1, t1);
      StepContextEntry(rs, names, w, call, k2, t2);
      if k1 in w.contexts && t1 in w.contexts[k1] {
        assert CachesValid(CachesIn(w, Some(k1)));
      }
      if k2 in w.contexts && t2 in w.contexts[k2] {
        assert CachesValid(CachesIn(w, Some(k2)));
      }
    }
  }

  /** Before each call of a run, no two contexts share an object. */
  lemma {:induction false} TraceApart(rs: map<Type, Resolver>, names: map<string, Type>, calls: seq<Call>, ws: seq<World>, results: seq<Option<Obj>>, j: nat)
    requires IsRun(rs, names, calls, ws, results) && WorldValid(ws[0]) && ContextsApart(ws[0])
    requires j <= |calls|
    ensures ContextsApart(ws[j])
  {
    if j > 0 {
      TraceApart(rs, names, calls, ws, results, j - 1);
      TraceValid(rs, names, calls, ws, results, j - 1);
      StepAt(rs, names, calls, ws, results, j - 1);
      StepKeepsApart(rs, names, ws[j - 1], calls[j - 1]);
    }
  }

  /** Scoped services got in two different contexts are different objects. */
  lemma ScopedDiffersAcrossContexts(rs: map<Type, Resolver>, names: map<string, Type>, calls: seq<Call>, ws: seq<World>, results: seq<Option<Obj>>, i: nat, j: nat, t: Type, u: Type)
    requires IsRun(rs, names, calls, ws, results) && WorldValid(ws[0]) && ContextsApart(ws[0])
    requires i < |calls| && j < |calls|
    requires Target(rs, names, calls[i].key) == Some(t) && Target(rs, names, calls[j].key) == Some(u)
    requires Built(rs, t, Scoped) && Built(rs, u, Scoped)
    requires calls[i].context.Some? && calls[j].context.Some? && calls[i].context != calls[j].context
    ensures IsNot(results[i], results[j])
  {
    var k1, k2 := calls[i].context.value, calls[j].context.value;
    var m := if i < j then j + 1 else i + 1;
    StepAt(rs, names, calls, ws, results, i);
    StepScoped(rs, names, ws[i], calls[i], t, k1);
    TraceGrows(rs, names, calls, ws, results, i + 1, m);
    ScopedKept(ws[i + 1], ws[m], k1, rs[t].key);
    StepAt(rs, names, calls, ws, results, j);
    StepScoped(rs, names, ws[j], calls[j], u, k2);
    TraceGrows(rs, names, calls, ws, results, j + 1, m);
    ScopedKept(ws[j + 1], ws[m], k2, rs[u].key);
    TraceApart(rs, names, calls, ws, results, m);
  }

  /** A singleton injected into a service built after the singleton was first returned is
      that very object. */
  lemma InjectedSingletonIsShared(rs: map<Type, Resolver>, names: map<string, Type>, calls: seq<Call>, ws: seq<World>, results: seq<Option<Obj>>, i: nat, j: nat, p: Type, r: Type, k: nat)
    requires IsRun(rs, names, calls, ws, results)
    requires i < j < |calls|
    requires Target(rs, names, calls[i].key) == Some(p) && Target(rs, names, calls[j].key) == Some(r)
    requires Built(rs, p, Singleton)
    requires r in rs && rs[r].TypeResolver? && k < |rs[r].deps| && rs[r].deps[k] == rs[p]
    requires Cached(rs[r], CachesIn(ws[j], calls[j].context)).None?
    ensures results[i].Some? && results[j].Some?
    ensures k < |results[j].value.args| && results[j].value.args[k] == Ref(results[i].value)
  {
    SingletonCachedAfter(rs, names, calls, ws, results, i, p);
    TraceGrows(rs, names, calls, ws, results, i + 1, j);
    SingletonKept(ws[i + 1], ws[j], rs[p].key);
    StepAt(rs, names, calls, ws, results, j);
    StepInjects(rs, names, ws[j], calls[j], p, r, k);
  }
}
