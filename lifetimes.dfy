/** The lifetime-scoped instantiator: running a compiled resolver against the provider's
    singleton cache, the current context's scoped cache and the counter that gives every
    object the container builds a new identity. */
module Lifetimes {
  import opened Model

  /** The state an instantiation reads and writes: the provider's singletons, the scoped
      services of the `GetServiceContext` in use, and the next free object id. */
  datatype Caches = Caches(singletons: map<Type, Obj>, scoped: map<Type, Obj>, next: nat)

  /** Every object the container made and cached has an id below the counter. */
  ghost predicate Issued(c: Caches, o: Obj) {
    o.id.Made? ==> o.id.n < c.next
  }

  ghost predicate CachesValid(c: Caches) {
    && (forall t :: t in c.singletons ==> Issued(c, c.singletons[t]))
    && (forall t :: t in c.scoped ==> Issued(c, c.scoped[t]))
  }

  /** `o` was built by this instantiation: its id was drawn from the counter in between. */
  ghost predicate Fresh(c: Caches, c': Caches, o: Obj) {
    o.id.Made? && c.next <= o.id.n < c'.next
  }

  /** Every entry of `m` is an entry of `m'`. */
  ghost predicate SubMap<K, V>(m: map<K, V>, m': map<K, V>) {
    forall k :: k in m ==> k in m' && m'[k] == m[k]
  }

  /** Nothing cached is lost or replaced, and the counter never goes back. */
  ghost predicate Grows(c: Caches, c': Caches) {
    c.next <= c'.next && SubMap(c.singletons, c'.singletons) && SubMap(c.scoped, c'.scoped)
  }

  /** Every object `c'` caches that `c` did not was built in between. */
  ghost predicate NewEntriesFresh(c: Caches, c': Caches) {
    && (forall t :: t in c'.singletons && t !in c.singletons ==> Fresh(c, c', c'.singletons[t]))
    && (forall t :: t in c'.scoped && t !in c.scoped ==> Fresh(c, c', c'.scoped[t]))
  }

  /** The object cached for a factory or type resolver under its lifetime, if any. A
      transient service is never cached. */
  function Cached(r: Resolver, c: Caches): Option<Obj>
    requires !r.InstanceResolver?
  {
    if r.lifetime == Singleton && r.key in c.singletons then Some(c.singletons[r.key])
    else if r.lifetime == Scoped && r.key in c.scoped then Some(c.scoped[r.key])
    else None
  }

  /** Remembers a newly built object in the cache its lifetime calls for. */
  function Store(key: Type, lifetime: Lifetime, o: Obj, c: Caches): Caches {
    match lifetime
    case Singleton => c.(singletons := c.singletons[key := o])
    case Scoped => c.(scoped := c.scoped[key := o])
    case Transient => c
  }

  /** Runs a resolver: an instance is returned as it is; a cached singleton or scoped
      service is returned from its cache; otherwise the factory is called, or every
      dependency is instantiated in parameter order and the constructor applied to them, and
      the new object is cached under its lifetime. */
  function Instantiate(r: Resolver, c: Caches): (res: (Obj, Caches))
    ensures Grows(c, res.1) && NewEntriesFresh(c, res.1)
    ensures CachesValid(c) ==> CachesValid(res.1)
    ensures r.InstanceResolver? ==> res == (r.instance, c)
    ensures !r.InstanceResolver? && Cached(r, c).Some? ==> res == (Cached(r, c).value, c)
    ensures !r.InstanceResolver? && Cached(r, c).None? ==>
      Fresh(c, res.1, res.0) && (r.lifetime != Transient ==> Cached(r, res.1) == Some(res.0))
    ensures r.FactoryResolver? && Cached(r, c).None? ==> res.0.ofType == r.key && res.0.args == r.args
    ensures r.TypeResolver? && Cached(r, c).None? ==>
      res.0.ofType == r.impl && res.0.args == InstantiateAll(r.deps, c).0
    decreases r, 1
  {
    match r
    case InstanceResolver(o) => (o, c)
    case FactoryResolver(key, lifetime, args) =>
      if Cached(r, c).Some? then (Cached(r, c).value, c)
      else
        var o := Obj(Made(c.next), key, args);
        (o, Store(key, lifetime, o, c.(next := c.next + 1)))
    case TypeResolver(key, lifetime, impl, deps) =>
      if Cached(r, c).Some? then (Cached(r, c).value, c)
      else
        var (values, c1) := InstantiateAll(deps, c);
        var o := Obj(Made(c1.next), impl, values);
        (o, Store(key, lifetime, o, c1.(next := c1.next + 1)))
  }

  /** Instantiates the resolvers `ds` left to right, threading the caches through. An
      argument whose service was already cached when the list started is that cached object. */
  function InstantiateAll(ds: seq<Resolver>, c: Caches): (res: (seq<Value>, Caches))
    ensures Grows(c, res.1) && NewEntriesFresh(c, res.1)
    ensures CachesValid(c) ==> CachesValid(res.1)
    ensures |res.0| == |ds| && forall j :: 0 <= j < |ds| ==> res.0[j].Ref?
    ensures forall j :: 0 <= j < |ds| && ds[j].InstanceResolver? ==> res.0[j] == Ref(ds[j].instance)
    ensures forall j :: 0 <= j < |ds| && !ds[j].InstanceResolver? && Cached(ds[j], c).Some? ==>
      res.0[j] == Ref(Cached(ds[j], c).value)
    decreases ds, 0
  {
    if ds == [] then ([], c)
    else
      var (values, c1) := InstantiateAll(ds[..|ds| - 1], c);
      var (o, c2) := Instantiate(ds[|ds| - 1], c1);
      (values + [Ref(o)], c2)
  }

  /** The arguments are built in parameter order: argument `j` is what running `ds[j]` gives
      on the caches the arguments before it left, and those caches are passed on. */
  lemma {:induction false} InstantiateAllInOrder(ds: seq<Resolver>, c: Caches, j: nat)
    requires j < |ds|
    ensures var before := InstantiateAll(ds[..j], c).1;
      && InstantiateAll(ds, c).0[j] == Ref(Instantiate(ds[j], before).0)
      && InstantiateAll(ds[..j + 1], c).1 == Instantiate(ds[j], before).1
  {
    PrefixCaches(ds, c, j);
    var init := ds[..|ds| - 1];
    var values := InstantiateAll(init, c).0;
    assert InstantiateAll(ds, c).0 == values + [Ref(Instantiate(ds[|ds| - 1], InstantiateAll(init, c).1).0)];
    if j < |ds| - 1 {
      InstantiateAllInOrder(init, c, j);
      assert init[..j] == ds[..j] && init[j] == ds[j];
      assert InstantiateAll(ds, c).0[j] == values[j];
    } else {
      assert init == ds[..j];
    }
  }

  /** Instantiating the first `j + 1` dependencies runs `ds[j]` on what the first `j` left. */
  lemma PrefixCaches(ds: seq<Resolver>, c: Caches, j: nat)
    requires j < |ds|
    ensures InstantiateAll(ds[..j + 1], c).1 == Instantiate(ds[j], InstantiateAll(ds[..j], c).1).1
  {
    var p := ds[..j + 1];
    assert p[..|p| - 1] == ds[..j] && p[|p| - 1] == ds[j];
  }

  /** The type of the objects a resolver hands out: the implementation a constructor
      builds, the registered type a factory builds, or the instance's own type. */
  function Builds(r: Resolver): Type {
    match r
    case InstanceResolver(o) => o.ofType
    case FactoryResolver(key, _, _) => key
    case TypeResolver(_, _, impl, _) => impl
  }

  /** Every resolver of the tree `r` that caches under a key builds objects of type
      `kind[key]`. */
  ghost predicate Agrees(r: Resolver, kind: map<Type, Type>)
    decreases r
  {
    match r
    case InstanceResolver(_) => true
    case FactoryResolver(key, _, _) => key in kind && kind[key] == key
    case TypeResolver(key, _, impl, deps) =>
      key in kind && kind[key] == impl && forall d :: d in deps ==> Agrees(d, kind)
  }

  /** Every cached object has the type `kind` gives its key. */
  ghost predicate CachedTyped(c: Caches, kind: map<Type, Type>) {
    && (forall k :: k in c.singletons ==> k in kind && c.singletons[k].ofType == kind[k])
    && (forall k :: k in c.scoped ==> k in kind && c.scoped[k].ofType == kind[k])
  }

  /** Running a resolver that agrees with `kind` on caches typed by `kind` hands out an
      object of the type the resolver builds, whether new or cached, and keeps the caches
      typed. */
  lemma {:induction false} InstantiateTyped(r: Resolver, c: Caches, kind: map<Type, Type>)
    requires Agrees(r, kind) && CachedTyped(c, kind)
    ensures CachedTyped(Instantiate(r, c).1, kind)
    ensures Instantiate(r, c).0.ofType == Builds(r)
    decreases r, 1
  {
    if r.TypeResolver? && Cached(r, c).None? {
      InstantiateAllTyped(r.deps, c, kind);
    }
  }

  /** Each argument built for dependencies that agree with `kind` is an object of the type
      its own resolver builds. */
  lemma {:induction false} InstantiateAllTyped(ds: seq<Resolver>, c: Caches, kind: map<Type, Type>)
    requires (forall d :: d in ds ==> Agrees(d, kind)) && CachedTyped(c, kind)
    ensures CachedTyped(InstantiateAll(ds, c).1, kind)
    ensures forall j :: 0 <= j < |ds| ==> InstantiateAll(ds, c).0[j].obj.ofType == Builds(ds[j])
    decreases ds, 0
  {
    if ds != [] {
      var init := ds[..|ds| - 1];
      InstantiateAllTyped(init, c, kind);
      InstantiateTyped(ds[|ds| - 1], InstantiateAll(init, c).1, kind);
    }
  }
}
