/** The service provider built by `build_provider`: a resolver per registered key, a string
    index over type names, snake_case names and aliases, the singleton cache, and the
    `GetServiceContext` objects that hold scoped services. */
module Provider {
  import opened Model
  import opened Lifetimes

  /** The scoped services of one resolution context. */
  class GetServiceContext {
    var scopedServices: map<Type, Obj>

    constructor()
      ensures scopedServices == map[]
    {
      scopedServices := map[];
    }
  }

  function Last<T>(s: seq<T>): T
    requires s != []
  {
    s[|s| - 1]
  }

  /** The names `get` accepts: every general alias (type names and their snake_case forms
      included) stands for the type added to it last. Exact aliases belong to constructor
      parameters and are not among them. */
  function NameIndex(aliases: map<string, seq<Type>>): (names: map<string, Type>)
    requires forall n :: n in aliases ==> aliases[n] != []
    ensures names.Keys == aliases.Keys
    ensures forall n :: n in names ==> names[n] in aliases[n]
  {
    map n | n in aliases :: Last(aliases[n])
  }

  /** The registration key a lookup key stands for, if the provider knows it. */
  function Target(resolvers: map<Type, Resolver>, names: map<string, Type>, key: Key): Option<Type> {
    match key
    case ByType(t) => if t in resolvers then Some(t) else None
    case ByName(n) => if n in names && names[n] in resolvers then Some(names[n]) else None
  }

  /** `key in provider`. */
  predicate Knows(resolvers: map<Type, Resolver>, names: map<string, Type>, key: Key) {
    Target(resolvers, names, key).Some?
  }

  /** What `get` returns, and the caches afterwards: `None` with nothing changed for an
      unknown key, otherwise the result of running the key's resolver. */
  function GetSpec(resolvers: map<Type, Resolver>, names: map<string, Type>, key: Key, c: Caches): (res: (Option<Obj>, Caches))
    ensures res.0.Some? <==> Knows(resolvers, names, key)
    ensures res.0.None? ==> res.1 == c
    ensures Grows(c, res.1) && NewEntriesFresh(c, res.1)
    ensures CachesValid(c) ==> CachesValid(res.1)
  {
    match Target(resolvers, names, key)
    case None => (None, c)
    case Some(t) =>
      var (o, c') := Instantiate(resolvers[t], c);
      (Some(o), c')
  }

  /** A string key is resolved through the type it names: on every cache state, `get` by
      a known name does what `get` by its type does. */
  lemma NameLookupIsTypeLookup(resolvers: map<Type, Resolver>, names: map<string, Type>, n: string, c: Caches)
    requires n in names
    ensures GetSpec(resolvers, names, ByName(n), c) == GetSpec(resolvers, names, ByType(names[n]), c)
  {
  }

  /** `isinstance`: when the key's resolver and the caches agree with `kind`, what `get`
      returns for a known key, new or cached, is an object of the type that resolver builds. */
  lemma GetTyped(resolvers: map<Type, Resolver>, names: map<string, Type>, key: Key, c: Caches, kind: map<Type, Type>)
    requires Knows(resolvers, names, key) && Agrees(resolvers[Target(resolvers, names, key).value], kind)
    requires CachedTyped(c, kind)
    ensures var got := GetSpec(resolvers, names, key, c).0;
      got.Some? && got.value.ofType == Builds(resolvers[Target(resolvers, names, key).value])
  {
    InstantiateTyped(resolvers[Target(resolvers, names, key).value], c, kind);
  }

  /** The provider. `resolvers` and `names` are fixed when it is built; the singleton cache
      and the id counter change as services are resolved. */
  class Services {
    const resolvers: map<Type, Resolver>
    const names: map<string, Type>
    var singletons: map<Type, Obj>
    var next: nat

    constructor(resolvers: map<Type, Resolver>, names: map<string, Type>)
      ensures this.resolvers == resolvers && this.names == names
      ensures singletons == map[] && next == 0
    {
      this.resolvers := resolvers;
      this.names := names;
      singletons := map[];
      next := 0;
    }

    /** `key in provider`: exactly the keys that `get` resolves, whatever has been cached. */
    predicate Contains(key: Key)
      ensures forall c :: Contains(key) <==> GetSpec(resolvers, names, key, c).0.Some?
    {
      Knows(resolvers, names, key)
    }

    /** `get(key, context)`: without a context a fresh one is used and dropped afterwards, so
        scoped services resolved by that call are not kept. */
    method Get(key: Key, context: GetServiceContext?) returns (r: Option<Obj>)
      modifies this, context
      ensures var scoped := if context == null then map[] else old(context.scopedServices);
        var res := GetSpec(resolvers, names, key, Caches(old(singletons), scoped, old(next)));
        && r == res.0
        && singletons == res.1.singletons
        && next == res.1.next
        && (context != null ==> context.scopedServices == res.1.scoped)
    {
      var ctx := context;
      if ctx == null {
        ctx := new GetServiceContext();
      }
      var target: Option<Type> := None;
      match key {
        case ByType(t) =>
          if t in resolvers { target := Some(t); }
        case ByName(n) =>
          if n in names && names[n] in resolvers { target := Some(names[n]); }
      }
      if target.None? {
        return None;
      }
      var o := Resolve(resolvers[target.value], ctx);
      r := Some(o);
    }

    /** Runs one resolver against the singleton cache and the context's scoped cache. */
    method Resolve(res: Resolver, context: GetServiceContext) returns (o: Obj)
      modifies this, context
      ensures (o, Caches(singletons, context.scopedServices, next))
        == Instantiate(res, old(Caches(singletons, context.scopedServices, next)))
      decreases res, 1
    {
      if res.InstanceResolver? {
        return res.instance;
      }
      var cached := Cached(res, Caches(singletons, context.scopedServices, next));
      if cached.Some? {
        return cached.value;
      }
      var args: seq<Value>;
      if res.TypeResolver? {
        args := ResolveAll(res.deps, context);
      } else {
        args := res.args;
      }
      o := Obj(Made(next), if res.TypeResolver? then res.impl else res.key, args);
      next := next + 1;
      Remember(res.key, res.lifetime, o, context);
    }

    /** Resolves a constructor's dependencies in parameter order. */
    method ResolveAll(deps: seq<Resolver>, context: GetServiceContext) returns (args: seq<Value>)
      modifies this, context
      ensures (args, Caches(singletons, context.scopedServices, next))
        == InstantiateAll(deps, old(Caches(singletons, context.scopedServices, next)))
      decreases deps, 0
    {
      ghost var c0 := Caches(singletons, context.scopedServices, next);
      args := [];
      var i := 0;
      while i < |deps|
        invariant 0 <= i <= |deps|
        invariant (args, Caches(singletons, context.scopedServices, next)) == InstantiateAll(deps[..i], c0)
      {
        assert deps[..i + 1][..i] == deps[..i];
        var child := Resolve(deps[i], context);
        args := args + [Ref(child)];
        i := i + 1;
      }
      assert deps[..|deps|] == deps;
    }

    /** Caches a newly built object where its lifetime calls for. */
    method Remember(key: Type, lifetime: Lifetime, o: Obj, context: GetServiceContext)
      modifies this, context
      ensures Caches(singletons, context.scopedServices, next)
        == Store(key, lifetime, o, old(Caches(singletons, context.scopedServices, next)))
    {
      match lifetime
      case Singleton => singletons := singletons[key := o];
      case Scoped => context.scopedServices := context.scopedServices[key := o];
      case Transient =>
    }
  }
}
