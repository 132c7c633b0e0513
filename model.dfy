/** The values the container works on: service types, registrations, the objects it
    hands out, the compiled resolvers and the error kinds. */
module Model {

  datatype Option<T> = None | Some(value: T)

  datatype Result<T, E> = Ok(value: T) | Err(error: E)

  /** A Python class. Two classes may share a `__name__`, so a class is told apart by `id`;
      `name` is what lookups by type name and by snake_case name use. */
  datatype Type = Type(id: nat, name: string)

  /** The three lifetimes of `ServiceLifeStyle`. */
  datatype Lifetime = Transient | Scoped | Singleton

  /** A constructor parameter's declared type, as signature inspection reports it. */
  datatype Annotation =
    | Unannotated
    | Plain(t: Type)
    | Union(members: seq<Type>)   // `Union[...]`, and `Optional[X]` which is `Union[X, None]`

  datatype Param = Param(name: string, annotation: Annotation)

  /** Objects. Identity is `id`: an object the application built itself (an instance handed
      to `add_instance`, say) has a `Given` id; every object the container builds, directly or
      through a factory, gets the next `Made` id from a counter. */
  datatype ObjId = Given(n: nat) | Made(n: nat)

  datatype Obj = Obj(id: ObjId, ofType: Type, args: seq<Value>)

  /** A constructor argument or attribute: `None`, plain data, or another object. */
  datatype Value = Null | Text(text: string) | Ref(obj: Obj)

  /** A factory function. `annotated` is its return annotation, if any; calling it builds a new
      object of the registered type from the arguments it passes (the factories of the test
      suite pass `None` for a peer, or a literal). */
  datatype Factory = Factory(annotated: Option<Type>, args: seq<Value>)

  /** How a registration builds its service: by calling a concrete type's constructor, whose
      parameters are given in declaration order, by calling a factory, or by returning a
      pre-built instance. */
  datatype Strategy =
    | Concrete(impl: Type, params: seq<Param>)
    | ByFactory(factory: Factory)
    | Instance(instance: Obj)

  datatype Registration = Registration(lifetime: Lifetime, strategy: Strategy)

  /** The registration table of a `ServiceCollection`: the keys in registration order, the
      registration of each key, the general aliases (every name bound to the types it may
      mean, in the order they were added) and the exact aliases set by `set_alias`. */
  datatype Table = Table(
    order: seq<Type>,
    regs: map<Type, Registration>,
    aliases: map<string, seq<Type>>,
    exact: map<string, Type>)
  {
    /** Every key is listed once in `order`, and every alias names at least one type. */
    ghost predicate Valid() {
      && (forall t :: t in regs <==> t in order)
      && (forall i, j :: 0 <= i < j < |order| ==> order[i] != order[j])
      && (forall n :: n in aliases ==> aliases[n] != [])
    }
  }

  /** What `add_*` reports: `OverridingServiceException` for a key that is already
      registered, `MissingTypeException` for a factory whose type cannot be told. */
  datatype RegistrationError =
    | OverridingService(key: Type)
    | MissingType

  /** What `build_provider` reports. A parameter error names the parameter and the type whose
      constructor declares it; a circular dependency carries the cycle, first type repeated
      at the end. */
  datatype BuildError =
    | CircularDependency(cycle: seq<Type>)
    | UnsupportedUnionType(param: string, owner: Type)
    | CannotResolveParameter(param: string, owner: Type)
    | AmbiguousAlias(param: string, owner: Type)

  /** A compiled resolver: a tree that mirrors the dependency graph below one registration. */
  datatype Resolver =
    | InstanceResolver(instance: Obj)
    | FactoryResolver(key: Type, lifetime: Lifetime, args: seq<Value>)
    | TypeResolver(key: Type, lifetime: Lifetime, impl: Type, deps: seq<Resolver>)

  /** A lookup key for `get`: a type, or a string (type name, snake_case name or alias). */
  datatype Key = ByType(t: Type) | ByName(name: string)
}
