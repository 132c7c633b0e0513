# rodi: a model of the dependency-injection core

rodi is an inversion-of-control container for Python. A `ServiceCollection` collects
registrations, and each registration binds a key (a class) to a lifetime and to a way of
building the service. There are three ways: a concrete class whose constructor parameters are
resolved recursively, a factory function, or a pre-built instance. `build_provider`
compiles every registration into a resolver. It refuses union-typed parameters and circular
dependencies. The resulting provider answers `get(key, context)` by type, by class name, by
snake_case name or by alias:
- a singleton is built once per provider;
- a scoped service is built once per `GetServiceContext`;
- a transient service is built on every call.

The model is written in Dafny. It has these modules:

- `Names` (names.dfy): `to_standard_param_name`, the CamelCase to snake_case conversion. It
  works as two regular-expression passes, then lower-casing, then folding a leading `i_` into
  `i`. Each pass is written as a left-to-right scan.
- `NameExamples` (name_examples.dfy): the five conversions the test suite pins, and the
  snake_case name of 'CatsController', each derived from the general lemmas about the passes.
- `Model` (model.dfy): the data. Classes are `Type(id, name)`. Objects carry an identity
  `ObjId`: `Given(n)` for objects the application built, and `Made(n)` for objects the
  container built, with `n` drawn from a counter. Object identity (`is`) is equality of
  these ids, and `Sessions.IsNot` states `a is not b` for two results of `get`. The model
  also holds registrations, the registration table, resolvers and the error kinds.
- `Resolution` (resolution.dfy): the resolver builder. It is a grey/black depth-first search,
  written as mutually recursive pure functions. It is proved exact:
  - a reported circular dependency is a real cycle of the dependency graph;
  - a successful build means the graph is acyclic;
  - when every parameter resolves, the build succeeds exactly when the graph is acyclic;
  - factory and instance registrations never lie on a cycle.
- `Lifetimes` (lifetimes.dfy): instantiating a resolver tree against the singleton cache,
  the scoped cache of a context, and the identity counter. Dependencies are built in
  parameter order, and every object handed out has the type its resolver builds
  (`isinstance`).
- `Provider` (provider.dfy): the provider class `Services`, with its singleton cache, `Get`
  and the recursive `Resolve`. It also holds the `GetServiceContext` class, whose scoped map
  `Get` updates in place. `Get` is proved equal to the pure `GetSpec`.
- `Sessions` (sessions.dfy): any sequence of `get` calls, each with or without a context.
  The lifetime promises are proved for every such sequence.
- `Collection` (collection.dfy): the `ServiceCollection` class (`add_*`, `add_alias`,
  `set_alias`, `in`, `build_provider`). The registering methods are proved against the pure
  `Register` function. `add_alias` and `set_alias` are proved to change only the alias maps,
  and `build_provider` to return what `Build` compiles together with the string index
  `NameIndex` of the aliases.
- `Scenarios` (scenarios.dfy): the test suite's own situations, derived from the general
  theorems.

The constructors of the test suite's example classes are not part of this model.
scenarios.dfy states the parameter lists it assumes for them.

## Model

| member | source | states |
|---|---|---|
| NameExamples.StandardNameExamples | rodi/tests/test_services.py:57-66 | 'CamelCase', 'HTTPResponse', 'ICatsRepository', 'Cat' and 'UFO' become 'camel_case', 'http_response', 'icats_repository', 'cat' and 'ufo' |
| Names.ToStandardParamName | rodi/tests/test_services.py:57-66 | the canonical name of any string has no upper-case letter |
| Names.StandardNameKeepsLetters | rodi/tests/test_services.py:64-66 | the conversion only inserts or drops underscores: with underscores removed, the result is the lower-cased input without its underscores |
| Names.FirstCapUnchanged | rodi/tests/test_services.py:57-66 | where `(.)([A-Z][a-z]+)` matches nowhere, the first pass returns the name unchanged (as for 'Cat' and 'UFO') |
| Names.AllCapUnchanged | rodi/tests/test_services.py:57-66 | where `([a-z0-9])([A-Z])` matches nowhere, the second pass returns the name unchanged |
| Names.FirstCapOneMatch | rodi/tests/test_services.py:57-66 | a name with a single match of the first pattern, at `i`, gets exactly one underscore, right after its character `i` (as 'HTTPResponse' gets one before 'Response') |
| Names.AllCapOneMatch | rodi/tests/test_services.py:57-66 | a name with a single match of the second pattern, at `i`, gets exactly one underscore, right after its character `i` |
| Names.SnakeNameIsFixed | rodi/tests/test_services.py:57-66 | a name that is already snake_case (no capitals, no leading `i_`) is its own canonical name |
| Collection.Register | rodi/tests/test_services.py:110-127 | a key already present is refused with `OverridingService(key)`, and the key is named; otherwise the key is appended and its registration added; the alias names are the old ones plus the class name and the snake_case name; each of those two names keeps its earlier targets and gains the key at the end if it was not there, so a name that was unused stands for the key alone; every other name and every exact alias is unchanged, and the table stays well formed |
| Collection.AddTwoAliases | rodi/tests/test_services.py:434-445 | adding one key under two names adds exactly those names, keeps every earlier target list as a prefix and leaves every other name as it was |
| Collection.TwoAliasesGain | rodi/tests/test_services.py:434-445 | after adding one key under two names, each name has its earlier targets plus the key, or the key alone if it was unused, even when the two names coincide |
| Collection.RegisterKeepsOtherNames | rodi/tests/test_services.py:434-445 | registering a key does not add, remove or redirect any string name other than the key's class name and snake_case name |
| Collection.RegisteringTwiceIsRefused | rodi/tests/test_services.py:110-127 | after a first registration of a key, a second one under any lifetime or strategy is refused with the key, and the first registration stays |
| Collection.FactoryKey | rodi/tests/test_services.py:455-551 | a factory registers under the explicit type if given, else under its return annotation; with neither, `MissingType` |
| Collection.AddAliasTo | rodi/tests/test_services.py:396-430 | adding an alias keeps all other names; a name that was unused stands for the new target alone, and a used one keeps its targets and gains the new one at the end unless it was there |
| Collection.RegisteredNamesReachKey | rodi/tests/test_services.py:434-445 | after registering a new key, the provider's string index sends both its class name and its snake_case name to that key, provided the name meant nothing before |
| Collection.AliasKeepsOtherNames | rodi/tests/test_services.py:396-430 | `add_alias` of one name leaves the string index of every other name as it was |
| Collection.NewAliasReachesKey | rodi/tests/test_services.py:434-445 | a name that meant nothing before `add_alias(name, key)` is sent to `key` by the string index |
| Collection.AliasIndex | rodi/tests/test_services.py:434-445 | after `add_alias(name, key)` on a fresh name, the string index sends `name` to `key` and every other known name where it went before |
| Collection.AliasResolvesParameter | rodi/tests/test_services.py:396-430 | after `add_alias(n, t)` on an unused name that `set_alias` did not bind, an unannotated constructor parameter called `n` resolves to `t` |
| Collection.RegisteredNameResolvesParameter | rodi/tests/test_services.py:339-354 | after registering a key, an unannotated constructor parameter named after its class, or after its snake_case form, resolves to that key when the name was unused and not bound by `set_alias` |
| Collection.ServiceCollection.constructor | rodi/tests/test_services.py:46-53 | a new collection has an empty, well-formed table |
| Collection.ServiceCollection.Contains | rodi/tests/test_services.py:355-360 | `key in services` holds exactly for the keys in the registration order |
| Collection.ServiceCollection.Bind | rodi/tests/test_services.py:110-127 | the table after `_bind` is the one `Register` gives; on a duplicate it reports the error and leaves the table unchanged; afterwards the key is in the collection and membership of every other key is as before |
| Collection.ServiceCollection.AddType | rodi/tests/test_services.py:46-53 | `add_singleton`/`add_transient`/`add_scoped` and the `add_exact_*` forms register the base key with the implementation's constructor, as `Register` says; afterwards the base key is in the collection and membership of every other key is as before |
| Collection.ServiceCollection.AddInstance | rodi/tests/test_services.py:215-221 | an instance is a singleton registered under `declared_class` when given, else under its own type |
| Collection.ServiceCollection.AddByFactory | rodi/tests/test_services.py:537-551 | a factory with no type is refused with `MissingType` and changes nothing; otherwise it is registered under `FactoryKey` |
| Collection.ServiceCollection.AddAlias | rodi/tests/test_services.py:396-430 | `add_alias` adds one more target to the name and changes nothing else |
| Collection.ServiceCollection.SetAlias | rodi/tests/test_services.py:375-393 | `set_alias` binds the parameter name exactly to the key and changes nothing else |
| Collection.ServiceCollection.BuildProvider | rodi/tests/test_services.py:130-137 | on a build error it returns that error; otherwise a new provider with the compiled resolvers, the string index of the general aliases (exact aliases are not string keys), and empty caches |
| Resolution.ParamTarget | rodi/tests/test_services.py:224-232 | a union annotation, `Optional` included, is refused with `UnsupportedUnionType` naming the parameter and its owner; an annotated parameter resolves exactly when its type is registered, and then to that type; any resolved parameter targets a registered key; a failed one names the parameter and its owner and is never a circular dependency |
| Resolution.Visit | rodi/tests/test_services.py:130-157 | visiting a type only adds finished types, never touches types in progress, and records the type's resolver |
| Resolution.Build | rodi/tests/test_services.py:246-259 | a successful build has a resolver for exactly the registered keys |
| Resolution.BuildSound | rodi/tests/test_services.py:130-259 | a successful build compiles every registration as its strategy says; a failed one is explained by a cycle or by a bad parameter |
| Resolution.CircularDependencyIsACycle | rodi/tests/test_services.py:130-157 | a reported circular dependency is a cycle of the dependency graph |
| Resolution.OtherErrorsNameAParameter | rodi/tests/test_services.py:224-232 | any other build error is the error of some constructor parameter |
| Resolution.BuildOkMeansAcyclic | rodi/tests/test_services.py:246-259 | a successful build means no cycle and every parameter resolved |
| Resolution.BuildSucceedsIffAcyclic | rodi/tests/test_services.py:130-259 | when every parameter resolves, the build succeeds if and only if the graph is acyclic, and fails only with a circular dependency |
| Resolution.CyclesAvoidLeaves | rodi/tests/test_services.py:160-212 | every type on a cycle is a constructor registration, so factories and instances break cycles |
| Resolution.UnionParameterFailsBuild | rodi/tests/test_services.py:224-232 | any table with a registered constructor that has a union-typed parameter fails to build |
| Resolution.RankedIsAcyclic | rodi/tests/test_services.py:246-259 | a graph whose edges all go down a rank has no cycle |
| Resolution.BuiltResolversMatchRegistrations | rodi/tests/test_services.py:93-107 | after a build, an instance has its instance resolver, a factory its factory resolver, and a constructor a resolver holding, for each parameter, the resolver of that parameter's target |
| Resolution.BuiltResolverAgrees | rodi/tests/test_services.py:246-259 | every resolver of a successful build, down its whole tree, builds under each key objects of the type that key is registered with: a constructor's implementation, a factory's registered type or an instance's own type |
| Resolution.ExactAliasWins | rodi/tests/test_services.py:375-393 | an exact alias decides an unannotated parameter whatever general aliases say |
| Resolution.NameResolvesParameter | rodi/tests/test_services.py:327-354 | without an exact alias, an unannotated parameter resolves to the single type its name stands for |
| Lifetimes.Instantiate | rodi/tests/test_services.py:274-324 | an instance resolver returns the instance; a cached singleton or scoped service comes from its cache; anything else is a new object whose id was never issued before, is cached under its lifetime, and is built from the factory's arguments or the instantiated dependencies; caches only grow and new entries are new objects |
| Lifetimes.InstantiateAll | rodi/tests/test_services.py:554-583 | there is one argument per dependency, each an object reference; an instance dependency is the instance, and an argument whose service was cached when the list started is that cached object |
| Lifetimes.InstantiateAllInOrder | rodi/tests/test_services.py:93-107 | dependencies are instantiated in parameter order: argument `j` is what running dependency `j` gives on the caches the earlier arguments left, and those caches are passed on |
| Lifetimes.InstantiateTyped | rodi/tests/test_services.py:93-107 | a resolver tree that agrees with a key-to-type assignment, run on caches typed by it, hands out an object of the type the resolver builds, new or cached, and keeps the caches typed |
| Lifetimes.InstantiateAllTyped | rodi/tests/test_services.py:93-107 | under the same assumption, each argument is an object of the type its own dependency's resolver builds, and the caches stay typed |
| Provider.NameIndex | rodi/tests/test_services.py:396-445 | the string keys are exactly the general alias names, and each name stands for one of the types added under it |
| Provider.GetSpec | rodi/tests/test_services.py:448-452 | `get` finds something if and only if the key is in the provider; an unknown key gives `None` and changes nothing |
| Provider.NameLookupIsTypeLookup | rodi/tests/test_services.py:434-445 | `get` of a known string name gives exactly what `get` of the type it stands for gives, cached state included |
| Provider.GetTyped | rodi/tests/test_services.py:434-445 | with the key's resolver and the caches typed alike, `get` of a known key returns an object of the type that resolver builds |
| Provider.Services.Contains | rodi/tests/test_services.py:363-372 | `key in provider` holds exactly when `get` of the key finds something, whatever has been cached |
| Provider.GetServiceContext.constructor | rodi/tests/test_services.py:279-282 | a new context has no scoped services |
| Provider.Services.constructor | rodi/tests/test_services.py:365-372 | a new provider holds the compiled resolvers and names, with no singleton built |
| Provider.Services.Get | rodi/tests/test_services.py:274-324 | the result and the new singletons, counter and context map are those `GetSpec` gives; without a context, a fresh one is used and discarded |
| Provider.Services.Resolve | rodi/tests/test_services.py:93-107 | running a resolver in place gives the object and caches that `Instantiate` gives |
| Provider.Services.ResolveAll | rodi/tests/test_services.py:93-107 | the dependency loop gives the arguments and caches that `InstantiateAll` gives |
| Provider.Services.Remember | rodi/tests/test_services.py:274-324 | a new object goes into the singleton cache, the context's cache, or nowhere, by lifetime |
| Sessions.Step | rodi/tests/test_services.py:448-452 | a call returns something exactly when its key is in the provider, and a call for an unknown key issues no object and builds no singleton |
| Sessions.RunIsRun | rodi/tests/test_services.py:274-324 | any sequence of calls has a run: a trace of states from the given one in which each call returns, and leaves, what it does alone in the state the calls before it left |
| Sessions.StepGrows | rodi/tests/test_services.py:274-324 | a call loses and replaces nothing cached in the provider or any context |
| Sessions.TraceGrows | rodi/tests/test_services.py:274-324 | between any two points of a run, nothing cached in the provider or any context is lost or replaced |
| Sessions.SingletonCachedAfter | rodi/tests/test_services.py:274-288 | once a singleton has been returned, the provider caches that very object |
| Sessions.ResultIssued | rodi/tests/test_services.py:80-90 | what a call for a built service returns is an object the container has issued |
| Sessions.InstanceIsReturned | rodi/tests/test_services.py:69-77 | every `get` of a registered instance returns that instance |
| Sessions.SingletonIsOneInstance | rodi/tests/test_services.py:274-288 | every `get` of a singleton, in any context or none, returns the same object |
| Sessions.ScopedIsOnePerContext | rodi/tests/test_services.py:310-324 | within one context, every `get` of a scoped service returns the same object |
| Sessions.ScopedWithoutContextIsNew | rodi/tests/test_services.py:310-324 | a scoped service got without a context `is not` what any other call for it returns, before or after: both are objects and their ids differ |
| Sessions.StepKeepsApart | rodi/tests/test_services.py:310-324 | if no two contexts cache objects with the same id, one more call keeps it so |
| Sessions.TraceApart | rodi/tests/test_services.py:310-324 | starting from contexts that share no object id, no two contexts share one at any point of a run |
| Sessions.ScopedDiffersAcrossContexts | rodi/tests/test_services.py:310-324 | a scoped service got in one context `is not` one got in another: both are objects and their ids differ |
| Sessions.ContextlessNeverCached | rodi/tests/test_services.py:310-324 | no context ever caches what a context-less call built |
| Sessions.StepTyped | rodi/tests/test_services.py:93-107 | with resolvers that agree with a key-to-type assignment, a call for a known key returns an object of the type its resolver builds, and every cache stays typed |
| Sessions.TraceTyped | rodi/tests/test_services.py:93-107 | on a run from a typed state, every state of the run is typed |
| Sessions.ResultTyped | rodi/tests/test_services.py:93-107 | `isinstance`: in any run from a typed state, what a call for a known key returns, new or cached, has the type its resolver builds |
| Sessions.TransientIsAlwaysNew | rodi/tests/test_services.py:291-307 | for any two calls for transient services, one `is not` the other: both are objects and their ids differ |
| Sessions.NewWhenNotCached | rodi/tests/test_services.py:80-90 | a service not cached when asked for is a newly built object |
| Sessions.InjectedSingletonIsShared | rodi/tests/test_services.py:554-566 | a singleton injected into a service built after it was first returned is that very object |
| Scenarios.CircleIsCircular | rodi/tests/test_services.py:130-137 | `ICircle` served by a `Circle` that needs an `ICircle` fails with a circular dependency of length at least two that contains `ICircle` and nothing else |
| Scenarios.JingJangIsCircular | rodi/tests/test_services.py:140-146 | Jing and Jang needing each other fail with a circular dependency |
| Scenarios.DeepCycleIsCircular | rodi/tests/test_services.py:149-157 | W, X, Y, Z in a loop fail with a circular dependency |
| Scenarios.NestedCycleIsCircular | rodi/tests/test_services.py:235-243 | TrickyCircle needing a self-dependent circle fails with a circular dependency of length at least two that contains `ICircle` and nothing else |
| Scenarios.DiamondEdges | rodi/tests/test_services.py:246-259 | the only edges are B to A, C to A and C to B |
| Scenarios.DiamondBuilds | rodi/tests/test_services.py:246-259 | the diamond builds, and C's resolver holds the resolvers of A and B, B's that of A |
| Scenarios.DiamondObjects | rodi/tests/test_services.py:246-259 | the first `get(C)` of the diamond's provider returns a C whose `a` is an A and whose `b` is a B, with `b.a` an A |
| Scenarios.DiamondObjectsFrom | rodi/tests/test_services.py:246-259 | transient resolvers of the diamond's shape that agree with a key-to-type assignment build, on empty caches, a C holding an A and a B that holds an A |
| Scenarios.FactoryChainEdges | rodi/tests/test_services.py:160-179 | with Z from a factory, every parameter resolves and the only edges are W to X, X to Y and Y to Z |
| Scenarios.FactoryBreaksDeepCycle | rodi/tests/test_services.py:160-179 | with Z from a factory the loop builds, and Z's resolver passes `None` for W |
| Scenarios.FactoryBreaksCycle | rodi/tests/test_services.py:182-195 | with Jang from a factory the build succeeds, and Jing's resolver holds Jang's factory resolver |
| Scenarios.ChainObjectsFrom | rodi/tests/test_services.py:160-179 | transient resolvers shaped like the chain W, X, Y with Z from a factory passing `None` build, on any caches, a W whose x is an X, x.y a Y, x.y.z a Z and x.y.z.w `None` |
| Scenarios.FactoryChainObjects | rodi/tests/test_services.py:160-179 | `get(W)` on the chain's provider, whatever its caches hold, returns a W with `w.x` an X, `w.x.y` a Y, `w.x.y.z` a Z and `w.x.y.z.w` `None` |
| Scenarios.FactoryCycleObjects | rodi/tests/test_services.py:182-195 | `get(Jing)` on the Jing and Jang provider, whatever its caches hold, returns a Jing whose jang is a Jang whose jing is `None` |
| Scenarios.InstanceBreaksCycle | rodi/tests/test_services.py:198-212 | a shape needing a registered circle instance is handed that instance |
| Scenarios.OptionalParameterIsRefused | rodi/tests/test_services.py:224-232 | an `Optional[Foo]` parameter fails the build with `UnsupportedUnionType` naming `foo` |
| Scenarios.SingletonServices | rodi/tests/test_services.py:274-288 | three calls in a context and one without return one object |
| Scenarios.TransientServices | rodi/tests/test_services.py:291-307 | the four calls return four objects, no one of which `is` another |
| Scenarios.ScopedServices | rodi/tests/test_services.py:310-324 | three calls in a context return one object, and the call without a context returns an object that `is not` it |
| Scenarios.ScopedPerContext | rodi/tests/test_services.py:310-324 | calls alternating between two contexts return one object per context, and the object of one context `is not` that of the other |
| Scenarios.ScopedFactory | rodi/tests/test_services.py:486-493 | a scoped factory's object got without a context `is not` the one got in a later context, which is the same on every call there |
| Scenarios.SingletonByProvider | rodi/tests/test_services.py:554-566 | the transient R got after singleton P holds that P |
| Scenarios.BothSingletons | rodi/tests/test_services.py:569-583 | the singleton R got after singleton P holds that P, and R is the same on a second call |
| Scenarios.ServiceCollectionContains | rodi/tests/test_services.py:355-360 | after `add_exact_transient(Foo)`, `Foo in services` and `Cat not in services` |
| Scenarios.ServiceProviderContains | rodi/tests/test_services.py:363-372 | a provider built from `add_exact_transient(IdGetter)` holds `IdGetter` and not `Foo` |
| NameExamples.CatsControllerName | rodi/tests/test_services.py:434-445 | 'CatsController' becomes 'cats_controller' |
| Scenarios.CatsControllerNames | rodi/tests/test_services.py:434-445 | after registering CatsController and then two keys whose names differ from 'CatsController', 'cats_controller' and 'k', the index sends 'CatsController' and 'cats_controller' to CatsController, and 'k' is not yet a name |
| Scenarios.NamedGetIsImpl | rodi/tests/test_services.py:434-445 | on a provider built from a table, `get` by a name that stands for a constructor registration of a class by itself gives exactly what `get` of that class gives, and returns an instance of that class |
| Scenarios.GetByNameOrAlias | rodi/tests/test_services.py:434-445 | after the cats registrations, `add_alias('k', CatsController)` and `build_provider`, each of 'CatsController', 'cats_controller' and 'k' stands for CatsController, and `get` of it gives exactly what `get(CatsController)` gives and returns a CatsController |
| Scenarios.MissingServiceIsNone | rodi/tests/test_services.py:448-452 | an empty provider returns `None` for 'not_existing' and changes nothing |

## Left out

- The implementation module `rodi/__init__.py` is not part of this model. Behaviour follows the test suite `rodi/tests/test_services.py`, and where the suite says nothing, the model does what rodi does: it refuses a second registration of a key, gives an exact alias precedence for the parameter it names, and compiles resolvers when the provider is built. Where such knowledge and the tests disagree, the tests win: any union annotation is refused, `Optional[X]` included.
- Python reflection is not modelled. Constructor signatures are given as lists of `Param(name, annotation)`, and a factory as its optional return annotation.
- `*args`/`**kwargs` parameters are not modelled.
- Factories do not run. A factory is modelled as building a new object of its registered type from fixed arguments, which is how the suite's factories behave. A factory that calls back into the provider is not modelled.
- `GetServiceContext` is a plain object with a scoped map. Its use as a context manager (`with`) adds nothing to the behaviour and is not modelled.
- Exception messages are not modelled. Each error carries the key, the parameter and owner, or the cycle that rodi's message names.
- Strict mode is not modelled. The model assumes it is off, so every registration adds the class-name and snake_case aliases; no test in the suite turns it on.
- Names.ToStandardParamName: `str.lower()` is modelled for ASCII letters only.
- NameExamples.StandardNameExamples: where underscores go is stated in general only for names with at most one match of each pattern (Names.FirstCapOneMatch, Names.AllCapOneMatch), and through the five conversions the suite pins. For any name, the general lemmas say the result is lower-case and keeps the letters.
- Provider.NameIndex: when a name stands for several types, the model sends a string `get` to the most recently added one. This is an assumption: rodi's choice in that case is not pinned by any test. The same ambiguity is a build error for an unannotated parameter (`AmbiguousAlias`), which the suite does not exercise. Exact aliases (`set_alias`) are not string keys of the provider: they apply to constructor parameters only.
- Resolution.ParamTarget: an unannotated parameter is looked up in the exact and general aliases by its name as written, not by its snake_case form. The two lookups agree for a name with no capital letter that does not start with `i_` (`Names.SnakeNameIsFixed`), as every parameter of the suite is; a parameter written `catsController` or `i_cats_repository` would be resolved under that spelling only.
- Resolution.ParamTarget: an exact alias is consulted only for an unannotated parameter. An annotated parameter always resolves by its declared type. rodi gives an exact alias precedence over the declared type, but the suite's exact-alias test (rodi/tests/test_services.py:375-393) uses unannotated parameters only, so the model does not decide between an exact alias and an annotation.
- Provider.Services.Get: a string key whose alias points at an unregistered type gives `None`. It does not raise an alias-configuration error, because the suite never exercises that case.
- Collection.ServiceCollection.SetAlias: a second `set_alias` of the same name replaces the first rather than raising, because no test pins this case.
- Collection.ServiceCollection.AddType: the three lifetime shorthands (`add_singleton`, `add_transient`, `add_scoped`) and the three `add_exact_*` forms are one method taking the lifetime, with the implementation optional.
- Sessions.ResultTyped: the type is stated for the returned object itself. The types of its constructor arguments, and of theirs, are proved for the first `get` of a new provider (Lifetimes.InstantiateAllTyped, Scenarios.DiamondObjects). For an object taken from a cache, they rest on the object having been built that way earlier, which the run invariant does not record.
- Scenarios.GetByNameOrAlias: the result is proved to be a CatsController; that its `cat_request_handler` is a GetCatRequestHandler holding a FooDBCatsRepository is not stated, because the constructors of the cats example's classes are defined in `rodi/tests/examples.py`, which is not part of this model, so their registrations are left abstract.
- Thread safety and concurrent use of a provider are not modelled. The suite is single-threaded.
