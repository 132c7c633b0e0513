/** `ServiceCollection`: the registration table that `add_*`, `add_alias` and `set_alias`
    fill in, and `build_provider`, which compiles it into a provider. */
module Collection {
  import opened Model
  import Names
  import Resolution
  import Provider

  /** Adds `t` to the types `name` may stand for. The types of a name form a set: a type
      already there is not added again. */
  function AddAliasTo(aliases: map<string, seq<Type>>, name: string, t: Type): (r: map<string, seq<Type>>)
    ensures r.Keys == aliases.Keys + {name}
    ensures forall n :: n in aliases && n != name ==> r[n] == aliases[n]
    ensures name in aliases ==> aliases[name] <= r[name]
    ensures name !in aliases ==> r[name] == [t]
    ensures name in aliases ==> r[name] == aliases[name] || r[name] == aliases[name] + [t]
    ensures t in r[name] && r[name] != []
    ensures (forall n :: n in aliases ==> aliases[n] != []) ==> forall n :: n in r ==> r[n] != []
  {
    if name in aliases && t in aliases[name] then aliases
    else aliases[name := (if name in aliases then aliases[name] else []) + [t]]
  }

  /** `r` gives `n` the targets `aliases` gave it, plus `t` at the end unless it was there:
      a name that was unused stands for `t` alone. */
  ghost predicate GainsTarget(aliases: map<string, seq<Type>>, r: map<string, seq<Type>>, n: string, t: Type) {
    n in r && t in r[n]
    && (n !in aliases ==> r[n] == [t])
    && (n in aliases ==> r[n] == aliases[n] || r[n] == aliases[n] + [t])
  }

  /** Registering `reg` under `key`: refused when `key` is taken; otherwise `key` is
      appended to the registration order and becomes reachable under its class name and the
      snake_case form of it. */
  function Register(tab: Table, key: Type, reg: Registration): (r: Result<Table, RegistrationError>)
    requires tab.Valid()
    ensures key in tab.regs <==> r.Err?
    ensures r.Err? ==> r.error == OverridingService(key)
    ensures r.Ok? ==> r.value.Valid()
    ensures r.Ok? ==> r.value.regs == tab.regs[key := reg] && r.value.order == tab.order + [key]
    ensures r.Ok? ==> r.value.exact == tab.exact
    ensures r.Ok? ==>
      && GainsTarget(tab.aliases, r.value.aliases, key.name, key)
      && GainsTarget(tab.aliases, r.value.aliases, Names.ToStandardParamName(key.name), key)
    ensures r.Ok? ==> r.value.aliases.Keys == tab.aliases.Keys + {key.name, Names.ToStandardParamName(key.name)}
    ensures r.Ok? ==> forall n :: n in tab.aliases ==> tab.aliases[n] <= r.value.aliases[n]
    ensures r.Ok? ==> forall n :: n in tab.aliases && n != key.name && n != Names.ToStandardParamName(key.name) ==>
      r.value.aliases[n] == tab.aliases[n]
  {
    if key in tab.regs then Err(OverridingService(key))
    else
      var snake := Names.ToStandardParamName(key.name);
      var aliases' := AddAliasTo(AddAliasTo(tab.aliases, key.name, key), snake, key);
      AddTwoAliases(tab.aliases, key.name, snake, key);
      AppendKeepsValid(tab, key, reg, aliases');
      Ok(Table(tab.order + [key], tab.regs[key := reg], aliases', tab.exact))
  }

  /** Adding `t` under two names keeps every earlier target and touches no other name. */
  lemma AddTwoAliases(aliases: map<string, seq<Type>>, first: string, second: string, t: Type)
    ensures var r := AddAliasTo(AddAliasTo(aliases, first, t), second, t);
      && r.Keys == aliases.Keys + {first, second}
      && GainsTarget(aliases, r, first, t) && GainsTarget(aliases, r, second, t)
      && (forall n :: n in aliases ==> aliases[n] <= r[n])
      && (forall n :: n in aliases && n != first && n != second ==> r[n] == aliases[n])
      && ((forall n :: n in aliases ==> aliases[n] != []) ==> forall n :: n in r ==> r[n] != [])
  {
    var once := AddAliasTo(aliases, first, t);
    var r := AddAliasTo(once, second, t);
    forall n | n in aliases
      ensures aliases[n] <= r[n]
    {
      assert aliases[n] <= once[n];
    }
    TwoAliasesGain(aliases, first, second, t);
  }

  /** After adding `t` under two names, each of them gains `t` and nothing else. */
  lemma TwoAliasesGain(aliases: map<string, seq<Type>>, first: string, second: string, t: Type)
    ensures var r := AddAliasTo(AddAliasTo(aliases, first, t), second, t);
      GainsTarget(aliases, r, first, t) && GainsTarget(aliases, r, second, t)
  {
    var once := AddAliasTo(aliases, first, t);
    var r := AddAliasTo(once, second, t);
    if first == second {
      assert r == once;
    } else {
      assert r[first] == once[first];
    }
  }

  /** Appending a key that is not yet registered keeps the table well formed. */
  lemma AppendKeepsValid(tab: Table, key: Type, reg: Registration, aliases: map<string, seq<Type>>)
    requires tab.Valid() && key !in tab.regs
    requires forall n :: n in aliases ==> aliases[n] != []
    ensures Table(tab.order + [key], tab.regs[key := reg], aliases, tab.exact).Valid()
  {
    assert key !in tab.order;
  }

  /** The key of a factory registration: the type given explicitly, else the factory's return
      annotation; with neither, `MissingTypeException`. */
  function FactoryKey(f: Factory, returnType: Option<Type>): (r: Result<Type, RegistrationError>)
    ensures r.Err? <==> returnType.None? && f.annotated.None?
    ensures r.Err? ==> r.error == MissingType
    ensures returnType.Some? ==> r == Ok(returnType.value)
    ensures returnType.None? && f.annotated.Some? ==> r == Ok(f.annotated.value)
  {
    if returnType.Some? then Ok(returnType.value)
    else if f.annotated.Some? then Ok(f.annotated.value)
    else Err(MissingType)
  }

  /** A key once registered keeps its registration: a second registration under it, whatever
      its lifetime or strategy, is refused and names the key. */
  lemma RegisteringTwiceIsRefused(tab: Table, key: Type, first: Registration, second: Registration)
    requires tab.Valid() && key !in tab.regs
    ensures Register(tab, key, first).Ok?
    ensures Register(Register(tab, key, first).value, key, second) == Err(OverridingService(key))
    ensures Register(tab, key, first).value.regs[key] == first
  {
  }

  /** A name that meant nothing before a registration means only the registered key after
      it, so the provider's string lookup by class name or snake_case name reaches it. */
  lemma RegisteredNamesReachKey(tab: Table, key: Type, reg: Registration, name: string)
    requires tab.Valid() && key !in tab.regs && name !in tab.aliases
    requires name == key.name || name == Names.ToStandardParamName(key.name)
    ensures var r := Register(tab, key, reg);
      r.Ok? && Provider.NameIndex(r.value.aliases)[name] == key
  {
    var once := AddAliasTo(tab.aliases, key.name, key);
    var twice := AddAliasTo(once, Names.ToStandardParamName(key.name), key);
    if name == key.name {
      assert once[name] == [key];
    } else {
      assert name !in once;
    }
    assert twice[name] == [key];
  }

  /** Registering a key leaves every other name as it was: unused if it was unused, and
      standing for the same type otherwise. */
  lemma RegisterKeepsOtherNames(tab: Table, key: Type, reg: Registration, name: string)
    requires tab.Valid() && key !in tab.regs
    requires name != key.name && name != Names.ToStandardParamName(key.name)
    ensures var r := Register(tab, key, reg);
      && r.Ok? && (name in r.value.aliases <==> name in tab.aliases)
      && (name in tab.aliases ==> Provider.NameIndex(r.value.aliases)[name] == Provider.NameIndex(tab.aliases)[name])
  {
  }

  /** `add_alias` leaves what every other name stands for as it was. */
  lemma AliasKeepsOtherNames(aliases: map<string, seq<Type>>, name: string, t: Type, other: string)
    requires forall n :: n in aliases ==> aliases[n] != []
    requires other in aliases && other != name
    ensures Provider.NameIndex(AddAliasTo(aliases, name, t))[other] == Provider.NameIndex(aliases)[other]
  {
  }

  /** A name used for the first time by `add_alias` stands for the aliased type. */
  lemma NewAliasReachesKey(aliases: map<string, seq<Type>>, name: string, t: Type)
    requires forall n :: n in aliases ==> aliases[n] != []
    requires name !in aliases
    ensures Provider.NameIndex(AddAliasTo(aliases, name, t))[name] == t
  {
  }

  /** A name that meant nothing before `add_alias(n, t)`, and that `set_alias` did not bind,
      resolves an unannotated constructor parameter called `n` to `t`. */
  lemma AliasResolvesParameter(tab: Table, n: string, t: Type, owner: Type)
    requires n !in tab.aliases && n !in tab.exact && t in tab.regs
    ensures Resolution.ParamTarget(tab.(aliases := AddAliasTo(tab.aliases, n, t)), owner, Param(n, Unannotated)) == Ok(t)
  {
    Resolution.NameResolvesParameter(tab.(aliases := AddAliasTo(tab.aliases, n, t)), owner, Param(n, Unannotated), t);
  }

  /** After registering `key`, an unannotated constructor parameter named after the class,
      or after its snake_case form, resolves to `key`, provided that name meant nothing
      before and `set_alias` did not bind it. */
  lemma RegisteredNameResolvesParameter(tab: Table, key: Type, reg: Registration, owner: Type, n: string)
    requires tab.Valid() && key !in tab.regs
    requires n == key.name || n == Names.ToStandardParamName(key.name)
    requires n !in tab.aliases && n !in tab.exact
    ensures var r := Register(tab, key, reg);
      r.Ok? && Resolution.ParamTarget(r.value, owner, Param(n, Unannotated)) == Ok(key)
  {
    var r := Register(tab, key, reg);
    assert GainsTarget(tab.aliases, r.value.aliases, n, key);
    Resolution.NameResolvesParameter(r.value, owner, Param(n, Unannotated), key);
  }

  /** What a name `n` stands for after `add_alias(name, t)`: `t` when `n` is `name` and was
      unused, what it stood for before when it is another name. */
  lemma AliasIndex(aliases: map<string, seq<Type>>, name: string, t: Type, n: string)
    requires forall m :: m in aliases ==> aliases[m] != []
    requires if n == name then name !in aliases else n in aliases
    ensures var r := AddAliasTo(aliases, name, t);
      && (forall m :: m in r ==> r[m] != [])
      && n in Provider.NameIndex(r)
      && Provider.NameIndex(r)[n] == if n == name then t else Provider.NameIndex(aliases)[n]
  {
    if n == name {
      NewAliasReachesKey(aliases, name, t);
    } else {
      AliasKeepsOtherNames(aliases, name, t, n);
    }
  }

  class ServiceCollection {
    var order: seq<Type>
    var regs: map<Type, Registration>
    var aliases: map<string, seq<Type>>
    var exact: map<string, Type>

    /** The registration table as a value. */
    function Snapshot(): Table
      reads this
    {
      Table(order, regs, aliases, exact)
    }

    ghost predicate Valid()
      reads this
    {
      Snapshot().Valid()
    }

    constructor()
      ensures Valid() && Snapshot() == Table([], map[], map[], map[])
    {
      order := [];
      regs := map[];
      aliases := map[];
      exact := map[];
    }

    /** `key in services`: the key is one of the registered services, in the order they
        were added. */
    predicate Contains(key: Type)
      reads this
      ensures Valid() ==> (Contains(key) <==> key in order)
    {
      key in regs
    }

    /** Binds `key` to `reg`, or reports `OverridingServiceException` and changes nothing. */
    method Bind(key: Type, reg: Registration) returns (err: Option<RegistrationError>)
      requires Valid()
      modifies this
      ensures Valid()
      ensures Contains(key) && forall c :: c != key ==> Contains(c) == old(Contains(c))
      ensures match Register(old(Snapshot()), key, reg)
        case Ok(tab) => err == None && Snapshot() == tab
        case Err(e) => err == Some(e) && Snapshot() == old(Snapshot())
    {
      if key in regs {
        return Some(OverridingService(key));
      }
      ghost var registered := Register(Snapshot(), key, reg);
      var named := AddAliasTo(aliases, key.name, key);
      named := AddAliasTo(named, Names.ToStandardParamName(key.name), key);
      regs, order, aliases := regs[key := reg], order + [key], named;
      assert Snapshot() == registered.value;
      err := None;
    }

    /** `add_singleton`, `add_transient`, `add_scoped` (`concrete` given) and their `add_exact_*`
        forms (`concrete` absent: the base type is its own implementation). `params` are the
        implementation's constructor parameters. */
    method AddType(lifetime: Lifetime, base: Type, concrete: Option<Type>, params: seq<Param>)
      returns (err: Option<RegistrationError>)
      requires Valid()
      modifies this
      ensures Valid()
      ensures Contains(base) && forall c :: c != base ==> Contains(c) == old(Contains(c))
      ensures var impl := if concrete.Some? then concrete.value else base;
        match Register(old(Snapshot()), base, Registration(lifetime, Concrete(impl, params)))
        case Ok(tab) => err == None && Snapshot() == tab
        case Err(e) => err == Some(e) && Snapshot() == old(Snapshot())
    {
      var impl := if concrete.Some? then concrete.value else base;
      err := Bind(base, Registration(lifetime, Concrete(impl, params)));
    }

    /** `add_instance`: a singleton that is the instance itself, under `declared_class` when
        given, else under the instance's own type. */
    method AddInstance(instance: Obj, declaredClass: Option<Type>) returns (err: Option<RegistrationError>)
      requires Valid()
      modifies this
      ensures Valid()
      ensures var key := if declaredClass.Some? then declaredClass.value else instance.ofType;
        match Register(old(Snapshot()), key, Registration(Singleton, Instance(instance)))
        case Ok(tab) => err == None && Snapshot() == tab
        case Err(e) => err == Some(e) && Snapshot() == old(Snapshot())
    {
      var key := if declaredClass.Some? then declaredClass.value else instance.ofType;
      err := Bind(key, Registration(Singleton, Instance(instance)));
    }

    /** `add_singleton_by_factory`, `add_transient_by_factory`, `add_scoped_by_factory`. */
    method AddByFactory(lifetime: Lifetime, f: Factory, returnType: Option<Type>)
      returns (err: Option<RegistrationError>)
      requires Valid()
      modifies this
      ensures Valid()
      ensures match FactoryKey(f, returnType)
        case Err(e) => err == Some(e) && Snapshot() == old(Snapshot())
        case Ok(key) =>
          match Register(old(Snapshot()), key, Registration(lifetime, ByFactory(f)))
          case Ok(tab) => err == None && Snapshot() == tab
          case Err(e) => err == Some(e) && Snapshot() == old(Snapshot())
    {
      var key := FactoryKey(f, returnType);
      if key.Err? {
        return Some(key.error);
      }
      err := Bind(key.value, Registration(lifetime, ByFactory(f)));
    }

    /** `add_alias`: `name` may also stand for `key`. */
    method AddAlias(name: string, key: Type)
      requires Valid()
      modifies this
      ensures Valid()
      ensures Snapshot() == old(Snapshot()).(aliases := AddAliasTo(old(aliases), name, key))
    {
      aliases := AddAliasTo(aliases, name, key);
    }

    /** `set_alias`: a parameter called `name` resolves to `key`, whatever general aliases of
        that name say; a later `set_alias` of the same name replaces it. */
    method SetAlias(name: string, key: Type)
      requires Valid()
      modifies this
      ensures Valid()
      ensures Snapshot() == old(Snapshot()).(exact := old(exact)[name := key])
    {
      exact := exact[name := key];
    }

    /** `build_provider`: compiles every registration, or reports the first build error. */
    method BuildProvider() returns (r: Result<Provider.Services, BuildError>)
      requires Valid()
      ensures var built := Resolution.Build(Snapshot());
        && (built.Err? ==> r == Err(built.error))
        && (built.Ok? ==>
              && r.Ok? && fresh(r.value)
              && r.value.resolvers == built.value
              && r.value.names == Provider.NameIndex(aliases)
              && r.value.singletons == map[] && r.value.next == 0)
    {
      var built := Resolution.Build(Snapshot());
      if built.Err? {
        return Err(built.error);
      }
      var provider := new Provider.Services(built.value, Provider.NameIndex(aliases));
      r := Ok(provider);
    }
  }
}
