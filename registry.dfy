/**
 * Component discovery and registration done by `Startup.ConfigureServices`:
 * the types of the application's own assemblies that are concrete classes
 * marked with an `IDmComponent` attribute are bound, by naming convention, to
 * one of their interfaces and added to the service collection as transient
 * services.
 */
module Registry {
  import opened Wrappers
  import opened Enumerable

  /** A type defined in a loaded assembly, as reflection reports it. */
  datatype TypeInfo = TypeInfo(
    name: string,
    isAbstract: bool,
    isClass: bool,
    isInterface: bool,
    hasDmComponentAttr: bool,            // some custom attribute of the type implements IDmComponent
    implementedInterfaces: seq<string>)  // interface names, in reflection order

  /** A loaded assembly: its simple name and the types it defines, in reflection order. */
  datatype Assembly = Assembly(name: string, definedTypes: seq<TypeInfo>)

  datatype ServiceLifetime = Singleton | Scoped | Transient

  /** A `ServiceDescriptor`: the contract a resolver asks for, the type it instantiates, and how often. */
  datatype ServiceDescriptor = ServiceDescriptor(serviceType: string, implementationType: string, lifetime: ServiceLifetime)

  /** The InvalidOperationException thrown by `First` when a component has no matching interface. */
  datatype RegistrationError = NoMatchingContract(typeName: string)

  /**
   * What the registration loop does with a sequence of components: the
   * descriptors it appends, and the exception that stops it, if any.
   */
  datatype Registration = Registration(added: seq<ServiceDescriptor>, failure: Outcome<RegistrationError>)

  const APP_PREFIX := "IFarmer."
  const STWO_PREFIX := "Stwo."

  predicate IsAppAssembly(a: Assembly) {
    StartsWith(a.name, APP_PREFIX) || StartsWith(a.name, STWO_PREFIX)
  }

  /** `GetLoadedAssemblies`: the default assemblies whose name starts with "IFarmer." or "Stwo.", in order. */
  function GetLoadedAssemblies(available: seq<Assembly>): (r: seq<Assembly>)
    ensures forall a :: a in r <==>
      a in available && (StartsWith(a.name, "IFarmer.") || StartsWith(a.name, "Stwo."))
  {
    Where(IsAppAssembly, available)
  }

  predicate IsConcreteClass(t: TypeInfo) {
    !t.isAbstract && t.isClass && !t.isInterface
  }

  predicate IsDmComponent(t: TypeInfo) {
    t.hasDmComponentAttr
  }

  function DefinedTypes(a: Assembly): seq<TypeInfo> {
    a.definedTypes
  }

  /** The concrete classes defined by the given assemblies, assembly by assembly. */
  function ConcreteClasses(assemblies: seq<Assembly>): (r: seq<TypeInfo>)
    ensures forall t :: t in r <==>
      !t.isAbstract && t.isClass && !t.isInterface && exists a :: a in assemblies && t in a.definedTypes
  {
    Where(IsConcreteClass, SelectMany(DefinedTypes, assemblies))
  }

  /** The marked components among `types`, in order. */
  function DmComponents(types: seq<TypeInfo>): (r: seq<TypeInfo>)
    ensures forall t :: t in r <==> t in types && t.hasDmComponentAttr
  {
    Where(IsDmComponent, types)
  }

  /** The components the registration loop iterates over, in scan order. */
  function DiscoverComponents(available: seq<Assembly>): (r: seq<TypeInfo>)
    ensures forall t :: t in r ==> !t.isAbstract && t.isClass && !t.isInterface && t.hasDmComponentAttr
  {
    DmComponents(ConcreteClasses(GetLoadedAssemblies(available)))
  }

  /**
   * `First(i => i.Name.Contains(name))` over interface names: the first one
   * containing `name`, or None where `First` throws.
   */
  function FirstContaining(interfaces: seq<string>, name: string): (r: Option<string>)
    ensures r.Some? ==> r.value in interfaces && Contains(r.value, name)
  {
    if interfaces == [] then None
    else if Contains(interfaces[0], name) then Some(interfaces[0])
    else FirstContaining(interfaces[1..], name)
  }

  /** The contract of a component, chosen by the naming convention. */
  function ContractOf(t: TypeInfo): (r: Option<string>)
    ensures r.Some? ==> r.value in t.implementedInterfaces && Contains(r.value, t.name)
  {
    FirstContaining(t.implementedInterfaces, t.name)
  }

  /**
   * The interface `FirstContaining` picks is the first one whose name contains
   * `name`; there is none exactly when no interface name contains it.
   */
  lemma {:induction false} FirstContainingIsFirstMatch(interfaces: seq<string>, name: string)
    ensures FirstContaining(interfaces, name).Some? ==> exists k :: (0 <= k < |interfaces| &&
      interfaces[k] == FirstContaining(interfaces, name).value && Contains(interfaces[k], name) &&
      forall j :: 0 <= j < k ==> !Contains(interfaces[j], name))
    ensures FirstContaining(interfaces, name).None? <==> forall i :: i in interfaces ==> !Contains(i, name)
  {
    if interfaces != [] && !Contains(interfaces[0], name) {
      var rest := interfaces[1..];
      FirstContainingIsFirstMatch(rest, name);
      if FirstContaining(rest, name).Some? {
        var k :| 0 <= k < |rest| && rest[k] == FirstContaining(rest, name).value && Contains(rest[k], name) &&
          forall j :: 0 <= j < k ==> !Contains(rest[j], name);
        assert interfaces[k + 1] == rest[k];
        forall j | 0 <= j < k + 1
          ensures !Contains(interfaces[j], name)
        {
          if j > 0 { assert interfaces[j] == rest[j - 1]; }
        }
      }
      assert forall i :: i in interfaces ==> i == interfaces[0] || i in rest;
    } else if interfaces != [] {
      assert interfaces[0] in interfaces;
    }
  }

  /**
   * The registration loop over `components`: one transient descriptor per
   * component, in order, until a component without a contract stops it.
   */
  function Register(components: seq<TypeInfo>): (r: Registration)
    ensures |r.added| <= |components|
  {
    if components == [] then Registration([], Pass)
    else
      var t := components[0];
      match ContractOf(t)
      case None => Registration([], Fail(NoMatchingContract(t.name)))
      case Some(c) =>
        var rest := Register(components[1..]);
        Registration([ServiceDescriptor(c, t.name, Transient)] + rest.added, rest.failure)
  }

  /**
   * What the registration loop produces: the k-th descriptor binds the k-th
   * component transiently to its contract; the loop completes exactly when
   * every component has a contract, adding one descriptor per component, and
   * otherwise stops at the first component without one.
   */
  lemma {:induction false} RegisterResult(components: seq<TypeInfo>)
    ensures forall k :: 0 <= k < |Register(components).added| ==>
      ContractOf(components[k]).Some? &&
      Register(components).added[k] == ServiceDescriptor(ContractOf(components[k]).value, components[k].name, Transient)
    ensures Register(components).failure.Pass? <==> forall t :: t in components ==> ContractOf(t).Some?
    ensures Register(components).failure.Pass? ==> |Register(components).added| == |components|
    ensures Register(components).failure.Fail? ==>
      var n := |Register(components).added|;
      n < |components| && ContractOf(components[n]).None? &&
      Register(components).failure.error == NoMatchingContract(components[n].name)
  {
    if components != [] && ContractOf(components[0]).Some? {
      var rest := components[1..];
      RegisterResult(rest);
      forall t | t in components
        ensures t == components[0] || t in rest
      {
      }
    }
  }

  /**
   * Every registered implementation is a concrete class marked with
   * `IDmComponent`, defined in an "IFarmer."/"Stwo." assembly, and is bound
   * transiently to one of its own interfaces whose name contains its name.
   */
  lemma RegisteredAreMarkedConcreteClasses(available: seq<Assembly>)
    ensures forall d :: d in Register(DiscoverComponents(available)).added ==>
      d.lifetime == Transient &&
      exists a, t :: a in available && IsAppAssembly(a) && t in a.definedTypes &&
        IsConcreteClass(t) && t.hasDmComponentAttr &&
        d.implementationType == t.name &&
        d.serviceType in t.implementedInterfaces && Contains(d.serviceType, t.name)
  {
    var ts := DiscoverComponents(available);
    var reg := Register(ts);
    RegisterResult(ts);
    forall d | d in reg.added
      ensures d.lifetime == Transient &&
        exists a, t :: a in available && IsAppAssembly(a) && t in a.definedTypes &&
          IsConcreteClass(t) && t.hasDmComponentAttr &&
          d.implementationType == t.name &&
          d.serviceType in t.implementedInterfaces && Contains(d.serviceType, t.name)
    {
      var k :| 0 <= k < |reg.added| && reg.added[k] == d;
      var t := ts[k];
      assert t in ts;
      var a :| a in GetLoadedAssemblies(available) && t in a.definedTypes;
      var c := ContractOf(t).value;
      FirstContainingIsFirstMatch(t.implementedInterfaces, t.name);
      var j :| 0 <= j < |t.implementedInterfaces| && t.implementedInterfaces[j] == c && Contains(c, t.name);
      assert d.serviceType in t.implementedInterfaces;
    }
  }

  /**
   * Only "IFarmer." and "Stwo." assemblies contribute components, and every
   * marked concrete class of such an assembly is one.
   */
  lemma ComponentsComeFromAppAssemblies(available: seq<Assembly>)
    ensures forall t :: t in DiscoverComponents(available) <==>
      IsConcreteClass(t) && t.hasDmComponentAttr &&
      exists a :: a in available && IsAppAssembly(a) && t in a.definedTypes
  {
  }

  /** Discovery follows scan order: the components of later assemblies come after those of earlier ones. */
  lemma {:induction false} DiscoveryFollowsScanOrder(first: seq<Assembly>, second: seq<Assembly>)
    ensures DiscoverComponents(first + second) == DiscoverComponents(first) + DiscoverComponents(second)
  {
    WhereConcat(IsAppAssembly, first, second);
    var a1, a2 := GetLoadedAssemblies(first), GetLoadedAssemblies(second);
    SelectManyConcat(DefinedTypes, a1, a2);
    var t1, t2 := SelectMany(DefinedTypes, a1), SelectMany(DefinedTypes, a2);
    WhereConcat(IsConcreteClass, t1, t2);
    WhereConcat(IsDmComponent, Where(IsConcreteClass, t1), Where(IsConcreteClass, t2));
  }

  /**
   * Within one assembly, discovery keeps the assembly's own type order and
   * multiplicity: its marked concrete classes, as reflection lists them, and
   * nothing from an assembly outside the two prefixes.
   */
  lemma DiscoveryWithinAssembly(a: Assembly)
    ensures IsAppAssembly(a) ==>
      DiscoverComponents([a]) == Where(IsDmComponent, Where(IsConcreteClass, a.definedTypes))
    ensures !IsAppAssembly(a) ==> DiscoverComponents([a]) == []
  {
    assert [a][1..] == [];
  }

  /** The mutable `IServiceCollection` the registrations are appended to. */
  class ServiceCollection {
    var descriptors: seq<ServiceDescriptor>

    constructor ()
      ensures descriptors == []
    {
      descriptors := [];
    }

    /** `IServiceCollection.Add`. */
    method Add(d: ServiceDescriptor)
      modifies this
      ensures descriptors == old(descriptors) + [d]
    {
      descriptors := descriptors + [d];
    }
  }

  /**
   * The component registration of `ConfigureServices`: appends the
   * descriptors of `Register` to `services`, keeping what was there before,
   * and throws (returns Fail) at the first component without a contract,
   * after the descriptors of the components before it have been added.
   */
  method ConfigureServices(services: ServiceCollection, available: seq<Assembly>)
    returns (r: Outcome<RegistrationError>)
    modifies services
    ensures services.descriptors == old(services.descriptors) + Register(DiscoverComponents(available)).added
    ensures r == Register(DiscoverComponents(available)).failure
  {
    var dmComponents := DiscoverComponents(available);
    r := AddComponents(services, dmComponents);
  }

  /** One step of the registration loop, as seen from the component it is at. */
  lemma RegisterUnfold(components: seq<TypeInfo>)
    requires components != []
    ensures ContractOf(components[0]).None? ==>
      Register(components) == Registration([], Fail(NoMatchingContract(components[0].name)))
    ensures ContractOf(components[0]).Some? ==> (Register(components) ==
      Registration([ServiceDescriptor(ContractOf(components[0]).value, components[0].name, Transient)] + Register(components[1..]).added,
                   Register(components[1..]).failure))
  {
  }

  /** The `foreach` loop of `ConfigureServices` over the discovered components. */
  method AddComponents(services: ServiceCollection, dmComponents: seq<TypeInfo>)
    returns (r: Outcome<RegistrationError>)
    modifies services
    ensures services.descriptors == old(services.descriptors) + Register(dmComponents).added
    ensures r == Register(dmComponents).failure
  {
    ghost var before := services.descriptors;
    for i := 0 to |dmComponents|
      invariant before + Register(dmComponents).added == services.descriptors + Register(dmComponents[i..]).added
      invariant Register(dmComponents).failure == Register(dmComponents[i..]).failure
    {
      var type_ := dmComponents[i];
      var typeInterface := ContractOf(type_);
      RegisterUnfold(dmComponents[i..]);
      if typeInterface.None? {
        return Fail(NoMatchingContract(type_.name));
      }
      assert dmComponents[i..][1..] == dmComponents[i + 1..];
      services.Add(ServiceDescriptor(typeInterface.value, type_.name, Transient));
    }
    assert dmComponents[|dmComponents|..] == [];
    return Pass;
  }
}
