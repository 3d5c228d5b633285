# Startup component registration and identity provisioning, in Dafny

This project models the two pieces of logic in the web service's `Startup`
class that go beyond framework configuration:

- **Component discovery and registration** (`ConfigureServices`). The service
  scans the default assemblies whose names start with `IFarmer.` or `Stwo.`.
  It keeps the types that are concrete classes carrying an `IDmComponent`
  attribute. For each one, in scan order, it picks the first implemented
  interface whose name contains the type's name. It then appends a transient
  `ServiceDescriptor` (contract, implementation, `Transient`) to the service
  collection. If a component has no such interface, `First` throws and the
  loop stops. The descriptors of the components before it have already been
  added.
- **Identity provisioning** (`CreateRole`, `AddUserToRole`,
  `CreateRolesAndAdminUser`):
  - `CreateRole` creates a role only if it is absent.
  - `AddUserToRole` reuses the user found by email. Otherwise it tries to
    create one with `Email == UserName == email`. Either way, it then calls
    `AddToRoleAsync` with the user it holds. That user is still `null` when
    creation failed, and the call then throws.
  - `CreateRolesAndAdminUser` creates the roles `admin`, `buyer` and
    `producer`, then adds the three default accounts to them.

Files:

- `wrappers.dfy`: `Option` and `Outcome`, where `Fail` stands for the
  exception an operation throws.
- `enumerable.dfy`: the .NET operations the code relies on: `Where`,
  `SelectMany`, `StartsWith` and `Contains`. It
  also proves their ordering and substring properties.
- `registry.dfy`: reflection data as plain records (`TypeInfo`, `Assembly`),
  the discovery pipeline as functions, the registration loop as a method
  over a `ServiceCollection` object, and the lemmas about them.
- `provisioning.dfy`: the identity store's contents as a value, and the three
  provisioning routines as functions on it, with their lemmas.
- `identity.dfy`: the identity store as a class with set and map fields. Its
  methods follow the source step by step, and each one is proved equal to the
  matching function of `provisioning.dfy`.

Behaviour of the code that the model keeps:

- The assembly-name prefixes are hard-coded (`GetLoadedAssemblies`), not
  supplied by the caller.
- A component with no matching interface stops registration after the
  earlier descriptors were added. Registration is not all-or-nothing.
- When user creation fails, the code still calls `AddToRoleAsync`, with a
  `null` user, which throws `ArgumentNullException`.
  The model keeps this branch as `Fail(NullUser)`, leaving the store
  unchanged.
- If a user is created but the role does not exist, the user stays in the
  store without the role.

## Model

| member | source | states |
|---|---|---|
| `Enumerable.Where` | IFarmer.API/Startup.cs:72 | the filtered sequence holds exactly the input elements satisfying the predicate, and is no longer than the input |
| `Enumerable.WhereConcat` | IFarmer.API/Startup.cs:72 | filtering keeps input order: the filter of a concatenation is the concatenation of the filters |
| `Enumerable.SelectMany` | IFarmer.API/Startup.cs:71-72 | the flattened sequence holds exactly the elements of the per-assembly sequences, and for a single assembly it is that assembly's sequence itself, in its order and with its repetitions |
| `Enumerable.SelectManyConcat` | IFarmer.API/Startup.cs:71-72 | flattening keeps assembly order |
| `Enumerable.ContainsIffOccurs` | IFarmer.API/Startup.cs:80 | `Contains(s, sub)` holds exactly when `sub` occurs as a contiguous slice of `s` at some position |
| `Registry.GetLoadedAssemblies` | IFarmer.API/Startup.cs:126-129 | an assembly is kept exactly when it is available and its name starts with "IFarmer." or "Stwo." |
| `Registry.ConcreteClasses` | IFarmer.API/Startup.cs:71-72 | a type is kept exactly when it is non-abstract, a class, not an interface, and defined in one of the assemblies |
| `Registry.DmComponents` | IFarmer.API/Startup.cs:74 | a type is kept exactly when it is a candidate and carries the IDmComponent attribute |
| `Registry.DiscoverComponents` | IFarmer.API/Startup.cs:71-74 | every discovered type is a non-abstract class, not an interface, carrying the IDmComponent attribute |
| `Registry.FirstContaining` | IFarmer.API/Startup.cs:80 | a chosen interface is one of the given interfaces and its name contains the type's name |
| `Registry.ContractOf` | IFarmer.API/Startup.cs:80 | a component's contract, when there is one, is one of its own implemented interfaces whose name contains the component's name |
| `Registry.FirstContainingIsFirstMatch` | IFarmer.API/Startup.cs:80 | the chosen contract is an implemented interface whose name contains the type's name, and no earlier one does; there is none (where `First` throws) exactly when no interface name contains it |
| `Registry.Register` | IFarmer.API/Startup.cs:78-89 | the loop registers at most one descriptor per component |
| `Registry.RegisterResult` | IFarmer.API/Startup.cs:78-89 | the k-th descriptor binds the k-th component to its contract with lifetime Transient; registration completes exactly when every component has a contract, then with one descriptor per component; otherwise it fails with NoMatchingContract at the first component without one, after the descriptors for the components before it |
| `Registry.RegisteredAreMarkedConcreteClasses` | IFarmer.API/Startup.cs:71-88 | every registered descriptor is Transient, and its implementation is a marked concrete class of an "IFarmer."/"Stwo." assembly, bound to one of its own interfaces whose name contains the class name |
| `Registry.ComponentsComeFromAppAssemblies` | IFarmer.API/Startup.cs:71-74 | a type is discovered exactly when it is a marked concrete class defined in an available assembly whose name has one of the two prefixes |
| `Registry.DiscoveryFollowsScanOrder` | IFarmer.API/Startup.cs:71-74 | the components of later assemblies are discovered after those of earlier ones: discovery over a concatenation is the concatenation of discoveries |
| `Registry.DiscoveryWithinAssembly` | IFarmer.API/Startup.cs:71-74 | the components discovered in one "IFarmer."/"Stwo." assembly are its marked concrete classes in the assembly's own type order; another assembly contributes none |
| `Registry.ServiceCollection.Add` | IFarmer.API/Startup.cs:88 | the descriptor is appended after the existing ones |
| `Registry.AddComponents` | IFarmer.API/Startup.cs:78-89 | the collection becomes its old contents followed by the descriptors the loop registers; it fails exactly when the loop meets a component without a contract |
| `Registry.ConfigureServices` | IFarmer.API/Startup.cs:70-89 | the same for the components discovered in the available assemblies; nothing already in the collection changes |
| `Provisioning.CreateRole` | IFarmer.API/Startup.cs:153-165 | the role exists afterwards, exactly that role is added, users and associations are untouched, and an existing role leaves the store unchanged |
| `Provisioning.CreateRoleIdempotent` | IFarmer.API/Startup.cs:153-165 | calling CreateRole twice with the same name equals calling it once |
| `Provisioning.AddToRole` | IFarmer.API/Startup.cs:201-202 | it completes exactly when a user is held and the role exists; a null user fails with NullUser; a failure leaves the store unchanged; a completion adds exactly that user's association with the role and changes nothing else |
| `Provisioning.AddUserToRole` | IFarmer.API/Startup.cs:174-203 | roles unchanged; an existing user is reused and the user map is unchanged; otherwise a user with Email == UserName == userEmail is added only if creation is accepted, and no other user changes; it completes exactly when a user is held and the role exists; it fails with NullUser, leaving the store unchanged, exactly when creation was needed and refused; on completion exactly the held user's association with the role is added; on failure no association changes |
| `Provisioning.AddUserToRoleIdempotent` | IFarmer.API/Startup.cs:174-203 | a second identical call leaves the store as the first left it and completes the same way |
| `Provisioning.AddUserToRolePreservesValid` | IFarmer.API/Startup.cs:174-203 | on a well-formed store (users keyed by their email, associations referring to stored users and roles), the result is well formed and, on completion, the user with that email is in the role |
| `Provisioning.CreateRoles` | IFarmer.API/Startup.cs:138-141 | after the loop, the roles are the old roles plus every listed name; users and associations are untouched |
| `Provisioning.CreateRolesAndAdminUser` | IFarmer.API/Startup.cs:134-146 | all three roles are created before any account is associated: provisioning adds exactly "admin", "buyer" and "producer" to the roles, and an exception it stops with is only ever the null-user one, never a missing role |
| `Provisioning.ProvisioningKeepsValid` | IFarmer.API/Startup.cs:134-146 | on a well-formed store, the store stays well formed whether provisioning completes or stops early |
| `Provisioning.DefaultUsersInTheirRoles` | IFarmer.API/Startup.cs:136-145 | on a well-formed store, the store stays well formed; provisioning completes whenever each default account exists or may be created; on completion each default account is in its named role |
| `Provisioning.StepExtends` | IFarmer.API/Startup.cs:143-145 | on a well-formed store, each further AddUserToRole call keeps it well formed, keeps existing users as they were, adds at most its own user (with Email == UserName), removes no association and adds at most its own |
| `Provisioning.ProvisioningExtends` | IFarmer.API/Startup.cs:134-146 | on a well-formed store, the whole provisioning run extends the store by at most the three default accounts and their three associations |
| `Provisioning.ProvisioningFrame` | IFarmer.API/Startup.cs:134-146 | on a well-formed store, every existing user keeps its record; every new user is one of the three default emails, with Email == UserName; no association is removed; and the only new associations are the three accounts with their named roles |
| `Provisioning.AddUserToRoleAccepted` | IFarmer.API/Startup.cs:174-203 | when the role exists, creation is accepted and the email is absent or holds a user with Email == UserName, AddUserToRole completes with that user stored under the email and in the role, nothing else changed |
| `Provisioning.EmptyStoreScenario` | IFarmer.API/Startup.cs:134-146 | provisioning an empty store whose three accounts may be created completes with exactly the three roles, exactly the three users with Email == UserName, and exactly each account in its own role |
| `Provisioning.AddUserToRoleWhenAssociated` | IFarmer.API/Startup.cs:179-202 | for a user already found by email and already in an existing role, AddUserToRole leaves the store unchanged and completes |
| `Provisioning.AssociationSurvives` | IFarmer.API/Startup.cs:143-145 | a later AddUserToRole call leaves an existing user record as it was, and keeps that user's role associations |
| `Provisioning.ProvisioningIdempotent` | IFarmer.API/Startup.cs:134-146 | re-running provisioning with the same accounts after any run, completed or stopped by an exception, leaves the store as that run left it and completes the same way |
| `Identity.IdentityStore.CreateRole` | IFarmer.API/Startup.cs:153-165 | the store's new contents are `Provisioning.CreateRole` of its old contents |
| `Identity.IdentityStore.CreateUser` | IFarmer.API/Startup.cs:192-198 | reports success exactly when creation is accepted, and then stores the user under its email |
| `Identity.IdentityStore.AddToRole` | IFarmer.API/Startup.cs:201-202 | fails with NullUser on a null user and with RoleNotFound for an unknown role; otherwise the association is present afterwards (an existing one is left as it is) |
| `Identity.IdentityStore.AddUserToRole` | IFarmer.API/Startup.cs:174-203 | the new contents and the completion are those of `Provisioning.AddUserToRole` on the old contents |
| `Identity.IdentityStore.CreateRolesAndAdminUser` | IFarmer.API/Startup.cs:134-146 | the loop over the role names, then the three AddUserToRole calls, have the effect of `Provisioning.CreateRolesAndAdminUser`, so the lemmas above apply to the store |

## Left out

- MVC, Entity Framework and MySQL wiring, identity, cookie and Facebook
  authentication setup, the CORS and middleware pipeline: pure framework
  configuration.
- Reflection and assembly loading (`DependencyContext.Default`,
  `Assembly.Load`, `GetCustomAttributes`): replaced by given sequences of
  assembly and type records. A failure of `Assembly.Load` is not modelled.
- `StartsWith` is modelled as an ordinal prefix test. The .NET overload used
  is culture-sensitive (it skips ignorable code points such as a soft
  hyphen), which makes no difference for assembly names made of ASCII
  characters.
- The unused Autofac `ContainerBuilder`, the commented-out lines and the
  `return null` of `ConfigureServices`: they have no effect.
- The `Task.Wait()` / `.Result` blocking: each store call is an ordinary
  sequential operation.
- Password hashing and validation in `UserManager.CreateAsync`, and its
  user-name uniqueness check: the outcome of creation is a boolean parameter
  (`creationAccepted`). The password itself is not modelled.
- The identity framework's case-insensitive normalisation of emails and role
  names: the store matches names exactly.
- Reading the default accounts from configuration: the emails and creation
  outcomes are parameters. A missing configuration key, which passes `null`
  to `FindByEmailAsync` and throws there, is not modelled.
- The store's own failures (connectivity, the ignored result of creating a
  role): role creation always succeeds.
- `Registry.ConfigureServices`: it models only the component registration
  (lines 70–89), and its loop is the separate method `AddComponents`.
