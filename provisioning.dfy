/**
 * The identity provisioning of `Startup` as functions on the state of the
 * identity store: `CreateRole`, `AddUserToRole` and `CreateRolesAndAdminUser`,
 * each call on the role and user managers blocking until it completes.
 */
module Provisioning {
  import opened Wrappers

  /** An `ApplicationUser` as this code creates it. */
  datatype User = User(email: string, userName: string)

  /** The contents of the identity store. */
  datatype IdentityState = IdentityState(
    roles: set<string>,                // role names
    users: map<string, User>,          // users, keyed by email
    userRoles: set<(string, string)>)  // (user email, role name) associations

  /** The exceptions `AddToRoleAsync(...).Wait()` throws. */
  datatype ProvisionError =
    | NullUser                   // the user passed is null (ArgumentNullException)
    | RoleNotFound(roleName: string)  // the role is not in the store (InvalidOperationException)

  /** A store operation's effect: the new store and how the call completed. */
  datatype Step = Step(state: IdentityState, outcome: Outcome<ProvisionError>)

  /** The roles `CreateRolesAndAdminUser` provisions, in order. */
  const ROLE_NAMES: seq<string> := ["admin", "buyer", "producer"]

  /** A default account from configuration: its email and whether the store accepts creating it. */
  datatype DefaultUser = DefaultUser(email: string, creationAccepted: bool)

  /** A well-formed store: users are keyed by their own email, associations refer to stored users and roles. */
  ghost predicate Valid(s: IdentityState) {
    && (forall e :: e in s.users ==> s.users[e].email == e)
    && (forall e, r :: (e, r) in s.userRoles ==> e in s.users && r in s.roles)
  }

  /** `CreateRole`: adds the role when `RoleExistsAsync` reports it absent. */
  function CreateRole(s: IdentityState, roleName: string): (r: IdentityState)
    ensures roleName in r.roles
    ensures r.roles == s.roles + {roleName}
    ensures r.users == s.users && r.userRoles == s.userRoles
    ensures roleName in s.roles ==> r == s
  {
    if roleName in s.roles then s
    else s.(roles := s.roles + {roleName})
  }

  /** Calling `CreateRole` twice with one name has the effect of calling it once. */
  lemma CreateRoleIdempotent(s: IdentityState, roleName: string)
    ensures CreateRole(CreateRole(s, roleName), roleName) == CreateRole(s, roleName)
  {
  }

  /** `UserManager.FindByEmailAsync`: the user stored under `email`, or null. */
  function FindByEmail(s: IdentityState, email: string): Option<User> {
    if email in s.users then Some(s.users[email]) else None
  }

  /** `UserManager.CreateAsync`: stores the user when the store accepts it (password rules and the like). */
  function CreateUser(s: IdentityState, user: User, accepted: bool): IdentityState {
    if accepted then s.(users := s.users[user.email := user]) else s
  }

  /**
   * `UserManager.AddToRoleAsync(...).Wait()`: throws on a null user or an
   * unknown role; a user already in the role gets a failed result, which the
   * caller ignores.
   */
  function AddToRole(s: IdentityState, user: Option<User>, roleName: string): (r: Step)
    ensures r.outcome.Pass? <==> user.Some? && roleName in s.roles
    ensures user.None? ==> r.outcome == Fail(NullUser)
    ensures r.outcome.Fail? ==> r.state == s
    ensures r.outcome.Pass? ==> (r.state.roles == s.roles && r.state.users == s.users &&
      r.state.userRoles == s.userRoles + {(user.value.email, roleName)})
  {
    if user.None? then Step(s, Fail(NullUser))
    else if roleName !in s.roles then Step(s, Fail(RoleNotFound(roleName)))
    else if (user.value.email, roleName) in s.userRoles then Step(s, Pass)
    else Step(s.(userRoles := s.userRoles + {(user.value.email, roleName)}), Pass)
  }

  /**
   * `AddUserToRole`: reuses the user found by email, otherwise tries to create
   * one, and then associates whatever user it holds (null when creation
   * failed) with the role.
   */
  function AddUserToRole(s: IdentityState, userEmail: string, roleName: string, creationAccepted: bool): (r: Step)
    ensures r.state.roles == s.roles
    ensures userEmail in s.users ==> r.state.users == s.users
    ensures userEmail !in s.users ==>
      r.state.users == if creationAccepted then s.users[userEmail := User(userEmail, userEmail)] else s.users
    ensures r.outcome.Pass? <==> (userEmail in s.users || creationAccepted) && roleName in s.roles
    ensures r.outcome == Fail(NullUser) <==> userEmail !in s.users && !creationAccepted
    ensures r.outcome == Fail(NullUser) ==> r.state == s
    ensures r.outcome.Fail? ==> r.state.userRoles == s.userRoles
    ensures r.outcome.Pass? ==>
      userEmail in r.state.users && r.state.userRoles == s.userRoles + {(r.state.users[userEmail].email, roleName)}
  {
    var checkAppUser := FindByEmail(s, userEmail);
    if checkAppUser.Some? then AddToRole(s, checkAppUser, roleName)
    else
      var newAppUser := User(userEmail, userEmail);
      var created := CreateUser(s, newAppUser, creationAccepted);
      AddToRole(created, if creationAccepted then Some(newAppUser) else None, roleName)
  }

  /** Repeating `AddUserToRole` with the same arguments changes nothing and completes the same way. */
  lemma AddUserToRoleIdempotent(s: IdentityState, userEmail: string, roleName: string, creationAccepted: bool)
    ensures var r := AddUserToRole(s, userEmail, roleName, creationAccepted);
      AddUserToRole(r.state, userEmail, roleName, creationAccepted) == r
  {
  }

  /**
   * On a well-formed store, `AddUserToRole` keeps the store well formed and,
   * when it completes, the user with that email is in the role.
   */
  lemma AddUserToRolePreservesValid(s: IdentityState, userEmail: string, roleName: string, creationAccepted: bool)
    requires Valid(s)
    ensures Valid(AddUserToRole(s, userEmail, roleName, creationAccepted).state)
    ensures AddUserToRole(s, userEmail, roleName, creationAccepted).outcome.Pass? ==>
      (userEmail, roleName) in AddUserToRole(s, userEmail, roleName, creationAccepted).state.userRoles
  {
  }

  /** The loop over role names: `CreateRole` for each, in order. */
  function CreateRoles(s: IdentityState, roleNames: seq<string>): (r: IdentityState)
    ensures r.roles == s.roles + set n | n in roleNames
    ensures r.users == s.users && r.userRoles == s.userRoles
    decreases |roleNames|
  {
    if roleNames == [] then s
    else
      var rest := CreateRoles(CreateRole(s, roleNames[0]), roleNames[1..]);
      assert (set n | n in roleNames) == {roleNames[0]} + set n | n in roleNames[1..];
      rest
  }

  /**
   * `CreateRolesAndAdminUser`: all roles first, then the default admin, buyer
   * and producer accounts, each in its role; an exception stops the sequence.
   */
  function CreateRolesAndAdminUser(s: IdentityState, admin: DefaultUser, buyer: DefaultUser, producer: DefaultUser): (r: Step)
    ensures r.state.roles == s.roles + {"admin", "buyer", "producer"}
    ensures r.outcome.Fail? ==> r.outcome.error == NullUser
  {
    assert (set n | n in ROLE_NAMES) == {"admin", "buyer", "producer"};
    var seeded := CreateRoles(s, ROLE_NAMES);
    var a := AddUserToRole(seeded, admin.email, "admin", admin.creationAccepted);
    if a.outcome.Fail? then a
    else
      var b := AddUserToRole(a.state, buyer.email, "buyer", buyer.creationAccepted);
      if b.outcome.Fail? then b
      else AddUserToRole(b.state, producer.email, "producer", producer.creationAccepted)
  }

  /** Provisioning keeps a well-formed store well formed, whether it completes or not. */
  lemma ProvisioningKeepsValid(s: IdentityState, admin: DefaultUser, buyer: DefaultUser, producer: DefaultUser)
    requires Valid(s)
    ensures Valid(CreateRolesAndAdminUser(s, admin, buyer, producer).state)
  {
    var seeded := CreateRoles(s, ROLE_NAMES);
    assert Valid(seeded);
    AddUserToRolePreservesValid(seeded, admin.email, "admin", admin.creationAccepted);
    var a := AddUserToRole(seeded, admin.email, "admin", admin.creationAccepted);
    AddUserToRolePreservesValid(a.state, buyer.email, "buyer", buyer.creationAccepted);
    var b := AddUserToRole(a.state, buyer.email, "buyer", buyer.creationAccepted);
    AddUserToRolePreservesValid(b.state, producer.email, "producer", producer.creationAccepted);
  }

  /**
   * Provisioning completes whenever each default account already exists or
   * may be created, and then each account is in its role and the store stays
   * well formed.
   */
  lemma DefaultUsersInTheirRoles(s: IdentityState, admin: DefaultUser, buyer: DefaultUser, producer: DefaultUser)
    requires Valid(s)
    ensures var r := CreateRolesAndAdminUser(s, admin, buyer, producer);
      && Valid(r.state)
      && (((admin.email in s.users || admin.creationAccepted) &&
           (buyer.email in s.users || buyer.creationAccepted) &&
           (producer.email in s.users || producer.creationAccepted)) ==> r.outcome.Pass?)
      && (r.outcome.Pass? ==>
          && (admin.email, "admin") in r.state.userRoles
          && (buyer.email, "buyer") in r.state.userRoles
          && (producer.email, "producer") in r.state.userRoles)
  {
    ProvisioningKeepsValid(s, admin, buyer, producer);
    var seeded := CreateRoles(s, ROLE_NAMES);
    assert Valid(seeded);
    AddUserToRolePreservesValid(seeded, admin.email, "admin", admin.creationAccepted);
    var a := AddUserToRole(seeded, admin.email, "admin", admin.creationAccepted);
    if a.outcome.Pass? {
      AddUserToRolePreservesValid(a.state, buyer.email, "buyer", buyer.creationAccepted);
      var b := AddUserToRole(a.state, buyer.email, "buyer", buyer.creationAccepted);
      if b.outcome.Pass? {
        AddUserToRolePreservesValid(b.state, producer.email, "producer", producer.creationAccepted);
      }
    }
  }

  /**
   * `t` extends `s`: every user of `s` keeps its record, every new user is
   * one of `emails` with Email == UserName, no association is removed and
   * every new association is one of `pairs`.
   */
  ghost predicate Extends(s: IdentityState, t: IdentityState, emails: set<string>, pairs: set<(string, string)>) {
    && (forall e :: e in s.users ==> e in t.users && t.users[e] == s.users[e])
    && (forall e :: e in t.users && e !in s.users ==> e in emails && t.users[e] == User(e, e))
    && s.userRoles <= t.userRoles
    && t.userRoles - s.userRoles <= pairs
  }

  /**
   * On a well-formed store that extends `s`, one more `AddUserToRole` step
   * still extends `s`, by at most its own user and association.
   */
  lemma StepExtends(s: IdentityState, t: IdentityState, emails: set<string>, pairs: set<(string, string)>,
                    userEmail: string, roleName: string, creationAccepted: bool)
    requires Valid(t) && Extends(s, t, emails, pairs)
    ensures var u := AddUserToRole(t, userEmail, roleName, creationAccepted).state;
      Valid(u) && Extends(s, u, emails + {userEmail}, pairs + {(userEmail, roleName)})
  {
    AddUserToRolePreservesValid(t, userEmail, roleName, creationAccepted);
  }

  lemma {:induction false} ExtendsWeaken(s: IdentityState, t: IdentityState,
                                         e1: set<string>, p1: set<(string, string)>,
                                         e2: set<string>, p2: set<(string, string)>)
    requires Extends(s, t, e1, p1) && e1 <= e2 && p1 <= p2
    ensures Extends(s, t, e2, p2)
  {
  }

  /**
   * Provisioning leaves every existing user as it was, creates users only
   * for the three default emails (with Email == UserName), removes no
   * association and, on a well-formed store, adds only the three accounts'
   * associations with their named roles.
   */
  lemma ProvisioningFrame(s: IdentityState, admin: DefaultUser, buyer: DefaultUser, producer: DefaultUser)
    requires Valid(s)
    ensures var r := CreateRolesAndAdminUser(s, admin, buyer, producer).state;
      && (forall e :: e in s.users ==> e in r.users && r.users[e] == s.users[e])
      && (forall e :: e in r.users && e !in s.users ==>
            e in {admin.email, buyer.email, producer.email} && r.users[e] == User(e, e))
      && s.userRoles <= r.userRoles
      && r.userRoles - s.userRoles <= {(admin.email, "admin"), (buyer.email, "buyer"), (producer.email, "producer")}
  {
    ProvisioningExtends(s, admin, buyer, producer);
  }

  lemma ProvisioningExtends(s: IdentityState, admin: DefaultUser, buyer: DefaultUser, producer: DefaultUser)
    requires Valid(s)
    ensures Extends(s, CreateRolesAndAdminUser(s, admin, buyer, producer).state,
                    {admin.email, buyer.email, producer.email},
                    {(admin.email, "admin"), (buyer.email, "buyer"), (producer.email, "producer")})
  {
    var emails := {admin.email, buyer.email, producer.email};
    var pairs := {(admin.email, "admin"), (buyer.email, "buyer"), (producer.email, "producer")};
    var seeded := CreateRoles(s, ROLE_NAMES);
    assert Extends(s, seeded, {}, {});
    var a := AddUserToRole(seeded, admin.email, "admin", admin.creationAccepted);
    StepExtends(s, seeded, {}, {}, admin.email, "admin", admin.creationAccepted);
    if a.outcome.Fail? {
      assert CreateRolesAndAdminUser(s, admin, buyer, producer) == a;
      ExtendsWeaken(s, a.state, {admin.email}, {(admin.email, "admin")}, emails, pairs);
      return;
    }
    var b := AddUserToRole(a.state, buyer.email, "buyer", buyer.creationAccepted);
    StepExtends(s, a.state, {admin.email}, {(admin.email, "admin")}, buyer.email, "buyer", buyer.creationAccepted);
    if b.outcome.Fail? {
      assert CreateRolesAndAdminUser(s, admin, buyer, producer) == b;
      ExtendsWeaken(s, b.state, {admin.email, buyer.email}, {(admin.email, "admin"), (buyer.email, "buyer")}, emails, pairs);
      return;
    }
    StepExtends(s, b.state, {admin.email, buyer.email}, {(admin.email, "admin"), (buyer.email, "buyer")},
                producer.email, "producer", producer.creationAccepted);
    assert CreateRolesAndAdminUser(s, admin, buyer, producer).state ==
      AddUserToRole(b.state, producer.email, "producer", producer.creationAccepted).state;
  }

  /**
   * Provisioning an empty store whose three default accounts may all be
   * created: it completes with exactly the three roles, one record per
   * account with Email == UserName, and each account in exactly its role.
   */
  lemma EmptyStoreScenario(admin: DefaultUser, buyer: DefaultUser, producer: DefaultUser)
    requires admin.creationAccepted && buyer.creationAccepted && producer.creationAccepted
    ensures var r := CreateRolesAndAdminUser(IdentityState({}, map[], {}), admin, buyer, producer);
      && r.outcome == Pass
      && r.state.roles == {"admin", "buyer", "producer"}
      && r.state.users == map[admin.email := User(admin.email, admin.email),
                              buyer.email := User(buyer.email, buyer.email),
                              producer.email := User(producer.email, producer.email)]
      && r.state.userRoles == {(admin.email, "admin"), (buyer.email, "buyer"), (producer.email, "producer")}
  {
    var s := IdentityState({}, map[], {});
    var seeded := CreateRoles(s, ROLE_NAMES);
    assert (set n | n in ROLE_NAMES) == {"admin", "buyer", "producer"};
    AddUserToRoleAccepted(seeded, admin.email, "admin");
    var a := AddUserToRole(seeded, admin.email, "admin", true);
    AddUserToRoleAccepted(a.state, buyer.email, "buyer");
    var b := AddUserToRole(a.state, buyer.email, "buyer", true);
    AddUserToRoleAccepted(b.state, producer.email, "producer");
    assert CreateRolesAndAdminUser(s, admin, buyer, producer) == AddUserToRole(b.state, producer.email, "producer", true);
  }

  /**
   * When the role exists, the account is absent or has Email == UserName,
   * and creation is accepted, `AddUserToRole` completes with the account
   * recorded and in the role.
   */
  lemma AddUserToRoleAccepted(s: IdentityState, userEmail: string, roleName: string)
    requires roleName in s.roles
    requires userEmail in s.users ==> s.users[userEmail] == User(userEmail, userEmail)
    ensures AddUserToRole(s, userEmail, roleName, true) ==
      Step(IdentityState(s.roles, s.users[userEmail := User(userEmail, userEmail)],
                         s.userRoles + {(userEmail, roleName)}), Pass)
  {
  }

  /** `AddUserToRole` for a user already in the role changes nothing and completes. */
  lemma AddUserToRoleWhenAssociated(s: IdentityState, userEmail: string, roleName: string, creationAccepted: bool)
    requires userEmail in s.users && roleName in s.roles
    requires (s.users[userEmail].email, roleName) in s.userRoles
    ensures AddUserToRole(s, userEmail, roleName, creationAccepted) == Step(s, Pass)
  {
  }

  /** A user found in a completed `AddUserToRole` stays the same, and stays in the role, through a later call. */
  lemma AssociationSurvives(s: IdentityState, e: string, roleName: string, userEmail: string, otherRole: string, creationAccepted: bool)
    requires e in s.users && (s.users[e].email, roleName) in s.userRoles
    ensures var r := AddUserToRole(s, userEmail, otherRole, creationAccepted).state;
      e in r.users && r.users[e] == s.users[e] && (r.users[e].email, roleName) in r.userRoles
  {
  }

  /**
   * Re-running provisioning with the same accounts, after a run that completed
   * or one that stopped at an exception, leaves the store as that run left it
   * and completes the same way.
   */
  lemma ProvisioningIdempotent(s: IdentityState, admin: DefaultUser, buyer: DefaultUser, producer: DefaultUser)
    ensures var r := CreateRolesAndAdminUser(s, admin, buyer, producer);
      CreateRolesAndAdminUser(r.state, admin, buyer, producer) == r
  {
    assert (set n | n in ROLE_NAMES) == {"admin", "buyer", "producer"};
    var seeded := CreateRoles(s, ROLE_NAMES);
    var a := AddUserToRole(seeded, admin.email, "admin", admin.creationAccepted);
    if a.outcome.Fail? {
      assert CreateRoles(a.state, ROLE_NAMES) == a.state;
      return;
    }
    var b := AddUserToRole(a.state, buyer.email, "buyer", buyer.creationAccepted);
    AssociationSurvives(a.state, admin.email, "admin", buyer.email, "buyer", buyer.creationAccepted);
    if b.outcome.Fail? {
      assert CreateRoles(b.state, ROLE_NAMES) == b.state;
      AddUserToRoleWhenAssociated(b.state, admin.email, "admin", admin.creationAccepted);
      return;
    }
    var c := AddUserToRole(b.state, producer.email, "producer", producer.creationAccepted);
    var t := c.state;
    AssociationSurvives(b.state, admin.email, "admin", producer.email, "producer", producer.creationAccepted);
    AssociationSurvives(b.state, buyer.email, "buyer", producer.email, "producer", producer.creationAccepted);
    assert CreateRoles(t, ROLE_NAMES) == t;
    AddUserToRoleWhenAssociated(t, admin.email, "admin", admin.creationAccepted);
    AddUserToRoleWhenAssociated(t, buyer.email, "buyer", buyer.creationAccepted);
    if c.outcome.Pass? {
      AddUserToRoleWhenAssociated(t, producer.email, "producer", producer.creationAccepted);
    }
  }
}
