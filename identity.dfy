/**
 * The identity store as an object updated in place by the provisioning
 * routines of `Startup`; each method's effect is the corresponding function
 * of module Provisioning applied to the store's previous contents.
 */
module Identity {
  import opened Wrappers
  import P = Provisioning

  class IdentityStore {
    var roles: set<string>
    var users: map<string, P.User>
    var userRoles: set<(string, string)>

    /** The store's contents as a value. */
    function State(): P.IdentityState
      reads this
    {
      P.IdentityState(roles, users, userRoles)
    }

    constructor ()
      ensures State() == P.IdentityState({}, map[], {})
    {
      roles, users, userRoles := {}, map[], {};
    }

    /** `CreateRole`: the role exists afterwards; an existing role leaves the store as it was. */
    method CreateRole(roleName: string)
      modifies this
      ensures State() == P.CreateRole(old(State()), roleName)
    {
      var roleExists := roleName in roles;
      if !roleExists {
        roles := roles + {roleName};
      }
    }

    /** `UserManager.CreateAsync`: reports whether the user was stored. */
    method CreateUser(user: P.User, accepted: bool) returns (succeeded: bool)
      modifies this
      ensures succeeded == accepted
      ensures State() == P.CreateUser(old(State()), user, accepted)
    {
      succeeded := accepted;
      if succeeded {
        users := users[user.email := user];
      }
    }

    /** `UserManager.AddToRoleAsync(...).Wait()`. */
    method AddToRole(user: Option<P.User>, roleName: string) returns (r: Outcome<P.ProvisionError>)
      modifies this
      ensures P.Step(State(), r) == P.AddToRole(old(State()), user, roleName)
    {
      if user.None? {
        return Fail(P.NullUser);
      }
      if roleName !in roles {
        return Fail(P.RoleNotFound(roleName));
      }
      var isInRole := (user.value.email, roleName) in userRoles;
      if !isInRole {
        userRoles := userRoles + {(user.value.email, roleName)};
      }
      return Pass;
    }

    /**
     * `AddUserToRole`: the user found by email is reused, otherwise one with
     * Email == UserName == userEmail is created when the store accepts it, and
     * the user held, null if creation failed, is put in the role.
     */
    method AddUserToRole(userEmail: string, roleName: string, creationAccepted: bool)
      returns (r: Outcome<P.ProvisionError>)
      modifies this
      ensures P.Step(State(), r) == P.AddUserToRole(old(State()), userEmail, roleName, creationAccepted)
    {
      var checkAppUser := P.FindByEmail(State(), userEmail);
      var appUser := checkAppUser;
      if checkAppUser.None? {
        var newAppUser := P.User(userEmail, userEmail);
        var succeeded := CreateUser(newAppUser, creationAccepted);
        if succeeded {
          appUser := Some(newAppUser);
        }
      }
      r := AddToRole(appUser, roleName);
    }

    /**
     * `CreateRolesAndAdminUser`: creates "admin", "buyer" and "producer", then
     * puts the default admin, buyer and producer accounts in those roles,
     * stopping at the first exception.
     */
    method CreateRolesAndAdminUser(admin: P.DefaultUser, buyer: P.DefaultUser, producer: P.DefaultUser)
      returns (r: Outcome<P.ProvisionError>)
      modifies this
      ensures P.Step(State(), r) == P.CreateRolesAndAdminUser(old(State()), admin, buyer, producer)
    {
      var roleNames := P.ROLE_NAMES;
      for i := 0 to |roleNames|
        invariant P.CreateRoles(State(), roleNames[i..]) == P.CreateRoles(old(State()), roleNames)
      {
        assert roleNames[i..][1..] == roleNames[i + 1..];
        CreateRole(roleNames[i]);
      }
      assert roleNames[|roleNames|..] == [];
      r := AddUserToRole(admin.email, "admin", admin.creationAccepted);
      if r.Fail? {
        return;
      }
      r := AddUserToRole(buyer.email, "buyer", buyer.creationAccepted);
      if r.Fail? {
        return;
      }
      r := AddUserToRole(producer.email, "producer", producer.creationAccepted);
    }
  }
}
