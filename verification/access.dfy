/**
 Role-based access control: a registry of users keyed by username and a
 flat table saying which roles may perform which action. Roles do not
 inherit from each other: an Admin may add devices but may not approve
 recommendations, which only a Manager may do.
 */
module Access {

  datatype Role = Viewer | Manager | Admin

  datatype User = User(username: string, role: Role, isActive: bool)

  /** The registry: username to user, one entry per username. */
  datatype AccessControl = AccessControl(users: map<string, User>)

  const ViewReport: string := "view_report"
  const ModifyReport: string := "modify_report"
  const AddDevice: string := "add_device"
  const ApproveRecommendation: string := "approve_recommendation"

  /** The permission table as a set of (action, role) grants. */
  const Grants: set<(string, Role)> := {
    (ViewReport, Viewer), (ViewReport, Manager), (ViewReport, Admin),
    (ModifyReport, Manager), (ModifyReport, Admin),
    (AddDevice, Admin),
    (ApproveRecommendation, Manager)
  }

  /** An empty registry. */
  function NewAccessControl(): (ac: AccessControl)
    ensures forall name: string :: name !in ac.users
  {
    AccessControl(map[])
  }

  /**
   Registers a user under `username`, replacing any user already registered
   under that name. Every other entry is left as it was.
   */
  function AddUser(ac: AccessControl, username: string, role: Role, isActive: bool): (ac': AccessControl)
    ensures username in ac'.users
    ensures ac'.users[username] == User(username, role, isActive)
    ensures ac'.users.Keys == ac.users.Keys + {username}
    ensures forall name :: name in ac.users && name != username ==> ac'.users[name] == ac.users[name]
  {
    AccessControl(ac.users[username := User(username, role, isActive)])
  }

  /**
   Whether `user` may perform `action`. An inactive user is always denied;
   an active user is allowed exactly the grants of the table, and any action
   the table does not name is denied.
   */
  function CheckAccess(user: User, action: string): (allowed: bool)
    ensures allowed <==> user.isActive && (action, user.role) in Grants
  {
    if !user.isActive then
      false
    else if action == ViewReport then
      user.role in [Viewer, Manager, Admin]
    else if action == ModifyReport then
      user.role in [Manager, Admin]
    else if action == AddDevice then
      user.role == Admin
    else if action == ApproveRecommendation then
      user.role == Manager
    else
      false
  }

  /** Being inactive overrides every role and every action. */
  lemma InactiveUserDenied(user: User, action: string)
    requires !user.isActive
    ensures !CheckAccess(user, action)
  {
  }

  /** Only the four named actions can ever be allowed. */
  lemma UnknownActionDenied(user: User, action: string)
    requires action !in {ViewReport, ModifyReport, AddDevice, ApproveRecommendation}
    ensures !CheckAccess(user, action)
  {
  }

  /** The table row by row, for an active user with role `role`. */
  lemma PermissionTable(name: string, role: Role)
    ensures CheckAccess(User(name, role, true), ViewReport)
    ensures CheckAccess(User(name, role, true), ModifyReport) <==> role == Manager || role == Admin
    ensures CheckAccess(User(name, role, true), AddDevice) <==> role == Admin
    ensures CheckAccess(User(name, role, true), ApproveRecommendation) <==> role == Manager
  {
  }

  /**
   The table is not a hierarchy: Admin passes add_device but fails
   approve_recommendation, and Manager passes approve_recommendation but
   fails add_device, so neither role's rights contain the other's.
   */
  lemma RolesAreNotNested(name: string)
    ensures CheckAccess(User(name, Admin, true), AddDevice)
    ensures !CheckAccess(User(name, Admin, true), ApproveRecommendation)
    ensures CheckAccess(User(name, Manager, true), ApproveRecommendation)
    ensures CheckAccess(User(name, Manager, true), ModifyReport)
    ensures !CheckAccess(User(name, Manager, true), AddDevice)
  {
  }

  /** A registered user's access depends on nothing but the registry entry. */
  lemma RegisteredUserAccess(ac: AccessControl, username: string, role: Role, isActive: bool, action: string)
    ensures CheckAccess(AddUser(ac, username, role, isActive).users[username], action)
        <==> isActive && (action, role) in Grants
  {
  }
}
