/**
 * The user-management page: a fixed list of portal users, a table of custom
 * roles (each a 6-area x {read, write} permission matrix), a draft role edited
 * in the "Create Role" dialog and a draft user edited in the "Invite User"
 * dialog. Toasts become Notice values.
 */
module UserManagementPage {
  import opened Seqs

  /** The six portal areas a role grants access to. */
  datatype Area = Dashboard | Integrations | Plans | KnowledgeBase | Customization | UserManagement

  datatype Flag = Read | Write

  datatype Access = Access(read: bool, write: bool)

  /** One Access record per area, as in the `permissions` object of a role. */
  datatype Permissions = Permissions(
    dashboard: Access,
    integrations: Access,
    plans: Access,
    knowledgeBase: Access,
    customization: Access,
    userManagement: Access)

  datatype Role = Role(id: int, name: string, description: string, permissions: Permissions, userCount: int)

  /** The role being composed in the "Create Role" dialog. */
  datatype RoleDraft = RoleDraft(name: string, description: string, permissions: Permissions)

  datatype User = User(
    id: int, firstName: string, lastName: string, email: string,
    role: string, status: string, lastActive: string, avatar: string)

  /** The user being composed in the "Invite User" dialog. */
  datatype UserDraft = UserDraft(email: string, firstName: string, lastName: string, role: string)

  datatype Notice =
    | MissingInformation
    | UserInvited(email: string)
    | UserRemoved(userName: string)
    | RoleCreated(roleName: string)
    | RoleDeleted(roleName: string)

  function AccessOf(p: Permissions, a: Area): Access
  {
    match a
    case Dashboard => p.dashboard
    case Integrations => p.integrations
    case Plans => p.plans
    case KnowledgeBase => p.knowledgeBase
    case Customization => p.customization
    case UserManagement => p.userManagement
  }

  /** Whether permission flag f is switched on for area a. */
  function Granted(p: Permissions, a: Area, f: Flag): bool
  {
    var access := AccessOf(p, a);
    match f
    case Read => access.read
    case Write => access.write
  }

  /** The permission matrix of a fresh draft: every one of the twelve flags off. */
  function NoPermissions(): (p: Permissions)
    ensures forall a, f :: !Granted(p, a, f)
  {
    var off := Access(false, false);
    Permissions(off, off, off, off, off, off)
  }

  /** Two permission matrices that agree on every flag are the same matrix. */
  lemma PermissionsExtensional(p: Permissions, q: Permissions)
    requires forall a, f :: Granted(p, a, f) == Granted(q, a, f)
    ensures p == q
  {
    forall a: Area ensures AccessOf(p, a) == AccessOf(q, a) {
      assert Granted(p, a, Read) == Granted(q, a, Read);
      assert Granted(p, a, Write) == Granted(q, a, Write);
    }
    assert AccessOf(p, Dashboard) == AccessOf(q, Dashboard);
    assert AccessOf(p, Integrations) == AccessOf(q, Integrations);
    assert AccessOf(p, Plans) == AccessOf(q, Plans);
    assert AccessOf(p, KnowledgeBase) == AccessOf(q, KnowledgeBase);
    assert AccessOf(p, Customization) == AccessOf(q, Customization);
    assert AccessOf(p, UserManagement) == AccessOf(q, UserManagement);
  }

  /**
   * The nested spread `{...p, [area]: {...p[area], [flag]: value}}`: the one
   * chosen cell takes the new value and the other eleven keep theirs.
   */
  function SetPermission(p: Permissions, a: Area, f: Flag, value: bool): (r: Permissions)
    ensures Granted(r, a, f) == value
    ensures forall b, g :: (b != a || g != f) ==> Granted(r, b, g) == Granted(p, b, g)
  {
    var cell := AccessOf(p, a);
    var access := match f
      case Read => cell.(read := value)
      case Write => cell.(write := value);
    match a
    case Dashboard => p.(dashboard := access)
    case Integrations => p.(integrations := access)
    case Plans => p.(plans := access)
    case KnowledgeBase => p.(knowledgeBase := access)
    case Customization => p.(customization := access)
    case UserManagement => p.(userManagement := access)
  }

  /** Writing back the value a cell already holds leaves the matrix as it was. */
  lemma SetPermissionSameValue(p: Permissions, a: Area, f: Flag)
    ensures SetPermission(p, a, f, Granted(p, a, f)) == p
  {
    PermissionsExtensional(SetPermission(p, a, f, Granted(p, a, f)), p);
  }

  /** The last write to a cell is the one that counts. */
  lemma SetPermissionOverwrites(p: Permissions, a: Area, f: Flag, v: bool, w: bool)
    ensures SetPermission(SetPermission(p, a, f, v), a, f, w) == SetPermission(p, a, f, w)
  {
    PermissionsExtensional(SetPermission(SetPermission(p, a, f, v), a, f, w), SetPermission(p, a, f, w));
  }

  function EmptyRoleDraft(): RoleDraft
  {
    RoleDraft("", "", NoPermissions())
  }

  function EmptyUserDraft(): UserDraft
  {
    UserDraft("", "", "", "viewer")
  }

  /**
   * `[...prev, roleToAdd]` with `roleToAdd = {id: prev.length + 1, ...draft, userCount: 0}`:
   * the existing roles stay in front, unchanged, and exactly one role built
   * from the draft joins at the end.
   */
  function AppendRole(roles: seq<Role>, draft: RoleDraft): (r: seq<Role>)
    ensures |r| == |roles| + 1
    ensures r[..|roles|] == roles
    ensures r[|roles|].id == |roles| + 1 && r[|roles|].userCount == 0
    ensures r[|roles|].name == draft.name && r[|roles|].description == draft.description
    ensures r[|roles|].permissions == draft.permissions
  {
    roles + [Role(|roles| + 1, draft.name, draft.description, draft.permissions, 0)]
  }

  /** `prev.filter(role => role.id !== roleId)`. */
  function DeleteRole(roles: seq<Role>, roleId: int): (r: seq<Role>)
    ensures IsSubsequence(r, roles)
    ensures forall x :: x in r ==> x.id != roleId
    ensures forall x :: multiset(r)[x] == if x.id != roleId then multiset(roles)[x] else 0
  {
    var keep := (x: Role) => x.id != roleId;
    FilterIsSubsequence(roles, keep);
    FilterKeepsExactly(roles, keep);
    Filter(roles, keep)
  }

  lemma DeleteRoleCons(x: Role, rest: seq<Role>, roleId: int)
    ensures DeleteRole([x] + rest, roleId) == (if x.id != roleId then [x] else []) + DeleteRole(rest, roleId)
  {
    assert ([x] + rest)[1..] == rest;
  }

  /** Deleting a role id that no role carries changes nothing. */
  lemma DeleteAbsentRole(roles: seq<Role>, roleId: int)
    requires forall i :: 0 <= i < |roles| ==> roles[i].id != roleId
    ensures DeleteRole(roles, roleId) == roles
  {
    var r := DeleteRole(roles, roleId);
    forall x ensures multiset(r)[x] == multiset(roles)[x] {
      if x.id == roleId {
        assert x !in roles;
      }
    }
    assert multiset(r) == multiset(roles);
    SubsequenceFull(r, roles);
  }

  /** Deleting the same role id twice is the same as deleting it once. */
  lemma DeleteRoleIdempotent(roles: seq<Role>, roleId: int)
    ensures DeleteRole(DeleteRole(roles, roleId), roleId) == DeleteRole(roles, roleId)
  {
    DeleteAbsentRole(DeleteRole(roles, roleId), roleId);
  }

  /** The role at index i after `updateRolePermission(roleId, area, flag, value)`. */
  function UpdatedRole(role: Role, roleId: int, a: Area, f: Flag, value: bool): Role
  {
    if role.id == roleId then role.(permissions := SetPermission(role.permissions, a, f, value)) else role
  }

  /**
   * `prev.map(role => role.id === roleId ? {...role, permissions: ...} : role)`:
   * the same roles in the same order; on each role carrying roleId only the
   * chosen flag of the chosen area changes; every other role, field and flag
   * is untouched.
   */
  function UpdateRolePermission(roles: seq<Role>, roleId: int, a: Area, f: Flag, value: bool): (r: seq<Role>)
    ensures |r| == |roles|
    ensures forall i :: 0 <= i < |roles| && roles[i].id != roleId ==> r[i] == roles[i]
    ensures forall i :: 0 <= i < |roles| ==>
      r[i].id == roles[i].id && r[i].name == roles[i].name &&
      r[i].description == roles[i].description && r[i].userCount == roles[i].userCount
    ensures forall i :: 0 <= i < |roles| && roles[i].id == roleId ==>
      Granted(r[i].permissions, a, f) == value &&
      forall b, g :: (b != a || g != f) ==> Granted(r[i].permissions, b, g) == Granted(roles[i].permissions, b, g)
  {
    seq(|roles|, i requires 0 <= i < |roles| => UpdatedRole(roles[i], roleId, a, f, value))
  }

  /**
   * `updateNewRolePermission`: the chosen flag of the chosen area of the draft
   * takes the new value; name, description and the other flags are unchanged.
   */
  function UpdateDraftPermission(draft: RoleDraft, a: Area, f: Flag, value: bool): (r: RoleDraft)
    ensures r.name == draft.name && r.description == draft.description
    ensures Granted(r.permissions, a, f) == value
    ensures forall b, g :: (b != a || g != f) ==> Granted(r.permissions, b, g) == Granted(draft.permissions, b, g)
  {
    draft.(permissions := SetPermission(draft.permissions, a, f, value))
  }

  /** The ids of a role list are 1, 2, ..., n in order: what a table never deleted from looks like. */
  ghost predicate NumberedFromOne(roles: seq<Role>)
  {
    forall i :: 0 <= i < |roles| ==> roles[i].id == i + 1
  }

  /** Without deletions, `length + 1` does produce fresh, consecutive ids. */
  lemma AppendKeepsNumbering(roles: seq<Role>, draft: RoleDraft)
    requires NumberedFromOne(roles)
    ensures NumberedFromOne(AppendRole(roles, draft))
    ensures forall x :: x in roles ==> x.id != AppendRole(roles, draft)[|roles|].id
  {
  }

  /** Deleting id 1 from consecutively numbered roles removes exactly the first role. */
  lemma DeleteFirstRole(roles: seq<Role>)
    requires |roles| >= 1 && NumberedFromOne(roles)
    ensures DeleteRole(roles, 1) == roles[1..]
  {
    assert DeleteRole(roles, 1) == DeleteRole(roles[1..], 1) by {
      assert roles == [roles[0]] + roles[1..];
      DeleteRoleCons(roles[0], roles[1..], 1);
    }
    DeleteAbsentRole(roles[1..], 1);
  }

  /**
   * Ids are not unique: in a table numbered 1..n (n >= 2), deleting role 1 and
   * then adding a role gives the new role the id n, which the last old role
   * already has.
   */
  lemma {:induction false} DeleteThenAddDuplicatesId(roles: seq<Role>, draft: RoleDraft)
    requires |roles| >= 2 && NumberedFromOne(roles)
    ensures var r := AppendRole(DeleteRole(roles, 1), draft);
      |r| == |roles| && r[|r| - 1].id == r[|r| - 2].id == |roles|
  {
    DeleteFirstRole(roles);
    var d := DeleteRole(roles, 1);
    var r := AppendRole(d, draft);
    assert r[|r| - 2] == r[..|d|][|d| - 1] == roles[|roles| - 1];
  }

  /** Badge variants of the user table (`getRoleBadgeVariant`, `getStatusBadgeVariant`). */
  datatype BadgeVariant = Default | Secondary | Outline

  function RoleBadgeVariant(role: string): (v: BadgeVariant)
    ensures v == Default <==> role == "admin"
    ensures v == Secondary <==> role == "editor"
    ensures v == Outline <==> role != "admin" && role != "editor"
  {
    if role == "admin" then Default
    else if role == "editor" then Secondary
    else Outline
  }

  function StatusBadgeVariant(status: string): (v: BadgeVariant)
    ensures v == Default <==> status == "active"
    ensures v == Secondary <==> status == "invited"
    ensures v == Outline <==> status != "active" && status != "invited"
  {
    if status == "active" then Default
    else if status == "invited" then Secondary
    else Outline
  }

  /** Icon shown next to a user's role (`getRoleIcon`). */
  datatype RoleIcon = ShieldIcon | EditIcon | EyeIcon | UsersIcon

  function RoleIconFor(role: string): (icon: RoleIcon)
    ensures icon == ShieldIcon <==> role == "admin"
    ensures icon == EditIcon <==> role == "editor"
    ensures icon == EyeIcon <==> role == "viewer"
    ensures icon == UsersIcon <==> role !in {"admin", "editor", "viewer"}
  {
    if role == "admin" then ShieldIcon
    else if role == "editor" then EditIcon
    else if role == "viewer" then EyeIcon
    else UsersIcon
  }

  /** The four statistic cards at the top of the page. */
  datatype UserStats = UserStats(totalUsers: nat, activeUsers: nat, pendingInvites: nat, customRoles: nat)

  function StatsOf(users: seq<User>, roles: seq<Role>): (r: UserStats)
    ensures r.totalUsers == |users| && r.customRoles == |roles|
    ensures r.activeUsers + r.pendingInvites <= r.totalUsers
    ensures r.activeUsers == |Filter(users, (u: User) => u.status == "active")|
    ensures r.pendingInvites == |Filter(users, (u: User) => u.status == "invited")|
  {
    var active := (u: User) => u.status == "active";
    var invited := (u: User) => u.status == "invited";
    FilterDisjointLength(users, active, invited);
    UserStats(|users|, |Filter(users, active)|, |Filter(users, invited)|, |roles|)
  }

  function SeedRoles(): seq<Role>
  {
    var none := Access(false, false);
    var ro := Access(true, false);
    var rw := Access(true, true);
    [ Role(1, "Support Agent", "Limited access for customer support",
           Permissions(ro, none, ro, rw, none, none), 2),
      Role(2, "Marketing Manager", "Access to customization and analytics",
           Permissions(ro, rw, ro, rw, rw, none), 1) ]
  }

  function SeedUsers(): seq<User>
  {
    [ User(1, "John", "Doe", "john.doe@company.com", "admin", "active", "2 hours ago", ""),
      User(2, "Sarah", "Wilson", "sarah.wilson@company.com", "editor", "active", "1 day ago", ""),
      User(3, "Mike", "Johnson", "mike.johnson@company.com", "viewer", "invited", "Never", "") ]
  }

  /** The component state of the page. `users` has no setter in the page. */
  class Page {
    var isAddUserOpen: bool
    var isAddRoleOpen: bool
    var newUser: UserDraft
    var newRole: RoleDraft
    var users: seq<User>
    var customRoles: seq<Role>

    constructor ()
      ensures !isAddUserOpen && !isAddRoleOpen
      ensures newUser == EmptyUserDraft() && newRole == EmptyRoleDraft()
      ensures users == SeedUsers() && customRoles == SeedRoles()
    {
      isAddUserOpen, isAddRoleOpen := false, false;
      newUser, newRole := EmptyUserDraft(), EmptyRoleDraft();
      users, customRoles := SeedUsers(), SeedRoles();
    }

    /** The statistic cards, recomputed from the current state on every render. */
    function Stats(): (r: UserStats)
      reads this
      ensures r.totalUsers == |users| && r.customRoles == |customRoles|
      ensures r.activeUsers == |Filter(users, (u: User) => u.status == "active")|
      ensures r.pendingInvites == |Filter(users, (u: User) => u.status == "invited")|
      ensures r.activeUsers + r.pendingInvites <= |users|
    {
      StatsOf(users, customRoles)
    }

    /** Opening or closing a dialog (`onOpenChange`). */
    method SetAddUserOpen(open: bool)
      modifies this`isAddUserOpen
      ensures isAddUserOpen == open
    {
      isAddUserOpen := open;
    }

    method SetAddRoleOpen(open: bool)
      modifies this`isAddRoleOpen
      ensures isAddRoleOpen == open
    {
      isAddRoleOpen := open;
    }

    /** Typing into the invite form. */
    method EditNewUser(draft: UserDraft)
      modifies this`newUser
      ensures newUser == draft
    {
      newUser := draft;
    }

    /** Typing the name and description of the draft role. */
    method EditNewRole(name: string, description: string)
      modifies this`newRole
      ensures newRole == old(newRole).(name := name, description := description)
    {
      newRole := newRole.(name := name, description := description);
    }

    /**
     * `handleAddUser`: refuses when email, first or last name is empty; else
     * resets the draft to empty fields with role "viewer" and closes the
     * dialog. The list of users is never touched.
     */
    method AddUser() returns (notice: Notice)
      modifies this`newUser, this`isAddUserOpen
      ensures users == old(users) && customRoles == old(customRoles)
      ensures old(newUser.email == "" || newUser.firstName == "" || newUser.lastName == "") ==>
        notice == MissingInformation && newUser == old(newUser) && isAddUserOpen == old(isAddUserOpen)
      ensures old(newUser.email != "" && newUser.firstName != "" && newUser.lastName != "") ==>
        notice == UserInvited(old(newUser.email)) && newUser == EmptyUserDraft() && !isAddUserOpen
    {
      if newUser.email == "" || newUser.firstName == "" || newUser.lastName == "" {
        return MissingInformation;
      }
      notice := UserInvited(newUser.email);
      newUser := EmptyUserDraft();
      isAddUserOpen := false;
    }

    /** `handleDeleteUser` only announces the removal: no state changes at all. */
    method DeleteUser(userId: int, userName: string) returns (notice: Notice)
      ensures notice == UserRemoved(userName)
      ensures users == old(users)
    {
      notice := UserRemoved(userName);
    }

    /**
     * `handleAddRole`: an empty draft name changes nothing; otherwise the draft
     * joins the table as a new role, the draft is reset and the dialog closes.
     */
    method AddRole() returns (notice: Notice)
      modifies this`customRoles, this`newRole, this`isAddRoleOpen
      ensures users == old(users)
      ensures old(newRole.name) == "" ==>
        notice == MissingInformation && customRoles == old(customRoles) &&
        newRole == old(newRole) && isAddRoleOpen == old(isAddRoleOpen)
      ensures old(newRole.name) != "" ==>
        notice == RoleCreated(old(newRole.name)) &&
        customRoles == AppendRole(old(customRoles), old(newRole)) &&
        newRole == EmptyRoleDraft() && !isAddRoleOpen
    {
      if newRole.name == "" {
        return MissingInformation;
      }
      customRoles := AppendRole(customRoles, newRole);
      notice := RoleCreated(newRole.name);
      newRole := EmptyRoleDraft();
      isAddRoleOpen := false;
    }

    /** `handleDeleteRole`. */
    method DeleteRoleById(roleId: int, roleName: string) returns (notice: Notice)
      modifies this`customRoles
      ensures customRoles == DeleteRole(old(customRoles), roleId)
      ensures notice == RoleDeleted(roleName)
    {
      customRoles := DeleteRole(customRoles, roleId);
      notice := RoleDeleted(roleName);
    }

    /** `updateRolePermission`, a switch toggled in a role card. */
    method SetRolePermission(roleId: int, a: Area, f: Flag, value: bool)
      modifies this`customRoles
      ensures customRoles == UpdateRolePermission(old(customRoles), roleId, a, f, value)
    {
      customRoles := UpdateRolePermission(customRoles, roleId, a, f, value);
    }

    /** `updateNewRolePermission`, a switch toggled in the "Create Role" dialog. */
    method SetNewRolePermission(a: Area, f: Flag, value: bool)
      modifies this`newRole
      ensures newRole == UpdateDraftPermission(old(newRole), a, f, value)
    {
      newRole := UpdateDraftPermission(newRole, a, f, value);
    }
  }
}
