/**
 * accounts/permissions.py: group membership, the role of a user, and who may
 * manage and delete whom.
 */
module Permissions {
  import opened AccountsModels

  const GROUP_SEGRETARIO: string := "segretario"
  const GROUP_GESTORE: string := "gestore_film"
  const STAFF_GROUPS: set<string> := {GROUP_SEGRETARIO, GROUP_GESTORE}

  /** `has_any_group`: an authenticated user in at least one of `names`. */
  predicate HasAnyGroup(u: User, names: set<string>) {
    u.isAuthenticated && u.groups * names != {}
  }

  /** `is_admin`. */
  predicate IsAdmin(u: User) {
    u.isAuthenticated && u.isSuperuser
  }

  /** `is_operational_staff`. */
  predicate IsOperationalStaff(u: User) {
    u.isAuthenticated && (u.isSuperuser || u.isStaff || HasAnyGroup(u, STAFF_GROUPS))
  }

  /** `is_cliente`. */
  predicate IsCliente(u: User) {
    u.isAuthenticated && !IsOperationalStaff(u)
  }

  datatype Role = Anon | Admin | GestoreFilm | Segretario | Staff | Cliente

  /** The string `role` returns. */
  function RoleName(r: Role): string {
    match r
    case Anon => "anon"
    case Admin => "admin"
    case GestoreFilm => "gestore_film"
    case Segretario => "segretario"
    case Staff => "staff"
    case Cliente => "cliente"
  }

  /** `role`: the first matching of superuser, gestore_film group, segretario
      group, `is_staff`, in that order. */
  function RoleOf(u: User): (r: Role)
    ensures r == Anon <==> !u.isAuthenticated
    ensures r == Admin <==> IsAdmin(u)
  {
    if !u.isAuthenticated then Anon
    else if u.isSuperuser then Admin
    else if HasAnyGroup(u, {GROUP_GESTORE}) then GestoreFilm
    else if HasAnyGroup(u, {GROUP_SEGRETARIO}) then Segretario
    else if u.isStaff then Staff
    else Cliente
  }

  /** `can_manage_users`. */
  predicate CanManageUsers(u: User) {
    RoleOf(u) in {Segretario, GestoreFilm, Admin}
  }

  /** `can_delete_user`: users are compared by primary key. */
  predicate CanDeleteUser(actor: User, target: User) {
    if !actor.isAuthenticated then false
    else if target.id == actor.id then false
    else if target.isSuperuser then false
    else
      var a := RoleOf(actor);
      var t := RoleOf(target);
      if a == Segretario then t == Cliente
      else if a == GestoreFilm then t in {Cliente, Segretario}
      else if a == Admin then t in {Cliente, Segretario, GestoreFilm, Staff}
      else false
  }

  /** The delete matrix as a table of (actor role, target role) pairs. */
  const DELETE_MATRIX: set<(Role, Role)> := {
    (Segretario, Cliente),
    (GestoreFilm, Cliente), (GestoreFilm, Segretario),
    (Admin, Cliente), (Admin, Segretario), (Admin, GestoreFilm), (Admin, Staff)
  }

  /** An anonymous visitor is in no group, is not staff, has role "anon",
      manages nobody and deletes nobody. */
  lemma AnonymousHasNoRights(u: User, names: set<string>, target: User)
    requires !u.isAuthenticated
    ensures !HasAnyGroup(u, names) && !IsOperationalStaff(u) && !IsCliente(u)
    ensures RoleName(RoleOf(u)) == "anon"
    ensures !CanManageUsers(u) && !CanDeleteUser(u, target)
  {
  }

  /** The role precedence: superuser, then gestore_film, then segretario, then
      `is_staff`, then customer. */
  lemma RolePrecedence(u: User)
    requires u.isAuthenticated
    ensures RoleOf(u) == GestoreFilm <==> !u.isSuperuser && GROUP_GESTORE in u.groups
    ensures RoleOf(u) == Segretario <==>
      !u.isSuperuser && GROUP_GESTORE !in u.groups && GROUP_SEGRETARIO in u.groups
    ensures RoleOf(u) == Staff <==> !u.isSuperuser && u.groups * STAFF_GROUPS == {} && u.isStaff
    ensures RoleOf(u) == Cliente <==> !u.isSuperuser && u.groups * STAFF_GROUPS == {} && !u.isStaff
  {
    if GROUP_GESTORE in u.groups { assert GROUP_GESTORE in u.groups * {GROUP_GESTORE}; }
    if GROUP_SEGRETARIO in u.groups { assert GROUP_SEGRETARIO in u.groups * {GROUP_SEGRETARIO}; }
    if GROUP_GESTORE in u.groups { assert GROUP_GESTORE in u.groups * STAFF_GROUPS; }
    if GROUP_SEGRETARIO in u.groups { assert GROUP_SEGRETARIO in u.groups * STAFF_GROUPS; }
    assert u.groups * STAFF_GROUPS == {} <==>
      GROUP_GESTORE !in u.groups && GROUP_SEGRETARIO !in u.groups;
  }

  /** Operational staff are exactly the users whose role is not "anon" or
      "cliente"; customers are exactly the users whose role is "cliente". */
  lemma StaffIffStaffRole(u: User)
    ensures IsOperationalStaff(u) <==> RoleOf(u) in {Admin, GestoreFilm, Segretario, Staff}
    ensures IsCliente(u) <==> RoleOf(u) == Cliente
  {
    if u.isAuthenticated && !u.isSuperuser && !u.isStaff {
      assert u.groups * STAFF_GROUPS != {} <==>
        u.groups * {GROUP_GESTORE} != {} || u.groups * {GROUP_SEGRETARIO} != {} by {
        if x :| x in u.groups * STAFF_GROUPS {
          assert x == GROUP_GESTORE || x == GROUP_SEGRETARIO;
        }
        if x :| x in u.groups * {GROUP_GESTORE} { assert x in u.groups * STAFF_GROUPS; }
        if x :| x in u.groups * {GROUP_SEGRETARIO} { assert x in u.groups * STAFF_GROUPS; }
      }
    }
  }

  /** User managers are operational staff; a user who is staff only through
      `is_staff` cannot manage users. */
  lemma ManagersAreStaff(u: User)
    ensures CanManageUsers(u) ==> IsOperationalStaff(u)
    ensures RoleOf(u) == Staff ==> !CanManageUsers(u)
  {
    StaffIffStaffRole(u);
  }

  /** The delete rules: nobody deletes themselves or a superuser, and the
      remaining cases follow the role matrix. */
  lemma DeleteMatrixIff(actor: User, target: User)
    ensures CanDeleteUser(actor, target) <==>
      actor.isAuthenticated && target.id != actor.id && !target.isSuperuser
      && (RoleOf(actor), RoleOf(target)) in DELETE_MATRIX
  {
  }

  /** Whoever may delete a user may manage users, and an admin can never be
      deleted. */
  lemma DeletersAreManagers(actor: User, target: User)
    requires CanDeleteUser(actor, target)
    ensures CanManageUsers(actor)
    ensures RoleOf(target) != Admin
  {
  }
}
