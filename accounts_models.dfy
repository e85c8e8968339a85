/** accounts/models.py: the user record the permission rules read. */
module AccountsModels {

  /** A user as the request sees it; an anonymous visitor is one that is not
      authenticated. `groups` holds the names of the user's auth groups. */
  datatype User = User(
    id: nat,
    username: string,
    isAuthenticated: bool,
    isSuperuser: bool,
    isStaff: bool,
    groups: set<string>,
    socio: bool)
}
