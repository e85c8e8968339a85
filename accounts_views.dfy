/**
 * accounts/views.py: a customer's bookings and the staff view of them (with
 * the "can cancel" flag), the user list split into staff and customers,
 * toggling the member flag, and deleting a user.
 */
module AccountsViews {
  import opened Wrappers
  import opened Seqs
  import opened SalesModels
  import opened AccountsModels
  import opened Permissions
  import opened SalesViews

  // ----- Bookings lists -----

  /** One line of a bookings page: the ticket and whether it can still be cancelled. */
  datatype Item = Item(b: Biglietto, canCancel: bool)

  /** Newest showtime first. */
  function StartDescending(b: Biglietto): seq<int> {
    [-b.proiezione.dataOra]
  }

  predicate OwnedBy(b: Biglietto, uid: nat) { b.utente == Some(uid) }

  /** The tickets of user `uid`, latest showtime first. */
  function UserBookings(tickets: seq<Biglietto>, uid: nat): (r: seq<Biglietto>)
    ensures multiset(r) == multiset(Filter(tickets, (b: Biglietto) => OwnedBy(b, uid)))
    ensures SortedBy(r, StartDescending)
  {
    SortBy(Filter(tickets, (b: Biglietto) => OwnedBy(b, uid)), StartDescending)
  }

  /** The user's bookings are exactly their tickets, each as often as in the
      table, ordered from the latest showtime back. */
  lemma UserBookingsSpec(tickets: seq<Biglietto>, uid: nat)
    ensures forall b :: b in UserBookings(tickets, uid) <==> b in tickets && b.utente == Some(uid)
    ensures forall b :: multiset(UserBookings(tickets, uid))[b] == if b.utente == Some(uid) then multiset(tickets)[b] else 0
    ensures forall i, j :: 0 <= i < j < |UserBookings(tickets, uid)| ==>
      UserBookings(tickets, uid)[i].proiezione.dataOra >= UserBookings(tickets, uid)[j].proiezione.dataOra
  {
    var f := Filter(tickets, (b: Biglietto) => OwnedBy(b, uid));
    var r := UserBookings(tickets, uid);
    forall b: Biglietto ensures multiset(r)[b] == if b.utente == Some(uid) then multiset(tickets)[b] else 0 {
      FilterCount(tickets, (b: Biglietto) => OwnedBy(b, uid), b);
    }
    forall b: Biglietto ensures b in r <==> b in tickets && b.utente == Some(uid) {
      assert b in r <==> b in multiset(r);
      assert b in f <==> b in multiset(f);
    }
    forall i, j | 0 <= i < j < |r| ensures r[i].proiezione.dataOra >= r[j].proiezione.dataOra {
      assert LexLe(StartDescending(r[i]), StartDescending(r[j]));
    }
  }

  /** The loop building the page items: each ticket with its cancel flag. */
  method BookingItems(qs: seq<Biglietto>, now: int) returns (items: seq<Item>)
    ensures |items| == |qs|
    ensures forall i :: 0 <= i < |qs| ==> items[i].b == qs[i]
    ensures forall i :: 0 <= i < |qs| ==> (items[i].canCancel <==> Cancellable(qs[i].proiezione.dataOra, now))
  {
    items := [];
    for k := 0 to |qs|
      invariant |items| == k
      invariant forall i :: 0 <= i < k ==> items[i] == Item(qs[i], Cancellable(qs[i].proiezione.dataOra, now))
    {
      var b := qs[k];
      var canCancel := now < b.proiezione.dataOra - CANCEL_NOTICE;
      items := items + [Item(b, canCancel)];
    }
  }

  /** Distinct keys make a ticket findable by its key. */
  lemma {:induction false} FindTicketUnique(ts: seq<Biglietto>, b: Biglietto, n: nat)
    requires KeysBelow(ts, n) && b in ts
    ensures FindTicket(ts, b.id) == Some(b)
  {
    if ts[0] != b {
      assert ts[0].id != b.id by {
        var j :| 0 <= j < |ts| && ts[j] == b;
      }
      assert KeysBelow(ts[1..], n) by {
        forall i, j | 0 <= i < j < |ts[1..]| ensures ts[1..][i].id != ts[1..][j].id {
          assert ts[1..][i] == ts[i + 1] && ts[1..][j] == ts[j + 1];
        }
      }
      assert b in ts[1..] by {
        var j :| 0 <= j < |ts| && ts[j] == b;
        assert j > 0;
        assert ts[1..][j - 1] == b;
      }
      FindTicketUnique(ts[1..], b, n);
    }
  }

  /** The flag shown next to a booking is exactly whether the owner's
      cancellation would go through. */
  lemma CanCancelAgreesWithAnnulla(ts: seq<Biglietto>, n: nat, b: Biglietto, u: User, now: int)
    requires KeysBelow(ts, n) && b in ts
    requires u.isAuthenticated && b.utente == Some(u.id)
    ensures Cancellable(b.proiezione.dataOra, now) <==> CancelDecision(ts, b.id, u, true, now) == Cancelled
  {
    FindTicketUnique(ts, b, n);
  }

  datatype BookingsError = MustLogIn | NotAuthorised | UserNotFound | NotCliente

  /** `mie_prenotazioni`: the requester's own bookings. */
  method MiePrenotazioni(tickets: seq<Biglietto>, u: User, now: int) returns (r: Result<seq<Item>, BookingsError>)
    ensures r.Failure? <==> !u.isAuthenticated
    ensures r.Failure? ==> r.error == MustLogIn
    ensures r.Success? ==> |r.value| == |UserBookings(tickets, u.id)|
    ensures r.Success? ==> forall i :: 0 <= i < |r.value| ==>
      r.value[i] == Item(UserBookings(tickets, u.id)[i], Cancellable(UserBookings(tickets, u.id)[i].proiezione.dataOra, now))
  {
    if !u.isAuthenticated {
      return Failure(MustLogIn);
    }
    var items := BookingItems(UserBookings(tickets, u.id), now);
    r := Success(items);
  }

  /** The user row with this primary key. */
  function FindUser(users: seq<User>, id: nat): (r: Option<User>)
    ensures r.Some? ==> r.value in users && r.value.id == id
    ensures r.None? ==> forall v :: v in users ==> v.id != id
  {
    if users == [] then None
    else if users[0].id == id then Some(users[0])
    else FindUser(users[1..], id)
  }

  /** The guards shared by the staff view of a user's bookings and the member
      toggle: a user manager, an existing target, a customer target. */
  function CustomerTarget(users: seq<User>, actor: User, targetId: nat): (r: Result<User, BookingsError>)
    ensures r.Success? <==> CanManageUsers(actor) && FindUser(users, targetId).Some? && IsCliente(FindUser(users, targetId).value)
    ensures r.Success? ==> r.value == FindUser(users, targetId).value
  {
    if !CanManageUsers(actor) then Failure(NotAuthorised)
    else
      match FindUser(users, targetId)
      case None => Failure(UserNotFound)
      case Some(target) => if !IsCliente(target) then Failure(NotCliente) else Success(target)
  }

  /** `prenotazioni_utente`: a user manager looks at a customer's bookings. */
  method PrenotazioniUtente(users: seq<User>, tickets: seq<Biglietto>, actor: User, targetId: nat, now: int)
    returns (r: Result<seq<Item>, BookingsError>)
    ensures !actor.isAuthenticated ==> r == Failure(MustLogIn)
    ensures actor.isAuthenticated ==> (r.Success? <==> CustomerTarget(users, actor, targetId).Success?)
    ensures actor.isAuthenticated && r.Failure? ==> r.error == CustomerTarget(users, actor, targetId).error
    ensures r.Success? ==> |r.value| == |UserBookings(tickets, targetId)|
    ensures r.Success? ==> forall i :: 0 <= i < |r.value| ==>
      r.value[i] == Item(UserBookings(tickets, targetId)[i], Cancellable(UserBookings(tickets, targetId)[i].proiezione.dataOra, now))
  {
    if !actor.isAuthenticated {
      return Failure(MustLogIn);
    }
    var target := CustomerTarget(users, actor, targetId);
    if target.Failure? {
      return Failure(target.error);
    }
    var items := BookingItems(UserBookings(tickets, target.value.id), now);
    r := Success(items);
  }

  // ----- User list -----

  predicate InStaffGroup(v: User) { v.groups * STAFF_GROUPS != {} }
  predicate NotInStaffGroup(v: User) { !InStaffGroup(v) }

  /** `staff_users`: the users in the segretario or gestore_film group. */
  function StaffUsers(users: seq<User>): (r: seq<User>)
    ensures forall v :: v in r <==> v in users && InStaffGroup(v)
  {
    Filter(users, InStaffGroup)
  }

  /** `client_users`: every other user. */
  function ClientUsers(users: seq<User>): (r: seq<User>)
    ensures forall v :: v in r <==> v in users && !InStaffGroup(v)
  {
    Filter(users, NotInStaffGroup)
  }

  /** The two lists split the users: every user is in exactly one of them, as
      often as in the table. The split goes by group only, so a superuser or
      `is_staff` user with no staff group is listed with the customers. */
  lemma UserListPartition(users: seq<User>)
    ensures multiset(StaffUsers(users)) + multiset(ClientUsers(users)) == multiset(users)
    ensures forall v :: v in users ==> (v in StaffUsers(users) <==> v !in ClientUsers(users))
    ensures forall v :: v in StaffUsers(users) && v.isAuthenticated ==> IsOperationalStaff(v)
    ensures forall v :: v in ClientUsers(users) && v.isAuthenticated ==>
      (IsCliente(v) <==> !v.isSuperuser && !v.isStaff)
  {
    forall v ensures (multiset(StaffUsers(users)) + multiset(ClientUsers(users)))[v] == multiset(users)[v] {
      FilterCount(users, InStaffGroup, v);
      FilterCount(users, NotInStaffGroup, v);
    }
  }

  /** `UserListView.get_queryset`: all users ordered by username. */
  function UsersByName(users: seq<User>): (r: seq<User>)
    ensures multiset(r) == multiset(users)
    ensures forall i, j :: 0 <= i < j < |r| ==> LexLe(StringKey(r[i].username), StringKey(r[j].username))
  {
    SortBy(users, (v: User) => StringKey(v.username))
  }

  // ----- Member flag and deletion -----

  datatype ToggleOutcome = ToggleNotAuthorised | ToggleUserNotFound | ToggleNotCliente | Toggled

  /** The table with the member flag of user `id` negated. */
  function FlipSocio(users: seq<User>, id: nat): (r: seq<User>)
    ensures |r| == |users|
  {
    seq(|users|, i requires 0 <= i < |users| => if users[i].id == id then users[i].(socio := !users[i].socio) else users[i])
  }

  /** Toggling negates the flag of the target and of nobody else, and changes
      no other field; doing it twice restores the table. */
  lemma FlipSocioSpec(users: seq<User>, id: nat)
    ensures forall i :: 0 <= i < |users| ==> FlipSocio(users, id)[i].(socio := users[i].socio) == users[i]
    ensures forall i :: 0 <= i < |users| ==>
      (FlipSocio(users, id)[i].socio <==> if users[i].id == id then !users[i].socio else users[i].socio)
    ensures FlipSocio(FlipSocio(users, id), id) == users
  {
  }

  datatype DeleteOutcome =
    | DeleteNotAuthorised
    | DeleteUserNotFound
    | HasBookings
    | TargetIsSuperuser
    | TargetIsSelf
    | DeleteForbidden
    | UserDeleted

  predicate HasTicket(tickets: seq<Biglietto>, uid: nat) {
    exists i :: 0 <= i < |tickets| && tickets[i].utente == Some(uid)
  }

  /** `UserDeleteView.post`: the guards in the order the view runs them. */
  function DeleteDecision(users: seq<User>, tickets: seq<Biglietto>, actor: User, targetId: nat): (o: DeleteOutcome)
    ensures o == UserDeleted ==> FindUser(users, targetId).Some?
  {
    if !actor.isAuthenticated || !CanManageUsers(actor) then DeleteNotAuthorised
    else
      match FindUser(users, targetId)
      case None => DeleteUserNotFound
      case Some(target) =>
        if HasTicket(tickets, target.id) then HasBookings
        else if target.isSuperuser then TargetIsSuperuser
        else if target.id == actor.id then TargetIsSelf
        else if !CanDeleteUser(actor, target) then DeleteForbidden
        else UserDeleted
  }

  /** A user is deleted exactly when the actor manages users, the target
      exists and holds no ticket at all, and the delete matrix allows it; the
      superuser and self guards add nothing to the matrix. */
  lemma DeleteIff(users: seq<User>, tickets: seq<Biglietto>, actor: User, targetId: nat)
    ensures DeleteDecision(users, tickets, actor, targetId) == UserDeleted <==>
      CanManageUsers(actor) && FindUser(users, targetId).Some?
      && !HasTicket(tickets, targetId)
      && CanDeleteUser(actor, FindUser(users, targetId).value)
  {
  }

  /** Any ticket blocks the deletion, however long ago its showtime was. */
  lemma PastTicketBlocksDelete(users: seq<User>, tickets: seq<Biglietto>, actor: User, target: User, b: Biglietto, now: int)
    requires CanManageUsers(actor) && FindUser(users, target.id) == Some(target)
    requires b in tickets && b.utente == Some(target.id) && b.proiezione.dataOra < now
    ensures DeleteDecision(users, tickets, actor, target.id) == HasBookings
  {
    var i :| 0 <= i < |tickets| && tickets[i] == b;
  }

  /** The table after deleting user `id`. */
  function WithoutUser(users: seq<User>, id: nat): (r: seq<User>)
    ensures forall v :: v in r <==> v in users && v.id != id
  {
    if users == [] then [] else (if users[0].id != id then [users[0]] else []) + WithoutUser(users[1..], id)
  }

  /** Primary keys are distinct; every stored user is a real account. */
  ghost predicate UsersValid(users: seq<User>) {
    (forall i, j :: 0 <= i < j < |users| ==> users[i].id != users[j].id)
    && (forall i :: 0 <= i < |users| ==> users[i].isAuthenticated)
  }

  lemma ConsUserKeepsValid(v: User, users: seq<User>)
    requires UsersValid(users) && v.isAuthenticated
    requires forall w :: w in users ==> w.id != v.id
    ensures UsersValid([v] + users)
  {
    var r := [v] + users;
    forall i, j | 0 <= i < j < |r| ensures r[i].id != r[j].id {
      assert r[j] == users[j - 1];
      if i > 0 { assert r[i] == users[i - 1]; }
    }
  }

  /** Deleting a user keeps the table valid. */
  lemma {:induction false} WithoutUserKeepsValid(users: seq<User>, id: nat)
    requires UsersValid(users)
    ensures UsersValid(WithoutUser(users, id))
  {
    if users != [] {
      var t := users[1..];
      assert UsersValid(t) by {
        forall i, j | 0 <= i < j < |t| ensures t[i].id != t[j].id {
          assert t[i] == users[i + 1] && t[j] == users[j + 1];
        }
      }
      WithoutUserKeepsValid(t, id);
      var rest := WithoutUser(t, id);
      if users[0].id != id {
        assert WithoutUser(users, id) == [users[0]] + rest;
        forall w | w in rest ensures w.id != users[0].id {
          var k :| 0 <= k < |t| && t[k] == w;
          assert users[k + 1] == w;
        }
        ConsUserKeepsValid(users[0], rest);
      } else {
        assert WithoutUser(users, id) == rest;
      }
    }
  }

  class UserDirectory {
    var users: seq<User>

    ghost predicate Valid()
      reads this
    {
      UsersValid(users)
    }

    constructor (users: seq<User>)
      requires UsersValid(users)
      ensures Valid() && this.users == users
    {
      this.users := users;
    }

    /** `ToggleSocioView.post`. */
    method ToggleSocio(actor: User, targetId: nat) returns (o: ToggleOutcome)
      requires Valid()
      modifies this
      ensures Valid()
      ensures o == Toggled <==> CustomerTarget(old(users), actor, targetId).Success?
      ensures o == Toggled ==> users == FlipSocio(old(users), targetId)
      ensures o != Toggled ==> users == old(users)
      ensures o == ToggleNotAuthorised <==> !CanManageUsers(actor)
    {
      if !actor.isAuthenticated || !CanManageUsers(actor) {
        return ToggleNotAuthorised;
      }
      var target := FindUser(users, targetId);
      if target.None? {
        return ToggleUserNotFound;
      }
      if !IsCliente(target.value) {
        return ToggleNotCliente;
      }
      users := FlipSocio(users, targetId);
      o := Toggled;
    }

    /** `UserDeleteView.post`. */
    method Delete(actor: User, targetId: nat, tickets: seq<Biglietto>) returns (o: DeleteOutcome)
      requires Valid()
      modifies this
      ensures Valid()
      ensures o == DeleteDecision(old(users), tickets, actor, targetId)
      ensures o == UserDeleted ==> users == WithoutUser(old(users), targetId)
      ensures o != UserDeleted ==> users == old(users)
    {
      o := DeleteDecision(users, tickets, actor, targetId);
      if o == UserDeleted {
        WithoutUserKeepsValid(users, targetId);
        users := WithoutUser(users, targetId);
      }
    }
  }
}
