# Cinema scheduling and booking rules, in Dafny

This project models the rules at the heart of a small Django cinema site. It covers:

- films and their three dates (release, local release, start of programming);
- the placement of showtimes (`Proiezione`) in a room with a 15-minute buffer;
- the ticket (`Biglietto`) store, with booking, cancellation, mark-paid and staff deletion;
- the seat grid shown on the booking page;
- user roles and user management (member flag, deletion);
- the public listings ("programmazione", "rassegna", "prossimamente", the staff film list, title suggestions and a room's schedule).

The database tables are sequences in primary-key order.
- Instants are integer minutes.
- Calendar days are integer day numbers. The day of an instant is `t / 1440`.
- Prices are integer cents: 800 by default and 600 for members.
- A showtime value carries its film record, and a ticket carries its showtime and seat. This matches the joined rows the views read.

The modules follow the program's layout:

| module | file | models |
|---|---|---|
| `CinemaModels` | cinema_models.dfy | cinema/models.py |
| `SalesModels` | sales_models.dfy | sales/models.py |
| `AccountsModels` | accounts_models.dfy | the user record of accounts/models.py |
| `Permissions` | permissions.dfy | accounts/permissions.py |
| `SalesViews` | sales_views.dfy | sales/views.py |
| `AccountsViews` | accounts_views.dfy | accounts/views.py |
| `CinemaViews` | cinema_views.dfy | cinema/views.py |
| `Text`, `Seqs` | text.dfy, seqs.dfy | the Python string operations and query-set steps (filter, `order_by`, slicing) the views use |
| `Wrappers` | wrappers.dfy | `Option` and `Result` |

Two parts of the code change state, and they are modelled as classes:
- `SalesViews.TicketStore` keeps the ticket table and the next primary key. It keeps the invariant that there is at most one ticket per (showtime, seat) and that keys are distinct.
- `AccountsViews.UserDirectory` keeps the user table.

`CinemaModels.FilmRecord.Save` fills in the film's dates in place before validating them. The seat grid is built by a loop (`SalesViews.GroupRows`), as in the view.

Where the code and its documentation or tests disagree, the model follows the code:
- **User deletion.** A user is not deleted if they hold any ticket at all, past or future (accounts/views.py:105). accounts/tests.py:56-70 expects past tickets not to block it. `AccountsViews.PastTicketBlocksDelete` states the behaviour as written.
- **The booking cap.** The cap of two tickets per showtime counts only reserved (PRENOTATO) tickets. Paid ones are not counted.
- **Ticket uniqueness.** Uniqueness of (showtime, seat) holds whatever the ticket's state. A seat with a cancelled-state ticket is still taken.
- **The user-list split.** The staff list goes by group membership only. A superuser or `is_staff` user with no staff group is listed with the customers.
- **Unset programming start.** A film with no programming start is not listed under "programmazione" (the `<=` filter drops NULL). The booking gate lets it through (cinema/views.py:73, sales/views.py:92).
- **Malformed seat ids.** A seat-id token that is not a number makes `int()` fail inside the transaction. The model rejects the booking and writes nothing.
- **Which message a placement gets.** A candidate that starts after an existing showtime and overlaps it gets the previous-showtime message, not the forward one (`CinemaModels.RoomScenario`).
- **The delete matrix.** The admin row includes the plain "staff" role, as the code says. The docstring of `can_delete_user` does not list it.

## Model

| member | source | states |
|---|---|---|
| CinemaModels.SeatTableValid | cinema/models.py:172-184 | the seat table's invariant: seat ids are distinct and no two seats share room, row and seat number (`uniq_posto_per_sala`) |
| CinemaModels.FilmClean | cinema/models.py:52-64 | the film is valid iff the local release is not before the release and programming does not start after the local release; each error field is set exactly when its own rule fails; an unset date passes every rule it takes part in |
| CinemaModels.FilmRecord.constructor | cinema/models.py:8-20 | a new unsaved film with the given dates |
| CinemaModels.FilmRecord.Save | cinema/models.py:66-76 | fills the local release from the release and the programming start from the local release only when unset, keeps explicit values, leaves both set, then persists the film iff it passes the date rules of `Film.clean` (the only part of `full_clean` modelled) |
| CinemaModels.SaveSucceedsIff | cinema/models.py:55-76 | as far as the date rules go, saving succeeds iff a given local release is not before the release and a given programming start is not after the local release as defaulted; a film with neither date gets both equal to the release and is valid |
| CinemaModels.TrailerEmbedUrl | cinema/models.py:22-50 | no URL or an empty one gives ""; otherwise the result is the stripped URL or a YouTube embed address with a non-empty video id |
| CinemaModels.TrailerEmbedKept | cinema/models.py:33-35 | a youtube.com `embed/` URL is returned stripped and unchanged |
| CinemaModels.TrailerShortLink | cinema/models.py:37-40 | a youtu.be link with a path gives the embed address of the path's first segment, which is non-empty and has no slash |
| CinemaModels.ShortLinkIdNonEmpty | cinema/models.py:38-39 | the first segment of a slash-stripped non-empty path is non-empty and has no slash |
| CinemaModels.TrailerWatchLink | cinema/models.py:42-47 | a youtube.com URL with a non-empty `v` query value gives the embed address of that value |
| CinemaModels.TrailerFallback | cinema/models.py:49-50 | a URL none of the three rows above applies to is returned stripped: another host, a youtu.be link with an empty path, or a youtube.com link with neither an `embed/` path nor a non-empty `v`; with the three lemmas above it covers every non-empty URL |
| CinemaModels.Fine | cinema/models.py:123-125 | the end of an existing showtime: its start plus its film's runtime plus the buffer |
| CinemaModels.Meets | cinema/models.py:105-130 | a showtime meets [start, end) when it starts before `end` and ends after `start` |
| CinemaModels.Overlap | cinema/models.py:105-130 | two showtimes overlap when one meets the other's occupied interval |
| CinemaModels.Others | cinema/models.py:111-113 | exactly the showtimes of the table other than the one being edited |
| CinemaModels.End | cinema/models.py:106-109 | a showtime occupies its start plus runtime plus the 15-minute buffer, so it ends after it starts |
| CinemaModels.RoomShowtimes | cinema/models.py:111-113 | the showtimes compared against are exactly those of the room, without the one being edited |
| CinemaModels.StartingWithin | cinema/models.py:116 | exactly the room's showtimes starting in [start, end) |
| CinemaModels.Previous | cinema/models.py:121 | the latest showtime of the room starting strictly before the candidate, or none when there is none |
| CinemaModels.ProiezioneClean | cinema/models.py:93-133 | a date error names the film's local release and the candidate's day is before it; a previous-showtime error names an earlier start |
| CinemaModels.ForwardConflictRejects | cinema/models.py:105-117 | a showtime of the room (other than the one edited) starting inside [start, start + runtime + 15) rejects the candidate with the forward message |
| CinemaModels.PreviousConflictIff | cinema/models.py:119-130 | with no forward conflict, the candidate is rejected iff the latest earlier showtime ends after the candidate's start; ending exactly at the start is accepted |
| CinemaModels.RoomConflictIff | cinema/models.py:104-130 | when the room's other showtimes do not overlap each other, the room check rejects iff some of them meets the candidate's interval, whatever the date rule says, so a room conflict's message replaces the date message |
| CinemaModels.DateErrorIff | cinema/models.py:96-102 | when the room check passes, a showtime is rejected iff the film has a local release and the showtime's day is before it |
| CinemaModels.AcceptedStartIsFree | cinema/models.py:139-144 | a placement the room check accepts never repeats the start of another showtime of the room, so the unique (sala, data_ora) constraint cannot fire |
| CinemaModels.AcceptedKeepsScheduleFree | cinema/models.py:93-133 | if no two showtimes of a room overlap, adding (or editing to) an accepted showtime keeps it so |
| CinemaModels.RoomScenario | cinema/tests.py:67-87 | after a 120-minute film at t, a candidate at t gets the forward message, one at t+60 the previous-showtime message, and one at t+135 is accepted |
| SalesModels.StatoCode | sales/models.py:5-8 | every state is stored as a three-letter code |
| SalesModels.StatoFromCode | sales/models.py:5-8 | a stored code is read back iff it is PRE, PAG or ANN |
| SalesModels.StatoRoundTrip | sales/models.py:5-8 | reading back the code of a state gives the state |
| SalesModels.NewBiglietto | sales/models.py:10-22 | a new ticket is reserved (PRE), costs 8.00, has no user and an empty name and phone |
| SalesModels.OneTicketPerSeat | sales/models.py:24-27 | the ticket table's invariant: no two tickets, in whatever state, share a (showtime, seat) pair (`uniq_posto_per_proiezione`) |
| Permissions.HasAnyGroup | accounts/permissions.py:9-12 | a signed-in user in at least one of the named groups (its consequences are stated by `AnonymousHasNoRights` and `RolePrecedence`) |
| Permissions.IsAdmin | accounts/permissions.py:15-16 | a signed-in superuser |
| Permissions.IsOperationalStaff | accounts/permissions.py:19-22 | a signed-in user who is a superuser, `is_staff`, or in segretario or gestore_film (related to the role by `StaffIffStaffRole`) |
| Permissions.IsCliente | accounts/permissions.py:25-26 | a signed-in user who is not operational staff |
| Permissions.CanManageUsers | accounts/permissions.py:43-44 | the role is segretario, gestore_film or admin (see `ManagersAreStaff`) |
| Permissions.CanDeleteUser | accounts/permissions.py:47-72 | the guards and role matrix of `can_delete_user` in the code's order (stated as a table by `DeleteMatrixIff`) |
| Permissions.RoleOf | accounts/permissions.py:29-40 | the role is "anon" iff the user is not authenticated, and "admin" iff `is_admin` holds |
| Permissions.AnonymousHasNoRights | accounts/permissions.py:9-31 | an anonymous visitor is in no group, is neither staff nor customer, has role "anon", manages nobody and deletes nobody |
| Permissions.RolePrecedence | accounts/permissions.py:29-40 | for a signed-in user: gestore_film iff not superuser and in that group; segretario iff also not in gestore_film and in segretario; staff iff no staff group and `is_staff`; cliente iff none of these |
| Permissions.StaffIffStaffRole | accounts/permissions.py:19-40 | `is_operational_staff` holds iff the role is admin, gestore_film, segretario or staff; `is_cliente` iff the role is cliente |
| Permissions.ManagersAreStaff | accounts/permissions.py:43-44 | user managers are operational staff; the plain staff role does not manage users |
| Permissions.DeleteMatrixIff | accounts/permissions.py:47-72 | deletion is allowed iff the actor is signed in, the target is not the actor and not a superuser, and (actor role, target role) is in the matrix segretario→cliente, gestore_film→cliente/segretario, admin→cliente/segretario/gestore_film/staff |
| Permissions.DeletersAreManagers | accounts/permissions.py:43-72 | whoever may delete a user may manage users, and no admin can be deleted |
| SalesViews.SeatTokens | sales/views.py:99-100 | the seat-id tokens are never empty |
| SalesViews.SeatTokensShape | sales/views.py:99-100 | every token is non-empty, has no comma and is already stripped |
| SalesViews.SeatTokensJoin | sales/views.py:99-100 | joining such tokens with commas and splitting again gives them back |
| SalesViews.ParseIds | sales/views.py:139 | the ids parse iff every token is a run of digits, one id per token, each the token's value |
| SalesViews.SeatIdsRoundTrip | sales/views.py:99-100 | the comma-joined decimal rendering of any ids parses back to the same ids |
| SalesViews.UnitPrice | sales/views.py:106-110 | 6.00 iff the booker is a non-staff member, 8.00 iff staff or not a member |
| SalesViews.HeldBy | sales/views.py:129 | a ticket counts against the cap iff it is for that showtime, belongs to that user and is still reserved (PRE) |
| SalesViews.CountPrenotati | sales/views.py:125-131 | the number of the user's reserved tickets for the showtime, never more than the tickets there are (its additivity is `CountPrenotatiAppend`) |
| SalesViews.CountPrenotatiAppend | sales/views.py:125-131 | the count of a user's reserved tickets for a showtime adds up over concatenation |
| SalesViews.NotReservedNotCounted | sales/views.py:129 | a paid or cancelled ticket does not count toward the cap |
| SalesViews.ResolveSeats | sales/views.py:137-140 | the resolved seats are exactly the seats of the showtime's room whose id was requested |
| SalesViews.ResolveDistinct | sales/views.py:137-140 | resolving from a table with distinct keys gives distinct seats |
| SalesViews.ResolveIdSet | sales/views.py:137-140 | the ids resolved are the requested ids that belong to the room |
| SalesViews.ResolveAllIff | sales/views.py:137-144 | as many seats as ids are found iff the ids are distinct and all in the showtime's room, so a foreign, unknown or repeated id fails the check |
| SalesViews.FindShowtime | sales/views.py:80-83 | finds a showtime with that key, or there is none |
| SalesViews.ShowingOn | sales/views.py:91-94 | a film may be booked today when its programming start is unset or not after today |
| SalesViews.BookingGate | sales/views.py:78-94 | a page that opens has a showtime not yet started whose film is showing today |
| SalesViews.GateRules | sales/views.py:78-94 | a started showtime is refused as past; a film whose programming starts after today is refused; the gate opens iff the start is not before now and the film is showing; staff and customers are treated alike |
| SalesViews.SeatTaken | sales/models.py:24-27 | some existing ticket of the showtime, in any state, holds one of the seats: the clash the unique constraint rejects |
| SalesViews.PlanBooking | sales/views.py:99-164 | an accepted plan has parsed ids, resolves exactly the requested seats of the room, one per token, none of them already taken |
| SalesViews.NewTickets | sales/views.py:147-158 | one ticket per planned seat, with consecutive new keys |
| SalesViews.Book | sales/views.py:78-164 | a successful booking creates as many tickets as tokens, at least one |
| SalesViews.PlanSeats | sales/views.py:137-164 | an accepted plan's ids are distinct and in the room, its seats are distinct and exactly those ids' seats, and none has a ticket for the showtime |
| SalesViews.BookedSeats | sales/views.py:78-164 | a booking succeeds only for a signed-in user on an open showtime; it creates exactly one reserved ticket per requested seat, all in the room, dated now, on seats no ticket holds |
| SalesViews.BookedPriceAndHolder | sales/views.py:106-119 | every new ticket has the unit price; a staff booking needs a name or phone and creates tickets with no user and the stripped name and phone; a customer's tickets carry the user and no name or phone |
| SalesViews.BookRespectsCap | sales/views.py:125-134 | after a customer's booking the customer holds at most two reserved tickets for the showtime |
| SalesViews.OverCapRejected | sales/views.py:125-134 | a customer whose reserved tickets plus the request exceed two is refused |
| SalesViews.BookKeepsInvariant | sales/models.py:24-27 | a successful booking keeps one ticket per (showtime, seat) and distinct keys |
| SalesViews.FindTicket | sales/views.py:54 | finds a ticket with that key, or there is none |
| SalesViews.Without | sales/views.py:236 | deletion removes exactly the tickets with that key |
| SalesViews.WithoutKeepsValid | sales/models.py:24-27 | deleting a ticket keeps the table's invariant |
| SalesViews.CancelFreesSeat | sales/views.py:236-237 | after the deletion no ticket holds the cancelled ticket's seat for its showtime |
| SalesViews.Cancellable | sales/views.py:228-234 | now is strictly before one hour before the start |
| SalesViews.CancelDecision | sales/views.py:215-236 | a cancellation goes through only for a ticket of the requester |
| SalesViews.CancelRules | sales/views.py:215-236 | another user's ticket is not found; the owner's POST cancels iff now is before start minus one hour; at exactly one hour it is too late; a GET never cancels |
| SalesViews.MarkPaid | sales/views.py:53-56 | the table with the ticket of that key set to PAGATO, of the same length (what else it keeps is `MarkPaidOnlyState`) |
| SalesViews.MarkPaidOnlyState | sales/views.py:53-56 | marking paid sets the state of that ticket to PAGATO, changes no other field and no other ticket, and keeps the invariant |
| SalesViews.CellOf | sales/views.py:195-201 | the definition of the page's cell dict: the seat id, the label row followed by number, occupied iff the seat has a ticket; what the grid promises is proved by `GroupRows`, `GridCell` and `Occupied` |
| SalesViews.SeatOrderKey | sales/views.py:173 | the sort key of `order_by("fila", "numero_posto")`: row first, then seat number, each compared as a string; the separator below every character puts a row name before any longer one it begins |
| SalesViews.RoomSeats | sales/views.py:170-174 | exactly the room's seats, ordered by row then seat number |
| SalesViews.Occupied | sales/views.py:176-180 | a seat is occupied iff some ticket of the showtime, in any state, holds it |
| SalesViews.GroupRows | sales/views.py:182-204 | the rows list the seats in their order, cut into maximal runs of equal row: no row is empty, consecutive rows differ, and each seat's cell is its `CellOf` |
| SalesViews.GridCell | sales/views.py:182-204 | every cell of a row is the cell of a seat of that row |
| SalesViews.TicketStore.constructor | sales/models.py:10-27 | an empty ticket table |
| SalesViews.TicketStore.Prenota | sales/views.py:78-164 | inserts every ticket of a successful booking at once and nothing on failure, keeping one ticket per (showtime, seat) |
| SalesViews.TicketStore.SeatGrid | sales/views.py:169-204 | refuses with the gate's error when the gate fails, and otherwise returns the grid of the room's seats with their occupancy |
| SalesViews.TicketStore.Annulla | sales/views.py:215-238 | deletes the ticket exactly when the cancellation goes through, and otherwise changes nothing |
| SalesViews.TicketStore.SegnaPagato | sales/views.py:53-56 | marks an existing ticket paid; an unknown key changes nothing |
| SalesViews.TicketStore.StaffDelete | sales/views.py:61-75 | a GET is refused and changes nothing; a POST deletes an existing ticket; an unknown key is not found |
| AccountsViews.UserBookings | accounts/views.py:30-35 | exactly the user's tickets, each as often as in the table, latest showtime first |
| AccountsViews.UserBookingsSpec | accounts/views.py:144-148 | a ticket is listed iff it belongs to the user, with its multiplicity, in descending order of start |
| AccountsViews.BookingItems | accounts/views.py:37-40 | one item per ticket, in order, flagged cancellable iff now is before start minus one hour |
| AccountsViews.CanCancelAgreesWithAnnulla | accounts/views.py:151-157 | the cancel flag on a booking is true iff the owner's cancellation would go through |
| AccountsViews.MiePrenotazioni | accounts/views.py:140-162 | a signed-in user gets their bookings with the cancel flags; an anonymous visitor must log in |
| AccountsViews.FindUser | accounts/views.py:23 | finds a user with that key, or there is none |
| AccountsViews.CustomerTarget | accounts/views.py:19-27 | passes iff the actor manages users and the target exists and is a customer |
| AccountsViews.PrenotazioniUtente | accounts/views.py:17-48 | a user manager looking at an existing customer gets that customer's bookings with the cancel flags; otherwise the guard's error |
| AccountsViews.StaffUsers | accounts/views.py:84-86 | exactly the users in the segretario or gestore_film group |
| AccountsViews.ClientUsers | accounts/views.py:88-90 | exactly the users in neither staff group |
| AccountsViews.UserListPartition | accounts/views.py:84-90 | every user is in exactly one of the staff and customer lists, as often as in the table; listed staff are operational staff |
| AccountsViews.UsersByName | accounts/views.py:78-79 | all users, ordered by username |
| AccountsViews.FlipSocio | accounts/views.py:64-65 | the user table of the same length with the target's member flag negated (its meaning is `FlipSocioSpec`) |
| AccountsViews.FlipSocioSpec | accounts/views.py:64-65 | toggling negates the member flag of the target only, changes no other field, and twice restores the table |
| AccountsViews.HasTicket | accounts/views.py:105 | the user holds some ticket, in any state and for any showtime |
| AccountsViews.DeleteDecision | accounts/views.py:97-124 | a user is deleted only if the target exists |
| AccountsViews.DeleteIff | accounts/views.py:97-124 | a user is deleted iff the actor manages users, the target exists, holds no ticket, and the delete matrix allows it |
| AccountsViews.PastTicketBlocksDelete | accounts/views.py:105-107 | a ticket for a past showtime still blocks the deletion |
| AccountsViews.WithoutUser | accounts/views.py:122 | deletion removes exactly the users with that key |
| AccountsViews.WithoutUserKeepsValid | accounts/views.py:122 | deleting a user keeps the keys distinct |
| AccountsViews.UserDirectory.constructor | accounts/models.py:1-35 | a user table with distinct keys |
| AccountsViews.UserDirectory.ToggleSocio | accounts/views.py:51-68 | flips the target's member flag exactly when the guards pass, refuses a non-manager, and otherwise changes nothing |
| AccountsViews.UserDirectory.Delete | accounts/views.py:97-124 | removes the target exactly when the guard chain passes, and otherwise changes nothing |
| CinemaViews.SalaShowtimes | cinema/views.py:18-35 | at most 50 showtimes, all of the room and not yet started |
| CinemaViews.SalaShowtimesSpec | cinema/views.py:18-35 | the schedule is in ascending order of start, and a qualifying showtime is missing only when 50 earlier-or-equal ones are listed |
| CinemaViews.SalaImpegni | cinema/views.py:29-34 | one entry per listed showtime with its start and film title |
| CinemaViews.Matches | cinema/views.py:131-132 | a film matches iff its title or its director contains the query, ignoring case; the suggestions filter of line 46 is the same test |
| CinemaViews.SuggestedFilms | cinema/views.py:38-51 | at most 5 films; a stripped query shorter than 2 gives none; each is a film whose title or director contains the query, ignoring case |
| CinemaViews.SuggestedFilmsSpec | cinema/views.py:38-51 | suggestions are in title order, and a matching film is missing only when 5 films with no greater title are listed |
| CinemaViews.FilmSuggestions | cinema/views.py:49-51 | one result per suggested film with its id and title |
| CinemaViews.FilmList | cinema/views.py:121-134 | films in title order; an empty query lists every film; otherwise exactly the title-or-director matches |
| CinemaViews.FutureShowtimes | cinema/views.py:62-67 | exactly the film's showtimes not yet started, in ascending order of start |
| CinemaViews.Listings | cinema/views.py:70-82 | each film with its future showtimes attached |
| CinemaViews.InProgrammazione | cinema/views.py:73 | a film is listed under "programmazione" iff it is not a festival film, its programming start is set and not after today, and it has a showtime still to come |
| CinemaViews.InRassegna | cinema/views.py:106 | a film is listed under "rassegna" iff it is a festival film with a showtime still to come; its programming start plays no part |
| CinemaViews.ProgrammazioneFilms | cinema/views.py:55-84 | in title order, each film as often as in the table iff it is not a festival film, its programming has started and it has a future showtime |
| CinemaViews.RassegnaFilms | cinema/views.py:88-117 | in title order, each festival film with a future showtime as often as in the table, and no other |
| CinemaViews.Prossimamente | cinema/views.py:143-152 | not a festival film, with a programming start after today |
| CinemaViews.Programmazione | cinema/views.py:55-84 | one listing per film of `ProgrammazioneFilms`, each with its future showtimes (see `ProgrammazioneListing` and `ProgrammazioneComplete`) |
| CinemaViews.Rassegna | cinema/views.py:88-117 | one listing per film of `RassegnaFilms`, each with its future showtimes |
| CinemaViews.ProssimamenteFilms | cinema/views.py:138-152 | in release-date order, exactly the non-festival films whose programming starts after today |
| CinemaViews.ProgrammazioneListing | cinema/views.py:55-84 | every listing is a qualifying film of the table with exactly its future showtimes |
| CinemaViews.ListingNotEmpty | cinema/views.py:73 | every listed film has at least one future showtime |
| CinemaViews.ProgrammazioneComplete | cinema/views.py:55-84 | every qualifying film is listed, as often as in the table |
| CinemaViews.RassegnaIgnoresProgrammingStart | cinema/views.py:88-117 | a festival film with a future showtime is listed whatever its programming start |
| CinemaViews.ProgrammazioneProssimamenteDisjoint | cinema/views.py:138-152 | no film is both showing and coming soon |
| CinemaViews.ListedShowtimeIsBookable | cinema/views.py:55-84 | with one day function for both the listing filter and the booking gate, every showtime listed under "programmazione" passes the gate (sales/views.py:78-94) |
| CinemaViews.FindShowtimeUnique | cinema/views.py:55-84 | with distinct keys, a showtime is found by its own key |
| Text.Strip | sales/views.py:99-100 | Python `strip()`: no surrounding white space, no longer, only characters of the input |
| Text.StripTrims | sales/views.py:99-100 | `strip()` removes exactly the white space at both ends: the result is a slice of the input and every character before and after it is white space |
| Text.StripByTrims | cinema/models.py:31 | `strip("/")` removes exactly the slashes at both ends in the same sense |
| Text.StripIdempotent | sales/views.py:100 | stripping twice is stripping once |
| Text.StripEmptyIffBlank | sales/views.py:100 | a piece strips to nothing iff it is all white space |
| Text.JoinSplit | sales/views.py:100 | joining the pieces of a split with the separator restores the string |
| Text.SplitJoin | sales/views.py:100 | splitting a join of separator-free pieces gives the pieces back |
| Text.ParseDigits | sales/views.py:139 | the decimal rendering of a number reads back as that number |
| Seqs.Filter | cinema/views.py:20-35 | a filter keeps exactly the members that pass the test |
| Seqs.FilterCount | accounts/views.py:84-90 | filtering keeps every occurrence of a kept value and none of the others |
| Seqs.SortBy | cinema/views.py:78-82 | `order_by` gives a sorted permutation of its input |
| Seqs.TakeSortedSmallest | cinema/views.py:30-35 | a slice of a sorted list leaves out only elements not smaller than those it keeps, and only when it is full |
| Seqs.DistinctCard | sales/views.py:142 | a list has as many distinct values as entries iff none repeats |

## Left out

- Concurrency: `select_for_update`, `transaction.atomic` and the `IntegrityError` handler are one atomic step. A clash with the unique (showtime, seat) constraint is checked before the insertion.
- HTTP handling, `messages`, redirects, template rendering and context. The outcomes are datatypes.
- The `GroupRequiredMixin` checks on mark-paid, staff delete and the user list. The methods assume a staff caller.
- Time zones, `localtime`, `strftime` and `make_aware`. An instant is integer minutes and its day is `t / 1440`.
- `Decimal`: prices are integer cents.
- CinemaModels.FilmRecord.Save and CinemaModels.SaveSucceedsIff: of the `full_clean()` that `Film.save` runs (cinema/models.py:75), only the date rules of `Film.clean` are modelled. Django's per-field validation is assumed to pass: the required text fields, every `max_length`, the non-negative `durata_minuti`, and the URL format of `locandina_url` and `trailer_url`. A film failing one of those would be refused by the source but is saved by the model.
- `urlparse` and `parse_qs`: the parsed host, path and `v` values are inputs to `CinemaModels.TrailerEmbedUrl`.
- Unicode case folding: `Text.Lower` lower-cases ASCII letters only. It stands for the `icontains` lookups of cinema/views.py and for the `.lower()` of the trailer host (cinema/models.py:30).
- SalesViews.ParseIds: accepts only runs of ASCII digits. It does not model `int()` accepting a sign, underscores, surrounding white space or non-ASCII digits.
- The database's order among rows with equal sort keys: the model sorts stably.
- Collation: strings sort by code point, a prefix first, as SQLite's default `BINARY` collation does. A locale collation (PostgreSQL's, say) can order `order_by("titolo")` and `order_by("fila", "numero_posto")` differently.
- CinemaViews.ListedShowtimeIsBookable: holds only because the model uses one day function, `DateOf`. The listing filter `in_programmazione__lte=now` (cinema/views.py:73) compares in the default time zone, while the gate compares with `now.date()` (sales/views.py:92), the UTC date. Under a time zone ahead of UTC, a film whose programming starts on day D is listed from local midnight of D but refused by the gate until UTC midnight. The project's settings are not part of this model.
- `PrenotazioniFilmView` (sales/views.py:1-45), registration, the forms, the admin, seed data, reviews and the film and showtime create, update and delete views are not part of this model.
- The film-delete page check of cinema/tests.py:51-65 lives in a template that is not part of this model.
- SalesViews.TicketStore.SeatGrid: states the grid only for the seats of the showtime's room; the database rows the page renders besides the grid are not modelled.
