/**
 * sales/views.py: booking seats for a showtime (`prenota`), the seat grid it
 * shows, cancelling a booking (`annulla_biglietto`), and the staff actions
 * that mark a ticket paid or delete it. The ticket table is a `TicketStore`;
 * the checks and the inserts of one booking happen in one atomic step.
 */
module SalesViews {
  import opened Wrappers
  import opened Text
  import opened Seqs
  import opened CinemaModels
  import opened SalesModels
  import opened AccountsModels
  import opened Permissions

  // ----- Seat-id list -----

  predicate NonEmpty(s: string) { s != "" }

  /** The `seat_ids` form field ("12,15,18"): the whole field stripped, split
      on commas, each piece stripped, empty pieces dropped. A missing field
      reads as "". */
  function SeatTokens(raw: Option<string>): (tokens: seq<string>)
    ensures forall i :: 0 <= i < |tokens| ==> tokens[i] != ""
  {
    var s := Strip(if raw.Some? then raw.value else "");
    Filter(Map(Split(s, ','), Strip), NonEmpty)
  }

  /** Every token is non-empty, holds no comma and has no surrounding white space. */
  lemma SeatTokensShape(raw: Option<string>)
    ensures forall t :: t in SeatTokens(raw) ==> t != "" && ',' !in t && Strip(t) == t
  {
    var pieces := Split(Strip(if raw.Some? then raw.value else ""), ',');
    var m := Map(pieces, Strip);
    assert SeatTokens(raw) == Filter(m, NonEmpty);
    forall t | t in SeatTokens(raw) ensures t != "" && ',' !in t && Strip(t) == t {
      assert t in m;
      var i :| 0 <= i < |m| && m[i] == t;
      StripIdempotent(pieces[i]);
    }
  }

  /** Tokens joined with commas, as the seat picker sends them, come back as
      the same tokens. */
  lemma {:induction false} SeatTokensJoin(tokens: seq<string>)
    requires forall i :: 0 <= i < |tokens| ==> tokens[i] != "" && ',' !in tokens[i] && Strip(tokens[i]) == tokens[i]
    ensures SeatTokens(Some(Join(tokens, ','))) == tokens
  {
    var s := Join(tokens, ',');
    if tokens == [] {
      assert Strip(s) == "";
      assert Split("", ',') == [""];
      assert Map([""], Strip) == [""];
    } else {
      JoinEnds(tokens, ',');
      StrippedIsFixed(s);
      SplitJoin(tokens, ',');
      var m := Map(tokens, Strip);
      assert m == tokens;
      FilterAll(tokens, NonEmpty);
    }
  }

  /** `int(token)` for every token, failing if any token is not a number. */
  function ParseIds(tokens: seq<string>): (r: Option<seq<nat>>)
    ensures r.Some? <==> forall i :: 0 <= i < |tokens| ==> IsDigits(tokens[i])
    ensures r.Some? ==> |r.value| == |tokens|
    ensures r.Some? ==> forall i :: 0 <= i < |tokens| ==> ParseNat(tokens[i]) == Some(r.value[i])
  {
    if tokens == [] then Some([])
    else
      match (ParseNat(tokens[0]), ParseIds(tokens[1..]))
      case (Some(n), Some(ns)) =>
        assert forall i :: 1 <= i < |tokens| ==> tokens[i] == tokens[1..][i - 1];
        Some([n] + ns)
      case (None, _) => None
      case (_, None) =>
        assert forall i :: 0 <= i < |tokens| - 1 ==> tokens[1..][i] == tokens[i + 1];
        None
  }

  /** The decimal renderings of some ids, joined with commas, read back as
      those ids. */
  lemma SeatIdsRoundTrip(ids: seq<nat>)
    ensures ParseIds(SeatTokens(Some(Join(Map(ids, Digits), ',')))) == Some(ids)
  {
    var tokens := Map(ids, Digits);
    forall i | 0 <= i < |tokens|
      ensures tokens[i] != "" && ',' !in tokens[i] && Strip(tokens[i]) == tokens[i]
    {
      var t := tokens[i];
      assert IsDigits(t);
      assert ',' !in t by {
        assert forall k :: 0 <= k < |t| ==> IsDigit(t[k]);
      }
      assert !IsSpace(t[0]) && !IsSpace(t[|t| - 1]) by {
        assert IsDigit(t[0]) && IsDigit(t[|t| - 1]);
      }
      StrippedIsFixed(t);
    }
    SeatTokensJoin(tokens);
    var r := ParseIds(tokens);
    forall i | 0 <= i < |ids| ensures ParseNat(tokens[i]) == Some(ids[i]) {
      ParseDigits(ids[i]);
    }
    assert r.Some?;
    assert r.value == ids;
  }

  // ----- Price and per-user cap -----

  const PREZZO_SOCIO: int := 600
  const MAX_PRENOTATI: nat := 2

  /** The price per seat: 6.00 for a member booking for themselves, 8.00 otherwise. */
  function UnitPrice(staff: bool, socio: bool): (cents: int)
    ensures cents == PREZZO_SOCIO <==> !staff && socio
    ensures cents == PREZZO_DEFAULT <==> staff || !socio
  {
    if !staff && socio then PREZZO_SOCIO else PREZZO_DEFAULT
  }

  /** A reserved (not paid, not cancelled) ticket of user `uid` for showtime `pid`. */
  predicate HeldBy(b: Biglietto, pid: nat, uid: nat) {
    b.proiezione.id == pid && b.utente == Some(uid) && b.stato == Prenotato
  }

  /** The count the cap is checked against. */
  function CountPrenotati(ts: seq<Biglietto>, pid: nat, uid: nat): (n: nat)
    ensures n <= |ts|
  {
    if ts == [] then 0 else (if HeldBy(ts[0], pid, uid) then 1 else 0) + CountPrenotati(ts[1..], pid, uid)
  }

  lemma {:induction false} CountPrenotatiAppend(a: seq<Biglietto>, b: seq<Biglietto>, pid: nat, uid: nat)
    ensures CountPrenotati(a + b, pid, uid) == CountPrenotati(a, pid, uid) + CountPrenotati(b, pid, uid)
  {
    if a != [] {
      CountPrenotatiAppend(a[1..], b, pid, uid);
      assert (a + b)[1..] == a[1..] + b;
    } else {
      assert a + b == b;
    }
  }

  /** Tickets all held by the user for the showtime count one each. */
  lemma {:induction false} CountPrenotatiAll(ts: seq<Biglietto>, pid: nat, uid: nat)
    requires forall i :: 0 <= i < |ts| ==> HeldBy(ts[i], pid, uid)
    ensures CountPrenotati(ts, pid, uid) == |ts|
  {
    if ts != [] {
      CountPrenotatiAll(ts[1..], pid, uid);
    }
  }

  // ----- Seats of the room -----

  /** The seat rows whose id was asked for and that belong to room `sala`,
      in table order (`filter(id__in=ids, sala=sala)`); an id asked for twice
      still matches one row. */
  function ResolveSeats(posti: seq<Posto>, ids: seq<nat>, sala: nat): (r: seq<Posto>)
    ensures forall s :: s in r <==> s in posti && s.id in ids && s.sala == sala
  {
    if posti == [] then []
    else
      (if posti[0].id in ids && posti[0].sala == sala then [posti[0]] else [])
      + ResolveSeats(posti[1..], ids, sala)
  }

  function SeatIds(ps: seq<Posto>): (r: seq<nat>)
    ensures |r| == |ps| && forall i :: 0 <= i < |ps| ==> r[i] == ps[i].id
  {
    seq(|ps|, i requires 0 <= i < |ps| => ps[i].id)
  }

  /** Room `sala` has a seat with this id. */
  predicate InRoom(posti: seq<Posto>, id: nat, sala: nat) {
    exists i :: 0 <= i < |posti| && posti[i].id == id && posti[i].sala == sala
  }

  /** The rest of a list of seats with distinct ids has distinct ids, none of
      them the first seat's. */
  lemma DistinctIdsTail(posti: seq<Posto>)
    requires posti != [] && Distinct(SeatIds(posti))
    ensures Distinct(SeatIds(posti[1..]))
    ensures forall s :: s in posti[1..] ==> s.id != posti[0].id
  {
    var t := posti[1..];
    forall i, j | 0 <= i < j < |t| ensures SeatIds(t)[i] != SeatIds(t)[j] {
      assert SeatIds(posti)[i + 1] != SeatIds(posti)[j + 1];
    }
    forall s | s in t ensures s.id != posti[0].id {
      var k :| 0 <= k < |t| && t[k] == s;
      assert SeatIds(posti)[0] != SeatIds(posti)[k + 1];
    }
  }

  /** A seat whose id none of a distinct list has can be put in front of it. */
  lemma DistinctIdsCons(h: Posto, rest: seq<Posto>)
    requires Distinct(SeatIds(rest))
    requires forall s :: s in rest ==> s.id != h.id
    ensures Distinct(SeatIds([h] + rest))
  {
    var r := [h] + rest;
    forall i, j | 0 <= i < j < |r| ensures SeatIds(r)[i] != SeatIds(r)[j] {
      assert r[j] == rest[j - 1];
      if i > 0 {
        assert SeatIds(rest)[i - 1] != SeatIds(rest)[j - 1];
      }
    }
  }

  lemma {:induction false} ResolveDistinct(posti: seq<Posto>, ids: seq<nat>, sala: nat)
    requires Distinct(SeatIds(posti))
    ensures Distinct(SeatIds(ResolveSeats(posti, ids, sala)))
  {
    if posti != [] {
      var t := posti[1..];
      DistinctIdsTail(posti);
      ResolveDistinct(t, ids, sala);
      if posti[0].id in ids && posti[0].sala == sala {
        DistinctIdsCons(posti[0], ResolveSeats(t, ids, sala));
      }
    }
  }

  /** The ids of the seats of room `sala`. */
  function RoomIds(posti: seq<Posto>, sala: nat): (r: set<nat>)
    ensures forall id :: id in r <==> InRoom(posti, id, sala)
  {
    set i | 0 <= i < |posti| && posti[i].sala == sala :: posti[i].id
  }

  lemma ResolveIdSet(posti: seq<Posto>, ids: seq<nat>, sala: nat)
    ensures SetOf(SeatIds(ResolveSeats(posti, ids, sala))) == SetOf(ids) * RoomIds(posti, sala)
  {
    var r := ResolveSeats(posti, ids, sala);
    forall x ensures x in SetOf(SeatIds(r)) <==> x in SetOf(ids) * RoomIds(posti, sala) {
      if x in SetOf(SeatIds(r)) {
        var k :| 0 <= k < |r| && SeatIds(r)[k] == x;
        assert r[k] in r;
        var i :| 0 <= i < |posti| && posti[i] == r[k];
      }
      if x in SetOf(ids) * RoomIds(posti, sala) {
        var i :| 0 <= i < |posti| && posti[i].id == x && posti[i].sala == sala;
        assert posti[i] in r;
        var k :| 0 <= k < |r| && r[k] == posti[i];
        assert SeatIds(r)[k] == x;
      }
    }
  }

  /** The batch resolves to as many seats as ids were asked for exactly when
      no id is repeated and every id is a seat of the showtime's room. */
  lemma ResolveAllIff(posti: seq<Posto>, ids: seq<nat>, sala: nat)
    requires SeatTableValid(posti)
    ensures |ResolveSeats(posti, ids, sala)| == |ids| <==>
      Distinct(ids) && forall id :: id in ids ==> InRoom(posti, id, sala)
  {
    var r := ResolveSeats(posti, ids, sala);
    assert Distinct(SeatIds(posti)) by {
      forall i, j | 0 <= i < j < |posti| ensures SeatIds(posti)[i] != SeatIds(posti)[j] {
      }
    }
    ResolveDistinct(posti, ids, sala);
    DistinctCard(SeatIds(r));
    DistinctCard(ids);
    ResolveIdSet(posti, ids, sala);
    IntersectionCard(SetOf(ids), RoomIds(posti, sala));
    assert |r| == |SetOf(ids) * RoomIds(posti, sala)|;
  }

  // ----- Booking -----

  /** Why a booking is refused, in the order the view checks. */
  datatype BookingError =
    | LoginRequired
    | ShowtimeNotFound
    | PastShowtime
    | NotYetShowing
    | NoSeats
    | MissingCustomer
    | TooManyTickets
    | MalformedSeatId
    | InvalidSeats
    | SeatUnavailable

  /** The POST fields of the booking form; a field not sent is `None`. */
  datatype BookingForm = BookingForm(seatIds: Option<string>, nomeCliente: Option<string>, telefonoCliente: Option<string>)

  function OrEmpty(field: Option<string>): string {
    if field.Some? then field.value else ""
  }

  /** The showtime row with this primary key (`get_object_or_404`). */
  function FindShowtime(table: seq<Proiezione>, id: nat): (r: Option<Proiezione>)
    ensures r.Some? ==> r.value in table && r.value.id == id
    ensures r.None? ==> forall q :: q in table ==> q.id != id
  {
    if table == [] then None
    else if table[0].id == id then Some(table[0])
    else FindShowtime(table[1..], id)
  }

  /** The film is showing on the day of `now`: its programming start is unset
      or not after that day. */
  predicate ShowingOn(f: Film, now: int) {
    f.inProgrammazione.None? || f.inProgrammazione.value <= DateOf(now)
  }

  /** The checks made before the form is read, for GET and POST alike. */
  function BookingGate(showtimes: seq<Proiezione>, proiezioneId: nat, u: User, now: int): (r: Result<Proiezione, BookingError>)
    ensures r.Success? ==> FindShowtime(showtimes, proiezioneId) == Some(r.value)
    ensures r.Success? ==> now <= r.value.dataOra && ShowingOn(r.value.film, now)
  {
    if !u.isAuthenticated then Failure(LoginRequired)
    else
      match FindShowtime(showtimes, proiezioneId)
      case None => Failure(ShowtimeNotFound)
      case Some(p) =>
        if p.dataOra < now then Failure(PastShowtime)
        else if !ShowingOn(p.film, now) then Failure(NotYetShowing)
        else Success(p)
  }

  /** A showtime that has started is refused, one starting right now is not;
      a film whose programming start is after today is refused; and the gate
      is the same for staff and customers. */
  lemma GateRules(showtimes: seq<Proiezione>, proiezioneId: nat, u: User, v: User, now: int, p: Proiezione)
    requires u.isAuthenticated && v.isAuthenticated
    requires FindShowtime(showtimes, proiezioneId) == Some(p)
    ensures p.dataOra < now ==> BookingGate(showtimes, proiezioneId, u, now) == Failure(PastShowtime)
    ensures now <= p.dataOra && p.film.inProgrammazione.Some? && p.film.inProgrammazione.value > DateOf(now)
      ==> BookingGate(showtimes, proiezioneId, u, now) == Failure(NotYetShowing)
    ensures BookingGate(showtimes, proiezioneId, u, now).Success? <==> now <= p.dataOra && ShowingOn(p.film, now)
    ensures BookingGate(showtimes, proiezioneId, u, now) == BookingGate(showtimes, proiezioneId, v, now)
  {
  }

  /** What a booking that passes every check will create. */
  datatype BookingPlan = BookingPlan(posti: seq<Posto>, prezzo: int, utente: Option<nat>, nome: string, telefono: string)

  /** Some ticket, in any state, already holds one of `seats` for showtime `pid`. */
  predicate SeatTaken(tickets: seq<Biglietto>, pid: nat, seats: seq<Posto>) {
    exists i, j :: 0 <= i < |tickets| && 0 <= j < |seats| && SeatKey(tickets[i]) == (pid, seats[j].id)
  }

  /** The POST branch of `prenota` for showtime `p`, up to the insert. */
  function PlanBooking(tickets: seq<Biglietto>, posti: seq<Posto>, p: Proiezione, u: User, form: BookingForm): (r: Result<BookingPlan, BookingError>)
    ensures r.Success? ==> ParseIds(SeatTokens(form.seatIds)).Some?
    ensures r.Success? ==> r.value.posti == ResolveSeats(posti, ParseIds(SeatTokens(form.seatIds)).value, p.sala)
    ensures r.Success? ==> |r.value.posti| == |SeatTokens(form.seatIds)| > 0
    ensures r.Success? ==> !SeatTaken(tickets, p.id, r.value.posti)
  {
    var tokens := SeatTokens(form.seatIds);
    if tokens == [] then Failure(NoSeats)
    else
      var staff := IsOperationalStaff(u);
      var prezzo := UnitPrice(staff, u.socio);
      var nome := Strip(OrEmpty(form.nomeCliente));
      var telefono := Strip(OrEmpty(form.telefonoCliente));
      if staff && nome == "" && telefono == "" then Failure(MissingCustomer)
      else if !staff && CountPrenotati(tickets, p.id, u.id) + |tokens| > MAX_PRENOTATI then Failure(TooManyTickets)
      else
        match ParseIds(tokens)
        case None => Failure(MalformedSeatId)
        case Some(ids) =>
          var seats := ResolveSeats(posti, ids, p.sala);
          if |seats| != |tokens| then Failure(InvalidSeats)
          else if SeatTaken(tickets, p.id, seats) then Failure(SeatUnavailable)
          else if staff then Success(BookingPlan(seats, prezzo, None, nome, telefono))
          else Success(BookingPlan(seats, prezzo, Some(u.id), "", ""))
  }

  /** One reserved ticket per planned seat, numbered from `startId`. */
  function NewTickets(startId: nat, plan: BookingPlan, p: Proiezione, now: int): (ts: seq<Biglietto>)
    ensures |ts| == |plan.posti|
    ensures forall i :: 0 <= i < |ts| ==> ts[i].id == startId + i && ts[i].posto == plan.posti[i]
  {
    seq(|plan.posti|, i requires 0 <= i < |plan.posti| =>
      Biglietto(startId + i, p, plan.posti[i], plan.prezzo, plan.utente, plan.nome, plan.telefono, Prenotato, now))
  }

  /** The whole POST: the tickets a booking creates, or why it creates none. */
  function Book(tickets: seq<Biglietto>, nextId: nat, showtimes: seq<Proiezione>, posti: seq<Posto>,
                proiezioneId: nat, u: User, form: BookingForm, now: int): (r: Result<seq<Biglietto>, BookingError>)
    ensures r.Success? ==> |r.value| == |SeatTokens(form.seatIds)| > 0
  {
    match BookingGate(showtimes, proiezioneId, u, now)
    case Failure(e) => Failure(e)
    case Success(p) =>
      match PlanBooking(tickets, posti, p, u, form)
      case Failure(e) => Failure(e)
      case Success(plan) => Success(NewTickets(nextId, plan, p, now))
  }

  /** The seat ids of some tickets, in order. */
  function TicketSeatIds(ts: seq<Biglietto>): (r: seq<nat>)
    ensures |r| == |ts| && forall i :: 0 <= i < |ts| ==> r[i] == ts[i].posto.id
  {
    seq(|ts|, i requires 0 <= i < |ts| => ts[i].posto.id)
  }

  /** A plan that passes: its seats are the requested ids, each once, all in
      the showtime's room, none already held for the showtime. */
  lemma PlanSeats(tickets: seq<Biglietto>, posti: seq<Posto>, p: Proiezione, u: User, form: BookingForm, plan: BookingPlan)
    requires SeatTableValid(posti)
    requires PlanBooking(tickets, posti, p, u, form) == Success(plan)
    ensures ParseIds(SeatTokens(form.seatIds)).Some?
    ensures var ids := ParseIds(SeatTokens(form.seatIds)).value;
      Distinct(ids) && (forall id :: id in ids ==> InRoom(posti, id, p.sala))
      && |plan.posti| == |ids| && Distinct(SeatIds(plan.posti))
      && (forall s :: s in plan.posti <==> s in posti && s.id in ids && s.sala == p.sala)
    ensures forall i, j :: 0 <= i < |tickets| && 0 <= j < |plan.posti| ==> SeatKey(tickets[i]) != (p.id, plan.posti[j].id)
  {
    var ids := ParseIds(SeatTokens(form.seatIds)).value;
    ResolveAllIff(posti, ids, p.sala);
    assert Distinct(SeatIds(posti)) by {
      forall i, j | 0 <= i < j < |posti| ensures SeatIds(posti)[i] != SeatIds(posti)[j] {
      }
    }
    ResolveDistinct(posti, ids, p.sala);
  }

  /** Unfolds a successful `Book` into its showtime, plan and new tickets. */
  lemma BookUnfold(tickets: seq<Biglietto>, nextId: nat, showtimes: seq<Proiezione>, posti: seq<Posto>,
                   proiezioneId: nat, u: User, form: BookingForm, now: int, created: seq<Biglietto>)
    returns (p: Proiezione, plan: BookingPlan)
    requires Book(tickets, nextId, showtimes, posti, proiezioneId, u, form, now) == Success(created)
    ensures BookingGate(showtimes, proiezioneId, u, now) == Success(p)
    ensures PlanBooking(tickets, posti, p, u, form) == Success(plan)
    ensures created == NewTickets(nextId, plan, p, now)
  {
    p := BookingGate(showtimes, proiezioneId, u, now).value;
    plan := PlanBooking(tickets, posti, p, u, form).value;
  }

  /** A successful booking: the gate passed, every token is a distinct seat of
      the showtime's room, and exactly one new reserved ticket exists per
      requested seat, none of them on a seat already taken for the showtime. */
  lemma BookedSeats(tickets: seq<Biglietto>, nextId: nat, showtimes: seq<Proiezione>, posti: seq<Posto>,
                    proiezioneId: nat, u: User, form: BookingForm, now: int, created: seq<Biglietto>)
    requires SeatTableValid(posti)
    requires Book(tickets, nextId, showtimes, posti, proiezioneId, u, form, now) == Success(created)
    ensures u.isAuthenticated && FindShowtime(showtimes, proiezioneId).Some?
    ensures var p := FindShowtime(showtimes, proiezioneId).value;
      now <= p.dataOra && ShowingOn(p.film, now)
    ensures ParseIds(SeatTokens(form.seatIds)).Some?
    ensures var ids := ParseIds(SeatTokens(form.seatIds)).value;
      var p := FindShowtime(showtimes, proiezioneId).value;
      Distinct(ids) && (forall id :: id in ids ==> InRoom(posti, id, p.sala))
      && |created| == |ids| && Distinct(TicketSeatIds(created))
      && (forall id :: id in ids ==> exists i :: 0 <= i < |created| && created[i].posto.id == id)
    ensures var ids := ParseIds(SeatTokens(form.seatIds)).value;
      var p := FindShowtime(showtimes, proiezioneId).value;
      forall b :: b in created ==>
        b.posto.id in ids && b.posto in posti && b.posto.sala == p.sala
        && b.proiezione == p && b.stato == Prenotato && b.creatoIl == now
    ensures forall b, c :: b in tickets && c in created ==> SeatKey(b) != SeatKey(c)
  {
    var p, plan := BookUnfold(tickets, nextId, showtimes, posti, proiezioneId, u, form, now, created);
    PlanSeats(tickets, posti, p, u, form, plan);
    NewTicketsFacts(tickets, posti, ParseIds(SeatTokens(form.seatIds)).value, p, plan, nextId, now);
  }

  /** The tickets made from a plan whose seats are distinct, free and exactly
      the requested seats of the room. */
  lemma NewTicketsFacts(tickets: seq<Biglietto>, posti: seq<Posto>, ids: seq<nat>, p: Proiezione,
                        plan: BookingPlan, nextId: nat, now: int)
    requires Distinct(SeatIds(plan.posti))
    requires forall id :: id in ids ==> InRoom(posti, id, p.sala)
    requires forall s :: s in plan.posti <==> s in posti && s.id in ids && s.sala == p.sala
    requires forall i, j :: 0 <= i < |tickets| && 0 <= j < |plan.posti| ==> SeatKey(tickets[i]) != (p.id, plan.posti[j].id)
    ensures var created := NewTickets(nextId, plan, p, now);
      Distinct(TicketSeatIds(created)) && OneTicketPerSeat(created)
      && (forall id :: id in ids ==> exists i :: 0 <= i < |created| && created[i].posto.id == id)
    ensures forall b :: b in NewTickets(nextId, plan, p, now) ==>
      b.posto.id in ids && b.posto in posti && b.posto.sala == p.sala
      && b.proiezione == p && b.stato == Prenotato && b.creatoIl == now
    ensures forall b, c :: b in tickets && c in NewTickets(nextId, plan, p, now) ==> SeatKey(b) != SeatKey(c)
  {
    var created := NewTickets(nextId, plan, p, now);
    assert TicketSeatIds(created) == SeatIds(plan.posti);
    forall i, j | 0 <= i < j < |created| ensures SeatKey(created[i]) != SeatKey(created[j]) {
      assert SeatIds(plan.posti)[i] != SeatIds(plan.posti)[j];
    }
    forall id | id in ids ensures exists i :: 0 <= i < |created| && created[i].posto.id == id {
      var k :| 0 <= k < |posti| && posti[k].id == id && posti[k].sala == p.sala;
      assert posti[k] in plan.posti;
      var i :| 0 <= i < |plan.posti| && plan.posti[i] == posti[k];
      assert created[i].posto.id == id;
    }
    forall b | b in created
      ensures b.posto.id in ids && b.posto in posti && b.posto.sala == p.sala
        && b.proiezione == p && b.stato == Prenotato && b.creatoIl == now
    {
      var i :| 0 <= i < |created| && created[i] == b;
      assert b.posto == plan.posti[i];
    }
    forall b, c | b in tickets && c in created ensures SeatKey(b) != SeatKey(c) {
      var i :| 0 <= i < |tickets| && tickets[i] == b;
      var j :| 0 <= j < |created| && created[j] == c;
      assert SeatKey(c) == (p.id, plan.posti[j].id);
    }
  }

  /** Price and holder: every new ticket costs the unit price; staff bookings
      name a customer and carry no user, customer bookings carry the user and
      blank customer fields. */
  lemma BookedPriceAndHolder(tickets: seq<Biglietto>, nextId: nat, showtimes: seq<Proiezione>, posti: seq<Posto>,
                             proiezioneId: nat, u: User, form: BookingForm, now: int, created: seq<Biglietto>)
    requires Book(tickets, nextId, showtimes, posti, proiezioneId, u, form, now) == Success(created)
    ensures forall b :: b in created ==> b.prezzo == UnitPrice(IsOperationalStaff(u), u.socio)
    ensures IsOperationalStaff(u) ==>
      (Strip(OrEmpty(form.nomeCliente)) != "" || Strip(OrEmpty(form.telefonoCliente)) != "")
    ensures IsOperationalStaff(u) ==> forall b :: b in created ==>
      b.utente.None? && b.nomeCliente == Strip(OrEmpty(form.nomeCliente))
      && b.telefonoCliente == Strip(OrEmpty(form.telefonoCliente))
    ensures !IsOperationalStaff(u) ==> forall b :: b in created ==>
      b.utente == Some(u.id) && b.nomeCliente == "" && b.telefonoCliente == ""
  {
    var p, plan := BookUnfold(tickets, nextId, showtimes, posti, proiezioneId, u, form, now, created);
    forall b | b in created
      ensures b.prezzo == plan.prezzo && b.utente == plan.utente
        && b.nomeCliente == plan.nome && b.telefonoCliente == plan.telefono
    {
      var i :| 0 <= i < |created| && created[i] == b;
    }
  }

  /** A customer never ends up holding more than two reserved tickets for the
      showtime through a booking. */
  lemma BookRespectsCap(tickets: seq<Biglietto>, nextId: nat, showtimes: seq<Proiezione>, posti: seq<Posto>,
                        proiezioneId: nat, u: User, form: BookingForm, now: int, created: seq<Biglietto>)
    requires !IsOperationalStaff(u)
    requires Book(tickets, nextId, showtimes, posti, proiezioneId, u, form, now) == Success(created)
    ensures CountPrenotati(tickets + created, proiezioneId, u.id) <= MAX_PRENOTATI
  {
    var p, plan := BookUnfold(tickets, nextId, showtimes, posti, proiezioneId, u, form, now, created);
    CountPrenotatiAppend(tickets, created, p.id, u.id);
    forall i | 0 <= i < |created| ensures HeldBy(created[i], p.id, u.id) {
    }
    CountPrenotatiAll(created, p.id, u.id);
  }

  /** A customer whose reserved tickets plus the seats asked for exceed two is
      refused, once the earlier checks pass. */
  lemma OverCapRejected(tickets: seq<Biglietto>, nextId: nat, showtimes: seq<Proiezione>, posti: seq<Posto>,
                        proiezioneId: nat, u: User, form: BookingForm, now: int)
    requires !IsOperationalStaff(u)
    requires BookingGate(showtimes, proiezioneId, u, now).Success?
    requires SeatTokens(form.seatIds) != []
    requires CountPrenotati(tickets, proiezioneId, u.id) + |SeatTokens(form.seatIds)| > MAX_PRENOTATI
    ensures Book(tickets, nextId, showtimes, posti, proiezioneId, u, form, now) == Failure(TooManyTickets)
  {
  }

  /** Paid and cancelled tickets do not count towards the cap. */
  lemma NotReservedNotCounted(ts: seq<Biglietto>, b: Biglietto, pid: nat, uid: nat)
    requires b.stato != Prenotato
    ensures CountPrenotati(ts + [b], pid, uid) == CountPrenotati(ts, pid, uid)
  {
    CountPrenotatiAppend(ts, [b], pid, uid);
  }

  /** A booking keeps one ticket per seat and showtime and distinct keys. */
  lemma BookKeepsInvariant(tickets: seq<Biglietto>, nextId: nat, showtimes: seq<Proiezione>, posti: seq<Posto>,
                           proiezioneId: nat, u: User, form: BookingForm, now: int, created: seq<Biglietto>)
    requires SeatTableValid(posti)
    requires OneTicketPerSeat(tickets) && KeysBelow(tickets, nextId)
    requires Book(tickets, nextId, showtimes, posti, proiezioneId, u, form, now) == Success(created)
    ensures OneTicketPerSeat(tickets + created) && KeysBelow(tickets + created, nextId + |created|)
  {
    var p, plan := BookUnfold(tickets, nextId, showtimes, posti, proiezioneId, u, form, now, created);
    PlanSeats(tickets, posti, p, u, form, plan);
    NewTicketsFacts(tickets, posti, ParseIds(SeatTokens(form.seatIds)).value, p, plan, nextId, now);
    AppendKeepsValid(tickets, created, nextId);
  }

  /** Appending tickets numbered on from `nextId`, on seats free among
      themselves and in the table, keeps the table's invariant. */
  lemma AppendKeepsValid(ts: seq<Biglietto>, created: seq<Biglietto>, nextId: nat)
    requires OneTicketPerSeat(ts) && KeysBelow(ts, nextId)
    requires OneTicketPerSeat(created)
    requires forall i :: 0 <= i < |created| ==> created[i].id == nextId + i
    requires forall b, c :: b in ts && c in created ==> SeatKey(b) != SeatKey(c)
    ensures OneTicketPerSeat(ts + created) && KeysBelow(ts + created, nextId + |created|)
  {
    var all := ts + created;
    forall i, j | 0 <= i < j < |all| ensures SeatKey(all[i]) != SeatKey(all[j]) && all[i].id != all[j].id {
      if j < |ts| {
        assert all[i] == ts[i] && all[j] == ts[j];
      } else if i < |ts| {
        assert all[i] == ts[i] && all[j] == created[j - |ts|];
      } else {
        assert all[i] == created[i - |ts|] && all[j] == created[j - |ts|];
      }
    }
    forall i | 0 <= i < |all| ensures all[i].id < nextId + |created| {
      if i < |ts| { assert all[i] == ts[i]; } else { assert all[i] == created[i - |ts|]; }
    }
  }

  // ----- Cancelling, marking paid, staff delete -----

  /** One hour, in minutes. */
  const CANCEL_NOTICE: int := 60

  /** A booking can still be cancelled: it is earlier than one hour before the start. */
  predicate Cancellable(start: int, now: int) {
    now < start - CANCEL_NOTICE
  }

  /** The ticket row with this primary key. */
  function FindTicket(ts: seq<Biglietto>, id: nat): (r: Option<Biglietto>)
    ensures r.Some? ==> r.value in ts && r.value.id == id
    ensures r.None? ==> forall b :: b in ts ==> b.id != id
  {
    if ts == [] then None
    else if ts[0].id == id then Some(ts[0])
    else FindTicket(ts[1..], id)
  }

  /** The table after deleting the row with this primary key. */
  function Without(ts: seq<Biglietto>, id: nat): (r: seq<Biglietto>)
    ensures forall b :: b in r <==> b in ts && b.id != id
  {
    if ts == [] then []
    else (if ts[0].id != id then [ts[0]] else []) + Without(ts[1..], id)
  }

  lemma {:induction false} TailKeepsValid(ts: seq<Biglietto>, n: nat)
    requires ts != [] && OneTicketPerSeat(ts) && KeysBelow(ts, n)
    ensures OneTicketPerSeat(ts[1..]) && KeysBelow(ts[1..], n)
  {
    var t := ts[1..];
    forall i, j | 0 <= i < j < |t| ensures SeatKey(t[i]) != SeatKey(t[j]) && t[i].id != t[j].id {
      assert t[i] == ts[i + 1] && t[j] == ts[j + 1];
    }
  }

  /** Placing a ticket in front of a table, where no row shares its seat or
      its key, keeps the invariant. */
  lemma ConsKeepsValid(b: Biglietto, ts: seq<Biglietto>, n: nat)
    requires OneTicketPerSeat(ts) && KeysBelow(ts, n) && b.id < n
    requires forall t :: t in ts ==> SeatKey(t) != SeatKey(b) && t.id != b.id
    ensures OneTicketPerSeat([b] + ts) && KeysBelow([b] + ts, n)
  {
    var r := [b] + ts;
    forall i, j | 0 <= i < j < |r| ensures SeatKey(r[i]) != SeatKey(r[j]) && r[i].id != r[j].id {
      assert r[j] == ts[j - 1];
      if i > 0 { assert r[i] == ts[i - 1]; }
    }
  }

  /** Deleting a row keeps one ticket per seat and distinct keys. */
  lemma {:induction false} WithoutKeepsValid(ts: seq<Biglietto>, id: nat, n: nat)
    requires OneTicketPerSeat(ts) && KeysBelow(ts, n)
    ensures OneTicketPerSeat(Without(ts, id)) && KeysBelow(Without(ts, id), n)
  {
    if ts != [] {
      var t := ts[1..];
      TailKeepsValid(ts, n);
      WithoutKeepsValid(t, id, n);
      var rest := Without(t, id);
      if ts[0].id != id {
        assert Without(ts, id) == [ts[0]] + rest;
        forall x | x in rest ensures SeatKey(x) != SeatKey(ts[0]) && x.id != ts[0].id {
          var k :| 0 <= k < |t| && t[k] == x;
          assert ts[k + 1] == x;
        }
        ConsKeepsValid(ts[0], rest, n);
      } else {
        assert Without(ts, id) == rest;
      }
    }
  }

  /** Deleting a ticket frees its seat for the showtime. */
  lemma CancelFreesSeat(ts: seq<Biglietto>, b: Biglietto)
    requires OneTicketPerSeat(ts) && b in ts
    ensures forall t :: t in Without(ts, b.id) ==> SeatKey(t) != SeatKey(b)
  {
    forall t | t in Without(ts, b.id) ensures SeatKey(t) != SeatKey(b) {
      var i :| 0 <= i < |ts| && ts[i] == t;
      var j :| 0 <= j < |ts| && ts[j] == b;
      assert i != j;
    }
  }

  datatype CancelOutcome = CancelLoginRequired | CancelNotFound | CancelNotPost | CancelTooLate | Cancelled

  /** `annulla_biglietto`: a ticket that is not the requester's reads as
      missing; only a POST cancels; the cutoff is one hour before the start. */
  function CancelDecision(ts: seq<Biglietto>, id: nat, u: User, isPost: bool, now: int): (o: CancelOutcome)
    ensures o == Cancelled ==> FindTicket(ts, id).Some? && FindTicket(ts, id).value.utente == Some(u.id)
  {
    if !u.isAuthenticated then CancelLoginRequired
    else
      match FindTicket(ts, id)
      case None => CancelNotFound
      case Some(b) =>
        if b.utente != Some(u.id) then CancelNotFound
        else if !isPost then CancelNotPost
        else if !Cancellable(b.proiezione.dataOra, now) then CancelTooLate
        else Cancelled
  }

  /** The owner's POST cancels exactly when it comes earlier than one hour
      before the start; someone else's ticket is never cancelled. */
  lemma CancelRules(ts: seq<Biglietto>, id: nat, u: User, isPost: bool, now: int, b: Biglietto)
    requires u.isAuthenticated && FindTicket(ts, id) == Some(b)
    ensures b.utente != Some(u.id) ==> CancelDecision(ts, id, u, isPost, now) == CancelNotFound
    ensures b.utente == Some(u.id) && isPost ==>
      (CancelDecision(ts, id, u, isPost, now) == Cancelled <==> now < b.proiezione.dataOra - 60)
    ensures b.utente == Some(u.id) && isPost && now == b.proiezione.dataOra - 60 ==>
      CancelDecision(ts, id, u, isPost, now) == CancelTooLate
    ensures !isPost ==> CancelDecision(ts, id, u, isPost, now) != Cancelled
  {
  }

  /** The table after marking one ticket paid. */
  function MarkPaid(ts: seq<Biglietto>, id: nat): (r: seq<Biglietto>)
    ensures |r| == |ts|
  {
    seq(|ts|, i requires 0 <= i < |ts| => if ts[i].id == id then ts[i].(stato := Pagato) else ts[i])
  }

  /** Marking paid changes the state of that ticket only, keeps every other
      field, and keeps the table's invariant. */
  lemma MarkPaidOnlyState(ts: seq<Biglietto>, id: nat, n: nat)
    requires OneTicketPerSeat(ts) && KeysBelow(ts, n)
    ensures var r := MarkPaid(ts, id);
      (forall i :: 0 <= i < |ts| ==> r[i].(stato := ts[i].stato) == ts[i])
      && (forall i :: 0 <= i < |ts| ==> r[i].stato == if ts[i].id == id then Pagato else ts[i].stato)
      && OneTicketPerSeat(r) && KeysBelow(r, n)
  {
    var r := MarkPaid(ts, id);
    forall i | 0 <= i < |ts| ensures SeatKey(r[i]) == SeatKey(ts[i]) && r[i].id == ts[i].id {
    }
  }

  // ----- Seat grid -----

  /** One seat of the grid: its id, its label (row then number) and whether
      some ticket holds it for the showtime. */
  datatype Cella = Cella(id: nat, etichetta: string, occupied: bool)

  /** A row of the grid: its `fila` and its seats in order. */
  datatype Riga = Riga(fila: string, posti: seq<Cella>)

  function CellOf(s: Posto, occupati: set<nat>): (c: Cella)
    ensures c.id == s.id && c.etichetta == s.fila + s.numeroPosto
    ensures c.occupied <==> s.id in occupati
  {
    Cella(s.id, s.fila + s.numeroPosto, s.id in occupati)
  }

  function CellsOf(ps: seq<Posto>, occupati: set<nat>): (r: seq<Cella>)
    ensures |r| == |ps| && forall i :: 0 <= i < |ps| ==> r[i] == CellOf(ps[i], occupati)
  {
    seq(|ps|, i requires 0 <= i < |ps| => CellOf(ps[i], occupati))
  }

  function Filas(ps: seq<Posto>): (r: seq<string>)
    ensures |r| == |ps| && forall i :: 0 <= i < |ps| ==> r[i] == ps[i].fila
  {
    seq(|ps|, i requires 0 <= i < |ps| => ps[i].fila)
  }

  function Repeat<T>(x: T, n: nat): (r: seq<T>)
    ensures |r| == n && forall i :: 0 <= i < n ==> r[i] == x
  {
    seq(n, _ => x)
  }

  /** The seats of the grid, row after row. */
  function Flatten(righe: seq<Riga>): seq<Cella> {
    if righe == [] then [] else Flatten(righe[..|righe| - 1]) + righe[|righe| - 1].posti
  }

  /** The row of each seat of the grid, row after row. */
  function RowFilas(righe: seq<Riga>): seq<string> {
    if righe == [] then []
    else RowFilas(righe[..|righe| - 1]) + Repeat(righe[|righe| - 1].fila, |righe[|righe| - 1].posti|)
  }

  /** `righe` shows the seats `ps` in their order, cut into maximal runs of
      equal `fila`: no row is empty and consecutive rows differ. */
  ghost predicate IsGrid(righe: seq<Riga>, ps: seq<Posto>, occupati: set<nat>) {
    Flatten(righe) == CellsOf(ps, occupati)
    && RowFilas(righe) == Filas(ps)
    && (forall i :: 0 <= i < |righe| ==> righe[i].posti != [])
    && (forall i :: 0 < i < |righe| ==> righe[i - 1].fila != righe[i].fila)
  }

  lemma SnocRow(righe: seq<Riga>, r: Riga)
    ensures Flatten(righe + [r]) == Flatten(righe) + r.posti
    ensures RowFilas(righe + [r]) == RowFilas(righe) + Repeat(r.fila, |r.posti|)
  {
    assert (righe + [r])[..|righe|] == righe;
  }

  /** The state of the grouping loop after the seats `ps`: the closed rows
      `righe` and the open row `fila` holding `buffer`. */
  ghost predicate Grouped(righe: seq<Riga>, fila: string, buffer: seq<Cella>, ps: seq<Posto>, occupati: set<nat>) {
    ps != [] && buffer != [] && fila == ps[|ps| - 1].fila
    && Flatten(righe) + buffer == CellsOf(ps, occupati)
    && RowFilas(righe) + Repeat(fila, |buffer|) == Filas(ps)
    && (forall i :: 0 <= i < |righe| ==> righe[i].posti != [])
    && (forall i :: 0 < i < |righe| ==> righe[i - 1].fila != righe[i].fila)
    && (righe != [] ==> righe[|righe| - 1].fila != fila)
  }

  lemma GroupedStart(posti: seq<Posto>, occupati: set<nat>)
    requires posti != []
    ensures Grouped([], posti[0].fila, [] + [CellOf(posti[0], occupati)], posti[..1], occupati)
  {
    assert posti[..1] == [posti[0]];
    assert Repeat(posti[0].fila, 1) == [posti[0].fila];
  }

  /** A non-empty row whose `fila` differs from the last row's keeps the rows
      non-empty and consecutive rows different. */
  lemma SnocRowShape(righe: seq<Riga>, r: Riga)
    requires forall i :: 0 <= i < |righe| ==> righe[i].posti != []
    requires forall i :: 0 < i < |righe| ==> righe[i - 1].fila != righe[i].fila
    requires r.posti != [] && (righe != [] ==> righe[|righe| - 1].fila != r.fila)
    ensures forall i :: 0 <= i < |righe + [r]| ==> (righe + [r])[i].posti != []
    ensures forall i :: 0 < i < |righe + [r]| ==> (righe + [r])[i - 1].fila != (righe + [r])[i].fila
  {
  }

  /** One more seat adds its cell and its row at the end. */
  lemma SnocSeat(ps: seq<Posto>, s: Posto, occupati: set<nat>)
    ensures CellsOf(ps + [s], occupati) == CellsOf(ps, occupati) + [CellOf(s, occupati)]
    ensures Filas(ps + [s]) == Filas(ps) + [s.fila]
  {
    assert CellsOf(ps + [s], occupati) == CellsOf(ps, occupati) + [CellOf(s, occupati)];
    assert Filas(ps + [s]) == Filas(ps) + [s.fila];
  }

  lemma GroupedSameRow(righe: seq<Riga>, fila: string, buffer: seq<Cella>, posti: seq<Posto>, k: nat, occupati: set<nat>)
    requires k < |posti| && Grouped(righe, fila, buffer, posti[..k], occupati) && posti[k].fila == fila
    ensures Grouped(righe, fila, buffer + [CellOf(posti[k], occupati)], posti[..k + 1], occupati)
  {
    assert posti[..k + 1] == posti[..k] + [posti[k]];
    SnocSeat(posti[..k], posti[k], occupati);
    assert Repeat(fila, |buffer| + 1) == Repeat(fila, |buffer|) + [fila];
  }

  lemma GroupedNewRow(righe: seq<Riga>, fila: string, buffer: seq<Cella>, posti: seq<Posto>, k: nat, occupati: set<nat>)
    requires k < |posti| && Grouped(righe, fila, buffer, posti[..k], occupati) && posti[k].fila != fila
    ensures Grouped(righe + [Riga(fila, buffer)], posti[k].fila, [] + [CellOf(posti[k], occupati)], posti[..k + 1], occupati)
  {
    assert posti[..k + 1] == posti[..k] + [posti[k]];
    SnocRow(righe, Riga(fila, buffer));
    SnocRowShape(righe, Riga(fila, buffer));
    SnocSeat(posti[..k], posti[k], occupati);
    assert Repeat(posti[k].fila, 1) == [posti[k].fila];
  }

  lemma GroupedDone(righe: seq<Riga>, fila: string, buffer: seq<Cella>, ps: seq<Posto>, occupati: set<nat>)
    requires Grouped(righe, fila, buffer, ps, occupati)
    ensures IsGrid(righe + [Riga(fila, buffer)], ps, occupati)
  {
    SnocRow(righe, Riga(fila, buffer));
    SnocRowShape(righe, Riga(fila, buffer));
  }

  lemma {:induction false} FilasLength(righe: seq<Riga>)
    ensures |RowFilas(righe)| == |Flatten(righe)|
  {
    if righe != [] {
      FilasLength(righe[..|righe| - 1]);
    }
  }

  /** The seats of the first `j` rows open the seats of the grid, with their rows. */
  lemma {:induction false} FlattenPrefix(righe: seq<Riga>, j: nat)
    requires j <= |righe|
    ensures |RowFilas(righe)| == |Flatten(righe)|
    ensures |Flatten(righe[..j])| <= |Flatten(righe)|
    ensures Flatten(righe)[..|Flatten(righe[..j])|] == Flatten(righe[..j])
    ensures RowFilas(righe)[..|Flatten(righe[..j])|] == RowFilas(righe[..j])
  {
    FilasLength(righe);
    FilasLength(righe[..j]);
    if j < |righe| {
      var init := righe[..|righe| - 1];
      assert init[..j] == righe[..j];
      FlattenPrefix(init, j);
      FilasLength(init);
      var n := |Flatten(righe[..j])|;
      assert Flatten(righe)[..n] == Flatten(init)[..n];
      assert RowFilas(righe)[..n] == RowFilas(init)[..n];
    } else {
      assert righe[..j] == righe;
    }
  }

  /** Every cell of the grid is a seat of the room: its id, its label made of
      `fila` and `numero_posto`, marked occupied exactly when its id is held,
      and shown in the row of its `fila`. */
  lemma GridCell(righe: seq<Riga>, ps: seq<Posto>, occupati: set<nat>, i: nat, k: nat)
    requires IsGrid(righe, ps, occupati)
    requires i < |righe| && k < |righe[i].posti|
    ensures exists s :: (s in ps && s.fila == righe[i].fila
      && righe[i].posti[k] == Cella(s.id, s.fila + s.numeroPosto, s.id in occupati))
  {
    var o := |Flatten(righe[..i])|;
    FlattenPrefix(righe, i + 1);
    FilasLength(righe[..i]);
    var pre := righe[..i + 1];
    assert pre[..|pre| - 1] == righe[..i];
    assert Flatten(pre) == Flatten(righe[..i]) + righe[i].posti;
    assert RowFilas(pre) == RowFilas(righe[..i]) + Repeat(righe[i].fila, |righe[i].posti|);
    assert Flatten(righe)[o + k] == righe[i].posti[k];
    assert RowFilas(righe)[o + k] == righe[i].fila;
    var s := ps[o + k];
    assert CellsOf(ps, occupati)[o + k] == CellOf(s, occupati);
    assert Filas(ps)[o + k] == s.fila;
  }

  /** The grouping loop of the GET branch of `prenota`. */
  method GroupRows(posti: seq<Posto>, occupati: set<nat>) returns (righe: seq<Riga>)
    ensures IsGrid(righe, posti, occupati)
  {
    righe := [];
    var rigaCorrente: Option<string> := None;
    var buffer: seq<Cella> := [];
    for k := 0 to |posti|
      invariant k == 0 ==> rigaCorrente.None? && righe == [] && buffer == []
      invariant k > 0 ==> rigaCorrente.Some? && Grouped(righe, rigaCorrente.value, buffer, posti[..k], occupati)
    {
      var posto := posti[k];
      if rigaCorrente.None? {
        rigaCorrente := Some(posto.fila);
      }
      if posto.fila != rigaCorrente.value {
        GroupedNewRow(righe, rigaCorrente.value, buffer, posti, k, occupati);
        righe := righe + [Riga(rigaCorrente.value, buffer)];
        rigaCorrente := Some(posto.fila);
        buffer := [];
      } else if k > 0 {
        GroupedSameRow(righe, rigaCorrente.value, buffer, posti, k, occupati);
      } else {
        GroupedStart(posti, occupati);
      }
      buffer := buffer + [CellOf(posto, occupati)];
    }
    if rigaCorrente.Some? {
      assert posti[..|posti|] == posti;
      GroupedDone(righe, rigaCorrente.value, buffer, posti, occupati);
      righe := righe + [Riga(rigaCorrente.value, buffer)];
    } else {
      assert posti == [];
    }
  }

  /** The order the grid lists a room's seats in: by `fila`, then by
      `numero_posto`, both as strings. */
  function SeatOrderKey(s: Posto): seq<int> {
    StringKey(s.fila) + [-1] + StringKey(s.numeroPosto)
  }

  predicate InSala(s: Posto, sala: nat) { s.sala == sala }

  /** The seats of room `sala`, ordered by `fila` then `numero_posto`. */
  function RoomSeats(posti: seq<Posto>, sala: nat): (r: seq<Posto>)
    ensures SortedBy(r, SeatOrderKey)
    ensures forall s :: s in r <==> s in posti && s.sala == sala
  {
    var inRoom := Filter(posti, (s: Posto) => InSala(s, sala));
    SortByMembers(inRoom, SeatOrderKey);
    SortBy(inRoom, SeatOrderKey)
  }

  /** The seats some ticket, in any state, holds for showtime `pid`. */
  function Occupied(tickets: seq<Biglietto>, pid: nat): (r: set<nat>)
    ensures forall id :: id in r <==> exists b :: b in tickets && SeatKey(b) == (pid, id)
  {
    set b | b in tickets && b.proiezione.id == pid :: b.posto.id
  }

  datatype StaffDeleteOutcome = InvalidRequest | TicketNotFound | Deleted

  class TicketStore {
    var tickets: seq<Biglietto>
    var nextId: nat

    ghost predicate Valid()
      reads this
    {
      OneTicketPerSeat(tickets) && KeysBelow(tickets, nextId)
    }

    constructor ()
      ensures Valid() && tickets == [] && nextId == 1
    {
      tickets := [];
      nextId := 1;
    }

    /** `prenota` on POST: all the checks, then every ticket inserted at once
        or none. */
    method Prenota(showtimes: seq<Proiezione>, posti: seq<Posto>, proiezioneId: nat, u: User, form: BookingForm, now: int)
      returns (r: Result<seq<Biglietto>, BookingError>)
      requires Valid() && SeatTableValid(posti)
      modifies this
      ensures Valid()
      ensures r == Book(old(tickets), old(nextId), showtimes, posti, proiezioneId, u, form, now)
      ensures r.Success? ==> tickets == old(tickets) + r.value && nextId == old(nextId) + |r.value|
      ensures r.Failure? ==> tickets == old(tickets) && nextId == old(nextId)
    {
      r := Book(tickets, nextId, showtimes, posti, proiezioneId, u, form, now);
      if r.Success? {
        BookKeepsInvariant(tickets, nextId, showtimes, posti, proiezioneId, u, form, now, r.value);
        tickets, nextId := tickets + r.value, nextId + |r.value|;
      }
    }

    /** `prenota` on GET: the same gate as a booking, then the room's seats
        grouped into rows, each seat marked occupied when any ticket holds it
        for the showtime. */
    method SeatGrid(showtimes: seq<Proiezione>, posti: seq<Posto>, proiezioneId: nat, u: User, now: int)
      returns (r: Result<seq<Riga>, BookingError>)
      ensures BookingGate(showtimes, proiezioneId, u, now).Failure? ==>
        r == Failure(BookingGate(showtimes, proiezioneId, u, now).error)
      ensures BookingGate(showtimes, proiezioneId, u, now).Success? ==> r.Success?
      ensures BookingGate(showtimes, proiezioneId, u, now).Success? && r.Success? ==>
        IsGrid(r.value, RoomSeats(posti, BookingGate(showtimes, proiezioneId, u, now).value.sala),
                  Occupied(tickets, proiezioneId))
    {
      var gate := BookingGate(showtimes, proiezioneId, u, now);
      if gate.Failure? {
        return Failure(gate.error);
      }
      var p := gate.value;
      var righe := GroupRows(RoomSeats(posti, p.sala), Occupied(tickets, p.id));
      r := Success(righe);
    }

    /** `annulla_biglietto`: the ticket row is deleted, not set to cancelled. */
    method Annulla(id: nat, u: User, isPost: bool, now: int) returns (o: CancelOutcome)
      requires Valid()
      modifies this
      ensures Valid()
      ensures o == CancelDecision(old(tickets), id, u, isPost, now)
      ensures o == Cancelled ==> tickets == Without(old(tickets), id)
      ensures o != Cancelled ==> tickets == old(tickets)
      ensures nextId == old(nextId)
    {
      o := CancelDecision(tickets, id, u, isPost, now);
      if o == Cancelled {
        WithoutKeepsValid(tickets, id, nextId);
        tickets := Without(tickets, id);
      }
    }

    /** `BigliettoSegnaPagatoView.post`: 404 for an unknown ticket, otherwise
        only its state is overwritten. */
    method SegnaPagato(id: nat) returns (found: bool)
      requires Valid()
      modifies this
      ensures Valid()
      ensures found <==> FindTicket(old(tickets), id).Some?
      ensures found ==> tickets == MarkPaid(old(tickets), id)
      ensures !found ==> tickets == old(tickets)
      ensures nextId == old(nextId)
    {
      found := FindTicket(tickets, id).Some?;
      if found {
        MarkPaidOnlyState(tickets, id, nextId);
        tickets := MarkPaid(tickets, id);
      }
    }

    /** `BigliettoStaffDeleteView`: a GET only reports an invalid request; a
        POST deletes the ticket or answers 404. */
    method StaffDelete(id: nat, isPost: bool) returns (o: StaffDeleteOutcome)
      requires Valid()
      modifies this
      ensures Valid()
      ensures !isPost ==> o == InvalidRequest && tickets == old(tickets)
      ensures isPost && FindTicket(old(tickets), id).None? ==> o == TicketNotFound && tickets == old(tickets)
      ensures isPost && FindTicket(old(tickets), id).Some? ==> o == Deleted && tickets == Without(old(tickets), id)
      ensures nextId == old(nextId)
    {
      if !isPost {
        return InvalidRequest;
      }
      if FindTicket(tickets, id).None? {
        return TicketNotFound;
      }
      WithoutKeepsValid(tickets, id, nextId);
      tickets := Without(tickets, id);
      o := Deleted;
    }
  }
}
