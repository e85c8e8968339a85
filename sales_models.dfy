/**
 * sales/models.py: the ticket record (`Biglietto`), its state and defaults,
 * and the one-ticket-per-seat-per-showtime constraint.
 */
module SalesModels {
  import opened Wrappers
  import opened CinemaModels

  /** `Biglietto.Stato`: reserved, paid, cancelled. */
  datatype Stato = Prenotato | Pagato | Annullato

  /** The three-letter code stored in the `stato` column. */
  function StatoCode(s: Stato): (code: string)
    ensures |code| == 3
  {
    match s
    case Prenotato => "PRE"
    case Pagato => "PAG"
    case Annullato => "ANN"
  }

  /** Reading the `stato` column back; only the three choices are valid. */
  function StatoFromCode(code: string): (r: Option<Stato>)
    ensures r.Some? <==> code in {"PRE", "PAG", "ANN"}
  {
    if code == "PRE" then Some(Prenotato)
    else if code == "PAG" then Some(Pagato)
    else if code == "ANN" then Some(Annullato)
    else None
  }

  /** Every state is stored as a code that reads back as that state. */
  lemma StatoRoundTrip(s: Stato)
    ensures StatoFromCode(StatoCode(s)) == Some(s)
  {
  }

  /** Default price of a ticket, in cents (8.00). */
  const PREZZO_DEFAULT: int := 800

  /** A row of the Biglietto table. The showtime and seat rows travel with it
      (`select_related`); `utente` is unset for tickets sold at the desk, which
      carry a customer name and phone instead. */
  datatype Biglietto = Biglietto(
    id: nat,
    proiezione: Proiezione,
    posto: Posto,
    prezzo: int,
    utente: Option<nat>,
    nomeCliente: string,
    telefonoCliente: string,
    stato: Stato,
    creatoIl: int)

  /** A ticket created giving only its required fields: reserved, at the
      default price, with no user and blank customer fields. */
  function NewBiglietto(id: nat, proiezione: Proiezione, posto: Posto, creatoIl: int): (b: Biglietto)
    ensures b.stato == Prenotato && StatoCode(b.stato) == "PRE"
    ensures b.prezzo == PREZZO_DEFAULT
    ensures b.utente.None? && b.nomeCliente == "" && b.telefonoCliente == ""
    ensures b.id == id && b.proiezione == proiezione && b.posto == posto && b.creatoIl == creatoIl
  {
    Biglietto(id, proiezione, posto, PREZZO_DEFAULT, None, "", "", Prenotato, creatoIl)
  }

  /** The pair the unique constraint `uniq_posto_per_proiezione` is over. */
  function SeatKey(b: Biglietto): (nat, nat) {
    (b.proiezione.id, b.posto.id)
  }

  /** At most one ticket, in whatever state, per (showtime, seat). */
  ghost predicate OneTicketPerSeat(ts: seq<Biglietto>) {
    forall i, j :: 0 <= i < j < |ts| ==> SeatKey(ts[i]) != SeatKey(ts[j])
  }

  /** Primary keys are distinct and below the next key to hand out. */
  ghost predicate KeysBelow(ts: seq<Biglietto>, nextId: nat) {
    (forall i :: 0 <= i < |ts| ==> ts[i].id < nextId)
    && (forall i, j :: 0 <= i < j < |ts| ==> ts[i].id != ts[j].id)
  }
}
