/**
 * cinema/models.py: films and their three dates, rooms' seats, and the
 * placement rule for showtimes (`Proiezione.clean`).
 *
 * Instants are integer minutes and calendar days integer day numbers; the
 * day of an instant is the floor of minutes / 1440.
 */
module CinemaModels {
  import opened Wrappers
  import opened Text
  import opened Seqs

  /** Minimum gap between two showtimes in the same room (`BUFFER_MINUTI`). */
  const BUFFER_MINUTI: nat := 15

  const MINUTES_PER_DAY: nat := 1440

  /** `datetime.date()` of an instant given in minutes. */
  function DateOf(t: int): int {
    t / MINUTES_PER_DAY
  }

  /** A row of the Film table as the listings and the placement rule read it. */
  datatype Film = Film(
    id: nat,
    titolo: string,
    regista: string,
    dataUscita: int,
    durataMinuti: nat,
    trailerUrl: Option<string>,
    rassegna: bool,
    uscitaLocale: Option<int>,
    inProgrammazione: Option<int>)

  /** A seat: identified in its room by row (`fila`) and seat number. */
  datatype Posto = Posto(id: nat, sala: nat, numeroPosto: string, fila: string)

  /** The Posto table's primary key and its unique (sala, fila, numero_posto) constraint. */
  ghost predicate SeatTableValid(posti: seq<Posto>) {
    forall i, j :: 0 <= i < j < |posti| ==>
      posti[i].id != posti[j].id
      && (posti[i].sala, posti[i].fila, posti[i].numeroPosto) != (posti[j].sala, posti[j].fila, posti[j].numeroPosto)
  }

  /** A showtime; the film row travels with it, as `select_related("film")` does. */
  datatype Proiezione = Proiezione(id: nat, film: Film, sala: nat, dataOra: int)

  // ---------------------------------------------------------------------------
  // Film dates: `Film.clean` and `Film.save`
  // ---------------------------------------------------------------------------

  /** Which fields `Film.clean` reports an error on. */
  datatype FilmErrors = FilmErrors(uscitaLocale: bool, inProgrammazione: bool) {
    predicate Ok() { !uscitaLocale && !inProgrammazione }
  }

  /** The film's date invariants: the local release is not before the release,
      and programming does not start after the local release. An unset date
      satisfies every invariant it takes part in. */
  predicate DatesConsistent(dataUscita: int, uscitaLocale: Option<int>, inProgrammazione: Option<int>) {
    LocalReleaseOk(dataUscita, uscitaLocale) && ProgrammingStartOk(uscitaLocale, inProgrammazione)
  }

  predicate LocalReleaseOk(dataUscita: int, uscitaLocale: Option<int>) {
    uscitaLocale.Some? ==> dataUscita <= uscitaLocale.value
  }

  predicate ProgrammingStartOk(uscitaLocale: Option<int>, inProgrammazione: Option<int>) {
    uscitaLocale.Some? && inProgrammazione.Some? ==> inProgrammazione.value <= uscitaLocale.value
  }

  /** `Film.clean`. */
  function FilmClean(dataUscita: int, uscitaLocale: Option<int>, inProgrammazione: Option<int>): (e: FilmErrors)
    ensures e.Ok() <==> DatesConsistent(dataUscita, uscitaLocale, inProgrammazione)
    ensures uscitaLocale.None? ==> e.Ok()
    ensures e.uscitaLocale <==> !LocalReleaseOk(dataUscita, uscitaLocale)
    ensures e.inProgrammazione <==> !ProgrammingStartOk(uscitaLocale, inProgrammazione)
  {
    var errUscita := uscitaLocale.Some? && uscitaLocale.value < dataUscita;
    var errProgrammazione := inProgrammazione.Some? && uscitaLocale.Some? && inProgrammazione.value > uscitaLocale.value;
    FilmErrors(errUscita, errProgrammazione)
  }

  /** The Film instance being saved: `save` fills in the missing dates on the
      instance itself and only then validates it. */
  class FilmRecord {
    var dataUscita: int
    var uscitaLocale: Option<int>
    var inProgrammazione: Option<int>
    var persisted: bool

    constructor (dataUscita: int, uscitaLocale: Option<int>, inProgrammazione: Option<int>)
      ensures this.dataUscita == dataUscita && this.uscitaLocale == uscitaLocale
      ensures this.inProgrammazione == inProgrammazione && !persisted
    {
      this.dataUscita := dataUscita;
      this.uscitaLocale := uscitaLocale;
      this.inProgrammazione := inProgrammazione;
      persisted := false;
    }

    /** `Film.save`: the defaults are written even when validation then fails. */
    method Save() returns (errors: FilmErrors)
      modifies this
      ensures dataUscita == old(dataUscita)
      ensures uscitaLocale == if old(uscitaLocale).None? then Some(dataUscita) else old(uscitaLocale)
      ensures inProgrammazione == if old(inProgrammazione).None? then uscitaLocale else old(inProgrammazione)
      ensures uscitaLocale.Some? && inProgrammazione.Some?
      ensures errors == FilmClean(dataUscita, uscitaLocale, inProgrammazione)
      ensures errors.Ok() ==> dataUscita <= uscitaLocale.value && inProgrammazione.value <= uscitaLocale.value
      ensures persisted == (old(persisted) || errors.Ok())
    {
      if uscitaLocale.None? {
        uscitaLocale := Some(dataUscita);
      }
      if inProgrammazione.None? {
        inProgrammazione := uscitaLocale;
      }
      errors := FilmClean(dataUscita, uscitaLocale, inProgrammazione);
      if errors.Ok() {
        persisted := true;
      }
    }
  }

  /** The dates `Film.save` stores, as a value. */
  function SavedDates(dataUscita: int, uscitaLocale: Option<int>, inProgrammazione: Option<int>): (int, int)
  {
    var ul := if uscitaLocale.None? then dataUscita else uscitaLocale.value;
    (ul, if inProgrammazione.None? then ul else inProgrammazione.value)
  }

  /** Saving succeeds exactly when the explicit local release is not before the
      release and the explicit programming start is not after the stored local
      release; a film given only its release date always saves, with all three
      dates equal. */
  lemma SaveSucceedsIff(dataUscita: int, uscitaLocale: Option<int>, inProgrammazione: Option<int>)
    ensures var d := SavedDates(dataUscita, uscitaLocale, inProgrammazione);
      (FilmClean(dataUscita, Some(d.0), Some(d.1)).Ok()
       <==> (uscitaLocale.None? || dataUscita <= uscitaLocale.value)
            && (inProgrammazione.None? || inProgrammazione.value <= d.0))
    ensures uscitaLocale.None? && inProgrammazione.None? ==>
      SavedDates(dataUscita, uscitaLocale, inProgrammazione) == (dataUscita, dataUscita)
      && FilmClean(dataUscita, Some(dataUscita), Some(dataUscita)).Ok()
  {
  }

  // ---------------------------------------------------------------------------
  // `Film.trailer_embed_url`
  // ---------------------------------------------------------------------------

  /** What `urlparse`/`parse_qs` give for the stripped trailer URL: the network
      location, the path, and the values of the `v` query parameter. */
  datatype ParsedUrl = ParsedUrl(netloc: string, path: string, v: seq<string>)

  const EMBED_BASE: string := "https://www.youtube.com/embed/"

  /** `Film.trailer_embed_url`; `parsed` is the parse of the stripped URL. */
  function TrailerEmbedUrl(trailerUrl: Option<string>, parsed: ParsedUrl): (r: string)
    ensures trailerUrl.None? || trailerUrl == Some("") ==> r == ""
    ensures trailerUrl.Some? && trailerUrl != Some("") ==>
      r == Strip(trailerUrl.value) || (StartsWith(r, EMBED_BASE) && |r| > |EMBED_BASE|)
  {
    if trailerUrl.None? || trailerUrl.value == "" then ""
    else
      var url := Strip(trailerUrl.value);
      var host := Lower(parsed.netloc);
      var path := StripBy(parsed.path, IsSlash);
      if Contains(host, "youtube.com") && StartsWith(path, "embed/") then url
      else if Contains(host, "youtu.be") && path != "" then
        ShortLinkIdNonEmpty(path);
        EMBED_BASE + Split(path, '/')[0]
      else if Contains(host, "youtube.com") && |parsed.v| > 0 && parsed.v[0] != "" then
        EMBED_BASE + parsed.v[0]
      else url
  }

  /** The first path segment of a path that does not start with '/' is not empty. */
  lemma ShortLinkIdNonEmpty(path: string)
    requires path != [] && path[0] != '/'
    ensures Split(path, '/')[0] != []
    ensures '/' !in Split(path, '/')[0]
  {
    assert Split(path, '/')[0] == [path[0]] + Split(path[1..], '/')[0];
  }

  /** Decision table, row 1: a URL already in embed form is returned as it is (stripped). */
  lemma TrailerEmbedKept(trailerUrl: string, parsed: ParsedUrl)
    requires trailerUrl != ""
    requires Contains(Lower(parsed.netloc), "youtube.com")
    requires StartsWith(StripBy(parsed.path, IsSlash), "embed/")
    ensures TrailerEmbedUrl(Some(trailerUrl), parsed) == Strip(trailerUrl)
  {
  }

  /** Decision table, row 2: `youtu.be/<id>` becomes the embed URL of its first path segment. */
  lemma TrailerShortLink(trailerUrl: string, parsed: ParsedUrl)
    requires trailerUrl != ""
    requires !(Contains(Lower(parsed.netloc), "youtube.com") && StartsWith(StripBy(parsed.path, IsSlash), "embed/"))
    requires Contains(Lower(parsed.netloc), "youtu.be")
    requires StripBy(parsed.path, IsSlash) != ""
    ensures var id := Split(StripBy(parsed.path, IsSlash), '/')[0];
      TrailerEmbedUrl(Some(trailerUrl), parsed) == EMBED_BASE + id && id != "" && '/' !in id
  {
    ShortLinkIdNonEmpty(StripBy(parsed.path, IsSlash));
  }

  /** Decision table, row 3: a youtube.com URL with a `v` parameter becomes the embed URL of it. */
  lemma TrailerWatchLink(trailerUrl: string, parsed: ParsedUrl)
    requires trailerUrl != ""
    requires Contains(Lower(parsed.netloc), "youtube.com")
    requires !StartsWith(StripBy(parsed.path, IsSlash), "embed/")
    requires !(Contains(Lower(parsed.netloc), "youtu.be") && StripBy(parsed.path, IsSlash) != "")
    requires |parsed.v| > 0 && parsed.v[0] != ""
    ensures TrailerEmbedUrl(Some(trailerUrl), parsed) == EMBED_BASE + parsed.v[0]
  {
  }

  /** Decision table, last row: a URL none of the rows above applies to (another
      host, a youtu.be link with an empty path, a youtube.com link with neither
      an embed path nor a `v` value) gives back the stripped URL. */
  lemma TrailerFallback(trailerUrl: string, parsed: ParsedUrl)
    requires trailerUrl != ""
    requires !(Contains(Lower(parsed.netloc), "youtube.com") && StartsWith(StripBy(parsed.path, IsSlash), "embed/"))
    requires !(Contains(Lower(parsed.netloc), "youtu.be") && StripBy(parsed.path, IsSlash) != "")
    requires !(Contains(Lower(parsed.netloc), "youtube.com") && |parsed.v| > 0 && parsed.v[0] != "")
    ensures TrailerEmbedUrl(Some(trailerUrl), parsed) == Strip(trailerUrl)
  {
  }

  // ---------------------------------------------------------------------------
  // Showtime placement: `Proiezione.clean`
  // ---------------------------------------------------------------------------

  /** The end of the interval a showtime of `film` starting at `start` occupies. */
  function End(film: Film, start: int): (e: int)
    ensures e > start
  {
    start + film.durataMinuti + BUFFER_MINUTI
  }

  /** The occupied interval of a showtime is [dataOra, Fine(p)). */
  function Fine(p: Proiezione): int {
    End(p.film, p.dataOra)
  }

  /** Whether a showtime's interval meets [start, end). */
  predicate Meets(q: Proiezione, start: int, end: int) {
    q.dataOra < end && start < Fine(q)
  }

  predicate Overlap(a: Proiezione, b: Proiezione) {
    Meets(a, b.dataOra, Fine(b))
  }

  /** No two showtimes of the same room overlap. */
  ghost predicate ScheduleFree(table: seq<Proiezione>) {
    forall a, b :: a in table && b in table && a != b && a.sala == b.sala ==> !Overlap(a, b)
  }

  /** No two showtimes of a list of one room's showtimes overlap. */
  ghost predicate RoomFree(rows: seq<Proiezione>) {
    forall a, b :: a in rows && b in rows && a != b ==> !Overlap(a, b)
  }

  /** The showtimes the rule compares against: those of room `sala`, without
      the showtime being edited (`pk`), in primary-key order. */
  function RoomShowtimes(table: seq<Proiezione>, sala: nat, pk: Option<nat>): (rows: seq<Proiezione>)
    ensures forall q :: q in rows <==> q in table && q.sala == sala && (pk.None? || q.id != pk.value)
  {
    Filter(table, (q: Proiezione) => q.sala == sala && (pk.None? || q.id != pk.value))
  }

  /** The table without the showtime being edited. */
  function Others(table: seq<Proiezione>, pk: Option<nat>): (rows: seq<Proiezione>)
    ensures forall q :: q in rows <==> q in table && (pk.None? || q.id != pk.value)
  {
    Filter(table, (q: Proiezione) => pk.None? || q.id != pk.value)
  }

  /** The showtimes among `rows` that start inside [start, end). */
  function StartingWithin(rows: seq<Proiezione>, start: int, end: int): (r: seq<Proiezione>)
    ensures forall q :: q in r <==> q in rows && start <= q.dataOra < end
  {
    Filter(rows, (q: Proiezione) => start <= q.dataOra < end)
  }

  /** The latest showtime starting before `start`; among equal starts, the first. */
  function Previous(rows: seq<Proiezione>, start: int): (r: Option<Proiezione>)
    ensures r.Some? ==> r.value in rows && r.value.dataOra < start
    ensures r.Some? ==> forall q :: q in rows && q.dataOra < start ==> q.dataOra <= r.value.dataOra
    ensures r.None? ==> forall q :: q in rows ==> start <= q.dataOra
  {
    if rows == [] then None
    else
      var rest := Previous(rows[1..], start);
      assert forall q :: q in rows ==> q == rows[0] || q in rows[1..];
      if start <= rows[0].dataOra then rest
      else if rest.Some? && rest.value.dataOra > rows[0].dataOra then rest
      else Some(rows[0])
  }

  /** Why a showtime cannot be placed; all three are reported under `data_ora`. */
  datatype PlacementError =
    | BeforeLocalRelease(uscitaLocale: int)
    | RoomBusyForward(titolo: string)
    | RoomBusyPrevious(titolo: string, dataOra: int)

  /** `Proiezione.clean` for a showtime of `film` in room `sala` at `dataOra`,
      against the Proiezione `table`; `pk` is set when an existing showtime is
      being edited. A room conflict replaces the date error, since both are
      stored under the same key. */
  function ProiezioneClean(pk: Option<nat>, film: Film, sala: nat, dataOra: int, table: seq<Proiezione>): (r: Option<PlacementError>)
    ensures r.Some? && r.value.BeforeLocalRelease? ==>
      film.uscitaLocale == Some(r.value.uscitaLocale) && DateOf(dataOra) < r.value.uscitaLocale
    ensures r.Some? && r.value.RoomBusyPrevious? ==> r.value.dataOra < dataOra
  {
    var dateError :=
      if film.uscitaLocale.Some? && DateOf(dataOra) < film.uscitaLocale.value
      then Some(BeforeLocalRelease(film.uscitaLocale.value)) else None;
    var rows := RoomShowtimes(table, sala, pk);
    var forward := StartingWithin(rows, dataOra, End(film, dataOra));
    if forward != [] then Some(RoomBusyForward(forward[0].film.titolo))
    else match Previous(rows, dataOra)
      case Some(prev) =>
        if Fine(prev) > dataOra then Some(RoomBusyPrevious(prev.film.titolo, prev.dataOra)) else dateError
      case None => dateError
  }

  predicate IsRoomConflict(r: Option<PlacementError>) {
    r.Some? && !r.value.BeforeLocalRelease?
  }

  /** The forward check: a showtime of the room starting inside the candidate's
      interval is a conflict, named by the first such showtime. */
  lemma ForwardConflictRejects(pk: Option<nat>, film: Film, sala: nat, dataOra: int, table: seq<Proiezione>, q: Proiezione)
    requires q in RoomShowtimes(table, sala, pk)
    requires dataOra <= q.dataOra < End(film, dataOra)
    ensures ProiezioneClean(pk, film, sala, dataOra, table).Some?
    ensures ProiezioneClean(pk, film, sala, dataOra, table).value.RoomBusyForward?
  {
    var rows := RoomShowtimes(table, sala, pk);
    assert q in StartingWithin(rows, dataOra, End(film, dataOra));
  }

  /** The trailing check compares only with the latest earlier showtime, and a
      showtime ending exactly at the candidate's start is no conflict. */
  lemma PreviousConflictIff(pk: Option<nat>, film: Film, sala: nat, dataOra: int, table: seq<Proiezione>, prev: Proiezione)
    requires forall q :: q in RoomShowtimes(table, sala, pk) ==> !(dataOra <= q.dataOra < End(film, dataOra))
    requires Previous(RoomShowtimes(table, sala, pk), dataOra) == Some(prev)
    ensures IsRoomConflict(ProiezioneClean(pk, film, sala, dataOra, table)) <==> Fine(prev) > dataOra
  {
    var rows := RoomShowtimes(table, sala, pk);
  }

  /** If the room was free of overlaps, the placement rule reports a room
      conflict exactly when the candidate's interval meets one of the room's
      other showtimes: the single look back suffices. */
  lemma {:induction false} RoomConflictIff(pk: Option<nat>, film: Film, sala: nat, dataOra: int, table: seq<Proiezione>)
    requires RoomFree(RoomShowtimes(table, sala, pk))
    ensures IsRoomConflict(ProiezioneClean(pk, film, sala, dataOra, table))
      <==> exists q :: q in RoomShowtimes(table, sala, pk) && Meets(q, dataOra, End(film, dataOra))
  {
    var rows := RoomShowtimes(table, sala, pk);
    var end := End(film, dataOra);
    var forward := StartingWithin(rows, dataOra, end);
    var r := ProiezioneClean(pk, film, sala, dataOra, table);
    if forward != [] {
      var q := forward[0];
      assert q in rows && Meets(q, dataOra, end);
    } else {
      assert forall q :: q in rows ==> !(dataOra <= q.dataOra < end);
      match Previous(rows, dataOra)
      case None =>
        assert forall q :: q in rows ==> !Meets(q, dataOra, end);
      case Some(prev) =>
        if Fine(prev) > dataOra {
          assert Meets(prev, dataOra, end);
        } else {
          forall q | q in rows ensures !Meets(q, dataOra, end) {
            if q.dataOra < dataOra && q != prev {
              assert !Overlap(q, prev);
            }
          }
        }
    }
  }

  /** Both rules failing leaves only the room-conflict message; with no room
      conflict the only possible error is the local-release one. */
  lemma DateErrorIff(pk: Option<nat>, film: Film, sala: nat, dataOra: int, table: seq<Proiezione>)
    ensures var r := ProiezioneClean(pk, film, sala, dataOra, table);
      !IsRoomConflict(r) ==>
        (r.Some? <==> film.uscitaLocale.Some? && DateOf(dataOra) < film.uscitaLocale.value)
  {
  }

  /** An accepted showtime never shares its room and start with another one,
      so the (sala, data_ora) constraint is never what rejects it. */
  lemma AcceptedStartIsFree(pk: Option<nat>, film: Film, sala: nat, dataOra: int, table: seq<Proiezione>, q: Proiezione)
    requires !IsRoomConflict(ProiezioneClean(pk, film, sala, dataOra, table))
    requires q in table && q.sala == sala && (pk.None? || q.id != pk.value)
    ensures q.dataOra != dataOra
  {
    if q.dataOra == dataOra {
      ForwardConflictRejects(pk, film, sala, dataOra, table, q);
    }
  }

  /** Each accepted write keeps every room free of overlaps: inserting (pk
      unset) or moving (pk set) an accepted showtime into a schedule without
      overlaps yields a schedule without overlaps. */
  lemma {:induction false} AcceptedKeepsScheduleFree(pk: Option<nat>, id: nat, film: Film, sala: nat, dataOra: int, table: seq<Proiezione>)
    requires ScheduleFree(table)
    requires pk.Some? ==> id == pk.value
    requires ProiezioneClean(pk, film, sala, dataOra, table) == None
    ensures ScheduleFree(Others(table, pk) + [Proiezione(id, film, sala, dataOra)])
  {
    var rows := RoomShowtimes(table, sala, pk);
    var cand := Proiezione(id, film, sala, dataOra);
    var kept := Others(table, pk);
    var next := kept + [cand];
    assert RoomFree(rows);
    RoomConflictIff(pk, film, sala, dataOra, table);
    forall a, b | a in next && b in next && a != b && a.sala == b.sala
      ensures !Overlap(a, b)
    {
      if a == cand {
        assert b in kept && b in rows;
        assert !Meets(b, dataOra, End(film, dataOra));
      } else if b == cand {
        assert a in kept && a in rows;
        assert !Meets(a, dataOra, End(film, dataOra));
      } else {
        assert a in table && b in table;
      }
    }
  }

  /** The scenario of cinema/tests.py: with a 120-minute film at `t`, a
      showtime at `t` is a forward conflict, one at `t + 60` a conflict with
      the previous showtime, and one at `t + 135` fits. */
  lemma RoomScenario(m: Film, other: Film, sala: nat, t: int)
    requires m.durataMinuti == 120
    requires other.uscitaLocale.None?
    ensures var table := [Proiezione(1, m, sala, t)];
      ProiezioneClean(None, other, sala, t, table) == Some(RoomBusyForward(m.titolo))
      && ProiezioneClean(None, other, sala, t + 60, table) == Some(RoomBusyPrevious(m.titolo, t))
      && ProiezioneClean(None, other, sala, t + 135, table) == None
  {
    var p := Proiezione(1, m, sala, t);
    var table := [p];
    assert RoomShowtimes(table, sala, None) == [p];
    assert StartingWithin([p], t, End(other, t)) == [p];
    assert StartingWithin([p], t + 60, End(other, t + 60)) == [];
    assert StartingWithin([p], t + 135, End(other, t + 135)) == [];
  }
}
