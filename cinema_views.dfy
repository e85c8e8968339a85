/**
 * cinema/views.py: the public listings. A room's upcoming schedule, title
 * suggestions, the films showing now, the festival films, the coming-soon
 * films and the staff film list, each a filter, an order and a limit over
 * the Film and Proiezione tables.
 */
module CinemaViews {
  import opened Wrappers
  import opened Text
  import opened Seqs
  import opened CinemaModels
  import opened AccountsModels
  import opened SalesViews

  function StartKey(q: Proiezione): seq<int> { [q.dataOra] }
  function TitleKey(f: Film): seq<int> { StringKey(f.titolo) }
  function ReleaseKey(f: Film): seq<int> { [f.dataUscita] }

  lemma StartKeyOrder(a: Proiezione, b: Proiezione)
    ensures LexLe(StartKey(a), StartKey(b)) <==> a.dataOra <= b.dataOra
  {
  }

  // ----- sala_impegni -----

  const MAX_IMPEGNI: nat := 50

  /** One line of a room's schedule: when, and which film. */
  datatype Impegno = Impegno(dataOra: int, titolo: string)

  predicate UpcomingIn(q: Proiezione, sala: nat, now: int) {
    q.sala == sala && q.dataOra >= now
  }

  /** The showtimes `sala_impegni` lists: the room's, from now on, earliest
      first, at most fifty. */
  function SalaShowtimes(showtimes: seq<Proiezione>, sala: nat, now: int): (r: seq<Proiezione>)
    ensures |r| <= MAX_IMPEGNI
    ensures forall q :: q in r ==> q in showtimes && UpcomingIn(q, sala, now)
  {
    var upcoming := Filter(showtimes, (q: Proiezione) => UpcomingIn(q, sala, now));
    SortByMembers(upcoming, StartKey);
    Take(SortBy(upcoming, StartKey), MAX_IMPEGNI)
  }

  /** The listed showtimes are in start order, and any upcoming showtime of
      the room that is left out starts no earlier than every listed one, and
      is left out only when fifty are listed. */
  lemma SalaShowtimesSpec(showtimes: seq<Proiezione>, sala: nat, now: int)
    ensures var r := SalaShowtimes(showtimes, sala, now);
      forall i, j :: 0 <= i < j < |r| ==> r[i].dataOra <= r[j].dataOra
    ensures var r := SalaShowtimes(showtimes, sala, now);
      forall q :: q in showtimes && UpcomingIn(q, sala, now) && q !in r ==>
        |r| == MAX_IMPEGNI && forall x :: x in r ==> x.dataOra <= q.dataOra
  {
    var upcoming := Filter(showtimes, (q: Proiezione) => UpcomingIn(q, sala, now));
    var sorted := SortBy(upcoming, StartKey);
    SortByMembers(upcoming, StartKey);
    var r := SalaShowtimes(showtimes, sala, now);
    assert r == Take(sorted, MAX_IMPEGNI);
    forall i, j | 0 <= i < j < |r| ensures r[i].dataOra <= r[j].dataOra {
      assert r[i] == sorted[i] && r[j] == sorted[j];
    }
    forall q | q in showtimes && UpcomingIn(q, sala, now) && q !in r
      ensures |r| == MAX_IMPEGNI && forall x :: x in r ==> x.dataOra <= q.dataOra
    {
      assert q in sorted;
      TakeSortedSmallest(sorted, StartKey, MAX_IMPEGNI, q);
    }
  }

  /** `sala_impegni`: the schedule lines, start and title of each listed showtime. */
  function SalaImpegni(showtimes: seq<Proiezione>, sala: nat, now: int): (r: seq<Impegno>)
    ensures |r| == |SalaShowtimes(showtimes, sala, now)|
    ensures forall i :: 0 <= i < |r| ==>
      r[i] == Impegno(SalaShowtimes(showtimes, sala, now)[i].dataOra, SalaShowtimes(showtimes, sala, now)[i].film.titolo)
  {
    Map(SalaShowtimes(showtimes, sala, now), (q: Proiezione) => Impegno(q.dataOra, q.film.titolo))
  }

  // ----- film_suggestions and the staff film list -----

  const MIN_QUERY: nat := 2
  const MAX_SUGGESTIONS: nat := 5

  /** The title or the director contains the query, ignoring case. */
  predicate Matches(f: Film, q: string) {
    ContainsCI(f.titolo, q) || ContainsCI(f.regista, q)
  }

  datatype Suggestion = Suggestion(id: nat, titolo: string)

  /** The films `film_suggestions` returns, before keeping only id and title. */
  function SuggestedFilms(films: seq<Film>, query: Option<string>): (r: seq<Film>)
    ensures |r| <= MAX_SUGGESTIONS
    ensures |Strip(OrEmpty(query))| < MIN_QUERY ==> r == []
    ensures forall f :: f in r ==> f in films && Matches(f, Strip(OrEmpty(query)))
  {
    var q := Strip(OrEmpty(query));
    if |q| < MIN_QUERY then []
    else
      var hits := Filter(films, (f: Film) => Matches(f, q));
      SortByMembers(hits, TitleKey);
      Take(SortBy(hits, TitleKey), MAX_SUGGESTIONS)
  }

  /** Suggestions come in title order, and a matching film is left out only
      when five are shown, all with titles not after its own. */
  lemma SuggestedFilmsSpec(films: seq<Film>, query: Option<string>)
    ensures var r := SuggestedFilms(films, query);
      forall i, j :: 0 <= i < j < |r| ==> LexLe(TitleKey(r[i]), TitleKey(r[j]))
    ensures var q := Strip(OrEmpty(query)); var r := SuggestedFilms(films, query);
      |q| >= MIN_QUERY ==> forall f :: f in films && Matches(f, q) && f !in r ==>
        |r| == MAX_SUGGESTIONS && forall g :: g in r ==> LexLe(TitleKey(g), TitleKey(f))
  {
    var q := Strip(OrEmpty(query));
    if |q| >= MIN_QUERY {
      var hits := Filter(films, (f: Film) => Matches(f, q));
      var sorted := SortBy(hits, TitleKey);
      SortByMembers(hits, TitleKey);
      var r := SuggestedFilms(films, query);
      assert r == Take(sorted, MAX_SUGGESTIONS);
      forall i, j | 0 <= i < j < |r| ensures LexLe(TitleKey(r[i]), TitleKey(r[j])) {
        assert r[i] == sorted[i] && r[j] == sorted[j];
      }
      forall f | f in films && Matches(f, q) && f !in r
        ensures |r| == MAX_SUGGESTIONS && forall g :: g in r ==> LexLe(TitleKey(g), TitleKey(f))
      {
        assert f in sorted;
        TakeSortedSmallest(sorted, TitleKey, MAX_SUGGESTIONS, f);
      }
    }
  }

  /** `film_suggestions`: id and title of each suggested film. */
  function FilmSuggestions(films: seq<Film>, query: Option<string>): (r: seq<Suggestion>)
    ensures |r| == |SuggestedFilms(films, query)|
    ensures forall i :: 0 <= i < |r| ==>
      r[i] == Suggestion(SuggestedFilms(films, query)[i].id, SuggestedFilms(films, query)[i].titolo)
  {
    Map(SuggestedFilms(films, query), (f: Film) => Suggestion(f.id, f.titolo))
  }

  /** `FilmListView.get_queryset`: all films by title, narrowed to the title or
      director matches when the stripped query is not empty. */
  function FilmList(films: seq<Film>, query: Option<string>): (r: seq<Film>)
    ensures SortedBy(r, TitleKey)
    ensures Strip(OrEmpty(query)) == "" ==> multiset(r) == multiset(films)
    ensures forall f :: f in r <==> f in films && (Strip(OrEmpty(query)) == "" || Matches(f, Strip(OrEmpty(query))))
  {
    var q := Strip(OrEmpty(query));
    var sorted := SortBy(films, TitleKey);
    SortByMembers(films, TitleKey);
    if q == "" then sorted
    else
      var r := Filter(sorted, (f: Film) => Matches(f, q));
      assert SortedBy(r, TitleKey) by {
        FilterKeepsSorted(sorted, TitleKey, (f: Film) => Matches(f, q));
      }
      r
  }

  /** Filtering a sorted sequence leaves it sorted. */
  lemma {:induction false} FilterKeepsSorted<T(!new)>(s: seq<T>, key: T -> seq<int>, p: T -> bool)
    requires SortedBy(s, key)
    ensures SortedBy(Filter(s, p), key)
  {
    if s != [] {
      assert SortedBy(s[1..], key) by {
        forall i, j | 0 <= i < j < |s[1..]| ensures LexLe(key(s[1..][i]), key(s[1..][j])) {
          assert s[1..][i] == s[i + 1] && s[1..][j] == s[j + 1];
        }
      }
      FilterKeepsSorted(s[1..], key, p);
      var rest := Filter(s[1..], p);
      if p(s[0]) {
        forall y | y in rest ensures LexLe(key(s[0]), key(y)) {
          var k :| 0 <= k < |s[1..]| && s[1..][k] == y;
          assert s[k + 1] == y;
        }
        SortedCons(s[0], rest, key);
      }
    }
  }

  // ----- Programmazione, rassegna, prossimamente -----

  /** Film `fid` has a showtime starting at `now` or later. */
  predicate HasFutureShowtime(showtimes: seq<Proiezione>, fid: nat, now: int) {
    exists i :: 0 <= i < |showtimes| && showtimes[i].film.id == fid && showtimes[i].dataOra >= now
  }

  predicate FutureOf(q: Proiezione, fid: nat, now: int) {
    q.film.id == fid && q.dataOra >= now
  }

  /** A film of a listing with its future showtimes, earliest first (any room). */
  datatype FilmListing = FilmListing(film: Film, proiezioniFuture: seq<Proiezione>)

  function FutureShowtimes(showtimes: seq<Proiezione>, fid: nat, now: int): (r: seq<Proiezione>)
    ensures forall q :: q in r <==> q in showtimes && FutureOf(q, fid, now)
    ensures forall i, j :: 0 <= i < j < |r| ==> r[i].dataOra <= r[j].dataOra
  {
    var future := Filter(showtimes, (q: Proiezione) => FutureOf(q, fid, now));
    SortByMembers(future, StartKey);
    var r := SortBy(future, StartKey);
    assert forall i, j :: 0 <= i < j < |r| ==> LexLe(StartKey(r[i]), StartKey(r[j]));
    r
  }

  /** Attaches to each film its future showtimes. */
  function Listings(films: seq<Film>, showtimes: seq<Proiezione>, now: int): (r: seq<FilmListing>)
    ensures |r| == |films|
    ensures forall i :: 0 <= i < |films| ==> r[i] == FilmListing(films[i], FutureShowtimes(showtimes, films[i].id, now))
  {
    Map(films, (f: Film) => FilmListing(f, FutureShowtimes(showtimes, f.id, now)))
  }

  /** Shown under "programmazione": not a festival film, programming started
      on or before today, and a showtime still to come. A film whose
      programming start is unset is not shown. */
  predicate InProgrammazione(f: Film, showtimes: seq<Proiezione>, now: int) {
    !f.rassegna && f.inProgrammazione.Some? && f.inProgrammazione.value <= DateOf(now)
    && HasFutureShowtime(showtimes, f.id, now)
  }

  /** Shown under "rassegna": a festival film with a showtime still to come;
      its programming start plays no part. */
  predicate InRassegna(f: Film, showtimes: seq<Proiezione>, now: int) {
    f.rassegna && HasFutureShowtime(showtimes, f.id, now)
  }

  /** Shown under "prossimamente": not a festival film, programming starting
      after today. */
  predicate Prossimamente(f: Film, now: int) {
    !f.rassegna && f.inProgrammazione.Some? && f.inProgrammazione.value > DateOf(now)
  }

  /** The films of the "programmazione" page, by title. */
  function ProgrammazioneFilms(films: seq<Film>, showtimes: seq<Proiezione>, now: int): (r: seq<Film>)
    ensures SortedBy(r, TitleKey)
    ensures forall f :: multiset(r)[f] == if InProgrammazione(f, showtimes, now) then multiset(films)[f] else 0
  {
    var shown := Filter(films, (f: Film) => InProgrammazione(f, showtimes, now));
    assert forall f :: multiset(shown)[f] == if InProgrammazione(f, showtimes, now) then multiset(films)[f] else 0 by {
      forall f ensures multiset(shown)[f] == if InProgrammazione(f, showtimes, now) then multiset(films)[f] else 0 {
        FilterCount(films, (f: Film) => InProgrammazione(f, showtimes, now), f);
      }
    }
    SortBy(shown, TitleKey)
  }

  /** `FilmInProgrammazioneListView.get_queryset`. */
  function Programmazione(films: seq<Film>, showtimes: seq<Proiezione>, now: int): (r: seq<FilmListing>)
    ensures |r| == |ProgrammazioneFilms(films, showtimes, now)|
    ensures forall i :: 0 <= i < |r| ==>
      r[i].film == ProgrammazioneFilms(films, showtimes, now)[i]
      && r[i].proiezioniFuture == FutureShowtimes(showtimes, r[i].film.id, now)
  {
    Listings(ProgrammazioneFilms(films, showtimes, now), showtimes, now)
  }

  /** The films of the "rassegna" page, by title. */
  function RassegnaFilms(films: seq<Film>, showtimes: seq<Proiezione>, now: int): (r: seq<Film>)
    ensures SortedBy(r, TitleKey)
    ensures forall f :: multiset(r)[f] == if InRassegna(f, showtimes, now) then multiset(films)[f] else 0
  {
    var shown := Filter(films, (f: Film) => InRassegna(f, showtimes, now));
    assert forall f :: multiset(shown)[f] == if InRassegna(f, showtimes, now) then multiset(films)[f] else 0 by {
      forall f ensures multiset(shown)[f] == if InRassegna(f, showtimes, now) then multiset(films)[f] else 0 {
        FilterCount(films, (f: Film) => InRassegna(f, showtimes, now), f);
      }
    }
    SortBy(shown, TitleKey)
  }

  /** `RassegnaFilmListView.get_queryset`. */
  function Rassegna(films: seq<Film>, showtimes: seq<Proiezione>, now: int): (r: seq<FilmListing>)
    ensures |r| == |RassegnaFilms(films, showtimes, now)|
    ensures forall i :: 0 <= i < |r| ==>
      r[i].film == RassegnaFilms(films, showtimes, now)[i]
      && r[i].proiezioniFuture == FutureShowtimes(showtimes, r[i].film.id, now)
  {
    Listings(RassegnaFilms(films, showtimes, now), showtimes, now)
  }

  /** `ProssimamenteFilmListView.get_queryset`: by release date. */
  function ProssimamenteFilms(films: seq<Film>, now: int): (r: seq<Film>)
    ensures forall i, j :: 0 <= i < j < |r| ==> r[i].dataUscita <= r[j].dataUscita
    ensures forall f :: multiset(r)[f] == if Prossimamente(f, now) then multiset(films)[f] else 0
  {
    var shown := Filter(films, (f: Film) => Prossimamente(f, now));
    assert forall f :: multiset(shown)[f] == if Prossimamente(f, now) then multiset(films)[f] else 0 by {
      forall f ensures multiset(shown)[f] == if Prossimamente(f, now) then multiset(films)[f] else 0 {
        FilterCount(films, (f: Film) => Prossimamente(f, now), f);
      }
    }
    var r := SortBy(shown, ReleaseKey);
    assert forall i, j :: 0 <= i < j < |r| ==> LexLe(ReleaseKey(r[i]), ReleaseKey(r[j]));
    r
  }

  /** Each listing of "programmazione" is a film of the table that is
      showing, with all its showtimes from now on and none of another film. */
  lemma ProgrammazioneListing(films: seq<Film>, showtimes: seq<Proiezione>, now: int, l: FilmListing)
    requires l in Programmazione(films, showtimes, now)
    ensures InProgrammazione(l.film, showtimes, now) && l.film in films
    ensures l.proiezioniFuture == FutureShowtimes(showtimes, l.film.id, now)
    ensures forall q :: q in l.proiezioniFuture <==> q in showtimes && FutureOf(q, l.film.id, now)
  {
    var fs := ProgrammazioneFilms(films, showtimes, now);
    var r := Programmazione(films, showtimes, now);
    var i :| 0 <= i < |r| && r[i] == l;
    assert l.film == fs[i];
    assert fs[i] in multiset(fs);
    assert multiset(fs)[l.film] > 0;
  }

  /** A film is listed with at least one showtime. */
  lemma ListingNotEmpty(films: seq<Film>, showtimes: seq<Proiezione>, now: int, l: FilmListing)
    requires l in Programmazione(films, showtimes, now)
    ensures l.proiezioniFuture != []
  {
    ProgrammazioneListing(films, showtimes, now, l);
    FutureNotEmpty(showtimes, now, l.film);
  }

  /** Every film of the table that is showing has a listing, and appears as
      often as in the table (once, as keys are distinct). */
  lemma ProgrammazioneComplete(films: seq<Film>, showtimes: seq<Proiezione>, now: int, f: Film)
    requires f in films && InProgrammazione(f, showtimes, now)
    ensures exists l :: l in Programmazione(films, showtimes, now) && l.film == f
    ensures multiset(ProgrammazioneFilms(films, showtimes, now))[f] == multiset(films)[f]
  {
    var fs := ProgrammazioneFilms(films, showtimes, now);
    assert multiset(fs)[f] == multiset(films)[f];
    assert f in multiset(films);
    assert f in fs;
    var i :| 0 <= i < |fs| && fs[i] == f;
    assert Programmazione(films, showtimes, now)[i].film == f;
  }

  /** A festival film with a showtime to come is listed under "rassegna" even
      when its programming start is after today. */
  lemma RassegnaIgnoresProgrammingStart(films: seq<Film>, showtimes: seq<Proiezione>, now: int, f: Film)
    requires f in films && f.rassegna && HasFutureShowtime(showtimes, f.id, now)
    ensures f in RassegnaFilms(films, showtimes, now)
  {
    assert f in multiset(films);
    assert f in multiset(RassegnaFilms(films, showtimes, now));
  }

  /** At one instant no film is both showing and coming soon. */
  lemma ProgrammazioneProssimamenteDisjoint(films: seq<Film>, showtimes: seq<Proiezione>, now: int, f: Film)
    ensures !(f in ProgrammazioneFilms(films, showtimes, now) && f in ProssimamenteFilms(films, now))
  {
    if f in ProgrammazioneFilms(films, showtimes, now) {
      assert f in multiset(ProgrammazioneFilms(films, showtimes, now));
    }
    if f in ProssimamenteFilms(films, now) {
      assert f in multiset(ProssimamenteFilms(films, now));
    }
  }

  /** Every showtime offered under "programmazione" passes the booking gate
      at the same instant, whoever is logged in: it has not started and its
      film is showing. The showtime rows carry the film rows of the table. */
  lemma ListedShowtimeIsBookable(films: seq<Film>, showtimes: seq<Proiezione>, now: int, l: FilmListing, q: Proiezione, u: User)
    requires forall i, j :: 0 <= i < j < |films| ==> films[i].id != films[j].id
    requires forall p :: p in showtimes ==> p.film in films
    requires forall i, j :: 0 <= i < j < |showtimes| ==> showtimes[i].id != showtimes[j].id
    requires u.isAuthenticated
    requires l in Programmazione(films, showtimes, now) && q in l.proiezioniFuture
    ensures BookingGate(showtimes, q.id, u, now) == Success(q)
  {
    ProgrammazioneListing(films, showtimes, now, l);
    FutureShowtimeBookable(films, showtimes, now, l.film, q, u);
  }

  /** A showtime to come of a film that is showing passes the booking gate. */
  lemma FutureShowtimeBookable(films: seq<Film>, showtimes: seq<Proiezione>, now: int, f: Film, q: Proiezione, u: User)
    requires forall i, j :: 0 <= i < j < |films| ==> films[i].id != films[j].id
    requires forall p :: p in showtimes ==> p.film in films
    requires forall i, j :: 0 <= i < j < |showtimes| ==> showtimes[i].id != showtimes[j].id
    requires u.isAuthenticated
    requires f in films && InProgrammazione(f, showtimes, now)
    requires q in showtimes && FutureOf(q, f.id, now)
    ensures BookingGate(showtimes, q.id, u, now) == Success(q)
  {
    assert q.film == f by {
      var i :| 0 <= i < |films| && films[i] == q.film;
      var j :| 0 <= j < |films| && films[j] == f;
    }
    FindShowtimeUnique(showtimes, q);
  }

  /** Distinct keys make a showtime findable by its key. */
  lemma {:induction false} FindShowtimeUnique(table: seq<Proiezione>, q: Proiezione)
    requires forall i, j :: 0 <= i < j < |table| ==> table[i].id != table[j].id
    requires q in table
    ensures FindShowtime(table, q.id) == Some(q)
  {
    if table[0] != q {
      var k :| 0 <= k < |table| && table[k] == q;
      assert k > 0 && table[0].id != q.id;
      assert table[1..][k - 1] == q;
      forall i, j | 0 <= i < j < |table[1..]| ensures table[1..][i].id != table[1..][j].id {
        assert table[1..][i] == table[i + 1] && table[1..][j] == table[j + 1];
      }
      FindShowtimeUnique(table[1..], q);
    }
  }

  lemma FutureNotEmpty(showtimes: seq<Proiezione>, now: int, f: Film)
    requires HasFutureShowtime(showtimes, f.id, now)
    ensures FutureShowtimes(showtimes, f.id, now) != []
  {
    var k :| 0 <= k < |showtimes| && showtimes[k].film.id == f.id && showtimes[k].dataOra >= now;
    assert showtimes[k] in FutureShowtimes(showtimes, f.id, now);
  }
}
