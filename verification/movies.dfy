/** The movie-document builder of `upsertFromTMDB` (src/services/movies.ts:18-99): the
    storage id, the decision to keep an already complete document, and the record built
    from the full TMDB details. The Firestore read and write and the TMDB fetch are
    parameters: `existing` is the stored document, `fetched` the fetch's answer. */
module Movies {
  import opened Wrappers
  import opened Types
  import opened Text
  import opened StorageIds

  datatype Credit = Credit(name: string, character: string, profilePath: Option<string>)
  datatype CrewMember = CrewMember(name: string, job: string)
  datatype Credits = Credits(cast: seq<Credit>, crew: seq<CrewMember>)

  /** A TMDB movie or show payload; `createdBy` holds the names of a show's `created_by`. */
  datatype TmdbMovie = TmdbMovie(
    id: nat,
    title: Option<string>,
    name: Option<string>,
    mediaType: Option<MediaType>,
    releaseDate: Option<string>,
    firstAirDate: Option<string>,
    posterPath: Option<string>,
    backdropPath: Option<string>,
    overview: string,
    tagline: Option<string>,
    runtime: Option<int>,
    episodeRunTime: Option<seq<int>>,
    numberOfSeasons: Option<int>,
    numberOfEpisodes: Option<int>,
    genres: Option<seq<string>>,
    credits: Option<Credits>,
    createdBy: Option<seq<string>>)

  /** JavaScript truthiness of an optional string: present and non-empty. */
  predicate Truthy(s: Option<string>)
  {
    s.Some? && s.value != ""
  }

  /** `a || b` on optional strings. */
  function OrString(a: Option<string>, b: Option<string>): (r: Option<string>)
    ensures Truthy(a) ==> r == a
    ensures !Truthy(a) ==> r == b
  {
    if Truthy(a) then a else b
  }

  /** The document id: `tv_<id>` for a show, the decimal id otherwise. */
  function DocId(id: nat, media: Option<MediaType>): (docId: string)
    ensures media == Some(TvMedia) ==> docId == Prefixed(NatToString(id))
    ensures media != Some(TvMedia) ==> docId == NatToString(id)
  {
    if media == Some(TvMedia) then Prefixed(NatToString(id)) else NatToString(id)
  }

  /** A show and a film never share a document, and documents of one kind are keyed by
      their TMDB id alone. */
  lemma DocIdInjective(a: nat, ma: Option<MediaType>, b: nat, mb: Option<MediaType>)
    requires DocId(a, ma) == DocId(b, mb)
    ensures a == b
    ensures ma == Some(TvMedia) <==> mb == Some(TvMedia)
  {
    DecimalIdsAreUnprefixed(NatToString(a));
    DecimalIdsAreUnprefixed(NatToString(b));
    if ma == Some(TvMedia) && mb == Some(TvMedia) {
      PrefixedInjective(NatToString(a), NatToString(b));
    }
    NatToStringInjective(a, b);
  }

  /** `existingData && existingData.overview && existingData.cast`: a document that
      already has details (an empty cast array still counts). */
  predicate IsComplete(existing: Option<Movie>)
  {
    existing.Some? && Truthy(existing.value.overview) && existing.value.cast.Some?
  }

  /** `(release_date || first_air_date)` read as `parseInt(date.split('-')[0])`, 0 without
      a date. */
  function YearOf(full: TmdbMovie): (year: JsInt)
    ensures !Truthy(full.releaseDate) && !Truthy(full.firstAirDate) ==> year == Int(0)
  {
    var date := OrString(full.releaseDate, full.firstAirDate);
    if Truthy(date) then ParseInt(FirstPiece(date.value, '-')) else Int(0)
  }

  /** `title || name || 'Unknown Title'`. */
  function TitleOf(full: TmdbMovie): (title: string)
    ensures title != ""
    ensures Truthy(full.title) ==> title == full.title.value
    ensures !Truthy(full.title) && Truthy(full.name) ==> title == full.name.value
  {
    OrString(OrString(full.title, full.name), Some("Unknown Title")).value
  }

  /** The name of the first crew member whose job is `Director`. */
  function FirstDirector(crew: seq<CrewMember>): (r: Option<string>)
    ensures r.None? <==> forall i :: 0 <= i < |crew| ==> crew[i].job != "Director"
    ensures r.Some? ==> exists i :: 0 <= i < |crew| && crew[i].job == "Director" && crew[i].name == r.value
                                      && forall j :: 0 <= j < i ==> crew[j].job != "Director"
  {
    if |crew| == 0 then None
    else if crew[0].job == "Director" then Some(crew[0].name)
    else
      var r := FirstDirector(crew[1..]);
      assert forall i :: 0 < i < |crew| ==> crew[i] == crew[1..][i - 1];
      r
  }

  /** `credits?.crew.find(director)?.name || created_by?.[0]?.name`. */
  function DirectorOf(full: TmdbMovie): Option<string>
  {
    var found := if full.credits.Some? then FirstDirector(full.credits.value.crew) else None;
    var creator := if full.createdBy.Some? && |full.createdBy.value| > 0 then Some(full.createdBy.value[0]) else None;
    OrString(found, creator)
  }

  /** `credits?.cast.slice(0, 10).map(...) || []`. */
  function CastOf(full: TmdbMovie): (cast: seq<CastMember>)
    ensures full.credits.None? ==> cast == []
    ensures full.credits.Some? ==> |cast| == if |full.credits.value.cast| < 10 then |full.credits.value.cast| else 10
    ensures full.credits.Some? ==> forall i :: 0 <= i < |cast| ==>
              var c := full.credits.value.cast[i];
              cast[i] == CastMember(c.name, c.character, c.profilePath)
  {
    match full.credits
    case None => []
    case Some(credits) =>
      var n := if |credits.cast| < 10 then |credits.cast| else 10;
      seq(n, i requires 0 <= i < n => CastMember(credits.cast[i].name, credits.cast[i].character, credits.cast[i].profilePath))
  }

  /** `runtime || (episode_run_time ? episode_run_time[0] : 0)`; an empty list yields
      `undefined`. */
  function RuntimeOf(full: TmdbMovie): (runtime: Option<int>)
    ensures full.runtime.Some? && full.runtime.value != 0 ==> runtime == full.runtime
  {
    if full.runtime.Some? && full.runtime.value != 0 then full.runtime
    else match full.episodeRunTime
      case None => Some(0)
      case Some(ert) => if |ert| > 0 then Some(ert[0]) else None
  }

  /** `existingData?.createdAt || serverTimestamp()`; a stored empty string is falsy. */
  function CreatedAtOf(existing: Option<Movie>): Stamp
  {
    if existing.Some? && existing.value.createdAt.Some? && existing.value.createdAt.value != At("")
    then existing.value.createdAt.value
    else ServerTimestamp
  }

  /** The record `newMovie`: the existing document's other fields, overridden by the
      details of `full`, the kind of `input` and the id of `input`. */
  function BuildRecord(input: TmdbMovie, full: TmdbMovie, userId: string, existing: Option<Movie>): (m: Movie)
    ensures m.tmdbId == NatToString(input.id)
    ensures m.mediaType == Some(if input.mediaType == Some(TvMedia) then TvMedia else MovieMedia)
    ensures m.overview == Some(full.overview) && m.cast.Some?
    ensures existing.Some? ==> m.overallAverage == existing.value.overallAverage
    ensures existing.Some? && existing.value.createdBy != "" ==> m.createdBy == existing.value.createdBy
    ensures (existing.None? || existing.value.createdBy == "") ==> m.createdBy == userId
    ensures m.createdAt.Some?
  {
    Movie(
      tmdbId := NatToString(input.id),
      title := TitleOf(full),
      year := YearOf(full),
      posterPath := full.posterPath,
      backdropPath := full.backdropPath,
      overview := Some(full.overview),
      tagline := full.tagline,
      runtime := RuntimeOf(full),
      genres := full.genres,
      director := DirectorOf(full),
      cast := Some(CastOf(full)),
      createdBy := if existing.Some? && existing.value.createdBy != "" then existing.value.createdBy else userId,
      createdAt := Some(CreatedAtOf(existing)),
      overallAverage := if existing.Some? then existing.value.overallAverage else None,
      mediaType := Some(if input.mediaType == Some(TvMedia) then TvMedia else MovieMedia),
      numberOfSeasons := full.numberOfSeasons,
      numberOfEpisodes := full.numberOfEpisodes,
      firstAirDate := full.firstAirDate)
  }

  /** What `upsertFromTMDB` resolves to: a complete stored document returned as is, or a
      freshly built record that is also written under `DocId`. */
  datatype Upserted = Kept(movie: Movie) | Written(docId: string, movie: Movie)

  /** `upsertFromTMDB(input, userId)` with the stored document and the fetch's answer as
      parameters; a failed fetch is the thrown error. */
  function UpsertFromTmdb(input: TmdbMovie, userId: string, existing: Option<Movie>, fetched: Option<TmdbMovie>): (r: Result<Upserted>)
    ensures IsComplete(existing) ==> r == Success(Kept(existing.value))
    ensures !IsComplete(existing) && fetched.None? ==> r == Failure("Could not fetch full media details")
    ensures r.Success? && r.value.Written? ==> r.value.docId == DocId(input.id, input.mediaType)
  {
    if IsComplete(existing) then Success(Kept(existing.value))
    else match fetched
      case None => Failure("Could not fetch full media details")
      case Some(full) => Success(Written(DocId(input.id, input.mediaType), BuildRecord(input, full, userId, existing)))
  }

  // ---------------------------------------------------------------- properties

  /** A complete document is returned unchanged whatever TMDB would answer: no fetch, no
      write. */
  lemma CompleteDocumentIsKept(input: TmdbMovie, userId: string, m: Movie, f1: Option<TmdbMovie>, f2: Option<TmdbMovie>)
    requires IsComplete(Some(m))
    ensures UpsertFromTmdb(input, userId, Some(m), f1) == UpsertFromTmdb(input, userId, Some(m), f2) == Success(Kept(m))
  {
  }

  /** Once written with a non-empty overview, the same document is kept on the next call. */
  lemma WrittenRecordIsKeptNextTime(input: TmdbMovie, userId: string, existing: Option<Movie>, full: TmdbMovie,
                                    again: Option<TmdbMovie>)
    requires !IsComplete(existing) && full.overview != ""
    ensures var r := UpsertFromTmdb(input, userId, existing, Some(full));
            r.Success? && r.value.Written? &&
            UpsertFromTmdb(input, userId, Some(r.value.movie), again) == Success(Kept(r.value.movie))
  {
  }

  /** Digits hold no dash, so the text before the first dash of `YYYY-...` is the year. */
  lemma FirstPieceOfYear(y: nat, rest: string)
    ensures FirstPiece(NatToString(y) + "-" + rest, '-') == NatToString(y)
  {
    var a := NatToString(y);
    var s := a + "-" + rest;
    var p := FirstPiece(s, '-');
    assert s[|a|] == '-';
    assert forall i :: 0 <= i < |a| ==> s[i] == a[i] && IsDigit(a[i]);
    assert p == s[..|p|];
    assert s[..|a|] == a;
  }

  /** A release date `YYYY-MM-DD` yields the year `YYYY`. */
  lemma YearOfReleaseDate(full: TmdbMovie, y: nat, rest: string)
    requires full.releaseDate == Some(NatToString(y) + "-" + rest)
    ensures YearOf(full) == Int(y)
  {
    FirstPieceOfYear(y, rest);
    ParseIntOfNatToString(y);
  }

  /** A show without a release date takes its year from its first air date. */
  lemma YearOfFirstAirDate(full: TmdbMovie, y: nat, rest: string)
    requires !Truthy(full.releaseDate)
    requires full.firstAirDate == Some(NatToString(y) + "-" + rest)
    ensures YearOf(full) == Int(y)
  {
    FirstPieceOfYear(y, rest);
    ParseIntOfNatToString(y);
  }

  /** The title, then the name, then the placeholder. */
  lemma TitleFallbacks(full: TmdbMovie)
    ensures !Truthy(full.title) && !Truthy(full.name) ==> TitleOf(full) == "Unknown Title"
  {
  }

  /** A film's director is its first `Director` credit; a show without one falls back to
      its first creator. */
  lemma DirectorFallsBackToCreator(full: TmdbMovie)
    requires full.credits.Some? && forall i :: 0 <= i < |full.credits.value.crew| ==> full.credits.value.crew[i].job != "Director"
    requires full.createdBy.Some? && |full.createdBy.value| > 0
    ensures DirectorOf(full) == Some(full.createdBy.value[0])
  {
  }

  /** A credited director with an empty name also gives way to the creator. */
  lemma EmptyDirectorNameGivesWay(full: TmdbMovie, crew: seq<CrewMember>)
    requires full.credits.Some? && full.credits.value.crew == [CrewMember("", "Director")] + crew
    requires full.createdBy == Some(["Mike Flanagan"])
    ensures DirectorOf(full) == Some("Mike Flanagan")
  {
  }

  /** A show with an episode runtime list and no runtime takes the first entry; one with an
      empty list has no runtime; a film without runtime or list gets 0. */
  lemma RuntimeFallbacks(full: TmdbMovie)
    ensures ((full.runtime.None? || full.runtime == Some(0)) && full.episodeRunTime.Some? && |full.episodeRunTime.value| > 0)
              ==> RuntimeOf(full) == Some(full.episodeRunTime.value[0])
    ensures ((full.runtime.None? || full.runtime == Some(0)) && full.episodeRunTime == Some([]))
              ==> RuntimeOf(full).None?
    ensures ((full.runtime.None? || full.runtime == Some(0)) && full.episodeRunTime.None?)
              ==> RuntimeOf(full) == Some(0)
  {
  }

  /** The stored `tmdbId` is the bare decimal id, even for a show stored under `tv_<id>`. */
  lemma StoredIdIsUnprefixed(input: TmdbMovie, full: TmdbMovie, userId: string, existing: Option<Movie>)
    ensures !StartsWith(BuildRecord(input, full, userId, existing).tmdbId, TvPrefix)
    ensures input.mediaType == Some(TvMedia) ==>
              DocId(input.id, input.mediaType) == Prefixed(BuildRecord(input, full, userId, existing).tmdbId)
  {
    DecimalIdsAreUnprefixed(NatToString(input.id));
  }

  /** Creator and creation time survive a rebuild of a stored document. */
  lemma RebuildPreservesProvenance(input: TmdbMovie, full: TmdbMovie, userId: string, m: Movie)
    requires m.createdBy != "" && m.createdAt.Some? && m.createdAt.value != At("")
    ensures BuildRecord(input, full, userId, Some(m)).createdBy == m.createdBy
    ensures BuildRecord(input, full, userId, Some(m)).createdAt == m.createdAt
  {
  }

  /** A brand-new document is credited to the caller and stamped by the server. */
  lemma NewRecordProvenance(input: TmdbMovie, full: TmdbMovie, userId: string)
    ensures BuildRecord(input, full, userId, None).createdBy == userId
    ensures BuildRecord(input, full, userId, None).createdAt == Some(ServerTimestamp)
  {
  }
}
