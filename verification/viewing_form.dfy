/** The log/edit form of a viewing (src/components/ViewingForm.tsx:26-113): the default
    ratings, the state loaded when the dialog opens, the per-slider update, the storage
    id the viewing is filed under and the record handed to the viewings service. The
    current date is a parameter. */
module ViewingForm {
  import opened Wrappers
  import opened Types
  import opened Text
  import opened StorageIds
  import Movies
  import Home
  import opened EpisodeKeys
  import opened StatsAggregate

  /** `INITIAL_RATINGS`: every dimension at 5. */
  const InitialRatings: Ratings := Uniform(5.0)

  /** A stored rating object may lack dimensions (older documents). */
  type StoredRatings = map<Key, real>

  /** Stored toggles may be missing, or lack either flag. */
  datatype StoredToggles = StoredToggles(wouldWatchAgain: Option<bool>, wouldRecommend: Option<bool>)

  /** The fields of an existing viewing that the form reads back. */
  datatype StoredViewing = StoredViewing(
    id: Option<string>,
    watchedAt: string,
    ratings: StoredRatings,
    toggles: Option<StoredToggles>,
    notes: Option<string>)

  /** The dialog's state. */
  datatype FormState = FormState(ratings: Ratings, watchedAt: string, notes: string,
                                 wouldWatchAgain: bool, wouldRecommend: bool)

  function Pick(stored: StoredRatings, k: Key): real
  {
    if k in stored then stored[k] else 5.0
  }

  /** `{ ...INITIAL_RATINGS, ...existingViewing.ratings }`: every stored dimension wins and
      every missing one is 5. */
  function MergeStored(stored: StoredRatings): (r: Ratings)
    ensures forall k :: k in stored ==> Get(r, k) == stored[k]
    ensures forall k :: k !in stored ==> Get(r, k) == Get(InitialRatings, k)
  {
    Ratings(Pick(stored, Overall), Pick(stored, Enjoyment), Pick(stored, Jump), Pick(stored, Dread),
            Pick(stored, Gore), Pick(stored, Atmosphere), Pick(stored, Story), Pick(stored, Rewatch),
            Pick(stored, Wtf), Pick(stored, Cozy))
  }

  /** `!!flag`: only a stored `true` turns a toggle on. */
  function LoadFlag(flag: Option<bool>): (on: bool)
    ensures on <==> flag == Some(true)
  {
    flag.GetOr(false)
  }

  /** The `useEffect` run when the dialog opens: an existing viewing is loaded, otherwise
      the defaults and today's date. */
  function OpenForm(existing: Option<StoredViewing>, today: string): (f: FormState)
    ensures existing.None? ==> f == FormState(InitialRatings, today, "", false, false)
    ensures existing.Some? ==> (f.ratings == MergeStored(existing.value.ratings)
                                && f.watchedAt == existing.value.watchedAt
                                && f.notes == existing.value.notes.GetOr(""))
    ensures existing.Some? && existing.value.toggles.None? ==> !f.wouldWatchAgain && !f.wouldRecommend
  {
    match existing
    case None => FormState(InitialRatings, today, "", false, false)
    case Some(e) =>
      var t := e.toggles.GetOr(StoredToggles(None, None));
      FormState(MergeStored(e.ratings), e.watchedAt, e.notes.GetOr(""),
                LoadFlag(t.wouldWatchAgain), LoadFlag(t.wouldRecommend))
  }

  /** `handleRatingChange(key, value)`. */
  function ChangeRating(f: FormState, k: Key, v: real): (f': FormState)
    ensures Get(f'.ratings, k) == v
    ensures forall j :: j != k ==> Get(f'.ratings, j) == Get(f.ratings, j)
    ensures f'.(ratings := f.ratings) == f
  {
    f.(ratings := Set(f.ratings, k, v))
  }

  /** `movie.mediaType === 'tv' && !movie.tmdbId.startsWith('tv_') ? tv_<id> : id`. */
  function PersistenceId(m: Movie): (id: string)
    ensures StartsWith(id, TvPrefix) <==> m.mediaType == Some(TvMedia) || StartsWith(m.tmdbId, TvPrefix)
    ensures m.mediaType != Some(TvMedia) ==> id == m.tmdbId
  {
    if m.mediaType == Some(TvMedia) && !StartsWith(m.tmdbId, TvPrefix) then Prefixed(m.tmdbId) else m.tmdbId
  }

  /** The episode the form logs, when opened from an episode list. */
  datatype EpisodeContext = EpisodeContext(seasonNumber: nat, episodeNumber: nat, title: string)

  /** The record passed to the viewings service on submit. */
  function SaveViewing(f: FormState, m: Movie, episode: Option<EpisodeContext>, existingId: Option<string>, uid: string): (v: Viewing)
    ensures v.movieId == PersistenceId(m) && v.userId == uid && v.id == existingId
    ensures v.ratings == f.ratings && v.watchedAt == f.watchedAt
    ensures v.toggles == Toggles(f.wouldWatchAgain, f.wouldRecommend)
    ensures v.notes.Some? && Trimmed(v.notes.value)
    ensures v.mediaType == Some(EpisodeViewing) <==> episode.Some?
    ensures episode.None? ==> v.mediaType == Some(if m.mediaType == Some(TvMedia) then TvViewing else MovieViewing)
    ensures episode.None? ==> v.seasonNumber.None? && v.episodeNumber.None? && v.episodeTitle.None?
    ensures episode.Some? ==> (v.seasonNumber == Some(episode.value.seasonNumber)
                               && v.episodeNumber == Some(episode.value.episodeNumber)
                               && v.episodeTitle == Some(episode.value.title))
  {
    var media := match episode
      case Some(_) => EpisodeViewing
      case None => if m.mediaType == Some(TvMedia) then TvViewing else MovieViewing;
    Viewing(
      id := existingId,
      movieId := PersistenceId(m),
      mediaType := Some(media),
      seasonNumber := if episode.Some? then Some(episode.value.seasonNumber) else None,
      episodeNumber := if episode.Some? then Some(episode.value.episodeNumber) else None,
      episodeTitle := if episode.Some? then Some(episode.value.title) else None,
      userId := uid,
      watchedAt := f.watchedAt,
      ratings := f.ratings,
      toggles := Toggles(f.wouldWatchAgain, f.wouldRecommend),
      notes := Some(Trim(f.notes)))
  }

  /** The document a saved viewing becomes, as the form reads it back. */
  function Stored(v: Viewing): StoredViewing
  {
    StoredViewing(v.id, v.watchedAt, AsMap(v.ratings),
                  Some(StoredToggles(Some(v.toggles.wouldWatchAgain), Some(v.toggles.wouldRecommend))), v.notes)
  }

  // ---------------------------------------------------------------- properties

  /** A new entry starts at 5 in all ten dimensions, as does an edit of a viewing that
      stored no ratings at all. */
  lemma DefaultsAreFive(today: string)
    ensures forall k :: Get(OpenForm(None, today).ratings, k) == 5.0
    ensures forall e: StoredViewing :: e.ratings == map[] ==> OpenForm(Some(e), today).ratings == InitialRatings
  {
  }

  /** Merging a complete rating object gives it back unchanged. */
  lemma MergeCompleteRatings(r: Ratings)
    ensures MergeStored(AsMap(r)) == r
  {
  }

  /** A rating change is undone by writing back the old value. */
  lemma ChangeRatingUndo(f: FormState, k: Key, v: real)
    ensures ChangeRating(ChangeRating(f, k, v), k, Get(f.ratings, k)) == f
  {
    var g := ChangeRating(ChangeRating(f, k, v), k, Get(f.ratings, k));
    assert forall j :: Get(g.ratings, j) == Get(f.ratings, j);
    RatingsExt(g.ratings, f.ratings);
  }

  /** Re-opening a saved viewing for editing restores the form as submitted, except that the
      notes come back trimmed. */
  lemma SaveThenEditRoundTrip(f: FormState, m: Movie, episode: Option<EpisodeContext>, existingId: Option<string>,
                              uid: string, today: string)
    ensures OpenForm(Some(Stored(SaveViewing(f, m, episode, existingId, uid))), today) == f.(notes := Trim(f.notes))
  {
    MergeCompleteRatings(f.ratings);
  }

  /** Saving twice from a re-opened form stores the same notes: trimming is idempotent. */
  lemma NotesSettleAfterOneSave(f: FormState, m: Movie, uid: string, today: string)
    ensures var v := SaveViewing(f, m, None, None, uid);
            SaveViewing(OpenForm(Some(Stored(v)), today), m, None, None, uid) == v
  {
    SaveThenEditRoundTrip(f, m, None, None, uid, today);
    TrimIdempotent(f.notes);
  }

  /** Prefixing is applied at most once. */
  lemma PersistenceIdIdempotent(m: Movie)
    ensures PersistenceId(m.(tmdbId := PersistenceId(m))) == PersistenceId(m)
  {
  }

  /** The form files a viewing under the same id the movie service stores the title under,
      given the stub it builds (`Number(movie.tmdbId)`, `movie.mediaType || 'movie'`). */
  lemma PersistenceIdIsDocId(m: Movie, n: nat)
    requires m.tmdbId == NatToString(n)
    ensures PersistenceId(m) == Movies.DocId(n, Some(m.mediaType.GetOr(MovieMedia)))
  {
    DecimalIdsAreUnprefixed(m.tmdbId);
  }

  /** ... and under the id the home page looks its viewings up by. */
  lemma PersistenceIdIsStatsKey(m: Movie)
    requires !StartsWith(m.tmdbId, TvPrefix)
    ensures PersistenceId(m) == Home.StatsKey(m)
  {
  }

  /** A logged episode of a show is counted twice by the stats page, whatever metadata it
      has: once in the show's bucket and once in the bucket of that episode. */
  lemma SavedEpisodeFeedsShowAndEpisode(f: FormState, m: Movie, e: EpisodeContext, existingId: Option<string>,
                                        uid: string, catalog: Catalog)
    requires m.mediaType == Some(TvMedia)
    ensures var v := SaveViewing(f, m, Some(e), existingId, uid);
            Classify(v, catalog)
              == [Membership(ShowBuckets, v.movieId),
                  Membership(EpisodeBuckets, EpisodeKey(v.movieId, e.seasonNumber, e.episodeNumber))]
  {
    var v := SaveViewing(f, m, Some(e), existingId, uid);
    assert StartsWith(v.movieId, TvPrefix);
    assert v.movieId != "";
  }

  /** A logged film, with a plain id the catalog does not mark as a show, lands in the
      film buckets only. */
  lemma SavedFilmFeedsMovieBucket(f: FormState, m: Movie, existingId: Option<string>, uid: string, catalog: Catalog)
    requires m.mediaType != Some(TvMedia) && m.tmdbId != "" && !StartsWith(m.tmdbId, TvPrefix)
    requires !IsTv(m.tmdbId, MetaFor(catalog, m.tmdbId))
    ensures Classify(SaveViewing(f, m, None, existingId, uid), catalog) == [Membership(MovieBuckets, m.tmdbId)]
  {
  }
}
