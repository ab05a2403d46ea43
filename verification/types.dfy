/** The record shapes shared by the whole application: rating vectors,
    viewings and stored movie documents. */
module Types {
  import opened Wrappers
  import Text

  /** The ten rating dimensions of a `Ratings` object, in declaration order. */
  datatype Key = Overall | Enjoyment | Jump | Dread | Gore | Atmosphere | Story | Rewatch | Wtf | Cozy

  /** Every dimension, in the order the `Ratings` interface declares them. */
  const AllKeys: seq<Key> := [Overall, Enjoyment, Jump, Dread, Gore, Atmosphere, Story, Rewatch, Wtf, Cozy]

  /** The property name under which a dimension is stored. */
  function KeyName(k: Key): string
  {
    match k
    case Overall => "overall"
    case Enjoyment => "enjoyment"
    case Jump => "jump"
    case Dread => "dread"
    case Gore => "gore"
    case Atmosphere => "atmosphere"
    case Story => "story"
    case Rewatch => "rewatch"
    case Wtf => "wtf"
    case Cozy => "cozy"
  }

  /** A full rating vector; each dimension is a JavaScript number, modelled exactly. */
  datatype Ratings = Ratings(overall: real, enjoyment: real, jump: real, dread: real, gore: real,
                             atmosphere: real, story: real, rewatch: real, wtf: real, cozy: real)

  /** `r[k]`. */
  function Get(r: Ratings, k: Key): real
  {
    match k
    case Overall => r.overall
    case Enjoyment => r.enjoyment
    case Jump => r.jump
    case Dread => r.dread
    case Gore => r.gore
    case Atmosphere => r.atmosphere
    case Story => r.story
    case Rewatch => r.rewatch
    case Wtf => r.wtf
    case Cozy => r.cozy
  }

  /** `{ ...r, [k]: v }`: the vector with one dimension replaced. */
  function Set(r: Ratings, k: Key, v: real): (r': Ratings)
    ensures Get(r', k) == v
    ensures forall j :: j != k ==> Get(r', j) == Get(r, j)
  {
    match k
    case Overall => r.(overall := v)
    case Enjoyment => r.(enjoyment := v)
    case Jump => r.(jump := v)
    case Dread => r.(dread := v)
    case Gore => r.(gore := v)
    case Atmosphere => r.(atmosphere := v)
    case Story => r.(story := v)
    case Rewatch => r.(rewatch := v)
    case Wtf => r.(wtf := v)
    case Cozy => r.(cozy := v)
  }

  /** The vector holding `v` in every dimension. */
  function Uniform(v: real): (r: Ratings)
    ensures forall k :: Get(r, k) == v
  {
    Ratings(v, v, v, v, v, v, v, v, v, v)
  }

  /** Every dimension is listed in `AllKeys`. */
  lemma AllKeysComplete(k: Key)
    ensures k in AllKeys
  {
    match k
    case Overall => assert AllKeys[0] == k;
    case Enjoyment => assert AllKeys[1] == k;
    case Jump => assert AllKeys[2] == k;
    case Dread => assert AllKeys[3] == k;
    case Gore => assert AllKeys[4] == k;
    case Atmosphere => assert AllKeys[5] == k;
    case Story => assert AllKeys[6] == k;
    case Rewatch => assert AllKeys[7] == k;
    case Wtf => assert AllKeys[8] == k;
    case Cozy => assert AllKeys[9] == k;
  }

  /** The rating object as a plain key/value map (every key present). */
  function AsMap(r: Ratings): (m: map<Key, real>)
    ensures forall k :: k in m && m[k] == Get(r, k)
  {
    assert forall k: Key :: k in AllKeys by {
      forall k: Key ensures k in AllKeys { AllKeysComplete(k); }
    }
    map k | k in AllKeys :: Get(r, k)
  }

  /** The `mediaType` of a stored movie document. */
  datatype MediaType = MovieMedia | TvMedia

  /** The `mediaType` stored on a viewing. */
  datatype ViewingMedia = MovieViewing | TvViewing | EpisodeViewing

  datatype Toggles = Toggles(wouldWatchAgain: bool, wouldRecommend: bool)

  /** One logged watch of a movie, a show or an episode of a show. */
  datatype Viewing = Viewing(
    id: Option<string>,
    movieId: string,
    mediaType: Option<ViewingMedia>,
    seasonNumber: Option<nat>,
    episodeNumber: Option<nat>,
    episodeTitle: Option<string>,
    userId: string,
    watchedAt: string,
    ratings: Ratings,
    toggles: Toggles,
    notes: Option<string>)

  /** A `createdAt` value: the server-timestamp sentinel or a stored time. */
  datatype Stamp = ServerTimestamp | At(text: string)

  datatype CastMember = CastMember(name: string, role: string, profilePath: Option<string>)

  /** A movie or show document of the `movies` collection. */
  datatype Movie = Movie(
    tmdbId: string,
    title: string,
    year: Text.JsInt,
    posterPath: Option<string>,
    backdropPath: Option<string>,
    overview: Option<string>,
    tagline: Option<string>,
    runtime: Option<int>,
    genres: Option<seq<string>>,
    director: Option<string>,
    cast: Option<seq<CastMember>>,
    createdBy: string,
    createdAt: Option<Stamp>,
    overallAverage: Option<real>,
    mediaType: Option<MediaType>,
    numberOfSeasons: Option<int>,
    numberOfEpisodes: Option<int>,
    firstAirDate: Option<string>)
}
