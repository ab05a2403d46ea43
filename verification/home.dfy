/** The home page's list of recent titles (src/pages/HomePage.tsx:23-41, 53-55): a per-id
    running total of overall scores, merged into each movie document as a fallback for
    its stored average, and a case-insensitive title filter. */
module Home {
  import opened Wrappers
  import opened Types
  import opened Text
  import opened StorageIds

  /** `ratingsMap[id]`: the sum of `ratings.overall` and the number of viewings. */
  datatype Stat = Stat(total: real, count: nat)

  /** The `forEach` over all viewings. Every viewing counts, including one whose
      `movieId` is empty; every entry has a positive count. */
  function RatingsMap(vs: seq<Viewing>): (m: map<string, Stat>)
    ensures forall id :: id in m ==> m[id].count > 0
  {
    if |vs| == 0 then map[]
    else
      var m := RatingsMap(vs[..|vs| - 1]);
      var v := vs[|vs| - 1];
      var s := if v.movieId in m then m[v.movieId] else Stat(0.0, 0);
      m[v.movieId := Stat(s.total + v.ratings.overall, s.count + 1)]
  }

  /** The viewings logged under `id`. */
  function CountFor(vs: seq<Viewing>, id: string): nat
  {
    if |vs| == 0 then 0
    else CountFor(vs[..|vs| - 1], id) + (if vs[|vs| - 1].movieId == id then 1 else 0)
  }

  /** The sum of their overall scores. */
  function OverallSum(vs: seq<Viewing>, id: string): real
  {
    if |vs| == 0 then 0.0
    else OverallSum(vs[..|vs| - 1], id) + (if vs[|vs| - 1].movieId == id then vs[|vs| - 1].ratings.overall else 0.0)
  }

  /** The map holds an entry exactly for the ids with viewings, with their count and the
      sum of their overall scores. */
  lemma {:induction false} RatingsMapMatches(vs: seq<Viewing>, id: string)
    ensures id in RatingsMap(vs) <==> CountFor(vs, id) > 0
    ensures id in RatingsMap(vs) ==> RatingsMap(vs)[id] == Stat(OverallSum(vs, id), CountFor(vs, id))
  {
    if |vs| > 0 {
      RatingsMapMatches(vs[..|vs| - 1], id);
      NoViewingsNoSum(vs[..|vs| - 1], id);
    }
  }

  /** Without viewings under `id` its sum is 0. */
  lemma {:induction false} NoViewingsNoSum(vs: seq<Viewing>, id: string)
    ensures CountFor(vs, id) == 0 ==> OverallSum(vs, id) == 0.0
  {
    if |vs| > 0 {
      NoViewingsNoSum(vs[..|vs| - 1], id);
    }
  }

  /** `m.mediaType === 'tv' ? \`tv_${m.tmdbId}\` : m.tmdbId`. */
  function StatsKey(m: Movie): (key: string)
    ensures m.mediaType == Some(TvMedia) ==> key == Prefixed(m.tmdbId)
    ensures m.mediaType != Some(TvMedia) ==> key == m.tmdbId
  {
    if m.mediaType == Some(TvMedia) then Prefixed(m.tmdbId) else m.tmdbId
  }

  /** `stats ? stats.total / stats.count : undefined`. */
  function ComputedAverage(vs: seq<Viewing>, key: string): (avg: Option<real>)
  {
    var m := RatingsMap(vs);
    if key in m then Some(m[key].total / m[key].count as real) else None
  }

  /** The computed average is the mean overall score of the viewings under the key, and
      absent when there are none. */
  lemma ComputedAverageIsMean(vs: seq<Viewing>, key: string)
    ensures ComputedAverage(vs, key).None? <==> CountFor(vs, key) == 0
    ensures CountFor(vs, key) > 0 ==> ComputedAverage(vs, key) == Some(OverallSum(vs, key) / CountFor(vs, key) as real)
  {
    RatingsMapMatches(vs, key);
  }

  /** Overall scores in [0, 10] keep the sum within [0, 10] times the count. */
  lemma {:induction false} OverallSumBounded(vs: seq<Viewing>, id: string)
    requires forall i :: 0 <= i < |vs| ==> 0.0 <= vs[i].ratings.overall <= 10.0
    ensures 0.0 <= OverallSum(vs, id) <= 10.0 * CountFor(vs, id) as real
  {
    if |vs| > 0 {
      OverallSumBounded(vs[..|vs| - 1], id);
    }
  }

  /** With overall scores in [0, 10], a computed average lies in [0, 10]. */
  lemma ComputedAverageInRange(vs: seq<Viewing>, key: string)
    requires forall i :: 0 <= i < |vs| ==> 0.0 <= vs[i].ratings.overall <= 10.0
    ensures ComputedAverage(vs, key).Some? ==> 0.0 <= ComputedAverage(vs, key).value <= 10.0
  {
    ComputedAverageIsMean(vs, key);
    OverallSumBounded(vs, key);
  }

  /** `{ ...m, overallAverage: m.overallAverage ?? computedAverage }`. */
  function MergeOne(m: Movie, vs: seq<Viewing>): (m': Movie)
    ensures m'.(overallAverage := m.overallAverage) == m
    ensures m.overallAverage.Some? ==> m'.overallAverage == m.overallAverage
    ensures m.overallAverage.None? ==> m'.overallAverage == ComputedAverage(vs, StatsKey(m))
  {
    m.(overallAverage := m.overallAverage.OrElse(ComputedAverage(vs, StatsKey(m))))
  }

  /** `moviesData.map(...)`: the fetched list, in order, each with its average filled in. */
  function MergeAverages(ms: seq<Movie>, vs: seq<Viewing>): (merged: seq<Movie>)
    ensures |merged| == |ms|
    ensures forall i :: 0 <= i < |ms| ==> merged[i] == MergeOne(ms[i], vs)
  {
    if |ms| == 0 then [] else [MergeOne(ms[0], vs)] + MergeAverages(ms[1..], vs)
  }

  /** A stored average wins even when it is 0, since `??` only replaces a missing value. */
  lemma StoredZeroAverageWins(m: Movie, vs: seq<Viewing>)
    requires m.overallAverage == Some(0.0)
    ensures MergeOne(m, vs).overallAverage == Some(0.0)
  {
  }

  /** A show's logs are found under its prefixed id, not under its bare TMDB id. */
  lemma ShowAverageUsesPrefixedId(m: Movie, vs: seq<Viewing>)
    requires m.mediaType == Some(TvMedia) && m.overallAverage.None?
    ensures MergeOne(m, vs).overallAverage == ComputedAverage(vs, Prefixed(m.tmdbId))
  {
  }

  // ---------------------------------------------------------------- title filter

  /** `m.title.toLowerCase().includes(filter.toLowerCase())`. */
  predicate TitleMatches(m: Movie, filter: string)
  {
    Contains(ToLower(m.title), ToLower(filter))
  }

  /** `movies.filter(...)`: the matching movies, in their order. */
  function FilterByTitle(ms: seq<Movie>, filter: string): (kept: seq<Movie>)
    ensures |kept| <= |ms|
    ensures forall m :: m in kept <==> m in ms && TitleMatches(m, filter)
  {
    if |ms| == 0 then []
    else (if TitleMatches(ms[0], filter) then [ms[0]] else []) + FilterByTitle(ms[1..], filter)
  }

  /** The filter works piecewise, so the kept movies stay in list order and each is kept
      as often as it occurs. */
  lemma {:induction false} FilterAppend(a: seq<Movie>, b: seq<Movie>, filter: string)
    ensures FilterByTitle(a + b, filter) == FilterByTitle(a, filter) + FilterByTitle(b, filter)
  {
    if |a| > 0 {
      assert (a + b)[1..] == a[1..] + b;
      FilterAppend(a[1..], b, filter);
    } else {
      assert a + b == b;
    }
  }

  /** A single movie is kept exactly when its title matches. */
  lemma FilterOfOne(m: Movie, filter: string)
    ensures FilterByTitle([m], filter) == if TitleMatches(m, filter) then [m] else []
  {
  }

  /** Every string contains the empty string. */
  lemma ContainsEmpty(s: string)
    ensures Contains(s, "")
  {
    assert s[0..0] == "";
  }

  /** The empty filter keeps the whole list. */
  lemma {:induction false} EmptyFilterKeepsAll(ms: seq<Movie>)
    ensures FilterByTitle(ms, "") == ms
  {
    if |ms| > 0 {
      ContainsEmpty(ToLower(ms[0].title));
      assert ToLower("") == "";
      EmptyFilterKeepsAll(ms[1..]);
    }
  }

  /** Lower-casing twice is lower-casing once. */
  lemma ToLowerIdempotent(s: string)
    ensures ToLower(ToLower(s)) == ToLower(s)
  {
  }

  /** The filter ignores the case of what is typed. */
  lemma FilterIgnoresCase(ms: seq<Movie>, filter: string)
    ensures FilterByTitle(ms, ToLower(filter)) == FilterByTitle(ms, filter)
  {
    ToLowerIdempotent(filter);
  }
}
