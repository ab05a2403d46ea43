/** The title page (src/pages/MoviePage.tsx): the storage id derived from the route, the
    unrounded per-dimension averages over the title's viewings, and the small display
    derivations of the hero, the sidebar score and the comparison chart. */
module MoviePage {
  import opened Wrappers
  import opened Types
  import opened Text
  import opened StorageIds
  import Home
  import opened FearFingerprint

  // ---------------------------------------------------------------- storage id

  /** `location.pathname.startsWith('/tv/')`. */
  predicate IsTvRoute(path: string)
  {
    StartsWith(path, "/tv/")
  }

  /** `isTv && tmdbId ? tv_<tmdbId> : tmdbId`; the route parameter may be missing. */
  function DocId(path: string, tmdbId: Option<string>): (docId: Option<string>)
    ensures docId.None? <==> tmdbId.None?
    ensures IsTvRoute(path) && tmdbId.Some? && tmdbId.value != "" ==> docId == Some(Prefixed(tmdbId.value))
    ensures !IsTvRoute(path) ==> docId == tmdbId
  {
    if IsTvRoute(path) && tmdbId.Some? && tmdbId.value != "" then Some(Prefixed(tmdbId.value)) else tmdbId
  }

  /** The page loads and lists viewings under the id the home page computes averages by,
      for a stored title whose kind matches the route. */
  lemma DocIdIsStatsKey(path: string, m: Movie)
    requires m.tmdbId != ""
    requires IsTvRoute(path) <==> m.mediaType == Some(TvMedia)
    ensures DocId(path, Some(m.tmdbId)) == Some(Home.StatsKey(m))
  {
  }

  // ---------------------------------------------------------------- averages

  /** A viewing's stored ratings, which may lack dimensions. */
  type StoredRatings = map<Key, real>

  /** `viewings.reduce((acc, v) => acc + v.ratings[k], 0)`. */
  function SumOf(rs: seq<StoredRatings>, k: Key): real
    requires forall i :: 0 <= i < |rs| ==> k in rs[i]
  {
    if |rs| == 0 then 0.0 else SumOf(rs[..|rs| - 1], k) + rs[|rs| - 1][k]
  }

  /** Every viewing holds at least the dimensions of the first one. */
  ghost predicate SharesFirstKeys(rs: seq<StoredRatings>)
  {
    |rs| > 0 ==> forall i :: 0 <= i < |rs| ==> rs[0].Keys <= rs[i].Keys
  }

  /** `averageRatings`: null without viewings; otherwise, for each dimension of the first
      viewing's ratings, the exact mean over all viewings. */
  function AverageRatings(rs: seq<StoredRatings>): (avg: Option<StoredRatings>)
    requires SharesFirstKeys(rs)
    ensures avg.None? <==> |rs| == 0
    ensures avg.Some? ==> avg.value.Keys == rs[0].Keys
  {
    if |rs| == 0 then None
    else Some(map k | k in rs[0] :: SumOf(rs, k) / |rs| as real)
  }

  lemma {:induction false} SumBetween(rs: seq<StoredRatings>, k: Key, lo: real, hi: real)
    requires forall i :: 0 <= i < |rs| ==> k in rs[i] && lo <= rs[i][k] <= hi
    ensures lo * |rs| as real <= SumOf(rs, k) <= hi * |rs| as real
  {
    if |rs| > 0 {
      SumBetween(rs[..|rs| - 1], k, lo, hi);
    }
  }

  lemma MeanBetween(s: real, n: real, lo: real, hi: real)
    requires n > 0.0 && lo * n <= s <= hi * n
    ensures lo <= s / n <= hi
  {
    assert (s / n) * n == s;
  }

  /** Each average lies between any lower and upper bound of that dimension's inputs; in
      particular between their minimum and maximum. */
  lemma AverageWithinInputs(rs: seq<StoredRatings>, k: Key, lo: real, hi: real)
    requires SharesFirstKeys(rs) && |rs| > 0 && k in rs[0]
    requires forall i :: 0 <= i < |rs| ==> lo <= rs[i][k] <= hi
    ensures lo <= AverageRatings(rs).value[k] <= hi
  {
    SumBetween(rs, k, lo, hi);
    MeanBetween(SumOf(rs, k), |rs| as real, lo, hi);
  }

  /** With one viewing, the averages are its ratings. */
  lemma OneViewingAverage(r: StoredRatings)
    ensures AverageRatings([r]) == Some(r)
  {
    var avg := AverageRatings([r]).value;
    forall k | k in r
      ensures avg[k] == r[k]
    {
      assert [r][..0] == [];
      assert SumOf([r], k) == r[k];
    }
    assert avg.Keys == r.Keys;
    assert avg == r;
  }

  /** Unlike the stats page, the title page averages `enjoyment` whenever the first viewing
      stores it: two viewings with enjoyment 4 and 8 average 6. */
  lemma EnjoymentIsAveraged(a: Ratings, b: Ratings)
    requires a.enjoyment == 4.0 && b.enjoyment == 8.0
    ensures AverageRatings([AsMap(a), AsMap(b)]).value[Enjoyment] == 6.0
  {
    var rs := [AsMap(a), AsMap(b)];
    assert rs[..1] == [AsMap(a)] && rs[..1][..0] == [];
    assert SumOf(rs[..1], Enjoyment) == 4.0;
    assert SumOf(rs, Enjoyment) == 12.0;
  }

  // ---------------------------------------------------------------- sidebar score

  /** `(averageRatings?.overall ? overall.toFixed(1) : "?") + "/10"`. */
  function ScoreText(avg: Option<StoredRatings>): (s: string)
    ensures |s| >= 4 && s[|s| - 3..] == "/10"
    ensures s == "?/10" <==> avg.None? || Overall !in avg.value || avg.value[Overall] == 0.0
  {
    if avg.Some? && Overall in avg.value && avg.value[Overall] != 0.0
    then FixedOne(avg.value[Overall]) + "/10"
    else "?/10"
  }

  /** A non-zero average of `n` tenths prints as those tenths over ten. */
  lemma ScoreOfTenths(avg: StoredRatings, n: nat)
    requires n > 0 && Overall in avg && avg[Overall] == n as real / 10.0
    ensures ScoreText(Some(avg)) == TenthsText(n) + "/10"
  {
    FixedOneOfTenth(n);
  }

  // ---------------------------------------------------------------- comparison chart

  const Palette: seq<string> := ["#8b5cf6", "#ec4899", "#10b981", "#f59e0b", "#3b82f6"]

  /** `[...][i % 5]`. */
  function ColorAt(i: nat): (c: string)
    ensures c in Palette
  {
    Palette[i % 5]
  }

  /** `userProfiles[uid]?.displayName || \`User ${uid.slice(0, 3)}\``. */
  function LegendName(profiles: map<string, Option<string>>, uid: string): (name: string)
    ensures name != ""
  {
    var display := if uid in profiles then profiles[uid] else None;
    if display.Some? && display.value != "" then display.value
    else "User " + uid[..if |uid| < 3 then |uid| else 3]
  }

  /** A non-empty display name is shown as is; otherwise the legend is "User " and then
      the first three characters of the uid (all of it when shorter), so two unnamed users
      whose uids share those characters get the same legend. */
  lemma LegendNameCases(profiles: map<string, Option<string>>, uid: string, other: string)
    ensures var name := LegendName(profiles, uid);
            uid in profiles && profiles[uid].Some? && profiles[uid].value != "" ==> name == profiles[uid].value
    ensures var name := LegendName(profiles, uid);
            !(uid in profiles && profiles[uid].Some? && profiles[uid].value != "") ==>
              && |name| == 5 + (if |uid| < 3 then |uid| else 3)
              && name[..5] == "User "
              && name[5..] == uid[..|name| - 5]
    ensures !(uid in profiles && profiles[uid].Some? && profiles[uid].value != "")
            && !(other in profiles && profiles[other].Some? && profiles[other].value != "")
            && |uid| >= 3 && |other| >= 3 && uid[..3] == other[..3]
            ==> LegendName(profiles, uid) == LegendName(profiles, other)
  {
  }

  /** The datasets handed to the radar chart, one per viewing. */
  function ChartDatasets(vs: seq<Viewing>, profiles: map<string, Option<string>>): (ds: seq<Dataset>)
    ensures |ds| == |vs|
    ensures forall i :: 0 <= i < |vs| ==> ds[i].ratings == vs[i].ratings
  {
    seq(|vs|, i requires 0 <= i < |vs| => Dataset(LegendName(profiles, vs[i].userId), vs[i].ratings, ColorAt(i)))
  }

  /** A legend chip under the chart. */
  datatype Chip = Chip(color: string, name: string)

  function Chips(vs: seq<Viewing>, profiles: map<string, Option<string>>): (cs: seq<Chip>)
    ensures |cs| == |vs|
  {
    seq(|vs|, i requires 0 <= i < |vs| => Chip(ColorAt(i), LegendName(profiles, vs[i].userId)))
  }

  /** Viewing `i`'s series and its chip share the colour `i mod 5` and the name. */
  lemma ChipsMatchSeries(vs: seq<Viewing>, profiles: map<string, Option<string>>, i: nat)
    requires i < |vs|
    ensures Chips(vs, profiles)[i].color == ChartDatasets(vs, profiles)[i].color == Palette[i % 5]
    ensures Chips(vs, profiles)[i].name == ChartDatasets(vs, profiles)[i].legend
  {
  }

  /** Five consecutive viewings get five different colours; the sixth repeats the first. */
  lemma PaletteCycles(i: nat)
    ensures forall j :: i < j < i + 5 ==> ColorAt(i) != ColorAt(j)
    ensures ColorAt(i + 5) == ColorAt(i)
  {
  }

  /** Two viewings by one user share a legend name, so the radar plots only the later
      one's ratings under it. */
  lemma RepeatViewerShowsLatest(a: Viewing, b: Viewing, profiles: map<string, Option<string>>, k: Key)
    requires a.userId == b.userId
    ensures var ds := ChartDatasets([a, b], profiles);
            PointFor(k, ds)[ds[0].legend] == Score(Get(b.ratings, k))
  {
    var ds := ChartDatasets([a, b], profiles);
    assert ds == [ds[0], ds[1]];
    LaterDatasetOverwrites(k, ds[0], ds[1]);
  }

  // ---------------------------------------------------------------- hero and season

  /** What the runtime slot of the hero renders. */
  datatype RuntimeBadge = NoBadge | Bare(text: string) | HoursMinutes(hours: int, minutes: int)

  /** JavaScript's `%`, whose remainder takes the sign of the dividend. */
  function JsRem(a: int, b: int): (r: int)
    requires b > 0
    ensures a >= 0 ==> r == a % b
  {
    if a >= 0 then a % b else -((-a) % b)
  }

  /** `{movie.runtime && <span>{floor(r / 60)}h {r % 60}m</span>}` as written: a runtime of
      0 is falsy and React renders the 0 itself. */
  function RuntimeBadgeAsWritten(runtime: Option<int>): RuntimeBadge
  {
    match runtime
    case None => NoBadge
    case Some(r) => if r == 0 then Bare("0") else HoursMinutes(r / 60, JsRem(r, 60))
  }

  /** The badge as evidently intended: nothing unless there is a runtime to show. */
  function RuntimeBadgeOf(runtime: Option<int>): (b: RuntimeBadge)
    ensures b.NoBadge? <==> runtime.None? || runtime == Some(0)
    ensures !b.Bare?
  {
    match runtime
    case None => NoBadge
    case Some(r) => if r == 0 then NoBadge else HoursMinutes(r / 60, JsRem(r, 60))
  }

  /** A stored runtime of 0 (what the record builder writes for a title TMDB gives no
      runtime) puts a stray "0" into the hero as written. */
  lemma ZeroRuntimeRendersZero()
    ensures RuntimeBadgeAsWritten(Some(0)) == Bare("0")
    ensures RuntimeBadgeOf(Some(0)) == NoBadge
  {
  }

  /** For a positive runtime both versions show whole hours and the remaining minutes,
      which add back up to the runtime. */
  lemma RuntimeSplits(r: int)
    requires r > 0
    ensures RuntimeBadgeOf(Some(r)) == RuntimeBadgeAsWritten(Some(r))
    ensures var b := RuntimeBadgeOf(Some(r));
            b.HoursMinutes? && b.hours * 60 + b.minutes == r && 0 <= b.minutes < 60 && b.hours >= 0
  {
  }

  /** `m.mediaType === 'tv' && m.numberOfSeasons ? 1 : (unchanged)`. */
  function DefaultSeason(m: Movie): (season: Option<nat>)
    ensures season.Some? ==> season.value == 1
    ensures season.Some? <==> m.mediaType == Some(TvMedia) && m.numberOfSeasons.Some? && m.numberOfSeasons.value != 0
  {
    if m.mediaType == Some(TvMedia) && m.numberOfSeasons.Some? && m.numberOfSeasons.value != 0 then Some(1) else None
  }
}
