/** Turning the stats page's buckets into ranked rows (src/pages/StatsPage.tsx:84-91,
    117-173): averages rounded to a tenth, a display title with the raw id as fallback,
    a link only when the metadata has a TMDB id, and for episodes a subtitle rebuilt from
    the bucket key. */
module StatsRows {
  import opened Wrappers
  import opened Types
  import opened Text
  import opened RatingUtils
  import opened EpisodeKeys
  import opened StatsAggregate

  // ---------------------------------------------------------------- averages

  /** `Math.round(x * 10) / 10`. */
  function RoundTenth(x: real): (y: real)
    ensures x - 0.05 < y <= x + 0.05
  {
    var n := Round(x * 10.0);
    assert n as real - 0.5 <= x * 10.0 < n as real + 0.5;
    n as real / 10.0
  }

  /** A multiple of 0.1: what `toFixed(1)` prints without further rounding. */
  predicate IsTenth(y: real)
  {
    (y * 10.0).Floor as real == y * 10.0
  }

  /** `agg.count || 1`: an empty bucket divides by one. */
  function Denominator(agg: Agg): (d: nat)
    ensures d >= 1 && (agg.count > 0 ==> d == agg.count)
  {
    if agg.count == 0 then 1 else agg.count
  }

  /** `toAverages(agg)`: the mean of each ranked dimension rounded to a tenth; the
      `enjoyment` field keeps the zero of `emptyRatings()` since `RATING_KEYS` skips it. */
  function ToAverages(agg: Agg): (avg: Ratings)
    ensures Get(avg, Enjoyment) == 0.0
    ensures forall k :: k != Enjoyment ==> Get(avg, k) == RoundTenth(Get(agg.sums, k) / Denominator(agg) as real)
  {
    var d := Denominator(agg) as real;
    var s := agg.sums;
    Ratings(RoundTenth(s.overall / d), 0.0, RoundTenth(s.jump / d), RoundTenth(s.dread / d),
            RoundTenth(s.gore / d), RoundTenth(s.atmosphere / d), RoundTenth(s.story / d),
            RoundTenth(s.rewatch / d), RoundTenth(s.wtf / d), RoundTenth(s.cozy / d))
  }

  /** Rounding to a tenth keeps the order of its arguments. */
  lemma RoundTenthMonotone(x: real, y: real)
    requires x <= y
    ensures RoundTenth(x) <= RoundTenth(y)
  {
    assert (x * 10.0 + 0.5).Floor <= (y * 10.0 + 0.5).Floor;
  }

  /** Every average is a multiple of 0.1 and within 0.05 of the exact mean; when every
      input rating lies in [0, 10] each average lies in [0, 10] as well. */
  lemma AveragesAreBoundedTenths(agg: Agg, k: Key)
    requires SumsBounded(agg)
    ensures IsTenth(Get(ToAverages(agg), k))
    ensures 0.0 <= Get(ToAverages(agg), k) <= 10.0
  {
    if k != Enjoyment {
      var d := Denominator(agg) as real;
      assert Get(agg.sums, k) <= 10.0 * d;
      MeanIsBoundedTenth(Get(agg.sums, k), d);
    }
  }

  /** A mean of in-range values rounded to a tenth is an in-range tenth. */
  lemma MeanIsBoundedTenth(sum: real, d: real)
    requires d >= 1.0 && 0.0 <= sum <= 10.0 * d
    ensures IsTenth(RoundTenth(sum / d)) && 0.0 <= RoundTenth(sum / d) <= 10.0
  {
    var mean := sum / d;
    assert mean * d == sum;
    assert 0.0 <= mean <= 10.0;
    RoundTenthMonotone(0.0, mean);
    RoundTenthMonotone(mean, 10.0);
    assert RoundTenth(0.0) == 0.0 && RoundTenth(10.0) == 10.0;
    var n := Round(mean * 10.0);
    assert (n as real / 10.0) * 10.0 == n as real;
  }

  /** Each average of a bucket of in-range viewings lies in [0, 10]: the bound carried
      from the viewings through the grouping pass to the rows. */
  lemma GroupAveragesInRange(vs: seq<Viewing>, catalog: Catalog, m: Membership, k: Key)
    requires forall i :: 0 <= i < |vs| ==> InRange(vs[i].ratings)
    requires Find(Select(Group(vs, catalog), m.kind), m.key).Some?
    ensures 0.0 <= Get(ToAverages(Find(Select(Group(vs, catalog), m.kind), m.key).value), k) <= 10.0
    ensures IsTenth(Get(ToAverages(Find(Select(Group(vs, catalog), m.kind), m.key).value), k))
  {
    GroupMatchesTally(vs, catalog, m);
    TallyBounded(vs, catalog, m);
    AveragesAreBoundedTenths(Tally(vs, catalog, m), k);
  }

  /** A bucket holding a single viewing averages back to that viewing's ratings, as long
      as they are tenths (slider values move in steps of 0.5, so they always are). */
  lemma SingleViewingAveragesBack(r: Ratings, k: Key)
    requires k != Enjoyment && IsTenth(Get(r, k))
    ensures Get(ToAverages(AddToAgg(EmptyAgg, r)), k) == Get(r, k)
  {
    var x := Get(r, k);
    var agg := AddToAgg(EmptyAgg, r);
    assert Get(agg.sums, k) == x;
    assert Denominator(agg) == 1;
    assert Get(agg.sums, k) / 1.0 == x;
    assert Round(x * 10.0) == (x * 10.0).Floor;
  }

  // ---------------------------------------------------------------- rows

  /** `RankedRow`. */
  datatype Row = Row(id: string, title: string, subtitle: Option<string>, link: Option<string>,
                     posterPath: Option<string>, count: nat, averages: Ratings)

  /** `m?.title || movieId`. */
  function TitleFor(meta: Option<Movie>, id: string): (title: string)
    ensures title == id <==> meta.None? || meta.value.title == "" || meta.value.title == id
    ensures title != id ==> title == meta.value.title
  {
    if meta.Some? && meta.value.title != "" then meta.value.title else id
  }

  /** `m?.tmdbId ? \`${route}${m.tmdbId}\` : undefined`. */
  function LinkFor(meta: Option<Movie>, route: string): (link: Option<string>)
    ensures link.Some? <==> meta.Some? && meta.value.tmdbId != ""
    ensures link.Some? ==> StartsWith(link.value, route) && link.value[|route|..] == meta.value.tmdbId
  {
    if meta.Some? && meta.value.tmdbId != "" then
      var l := route + meta.value.tmdbId;
      assert l[..|route|] == route && l[|route|..] == meta.value.tmdbId;
      Some(l)
    else None
  }

  /** `m?.year ? String(m.year) : undefined`: a year of 0 or `NaN` shows nothing. */
  function YearSubtitle(meta: Option<Movie>): (sub: Option<string>)
    ensures sub.Some? <==> meta.Some? && meta.value.year.Int? && meta.value.year.value != 0
  {
    if meta.Some? && meta.value.year.Int? && meta.value.year.value != 0
    then Some(IntToString(meta.value.year.value)) else None
  }

  /** `m?.posterPath`. */
  function PosterFor(meta: Option<Movie>): Option<string>
  {
    if meta.Some? then meta.value.posterPath else None
  }

  /** The route prefix of the title pages: `/movie/` for films, `/tv/` for shows and episodes. */
  function Route(kind: BucketSet): string
  {
    if kind == MovieBuckets then "/movie/" else "/tv/"
  }

  /** A movie or show row (`movieRows`, `tvRows`). */
  function TitleRow(b: Bucket, catalog: Catalog, kind: BucketSet): (row: Row)
    ensures row.id == b.id && row.count == b.agg.count && row.averages == ToAverages(b.agg)
  {
    var m := MetaFor(catalog, b.id);
    Row(b.id, TitleFor(m, b.id), YearSubtitle(m), LinkFor(m, Route(kind)), PosterFor(m),
        b.agg.count, ToAverages(b.agg))
  }

  function TitleRows(bs: seq<Bucket>, catalog: Catalog, kind: BucketSet): (rows: seq<Row>)
    ensures |rows| == |bs|
    ensures forall i :: 0 <= i < |bs| ==> rows[i] == TitleRow(bs[i], catalog, kind)
  {
    if |bs| == 0 then [] else [TitleRow(bs[0], catalog, kind)] + TitleRows(bs[1..], catalog, kind)
  }

  // ---------------------------------------------------------------- episode rows

  /** `viewings.find(...)`: the first viewing of the show with exactly these season and
      episode values, absent ones comparing equal to absent ones. */
  function FindSample(vs: seq<Viewing>, id: string, season: Option<nat>, episode: Option<nat>): (r: Option<nat>)
    ensures r.Some? ==> r.value < |vs| && vs[r.value].movieId == id
                        && vs[r.value].seasonNumber == season && vs[r.value].episodeNumber == episode
    ensures r.Some? ==> forall j :: 0 <= j < r.value ==>
              !(vs[j].movieId == id && vs[j].seasonNumber == season && vs[j].episodeNumber == episode)
    ensures r.None? ==> forall j :: 0 <= j < |vs| ==>
              !(vs[j].movieId == id && vs[j].seasonNumber == season && vs[j].episodeNumber == episode)
  {
    if |vs| == 0 then None
    else if vs[0].movieId == id && vs[0].seasonNumber == season && vs[0].episodeNumber == episode then Some(0)
    else
      match FindSample(vs[1..], id, season, episode)
      case None => None
      case Some(i) => Some(i + 1)
  }

  /** `subtitleParts.join(sep)`. */
  function Join(parts: seq<string>, sep: string): string
  {
    if |parts| == 0 then "" else if |parts| == 1 then parts[0] else parts[0] + sep + Join(parts[1..], sep)
  }

  /** The em dash the episode subtitle is meant to be joined with. */
  const EmDashSeparator: string := " \U{2014} "

  /** The separator as the file spells it: the UTF-8 bytes of an em dash read back as
      Windows-1252 text. */
  const MisEncodedSeparator: string := " \U{00E2}\U{20AC}\U{201D} "

  /** `S${season}E${episode}` when the key matched, then the episode title when non-empty. */
  function SubtitleParts(numbers: Option<(nat, nat)>, episodeTitle: Option<string>): (parts: seq<string>)
    ensures forall i :: 0 <= i < |parts| ==> parts[i] != ""
  {
    (if numbers.Some? then ["S" + NatToString(numbers.value.0) + "E" + NatToString(numbers.value.1)] else [])
      + (if episodeTitle.Some? && episodeTitle.value != "" then [episodeTitle.value] else [])
  }

  /** `subtitleParts.join(sep) || undefined`. */
  function JoinedSubtitle(parts: seq<string>, sep: string): Option<string>
  {
    var s := Join(parts, sep);
    if s == "" then None else Some(s)
  }

  /** The episode title of the sample viewing, if any. */
  function SampleTitle(vs: seq<Viewing>, id: string, numbers: Option<(nat, nat)>): Option<string>
  {
    var season := if numbers.Some? then Some(numbers.value.0) else None;
    var episode := if numbers.Some? then Some(numbers.value.1) else None;
    match FindSample(vs, id, season, episode)
    case None => None
    case Some(i) => vs[i].episodeTitle
  }

  /** The episode subtitle of a parsed key, its parts joined with `sep`. */
  function EpisodeSubtitle(vs: seq<Viewing>, parsed: ParsedKey, sep: string): Option<string>
  {
    JoinedSubtitle(SubtitleParts(parsed.numbers, SampleTitle(vs, parsed.id, parsed.numbers)), sep)
  }

  /** An episode row whose subtitle is joined with `sep`: the show's title, link and
      poster, found through the show id read back from the key. */
  function EpisodeRowWith(b: Bucket, catalog: Catalog, vs: seq<Viewing>, sep: string): (row: Row)
    ensures row.id == b.id && row.count == b.agg.count && row.averages == ToAverages(b.agg)
  {
    var parsed := ParseEpisodeKey(b.id);
    var m := MetaFor(catalog, parsed.id);
    Row(b.id, TitleFor(m, parsed.id), EpisodeSubtitle(vs, parsed, sep), LinkFor(m, "/tv/"), PosterFor(m),
        b.agg.count, ToAverages(b.agg))
  }

  /** An episode row (`episodeRows`) as the page builds it, with the mis-encoded separator. */
  function EpisodeRow(b: Bucket, catalog: Catalog, vs: seq<Viewing>): (row: Row)
    ensures row.id == b.id && row.count == b.agg.count && row.averages == ToAverages(b.agg)
  {
    EpisodeRowWith(b, catalog, vs, MisEncodedSeparator)
  }

  /** The episode row as intended, its subtitle joined with an em dash; it differs from the
      page's row in the subtitle only. */
  function IntendedEpisodeRow(b: Bucket, catalog: Catalog, vs: seq<Viewing>): (row: Row)
    ensures row == EpisodeRow(b, catalog, vs).(subtitle := row.subtitle)
  {
    EpisodeRowWith(b, catalog, vs, EmDashSeparator)
  }

  function EpisodeRows(bs: seq<Bucket>, catalog: Catalog, vs: seq<Viewing>): (rows: seq<Row>)
    ensures |rows| == |bs|
    ensures forall i :: 0 <= i < |bs| ==> rows[i] == EpisodeRow(bs[i], catalog, vs)
  {
    if |bs| == 0 then [] else [EpisodeRow(bs[0], catalog, vs)] + EpisodeRows(bs[1..], catalog, vs)
  }

  /** `{ movieRows, tvRows, episodeRows }`. */
  datatype RowSets = RowSets(movieRows: seq<Row>, tvRows: seq<Row>, episodeRows: seq<Row>)

  /** The whole `grouped` memo. */
  function Grouped(vs: seq<Viewing>, catalog: Catalog): RowSets
  {
    var g := Group(vs, catalog);
    RowSets(TitleRows(g.movies, catalog, MovieBuckets), TitleRows(g.shows, catalog, ShowBuckets),
            EpisodeRows(g.episodes, catalog, vs))
  }

  function RowsOf(rs: RowSets, kind: BucketSet): seq<Row>
  {
    match kind
    case MovieBuckets => rs.movieRows
    case ShowBuckets => rs.tvRows
    case EpisodeBuckets => rs.episodeRows
  }

  // ---------------------------------------------------------------- end-to-end properties

  /** Some row of the list carries this id. */
  ghost predicate HasRow(rows: seq<Row>, id: string)
  {
    exists i :: 0 <= i < |rows| && rows[i].id == id
  }

  /** The rows of each tab correspond one-to-one with the buckets the viewings feed: a
      row exists for a key exactly when some viewing feeds it, and then its count and
      averages are those of the viewings that feed it. */
  lemma {:induction false} RowsMatchTally(vs: seq<Viewing>, catalog: Catalog, m: Membership)
    ensures HasRow(RowsOf(Grouped(vs, catalog), m.kind), m.key) <==> Tally(vs, catalog, m).count > 0
    ensures forall i :: 0 <= i < |RowsOf(Grouped(vs, catalog), m.kind)| && RowsOf(Grouped(vs, catalog), m.kind)[i].id == m.key ==>
              (RowsOf(Grouped(vs, catalog), m.kind)[i].count == Tally(vs, catalog, m).count
               && RowsOf(Grouped(vs, catalog), m.kind)[i].averages == ToAverages(Tally(vs, catalog, m)))
  {
    var bs := Select(Group(vs, catalog), m.kind);
    var rows := RowsOf(Grouped(vs, catalog), m.kind);
    RowsFollowBuckets(vs, catalog, m.kind);
    GroupMatchesTally(vs, catalog, m);
    FindListed(bs, m.key);
    GroupIdsDistinct(vs, catalog, m.kind);
    forall i | 0 <= i < |rows| && rows[i].id == m.key
      ensures rows[i].count == Tally(vs, catalog, m).count && rows[i].averages == ToAverages(Tally(vs, catalog, m))
    {
      FindUnique(bs, i);
    }
    if Tally(vs, catalog, m).count > 0 {
      var i :| 0 <= i < |bs| && bs[i] == Bucket(m.key, Find(bs, m.key).value);
      assert rows[i].id == m.key;
    } else {
      forall i | 0 <= i < |rows| ensures rows[i].id != m.key {
        assert Ids(bs)[i] == bs[i].id;
      }
    }
  }

  /** Row `i` of a tab is built from bucket `i` of the matching record. */
  lemma RowsFollowBuckets(vs: seq<Viewing>, catalog: Catalog, kind: BucketSet)
    ensures var bs := Select(Group(vs, catalog), kind);
            var rows := RowsOf(Grouped(vs, catalog), kind);
            |rows| == |bs| && forall i :: 0 <= i < |bs| ==>
              (rows[i].id == bs[i].id && rows[i].count == bs[i].agg.count && rows[i].averages == ToAverages(bs[i].agg))
  {
  }

  ghost predicate DistinctIds(bs: seq<Bucket>)
  {
    forall i, j :: 0 <= i < j < |bs| ==> bs[i].id != bs[j].id
  }

  /** With distinct ids, looking up a bucket's own id finds that bucket. */
  lemma {:induction false} FindUnique(bs: seq<Bucket>, i: nat)
    requires DistinctIds(bs) && i < |bs|
    ensures Find(bs, bs[i].id) == Some(bs[i].agg)
  {
    if i > 0 {
      FindUnique(bs[1..], i - 1);
    }
  }

  /** The list ids in order, without duplicates. */
  lemma DistinctIdsFromIds(bs: seq<Bucket>)
    requires forall i, j :: 0 <= i < j < |Ids(bs)| ==> Ids(bs)[i] != Ids(bs)[j]
    ensures DistinctIds(bs)
  {
    forall i, j | 0 <= i < j < |bs| ensures bs[i].id != bs[j].id {
      assert Ids(bs)[i] != Ids(bs)[j];
    }
  }

  /** Folding a viewing into a record with distinct ids keeps them distinct. */
  lemma UpsertKeepsDistinct(bs: seq<Bucket>, id: string, r: Ratings)
    requires DistinctIds(bs)
    ensures DistinctIds(Upsert(bs, id, r))
  {
    UpsertIds(bs, id, r);
    assert forall i :: 0 <= i < |bs| ==> Ids(bs)[i] == bs[i].id;
    DistinctIdsFromIds(Upsert(bs, id, r));
  }

  lemma StepKeepsDistinct(g: Groups, v: Viewing, catalog: Catalog, kind: BucketSet)
    requires DistinctIds(Select(g, kind))
    ensures DistinctIds(Select(Step(g, v, catalog), kind))
  {
    var id := v.movieId;
    if id != "" {
      var isTv := IsTv(id, MetaFor(catalog, id));
      match kind
      case MovieBuckets =>
        if !isTv {
          UpsertKeepsDistinct(g.movies, id, v.ratings);
        }
      case ShowBuckets =>
        if isTv {
          UpsertKeepsDistinct(g.shows, id, v.ratings);
        }
      case EpisodeBuckets =>
        if isTv && HasEpisode(v) {
          UpsertKeepsDistinct(g.episodes, EpisodeKey(id, v.seasonNumber.value, v.episodeNumber.value), v.ratings);
        }
    }
  }

  /** No accumulator record ever holds the same id twice. */
  lemma {:induction false} GroupIdsDistinct(vs: seq<Viewing>, catalog: Catalog, kind: BucketSet)
    ensures DistinctIds(Select(Group(vs, catalog), kind))
  {
    if |vs| > 0 {
      GroupIdsDistinct(vs[..|vs| - 1], catalog, kind);
      StepKeepsDistinct(Group(vs[..|vs| - 1], catalog), vs[|vs| - 1], catalog, kind);
    }
  }

  /** A title row whose metadata is missing shows its raw id and has no link. */
  lemma MissingMetadataFallsBack(b: Bucket, catalog: Catalog, kind: BucketSet)
    requires b.id !in catalog
    ensures TitleRow(b, catalog, kind).title == b.id
    ensures TitleRow(b, catalog, kind).link.None? && TitleRow(b, catalog, kind).subtitle.None?
  {
  }

  /** An episode row built from a key the grouping pass made, for a split-safe show id,
      names the show, links to its TV page and starts its subtitle with `S<season>E<episode>`. */
  lemma EpisodeRowOfBuiltKey(id: string, season: nat, episode: nat, agg: Agg, catalog: Catalog, vs: seq<Viewing>)
    requires SplitSafe(id)
    ensures var row := EpisodeRow(Bucket(EpisodeKey(id, season, episode), agg), catalog, vs);
            && row.title == TitleFor(MetaFor(catalog, id), id)
            && row.link == LinkFor(MetaFor(catalog, id), "/tv/")
            && row.subtitle.Some?
            && StartsWith(row.subtitle.value, "S" + NatToString(season) + "E" + NatToString(episode))
  {
    EpisodeKeyRoundTrip(id, season, episode);
    var code := "S" + NatToString(season) + "E" + NatToString(episode);
    var parts := SubtitleParts(Some((season, episode)), SampleTitle(vs, id, Some((season, episode))));
    assert parts[0] == code;
    JoinStartsWithFirst(parts, MisEncodedSeparator);
  }

  /** The subtitle of a built key whose first matching viewing has a non-empty episode
      title: the code and the title around `sep`. */
  lemma BuiltKeySubtitle(id: string, season: nat, episode: nat, agg: Agg, catalog: Catalog,
                         vs: seq<Viewing>, title: string, sep: string)
    requires SplitSafe(id) && title != ""
    requires SampleTitle(vs, id, Some((season, episode))) == Some(title)
    ensures EpisodeRowWith(Bucket(EpisodeKey(id, season, episode), agg), catalog, vs, sep).subtitle
         == Some("S" + NatToString(season) + "E" + NatToString(episode) + sep + title)
  {
    EpisodeKeyRoundTrip(id, season, episode);
    var code := "S" + NatToString(season) + "E" + NatToString(episode);
    assert SubtitleParts(Some((season, episode)), Some(title)) == [code, title];
    JoinTwo(code, title, sep);
  }

  /** As written, the page's episode row for a titled episode shows the code and the title
      around the three stray characters `â€”` rather than an em dash. */
  lemma EpisodeRowSubtitleAsWritten(id: string, season: nat, episode: nat, agg: Agg, catalog: Catalog,
                                    vs: seq<Viewing>, title: string)
    requires SplitSafe(id) && title != ""
    requires SampleTitle(vs, id, Some((season, episode))) == Some(title)
    ensures var code := "S" + NatToString(season) + "E" + NatToString(episode);
            EpisodeRow(Bucket(EpisodeKey(id, season, episode), agg), catalog, vs).subtitle
              == Some(code + " \U{00E2}\U{20AC}\U{201D} " + title)
    ensures EpisodeRow(Bucket(EpisodeKey(id, season, episode), agg), catalog, vs).subtitle
         != IntendedEpisodeRow(Bucket(EpisodeKey(id, season, episode), agg), catalog, vs).subtitle
  {
    var code := "S" + NatToString(season) + "E" + NatToString(episode);
    BuiltKeySubtitle(id, season, episode, agg, catalog, vs, title, MisEncodedSeparator);
    BuiltKeySubtitle(id, season, episode, agg, catalog, vs, title, EmDashSeparator);
    var bad := code + MisEncodedSeparator + title;
    var good := code + EmDashSeparator + title;
    assert bad[|code| + 1] != good[|code| + 1];
  }

  /** The intended row for a titled episode reads `S<season>E<episode> — <title>`. */
  lemma IntendedEpisodeRowSubtitle(id: string, season: nat, episode: nat, agg: Agg, catalog: Catalog,
                                   vs: seq<Viewing>, title: string)
    requires SplitSafe(id) && title != ""
    requires SampleTitle(vs, id, Some((season, episode))) == Some(title)
    ensures var code := "S" + NatToString(season) + "E" + NatToString(episode);
            IntendedEpisodeRow(Bucket(EpisodeKey(id, season, episode), agg), catalog, vs).subtitle
              == Some(code + " \U{2014} " + title)
  {
    BuiltKeySubtitle(id, season, episode, agg, catalog, vs, title, EmDashSeparator);
  }

  /** A join starts with its first part. */
  lemma JoinStartsWithFirst(parts: seq<string>, sep: string)
    requires |parts| > 0
    ensures StartsWith(Join(parts, sep), parts[0])
  {
    if |parts| == 1 {
      assert parts[0][..|parts[0]|] == parts[0];
    } else {
      assert (parts[0] + sep + Join(parts[1..], sep))[..|parts[0]|] == parts[0];
    }
  }

  /** A join of non-empty parts is empty exactly when there are no parts. */
  lemma JoinEmptyIffNoParts(parts: seq<string>, sep: string)
    requires forall i :: 0 <= i < |parts| ==> parts[i] != ""
    ensures Join(parts, sep) == "" <==> |parts| == 0
  {
    if |parts| > 0 {
      JoinStartsWithFirst(parts, sep);
      assert |Join(parts, sep)| >= |parts[0]| > 0;
    }
  }

  /** With both a code and a title, the subtitle is the two joined by an em dash. */
  lemma EpisodeSubtitleWithTitle(season: nat, episode: nat, title: string)
    requires title != ""
    ensures JoinedSubtitle(SubtitleParts(Some((season, episode)), Some(title)), EmDashSeparator)
         == Some("S" + NatToString(season) + "E" + NatToString(episode) + " \U{2014} " + title)
  {
    JoinTwo("S" + NatToString(season) + "E" + NatToString(episode), title, EmDashSeparator);
  }

  /** The subtitle of a code and a non-empty title is the two around the separator. */
  lemma JoinTwo(code: string, title: string, sep: string)
    requires code != "" && title != ""
    ensures JoinedSubtitle([code, title], sep) == Some(code + sep + title)
  {
    assert [code, title][1..] == [title];
    assert Join([code, title], sep) == code + sep + title;
    assert |code + sep + title| > 0;
  }

  /** As written, the same subtitle carries three stray characters and no em dash: for
      season 1, episode 2 titled "Pilot" it reads `S1E2 â€” Pilot`. */
  lemma MisEncodedSubtitleExample()
    ensures JoinedSubtitle(SubtitleParts(Some((1, 2)), Some("Pilot")), MisEncodedSeparator)
         == Some("S1E2 \U{00E2}\U{20AC}\U{201D} Pilot")
    ensures JoinedSubtitle(SubtitleParts(Some((1, 2)), Some("Pilot")), MisEncodedSeparator)
         != JoinedSubtitle(SubtitleParts(Some((1, 2)), Some("Pilot")), EmDashSeparator)
  {
    assert NatToString(1) == "1" && NatToString(2) == "2";
    assert "S" + NatToString(1) + "E" + NatToString(2) == "S1E2";
    assert SubtitleParts(Some((1, 2)), Some("Pilot")) == ["S1E2", "Pilot"];
    JoinTwo("S1E2", "Pilot", MisEncodedSeparator);
    JoinTwo("S1E2", "Pilot", EmDashSeparator);
    var bad := "S1E2" + MisEncodedSeparator + "Pilot";
    var good := "S1E2" + EmDashSeparator + "Pilot";
    assert bad == "S1E2 \U{00E2}\U{20AC}\U{201D} Pilot";
    assert bad[5] != good[5];
  }
}
