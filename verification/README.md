# Scary-movie log: a Dafny model of the rating, ranking and identity core

This project models the logic core of a small family web app for logging horror
films and TV episodes. Each viewing carries ten ratings from 0 to 10. From these the
app derives:

- the stats page's per-title, per-show and per-episode rankings;
- the home page's overall averages and title filter;
- the title page's storage id, averages and chart;
- the viewing form's defaults and saved record;
- the movie record built from TMDB details;
- each user's chart colour;
- the Firestore sanitiser.

Everything is written as pure functions over immutable datatypes. The Firestore reads
and the TMDB fetch become parameters, and the writes become part of the results.

Modules follow the source files:

| module | source file |
|---|---|
| `Types` | `src/types/index.ts` (ratings, viewings, movies) |
| `Text` | the JavaScript string and number built-ins the core relies on (`startsWith`, `indexOf`, `includes`, `String(n)`, `trim`, `toLowerCase`, `toFixed(1)`, `parseInt`, `split(...)[0]`) |
| `RatingUtils` | `src/lib/rating-utils.ts` |
| `StorageIds` | the `tv_` storage prefix shared by several files |
| `EpisodeKeys` | the `<id>::s<season>e<episode>` keys of `src/pages/StatsPage.tsx` |
| `StatsAggregate`, `StatsRows`, `StatsRanking` | `src/pages/StatsPage.tsx`: the accumulation, the rows, the top-ten tabs |
| `Home` | `src/pages/HomePage.tsx` |
| `MoviePage` | `src/pages/MoviePage.tsx` |
| `FearFingerprint` | `src/components/FearFingerprint.tsx` |
| `RatingSliders` | `src/components/RatingSliders.tsx` |
| `ViewingForm` | `src/components/ViewingForm.tsx` |
| `Movies` | `src/services/movies.ts` |
| `UserColors` | `src/lib/user-colors.ts` |
| `Users` | `src/services/users.ts` |
| `Sanitize` | `src/lib/utils.ts` |

Modelling choices:

- Numbers are `real`. `Math.round` is the floor of `x + 0.5`.
- JavaScript `%` is written out with the sign of the dividend.
- The FNV-1a hash is computed in `bv32` over UTF-16 code units (`bv16`). Characters
  above U+FFFF are split into surrogate pairs.
- A `Record<string, …>` filled in insertion order is an association list, with new
  keys appended.
- `Array.prototype.sort` is a stable insertion sort. The model proves it is the unique
  stable non-increasing arrangement, so it agrees with any stable sort.
- The model follows the code as written:
  - Ties in a ranking keep the order in which the page enumerates its buckets. No
    other tie-break applies.
  - A viewing without a `movieId` is skipped silently, with no counter.
  - The stats page never sums `enjoyment`: it is missing from `RATING_KEYS`, so its
    ranked average is always 0.
  - The title page does average `enjoyment` when the first viewing stores it.
  - Episode subtitles on the stats page are joined with the mis-encoded separator the
    file spells (see Findings); the intended em-dash row is modelled beside it.
- One departure from the code: bucket enumeration order. `Object.entries` lists
  integer-like keys first, in ascending numeric order, and the other keys after them in
  creation order. Film buckets are keyed by decimal TMDB ids, and so is a show bucket
  whose bare id the catalog marks as a show; the page enumerates those by ascending id.
  `tv_` and `::` keys keep creation order. The model keeps creation order for every key,
  so the film tab's ties come out in creation order rather than by ascending id.

## Model

| member | source | states |
|---|---|---|
| Types.Set | src/components/ViewingForm.tsx:72 | `{ ...r, [k]: v }` holds `v` at `k` and leaves every other dimension unchanged |
| Types.Uniform | src/components/ViewingForm.tsx:26-37 | the vector with one value in all ten dimensions (`INITIAL_RATINGS` is the one with 5) |
| Types.AllKeysComplete | src/types/index.ts:61-72 | the key list names every dimension of `Ratings` |
| Types.AsMap | src/types/index.ts:61-72 | a full rating object read as a key/value map has every key, with the field's value |
| Text.IndexOf | src/pages/StatsPage.tsx:148 | `indexOf` finds an occurrence at or after `from`, none before it, and `None` exactly when there is none |
| Text.ContainsMeansOccurs | src/pages/HomePage.tsx:54 | `includes` holds exactly when the needle occurs at some index |
| Text.DigitChar | src/pages/StatsPage.tsx:111 | the digit character of a value below ten, whose code is `'0'` plus the value |
| Text.NatToString | src/pages/StatsPage.tsx:111 | `String(n)` is a non-empty run of digits, with a leading zero only for 0 |
| Text.NatToStringRoundTrip | src/pages/StatsPage.tsx:151-153 | reading the printed digits back (`Number(match[1])`) gives the number |
| Text.NatToStringInjective | src/pages/StatsPage.tsx:111 | distinct naturals print differently |
| Text.IntToString | src/pages/StatsPage.tsx:124 | `String(year)` is non-empty and starts with a minus sign exactly for negatives |
| Text.LeadingSpace | src/components/ViewingForm.tsx:107 | the white-space run at the start is all space and is followed by a non-space |
| Text.TrailingSpace | src/components/ViewingForm.tsx:107 | the same at the end |
| Text.Trim | src/components/ViewingForm.tsx:107 | `trim()` is a slice of the input, has only white space around it, and has no white space at either end |
| Text.TrimIdempotent | src/components/ViewingForm.tsx:107 | trimming twice is trimming once |
| Text.ToLower | src/pages/HomePage.tsx:54 | `toLowerCase()` keeps the length and maps each character on its own |
| Text.TenthsText | src/pages/StatsPage.tsx:231 | a number of tenths printed as digits, a point and one digit |
| Text.FixedOne | src/pages/StatsPage.tsx:231 | `toFixed(1)` ends in a point and one digit, and starts with a minus exactly for negatives |
| Text.FixedOneOfTenth | src/pages/StatsPage.tsx:231 | a non-negative multiple of 0.1 prints as its own tenths |
| Text.FixedOneRoundTrip | src/pages/StatsPage.tsx:231 | the printed whole part and tenth digit give back the number of tenths |
| Text.DigitPrefix | src/services/movies.ts:56 | the longest run of decimal digits at the start |
| Text.HexDigitValue | src/services/movies.ts:56 | a hexadecimal digit's value is below 16 |
| Text.HexPrefix | src/services/movies.ts:56 | the longest run of hexadecimal digits at the start: all hex digits, and the next character, if any, is not one |
| Text.ParseInt | src/services/movies.ts:56 | `parseInt` returns a number only when the text holds a digit |
| Text.ParseIntOfNatToString | src/services/movies.ts:56 | `parseInt(String(n))` is `n` |
| Text.NotHexPrefixed | src/services/movies.ts:56 | a printed natural never starts with `0x`, so `parseInt` reads it in decimal |
| Text.DigitPrefixOfDigits | src/services/movies.ts:56 | a string of digits is one digit run |
| Text.FirstPiece | src/services/movies.ts:56 | `split('-')[0]` is a dash-free prefix, followed by a dash when shorter than the input |
| RatingUtils.RatedKeysShape | src/lib/rating-utils.ts:3-13 | `RATING_KEYS` lists nine distinct dimensions starting with `overall`, and leaves out exactly `enjoyment` |
| RatingUtils.Round | src/lib/rating-utils.ts:16 | `Math.round` is the integer within half a unit, with halves going up |
| RatingUtils.GetFunLabel | src/lib/rating-utils.ts:15-137 | only a dimension outside `RATING_KEYS` falls to the default and gets its raw value out of ten |
| RatingUtils.FunLabelByRoundedValue | src/lib/rating-utils.ts:16-137 | a ranked label depends only on the rounded value: 0 to 9 pick their own phrase, anything else the final one |
| RatingUtils.PhrasesDistinct | src/lib/rating-utils.ts:18-134 | the eleven phrases of each ranked dimension are pairwise different |
| RatingUtils.OverallPhrasesDistinct | src/lib/rating-utils.ts:19-30 | the `overall` phrases are pairwise different |
| RatingUtils.JumpPhrasesDistinct | src/lib/rating-utils.ts:32-43 | the `jump` phrases are pairwise different |
| RatingUtils.DreadPhrasesDistinct | src/lib/rating-utils.ts:45-56 | the `dread` phrases are pairwise different |
| RatingUtils.GorePhrasesDistinct | src/lib/rating-utils.ts:58-69 | the `gore` phrases are pairwise different |
| RatingUtils.AtmospherePhrasesDistinct | src/lib/rating-utils.ts:71-82 | the `atmosphere` phrases are pairwise different |
| RatingUtils.StoryPhrasesDistinct | src/lib/rating-utils.ts:84-95 | the `story` phrases are pairwise different |
| RatingUtils.RewatchPhrasesDistinct | src/lib/rating-utils.ts:97-108 | the `rewatch` phrases are pairwise different |
| RatingUtils.WtfPhrasesDistinct | src/lib/rating-utils.ts:110-121 | the `wtf` phrases are pairwise different |
| RatingUtils.CozyPhrasesDistinct | src/lib/rating-utils.ts:123-134 | the `cozy` phrases are pairwise different |
| RatingUtils.FunLabelExamples | src/lib/rating-utils.ts:15-137 | 4.5 is labelled like 5; 4.49 like 4; -1 like 10; `enjoyment` 7.5 is shown raw |
| StorageIds.Prefixed | src/services/movies.ts:20 | `tv_${id}` starts with the prefix, and the id follows it |
| StorageIds.PrefixedInjective | src/services/movies.ts:19-20 | distinct show ids get distinct document ids |
| StorageIds.DecimalIdsAreUnprefixed | src/services/movies.ts:19-21 | a decimal film id never equals a prefixed show id |
| EpisodeKeys.EpisodeKey | src/pages/StatsPage.tsx:111 | the episode key starts with the show id |
| EpisodeKeys.SplitHead | src/pages/StatsPage.tsx:148 | `split('::')` destructured to two: the whole key with no tail exactly when there is no `::` |
| EpisodeKeys.DigitRun | src/pages/StatsPage.tsx:151 | the `\d+` run is maximal |
| EpisodeKeys.MatchEpisodePart | src/pages/StatsPage.tsx:151-153 | a match of `^s(\d+)e(\d+)$` starts with `s` |
| EpisodeKeys.EpisodePartRoundTrip | src/pages/StatsPage.tsx:151-153 | the regular expression reads back the season and episode that were printed |
| EpisodeKeys.NoColonNoSeparator | src/pages/StatsPage.tsx:148 | a colon-free string holds no `::` |
| EpisodeKeys.FirstSeparatorFollowsId | src/pages/StatsPage.tsx:148 | in a key built from an id that cannot confuse the split, the first `::` follows the id |
| EpisodeKeys.SplitEpisodeKey | src/pages/StatsPage.tsx:148 | such a key splits into the id and the `s<season>e<episode>` tail |
| EpisodeKeys.SplitJoined | src/pages/StatsPage.tsx:148 | an id and a colon-free rest joined by `::` split back into the two |
| EpisodeKeys.EpisodePartHasNoColon | src/pages/StatsPage.tsx:111 | the `s<digits>e<digits>` tail holds no colon |
| EpisodeKeys.EpisodeKeyRoundTrip | src/pages/StatsPage.tsx:111-153 | parsing a built key gives back its show id, season and episode |
| EpisodeKeys.EpisodeKeyInjective | src/pages/StatsPage.tsx:111 | distinct (show, season, episode) triples get distinct keys |
| EpisodeKeys.TrailingColonBreaksParse | src/pages/StatsPage.tsx:148-153 | a show id ending in `:` is split at the wrong place, and its season and episode are lost |
| StatsAggregate.AddKeysAddsListed | src/pages/StatsPage.tsx:79-81 | the loop over distinct keys adds the rating on exactly the listed dimensions |
| StatsAggregate.AddToAgg | src/pages/StatsPage.tsx:77-82 | `addToAgg` adds one to the count, and the rating on every ranked dimension |
| StatsAggregate.AddToAggIsKeyLoop | src/pages/StatsPage.tsx:77-82 | the field-wise sum equals the loop over `RATING_KEYS` |
| StatsAggregate.AddToAggIsLoopOver | src/pages/StatsPage.tsx:79-81 | any duplicate-free ordering of the ranked keys gives the same sums |
| StatsAggregate.AddToAggCommutes | src/pages/StatsPage.tsx:77-82 | folding two viewings in either order gives the same bucket |
| StatsAggregate.Ids | src/pages/StatsPage.tsx:117 | the bucket keys in creation order, which is the `Object.entries` order for `tv_` and `::` keys but not for decimal ids (see Left out) |
| StatsAggregate.FindListed | src/pages/StatsPage.tsx:106 | a lookup succeeds exactly for listed ids, and returns a stored bucket |
| StatsAggregate.Upsert | src/pages/StatsPage.tsx:106-107 | a new id adds one bucket, and an existing id adds none |
| StatsAggregate.UpsertFind | src/pages/StatsPage.tsx:106-107 | only the touched id changes: it gains the viewing, starting from the empty bucket if new |
| StatsAggregate.UpsertIds | src/pages/StatsPage.tsx:106 | existing ids keep their positions, and a new id is appended |
| StatsAggregate.UpsertAddsOne | src/pages/StatsPage.tsx:106-107 | one viewing adds exactly one to the total count |
| StatsAggregate.Classify | src/pages/StatsPage.tsx:97-114 | a viewing with an id feeds its title's film or show bucket, and a show viewing with season and episode also feeds that episode's bucket |
| StatsAggregate.StepEffect | src/pages/StatsPage.tsx:97-115 | one loop iteration adds the viewing to exactly the buckets it is classified into |
| StatsAggregate.ShowStepEffect | src/pages/StatsPage.tsx:105-107 | the same for the show bucket |
| StatsAggregate.EpisodeStepEffect | src/pages/StatsPage.tsx:110-114 | the same for the episode bucket |
| StatsAggregate.UnfedTallyIsEmpty | src/pages/StatsPage.tsx:106 | a bucket that no viewing fed is the empty accumulator |
| StatsAggregate.GroupMatchesTally | src/pages/StatsPage.tsx:93-115 | the loop's bucket for any key is the fold of exactly the viewings that feed it, and is absent when there are none |
| StatsAggregate.CountsAreConserved | src/pages/StatsPage.tsx:97-107 | film and show buckets together count every viewing that has an id |
| StatsAggregate.BucketKindFollowsId | src/pages/StatsPage.tsx:101-105 | a film bucket exists only for a non-show id, and a show bucket only for a show id |
| StatsAggregate.MovieAndShowBucketsAreDisjoint | src/pages/StatsPage.tsx:102-105 | no title is ranked both as a film and as a show |
| StatsAggregate.TallyMoveToEnd | src/pages/StatsPage.tsx:97-115 | any one viewing can be folded in last |
| StatsAggregate.TallyIsOrderIndependent | src/pages/StatsPage.tsx:97-115 | reordering the viewings leaves every bucket unchanged |
| StatsAggregate.GroupIsOrderIndependent | src/pages/StatsPage.tsx:93-115 | the same for the loop's buckets |
| StatsAggregate.TallyBounded | src/pages/StatsPage.tsx:77-82 | with ratings in [0, 10], every sum lies in [0, 10 × count] |
| StatsRows.RoundTenth | src/pages/StatsPage.tsx:88 | `Math.round(x * 10) / 10` lies within 0.05 of `x` |
| StatsRows.Denominator | src/pages/StatsPage.tsx:86 | `count \|\| 1` is at least 1, and is the count when that is positive |
| StatsRows.ToAverages | src/pages/StatsPage.tsx:84-91 | each ranked average is the rounded mean, and `enjoyment` stays 0 |
| StatsRows.RoundTenthMonotone | src/pages/StatsPage.tsx:88 | rounding keeps the order of its arguments |
| StatsRows.AveragesAreBoundedTenths | src/pages/StatsPage.tsx:84-91 | averages of bounded sums are multiples of 0.1 in [0, 10] |
| StatsRows.MeanIsBoundedTenth | src/pages/StatsPage.tsx:88 | a rounded mean of in-range values is an in-range tenth |
| StatsRows.GroupAveragesInRange | src/pages/StatsPage.tsx:84-128 | every row average the page shows is a tenth in [0, 10] |
| StatsRows.SingleViewingAveragesBack | src/pages/StatsPage.tsx:84-91 | one viewing with tenth-valued ratings averages back to its ratings |
| StatsRows.TitleFor | src/pages/StatsPage.tsx:119 | `m?.title \|\| movieId` |
| StatsRows.LinkFor | src/pages/StatsPage.tsx:120 | a link exists exactly with a TMDB id, and is the route followed by that id |
| StatsRows.YearSubtitle | src/pages/StatsPage.tsx:124 | the year is shown exactly when it is a non-zero number |
| StatsRows.TitleRow | src/pages/StatsPage.tsx:117-130 | a row carries its bucket's id and count, and the bucket's averages |
| StatsRows.TitleRows | src/pages/StatsPage.tsx:117-145 | one row per bucket, in bucket order |
| StatsRows.FindSample | src/pages/StatsPage.tsx:156 | `find` returns the first viewing of that show, season and episode, and none when there is none |
| StatsRows.SubtitleParts | src/pages/StatsPage.tsx:159-161 | every subtitle part is non-empty |
| StatsRows.EpisodeRowWith | src/pages/StatsPage.tsx:147-175 | an episode row carries its bucket's key, count and averages, whatever separator joins its subtitle |
| StatsRows.EpisodeRow | src/pages/StatsPage.tsx:147-175 | the page's episode row carries its bucket's key, count and averages; its subtitle uses the separator as written (EpisodeRowSubtitleAsWritten) |
| StatsRows.IntendedEpisodeRow | src/pages/StatsPage.tsx:147-175 | the intended row equals the page's row except, possibly, in the subtitle |
| StatsRows.EpisodeRows | src/pages/StatsPage.tsx:147-175 | one row per episode bucket, in order |
| StatsRows.RowsMatchTally | src/pages/StatsPage.tsx:117-175 | a tab has a row for a key exactly when some viewing feeds it, and that row's count and averages are the tally's |
| StatsRows.RowsFollowBuckets | src/pages/StatsPage.tsx:117-175 | row `i` of a tab comes from bucket `i` of the matching record |
| StatsRows.FindUnique | src/pages/StatsPage.tsx:106 | with distinct ids, looking up a bucket's own id finds that bucket |
| StatsRows.UpsertKeepsDistinct | src/pages/StatsPage.tsx:106 | upserting keeps the record's ids distinct |
| StatsRows.StepKeepsDistinct | src/pages/StatsPage.tsx:97-115 | one loop iteration keeps every record's ids distinct |
| StatsRows.GroupIdsDistinct | src/pages/StatsPage.tsx:93-115 | no record ever holds an id twice, so no tab lists a title twice |
| StatsRows.MissingMetadataFallsBack | src/pages/StatsPage.tsx:118-124 | without metadata a row shows its raw id, with no link and no year |
| StatsRows.EpisodeRowOfBuiltKey | src/pages/StatsPage.tsx:147-164 | an episode row finds its show's title and `/tv/` link through the key |
| StatsRows.JoinStartsWithFirst | src/pages/StatsPage.tsx:169 | a join starts with its first part |
| StatsRows.JoinEmptyIffNoParts | src/pages/StatsPage.tsx:169 | a join of non-empty parts is empty exactly without parts, which is when `\|\| undefined` applies |
| StatsRows.JoinTwo | src/pages/StatsPage.tsx:169 | two non-empty parts join around the separator |
| StatsRows.BuiltKeySubtitle | src/pages/StatsPage.tsx:147-169 | for a built key whose first matching viewing has a title, the subtitle is `S<s>E<e>`, the separator, then the title |
| StatsRows.EpisodeRowSubtitleAsWritten | src/pages/StatsPage.tsx:169 | the page's row for a titled episode shows `S<s>E<e> â€” <title>`, which differs from the intended row's subtitle |
| StatsRows.IntendedEpisodeRowSubtitle | src/pages/StatsPage.tsx:159-169 | the intended row for a titled episode shows `S<s>E<e> — <title>` |
| StatsRows.EpisodeSubtitleWithTitle | src/pages/StatsPage.tsx:159-169 | with an em dash, the subtitle of a code and a title is `S<s>E<e> — <title>` |
| StatsRows.MisEncodedSubtitleExample | src/pages/StatsPage.tsx:169 | the separator as written shows `S1E2 â€” Pilot`, not the em dash |
| StatsRanking.Positive | src/pages/StatsPage.tsx:195 | `filter(r => r.count > 0)` keeps exactly the rows with a positive count; order and multiplicity are pinned by the next three lemmas |
| StatsRanking.PositiveAppend | src/pages/StatsPage.tsx:195 | filtering a concatenation filters each part, so kept rows stay in input order |
| StatsRanking.PositiveMultiplicity | src/pages/StatsPage.tsx:195 | each row with a viewing is kept exactly as often as it occurs, and no other row is kept |
| StatsRanking.PositiveOfOne | src/pages/StatsPage.tsx:195 | one row is kept exactly when its count is positive |
| StatsRanking.PositiveWithValue | src/pages/StatsPage.tsx:195 | the ties of one value among the kept rows are the kept rows among that value's input ties, in input order |
| StatsRanking.InsertPermutes | src/pages/StatsPage.tsx:196 | an insertion step adds its row and loses none |
| StatsRanking.SortDesc | src/pages/StatsPage.tsx:196 | the sort is a permutation of its input |
| StatsRanking.InsertSorted | src/pages/StatsPage.tsx:196 | an insertion step keeps the list non-increasing |
| StatsRanking.SortDescSorted | src/pages/StatsPage.tsx:196 | the sorted list is non-increasing in the tab's dimension |
| StatsRanking.InsertStable | src/pages/StatsPage.tsx:196 | an insertion step appends its row to its own tie group and changes no other group |
| StatsRanking.SortDescStable | src/pages/StatsPage.tsx:196 | every tie group keeps its input order |
| StatsRanking.SortedStableIsUnique | src/pages/StatsPage.tsx:196 | two non-increasing lists with the same tie groups are equal |
| StatsRanking.SortDescIsTheStableSort | src/pages/StatsPage.tsx:196 | the sort is the one stable non-increasing arrangement |
| StatsRanking.Ranking | src/pages/StatsPage.tsx:194-197 | a tab holds ten qualifying rows, or all of them when there are fewer, counting each input row with a viewing as often as it occurs (PositiveMultiplicity) |
| StatsRanking.PrefixDominatesRest | src/pages/StatsPage.tsx:197 | in a sorted list, no row left out of a prefix beats a row inside it |
| StatsRanking.RankingIsTop | src/pages/StatsPage.tsx:194-197 | a tab is sorted, and no qualifying row left out beats a listed one |
| StatsRanking.RankingKeepsTieOrder | src/pages/StatsPage.tsx:194-197 | the sorted rows of one value are the input rows of that value with a viewing, in the order the page received them, and the tab holds a prefix of them |
| StatsRanking.RankingTabs | src/pages/StatsPage.tsx:193-197 | one tab per `RATING_KEYS` entry, each cut from the same rows |
| StatsRanking.RankingTabsShape | src/pages/StatsPage.tsx:182-197 | nine tabs, the first is `overall`, and there is no `enjoyment` tab |
| StatsRanking.LogsBadge | src/pages/StatsPage.tsx:225 | the badge starts with the count and ends in `s` unless the count is 1 |
| Home.RatingsMap | src/pages/HomePage.tsx:23-28 | every entry of the averages map has a positive count |
| Home.RatingsMapMatches | src/pages/HomePage.tsx:23-28 | an entry exists exactly for ids with viewings, and holds their count and overall sum |
| Home.NoViewingsNoSum | src/pages/HomePage.tsx:23-28 | without viewings the sum is 0 |
| Home.StatsKey | src/pages/HomePage.tsx:32 | shows are looked up under their prefixed id and films under the bare id |
| Home.ComputedAverageIsMean | src/pages/HomePage.tsx:33-34 | the computed average is the mean overall score, and is absent without viewings |
| Home.OverallSumBounded | src/pages/HomePage.tsx:26 | with scores in [0, 10], the sum lies in [0, 10 × count] |
| Home.ComputedAverageInRange | src/pages/HomePage.tsx:34 | with scores in [0, 10], a computed average lies in [0, 10] |
| Home.MergeOne | src/pages/HomePage.tsx:37-40 | only `overallAverage` changes, and only a missing one is filled in |
| Home.MergeAverages | src/pages/HomePage.tsx:31-41 | the merged list is the fetched list in order, each entry merged |
| Home.StoredZeroAverageWins | src/pages/HomePage.tsx:39 | `??` keeps a stored 0 |
| Home.ShowAverageUsesPrefixedId | src/pages/HomePage.tsx:32-39 | a show's computed average comes from its `tv_` id |
| Home.FilterByTitle | src/pages/HomePage.tsx:53-55 | the filter keeps exactly the matching movies; order and multiplicity are pinned by FilterAppend and FilterOfOne |
| Home.FilterAppend | src/pages/HomePage.tsx:53-55 | filtering a concatenation filters each part, so kept movies stay in list order |
| Home.FilterOfOne | src/pages/HomePage.tsx:53-55 | one movie is kept exactly when its title matches |
| Home.ContainsEmpty | src/pages/HomePage.tsx:54 | every title contains the empty filter |
| Home.EmptyFilterKeepsAll | src/pages/HomePage.tsx:53-55 | the empty filter keeps the whole list, in order |
| Home.ToLowerIdempotent | src/pages/HomePage.tsx:54 | lower-casing twice is lower-casing once |
| Home.FilterIgnoresCase | src/pages/HomePage.tsx:53-55 | a typed filter and its lower-case form select the same movies |
| MoviePage.DocId | src/pages/MoviePage.tsx:27-30 | a `/tv/` route with an id gets the prefixed id, other routes the bare id, and a missing id stays missing |
| MoviePage.DocIdIsStatsKey | src/pages/MoviePage.tsx:27-30 | the title page reads a stored title under the id the home page averages by |
| MoviePage.AverageRatings | src/pages/MoviePage.tsx:175-184 | no averages without viewings, and otherwise exactly the first viewing's dimensions |
| MoviePage.AverageWithinInputs | src/pages/MoviePage.tsx:179-181 | each average lies between any bounds of that dimension's inputs |
| MoviePage.OneViewingAverage | src/pages/MoviePage.tsx:175-184 | one viewing averages to its own ratings |
| MoviePage.EnjoymentIsAveraged | src/pages/MoviePage.tsx:177-181 | `enjoyment` is averaged here: 4 and 8 give 6 |
| MoviePage.ScoreText | src/pages/MoviePage.tsx:503 | the score ends in `/10`, and is `?/10` exactly when there is no non-zero overall average |
| MoviePage.ScoreOfTenths | src/pages/MoviePage.tsx:503 | a non-zero tenth-valued average prints as its tenths over ten |
| MoviePage.ColorAt | src/pages/MoviePage.tsx:412 | a series colour is one of the five palette colours |
| MoviePage.LegendName | src/pages/MoviePage.tsx:408 | a legend name is never empty |
| MoviePage.LegendNameCases | src/pages/MoviePage.tsx:408 | a non-empty display name is shown as is; otherwise "User " and the uid's first three characters, so unnamed users sharing those characters share a legend |
| MoviePage.ChartDatasets | src/pages/MoviePage.tsx:407-414 | one dataset per viewing, carrying that viewing's ratings |
| MoviePage.Chips | src/pages/MoviePage.tsx:418-427 | one legend chip per viewing |
| MoviePage.ChipsMatchSeries | src/pages/MoviePage.tsx:407-424 | viewing `i`'s chip and series share the colour `i mod 5` and the name |
| MoviePage.PaletteCycles | src/pages/MoviePage.tsx:412 | five consecutive viewings get different colours, and the sixth repeats the first |
| MoviePage.RepeatViewerShowsLatest | src/pages/MoviePage.tsx:407-414 | two viewings by one user share a name, so the chart plots the later one |
| MoviePage.JsRem | src/pages/MoviePage.tsx:216 | JavaScript `%` agrees with the mathematical remainder for non-negative dividends |
| MoviePage.RuntimeBadgeOf | src/pages/MoviePage.tsx:216 | no runtime badge exactly when the runtime is missing or 0, and never a bare number |
| MoviePage.ZeroRuntimeRendersZero | src/pages/MoviePage.tsx:216 | as written, a runtime of 0 renders the text `0` |
| MoviePage.RuntimeSplits | src/pages/MoviePage.tsx:216 | a positive runtime shows hours and minutes under 60 that add back up to it |
| MoviePage.DefaultSeason | src/pages/MoviePage.tsx:126-128 | season 1 is preselected exactly for a show with a non-zero season count |
| FearFingerprint.PointFor | src/components/FearFingerprint.tsx:32-36 | a point holds `subject` and every dataset label |
| FearFingerprint.Pivot | src/components/FearFingerprint.tsx:31-37 | one point per plotted dimension, each with a `subject` |
| FearFingerprint.SeriesOf | src/components/FearFingerprint.tsx:47-57 | one series per dataset |
| FearFingerprint.LastWith | src/components/FearFingerprint.tsx:33-35 | the last dataset carrying a label |
| FearFingerprint.PointIsLastWriterWins | src/components/FearFingerprint.tsx:32-36 | a point's fields are `subject` and the labels; each label reads the last dataset carrying it, and a dataset named `subject` overwrites the axis name |
| FearFingerprint.PivotReadsEveryDataset | src/components/FearFingerprint.tsx:31-37 | with distinct labels other than `subject`, every point has the axis name and every dataset's rating |
| FearFingerprint.LaterDatasetOverwrites | src/components/FearFingerprint.tsx:33-35 | of two datasets with one label, the later one is plotted |
| FearFingerprint.SubjectLabelClobbersAxis | src/components/FearFingerprint.tsx:32-34 | a dataset labelled `subject` replaces the axis name |
| FearFingerprint.PlottedKeysShape | src/components/FearFingerprint.tsx:16-26 | eight distinct axes without `overall` and `enjoyment`, with distinct `LABELS` names |
| FearFingerprint.UnlabelledKeysFallBack | src/components/FearFingerprint.tsx:32 | without a `LABELS` entry the axis is named by the key |
| FearFingerprint.EverySeriesHasData | src/components/FearFingerprint.tsx:47-57 | each series reads its dataset's label, which every point holds |
| RatingSliders.FlattenAppend | src/components/RatingSliders.tsx:15-18 | flattening distributes over concatenation |
| RatingSliders.Pairs | src/components/RatingSliders.tsx:15-18 | the groups flatten back to the keys; all are pairs except possibly a last single; there are ⌈n/2⌉ of them |
| RatingSliders.PairsAppend | src/components/RatingSliders.tsx:16-17 | grouping splits at any even position |
| RatingSliders.GroupKeys | src/components/RatingSliders.tsx:14-18 | the `for` loop with `slice(i, i + 2)` builds exactly that grouping |
| RatingSliders.RatedKeyCards | src/components/RatingSliders.tsx:14-18 | the nine dimensions make five cards: the first is `overall` and `jump`, the last is `cozy` alone |
| RatingSliders.SliderValue | src/components/RatingSliders.tsx:41-43 | slider positions cover [0, 10], with 0 only at the start |
| RatingSliders.SliderPositionsRoundTrip | src/components/RatingSliders.tsx:41-43 | positions and half-point values correspond one to one |
| RatingSliders.DestructiveIsTopFive | src/components/RatingSliders.tsx:33 | exactly values 8 to 10 get the destructive badge |
| RatingSliders.SliderFor | src/components/RatingSliders.tsx:25-52 | a slider shows its dimension's rating, and is disabled exactly when read-only |
| RatingSliders.Cards | src/components/RatingSliders.tsx:22-57 | one card per group |
| RatingSliders.SliderShowsItsValue | src/components/RatingSliders.tsx:34-51 | at half-point `h` the badge prints `h/2` with one decimal, and the label is that value's |
| RatingSliders.CardsCoverRatedKeys | src/components/RatingSliders.tsx:22-57 | the cards list every rated dimension once in `RATING_KEYS` order, each disabled exactly when read-only |
| ViewingForm.MergeStored | src/components/ViewingForm.tsx:55 | stored dimensions win, and missing ones are 5 |
| ViewingForm.LoadFlag | src/components/ViewingForm.tsx:58-59 | `!!flag` is on only for a stored `true` |
| ViewingForm.OpenForm | src/components/ViewingForm.tsx:51-69 | a new entry gets defaults and today's date; an existing one is loaded, with missing notes and toggles blank |
| ViewingForm.ChangeRating | src/components/ViewingForm.tsx:71-73 | one dimension is set, and nothing else changes |
| ViewingForm.PersistenceId | src/components/ViewingForm.tsx:96-98 | the id is prefixed exactly for a show or an already-prefixed id, and films keep their id |
| ViewingForm.SaveViewing | src/components/ViewingForm.tsx:100-113 | the saved record carries the form, the filing id, trimmed notes, and episode fields exactly for an episode |
| ViewingForm.DefaultsAreFive | src/components/ViewingForm.tsx:26-37 | a new entry, or an edit with no stored ratings, starts at 5 everywhere |
| ViewingForm.MergeCompleteRatings | src/components/ViewingForm.tsx:55 | a complete stored rating object loads unchanged |
| ViewingForm.ChangeRatingUndo | src/components/ViewingForm.tsx:71-73 | writing back the old value undoes a change |
| ViewingForm.SaveThenEditRoundTrip | src/components/ViewingForm.tsx:51-113 | reopening a saved viewing restores the form, except that the notes come back trimmed |
| ViewingForm.NotesSettleAfterOneSave | src/components/ViewingForm.tsx:107 | a second save stores the same notes |
| ViewingForm.PersistenceIdIdempotent | src/components/ViewingForm.tsx:96-98 | prefixing is applied at most once |
| ViewingForm.PersistenceIdIsDocId | src/components/ViewingForm.tsx:84-98 | the viewing is filed under the id the movie service stores the title under |
| ViewingForm.PersistenceIdIsStatsKey | src/components/ViewingForm.tsx:96-98 | and under the id the home page averages by |
| ViewingForm.SavedEpisodeFeedsShowAndEpisode | src/components/ViewingForm.tsx:100-112 | a logged episode feeds both its show's bucket and its episode's bucket on the stats page |
| ViewingForm.SavedFilmFeedsMovieBucket | src/components/ViewingForm.tsx:100-109 | a logged film feeds only its film bucket |
| Movies.OrString | src/services/movies.ts:55 | `a \|\| b` picks `a` exactly when it is a non-empty string |
| Movies.DocId | src/services/movies.ts:20 | shows are stored under `tv_<id>`, and everything else under the decimal id |
| Movies.DocIdInjective | src/services/movies.ts:19-20 | distinct titles never share a document |
| Movies.YearOf | src/services/movies.ts:55-56 | no date gives the year 0 |
| Movies.TitleOf | src/services/movies.ts:76 | the title is never empty: title, then name, then the placeholder |
| Movies.FirstDirector | src/services/movies.ts:59 | `find` returns the first `Director` credit, and none when there is none |
| Movies.CastOf | src/services/movies.ts:62-66 | at most the first ten credits, mapped in order, and `[]` without credits |
| Movies.RuntimeOf | src/services/movies.ts:82 | a non-zero runtime is kept |
| Movies.BuildRecord | src/services/movies.ts:68-93 | the record has the bare id, the input's kind, the fetched details, and keeps the stored creator and other fields |
| Movies.UpsertFromTmdb | src/services/movies.ts:18-99 | a complete document is returned as is; a failed fetch is the error; otherwise the record is written under the document id |
| Movies.CompleteDocumentIsKept | src/services/movies.ts:33-35 | a complete document is returned whatever TMDB would answer |
| Movies.WrittenRecordIsKeptNextTime | src/services/movies.ts:33-99 | a record written with an overview is kept on the next call |
| Movies.FirstPieceOfYear | src/services/movies.ts:56 | the text before the first dash of `YYYY-...` is the year |
| Movies.YearOfReleaseDate | src/services/movies.ts:55-56 | a `YYYY-MM-DD` release date gives `YYYY` |
| Movies.YearOfFirstAirDate | src/services/movies.ts:55-56 | without a release date the first air date gives the year |
| Movies.TitleFallbacks | src/services/movies.ts:76 | without title or name the record is titled `Unknown Title` |
| Movies.DirectorFallsBackToCreator | src/services/movies.ts:59-60 | a show with no `Director` credit takes its first creator |
| Movies.EmptyDirectorNameGivesWay | src/services/movies.ts:59-60 | a `Director` credit with an empty name also gives way to the creator |
| Movies.RuntimeFallbacks | src/services/movies.ts:82 | runtime, then the first episode runtime; an empty list gives none; neither gives 0 |
| Movies.StoredIdIsUnprefixed | src/services/movies.ts:20-21 | the stored `tmdbId` is bare, even for a show stored under `tv_<id>` |
| Movies.RebuildPreservesProvenance | src/services/movies.ts:86-87 | a rebuild keeps the stored creator and creation time |
| Movies.NewRecordProvenance | src/services/movies.ts:86-87 | a new record is credited to the caller and stamped by the server |
| UserColors.IndexOfKey | src/lib/user-colors.ts:3-10 | each key's position in `USER_COLOR_KEYS` |
| UserColors.ColorKeysDistinct | src/lib/user-colors.ts:3-10 | six distinct keys, each at exactly one position |
| UserColors.Css | src/lib/user-colors.ts:12-27 | the CSS value is `hsl(var(--<key>))` |
| UserColors.CssInjective | src/lib/user-colors.ts:12-27 | distinct keys get distinct CSS values |
| UserColors.CharUnits | src/lib/user-colors.ts:32 | one code unit below U+10000, and two above |
| UserColors.Utf16 | src/lib/user-colors.ts:31-32 | a string has at least as many code units as characters |
| UserColors.HashStringFnv1a | src/lib/user-colors.ts:29-36 | the loop computes 32-bit FNV-1a over the code units |
| UserColors.FnvTestVectors | src/lib/user-colors.ts:29-36 | the FNV draft's 32-bit FNV-1a vectors for "", "a" and "foobar" |
| UserColors.AccentIsOneUnit | src/lib/user-colors.ts:32 | an accented letter hashes as one code unit |
| UserColors.EmojiIsTwoUnits | src/lib/user-colors.ts:32 | an emoji hashes as its two surrogates |
| UserColors.StableKey | src/lib/user-colors.ts:38-42 | the stable key is the hash modulo 6, taken in key order |
| UserColors.EmptySeedIsChart2 | src/lib/user-colors.ts:39-41 | a missing or empty seed gets `chart-2` |
| UserColors.UserChartColor | src/lib/user-colors.ts:44-50 | a stored key wins, and otherwise the stable key is used |
| UserColors.ChartColorIsAKeyColor | src/lib/user-colors.ts:44-50 | every user's colour is one of the six key colours |
| Users.ParseColorKey | src/services/users.ts:37 | a recognised key text names that key |
| Users.ParseKeyText | src/services/users.ts:37 | every key's own text is recognised |
| Users.UsedKeys | src/services/users.ts:41-49 | `used` holds exactly the valid keys of other users |
| Users.StartIndex | src/services/users.ts:51 | the scan starts at the stable key's position |
| Users.PickKey | src/services/users.ts:52-59 | a free key, every key the wrap-around scan passes before it being taken; or, when all six are taken, the stable key |
| Users.EnsureColorKey | src/services/users.ts:29-63 | an empty uid gets its stable key; a valid stored key is returned; otherwise the picked key is written and returned |
| Users.ScanFindsFree | src/services/users.ts:53-58 | the scan returns a free key whenever one remains |
| Users.ScanCoversAllKeys | src/services/users.ts:53-54 | six steps from any start visit every key |
| Users.FreeKeyExists | src/services/users.ts:42-49 | fewer than six used keys leave one free |
| Users.NewKeyAvoidsOthers | src/services/users.ts:41-63 | a newly assigned key clashes with no other user's, while one is free |
| Users.AllTakenFallsBackToStable | src/services/users.ts:52-61 | with all six taken, the caller gets and stores its stable key |
| Users.OwnProfileIsIgnored | src/services/users.ts:45 | the caller's own profile never counts as taken |
| Users.AssignmentIsStable | src/services/users.ts:36-39 | once written, the next call returns the same key and writes nothing |
| Users.EmptyUidGetsChart2 | src/services/users.ts:30 | an empty uid reads nothing and gets `chart-2` |
| Sanitize.Defined | src/lib/utils.ts:14 | the filter keeps exactly the defined entries; order and multiplicity are pinned by DefinedAppend and DefinedOfOne |
| Sanitize.DefinedAppend | src/lib/utils.ts:14 | filtering a concatenation filters each part, so surviving entries keep their order |
| Sanitize.DefinedOfOne | src/lib/utils.ts:14 | one entry survives exactly when it is defined |
| Sanitize.RemoveUndefined | src/lib/utils.ts:8-17 | the result has no undefined property at any depth; primitives and `null` are unchanged; arrays keep their length |
| Sanitize.ArraysMapElementwise | src/lib/utils.ts:10 | arrays are mapped element by element, and an undefined element stays |
| Sanitize.ObjectsKeepDefinedProps | src/lib/utils.ts:12-16 | objects keep the defined properties with cleaned values, in enumeration order (Defined keeps order by DefinedAppend), and a `null` is kept |
| Sanitize.DefinedKeepsAll | src/lib/utils.ts:14 | an object with nothing undefined keeps every entry |
| Sanitize.CleanIsFixed | src/lib/utils.ts:8-17 | clean values are unchanged |
| Sanitize.RemoveUndefinedIdempotent | src/lib/utils.ts:8-17 | sanitising twice is sanitising once |
| Sanitize.NestedExample | src/lib/utils.ts:8-17 | `{a: undefined, b: {c: undefined, d: null}, e: [undefined]}` becomes `{b: {d: null}, e: [undefined]}` |

## Left out

- Floating point is modelled by exact reals. NaN, infinities and binary rounding (for example `toFixed(1)` of 0.05) are not modelled.
- Text.FixedOne: follows exact decimal rounding and does not model the exponent form `toFixed` uses at or above 1e21.
- Text.ToLower: lower-cases ASCII letters only; Unicode case mapping is not modelled.
- StatsAggregate.Ids: lists keys in creation order. At `src/pages/StatsPage.tsx:117` `Object.entries` lists integer-like keys in ascending numeric order first. These are the decimal film ids, and a bare show id the catalog marks as a show. The page therefore breaks film ties by ascending id: with "550" logged before "27" at equal ratings, the page lists 27 first and the model lists 550 first. With eleven tied films, the page drops the largest id and the model drops the last one created. The ranking lemmas (`RankingIsTop`, `RankingKeepsTieOrder`, `SortDescIsTheStableSort`) hold for any input row order, so only the tie order of such tabs differs; `tv_` and `::` keys are enumerated in creation order, as modelled.
- Firestore and TMDB I/O, `merge: true` writes, the loading flags, React state and rendering are not modelled. Reads are parameters and writes are results.
- MoviePage.AverageRatings: requires every viewing to store the first viewing's dimensions. Otherwise the source adds `undefined` and gets NaN, which is not modelled.
- The fallback movie builders at `src/pages/MoviePage.tsx:51-121` fetch TMDB data when the stored document is missing. They are I/O glue and are not modelled.
- The season and episode panels of the title page (`getSeasonDetails`) are not modelled; they only display fetched data.
- JavaScript's `null` and `undefined` are both `None`, except in `Sanitize.Json`, which keeps them apart.
- Sanitize.RemoveUndefined: class instances such as the `serverTimestamp()` sentinel are `typeof 'object'` and would be rebuilt as plain objects. The model has no class instances. An object is an association list, and duplicate keys are not excluded.
- ViewingForm.PersistenceIdIsDocId: assumes `Number(movie.tmdbId)` reads back the stored decimal id. A non-numeric id (NaN) is not modelled.
- ViewingForm.OpenForm: today's date is a parameter instead of `new Date()`.
- The dialog title at `src/components/ViewingForm.tsx:135` contains the same kind of mis-encoded separator as the stats page. It is display text and is not modelled.
- Random page titles on the home page (`Math.random`) are left out.
- MoviePage.RuntimeSplits: states the split for positive runtimes only. A negative runtime would show negative minutes through `JsRem`; it is modelled but not claimed.
- RatingSliders.SliderValue: only the 21 positions of the slider are modelled. Radix's snapping of dragged values to the step is not modelled.
- Users.PickKey: takes the start position directly. `Math.max(0, start)` is a no-op, because the stable key is always in `USER_COLOR_KEYS`.
- Types.Viewing: season and episode numbers are naturals, as TMDB numbers them (season 0 holds specials). The source types them as `number`, and `src/pages/StatsPage.tsx:110-111` would also accept a negative or fractional one; the key it builds would then fail the regex at line 151, so the row would lose its `S…E…` code. That case is not modelled.
- The `Viewing.id` the viewings service assigns, the `insertedAt` stamp, and the service's `listAll(1000)` limit are not modelled.

## Findings

| source | as written | input that shows it | evidently intended | confidence | as-written member | corrected member |
|---|---|---|---|---|---|---|
| src/pages/StatsPage.tsx:169 | the episode subtitle parts are joined with `' â€” '`, the UTF-8 bytes of an em dash read back as Windows-1252 | an episode row with season 1, episode 2 and title "Pilot" shows `S1E2 â€” Pilot` | `S1E2 — Pilot`, joined with an em dash | high, not executed | StatsRows.EpisodeRowSubtitleAsWritten | StatsRows.IntendedEpisodeRowSubtitle |
| src/pages/MoviePage.tsx:216 | `{movie.runtime && <span>…</span>}` renders the number itself when the runtime is 0 | a stored title with `runtime: 0` (what the record builder writes when TMDB has no runtime) shows a stray `0` in the hero line | no runtime badge | medium, not executed | MoviePage.ZeroRuntimeRendersZero | MoviePage.RuntimeBadgeOf |
