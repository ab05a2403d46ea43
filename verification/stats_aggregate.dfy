/** The grouping pass of the stats page (src/pages/StatsPage.tsx:74-115): every
    viewing is classified as a movie or a show, then folded into a per-title
    count-and-sums bucket, and TV viewings that name a season and an episode are also
    folded into a per-episode bucket. */
module StatsAggregate {
  import opened Wrappers
  import opened Types
  import opened Text
  import opened RatingUtils
  import opened EpisodeKeys

  // ---------------------------------------------------------------- accumulators

  /** `Agg`: how many viewings were folded in, and the running sum of each dimension. */
  datatype Agg = Agg(count: nat, sums: Ratings)

  /** `{ count: 0, sums: emptyRatings() }`. */
  const EmptyAgg: Agg := Agg(0, Uniform(0.0))

  /** The contribution a viewing makes to a sum: its value on the nine ranked
      dimensions, and nothing on `enjoyment`, which `RATING_KEYS` leaves out. */
  function Contribution(r: Ratings, k: Key): real
  {
    if k == Enjoyment then 0.0 else Get(r, k)
  }

  /** The loop `for (const { key } of keys) sums[key] += r[key]`. */
  function AddKeys(sums: Ratings, r: Ratings, keys: seq<Key>): Ratings
    decreases |keys|
  {
    if |keys| == 0 then sums
    else AddKeys(Set(sums, keys[0], Get(sums, keys[0]) + Get(r, keys[0])), r, keys[1..])
  }

  /** Over distinct keys the loop adds `r` on exactly the listed dimensions. */
  lemma {:induction false} AddKeysAddsListed(sums: Ratings, r: Ratings, keys: seq<Key>)
    requires forall i, j :: 0 <= i < j < |keys| ==> keys[i] != keys[j]
    ensures forall k :: Get(AddKeys(sums, r, keys), k) == Get(sums, k) + (if k in keys then Get(r, k) else 0.0)
    decreases |keys|
  {
    if |keys| > 0 {
      var s' := Set(sums, keys[0], Get(sums, keys[0]) + Get(r, keys[0]));
      AddKeysAddsListed(s', r, keys[1..]);
      forall k ensures k in keys <==> k == keys[0] || k in keys[1..] {
        if k in keys {
          var i :| 0 <= i < |keys| && keys[i] == k;
          if i > 0 { assert keys[1..][i - 1] == k; }
        }
      }
    }
  }

  /** `addToAgg(agg, r)`: one more viewing, its ranked dimensions added to the sums. */
  function AddToAgg(agg: Agg, r: Ratings): (agg': Agg)
    ensures agg'.count == agg.count + 1
    ensures forall k :: Get(agg'.sums, k) == Get(agg.sums, k) + Contribution(r, k)
  {
    var s := agg.sums;
    Agg(agg.count + 1,
        Ratings(s.overall + r.overall, s.enjoyment, s.jump + r.jump, s.dread + r.dread,
                s.gore + r.gore, s.atmosphere + r.atmosphere, s.story + r.story,
                s.rewatch + r.rewatch, s.wtf + r.wtf, s.cozy + r.cozy))
  }

  /** Two rating vectors that agree on every dimension are the same vector. */
  lemma RatingsExt(a: Ratings, b: Ratings)
    requires forall k :: Get(a, k) == Get(b, k)
    ensures a == b
  {
    assert Get(a, Overall) == Get(b, Overall) && Get(a, Enjoyment) == Get(b, Enjoyment);
    assert Get(a, Jump) == Get(b, Jump) && Get(a, Dread) == Get(b, Dread) && Get(a, Gore) == Get(b, Gore);
    assert Get(a, Atmosphere) == Get(b, Atmosphere) && Get(a, Story) == Get(b, Story);
    assert Get(a, Rewatch) == Get(b, Rewatch) && Get(a, Wtf) == Get(b, Wtf) && Get(a, Cozy) == Get(b, Cozy);
  }

  /** The field-by-field sum is the source's loop over `RATING_KEYS`. */
  lemma AddToAggIsKeyLoop(agg: Agg, r: Ratings)
    ensures AddToAgg(agg, r).sums == AddKeys(agg.sums, r, RatedKeys)
  {
    RatedKeysShape();
    AddToAggIsLoopOver(agg, r, RatedKeys);
  }

  lemma AddToAggIsLoopOver(agg: Agg, r: Ratings, keys: seq<Key>)
    requires forall i, j :: 0 <= i < j < |keys| ==> keys[i] != keys[j]
    requires forall k :: k in keys <==> k != Enjoyment
    ensures AddToAgg(agg, r).sums == AddKeys(agg.sums, r, keys)
  {
    AddKeysAddsListed(agg.sums, r, keys);
    RatingsExt(AddToAgg(agg, r).sums, AddKeys(agg.sums, r, keys));
  }

  /** Folding two viewings in either order gives the same bucket. */
  lemma AddToAggCommutes(agg: Agg, r1: Ratings, r2: Ratings)
    ensures AddToAgg(AddToAgg(agg, r1), r2) == AddToAgg(AddToAgg(agg, r2), r1)
  {
    RatingsExt(AddToAgg(AddToAgg(agg, r1), r2).sums, AddToAgg(AddToAgg(agg, r2), r1).sums);
  }

  // ---------------------------------------------------------------- buckets

  /** One entry of an accumulator record, in insertion order. */
  datatype Bucket = Bucket(id: string, agg: Agg)

  function Ids(bs: seq<Bucket>): (ids: seq<string>)
    ensures |ids| == |bs| && forall i :: 0 <= i < |bs| ==> ids[i] == bs[i].id
  {
    if |bs| == 0 then [] else [bs[0].id] + Ids(bs[1..])
  }

  /** `map[id]`: the bucket stored under `id`, if any. */
  function Find(bs: seq<Bucket>, id: string): Option<Agg>
  {
    if |bs| == 0 then None
    else if bs[0].id == id then Some(bs[0].agg)
    else Find(bs[1..], id)
  }

  /** A lookup succeeds exactly for the ids present, and returns the first bucket with that id. */
  lemma {:induction false} FindListed(bs: seq<Bucket>, id: string)
    ensures Find(bs, id).Some? <==> id in Ids(bs)
    ensures Find(bs, id).Some? ==> exists i :: 0 <= i < |bs| && bs[i] == Bucket(id, Find(bs, id).value)
  {
    if |bs| > 0 {
      FindListed(bs[1..], id);
      assert Ids(bs) == [bs[0].id] + Ids(bs[1..]);
      if bs[0].id != id && Find(bs, id).Some? {
        var i :| 0 <= i < |bs[1..]| && bs[1..][i] == Bucket(id, Find(bs, id).value);
        assert bs[i + 1] == bs[1..][i];
      }
    }
  }

  /** `if (!map[id]) map[id] = { count: 0, sums: emptyRatings() }; addToAgg(map[id], r)`:
      the bucket is updated in place, or created at the end when new. */
  function Upsert(bs: seq<Bucket>, id: string, r: Ratings): (bs': seq<Bucket>)
    ensures |bs'| == if id in Ids(bs) then |bs| else |bs| + 1
  {
    if |bs| == 0 then [Bucket(id, AddToAgg(EmptyAgg, r))]
    else if bs[0].id == id then
      assert Ids(bs)[0] == id;
      [Bucket(id, AddToAgg(bs[0].agg, r))] + bs[1..]
    else
      assert id in Ids(bs) <==> id in Ids(bs[1..]) by {
        assert Ids(bs) == [bs[0].id] + Ids(bs[1..]);
      }
      [bs[0]] + Upsert(bs[1..], id, r)
  }

  /** The target bucket receives the viewing (starting from empty when new); every other
      bucket is unchanged. */
  lemma {:induction false} UpsertFind(bs: seq<Bucket>, id: string, r: Ratings, other: string)
    ensures Find(Upsert(bs, id, r), other)
         == if other == id then Some(AddToAgg(Find(bs, id).GetOr(EmptyAgg), r)) else Find(bs, other)
  {
    if |bs| > 0 && bs[0].id != id {
      UpsertFind(bs[1..], id, r, other);
      assert Upsert(bs, id, r)[1..] == Upsert(bs[1..], id, r);
    } else if |bs| > 0 {
      assert Upsert(bs, id, r)[1..] == bs[1..];
    }
  }

  /** Existing ids keep their positions; a new id is appended. */
  lemma {:induction false} UpsertIds(bs: seq<Bucket>, id: string, r: Ratings)
    ensures Ids(Upsert(bs, id, r)) == if id in Ids(bs) then Ids(bs) else Ids(bs) + [id]
  {
    if |bs| > 0 && bs[0].id != id {
      UpsertIds(bs[1..], id, r);
      assert Ids(bs) == [bs[0].id] + Ids(bs[1..]);
      assert Upsert(bs, id, r) == [bs[0]] + Upsert(bs[1..], id, r);
      assert Ids(Upsert(bs, id, r)) == [bs[0].id] + Ids(Upsert(bs[1..], id, r));
    } else if |bs| > 0 {
      assert id in Ids(bs) by { assert Ids(bs)[0] == id; }
    }
  }

  /** The number of viewings held by a list of buckets. */
  function TotalCount(bs: seq<Bucket>): nat
  {
    if |bs| == 0 then 0 else bs[0].agg.count + TotalCount(bs[1..])
  }

  /** Folding a viewing in adds exactly one to the buckets' total. */
  lemma {:induction false} UpsertAddsOne(bs: seq<Bucket>, id: string, r: Ratings)
    ensures TotalCount(Upsert(bs, id, r)) == TotalCount(bs) + 1
  {
    if |bs| > 0 && bs[0].id != id {
      UpsertAddsOne(bs[1..], id, r);
      assert Upsert(bs, id, r)[1..] == Upsert(bs[1..], id, r);
    } else if |bs| > 0 {
      assert Upsert(bs, id, r)[1..] == bs[1..];
    }
  }

  // ---------------------------------------------------------------- classification

  /** `moviesById`: the metadata fetched for each id; a missing entry stands for `null`. */
  type Catalog = map<string, Movie>

  function MetaFor(catalog: Catalog, id: string): Option<Movie>
  {
    if id in catalog then Some(catalog[id]) else None
  }

  /** `isTvMovieId`: the storage convention that prefixes show ids with `tv_`. */
  predicate IsTvMovieId(id: string)
  {
    StartsWith(id, "tv_")
  }

  /** A title counts as TV when its metadata says so or its id carries the prefix;
      everything else, including ids without metadata, counts as a movie. */
  predicate IsTv(id: string, meta: Option<Movie>)
  {
    (meta.Some? && meta.value.mediaType == Some(TvMedia)) || IsTvMovieId(id)
  }

  datatype BucketSet = MovieBuckets | ShowBuckets | EpisodeBuckets

  /** A viewing's place in one of the three accumulator records. */
  datatype Membership = Membership(kind: BucketSet, key: string)

  /** Whether a TV viewing names both a season and an episode. */
  predicate HasEpisode(v: Viewing)
  {
    v.seasonNumber.Some? && v.episodeNumber.Some?
  }

  /** The buckets a viewing is folded into. A viewing without a `movieId` goes nowhere;
      any other goes into exactly one per-title bucket keyed by its id, the show bucket
      exactly when it is TV; a TV viewing with season and episode also goes into its
      episode bucket. */
  function Classify(v: Viewing, catalog: Catalog): (ms: seq<Membership>)
    ensures |ms| == 0 <==> v.movieId == ""
    ensures |ms| <= 2
    ensures |ms| > 0 ==> ms[0].key == v.movieId
    ensures |ms| > 0 ==> (ms[0].kind == ShowBuckets <==> IsTv(v.movieId, MetaFor(catalog, v.movieId)))
    ensures |ms| > 0 ==> ms[0].kind != EpisodeBuckets
    ensures |ms| == 2 <==> v.movieId != "" && IsTv(v.movieId, MetaFor(catalog, v.movieId)) && HasEpisode(v)
    ensures |ms| == 2 ==> ms[1] == Membership(EpisodeBuckets, EpisodeKey(v.movieId, v.seasonNumber.value, v.episodeNumber.value))
  {
    if v.movieId == "" then []
    else if IsTv(v.movieId, MetaFor(catalog, v.movieId)) then
      [Membership(ShowBuckets, v.movieId)]
        + (if HasEpisode(v) then [Membership(EpisodeBuckets, EpisodeKey(v.movieId, v.seasonNumber.value, v.episodeNumber.value))] else [])
    else [Membership(MovieBuckets, v.movieId)]
  }

  // ---------------------------------------------------------------- the grouping pass

  /** `movieAgg`, `tvAgg` and `episodeAgg`. */
  datatype Groups = Groups(movies: seq<Bucket>, shows: seq<Bucket>, episodes: seq<Bucket>)

  const NoGroups: Groups := Groups([], [], [])

  function Select(g: Groups, kind: BucketSet): seq<Bucket>
  {
    match kind
    case MovieBuckets => g.movies
    case ShowBuckets => g.shows
    case EpisodeBuckets => g.episodes
  }

  /** One iteration of the loop over viewings. */
  function Step(g: Groups, v: Viewing, catalog: Catalog): Groups
  {
    var movieId := v.movieId;
    if movieId == "" then g
    else
      var isTv := IsTv(movieId, MetaFor(catalog, movieId));
      var g1 := if isTv then g.(shows := Upsert(g.shows, movieId, v.ratings))
                else g.(movies := Upsert(g.movies, movieId, v.ratings));
      if isTv && v.seasonNumber.Some? && v.episodeNumber.Some? then
        g1.(episodes := Upsert(g1.episodes, EpisodeKey(movieId, v.seasonNumber.value, v.episodeNumber.value), v.ratings))
      else g1
  }

  /** The whole loop: the viewings folded in list order. */
  function Group(vs: seq<Viewing>, catalog: Catalog): Groups
  {
    if |vs| == 0 then NoGroups else Step(Group(vs[..|vs| - 1], catalog), vs[|vs| - 1], catalog)
  }

  // ---------------------------------------------------------------- reference tally

  /** A bucket computed directly: the viewings that feed it, folded in list order. */
  function Tally(vs: seq<Viewing>, catalog: Catalog, m: Membership): Agg
  {
    if |vs| == 0 then EmptyAgg
    else
      var before := Tally(vs[..|vs| - 1], catalog, m);
      var v := vs[|vs| - 1];
      if m in Classify(v, catalog) then AddToAgg(before, v.ratings) else before
  }

  /** A single step leaves every bucket the viewing does not feed alone, and folds the
      viewing into each bucket it does feed. */
  lemma StepEffect(g: Groups, v: Viewing, catalog: Catalog, m: Membership)
    ensures Find(Select(Step(g, v, catalog), m.kind), m.key)
         == if m in Classify(v, catalog)
            then Some(AddToAgg(Find(Select(g, m.kind), m.key).GetOr(EmptyAgg), v.ratings))
            else Find(Select(g, m.kind), m.key)
  {
    var id := v.movieId;
    if id != "" {
      if IsTv(id, MetaFor(catalog, id)) {
        ShowStepEffect(g, v, catalog, m);
      } else {
        UpsertFind(g.movies, id, v.ratings, m.key);
      }
    }
  }

  lemma ShowStepEffect(g: Groups, v: Viewing, catalog: Catalog, m: Membership)
    requires v.movieId != "" && IsTv(v.movieId, MetaFor(catalog, v.movieId))
    ensures Find(Select(Step(g, v, catalog), m.kind), m.key)
         == if m in Classify(v, catalog)
            then Some(AddToAgg(Find(Select(g, m.kind), m.key).GetOr(EmptyAgg), v.ratings))
            else Find(Select(g, m.kind), m.key)
  {
    var id := v.movieId;
    UpsertFind(g.shows, id, v.ratings, m.key);
    if HasEpisode(v) {
      EpisodeStepEffect(g, v, catalog, m);
    } else {
      assert Step(g, v, catalog) == g.(shows := Upsert(g.shows, id, v.ratings));
      assert Classify(v, catalog) == [Membership(ShowBuckets, id)];
    }
  }

  lemma EpisodeStepEffect(g: Groups, v: Viewing, catalog: Catalog, m: Membership)
    requires v.movieId != "" && IsTv(v.movieId, MetaFor(catalog, v.movieId)) && HasEpisode(v)
    requires Find(Upsert(g.shows, v.movieId, v.ratings), m.key)
          == if m.key == v.movieId then Some(AddToAgg(Find(g.shows, v.movieId).GetOr(EmptyAgg), v.ratings))
             else Find(g.shows, m.key)
    ensures Find(Select(Step(g, v, catalog), m.kind), m.key)
         == if m in Classify(v, catalog)
            then Some(AddToAgg(Find(Select(g, m.kind), m.key).GetOr(EmptyAgg), v.ratings))
            else Find(Select(g, m.kind), m.key)
  {
    var id := v.movieId;
    var ek := EpisodeKey(id, v.seasonNumber.value, v.episodeNumber.value);
    assert Step(g, v, catalog) == g.(shows := Upsert(g.shows, id, v.ratings), episodes := Upsert(g.episodes, ek, v.ratings));
    assert Classify(v, catalog) == [Membership(ShowBuckets, id), Membership(EpisodeBuckets, ek)];
    UpsertFind(g.episodes, ek, v.ratings, m.key);
  }

  /** A bucket no viewing fed is still the empty accumulator. */
  lemma {:induction false} UnfedTallyIsEmpty(vs: seq<Viewing>, catalog: Catalog, m: Membership)
    ensures Tally(vs, catalog, m).count == 0 ==> Tally(vs, catalog, m) == EmptyAgg
  {
    if |vs| > 0 {
      UnfedTallyIsEmpty(vs[..|vs| - 1], catalog, m);
    }
  }

  /** The grouping pass agrees with the reference tally: a bucket exists exactly when some
      viewing feeds it, and then holds the count and sums of those viewings. */
  lemma {:induction false} GroupMatchesTally(vs: seq<Viewing>, catalog: Catalog, m: Membership)
    ensures Find(Select(Group(vs, catalog), m.kind), m.key)
         == if Tally(vs, catalog, m).count == 0 then None else Some(Tally(vs, catalog, m))
  {
    if |vs| > 0 {
      GroupMatchesTally(vs[..|vs| - 1], catalog, m);
      UnfedTallyIsEmpty(vs[..|vs| - 1], catalog, m);
      StepEffect(Group(vs[..|vs| - 1], catalog), vs[|vs| - 1], catalog, m);
    }
  }

  /** The number of viewings that have a `movieId`. */
  function CountWithId(vs: seq<Viewing>): nat
  {
    if |vs| == 0 then 0 else CountWithId(vs[..|vs| - 1]) + (if vs[|vs| - 1].movieId != "" then 1 else 0)
  }

  /** Count conservation: the movie and show buckets together hold one count per viewing
      that has a `movieId`; viewings without one are skipped. */
  lemma {:induction false} CountsAreConserved(vs: seq<Viewing>, catalog: Catalog)
    ensures TotalCount(Group(vs, catalog).movies) + TotalCount(Group(vs, catalog).shows) == CountWithId(vs)
  {
    if |vs| > 0 {
      var g := Group(vs[..|vs| - 1], catalog);
      var v := vs[|vs| - 1];
      CountsAreConserved(vs[..|vs| - 1], catalog);
      if v.movieId != "" {
        if IsTv(v.movieId, MetaFor(catalog, v.movieId)) {
          UpsertAddsOne(g.shows, v.movieId, v.ratings);
        } else {
          UpsertAddsOne(g.movies, v.movieId, v.ratings);
        }
      }
    }
  }

  /** A movie bucket exists only for a non-TV id and a show bucket only for a TV id. */
  lemma {:induction false} BucketKindFollowsId(vs: seq<Viewing>, catalog: Catalog, id: string)
    ensures Find(Group(vs, catalog).movies, id).Some? ==> !IsTv(id, MetaFor(catalog, id))
    ensures Find(Group(vs, catalog).shows, id).Some? ==> IsTv(id, MetaFor(catalog, id))
  {
    if |vs| > 0 {
      var g := Group(vs[..|vs| - 1], catalog);
      var v := vs[|vs| - 1];
      BucketKindFollowsId(vs[..|vs| - 1], catalog, id);
      UpsertFind(g.movies, v.movieId, v.ratings, id);
      UpsertFind(g.shows, v.movieId, v.ratings, id);
    }
  }

  /** No title is ranked both as a movie and as a show. */
  lemma MovieAndShowBucketsAreDisjoint(vs: seq<Viewing>, catalog: Catalog, id: string)
    ensures !(Find(Group(vs, catalog).movies, id).Some? && Find(Group(vs, catalog).shows, id).Some?)
  {
    BucketKindFollowsId(vs, catalog, id);
  }

  // ---------------------------------------------------------------- order independence

  /** A conditional fold step, as used by `Tally`. */
  function Feed(agg: Agg, v: Viewing, catalog: Catalog, m: Membership): Agg
  {
    if m in Classify(v, catalog) then AddToAgg(agg, v.ratings) else agg
  }

  /** Any one viewing can be folded in last. */
  lemma {:induction false} TallyMoveToEnd(a: seq<Viewing>, x: Viewing, b: seq<Viewing>, catalog: Catalog, m: Membership)
    ensures Tally(a + [x] + b, catalog, m) == Feed(Tally(a + b, catalog, m), x, catalog, m)
    decreases |b|
  {
    if |b| == 0 {
      assert a + [x] + b == a + [x];
      assert (a + [x])[..|a|] == a;
      assert a + b == a;
    } else {
      var b' := b[..|b| - 1];
      var y := b[|b| - 1];
      assert (a + [x] + b)[..|a + [x] + b| - 1] == a + [x] + b';
      assert (a + b)[..|a + b| - 1] == a + b';
      assert (a + [x] + b)[|a + [x] + b| - 1] == y;
      assert (a + b)[|a + b| - 1] == y;
      TallyMoveToEnd(a, x, b', catalog, m);
      var t := Tally(a + b', catalog, m);
      if m in Classify(x, catalog) && m in Classify(y, catalog) {
        AddToAggCommutes(t, x.ratings, y.ratings);
      }
    }
  }

  /** Taking the same element out of two equal multisets leaves equal multisets. */
  lemma RemoveFromBoth<T>(p: seq<T>, x: T, a: seq<T>, b: seq<T>)
    requires multiset(p + [x]) == multiset(a + [x] + b)
    ensures multiset(a + b) == multiset(p)
  {
    assert multiset(a + [x] + b) == multiset(a) + multiset{x} + multiset(b);
    assert multiset(p + [x]) == multiset(p) + multiset{x};
    assert multiset(a + b) == multiset(a) + multiset(b);
    forall y ensures multiset(a + b)[y] == multiset(p)[y] {
      assert (multiset(a + b) + multiset{x})[y] == (multiset(p) + multiset{x})[y];
    }
  }

  /** Under exact arithmetic a bucket depends only on the multiset of viewings, not on
      their order. */
  lemma {:induction false} TallyIsOrderIndependent(vs1: seq<Viewing>, vs2: seq<Viewing>, catalog: Catalog, m: Membership)
    requires multiset(vs1) == multiset(vs2)
    ensures Tally(vs1, catalog, m) == Tally(vs2, catalog, m)
    decreases |vs1|
  {
    if |vs1| > 0 {
      var p := vs1[..|vs1| - 1];
      var x := vs1[|vs1| - 1];
      assert vs1 == p + [x];
      var a, b := PullOut(p, x, vs2);
      TallyIsOrderIndependent(p, a + b, catalog, m);
      TallyMoveToEnd(a, x, b, catalog, m);
    } else {
      assert |vs2| == 0;
    }
  }

  /** The last element of `p + [x]` can be found in any permutation of it. */
  lemma PullOut<T>(p: seq<T>, x: T, vs: seq<T>) returns (a: seq<T>, b: seq<T>)
    requires multiset(p + [x]) == multiset(vs)
    ensures vs == a + [x] + b && multiset(a + b) == multiset(p)
  {
    assert x in multiset(vs);
    var i :| 0 <= i < |vs| && vs[i] == x;
    a, b := vs[..i], vs[i + 1..];
    assert vs == a + [x] + b;
    RemoveFromBoth(p, x, a, b);
  }

  /** Reordering the viewings changes no bucket's count or sums (only, possibly, the
      order in which buckets were created). */
  lemma GroupIsOrderIndependent(vs1: seq<Viewing>, vs2: seq<Viewing>, catalog: Catalog, m: Membership)
    requires multiset(vs1) == multiset(vs2)
    ensures Find(Select(Group(vs1, catalog), m.kind), m.key) == Find(Select(Group(vs2, catalog), m.kind), m.key)
  {
    GroupMatchesTally(vs1, catalog, m);
    GroupMatchesTally(vs2, catalog, m);
    TallyIsOrderIndependent(vs1, vs2, catalog, m);
  }

  // ---------------------------------------------------------------- bounds

  /** Every input rating lies in the slider range [0, 10]. */
  ghost predicate InRange(r: Ratings)
  {
    forall k :: 0.0 <= Get(r, k) <= 10.0
  }

  /** Each sum lies between 0 and ten times the count. */
  ghost predicate SumsBounded(agg: Agg)
  {
    forall k :: 0.0 <= Get(agg.sums, k) <= 10.0 * agg.count as real
  }

  /** The reference tally of in-range viewings keeps every sum within [0, 10 * count]. */
  lemma {:induction false} TallyBounded(vs: seq<Viewing>, catalog: Catalog, m: Membership)
    requires forall i :: 0 <= i < |vs| ==> InRange(vs[i].ratings)
    ensures SumsBounded(Tally(vs, catalog, m))
  {
    if |vs| > 0 {
      TallyBounded(vs[..|vs| - 1], catalog, m);
    }
  }
}
