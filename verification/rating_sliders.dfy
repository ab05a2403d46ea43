/** The rating sliders (src/components/RatingSliders.tsx): the nine rated dimensions laid
    out two to a card, and for each one a slider over [0, 10] in half-point steps with its
    value badge and fun label. */
module RatingSliders {
  import opened Types
  import opened Text
  import opened RatingUtils

  // ---------------------------------------------------------------- pair grouping

  /** The groups put back together. */
  function Flatten<T>(gs: seq<seq<T>>): (xs: seq<T>)
  {
    if |gs| == 0 then [] else gs[0] + Flatten(gs[1..])
  }

  lemma {:induction false} FlattenAppend<T>(a: seq<seq<T>>, b: seq<seq<T>>)
    ensures Flatten(a + b) == Flatten(a) + Flatten(b)
  {
    if |a| > 0 {
      assert (a + b)[1..] == a[1..] + b;
      FlattenAppend(a[1..], b);
    } else {
      assert a + b == b;
    }
  }

  /** Every group but the last holds two elements; the last holds one or two. */
  ghost predicate PairShaped<T>(gs: seq<seq<T>>)
  {
    (forall g :: 0 <= g < |gs| ==> 1 <= |gs[g]| <= 2)
    && (forall g :: 0 <= g < |gs| - 1 ==> |gs[g]| == 2)
  }

  /** `RATING_KEYS.slice(i, i + 2)` for i = 0, 2, 4, ...: consecutive pairs, with a single
      left over when the count is odd. */
  function Pairs<T>(xs: seq<T>): (gs: seq<seq<T>>)
    ensures Flatten(gs) == xs
    ensures PairShaped(gs)
    ensures |gs| == (|xs| + 1) / 2
    decreases |xs|
  {
    if |xs| == 0 then []
    else if |xs| <= 2 then [xs]
    else
      var rest := Pairs(xs[2..]);
      assert ([xs[..2]] + rest)[1..] == rest;
      assert xs[..2] + xs[2..] == xs;
      [xs[..2]] + rest
  }

  /** Splitting after an even number of elements splits the grouping there too. */
  lemma {:induction false} PairsAppend<T>(xs: seq<T>, ys: seq<T>)
    requires |xs| % 2 == 0
    ensures Pairs(xs + ys) == Pairs(xs) + Pairs(ys)
    decreases |xs|
  {
    if |xs| == 0 {
      assert xs + ys == ys;
    } else if |ys| == 0 {
      assert xs + ys == xs;
    } else {
      assert (xs + ys)[..2] == xs[..2];
      assert (xs + ys)[2..] == xs[2..] + ys;
      PairsAppend(xs[2..], ys);
    }
  }

  lemma PairsOfShort<T>(s: seq<T>)
    requires 1 <= |s| <= 2
    ensures Pairs(s) == [s]
  {
  }

  /** One more slice of one or two extends the grouping of an even-length prefix. */
  lemma PairsExtend<T>(keys: seq<T>, i: nat, end: nat)
    requires i % 2 == 0 && i < end <= i + 2 && end <= |keys|
    ensures Pairs(keys[..end]) == Pairs(keys[..i]) + [keys[i..end]]
  {
    var prefix, slice := keys[..i], keys[i..end];
    assert |prefix| % 2 == 0 && 1 <= |slice| <= 2;
    PairsAppend(prefix, slice);
    PairsOfShort(slice);
    assert prefix + slice == keys[..end];
    assert Pairs(slice) == [keys[i..end]];
  }

  /** The `for (let i = 0; i < RATING_KEYS.length; i += 2)` loop pushing `slice(i, i + 2)`. */
  method GroupKeys<T>(keys: seq<T>) returns (groups: seq<seq<T>>)
    ensures groups == Pairs(keys)
    ensures Flatten(groups) == keys
    ensures PairShaped(groups) && |groups| == (|keys| + 1) / 2
  {
    groups := [];
    var i := 0;
    while i < |keys|
      invariant 0 <= i <= |keys| && (i % 2 == 0 || i == |keys|)
      invariant groups == Pairs(keys[..i])
    {
      // `i += 2`; past the end the loop stops either way
      var end := if i + 2 < |keys| then i + 2 else |keys|;
      PairsExtend(keys, i, end);
      groups := groups + [keys[i..end]];
      i := end;
    }
    assert keys[..|keys|] == keys;
  }

  /** The nine rated dimensions make five cards, the last holding `cozy` alone. */
  lemma RatedKeyCards()
    ensures var cards := Pairs(RatedKeys);
            |cards| == 5 && cards[0] == [Overall, Jump] && cards[4] == [Cozy]
  {
    var ks := RatedKeys;
    assert ks[2..][2..][2..][2..] == [Cozy];
    assert ks[..2] == [Overall, Jump];
  }

  // ---------------------------------------------------------------- slider domain

  const SliderMin: real := 0.0
  const SliderMax: real := 10.0
  const SliderStep: real := 0.5

  /** The value at slider position `h`: `min + h * step`. */
  function SliderValue(h: nat): (v: real)
    requires h <= 20
    ensures SliderMin <= v <= SliderMax
    ensures v == 0.0 <==> h == 0
  {
    SliderMin + h as real * SliderStep
  }

  /** The position a half-point value sits at. */
  function Position(v: real): int
  {
    (v / SliderStep).Floor
  }

  /** Positions and values correspond one to one: 21 distinct half points from 0 to 10. */
  lemma SliderPositionsRoundTrip(h: nat)
    requires h <= 20
    ensures Position(SliderValue(h)) == h
    ensures SliderValue(h) == h as real / 2.0
  {
  }

  /** The badge style. */
  datatype Tone = Primary | Destructive

  /** `ratings[key] >= 8 ? 'destructive' : 'primary'`. */
  function BadgeTone(v: real): Tone
  {
    if v >= 8.0 then Destructive else Primary
  }

  /** On the slider, exactly the top five positions (8, 8.5, ..., 10) are shown in the
      destructive style. */
  lemma DestructiveIsTopFive(h: nat)
    requires h <= 20
    ensures BadgeTone(SliderValue(h)) == Destructive <==> 16 <= h
  {
  }

  /** What one slider of the grid shows and how it is wired. */
  datatype Slider = Slider(key: Key, caption: string, value: real, disabled: bool,
                           badge: string, tone: Tone, fun: FunLabel)

  /** The slider of dimension `k`. */
  function SliderFor(r: Ratings, k: Key, readOnly: bool): (s: Slider)
    ensures s.key == k && s.value == Get(r, k)
    ensures s.disabled <==> readOnly
  {
    var v := Get(r, k);
    Slider(k, Caption(k), v, readOnly, FixedOne(v), BadgeTone(v), GetFunLabel(k, v))
  }

  /** The cards as rendered: one slider per key, in the grouping's shape. */
  function Cards(r: Ratings, readOnly: bool): (cards: seq<seq<Slider>>)
    ensures |cards| == |Pairs(RatedKeys)|
  {
    var gs := Pairs(RatedKeys);
    seq(|gs|, c requires 0 <= c < |gs| =>
      seq(|gs[c]|, j requires 0 <= j < |gs[c]| => SliderFor(r, gs[c][j], readOnly)))
  }

  /** A slider at position `h` shows `h / 2` with one decimal and the fun label of that
      value; changing it through `onChange` sets that dimension to the value and nothing
      else (`ViewingForm.ChangeRating`). */
  lemma SliderShowsItsValue(r: Ratings, k: Key, h: nat, readOnly: bool)
    requires h <= 20 && Get(r, k) == SliderValue(h)
    ensures var s := SliderFor(r, k, readOnly);
            s.badge == TenthsText(h * 5) && s.fun == GetFunLabel(k, h as real / 2.0)
  {
    SliderBadge(Get(r, k), h);
    assert SliderFor(r, k, readOnly).badge == FixedOne(Get(r, k));
  }

  lemma SliderBadge(v: real, h: nat)
    requires h <= 20 && v == SliderValue(h)
    ensures FixedOne(v) == TenthsText(h * 5) && v == h as real / 2.0
  {
    HalvesAreTenths(h);
    FixedOneOfTenth(h * 5);
  }

  lemma HalvesAreTenths(h: nat)
    requires h <= 20
    ensures SliderValue(h) == (h * 5) as real / 10.0 == h as real / 2.0
  {
  }

  /** Every rated dimension gets exactly one slider, in `RATING_KEYS` order, and each is
      disabled exactly when the grid is read-only. */
  lemma CardsCoverRatedKeys(r: Ratings, readOnly: bool)
    ensures var cards := Cards(r, readOnly);
            forall c, j :: 0 <= c < |cards| && 0 <= j < |cards[c]| ==>
              cards[c][j].key == Pairs(RatedKeys)[c][j] && (cards[c][j].disabled <==> readOnly)
    ensures Flatten(Pairs(RatedKeys)) == RatedKeys
  {
  }
}
