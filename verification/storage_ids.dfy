/** The storage-id convention: a show's documents and viewings live under its TMDB id
    prefixed with `tv_`, so that a show and a film with the same TMDB id never collide
    (src/services/movies.ts:20, src/pages/MoviePage.tsx:30,
    src/components/ViewingForm.tsx:96-98, src/pages/HomePage.tsx:32). */
module StorageIds {
  import opened Text

  const TvPrefix: string := "tv_"

  /** `` `tv_${id}` ``. */
  function Prefixed(id: string): (r: string)
    ensures StartsWith(r, TvPrefix) && r[|TvPrefix|..] == id
  {
    var r := TvPrefix + id;
    assert r[..|TvPrefix|] == TvPrefix && r[|TvPrefix|..] == id;
    r
  }

  /** Prefixing keeps ids apart. */
  lemma PrefixedInjective(a: string, b: string)
    requires Prefixed(a) == Prefixed(b)
    ensures a == b
  {
    assert a == Prefixed(a)[|TvPrefix|..];
  }

  /** A TMDB id printed in decimal never looks like a show id, so a film's plain id and a
      show's prefixed id never coincide. */
  lemma DecimalIdsAreUnprefixed(id: string)
    requires AllDigits(id)
    ensures !StartsWith(id, TvPrefix)
    ensures forall other :: id != Prefixed(other)
  {
    if |id| >= 1 {
      assert IsDigit(id[0]);
      assert TvPrefix[0] == 't';
    }
  }
}
