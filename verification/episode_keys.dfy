/** The per-episode bucket key of the stats page, `${movieId}::s${season}e${episode}`,
    and the way the page splits it back apart (src/pages/StatsPage.tsx:111, 148-153). */
module EpisodeKeys {
  import opened Wrappers
  import opened Text

  /** The key under which the stats page accumulates one episode of a show. */
  function EpisodeKey(id: string, season: nat, episode: nat): (key: string)
    ensures StartsWith(key, id)
  {
    id + "::" + EpisodePart(season, episode)
  }

  /** The `s<season>e<episode>` tail of an episode key. */
  function EpisodePart(season: nat, episode: nat): string
  {
    "s" + NatToString(season) + "e" + NatToString(episode)
  }

  /** The first two pieces of `key.split('::')`; the second is absent when the key holds
      no `::` at all. */
  function SplitHead(key: string): (parts: (string, Option<string>))
    ensures parts.1.None? <==> !Contains(key, "::")
    ensures parts.1.None? ==> parts.0 == key
  {
    match IndexOf(key, "::", 0)
    case None => (key, None)
    case Some(i) =>
      var rest := key[i + 2..];
      match IndexOf(rest, "::", 0)
      case None => (key[..i], Some(rest))
      case Some(j) => (key[..i], Some(rest[..j]))
  }

  /** The end of the run of decimal digits in `p` that starts at `from`. */
  function DigitRun(p: string, from: nat): (k: nat)
    requires from <= |p|
    ensures from <= k <= |p| && AllDigits(p[from..k])
    ensures k < |p| ==> !IsDigit(p[k])
    decreases |p| - from
  {
    if from == |p| || !IsDigit(p[from]) then from
    else
      var k := DigitRun(p, from + 1);
      assert p[from..k] == [p[from]] + p[from + 1..k];
      k
  }

  /** `/^s(\d+)e(\d+)$/.exec(part)` with both groups read by `Number`. Since `e` is not a
      digit, the first group necessarily ends at the first non-digit after the `s`. */
  function MatchEpisodePart(part: string): (r: Option<(nat, nat)>)
    ensures r.Some? ==> |part| >= 4 && part[0] == 's'
  {
    if |part| == 0 || part[0] != 's' then None
    else
      var k := DigitRun(part, 1);
      if k == 1 || k == |part| || part[k] != 'e' || k + 1 == |part| then None
      else
        var second := part[k + 1..];
        if !AllDigits(second) then None
        else Some((DigitsValue(part[1..k]), DigitsValue(second)))
  }

  /** What the episode-row builder reads back from a key: the show id and, when the rest
      matches the pattern, the season and episode numbers. */
  datatype ParsedKey = ParsedKey(id: string, numbers: Option<(nat, nat)>)

  function ParseEpisodeKey(key: string): ParsedKey
  {
    var (id, part) := SplitHead(key);
    ParsedKey(id, MatchEpisodePart(part.GetOr("")))
  }

  /** An id survives the `::` split when each of its colons is followed by a character
      other than a colon; in particular it holds no `::` and does not end with `:`. */
  ghost predicate SplitSafe(id: string)
  {
    forall i :: 0 <= i < |id| && id[i] == ':' ==> i + 1 < |id| && id[i + 1] != ':'
  }

  /** Printed natural numbers contain no colon. */
  lemma DigitsHaveNoColon(s: string, i: nat)
    requires AllDigits(s) && i < |s|
    ensures s[i] != ':'
  {
  }

  /** The tail `s<season>e<episode>` of a key matches the episode pattern and reads back
      the two numbers. */
  lemma {:induction false} EpisodePartRoundTrip(season: nat, episode: nat)
    ensures MatchEpisodePart(EpisodePart(season, episode)) == Some((season, episode))
  {
    var a := NatToString(season);
    var b := NatToString(episode);
    var p := "s" + a + "e" + b;
    var k := DigitRun(p, 1);
    assert p[1..1 + |a|] == a;
    assert p[1 + |a|] == 'e';
    assert forall j :: 1 <= j < 1 + |a| ==> IsDigit(p[j]) by {
      forall j | 1 <= j < 1 + |a| ensures IsDigit(p[j]) { assert p[j] == a[j - 1]; }
    }
    assert forall j :: 1 <= j < k ==> IsDigit(p[j]) by {
      forall j | 1 <= j < k ensures IsDigit(p[j]) { assert p[1..k][j - 1] == p[j]; }
    }
    assert k == 1 + |a|;
    assert p[k + 1..] == b;
    NatToStringRoundTrip(season);
    NatToStringRoundTrip(episode);
  }

  /** A string without colons holds no `::`. */
  lemma NoColonNoSeparator(s: string)
    requires forall i :: 0 <= i < |s| ==> s[i] != ':'
    ensures IndexOf(s, "::", 0).None?
  {
    forall j: nat | j + 2 <= |s| ensures !OccursAt(s, "::", j) {
      assert s[j..j + 2][0] == s[j];
    }
  }

  /** In a key built from a split-safe id, the first `::` is the one right after the id. */
  lemma FirstSeparatorFollowsId(id: string, rest: string)
    requires SplitSafe(id)
    ensures IndexOf(id + "::" + rest, "::", 0) == Some(|id|)
  {
    var key := id + "::" + rest;
    assert key[|id|..|id| + 2] == "::";
    assert OccursAt(key, "::", |id|);
    forall j | 0 <= j < |id| ensures !OccursAt(key, "::", j) {
      assert key[j] == id[j];
      if j + 1 < |id| {
        assert key[j + 1] == id[j + 1];
      }
    }
  }

  /** Splitting a built key on `::` gives back the show id and the episode part intact,
      provided the id is split-safe. */
  lemma SplitEpisodeKey(id: string, season: nat, episode: nat)
    requires SplitSafe(id)
    ensures SplitHead(EpisodeKey(id, season, episode))
         == (id, Some(EpisodePart(season, episode)))
  {
    var a := NatToString(season);
    var b := NatToString(episode);
    EpisodePartHasNoColon(a, b);
    SplitJoined(id, EpisodePart(season, episode));
  }

  /** Joining a split-safe id and a colon-free rest with `::` splits back into the two. */
  lemma SplitJoined(id: string, rest: string)
    requires SplitSafe(id)
    requires forall i :: 0 <= i < |rest| ==> rest[i] != ':'
    ensures SplitHead(id + "::" + rest) == (id, Some(rest))
  {
    var key := id + "::" + rest;
    FirstSeparatorFollowsId(id, rest);
    assert key[|id| + 2..] == rest;
    assert key[..|id|] == id;
    NoColonNoSeparator(rest);
    SplitHeadAt(key, |id|);
  }

  /** A key with exactly one `::`, at `i`, splits there. */
  lemma SplitHeadAt(key: string, i: nat)
    requires IndexOf(key, "::", 0) == Some(i) && i + 2 <= |key|
    requires IndexOf(key[i + 2..], "::", 0).None?
    ensures SplitHead(key) == (key[..i], Some(key[i + 2..]))
  {
  }

  lemma EpisodePartHasNoColon(a: string, b: string)
    requires AllDigits(a) && AllDigits(b)
    ensures forall i :: 0 <= i < |"s" + a + "e" + b| ==> ("s" + a + "e" + b)[i] != ':'
  {
    var rest := "s" + a + "e" + b;
    forall i | 0 <= i < |rest| ensures rest[i] != ':' {
      if 1 <= i <= |a| {
        assert rest[i] == a[i - 1];
      } else if i > |a| + 1 {
        assert rest[i] == b[i - |a| - 2];
      }
    }
  }

  /** The stats page recovers the show id, season and episode of every episode key it
      builds, as long as the show id is split-safe (stored ids such as `tv_1399` are). */
  lemma EpisodeKeyRoundTrip(id: string, season: nat, episode: nat)
    requires SplitSafe(id)
    ensures ParseEpisodeKey(EpisodeKey(id, season, episode)) == ParsedKey(id, Some((season, episode)))
  {
    SplitEpisodeKey(id, season, episode);
    EpisodePartRoundTrip(season, episode);
  }

  /** Distinct (show, season, episode) triples get distinct keys. */
  lemma EpisodeKeyInjective(id1: string, s1: nat, e1: nat, id2: string, s2: nat, e2: nat)
    requires SplitSafe(id1) && SplitSafe(id2)
    requires EpisodeKey(id1, s1, e1) == EpisodeKey(id2, s2, e2)
    ensures id1 == id2 && s1 == s2 && e1 == e2
  {
    EpisodeKeyRoundTrip(id1, s1, e1);
    EpisodeKeyRoundTrip(id2, s2, e2);
  }

  /** Without split-safety the parse loses the id: a show id ending in `:` is cut short
      and its episode part no longer matches. */
  lemma TrailingColonBreaksParse()
    ensures ParseEpisodeKey(EpisodeKey("a:", 1, 2)) == ParsedKey("a", None)
  {
    ColonKeyText();
    ColonKeySplit();
  }

  lemma ColonKeyText()
    ensures EpisodeKey("a:", 1, 2) == "a:::s1e2"
  {
    assert NatToString(1) == "1" && NatToString(2) == "2";
  }

  lemma ColonKeySplit()
    ensures SplitHead("a:::s1e2") == ("a", Some(":s1e2"))
  {
    var key := "a:::s1e2";
    assert key[0..2] == "a:" && key[1..3] == "::";
    assert IndexOf(key, "::", 1) == Some(1);
    assert IndexOf(key, "::", 0) == Some(1);
    var rest := key[3..];
    assert rest == ":s1e2";
    assert IndexOf(rest, "::", 0).None? by {
      forall j: nat ensures !OccursAt(rest, "::", j) {
        if j + 2 <= |rest| {
          assert rest[j + 1] != ':';
        }
      }
    }
    SplitHeadAt(key, 1);
    assert key[..1] == "a";
  }
}
