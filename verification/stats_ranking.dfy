/** The per-dimension rankings of the stats page (src/pages/StatsPage.tsx:193-197): the
    rows with at least one viewing, sorted by one dimension's average from highest to
    lowest with `Array.prototype.sort` (stable, so ties keep their order), cut to ten. */
module StatsRanking {
  import opened Types
  import opened Text
  import opened RatingUtils
  import opened StatsRows

  /** The value a tab sorts by: `r.averages[key]`. */
  function Value(r: Row, k: Key): real
  {
    Get(r.averages, k)
  }

  /** `rows.filter(r => r.count > 0)`. */
  function Positive(rows: seq<Row>): (kept: seq<Row>)
    ensures |kept| <= |rows|
    ensures forall i :: 0 <= i < |kept| ==> kept[i].count > 0
    ensures forall r :: r in kept <==> r in rows && r.count > 0
  {
    if |rows| == 0 then []
    else if rows[0].count > 0 then [rows[0]] + Positive(rows[1..])
    else Positive(rows[1..])
  }

  /** The filter works piecewise: filtering a concatenation filters each part, so the
      kept rows stay in input order and each is kept exactly as often as it occurs. */
  lemma {:induction false} PositiveAppend(a: seq<Row>, b: seq<Row>)
    ensures Positive(a + b) == Positive(a) + Positive(b)
  {
    if |a| > 0 {
      assert (a + b)[1..] == a[1..] + b;
      PositiveAppend(a[1..], b);
    } else {
      assert a + b == b;
    }
  }

  /** Every row with a viewing is kept as often as it occurs in the input, and no other
      row is kept; so a tab's length is bounded by the number of such input rows. */
  lemma {:induction false} PositiveMultiplicity(rows: seq<Row>, r: Row)
    ensures multiset(Positive(rows))[r] == if r.count > 0 then multiset(rows)[r] else 0
  {
    if |rows| > 0 {
      var h, t := rows[0], rows[1..];
      assert rows == [h] + t;
      PositiveAppend([h], t);
      PositiveOfOne(h);
      PositiveMultiplicity(t, r);
      assert multiset(rows) == multiset([h]) + multiset(t);
      assert multiset(Positive(rows)) == multiset(Positive([h])) + multiset(Positive(t));
    }
  }

  /** A single row is kept exactly when it has a viewing. */
  lemma PositiveOfOne(r: Row)
    ensures Positive([r]) == if r.count > 0 then [r] else []
  {
  }

  /** Non-increasing in dimension `k`. */
  ghost predicate Sorted(s: seq<Row>, k: Key)
  {
    forall i, j :: 0 <= i < j < |s| ==> Value(s[i], k) >= Value(s[j], k)
  }

  /** The rows whose `k` value is exactly `v`, in their order: the order a stable sort
      must keep among ties. */
  function WithValue(s: seq<Row>, k: Key, v: real): seq<Row>
  {
    if |s| == 0 then []
    else (if Value(s[0], k) == v then [s[0]] else []) + WithValue(s[1..], k, v)
  }

  /** Filtering and picking the ties of one value commute: the ties among the kept rows
      are the kept rows among the ties, in input order. */
  lemma {:induction false} PositiveWithValue(rows: seq<Row>, k: Key, v: real)
    ensures WithValue(Positive(rows), k, v) == Positive(WithValue(rows, k, v))
  {
    if |rows| > 0 {
      var r, rest := rows[0], rows[1..];
      PositiveWithValue(rest, k, v);
      var tie := if Value(r, k) == v then [r] else [];
      assert WithValue(rows, k, v) == tie + WithValue(rest, k, v);
      PositiveAppend(tie, WithValue(rest, k, v));
      if r.count > 0 {
        assert Positive(rows) == [r] + Positive(rest);
        assert WithValue([r] + Positive(rest), k, v) == tie + WithValue(Positive(rest), k, v) by {
          assert ([r] + Positive(rest))[1..] == Positive(rest);
        }
      } else {
        assert Positive(tie) == [];
      }
    }
  }

  // ---------------------------------------------------------------- the sort

  /** Places `x` after every row whose value is at least its own and before the first
      row with a smaller value; on a sorted list this is where a stable sort puts a
      row that came after all of them. */
  function Insert(s: seq<Row>, x: Row, k: Key): (s': seq<Row>)
    ensures |s'| == |s| + 1
  {
    if |s| == 0 then [x]
    else if Value(s[0], k) < Value(x, k) then [x] + s
    else [s[0]] + Insert(s[1..], x, k)
  }

  /** Inserting adds `x` and loses nothing. */
  lemma {:induction false} InsertPermutes(s: seq<Row>, x: Row, k: Key)
    ensures multiset(Insert(s, x, k)) == multiset(s) + multiset{x}
  {
    if |s| > 0 && Value(s[0], k) >= Value(x, k) {
      InsertPermutes(s[1..], x, k);
      assert s == [s[0]] + s[1..];
    }
  }

  /** `.sort((a, b) => b.averages[key] - a.averages[key])`. */
  function SortDesc(rows: seq<Row>, k: Key): (s: seq<Row>)
    ensures |s| == |rows| && multiset(s) == multiset(rows)
  {
    if |rows| == 0 then []
    else
      assert rows == rows[..|rows| - 1] + [rows[|rows| - 1]];
      InsertPermutes(SortDesc(rows[..|rows| - 1], k), rows[|rows| - 1], k);
      Insert(SortDesc(rows[..|rows| - 1], k), rows[|rows| - 1], k)
  }

  /** No value in `s` exceeds `b`. */
  ghost predicate AtMost(s: seq<Row>, k: Key, b: real)
  {
    forall i :: 0 <= i < |s| ==> Value(s[i], k) <= b
  }

  lemma {:induction false} InsertAtMost(s: seq<Row>, x: Row, k: Key, b: real)
    requires AtMost(s, k, b) && Value(x, k) <= b
    ensures AtMost(Insert(s, x, k), k, b)
  {
    if |s| > 0 && Value(s[0], k) >= Value(x, k) {
      InsertAtMost(s[1..], x, k, b);
      var ins := [s[0]] + Insert(s[1..], x, k);
      assert forall i :: 1 <= i < |ins| ==> ins[i] == Insert(s[1..], x, k)[i - 1];
    }
  }

  lemma {:induction false} InsertSorted(s: seq<Row>, x: Row, k: Key)
    requires Sorted(s, k)
    ensures Sorted(Insert(s, x, k), k)
  {
    if |s| > 0 && Value(s[0], k) >= Value(x, k) {
      SortedTail(s, k);
      InsertSorted(s[1..], x, k);
      var t := Insert(s[1..], x, k);
      assert AtMost(s[1..], k, Value(s[0], k)) by {
        assert forall i :: 0 <= i < |s[1..]| ==> s[1..][i] == s[i + 1];
      }
      InsertAtMost(s[1..], x, k, Value(s[0], k));
      var ins := [s[0]] + t;
      assert forall i :: 1 <= i < |ins| ==> ins[i] == t[i - 1];
    } else if |s| > 0 {
      var ins := [x] + s;
      assert forall i :: 1 <= i < |ins| ==> ins[i] == s[i - 1];
    }
  }

  /** The sort's output is non-increasing in the chosen dimension. */
  lemma {:induction false} SortDescSorted(rows: seq<Row>, k: Key)
    ensures Sorted(SortDesc(rows, k), k)
  {
    if |rows| > 0 {
      SortDescSorted(rows[..|rows| - 1], k);
      InsertSorted(SortDesc(rows[..|rows| - 1], k), rows[|rows| - 1], k);
    }
  }

  lemma {:induction false} WithValueAppend(a: seq<Row>, b: seq<Row>, k: Key, v: real)
    ensures WithValue(a + b, k, v) == WithValue(a, k, v) + WithValue(b, k, v)
  {
    if |a| > 0 {
      var ab := a + b;
      assert ab[0] == a[0] && ab[1..] == a[1..] + b;
      WithValueAppend(a[1..], b, k, v);
      var head := if Value(a[0], k) == v then [a[0]] else [];
      assert WithValue(ab, k, v) == head + WithValue(a[1..] + b, k, v);
      assert WithValue(a, k, v) == head + WithValue(a[1..], k, v);
      assert head + (WithValue(a[1..], k, v) + WithValue(b, k, v)) == (head + WithValue(a[1..], k, v)) + WithValue(b, k, v);
    } else {
      assert a + b == b;
    }
  }

  /** In a sorted list whose head is smaller than `v`, nothing has value `v`. */
  lemma {:induction false} NoneAboveHead(s: seq<Row>, k: Key, v: real)
    requires Sorted(s, k) && |s| > 0 && Value(s[0], k) < v
    ensures WithValue(s, k, v) == []
  {
    if |s| > 1 {
      NoneAboveHead(s[1..], k, v);
    }
  }

  /** Inserting `x` appends it to its own tie group and changes no other group. */
  lemma {:induction false} InsertStable(s: seq<Row>, x: Row, k: Key, v: real)
    requires Sorted(s, k)
    ensures WithValue(Insert(s, x, k), k, v) == WithValue(s, k, v) + (if Value(x, k) == v then [x] else [])
  {
    if |s| == 0 {
      assert [x][1..] == [];
    } else if Value(s[0], k) < Value(x, k) {
      InsertInFront(s, x, k, v);
    } else {
      SortedTail(s, k);
      InsertStable(s[1..], x, k, v);
      InsertBehind(s, x, k, v);
    }
  }

  lemma SortedTail(s: seq<Row>, k: Key)
    requires Sorted(s, k) && |s| > 0
    ensures Sorted(s[1..], k)
  {
    forall i, j | 0 <= i < j < |s[1..]| ensures Value(s[1..][i], k) >= Value(s[1..][j], k) {
      assert s[1..][i] == s[i + 1] && s[1..][j] == s[j + 1];
    }
  }

  lemma InsertInFront(s: seq<Row>, x: Row, k: Key, v: real)
    requires Sorted(s, k) && |s| > 0 && Value(s[0], k) < Value(x, k)
    ensures WithValue(Insert(s, x, k), k, v) == WithValue(s, k, v) + (if Value(x, k) == v then [x] else [])
  {
    var ins := [x] + s;
    assert ins[1..] == s;
    if Value(x, k) == v {
      NoneAboveHead(s, k, v);
    }
  }

  lemma InsertBehind(s: seq<Row>, x: Row, k: Key, v: real)
    requires |s| > 0 && Value(s[0], k) >= Value(x, k)
    requires WithValue(Insert(s[1..], x, k), k, v) == WithValue(s[1..], k, v) + (if Value(x, k) == v then [x] else [])
    ensures WithValue(Insert(s, x, k), k, v) == WithValue(s, k, v) + (if Value(x, k) == v then [x] else [])
  {
    var rest := Insert(s[1..], x, k);
    var ins := [s[0]] + rest;
    assert Insert(s, x, k) == ins;
    assert ins[0] == s[0] && ins[1..] == rest;
    var head := if Value(s[0], k) == v then [s[0]] else [];
    var own := if Value(x, k) == v then [x] else [];
    assert WithValue(ins, k, v) == head + WithValue(rest, k, v);
    assert WithValue(s, k, v) == head + WithValue(s[1..], k, v);
    assert head + (WithValue(s[1..], k, v) + own) == (head + WithValue(s[1..], k, v)) + own;
  }

  /** Stability: within each group of equal values the sort keeps the input order. */
  lemma {:induction false} SortDescStable(rows: seq<Row>, k: Key, v: real)
    ensures WithValue(SortDesc(rows, k), k, v) == WithValue(rows, k, v)
  {
    if |rows| > 0 {
      var p := rows[..|rows| - 1];
      var x := rows[|rows| - 1];
      assert rows == p + [x];
      assert [x][1..] == [];
      var sp := SortDesc(p, k);
      var tail := if Value(x, k) == v then [x] else [];
      SortDescSorted(p, k);
      SortDescUnfold(rows, k);
      calc {
        WithValue(SortDesc(rows, k), k, v);
        WithValue(Insert(sp, x, k), k, v);
        { InsertStable(sp, x, k, v); }
        WithValue(sp, k, v) + tail;
        { SortDescStable(p, k, v); }
        WithValue(p, k, v) + WithValue([x], k, v);
        { WithValueAppend(p, [x], k, v); }
        WithValue(rows, k, v);
      }
    }
  }

  /** A row belongs to its own tie group. */
  lemma HeadInOwnGroup(s: seq<Row>, k: Key)
    requires |s| > 0
    ensures WithValue(s, k, Value(s[0], k)) != []
  {
  }

  /** The sort's last step: the last row inserted into the sorted rest. */
  lemma SortDescUnfold(rows: seq<Row>, k: Key)
    requires |rows| > 0
    ensures SortDesc(rows, k) == Insert(SortDesc(rows[..|rows| - 1], k), rows[|rows| - 1], k)
  {
  }

  /** The reference definition the sort meets: a list that is sorted and keeps every
      tie group of the input in order is the sort's output, and nothing else is. */
  lemma {:induction false} SortedStableIsUnique(s: seq<Row>, t: seq<Row>, k: Key)
    requires Sorted(s, k) && Sorted(t, k)
    requires forall v :: WithValue(s, k, v) == WithValue(t, k, v)
    ensures s == t
  {
    if |s| > 0 {
      HeadInOwnGroup(s, k);
    }
    if |t| > 0 {
      HeadInOwnGroup(t, k);
    }
    if |s| > 0 && |t| > 0 {
      SortedHeadsAgree(s, t, k);
      TailGroupsAgree(s, t, k);
      SortedTail(s, k);
      SortedTail(t, k);
      SortedStableIsUnique(s[1..], t[1..], k);
      assert s == [s[0]] + s[1..] && t == [t[0]] + t[1..];
    }
  }

  /** Two sorted lists with the same tie groups start with the same row. */
  lemma SortedHeadsAgree(s: seq<Row>, t: seq<Row>, k: Key)
    requires |s| > 0 && |t| > 0 && Sorted(s, k) && Sorted(t, k)
    requires forall v :: WithValue(s, k, v) == WithValue(t, k, v)
    ensures s[0] == t[0]
  {
    var v0 := Value(s[0], k);
    HeadInOwnGroup(s, k);
    HeadInOwnGroup(t, k);
    assert Value(t[0], k) == v0 by {
      if Value(t[0], k) < v0 {
        NoneAboveHead(t, k, v0);
      } else if v0 < Value(t[0], k) {
        NoneAboveHead(s, k, Value(t[0], k));
      }
    }
    assert WithValue(s, k, v0)[0] == s[0];
    assert WithValue(t, k, v0)[0] == t[0];
    assert WithValue(s, k, v0) == WithValue(t, k, v0);
  }

  /** Lists with the same head and the same tie groups have tails with the same tie groups. */
  lemma TailGroupsAgree(s: seq<Row>, t: seq<Row>, k: Key)
    requires |s| > 0 && |t| > 0 && s[0] == t[0]
    requires forall v :: WithValue(s, k, v) == WithValue(t, k, v)
    ensures forall v :: WithValue(s[1..], k, v) == WithValue(t[1..], k, v)
  {
    forall v ensures WithValue(s[1..], k, v) == WithValue(t[1..], k, v) {
      var h := if Value(s[0], k) == v then [s[0]] else [];
      assert WithValue(s, k, v) == h + WithValue(s[1..], k, v);
      assert WithValue(t, k, v) == h + WithValue(t[1..], k, v);
      assert WithValue(s, k, v) == WithValue(t, k, v);
      assert WithValue(s[1..], k, v) == (h + WithValue(s[1..], k, v))[|h|..];
      assert WithValue(t[1..], k, v) == (h + WithValue(t[1..], k, v))[|h|..];
    }
  }

  /** Hence the sort is the unique stable, non-increasing arrangement of the rows. */
  lemma SortDescIsTheStableSort(rows: seq<Row>, t: seq<Row>, k: Key)
    requires Sorted(t, k) && forall v :: WithValue(t, k, v) == WithValue(rows, k, v)
    ensures SortDesc(rows, k) == t
  {
    SortDescSorted(rows, k);
    forall v ensures WithValue(SortDesc(rows, k), k, v) == WithValue(t, k, v) {
      SortDescStable(rows, k, v);
    }
    SortedStableIsUnique(SortDesc(rows, k), t, k);
  }

  // ---------------------------------------------------------------- the tabs

  /** How many rows a tab shows at most. */
  const TopN: nat := 10

  /** `[...rows].filter(r => r.count > 0).sort(...).slice(0, 10)`. */
  function Ranking(rows: seq<Row>, k: Key): (top: seq<Row>)
    ensures |top| == if |Positive(rows)| < TopN then |Positive(rows)| else TopN
    ensures forall i :: 0 <= i < |top| ==> top[i].count > 0 && top[i] in rows
  {
    var sorted := SortDesc(Positive(rows), k);
    var n := if |sorted| < TopN then |sorted| else TopN;
    forall i | 0 <= i < n ensures sorted[i].count > 0 && sorted[i] in rows {
      assert sorted[i] in multiset(Positive(rows));
    }
    sorted[..n]
  }

  /** In a sorted list, every element left after a prefix ranks no higher than any
      element of the prefix. */
  lemma PrefixDominatesRest(sorted: seq<Row>, n: nat, k: Key)
    requires Sorted(sorted, k) && n <= |sorted|
    ensures forall x, t :: x in multiset(sorted) - multiset(sorted[..n]) && t in sorted[..n]
              ==> Value(t, k) >= Value(x, k)
  {
    assert sorted == sorted[..n] + sorted[n..];
    assert multiset(sorted) == multiset(sorted[..n]) + multiset(sorted[n..]);
    forall x, t | x in multiset(sorted) - multiset(sorted[..n]) && t in sorted[..n]
      ensures Value(t, k) >= Value(x, k)
    {
      assert x in multiset(sorted[n..]);
      var j :| 0 <= j < |sorted[n..]| && sorted[n..][j] == x;
      var i :| 0 <= i < n && sorted[..n][i] == t;
      assert sorted[i] == t && sorted[n + j] == x;
    }
  }

  /** A tab is non-increasing, and every qualifying row left off it ranks no higher
      than any row shown. */
  lemma RankingIsTop(rows: seq<Row>, k: Key)
    ensures Sorted(Ranking(rows, k), k)
    ensures forall x, t :: x in multiset(Positive(rows)) - multiset(Ranking(rows, k)) && t in Ranking(rows, k)
              ==> Value(t, k) >= Value(x, k)
  {
    var sorted := SortDesc(Positive(rows), k);
    SortDescSorted(Positive(rows), k);
    PrefixDominatesRest(sorted, |Ranking(rows, k)|, k);
    assert Ranking(rows, k) == sorted[..|Ranking(rows, k)|];
  }

  /** Ties keep their input order: the rows sorted to value `v` are the input rows of that
      value with a viewing, in the order the page received them, and a tab shows a prefix
      of them. */
  lemma RankingKeepsTieOrder(rows: seq<Row>, k: Key, v: real)
    ensures WithValue(SortDesc(Positive(rows), k), k, v) == Positive(WithValue(rows, k, v))
    ensures exists rest :: Positive(WithValue(rows, k, v)) == WithValue(Ranking(rows, k), k, v) + rest
  {
    var sorted := SortDesc(Positive(rows), k);
    SortDescStable(Positive(rows), k, v);
    PositiveWithValue(rows, k, v);
    RankingIsPrefix(rows, k);
    var n := |Ranking(rows, k)|;
    WithValueSplit(sorted, n, k, v);
    var rest := WithValue(sorted[n..], k, v);
    assert Positive(WithValue(rows, k, v)) == WithValue(Ranking(rows, k), k, v) + rest;
  }

  /** A tab is the start of the sorted qualifying rows. */
  lemma RankingIsPrefix(rows: seq<Row>, k: Key)
    ensures |Ranking(rows, k)| <= |SortDesc(Positive(rows), k)|
    ensures Ranking(rows, k) == SortDesc(Positive(rows), k)[..|Ranking(rows, k)|]
  {
  }

  lemma WithValueSplit(s: seq<Row>, n: nat, k: Key, v: real)
    requires n <= |s|
    ensures WithValue(s, k, v) == WithValue(s[..n], k, v) + WithValue(s[n..], k, v)
  {
    assert s == s[..n] + s[n..];
    WithValueAppend(s[..n], s[n..], k, v);
  }

  /** One tab per dimension of `RATING_KEYS`, each cut from the same rows. */
  function RankingTabs(rows: seq<Row>): (tabs: seq<seq<Row>>)
    ensures |tabs| == |RatedKeys|
    ensures forall i :: 0 <= i < |RatedKeys| ==> tabs[i] == Ranking(rows, RatedKeys[i])
  {
    seq(|RatedKeys|, i requires 0 <= i < |RatedKeys| => Ranking(rows, RatedKeys[i]))
  }

  /** There are nine tabs, the first (shown by default) ranks the overall score, and no
      tab ranks `enjoyment`. */
  lemma RankingTabsShape(rows: seq<Row>)
    ensures |RankingTabs(rows)| == 9
    ensures RankingTabs(rows)[0] == Ranking(rows, Overall)
    ensures Enjoyment !in RatedKeys
  {
    RatedKeysShape();
    var tabs := RankingTabs(rows);
    assert |RatedKeys| == 9 && RatedKeys[0] == Overall;
    assert tabs[0] == Ranking(rows, RatedKeys[0]);
  }

  /** The badge under each ranked title: `${count} log${count === 1 ? '' : 's'}`. */
  function LogsBadge(count: nat): (badge: string)
    ensures StartsWith(badge, NatToString(count))
    ensures badge[|badge| - 1] == 's' <==> count != 1
  {
    var b := NatToString(count) + " log" + (if count == 1 then "" else "s");
    assert b[..|NatToString(count)|] == NatToString(count);
    b
  }
}
