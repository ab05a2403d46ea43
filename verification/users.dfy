/** The colour-key assignment of `ensureColorKey` (src/services/users.ts:29-63) as a pure
    function of the caller's uid, the colour key stored on the caller's profile and the
    profiles of all users; the Firestore reads are these parameters and the write is part
    of the result. */
module Users {
  import opened Wrappers
  import opened UserColors

  /** `USER_COLOR_KEYS.includes(text)`, giving the key the text names. */
  function ParseColorKey(text: string): (k: Option<ColorKey>)
    ensures k.Some? ==> KeyText(k.value) == text
  {
    if text == "chart-1" then Some(Chart1)
    else if text == "chart-2" then Some(Chart2)
    else if text == "chart-3" then Some(Chart3)
    else if text == "chart-4" then Some(Chart4)
    else if text == "chart-5" then Some(Chart5)
    else if text == "destructive" then Some(Destructive)
    else None
  }

  /** Every key's text is recognised as that key. */
  lemma ParseKeyText(k: ColorKey)
    ensures ParseColorKey(KeyText(k)) == Some(k)
  {
  }

  /** `(data.colorKey ?? null)` filtered by `USER_COLOR_KEYS.includes`. */
  function ValidKey(stored: Option<string>): Option<ColorKey>
  {
    match stored
    case None => None
    case Some(t) => ParseColorKey(t)
  }

  /** One document of the `users` collection: its id and stored `colorKey`, if any. */
  datatype UserDoc = UserDoc(id: string, colorKey: Option<string>)

  /** The `used` set: valid keys of every profile other than the caller's. */
  function UsedKeys(uid: string, docs: seq<UserDoc>): (used: set<ColorKey>)
    ensures forall k :: k in used <==> exists i :: 0 <= i < |docs| && docs[i].id != uid && ValidKey(docs[i].colorKey) == Some(k)
  {
    if |docs| == 0 then {}
    else
      var rest := UsedKeys(uid, docs[..|docs| - 1]);
      var d := docs[|docs| - 1];
      assert forall i :: 0 <= i < |docs| - 1 ==> docs[..|docs| - 1][i] == docs[i];
      if d.id != uid && ValidKey(d.colorKey).Some? then rest + {ValidKey(d.colorKey).value} else rest
  }

  /** `USER_COLOR_KEYS.indexOf(getStableColorKey(uid))`, always a real position. */
  function StartIndex(uid: string): (i: nat)
    ensures i < |UserColorKeys| && UserColorKeys[i] == StableKey(Some(uid))
  {
    IndexOfKey(StableKey(Some(uid)))
  }

  /** The key `offset` steps after `start`, wrapping around. */
  function KeyAt(start: nat, offset: nat): ColorKey
  {
    UserColorKeys[(start + offset) % |UserColorKeys|]
  }

  /** How many steps after `start` the scan reaches `k`. */
  function Offset(start: nat, k: ColorKey): nat
  {
    (IndexOfKey(k) + |UserColorKeys| - start) % |UserColorKeys|
  }

  /** The scan reaches the key `offset` steps on after exactly `offset` steps. */
  lemma OffsetOfKeyAt(start: nat, offset: nat)
    requires start < |UserColorKeys| && offset < |UserColorKeys|
    ensures Offset(start, KeyAt(start, offset)) == offset
  {
    ColorKeysDistinct();
  }

  /** The scan from `offset` on: the first key not in `used`, or `fallback` after six. */
  function ScanFrom(start: nat, used: set<ColorKey>, offset: nat, fallback: ColorKey): ColorKey
    decreases |UserColorKeys| - offset
  {
    if offset >= |UserColorKeys| then fallback
    else if KeyAt(start, offset) !in used then KeyAt(start, offset)
    else ScanFrom(start, used, offset + 1, fallback)
  }

  /** The `for` loop over offsets 0..5 with `break`, starting from `USER_COLOR_KEYS[start]`. */
  method PickKey(start: nat, used: set<ColorKey>) returns (picked: ColorKey)
    requires start < |UserColorKeys|
    ensures picked == ScanFrom(start, used, 0, UserColorKeys[start])
    ensures picked !in used || picked == UserColorKeys[start]
    ensures picked in used ==> forall d :: 0 <= d < |UserColorKeys| ==> KeyAt(start, d) in used
    ensures picked !in used ==> forall e :: 0 <= e < Offset(start, picked) ==> KeyAt(start, e) in used
  {
    picked := UserColorKeys[start];
    var offset := 0;
    while offset < |UserColorKeys|
      invariant 0 <= offset <= |UserColorKeys|
      invariant forall e :: 0 <= e < offset ==> KeyAt(start, e) in used
      invariant ScanFrom(start, used, 0, UserColorKeys[start]) == ScanFrom(start, used, offset, UserColorKeys[start])
      invariant picked == UserColorKeys[start]
    {
      var candidate := KeyAt(start, offset);
      if candidate !in used {
        OffsetOfKeyAt(start, offset);
        picked := candidate;
        return;
      }
      offset := offset + 1;
    }
  }

  /** What `ensureColorKey` returns, and the key it writes to the caller's profile, if any. */
  datatype Assignment = Assignment(key: ColorKey, written: Option<ColorKey>)

  /** `ensureColorKey(uid)`. */
  function EnsureColorKey(uid: string, stored: Option<string>, docs: seq<UserDoc>): (a: Assignment)
    ensures uid == "" ==> a == Assignment(StableKey(Some("")), None)
    ensures uid != "" && ValidKey(stored).Some? ==> a == Assignment(ValidKey(stored).value, None)
    ensures uid != "" && ValidKey(stored).None? ==> a.written == Some(a.key)
  {
    if uid == "" then Assignment(StableKey(Some(uid)), None)
    else match ValidKey(stored)
      case Some(k) => Assignment(k, None)
      case None =>
        var start := StartIndex(uid);
        var picked := ScanFrom(start, UsedKeys(uid, docs), 0, UserColorKeys[start]);
        Assignment(picked, Some(picked))
  }

  // ---------------------------------------------------------------- properties

  lemma {:induction false} ScanFindsFree(start: nat, used: set<ColorKey>, offset: nat, fallback: ColorKey)
    ensures var k := ScanFrom(start, used, offset, fallback);
            k !in used || k == fallback
    ensures (exists d :: offset <= d < |UserColorKeys| && KeyAt(start, d) !in used)
              ==> ScanFrom(start, used, offset, fallback) !in used
    decreases |UserColorKeys| - offset
  {
    if offset < |UserColorKeys| && KeyAt(start, offset) in used {
      ScanFindsFree(start, used, offset + 1, fallback);
    }
  }

  /** Walking six steps from any start visits every key. */
  lemma ScanCoversAllKeys(start: nat, k: ColorKey)
    requires start < |UserColorKeys|
    ensures Offset(start, k) < |UserColorKeys| && KeyAt(start, Offset(start, k)) == k
  {
  }

  /** With fewer than six keys in use there is a free one. */
  lemma FreeKeyExists(used: set<ColorKey>)
    requires |used| < |UserColorKeys|
    ensures exists k :: k !in used
  {
    var all := {Chart1, Chart2, Chart3, Chart4, Chart5, Destructive};
    assert |all| == 6;
    assert forall k: ColorKey :: k in all by {
      forall k: ColorKey ensures k in all {
        match k
        case Chart1 =>
        case Chart2 =>
        case Chart3 =>
        case Chart4 =>
        case Chart5 =>
        case Destructive =>
      }
    }
    assert all + used == all && all * used == used && used - all == {};
    assert |all - used| > 0;
    var k :| k in all - used;
  }

  /** A newly assigned key avoids every key another user holds, as long as fewer than six
      keys are taken. */
  lemma NewKeyAvoidsOthers(uid: string, stored: Option<string>, docs: seq<UserDoc>)
    requires uid != "" && ValidKey(stored).None?
    requires |UsedKeys(uid, docs)| < |UserColorKeys|
    ensures var a := EnsureColorKey(uid, stored, docs);
            forall i :: 0 <= i < |docs| && docs[i].id != uid ==> ValidKey(docs[i].colorKey) != Some(a.key)
  {
    var used := UsedKeys(uid, docs);
    var start := StartIndex(uid);
    FreeKeyExists(used);
    var k :| k !in used;
    ScanCoversAllKeys(start, k);
    ScanFindsFree(start, used, 0, UserColorKeys[start]);
  }

  /** With all six keys taken the caller gets its stable key. */
  lemma AllTakenFallsBackToStable(uid: string, stored: Option<string>, docs: seq<UserDoc>)
    requires uid != "" && ValidKey(stored).None?
    requires forall k :: k in UsedKeys(uid, docs)
    ensures EnsureColorKey(uid, stored, docs) == Assignment(StableKey(Some(uid)), Some(StableKey(Some(uid))))
  {
    ScanFindsFree(StartIndex(uid), UsedKeys(uid, docs), 0, UserColorKeys[StartIndex(uid)]);
  }

  /** The caller's own profile never counts as taken, so a lone user keeps the stable key. */
  lemma OwnProfileIsIgnored(uid: string, stored: Option<string>, own: Option<string>)
    requires uid != "" && ValidKey(stored).None?
    ensures EnsureColorKey(uid, stored, [UserDoc(uid, own)]) == Assignment(StableKey(Some(uid)), Some(StableKey(Some(uid))))
  {
    var docs := [UserDoc(uid, own)];
    assert docs[..0] == [];
    assert UsedKeys(uid, docs) == {};
    ScanOfNothingUsed(StartIndex(uid));
  }

  lemma ScanOfNothingUsed(start: nat)
    requires start < |UserColorKeys|
    ensures ScanFrom(start, {}, 0, UserColorKeys[start]) == UserColorKeys[start]
  {
    assert (start + 0) % |UserColorKeys| == start;
    assert KeyAt(start, 0) == UserColorKeys[start];
  }

  /** The assignment settles: once written, the next call returns the same key and writes
      nothing. */
  lemma AssignmentIsStable(uid: string, stored: Option<string>, docs: seq<UserDoc>, later: seq<UserDoc>)
    requires uid != ""
    ensures var a := EnsureColorKey(uid, stored, docs);
            a.written.Some? ==> EnsureColorKey(uid, Some(KeyText(a.key)), later) == Assignment(a.key, None)
  {
    ParseKeyText(EnsureColorKey(uid, stored, docs).key);
  }

  /** An empty uid reads nothing and writes nothing: it gets `chart-2`. */
  lemma EmptyUidGetsChart2(stored: Option<string>, docs: seq<UserDoc>)
    ensures EnsureColorKey("", stored, docs) == Assignment(Chart2, None)
  {
    EmptySeedIsChart2();
  }
}
