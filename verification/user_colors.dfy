/** Per-user chart colours (src/lib/user-colors.ts): six colour keys, their CSS values,
    and a stable default key chosen by the 32-bit FNV-1a hash of the user id (section 2 of
    the IETF draft draft-eastlake-fnv), computed over UTF-16 code units rather than bytes. */
module UserColors {
  import opened Wrappers

  /** `UserColorKey`. */
  datatype ColorKey = Chart1 | Chart2 | Chart3 | Chart4 | Chart5 | Destructive

  /** `USER_COLOR_KEYS`, in order. */
  const UserColorKeys: seq<ColorKey> := [Chart1, Chart2, Chart3, Chart4, Chart5, Destructive]

  /** The key's string value. */
  function KeyText(k: ColorKey): string
  {
    match k
    case Chart1 => "chart-1"
    case Chart2 => "chart-2"
    case Chart3 => "chart-3"
    case Chart4 => "chart-4"
    case Chart5 => "chart-5"
    case Destructive => "destructive"
  }

  /** The position of a key in `USER_COLOR_KEYS`. */
  function IndexOfKey(k: ColorKey): (i: nat)
    ensures i < |UserColorKeys| && UserColorKeys[i] == k
  {
    match k
    case Chart1 => 0
    case Chart2 => 1
    case Chart3 => 2
    case Chart4 => 3
    case Chart5 => 4
    case Destructive => 5
  }

  /** The six keys are distinct, so every key sits at exactly one position. */
  lemma ColorKeysDistinct()
    ensures |UserColorKeys| == 6
    ensures forall i, j :: 0 <= i < j < |UserColorKeys| ==> UserColorKeys[i] != UserColorKeys[j]
    ensures forall i :: 0 <= i < |UserColorKeys| ==> IndexOfKey(UserColorKeys[i]) == i
  {
  }

  /** `userColorKeyToCss`: `hsl(var(--<key>))`. */
  function Css(k: ColorKey): (css: string)
    ensures |css| > 13 && css[..10] == "hsl(var(--" && css[|css| - 2..] == "))"
    ensures css[10..|css| - 2] == KeyText(k)
  {
    var css := "hsl(var(--" + KeyText(k) + "))";
    assert css[10..|css| - 2] == KeyText(k);
    css
  }

  /** Distinct keys have distinct key strings and distinct CSS values. */
  lemma CssInjective(a: ColorKey, b: ColorKey)
    requires Css(a) == Css(b)
    ensures a == b
  {
    assert KeyText(a) == KeyText(b);
  }

  // ---------------------------------------------------------------- UTF-16 code units

  /** A UTF-16 code unit, what `charCodeAt` returns. */
  type CodeUnit = bv16

  /** The leading surrogate of a character above U+FFFF. */
  function HighSurrogate(cp: int): CodeUnit
    requires 0x1_0000 <= cp < 0x11_0000
  {
    (0xD800 + (cp - 0x1_0000) / 0x400) as bv16
  }

  /** The trailing surrogate of a character above U+FFFF. */
  function LowSurrogate(cp: int): CodeUnit
    requires 0x1_0000 <= cp < 0x11_0000
  {
    (0xDC00 + (cp - 0x1_0000) % 0x400) as bv16
  }

  /** The UTF-16 encoding of one character: itself below U+10000, a surrogate pair above. */
  function CharUnits(c: char): (us: seq<CodeUnit>)
    ensures 1 <= |us| <= 2
    ensures (c as int) < 0x1_0000 <==> |us| == 1
  {
    var cp := c as int;
    if cp < 0x1_0000 then [cp as bv16] else [HighSurrogate(cp), LowSurrogate(cp)]
  }

  /** The string as JavaScript indexes it. */
  function Utf16(s: string): (us: seq<CodeUnit>)
    ensures |us| >= |s|
  {
    if |s| == 0 then [] else Utf16(s[..|s| - 1]) + CharUnits(s[|s| - 1])
  }

  // ---------------------------------------------------------------- FNV-1a

  const FnvOffsetBasis: bv32 := 0x811c9dc5
  const FnvPrime: bv32 := 0x0100_0193

  /** One round: XOR in the unit, then multiply by the prime modulo 2^32 (`Math.imul`). */
  function FnvStep(h: bv32, u: CodeUnit): bv32
  {
    (h ^ (u as bv32)) * FnvPrime
  }

  /** FNV-1a over a sequence of code units, folded from the left. */
  function Fnv1a(us: seq<CodeUnit>): bv32
  {
    if |us| == 0 then FnvOffsetBasis else FnvStep(Fnv1a(us[..|us| - 1]), us[|us| - 1])
  }

  /** `hashStringFNV1a(input)`: the loop over `charCodeAt`, then `>>> 0`. */
  method HashStringFnv1a(input: string) returns (h: bv32)
    ensures h == Fnv1a(Utf16(input))
    ensures h as int < 0x1_0000_0000
  {
    var us := Utf16(input);
    h := FnvOffsetBasis;
    var i := 0;
    while i < |us|
      invariant 0 <= i <= |us|
      invariant h == Fnv1a(us[..i])
    {
      assert us[..i + 1][..i] == us[..i];
      h := FnvStep(h, us[i]);
      i := i + 1;
    }
    assert us[..|us|] == us;
  }

  /** The test vectors of the FNV draft for 32-bit FNV-1a: "" (the offset basis), "a" and
      "foobar", all of whose characters are single code units. */
  lemma FnvTestVectors()
    ensures Fnv1a(Utf16("")) == 0x811c9dc5
    ensures Fnv1a(Utf16("a")) == 0xe40c292c
    ensures Fnv1a(Utf16("foobar")) == 0xbf9cf968
  {
    UnitsOfA();
    UnitsOfFoobar();
    HashOfFoobar();
  }

  lemma UnitsOfA()
    ensures Utf16("a") == [97]
    ensures Fnv1a([97]) == 0xe40c292c
  {
    assert "a"[..0] == "";
    var us: seq<CodeUnit> := [97];
    assert us[..0] == [];
  }

  lemma UnitsOfFoobar()
    ensures Utf16("foobar") == [102, 111, 111, 98, 97, 114]
  {
    UnitsOfFoo();
    UnitsOfAr();
    assert "foobar"[..5] == "fooba" && "fooba"[..4] == "foob" && "foob"[..3] == "foo";
    assert Utf16("foob") == Utf16("foo") + [98];
    assert Utf16("fooba") == Utf16("foob") + [97];
    assert Utf16("foobar") == Utf16("fooba") + [114];
  }

  lemma UnitsOfFoo()
    ensures Utf16("foo") == [102, 111, 111] && CharUnits('b') == [98]
  {
    assert "foo"[..2] == "fo" && "fo"[..1] == "f" && "f"[..0] == "";
    assert ('f' as int) as bv16 == 102;
    assert ('o' as int) as bv16 == 111;
    assert ('b' as int) as bv16 == 98;
  }

  lemma UnitsOfAr()
    ensures CharUnits('a') == [97] && CharUnits('r') == [114]
  {
    assert ('a' as int) as bv16 == 97;
    assert ('r' as int) as bv16 == 114;
  }

  lemma HashOfFoobar()
    ensures Fnv1a([102, 111, 111, 98, 97, 114]) == 0xbf9cf968
  {
    var us: seq<CodeUnit> := [102, 111, 111, 98, 97, 114];
    assert us[..1][..0] == [] && us[..2][..1] == us[..1] && us[..3][..2] == us[..2];
    assert us[..4][..3] == us[..3] && us[..5][..4] == us[..4] && us[..5] == us[..|us| - 1];
    assert Fnv1a(us[..1]) == FnvStep(FnvOffsetBasis, 102) == 0xe30c2799;
    assert Fnv1a(us[..2]) == FnvStep(0xe30c2799, 111) == 0x6222e842;
    assert Fnv1a(us[..3]) == FnvStep(0x6222e842, 111) == 0xa9f37ed7;
    assert Fnv1a(us[..4]) == FnvStep(0xa9f37ed7, 98) == 0x3f5076ef;
    assert Fnv1a(us[..5]) == FnvStep(0x3f5076ef, 97) == 0x39aaa18a;
    assert Fnv1a(us) == FnvStep(0x39aaa18a, 114) == 0xbf9cf968;
  }

  /** Code units, not bytes: "\U{00E9}" hashes as the single unit 0xE9 (its UTF-8 bytes would
      be two). */
  lemma AccentIsOneUnit()
    ensures Utf16("\U{00E9}") == [0xE9]
    ensures Fnv1a(Utf16("\U{00E9}")) == 0x6c0b6c44
  {
    assert "\U{00E9}"[..0] == "";
    var e: seq<CodeUnit> := [0xE9];
    assert e[..0] == [];
    assert Fnv1a(e) == FnvStep(FnvOffsetBasis, 0xE9) == 0x6c0b6c44;
  }

  /** A character outside the Basic Multilingual Plane hashes as its two surrogates. */
  lemma EmojiIsTwoUnits()
    ensures Utf16("\U{1F600}") == [0xD83D, 0xDE00]
    ensures Fnv1a(Utf16("\U{1F600}")) == 0xcb31c4b8
  {
    UnitsOfEmoji();
    PairHash();
  }

  lemma UnitsOfEmoji()
    ensures Utf16("\U{1F600}") == [0xD83D, 0xDE00]
  {
    var s := "\U{1F600}";
    assert s[..0] == "" && s[0] == '\U{1F600}';
    EmojiSurrogates();
    assert Utf16(s) == Utf16("") + CharUnits('\U{1F600}');
  }

  lemma EmojiSurrogates()
    ensures CharUnits('\U{1F600}') == [0xD83D, 0xDE00]
  {
    EmojiHigh();
    EmojiLow();
  }

  lemma EmojiHigh()
    ensures HighSurrogate(0x1F600) == 0xD83D
  {
    assert 0xD800 + (0x1F600 - 0x1_0000) / 0x400 == 0xD83D;
  }

  lemma EmojiLow()
    ensures LowSurrogate(0x1F600) == 0xDE00
  {
    assert 0xDC00 + (0x1F600 - 0x1_0000) % 0x400 == 0xDE00;
  }

  lemma PairHash()
    ensures Fnv1a([0xD83D, 0xDE00]) == 0xcb31c4b8
  {
    var pair: seq<CodeUnit> := [0xD83D, 0xDE00];
    assert pair[..1] == [0xD83D] && pair[..1][..0] == [];
    assert Fnv1a(pair[..1]) == FnvStep(FnvOffsetBasis, 0xD83D) == 0x37822568;
    assert Fnv1a(pair) == FnvStep(0x37822568, 0xDE00) == 0xcb31c4b8;
  }

  // ---------------------------------------------------------------- stable keys

  /** `getStableColorKey(seed)`: `seed || ''` hashed, taken modulo 6. */
  function StableKey(seed: Option<string>): (k: ColorKey)
    ensures k in UserColorKeys
    ensures k == UserColorKeys[Fnv1a(Utf16(seed.GetOr(""))) as int % |UserColorKeys|]
  {
    UserColorKeys[Fnv1a(Utf16(seed.GetOr(""))) as int % |UserColorKeys|]
  }

  /** `null`, `undefined` and `''` all get `chart-2`: 2166136261 mod 6 is 1. */
  lemma EmptySeedIsChart2()
    ensures StableKey(None) == Chart2
    ensures StableKey(Some("")) == Chart2
  {
    assert Utf16("") == [];
    assert (0x811c9dc5 as bv32) as int % 6 == 1;
  }

  /** `getUserChartColor`: the stored key when there is one, the stable key otherwise. */
  function UserChartColor(uid: Option<string>, colorKey: Option<ColorKey>): (css: string)
    ensures colorKey.Some? ==> css == Css(colorKey.value)
    ensures colorKey.None? ==> css == Css(StableKey(uid))
  {
    Css(colorKey.GetOr(StableKey(uid)))
  }

  /** Without a stored key, every user id maps to one of the six colours, and users whose ids
      hash alike share it. */
  lemma ChartColorIsAKeyColor(uid: Option<string>, colorKey: Option<ColorKey>)
    ensures exists k :: k in UserColorKeys && UserChartColor(uid, colorKey) == Css(k)
  {
    var k := colorKey.GetOr(StableKey(uid));
    assert k == UserColorKeys[IndexOfKey(k)];
  }
}
