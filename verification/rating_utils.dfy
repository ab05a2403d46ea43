/** The list of ranked rating dimensions and the playful label shown for a rating
    value (src/lib/rating-utils.ts). */
module RatingUtils {
  import opened Types

  /** The dimensions of `RATING_KEYS`: the nine shown in sliders and rankings, in display order. */
  const RatedKeys: seq<Key> := [Overall, Jump, Dread, Gore, Atmosphere, Story, Rewatch, Wtf, Cozy]

  /** The tab and slider caption `RATING_KEYS` gives a dimension; `enjoyment` has none. */
  function Caption(k: Key): string
  {
    match k
    case Overall => "\U{2B50} Overall Scare"
    case Jump => "\U{1F4A5} Jump Scares"
    case Dread => "\U{1F62C} Dread / Tension"
    case Gore => "\U{1FA78} Gore / Visceral Stuff"
    case Atmosphere => "\U{1F32B}\U{FE0F} Atmosphere"
    case Story => "\U{1F4DA} Story"
    case Rewatch => "\U{1F501} Rewatchability"
    case Wtf => "\U{1F92F} WTF Factor"
    case Cozy => "\U{1F383} Cozy / Fun"
    case Enjoyment => ""
  }

  /** `RATING_KEYS` lists nine distinct dimensions, starts with `overall` and leaves out
      exactly `enjoyment`. */
  lemma RatedKeysShape()
    ensures |RatedKeys| == 9 && RatedKeys[0] == Overall
    ensures forall i, j :: 0 <= i < j < |RatedKeys| ==> RatedKeys[i] != RatedKeys[j]
    ensures forall k :: k in RatedKeys <==> k != Enjoyment
  {
    assert RatedKeys == [Overall, Jump, Dread, Gore, Atmosphere, Story, Rewatch, Wtf, Cozy];
    forall k ensures k in RatedKeys <==> k != Enjoyment {
      match k
      case Overall => assert RatedKeys[0] == k;
      case Enjoyment =>
      case Jump => assert RatedKeys[1] == k;
      case Dread => assert RatedKeys[2] == k;
      case Gore => assert RatedKeys[3] == k;
      case Atmosphere => assert RatedKeys[4] == k;
      case Story => assert RatedKeys[5] == k;
      case Rewatch => assert RatedKeys[6] == k;
      case Wtf => assert RatedKeys[7] == k;
      case Cozy => assert RatedKeys[8] == k;
    }
  }

  /** `Math.round`: the nearest integer, halves rounded toward positive infinity. */
  function Round(x: real): (n: int)
    ensures n as real - 0.5 <= x < n as real + 0.5
  {
    (x + 0.5).Floor
  }

  /** What `getFunLabel` returns: a fixed phrase, or for a dimension outside
      `RATING_KEYS` the text `${value}/10` built from the unrounded value. */
  datatype FunLabel = Fixed(text: string) | OutOfTen(value: real)

  /** The phrase of a ranked dimension for rounded value `v` (0 to 9), or with `v == 10`
      the phrase for every other value. */
  function PhraseFor(k: Key, v: nat): string
    requires k != Enjoyment && v <= 10
  {
    match k
    case Overall =>
      if v == 0 then "Could watch this alone in a cemetery."
      else if v == 1 then "Mild spooky seasoning."
      else if v == 2 then "A few goosebumps trying their best."
      else if v == 3 then "Noticeably creepy but manageable."
      else if v == 4 then "Some legit “hmm… what was that?” moments."
      else if v == 5 then "Solidly scary; lights-on trip to the bathroom."
      else if v == 6 then "Several “NOPE” beats."
      else if v == 7 then "My heartbeat had opinions."
      else if v == 8 then "Actually affected my nervous system."
      else if v == 9 then "Absolutely rattled."
      else "Sleeping with a lamp on. And maybe the TV."
    case Jump =>
      if v == 0 then "Zero booms. Zero bangs. Zero flinches."
      else if v == 1 then "A polite “boo” from another room."
      else if v == 2 then "One mild startle."
      else if v == 3 then "A couple predictable jumps."
      else if v == 4 then "Enough jolts to keep you alert."
      else if v == 5 then "Classic popcorn-spiller tier."
      else if v == 6 then "Several sneaky jumps that landed."
      else if v == 7 then "Body jerked. Almost dropped the remote."
      else if v == 8 then "Full-body spasm."
      else if v == 9 then "Practically levitated."
      else "“I hate this movie for doing that to me.”"
    case Dread =>
      if v == 0 then "Zero unease. Felt like a beach day."
      else if v == 1 then "Gentle breeze of anxiety."
      else if v == 2 then "A little simmering suspicion."
      else if v == 3 then "Soft background hum of doom."
      else if v == 4 then "Something is definitely off."
      else if v == 5 then "Steady “I don’t like where this is going.”"
      else if v == 6 then "Palpable tension in my shoulders."
      else if v == 7 then "Stomach slowly turned into a knot."
      else if v == 8 then "Felt watched. In my own house."
      else if v == 9 then "Genuine existential discomfort."
      else "Dread so thick it’s a character in the movie."
    case Gore =>
      if v == 0 then "Barely a paper cut."
      else if v == 1 then "Cartoon-level bumps and bruises."
      else if v == 2 then "Minor blood, PG-13 energy."
      else if v == 3 then "Occasional splatter."
      else if v == 4 then "Some juicy hits."
      else if v == 5 then "Noticeably gnarly."
      else if v == 6 then "“Why did the camera linger on that?!”"
      else if v == 7 then "Gore fans will clap. Others will squint."
      else if v == 8 then "Full body cringe moments."
      else if v == 9 then "I watched through my fingers."
      else "“I need a shower and possibly therapy.”"
    case Atmosphere =>
      if v == 0 then "Bright as a sitcom."
      else if v == 1 then "Softly spooky but harmless."
      else if v == 2 then "A couple eerie shots."
      else if v == 3 then "Creepy edges on the mood."
      else if v == 4 then "Good use of shadows + sound."
      else if v == 5 then "Solidly immersive vibes."
      else if v == 6 then "Very moody; whole film feels haunted."
      else if v == 7 then "Thick atmosphere you can practically inhale."
      else if v == 8 then "Masterclass in eerie visuals + sound."
      else if v == 9 then "Unease baked into every frame."
      else "The air in this movie felt cursed."
    case Story =>
      if v == 0 then "What story?"
      else if v == 1 then "Loose vibes held by duct tape."
      else if v == 2 then "“Okay, technically something happened.”"
      else if v == 3 then "Basic but coherent."
      else if v == 4 then "Concept shows promise."
      else if v == 5 then "Decent and enjoyable narrative."
      else if v == 6 then "Good story with memorable beats."
      else if v == 7 then "Strong, clever, or emotional writing."
      else if v == 8 then "Really well-crafted plot."
      else if v == 9 then "Excellent storytelling; sticks with you."
      else "Could teach a class on this script."
    case Rewatch =>
      if v == 0 then "Never again, even with money."
      else if v == 1 then "Watched once out of curiosity."
      else if v == 2 then "Maybe if someone forced me."
      else if v == 3 then "Forgettable but fine."
      else if v == 4 then "I’d put it on in the background."
      else if v == 5 then "Would watch again someday."
      else if v == 6 then "Fun enough for repeat viewing."
      else if v == 7 then "I’d show this to friends."
      else if v == 8 then "A great October staple."
      else if v == 9 then "Comfort horror."
      else "I rewatch this like a seasonal ritual."
    case Wtf =>
      if v == 0 then "Perfectly normal. Almost suspiciously normal."
      else if v == 1 then "One weird little moment."
      else if v == 2 then "Some odd creative choices."
      else if v == 3 then "A bit strange but not wild."
      else if v == 4 then "A few eyebrow-raising twists."
      else if v == 5 then "Gets weird in a fun way."
      else if v == 6 then "“Wait… what did I just see?”"
      else if v == 7 then "Delightfully deranged."
      else if v == 8 then "Straight-up unhinged energy."
      else if v == 9 then "Brain-melting chaos."
      else "“I need someone else to watch this immediately.”"
    case Cozy =>
      if v == 0 then "Zero vibes. Could be July."
      else if v == 1 then "One pumpkin in the background, maybe."
      else if v == 2 then "Light spooky fun."
      else if v == 3 then "Some seasonal flavor."
      else if v == 4 then "Mildly cozy; good with snacks."
      else if v == 5 then "Classic October mood."
      else if v == 6 then "Warm spooky nostalgia."
      else if v == 7 then "Prime Halloween-night material."
      else if v == 8 then "Peak cozy creepiness."
      else if v == 9 then "Blanket + hot chocolate tier."
      else "Feels like Halloween itself."
  }

  /** `getFunLabel(key, value)`. */
  function GetFunLabel(k: Key, value: real): (r: FunLabel)
    ensures r.OutOfTen? <==> k !in RatedKeys
    ensures r.OutOfTen? ==> r.value == value
  {
    RatedKeysShape();
    if k == Enjoyment then OutOfTen(value)
    else
      var v := Round(value);
      if 0 <= v <= 9 then Fixed(PhraseFor(k, v)) else Fixed(PhraseFor(k, 10))
  }

  /** A ranked dimension's label depends on the value only through `Math.round`: rounded
      values 0 to 9 pick their own phrase, every other rounded value (10, above, or
      negative) picks the final phrase. */
  lemma FunLabelByRoundedValue(k: Key, value: real)
    requires k != Enjoyment
    ensures 0 <= Round(value) <= 9 ==> GetFunLabel(k, value) == Fixed(PhraseFor(k, Round(value)))
    ensures !(0 <= Round(value) <= 9) ==> GetFunLabel(k, value) == Fixed(PhraseFor(k, 10))
  {
  }

  /** The eleven phrases of each ranked dimension are pairwise different, so distinct
      rounded values in 0..10 get distinct labels. */
  lemma PhrasesDistinct(k: Key, i: nat, j: nat)
    requires k != Enjoyment && i < j <= 10
    ensures PhraseFor(k, i) != PhraseFor(k, j)
  {
    match k
    case Overall => OverallPhrasesDistinct(i, j);
    case Jump => JumpPhrasesDistinct(i, j);
    case Dread => DreadPhrasesDistinct(i, j);
    case Gore => GorePhrasesDistinct(i, j);
    case Atmosphere => AtmospherePhrasesDistinct(i, j);
    case Story => StoryPhrasesDistinct(i, j);
    case Rewatch => RewatchPhrasesDistinct(i, j);
    case Wtf => WtfPhrasesDistinct(i, j);
    case Cozy => CozyPhrasesDistinct(i, j);
  }

  lemma OverallPhrasesDistinct(i: nat, j: nat)
    requires i < j <= 10
    ensures PhraseFor(Overall, i) != PhraseFor(Overall, j)
  {
  }

  lemma JumpPhrasesDistinct(i: nat, j: nat)
    requires i < j <= 10
    ensures PhraseFor(Jump, i) != PhraseFor(Jump, j)
  {
  }

  lemma DreadPhrasesDistinct(i: nat, j: nat)
    requires i < j <= 10
    ensures PhraseFor(Dread, i) != PhraseFor(Dread, j)
  {
  }

  lemma GorePhrasesDistinct(i: nat, j: nat)
    requires i < j <= 10
    ensures PhraseFor(Gore, i) != PhraseFor(Gore, j)
  {
  }

  lemma AtmospherePhrasesDistinct(i: nat, j: nat)
    requires i < j <= 10
    ensures PhraseFor(Atmosphere, i) != PhraseFor(Atmosphere, j)
  {
  }

  lemma StoryPhrasesDistinct(i: nat, j: nat)
    requires i < j <= 10
    ensures PhraseFor(Story, i) != PhraseFor(Story, j)
  {
  }

  lemma RewatchPhrasesDistinct(i: nat, j: nat)
    requires i < j <= 10
    ensures PhraseFor(Rewatch, i) != PhraseFor(Rewatch, j)
  {
  }

  lemma WtfPhrasesDistinct(i: nat, j: nat)
    requires i < j <= 10
    ensures PhraseFor(Wtf, i) != PhraseFor(Wtf, j)
  {
  }

  lemma CozyPhrasesDistinct(i: nat, j: nat)
    requires i < j <= 10
    ensures PhraseFor(Cozy, i) != PhraseFor(Cozy, j)
  {
  }

  /** Halves round upward, so 4.5 is labelled like 5; 10 and anything outside 0..10
      share the final phrase; `enjoyment` gets the raw value out of ten. */
  lemma FunLabelExamples()
    ensures GetFunLabel(Overall, 0.0) == Fixed("Could watch this alone in a cemetery.")
    ensures GetFunLabel(Overall, 10.0) == Fixed("Sleeping with a lamp on. And maybe the TV.")
    ensures GetFunLabel(Overall, 4.5) == GetFunLabel(Overall, 5.0)
    ensures GetFunLabel(Gore, 4.49) == GetFunLabel(Gore, 4.0)
    ensures GetFunLabel(Story, -1.0) == GetFunLabel(Story, 10.0)
    ensures GetFunLabel(Enjoyment, 7.5) == OutOfTen(7.5)
  {
    assert Round(0.0) == 0 && Round(10.0) == 10 && Round(4.5) == 5 && Round(5.0) == 5;
    assert Round(4.49) == 4 && Round(4.0) == 4 && Round(-1.0) == -1;
  }
}
