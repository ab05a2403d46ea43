/** The radar chart that overlays several rating profiles
    (src/components/FearFingerprint.tsx:16-37, 47-57): the datasets are pivoted into one
    point per plotted dimension, each point mapping the axis name `subject` and every
    dataset's label to a value. */
module FearFingerprint {
  import opened Wrappers
  import opened Types

  /** `KEYS`: the eight plotted dimensions, in axis order. */
  const PlottedKeys: seq<Key> := [Jump, Dread, Gore, Atmosphere, Story, Rewatch, Wtf, Cozy]

  /** `LABELS[key]`: the axis names; `overall` and `enjoyment` have none. */
  function AxisLabel(k: Key): Option<string>
  {
    match k
    case Jump => Some("Jump")
    case Dread => Some("Dread")
    case Gore => Some("Gore")
    case Atmosphere => Some("Vibe")
    case Story => Some("Story")
    case Rewatch => Some("Re-?s")
    case Wtf => Some("WTF")
    case Cozy => Some("Cozy")
    case _ => None
  }

  /** `LABELS[key] || key`: the axis name, falling back to the property name. */
  function Subject(k: Key): string
  {
    match AxisLabel(k)
    case Some(t) => if t != "" then t else KeyName(k)
    case None => KeyName(k)
  }

  /** One profile to draw: a legend label, the ratings and a stroke/fill colour. */
  datatype Dataset = Dataset(legend: string, ratings: Ratings, color: string)

  /** A value stored in a radar point: the axis name or a dataset's rating. */
  datatype Field = Caption(text: string) | Score(value: real)

  /** A radar point: a JavaScript object keyed by `subject` and by dataset labels. */
  type Point = map<string, Field>

  const SubjectField: string := "subject"

  /** The point for one dimension: `{ subject: ... }`, then `point[ds.label] = ds.ratings[key]`
      for each dataset in turn, so a later dataset overwrites an earlier one of the same label. */
  function PointFor(k: Key, ds: seq<Dataset>): (p: Point)
    ensures SubjectField in p
    ensures forall i :: 0 <= i < |ds| ==> ds[i].legend in p
  {
    if |ds| == 0 then map[SubjectField := Caption(Subject(k))]
    else
      var last := ds[|ds| - 1];
      PointFor(k, ds[..|ds| - 1])[last.legend := Score(Get(last.ratings, k))]
  }

  /** `KEYS.map(...)`: one point per plotted dimension, in axis order. */
  function Pivot(ds: seq<Dataset>): (points: seq<Point>)
    ensures |points| == |PlottedKeys|
    ensures forall i :: 0 <= i < |points| ==> SubjectField in points[i]
  {
    seq(|PlottedKeys|, i requires 0 <= i < |PlottedKeys| => PointFor(PlottedKeys[i], ds))
  }

  /** A `<Radar>` element: the series name, the point field it reads, and its colours. */
  datatype Series = Series(name: string, dataKey: string, stroke: string, fill: string)

  /** `datasets.map(ds => <Radar .../>)`. */
  function SeriesOf(ds: seq<Dataset>): (ss: seq<Series>)
    ensures |ss| == |ds|
  {
    if |ds| == 0 then []
    else SeriesOf(ds[..|ds| - 1]) + [Series(ds[|ds| - 1].legend, ds[|ds| - 1].legend, ds[|ds| - 1].color, ds[|ds| - 1].color)]
  }

  // ---------------------------------------------------------------- reference definition

  /** The position of the last dataset labelled `name`, if any. */
  function LastWith(ds: seq<Dataset>, name: string): (r: Option<nat>)
    ensures r.Some? ==> r.value < |ds| && ds[r.value].legend == name
    ensures r.Some? ==> forall j :: r.value < j < |ds| ==> ds[j].legend != name
    ensures r.None? ==> forall j :: 0 <= j < |ds| ==> ds[j].legend != name
  {
    if |ds| == 0 then None
    else if ds[|ds| - 1].legend == name then Some(|ds| - 1)
    else LastWith(ds[..|ds| - 1], name)
  }

  /** A point holds `subject` and exactly the dataset labels. Each label reads the rating of
      the last dataset carrying it; `subject` keeps the axis name unless a dataset is
      labelled `subject`. */
  lemma {:induction false} PointIsLastWriterWins(k: Key, ds: seq<Dataset>, name: string)
    ensures name in PointFor(k, ds) <==> name == SubjectField || LastWith(ds, name).Some?
    ensures LastWith(ds, name).Some? ==>
              PointFor(k, ds)[name] == Score(Get(ds[LastWith(ds, name).value].ratings, k))
    ensures (name == SubjectField && LastWith(ds, name).None?) ==>
              PointFor(k, ds)[name] == Caption(Subject(k))
  {
    if |ds| > 0 {
      PointIsLastWriterWins(k, ds[..|ds| - 1], name);
      var init := ds[..|ds| - 1];
      if ds[|ds| - 1].legend != name {
        assert LastWith(ds, name) == LastWith(init, name);
        if LastWith(init, name).Some? {
          assert ds[LastWith(init, name).value] == init[LastWith(init, name).value];
        }
      }
    }
  }

  /** With pairwise distinct labels, none of them `subject`, every point carries the axis
      name and every dataset's own rating for that dimension. */
  lemma PivotReadsEveryDataset(ds: seq<Dataset>, i: nat, j: nat)
    requires forall a, b :: 0 <= a < b < |ds| ==> ds[a].legend != ds[b].legend
    requires forall a :: 0 <= a < |ds| ==> ds[a].legend != SubjectField
    requires i < |PlottedKeys| && j < |ds|
    ensures Pivot(ds)[i][SubjectField] == Caption(Subject(PlottedKeys[i]))
    ensures Pivot(ds)[i][ds[j].legend] == Score(Get(ds[j].ratings, PlottedKeys[i]))
  {
    var k := PlottedKeys[i];
    PointIsLastWriterWins(k, ds, SubjectField);
    PointIsLastWriterWins(k, ds, ds[j].legend);
    var w := LastWith(ds, ds[j].legend).value;
    assert w == j;
  }

  /** Two datasets under one label: the later one's rating is the one plotted. */
  lemma LaterDatasetOverwrites(k: Key, a: Dataset, b: Dataset)
    requires a.legend == b.legend
    ensures PointFor(k, [a, b])[a.legend] == Score(Get(b.ratings, k))
  {
    assert [a, b][..1] == [a];
  }

  /** A dataset labelled `subject` replaces the axis name of every point. */
  lemma SubjectLabelClobbersAxis(k: Key, d: Dataset)
    requires d.legend == SubjectField
    ensures PointFor(k, [d])[SubjectField] == Score(Get(d.ratings, k))
  {
    assert [d][..0] == [];
  }

  /** The plotted dimensions are eight distinct keys, without `overall` and `enjoyment`;
      each axis is named by its `LABELS` entry and the eight names are distinct. */
  lemma PlottedKeysShape()
    ensures |PlottedKeys| == 8
    ensures Overall !in PlottedKeys && Enjoyment !in PlottedKeys
    ensures forall i, j :: 0 <= i < j < |PlottedKeys| ==> PlottedKeys[i] != PlottedKeys[j]
    ensures forall i :: 0 <= i < |PlottedKeys| ==> Subject(PlottedKeys[i]) == AxisLabel(PlottedKeys[i]).value
    ensures forall i, j :: 0 <= i < j < |PlottedKeys| ==> Subject(PlottedKeys[i]) != Subject(PlottedKeys[j])
  {
  }

  /** Without a `LABELS` entry the axis is named by the property itself. */
  lemma UnlabelledKeysFallBack()
    ensures Subject(Overall) == "overall" && Subject(Enjoyment) == "enjoyment"
  {
  }

  /** There is one series per dataset, in order, and every series finds the field it reads
      in every point of the pivot. */
  lemma {:induction false} EverySeriesHasData(ds: seq<Dataset>, i: nat, j: nat)
    requires i < |PlottedKeys| && j < |ds|
    ensures SeriesOf(ds)[j] == Series(ds[j].legend, ds[j].legend, ds[j].color, ds[j].color)
    ensures SeriesOf(ds)[j].dataKey in Pivot(ds)[i]
  {
    if j < |ds| - 1 {
      EverySeriesHasData(ds[..|ds| - 1], i, j);
      assert SeriesOf(ds)[j] == SeriesOf(ds[..|ds| - 1])[j];
    }
  }
}
