/** The Firestore sanitiser `removeUndefined` (src/lib/utils.ts:8-17): a JSON value with an
    explicit `undefined`, from which every object property holding `undefined` is dropped,
    at every depth. Objects are association lists in enumeration order. */
module Sanitize {

  /** A JavaScript value as the sanitiser sees it. */
  datatype Json =
    | Undefined
    | Null
    | Bool(b: bool)
    | Num(n: real)
    | Str(s: string)
    | Arr(elems: seq<Json>)
    | Obj(props: seq<Prop>)

  /** One `[key, value]` pair of `Object.entries`. */
  datatype Prop = Prop(key: string, value: Json)

  /** `.filter(([_, v]) => v !== undefined)`, keeping the order of the survivors. */
  function Defined(ps: seq<Prop>): (kept: seq<Prop>)
    ensures |kept| <= |ps|
    ensures forall i :: 0 <= i < |kept| ==> kept[i] in ps && kept[i].value != Undefined
    ensures forall i :: 0 <= i < |ps| && ps[i].value != Undefined ==> ps[i] in kept
  {
    if |ps| == 0 then []
    else
      var rest := Defined(ps[..|ps| - 1]);
      var last := ps[|ps| - 1];
      assert forall i :: 0 <= i < |ps| - 1 ==> ps[..|ps| - 1][i] == ps[i];
      if last.value == Undefined then rest else rest + [last]
  }

  /** The filter works piecewise, so the surviving properties keep their enumeration order
      and each is kept as often as it occurs. */
  lemma {:induction false} DefinedAppend(a: seq<Prop>, b: seq<Prop>)
    ensures Defined(a + b) == Defined(a) + Defined(b)
    decreases |b|
  {
    if |b| == 0 {
      assert a + b == a;
    } else {
      var init, last := b[..|b| - 1], b[|b| - 1];
      assert (a + b)[..|a + b| - 1] == a + init;
      assert (a + b)[|a + b| - 1] == last;
      DefinedAppend(a, init);
    }
  }

  /** A single property is kept exactly when it is defined. */
  lemma DefinedOfOne(p: Prop)
    ensures Defined([p]) == if p.value == Undefined then [] else [p]
  {
    assert [p][..0] == [];
  }

  /** No object property at any depth holds `undefined`; array elements may. */
  ghost predicate Clean(j: Json)
    decreases j
  {
    match j
    case Arr(xs) => forall i :: 0 <= i < |xs| ==> Clean(xs[i])
    case Obj(ps) => forall i :: 0 <= i < |ps| ==> ps[i].value != Undefined && Clean(ps[i].value)
    case _ => true
  }

  /** `removeUndefined(obj)`. */
  function RemoveUndefined(j: Json): (r: Json)
    ensures Clean(r)
    ensures !j.Arr? && !j.Obj? ==> r == j
    ensures j.Arr? ==> r.Arr? && |r.elems| == |j.elems|
    ensures j.Obj? ==> r.Obj? && |r.props| == |Defined(j.props)|
    decreases j
  {
    match j
    case Arr(xs) =>
      Arr(seq(|xs|, i requires 0 <= i < |xs| => RemoveUndefined(xs[i])))
    case Obj(ps) =>
      var kept := Defined(ps);
      Obj(seq(|kept|, i requires 0 <= i < |kept| => Prop(kept[i].key, RemoveUndefined(kept[i].value))))
    case _ => j
  }

  // ---------------------------------------------------------------- properties

  /** Arrays are mapped elementwise; an `undefined` element stays `undefined`. */
  lemma ArraysMapElementwise(xs: seq<Json>)
    ensures var r := RemoveUndefined(Arr(xs));
            forall i :: 0 <= i < |xs| ==> r.elems[i] == RemoveUndefined(xs[i])
                                          && (r.elems[i] == Undefined <==> xs[i] == Undefined)
  {
  }

  /** The kept properties are exactly the defined ones, with their keys and cleaned values,
      and a `null` value is kept. */
  lemma ObjectsKeepDefinedProps(ps: seq<Prop>)
    ensures var r := RemoveUndefined(Obj(ps));
            forall i :: 0 <= i < |r.props| ==> r.props[i].key == Defined(ps)[i].key
                                               && r.props[i].value == RemoveUndefined(Defined(ps)[i].value)
    ensures forall p :: p in ps && p.value == Null ==> Prop(p.key, Null) in RemoveUndefined(Obj(ps)).props
  {
    var r := RemoveUndefined(Obj(ps));
    var kept := Defined(ps);
    forall p | p in ps && p.value == Null
      ensures Prop(p.key, Null) in r.props
    {
      var i :| 0 <= i < |kept| && kept[i] == p;
      assert r.props[i] == Prop(p.key, Null);
    }
  }

  /** An object with no `undefined` property loses nothing at the top level. */
  lemma {:induction false} DefinedKeepsAll(ps: seq<Prop>)
    requires forall i :: 0 <= i < |ps| ==> ps[i].value != Undefined
    ensures Defined(ps) == ps
  {
    if |ps| > 0 {
      DefinedKeepsAll(ps[..|ps| - 1]);
      assert ps[..|ps| - 1] + [ps[|ps| - 1]] == ps;
    }
  }

  /** Clean values are fixed points of the sanitiser. */
  lemma {:induction false} CleanIsFixed(j: Json)
    requires Clean(j)
    ensures RemoveUndefined(j) == j
    decreases j
  {
    match j
    case Arr(xs) =>
      forall i | 0 <= i < |xs| ensures RemoveUndefined(xs[i]) == xs[i] {
        CleanIsFixed(xs[i]);
      }
      assert RemoveUndefined(j).elems == xs;
    case Obj(ps) =>
      DefinedKeepsAll(ps);
      forall i | 0 <= i < |ps| ensures RemoveUndefined(ps[i].value) == ps[i].value {
        CleanIsFixed(ps[i].value);
      }
      assert RemoveUndefined(j).props == ps;
    case _ =>
  }

  /** Sanitising twice is sanitising once. */
  lemma RemoveUndefinedIdempotent(j: Json)
    ensures RemoveUndefined(RemoveUndefined(j)) == RemoveUndefined(j)
  {
    CleanIsFixed(RemoveUndefined(j));
  }

  /** A nested example: `{a: undefined, b: {c: undefined, d: null}, e: [undefined]}` becomes
      `{b: {d: null}, e: [undefined]}`. */
  lemma NestedExample()
    ensures RemoveUndefined(Obj([Prop("a", Undefined),
                                 Prop("b", Obj([Prop("c", Undefined), Prop("d", Null)])),
                                 Prop("e", Arr([Undefined]))]))
         == Obj([Prop("b", Obj([Prop("d", Null)])), Prop("e", Arr([Undefined]))])
  {
    InnerExample();
    OuterProps();
    var kept := [Prop("b", Obj([Prop("c", Undefined), Prop("d", Null)])), Prop("e", Arr([Undefined]))];
    assert RemoveUndefined(kept[1].value) == Arr([Undefined]);
  }

  lemma InnerExample()
    ensures RemoveUndefined(Obj([Prop("c", Undefined), Prop("d", Null)])) == Obj([Prop("d", Null)])
  {
    var inner := [Prop("c", Undefined), Prop("d", Null)];
    assert inner[..1] == [Prop("c", Undefined)] && inner[..1][..0] == [];
    assert Defined(inner) == [Prop("d", Null)];
  }

  lemma OuterProps()
    ensures Defined([Prop("a", Undefined), Prop("b", Obj([Prop("c", Undefined), Prop("d", Null)])), Prop("e", Arr([Undefined]))])
         == [Prop("b", Obj([Prop("c", Undefined), Prop("d", Null)])), Prop("e", Arr([Undefined]))]
  {
    var outer := [Prop("a", Undefined), Prop("b", Obj([Prop("c", Undefined), Prop("d", Null)])), Prop("e", Arr([Undefined]))];
    assert outer[..1] == [Prop("a", Undefined)] && outer[..1][..0] == [];
    assert Defined(outer[..1]) == [];
    assert outer[..2][..1] == outer[..1];
    assert Defined(outer[..2]) == [outer[1]];
    assert outer[..|outer| - 1] == outer[..2];
  }
}
