/** A model of MinMaxGUIHelper: a wrapper around an object and the names of two
    of its numeric properties (a camera's `near` and `far`) whose `min` and `max`
    setters keep `max >= min + minDif`.  The wrapped object is a map from property
    names to numbers; the helper holds a reference to it and writes into it. */
module MinMaxGui {

  /** Math.max on two numbers. */
  function MathMax(a: real, b: real): (r: real)
    ensures r >= a && r >= b
    ensures r == a || r == b
  {
    if a >= b then a else b
  }

  /** The two property names a helper couples and the least gap it keeps between them. */
  datatype Pair = Pair(minProp: string, maxProp: string, minDif: real) {

    /** The two names are different properties (as for `near` and `far`). */
    predicate Distinct() {
      minProp != maxProp
    }

    /** Both coupled properties are present in the object. */
    predicate Covers(vals: map<string, real>) {
      minProp in vals && maxProp in vals
    }

    /** The helper's invariant: max is at least min + minDif. */
    predicate Gap(vals: map<string, real>)
      requires Covers(vals)
    {
      vals[maxProp] >= vals[minProp] + minDif
    }
  }

  /** The object's properties after `set min(v)`: min is written first, then max
      is raised to v + minDif when it is below that. */
  function AfterSetMin(p: Pair, vals: map<string, real>, v: real): (r: map<string, real>)
    requires p.Covers(vals)
    ensures r.Keys == vals.Keys
    ensures forall k :: k in vals && k != p.minProp && k != p.maxProp ==> r[k] == vals[k]
    ensures r[p.maxProp] >= v + p.minDif
    ensures p.Distinct() ==> r[p.minProp] == v && p.Gap(r)
    ensures p.Distinct() ==> r[p.maxProp] >= vals[p.maxProp]
    ensures p.Distinct() ==> r[p.maxProp] == vals[p.maxProp] || r[p.maxProp] == v + p.minDif
    ensures p.Distinct() ==> (r[p.maxProp] == vals[p.maxProp] <==> vals[p.maxProp] >= v + p.minDif)
  {
    var written := vals[p.minProp := v];
    written[p.maxProp := MathMax(written[p.maxProp], v + p.minDif)]
  }

  /** The object's properties after `set max(v)`: max is written, then min is
      assigned its own current value, which runs the min setter once more. */
  function AfterSetMax(p: Pair, vals: map<string, real>, v: real): (r: map<string, real>)
    requires p.Covers(vals)
    ensures r.Keys == vals.Keys
    ensures forall k :: k in vals && k != p.minProp && k != p.maxProp ==> r[k] == vals[k]
    ensures p.Distinct() ==> r[p.minProp] == vals[p.minProp] && p.Gap(r)
    ensures p.Distinct() ==> r[p.maxProp] >= v && r[p.maxProp] >= vals[p.minProp] + p.minDif
    ensures p.Distinct() ==> r[p.maxProp] == v || r[p.maxProp] == vals[p.minProp] + p.minDif
    ensures p.Distinct() ==> (r[p.maxProp] == v <==> v >= vals[p.minProp] + p.minDif)
  {
    var written := vals[p.maxProp := v];
    AfterSetMin(p, written, written[p.minProp])
  }

  /** One edit made through the GUI panel: an assignment to `min` or to `max`. */
  datatype Edit = SetMinTo(v: real) | SetMaxTo(v: real)

  /** The object's properties after one edit. */
  function Step(p: Pair, vals: map<string, real>, e: Edit): (r: map<string, real>)
    requires p.Covers(vals)
    ensures r.Keys == vals.Keys
    ensures forall k :: k in vals && k != p.minProp && k != p.maxProp ==> r[k] == vals[k]
    ensures p.Distinct() ==> p.Gap(r)
  {
    match e
    case SetMinTo(v) => AfterSetMin(p, vals, v)
    case SetMaxTo(v) => AfterSetMax(p, vals, v)
  }

  /** The object's properties after a sequence of edits, applied in order. */
  function Replay(p: Pair, vals: map<string, real>, edits: seq<Edit>): (r: map<string, real>)
    requires p.Covers(vals)
    ensures r.Keys == vals.Keys
    ensures forall k :: k in vals && k != p.minProp && k != p.maxProp ==> r[k] == vals[k]
    ensures p.Distinct() && edits != [] ==> p.Gap(r)
    ensures p.Distinct() && p.Gap(vals) ==> p.Gap(r)
    decreases |edits|
  {
    if edits == [] then vals else Replay(p, Step(p, vals, edits[0]), edits[1..])
  }

  /** Replaying two edit histories one after the other is replaying their concatenation. */
  lemma {:induction false} ReplayAppend(p: Pair, vals: map<string, real>, a: seq<Edit>, b: seq<Edit>)
    requires p.Covers(vals)
    ensures Replay(p, vals, a + b) == Replay(p, Replay(p, vals, a), b)
  {
    if a == [] {
      assert a + b == b;
    } else {
      assert (a + b)[0] == a[0];
      assert (a + b)[1..] == a[1..] + b;
      ReplayAppend(p, Step(p, vals, a[0]), a[1..], b);
    }
  }

  /** After a history that ends with `min = v`, the min property reads v. */
  lemma {:induction false} LastMinEditWins(p: Pair, vals: map<string, real>, edits: seq<Edit>, v: real)
    requires p.Covers(vals) && p.Distinct()
    requires edits != [] && edits[|edits| - 1] == SetMinTo(v)
    ensures Replay(p, vals, edits)[p.minProp] == v
  {
    var prefix := edits[..|edits| - 1];
    assert edits == prefix + [SetMinTo(v)];
    ReplayAppend(p, vals, prefix, [SetMinTo(v)]);
  }

  /** A history made only of `min` edits never lowers max. */
  lemma {:induction false} MinEditsNeverLowerMax(p: Pair, vals: map<string, real>, edits: seq<Edit>)
    requires p.Covers(vals) && p.Distinct()
    requires forall i :: 0 <= i < |edits| ==> edits[i].SetMinTo?
    ensures Replay(p, vals, edits)[p.maxProp] >= vals[p.maxProp]
    decreases |edits|
  {
    if edits != [] {
      var next := Step(p, vals, edits[0]);
      MinEditsNeverLowerMax(p, next, edits[1..]);
    }
  }

  /** A history made only of `max` edits never changes min. */
  lemma {:induction false} MaxEditsKeepMin(p: Pair, vals: map<string, real>, edits: seq<Edit>)
    requires p.Covers(vals) && p.Distinct()
    requires forall i :: 0 <= i < |edits| ==> edits[i].SetMaxTo?
    ensures Replay(p, vals, edits)[p.minProp] == vals[p.minProp]
    decreases |edits|
  {
    if edits != [] {
      var next := Step(p, vals, edits[0]);
      MaxEditsKeepMin(p, next, edits[1..]);
    }
  }

  /** The self-assignment `min = min` leaves the object as it was exactly when the
      invariant already holds. */
  lemma SelfAssignmentSettles(p: Pair, vals: map<string, real>)
    requires p.Covers(vals) && p.Distinct()
    ensures AfterSetMin(p, vals, vals[p.minProp]) == vals <==> p.Gap(vals)
  {
  }

  /** Setting min twice to the same value has the effect of setting it once. */
  lemma SetMinIdempotent(p: Pair, vals: map<string, real>, v: real)
    requires p.Covers(vals)
    ensures AfterSetMin(p, AfterSetMin(p, vals, v), v) == AfterSetMin(p, vals, v)
  {
  }

  /** Setting max twice to the same value has the effect of setting it once. */
  lemma SetMaxIdempotent(p: Pair, vals: map<string, real>, v: real)
    requires p.Covers(vals)
    ensures AfterSetMax(p, AfterSetMax(p, vals, v), v) == AfterSetMax(p, vals, v)
  {
  }

  /** The object a helper wraps, reduced to its numeric properties. */
  class Properties {
    var values: map<string, real>

    constructor (values: map<string, real>)
      ensures this.values == values
    {
      this.values := values;
    }
  }

  /** A helper that presents two properties of `obj` as `min` and `max`. */
  class MinMaxGUIHelper {
    const obj: Properties
    const minProp: string
    const maxProp: string
    const minDif: real

    constructor (obj: Properties, minProp: string, maxProp: string, minDif: real)
      ensures this.obj == obj && this.minProp == minProp
      ensures this.maxProp == maxProp && this.minDif == minDif
      ensures unchanged(obj)
    {
      this.obj := obj;
      this.minProp := minProp;
      this.maxProp := maxProp;
      this.minDif := minDif;
    }

    /** The coupling this helper maintains. */
    function Coupling(): Pair {
      Pair(minProp, maxProp, minDif)
    }

    /** Both coupled properties exist on the wrapped object. */
    ghost predicate Valid()
      reads obj
    {
      Coupling().Covers(obj.values)
    }

    /** `get min`: the current value of the min property. */
    function Min(): real
      reads obj
      requires Valid()
    {
      obj.values[minProp]
    }

    /** `get max`: the current value of the max property. */
    function Max(): real
      reads obj
      requires Valid()
    {
      obj.values[maxProp]
    }

    /** `set min(v)`. */
    method SetMin(v: real)
      requires Valid()
      modifies obj
      ensures Valid()
      ensures obj.values == AfterSetMin(Coupling(), old(obj.values), v)
      ensures minProp != maxProp ==> Min() == v && Max() >= Min() + minDif
      ensures minProp != maxProp ==> Max() >= old(Max())
    {
      obj.values := obj.values[minProp := v];
      obj.values := obj.values[maxProp := MathMax(obj.values[maxProp], v + minDif)];
    }

    /** `set max(v)`. */
    method SetMax(v: real)
      requires Valid()
      modifies obj
      ensures Valid()
      ensures obj.values == AfterSetMax(Coupling(), old(obj.values), v)
      ensures minProp != maxProp ==> Min() == old(Min()) && Max() >= Min() + minDif
      ensures minProp != maxProp ==> (Max() == v <==> v >= Min() + minDif)
    {
      obj.values := obj.values[maxProp := v];
      SetMin(Min());
    }
  }

  /** The camera of the scene with its initial fov, aspect, near and far, and the
      helper that couples near and far with a least gap of 0.1. */
  method NewCameraHelper() returns (camera: Properties, helper: MinMaxGUIHelper)
    ensures fresh(camera) && fresh(helper)
    ensures camera.values == map["fov" := 45.0, "aspect" := 2.0, "near" := 0.1, "far" := 100.0]
    ensures helper.obj == camera && helper.Coupling() == Pair("near", "far", 0.1)
    ensures helper.Valid() && helper.Coupling().Distinct() && helper.Coupling().Gap(camera.values)
  {
    camera := new Properties(map["fov" := 45.0, "aspect" := 2.0, "near" := 0.1, "far" := 100.0]);
    helper := new MinMaxGUIHelper(camera, "near", "far", 0.1);
  }
}
