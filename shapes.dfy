/** One polygon of the game, active or ghost target (lp_shapes.py). */
module Shapes {
  import opened Wrappers
  import opened Geometry

  /** Outline colour of a player-controlled shape; also the default on load. */
  const ActiveColor: string := "#6cb6ff"
  /** Outline colour of a target (ghost) shape. */
  const TargetColor: string := "#3fb950"

  /**
   * A regular polygon with centre (cx, cy), circumradius `size`, the angle of
   * its first vertex in degrees and its number of sides.
   */
  datatype Shape = Shape(cx: int, cy: int, size: int, rotation: int, sides: int, color: string)
  {
    function Centre(): Point { (cx, cy) }

    /**
     * Circular hit test with radius 1.1 * size, written without fractions:
     * d^2 <= (1.1 * size)^2 is 100 * d^2 <= 121 * size^2.
     */
    predicate Contains(x: int, y: int) {
      100 * SqDist((x, y), Centre()) <= 121 * (size * size)
    }

    /** The record form of a shape, one entry per field. */
    function AsDict(): (d: ShapeDict)
      ensures d.Keys == {"cx", "cy", "size", "rotation", "sides", "color"}
      ensures forall k | k in d :: (k == "color") == d[k].Text?
    {
      map["cx" := Num(cx), "cy" := Num(cy), "size" := Num(size),
          "rotation" := Num(rotation), "sides" := Num(sides), "color" := Text(color)]
    }
  }

  /** The fraction-free test in Contains is the game's test against (1.1 * size)^2 over the reals. */
  lemma ContainsAsReal(s: Shape, x: int, y: int)
    ensures s.Contains(x, y) <==>
      SqDist((x, y), s.Centre()) as real <= (s.size as real * 1.1) * (s.size as real * 1.1)
  {
    var r := s.size as real;
    assert (r * 1.1) * (r * 1.1) == 1.21 * (r * r);
    assert (s.size * s.size) as real == r * r;
  }

  /** A shape always contains its own centre. */
  lemma ContainsCentre(s: Shape)
    ensures s.Contains(s.cx, s.cy)
  {
    SquareSign(s.size);
  }

  /** Hit-testing grows with size: a larger shape at the same centre accepts every point a smaller one does. */
  lemma ContainsMonotone(s: Shape, bigger: int, x: int, y: int)
    requires Abs(s.size) <= Abs(bigger)
    requires s.Contains(x, y)
    ensures s.(size := bigger).Contains(x, y)
  {
    SquareMonotone(Abs(s.size), Abs(bigger));
    assert Abs(s.size) * Abs(s.size) == s.size * s.size;
    assert Abs(bigger) * Abs(bigger) == bigger * bigger;
  }

  /** A value in a shape record: numbers for geometry, text for the colour. */
  datatype Field = Num(n: int) | Text(s: string)

  /** A shape as a dictionary, keyed by field name. */
  type ShapeDict = map<string, Field>

  /** `key` is present and holds a number. */
  predicate HasNum(d: ShapeDict, key: string) {
    key in d && d[key].Num?
  }

  /**
   * Rebuilds a shape from its record. Every numeric key is required (a missing
   * one is a KeyError in the game); a missing colour takes the active colour.
   */
  function FromDict(d: ShapeDict): (r: Option<Shape>)
    ensures r.Some? <==>
      HasNum(d, "cx") && HasNum(d, "cy") && HasNum(d, "size") &&
      HasNum(d, "rotation") && HasNum(d, "sides") && ("color" in d ==> d["color"].Text?)
    ensures r.Some? ==>
      d["cx"] == Num(r.value.cx) && d["cy"] == Num(r.value.cy) && d["size"] == Num(r.value.size) &&
      d["rotation"] == Num(r.value.rotation) && d["sides"] == Num(r.value.sides)
    ensures r.Some? ==> r.value.color == if "color" in d then d["color"].s else ActiveColor
  {
    if HasNum(d, "cx") && HasNum(d, "cy") && HasNum(d, "size") &&
       HasNum(d, "rotation") && HasNum(d, "sides") && ("color" in d ==> d["color"].Text?)
    then
      var color := if "color" in d then d["color"].s else ActiveColor;
      Some(Shape(d["cx"].n, d["cy"].n, d["size"].n, d["rotation"].n, d["sides"].n, color))
    else
      None
  }

  /** Saving then loading a shape gives it back unchanged. */
  lemma FromDictAsDict(s: Shape)
    ensures FromDict(s.AsDict()) == Some(s)
  {
  }

  /** Loading a six-key record and saving the shape gives back the record. */
  lemma AsDictFromDict(d: ShapeDict)
    requires d.Keys == {"cx", "cy", "size", "rotation", "sides", "color"}
    requires FromDict(d).Some?
    ensures FromDict(d).value.AsDict() == d
  {
    var e := FromDict(d).value.AsDict();
    assert e.Keys == d.Keys;
    forall k | k in d ensures e[k] == d[k] {
      assert k in {"cx", "cy", "size", "rotation", "sides", "color"};
    }
  }

  /** Every shape in `shapes` is what some non-empty record of `ds` decodes to. */
  predicate EachFromEntry(shapes: seq<Shape>, ds: seq<ShapeDict>) {
    forall s | s in shapes :: exists i | 0 <= i < |ds| :: ds[i] != map[] && FromDict(ds[i]) == Some(s)
  }

  /** `shapes` is `ds` decoded record by record, in order. */
  predicate DecodedInOrder(shapes: seq<Shape>, ds: seq<ShapeDict>) {
    |shapes| == |ds| && forall k | 0 <= k < |ds| :: FromDict(ds[k]) == Some(shapes[k])
  }

  /** The records of `ds` that are not empty, in their order. */
  function NonEmpty(ds: seq<ShapeDict>): (r: seq<ShapeDict>)
    ensures |r| <= |ds|
    ensures forall d :: d in r <==> d in ds && d != map[]
    ensures (forall i | 0 <= i < |ds| :: ds[i] != map[]) ==> r == ds
    ensures |ds| == 1 ==> r == if ds[0] == map[] then [] else ds
    decreases |ds|
  {
    if ds == [] then []
    else
      var rest := NonEmpty(ds[1..]);
      assert ds == [ds[0]] + ds[1..];
      assert forall i | 1 <= i < |ds| :: ds[i] == ds[1..][i - 1];
      if ds[0] == map[] then rest else [ds[0]] + rest
  }

  /**
   * Filtering a concatenation filters each part and keeps them in order;
   * with the one-record case this fixes NonEmpty as the order-keeping filter.
   */
  lemma {:induction false} NonEmptyConcat(a: seq<ShapeDict>, b: seq<ShapeDict>)
    ensures NonEmpty(a + b) == NonEmpty(a) + NonEmpty(b)
    decreases |a|
  {
    if a != [] {
      NonEmptyConcat(a[1..], b);
      assert (a + b)[0] == a[0] && (a + b)[1..] == a[1..] + b;
      if a[0] != map[] {
        calc {
          NonEmpty(a + b);
          [a[0]] + NonEmpty(a[1..] + b);
          [a[0]] + (NonEmpty(a[1..]) + NonEmpty(b));
          ([a[0]] + NonEmpty(a[1..])) + NonEmpty(b);
        }
      }
    } else {
      assert a + b == b;
    }
  }

  /**
   * Decodes a list of shape records, skipping empty ones; fails if any record
   * fails. The result is the non-empty records decoded in order.
   */
  function ParseShapes(ds: seq<ShapeDict>): (r: Option<seq<Shape>>)
    ensures r.Some? <==> forall i | 0 <= i < |ds| && ds[i] != map[] :: FromDict(ds[i]).Some?
    ensures r.Some? ==> DecodedInOrder(r.value, NonEmpty(ds))
    ensures r.Some? ==> |r.value| <= |ds| && EachFromEntry(r.value, ds)
    ensures r.Some? && (forall i | 0 <= i < |ds| :: ds[i] != map[]) ==> DecodedInOrder(r.value, ds)
    decreases |ds|
  {
    if ds == [] then Some([])
    else
      var rest := ParseShapes(ds[1..]);
      assert forall i | 1 <= i < |ds| :: ds[i] == ds[1..][i - 1];
      if rest.None? then None
      else if ds[0] == map[] then
        EntriesShift(rest.value, ds);
        assert NonEmpty(ds) == NonEmpty(ds[1..]);
        rest
      else
        match FromDict(ds[0])
        case None => None
        case Some(s) =>
          EntriesShift(rest.value, ds);
          PrependDecoded(s, rest.value, ds);
          PrependNonEmpty(s, rest.value, ds);
          Some([s] + rest.value)
  }

  /** A non-empty first record decoded in front of the decoded rest gives the non-empty records decoded in order. */
  lemma PrependNonEmpty(s: Shape, rest: seq<Shape>, ds: seq<ShapeDict>)
    requires |ds| > 0 && ds[0] != map[] && FromDict(ds[0]) == Some(s)
    requires DecodedInOrder(rest, NonEmpty(ds[1..]))
    ensures DecodedInOrder([s] + rest, NonEmpty(ds))
  {
    assert NonEmpty(ds) == [ds[0]] + NonEmpty(ds[1..]);
  }

  /**
   * With no empty record, decoding the first record and then the rest
   * position by position decodes the whole list position by position.
   */
  lemma PrependDecoded(s: Shape, rest: seq<Shape>, ds: seq<ShapeDict>)
    requires |ds| > 0 && FromDict(ds[0]) == Some(s)
    requires (forall i | 0 <= i < |ds[1..]| :: ds[1..][i] != map[]) ==> DecodedInOrder(rest, ds[1..])
    ensures (forall i | 0 <= i < |ds| :: ds[i] != map[]) ==> DecodedInOrder([s] + rest, ds)
  {
    if forall i | 0 <= i < |ds| :: ds[i] != map[] {
      assert forall i | 0 <= i < |ds[1..]| :: ds[1..][i] == ds[i + 1];
      forall i | 0 <= i < |ds| ensures FromDict(ds[i]) == Some(([s] + rest)[i]) {
        if i > 0 {
          assert ds[i] == ds[1..][i - 1];
        }
      }
    }
  }

  /** Shapes decoded from the records after the first are decoded from the whole list. */
  lemma EntriesShift(shapes: seq<Shape>, ds: seq<ShapeDict>)
    requires |ds| > 0 && EachFromEntry(shapes, ds[1..])
    ensures EachFromEntry(shapes, ds)
  {
    forall x | x in shapes
      ensures exists i | 0 <= i < |ds| :: ds[i] != map[] && FromDict(ds[i]) == Some(x)
    {
      var i :| 0 <= i < |ds[1..]| && ds[1..][i] != map[] && FromDict(ds[1..][i]) == Some(x);
      assert ds[i + 1] == ds[1..][i];
    }
  }

  /** The record form of a list of shapes, element by element. */
  function DictsOf(shapes: seq<Shape>): (ds: seq<ShapeDict>)
    ensures |ds| == |shapes|
    ensures forall i | 0 <= i < |shapes| :: ds[i] == shapes[i].AsDict()
  {
    seq(|shapes|, i requires 0 <= i < |shapes| => shapes[i].AsDict())
  }

  /** Saving then loading a list of shapes gives back the same list, in order. */
  lemma ParseDictsOf(shapes: seq<Shape>)
    ensures ParseShapes(DictsOf(shapes)) == Some(shapes)
  {
    var ds := DictsOf(shapes);
    forall i | 0 <= i < |ds| ensures ds[i] != map[] && FromDict(ds[i]) == Some(shapes[i]) {
      assert "cx" in ds[i];
      FromDictAsDict(shapes[i]);
    }
    var r := ParseShapes(ds);
    assert DecodedInOrder(r.value, ds);
    assert forall k | 0 <= k < |shapes| :: r.value[k] == shapes[k];
    assert r.value == shapes;
  }
}
