/**
 * Level content generation (lp_game.py, `new_level`): centres placed by
 * bounded rejection sampling and one target/active pair built per centre.
 * The random source is replaced by its draws, supplied by the caller.
 */
module Generation {
  import opened Wrappers
  import opened Geometry
  import opened Shapes

  /** Candidate centres drawn per pair before the pair is given up. */
  const MaxTries: nat := 200
  /** Minimum distance between two accepted centres. */
  const MinCentreDist: nat := 140
  /** Horizontal and vertical margins of the sampling window. */
  const MarginX: int := 220
  const MarginY: int := 160

  /** Pairs generated on a level: min(level, 5), and none for a level below 1. */
  function Pairs(level: int): (n: nat)
    ensures n <= 5 && (level >= 1 ==> n <= level)
    ensures level >= 1 ==> n == Min(level, 5)
    ensures level < 1 ==> n == 0
  {
    Max(Min(level, 5), 0)
  }

  /** Polygon side count on a level: triangles on level 1, one more per level, at most 7. */
  function Sides(level: int): (n: int)
    ensures n <= 7
    ensures level >= 1 ==> 3 <= n
    ensures n < 7 ==> n == level + 2
    ensures n == 7 ==> level >= 5
  {
    Min(3 + (level - 1), 7)
  }

  /** `p` is at least MinCentreDist away from every centre in `centres`. */
  predicate FarFromAll(p: Point, centres: seq<Point>) {
    forall c | c in centres :: SqDist(p, c) >= MinCentreDist * MinCentreDist
  }

  /** Any two distinct centres are at least MinCentreDist apart. */
  predicate Separated(centres: seq<Point>) {
    forall i, j | 0 <= i < j < |centres| :: SqDist(centres[i], centres[j]) >= MinCentreDist * MinCentreDist
  }

  /** A point inside the sampling window of a canvas cw wide and ch high. */
  predicate InWindow(p: Point, cw: int, ch: int) {
    MarginX <= p.0 <= cw - MarginX && MarginY <= p.1 <= ch - MarginY
  }

  /** The first candidate far enough from the centres placed so far, if any. */
  function FirstFar(cands: seq<Point>, centres: seq<Point>): (r: Option<Point>)
    ensures r.Some? ==> r.value in cands && FarFromAll(r.value, centres)
    ensures r.Some? ==> exists t | 0 <= t < |cands| ::
      cands[t] == r.value && forall u | 0 <= u < t :: !FarFromAll(cands[u], centres)
    ensures r.None? <==> forall c | c in cands :: !FarFromAll(c, centres)
    decreases |cands|
  {
    if cands == [] then None
    else if FarFromAll(cands[0], centres) then Some(cands[0])
    else
      var r := FirstFar(cands[1..], centres);
      assert forall c | c in cands :: c == cands[0] || c in cands[1..];
      if r.None? then r
      else
        var t :| 0 <= t < |cands[1..]| && cands[1..][t] == r.value &&
          forall u | 0 <= u < t :: !FarFromAll(cands[1..][u], centres);
        assert cands[t + 1] == r.value;
        assert forall u | 0 <= u < t + 1 :: !FarFromAll(cands[u], centres) by {
          assert forall u | 1 <= u < t + 1 :: cands[u] == cands[1..][u - 1];
        }
        r
  }

  /**
   * The sampling window of a canvas cw wide and ch high is non-empty; otherwise
   * the game's first `randint` for a centre raises ValueError.
   */
  predicate CanSample(cw: int, ch: int) {
    2 * MarginX <= cw && 2 * MarginY <= ch
  }

  /** One pair's placement: the first acceptable candidate is added; if none is, the pair is dropped. */
  function Step(centres: seq<Point>, cands: seq<Point>): seq<Point> {
    match FirstFar(cands, centres)
    case Some(c) => centres + [c]
    case None => centres
  }

  /** Placement for every pair in turn; tries[p] are the candidates drawn for pair p. */
  function PlaceAll(tries: seq<seq<Point>>): (centres: seq<Point>)
    ensures |centres| <= |tries|
    ensures Separated(centres)
  {
    if tries == [] then []
    else
      var before := PlaceAll(tries[..|tries| - 1]);
      StepSeparated(before, tries[|tries| - 1]);
      Step(before, tries[|tries| - 1])
  }

  /** Accepting a far-enough candidate keeps the centres separated. */
  lemma StepSeparated(centres: seq<Point>, cands: seq<Point>)
    requires Separated(centres)
    ensures Separated(Step(centres, cands))
  {
    var r := FirstFar(cands, centres);
    if r.Some? {
      var after := centres + [r.value];
      forall i, j | 0 <= i < j < |after|
        ensures SqDist(after[i], after[j]) >= MinCentreDist * MinCentreDist
      {
        if j == |centres| {
          assert after[i] in centres;
          SqDistSymmetric(after[i], r.value);
        }
      }
    }
  }

  /** A pair is dropped exactly when every one of its candidates is too close to an earlier centre. */
  lemma StepDrops(centres: seq<Point>, cands: seq<Point>)
    ensures |Step(centres, cands)| == |centres| <==> forall c | c in cands :: !FarFromAll(c, centres)
    ensures |Step(centres, cands)| != |centres| ==>
      Step(centres, cands) == centres + [Step(centres, cands)[|centres|]] &&
      Step(centres, cands)[|centres|] in cands
  {
  }

  /** `c` is one of the candidates drawn for some pair. */
  predicate Drawn(c: Point, tries: seq<seq<Point>>) {
    exists p, t | 0 <= p < |tries| && 0 <= t < |tries[p]| :: tries[p][t] == c
  }

  /** Every centre is one of the drawn candidates, so there is no fallback point. */
  lemma {:induction false} PlaceAllFromCandidates(tries: seq<seq<Point>>, cw: int, ch: int)
    requires forall p, t | 0 <= p < |tries| && 0 <= t < |tries[p]| :: InWindow(tries[p][t], cw, ch)
    ensures forall c | c in PlaceAll(tries) :: Drawn(c, tries)
    ensures forall c | c in PlaceAll(tries) :: InWindow(c, cw, ch)
  {
    if tries != [] {
      var front := tries[..|tries| - 1];
      assert forall p | 0 <= p < |front| :: front[p] == tries[p];
      PlaceAllFromCandidates(front, cw, ch);
      var last := tries[|tries| - 1];
      var r := FirstFar(last, PlaceAll(front));
      if r.Some? {
        var t :| 0 <= t < |last| && last[t] == r.value;
      }
    }
  }

  /** The random draws for one pair, each within the range the game draws it from. */
  datatype PairDraw = PairDraw(
    size: int,    // target size, randint(100, 150)
    rot: int,     // target rotation, randint(0, 359)
    dx: int,      // active centre offset, randint(-180, 180)
    dy: int,      //   and randint(-140, 140)
    num: int,     // active size factor num / den, uniform(0.75, 1.25)
    den: int,
    drot: int)    // active rotation offset, randint(-70, 70)
  {
    predicate InRange() {
      100 <= size <= 150 && 0 <= rot <= 359 && -180 <= dx <= 180 && -140 <= dy <= 140 &&
      0 < den && 3 * den <= 4 * num && 4 * num <= 5 * den && -70 <= drot <= 70
    }
  }

  /** The ghost target of a pair: at the centre, with the drawn size and rotation. */
  function MakeTarget(c: Point, d: PairDraw, sides: int): (t: Shape)
    requires d.InRange()
    ensures t.Centre() == c && t.sides == sides && t.color == TargetColor
    ensures 100 <= t.size <= 150 && 0 <= t.rotation <= 359
  {
    Shape(c.0, c.1, d.size, d.rot, sides, TargetColor)
  }

  /**
   * The active shape of a pair: displaced from the centre, its size the target
   * size times the factor truncated, its rotation the target's plus the offset
   * taken modulo 360.
   */
  function MakeActive(c: Point, d: PairDraw, sides: int): (a: Shape)
    requires d.InRange()
    ensures a.sides == sides && a.color == ActiveColor
    ensures Abs(a.cx - c.0) <= 180 && Abs(a.cy - c.1) <= 140
    ensures 0 <= a.rotation < 360 && (a.rotation - (d.rot + d.drot)) % 360 == 0
    ensures (3 * d.size) / 4 <= a.size <= (5 * d.size) / 4
  {
    var size := (d.size * d.num) / d.den;
    FactorBounds(d.size, d.num, d.den);
    Shape(c.0 + d.dx, c.1 + d.dy, size, (d.rot + d.drot) % 360, sides, ActiveColor)
  }

  /** The ghost targets of a level: pair k sits on centre k and takes its size and rotation from draw k. */
  function TargetsAt(centres: seq<Point>, draws: seq<PairDraw>, sides: int): (ts: seq<Shape>)
    requires |centres| <= |draws| && forall k | 0 <= k < |draws| :: draws[k].InRange()
    ensures |ts| == |centres|
    ensures forall k | 0 <= k < |ts| ::
      ts[k].Centre() == centres[k] && ts[k].sides == sides && ts[k].color == TargetColor &&
      100 <= ts[k].size <= 150 && 0 <= ts[k].rotation <= 359
    ensures Separated(centres) ==> forall i, j | 0 <= i < j < |ts| ::
      SqDist(ts[i].Centre(), ts[j].Centre()) >= MinCentreDist * MinCentreDist
  {
    seq(|centres|, k requires 0 <= k < |centres| => MakeTarget(centres[k], draws[k], sides))
  }

  /** The player's shapes of a level: pair k is displaced from centre k as draw k says. */
  function ActivesAt(centres: seq<Point>, draws: seq<PairDraw>, sides: int): (acts: seq<Shape>)
    requires |centres| <= |draws| && forall k | 0 <= k < |draws| :: draws[k].InRange()
    ensures |acts| == |centres|
    ensures forall k | 0 <= k < |acts| ::
      acts[k].sides == sides && acts[k].color == ActiveColor &&
      Abs(acts[k].cx - centres[k].0) <= 180 && Abs(acts[k].cy - centres[k].1) <= 140 &&
      0 <= acts[k].rotation < 360 && (acts[k].rotation - (draws[k].rot + draws[k].drot)) % 360 == 0 &&
      (3 * draws[k].size) / 4 <= acts[k].size <= (5 * draws[k].size) / 4
  {
    seq(|centres|, k requires 0 <= k < |centres| => MakeActive(centres[k], draws[k], sides))
  }

  /** Building a level pair by pair: one more centre adds one more pair at the end. */
  lemma LayoutExtend(centres: seq<Point>, draws: seq<PairDraw>, sides: int, k: nat)
    requires k < |centres| <= |draws| && forall j | 0 <= j < |draws| :: draws[j].InRange()
    ensures TargetsAt(centres[..k + 1], draws, sides) ==
      TargetsAt(centres[..k], draws, sides) + [MakeTarget(centres[k], draws[k], sides)]
    ensures ActivesAt(centres[..k + 1], draws, sides) ==
      ActivesAt(centres[..k], draws, sides) + [MakeActive(centres[k], draws[k], sides)]
  {
  }

  /** The pair-building loop of `new_level`: one target and one active shape per placed centre. */
  method BuildPairs(centres: seq<Point>, draws: seq<PairDraw>, sides: int) returns (targets: seq<Shape>, actives: seq<Shape>)
    requires |centres| <= |draws| && forall j | 0 <= j < |draws| :: draws[j].InRange()
    ensures targets == TargetsAt(centres, draws, sides)
    ensures actives == ActivesAt(centres, draws, sides)
  {
    targets, actives := [], [];
    var k := 0;
    while k < |centres|
      invariant 0 <= k <= |centres|
      invariant targets == TargetsAt(centres[..k], draws, sides)
      invariant actives == ActivesAt(centres[..k], draws, sides)
    {
      LayoutExtend(centres, draws, sides, k);
      targets := targets + [MakeTarget(centres[k], draws[k], sides)];
      actives := actives + [MakeActive(centres[k], draws[k], sides)];
      k := k + 1;
    }
    assert centres[..k] == centres;
  }

  /** The targets of a level lie inside the sampling window and keep the minimum distance apart. */
  lemma LevelLayout(tries: seq<seq<Point>>, draws: seq<PairDraw>, n: nat, sides: int, cw: int, ch: int)
    requires n <= |tries| && n <= |draws|
    requires forall k | 0 <= k < |draws| :: draws[k].InRange()
    requires forall p, t | 0 <= p < |tries| && 0 <= t < |tries[p]| :: InWindow(tries[p][t], cw, ch)
    ensures var ts := TargetsAt(PlaceAll(tries[..n]), draws, sides);
      (forall i, j | 0 <= i < j < |ts| :: SqDist(ts[i].Centre(), ts[j].Centre()) >= MinCentreDist * MinCentreDist) &&
      (forall k | 0 <= k < |ts| :: InWindow(ts[k].Centre(), cw, ch)) && |ts| <= n
  {
    var centres := PlaceAll(tries[..n]);
    PlaceAllFromCandidates(tries[..n], cw, ch);
    var ts := TargetsAt(centres, draws, sides);
    forall k | 0 <= k < |ts| ensures InWindow(ts[k].Centre(), cw, ch) {
      assert centres[k] in centres;
    }
  }

  /** floor(s * 3/4) <= floor(s * num/den) <= floor(s * 5/4) when 3/4 <= num/den <= 5/4. */
  lemma FactorBounds(s: int, num: int, den: int)
    requires s >= 0 && den > 0 && 3 * den <= 4 * num && 4 * num <= 5 * den
    ensures (3 * s) / 4 <= (s * num) / den <= (5 * s) / 4
  {
    FactorLower(s, num, den);
    FactorUpper(s, num, den);
  }

  lemma FactorLower(s: int, num: int, den: int)
    requires s >= 0 && den > 0 && 3 * den <= 4 * num
    ensures (3 * s) / 4 <= (s * num) / den
  {
    var lo := (3 * s) / 4;
    var sn := s * num;
    assert 4 * lo <= 3 * s;
    MulLe(4 * lo, 3 * s, den);          // (4 lo) den <= (3 s) den
    MulLe(3 * den, 4 * num, s);         // (3 den) s <= (4 num) s
    assert (4 * lo) * den == 4 * (lo * den);
    assert (3 * s) * den == (3 * den) * s;
    assert (4 * num) * s == 4 * sn;
    assert lo * den <= sn;
    DivLower(lo, sn, den);
  }

  lemma FactorUpper(s: int, num: int, den: int)
    requires s >= 0 && den > 0 && 4 * num <= 5 * den
    ensures (s * num) / den <= (5 * s) / 4
  {
    var sn := s * num;
    var mid := sn / den;
    DivUpper(sn, den);                  // mid den <= sn
    MulLe(4 * num, 5 * den, s);         // (4 num) s <= (5 den) s
    assert (4 * num) * s == 4 * sn;
    assert (5 * den) * s == (5 * s) * den;
    assert 4 * (mid * den) <= 4 * sn;
    assert (4 * mid) * den == 4 * (mid * den);
    assert (4 * mid) * den <= (5 * s) * den;
    MulCancel(4 * mid, 5 * s, den);
    DivLower(mid, 5 * s, 4);
  }

  lemma MulLe(a: int, b: int, c: int)
    requires a <= b && c >= 0
    ensures a * c <= b * c
  {
  }

  lemma MulCancel(a: int, b: int, c: int)
    requires c > 0 && a * c <= b * c
    ensures a <= b
  {
    if a > b {
      assert (b + 1) * c == b * c + c;
      MulLe(b + 1, a, c);
    }
  }

  /** (x / den) * den <= x. */
  lemma DivUpper(x: int, den: int)
    requires den > 0
    ensures (x / den) * den <= x
  {
    assert x == (x / den) * den + x % den;
  }

  /** m * den <= x gives m <= x / den. */
  lemma DivLower(m: int, x: int, den: int)
    requires den > 0 && m * den <= x
    ensures m <= x / den
  {
    var q := x / den;
    assert x == q * den + x % den;
    assert (q + 1) * den == q * den + den;
    MulCancel(m, q, den) by {
      if m > q { MulLe(q + 1, m, den); }
    }
  }

  /**
   * The placement loop of `new_level`: for each of the `pairs` pairs, up to
   * MaxTries candidates are tried in order and the first one far enough from
   * every centre accepted so far is kept.
   */
  method PlaceCentres(pairs: int, tries: seq<seq<Point>>) returns (centres: seq<Point>)
    requires Max(pairs, 0) <= |tries|
    requires forall p | 0 <= p < |tries| :: |tries[p]| == MaxTries
    ensures centres == PlaceAll(tries[..Max(pairs, 0)])
    ensures |centres| <= Max(pairs, 0) && Separated(centres)
  {
    centres := [];
    var p := 0;
    while p < pairs
      invariant 0 <= p <= Max(pairs, 0)
      invariant centres == PlaceAll(tries[..p])
    {
      centres := PlaceOne(centres, tries[p]);
      ghost var upto := tries[..p + 1];
      assert upto[..|upto| - 1] == tries[..p] && upto[|upto| - 1] == tries[p];
      p := p + 1;
    }
  }

  /** The inner loop for one pair: the candidates are tried in order and the first far enough one is appended. */
  method PlaceOne(centres: seq<Point>, cands: seq<Point>) returns (next: seq<Point>)
    requires |cands| == MaxTries
    ensures next == Step(centres, cands)
  {
    next := centres;
    var t := 0;
    while t < MaxTries
      invariant 0 <= t <= MaxTries
      invariant FirstFar(cands, centres) == FirstFar(cands[t..], centres)
    {
      var c := cands[t];
      assert cands[t..][1..] == cands[t + 1..];
      if FarFromAll(c, next) {
        next := next + [c];
        return;
      }
      t := t + 1;
    }
  }
}
