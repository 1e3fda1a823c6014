/**
 * The level and match engine (lp_game.py): paired active and target shapes,
 * selection, drag with snap-to-target, batch rotate and scale, the batch
 * alignment check, and snapshots.
 */
module Engine {
  import opened Wrappers
  import opened Geometry
  import opened Shapes
  import opened Selection
  import opened Generation
  import Statistics

  /** Lives at the start of a game and after a reset. */
  const StartLives: int := 3
  /** Clamping range of a scaled size. */
  const MinSize: int := 30
  const MaxSize: int := 260

  // ---------------------------------------------------------------- difficulty

  datatype Difficulty = Easy | Normal | Hard

  /** Any name other than "easy" or "hard" means normal. */
  function ParseDifficulty(name: string): (d: Difficulty)
    ensures d == Easy <==> name == "easy"
    ensures d == Hard <==> name == "hard"
  {
    if name == "easy" then Easy else if name == "hard" then Hard else Normal
  }

  /** The name the game stores for a difficulty; it loads back as that difficulty. */
  function DifficultyName(d: Difficulty): (name: string)
    ensures ParseDifficulty(name) == d
  {
    match d
    case Easy => "easy"
    case Normal => "normal"
    case Hard => "hard"
  }

  /** Distance within which a dragged shape snaps onto its target. */
  function SnapRadius(d: Difficulty): (r: int)
    ensures r > 0
  {
    match d
    case Easy => 70
    case Normal => 45
    case Hard => 30
  }

  /** Acceptance thresholds: position in pixels, rotation in degrees, size error in percent. */
  datatype Tolerance = Tolerance(pos: nat, rot: nat, scalePct: nat)

  /** Fixed thresholds per difficulty; they do not depend on the level. */
  function ToleranceOf(d: Difficulty): Tolerance {
    match d
    case Easy => Tolerance(120, 45, 50)
    case Normal => Tolerance(70, 28, 35)
    case Hard => Tolerance(40, 18, 22)
  }

  /** Harder settings are never more lenient than easier ones. */
  lemma ToleranceOrdered()
    ensures SnapRadius(Hard) < SnapRadius(Normal) < SnapRadius(Easy)
    ensures ToleranceOf(Hard).pos < ToleranceOf(Normal).pos < ToleranceOf(Easy).pos
    ensures ToleranceOf(Hard).rot < ToleranceOf(Normal).rot < ToleranceOf(Easy).rot
    ensures ToleranceOf(Hard).scalePct < ToleranceOf(Normal).scalePct < ToleranceOf(Easy).scalePct
  {
  }

  // ---------------------------------------------------------------- scoring

  /** The smaller angle between two rotations, in [0, 180]. */
  function RotDiff(a: int, t: int): (r: int)
    ensures 0 <= r <= 180
    ensures r == 0 <==> (a - t) % 360 == 0
    ensures (a - t - r) % 360 == 0 || (a - t + r) % 360 == 0
  {
    var d := Abs(DegNorm(a - t));
    Min(d, 360 - d)
  }

  /** The angle between two rotations does not depend on which is the reference. */
  lemma RotDiffSymmetric(a: int, t: int)
    ensures RotDiff(a, t) == RotDiff(t, a)
  {
    var d := DegNorm(a - t);
    if d == 0 {
      DegNormUnique(t - a, 0);
    } else {
      assert (t - a - (360 - d)) % 360 == 0 by {
        assert t - a - (360 - d) == -((a - t) - d) - 360;
      }
      DegNormUnique(t - a, 360 - d);
    }
  }

  /**
   * Position test. The game zeroes a distance below 1 before comparing; on
   * integer positions that is a distance of exactly 0, so it changes nothing.
   */
  predicate PositionOk(a: Shape, t: Shape, tol: Tolerance) {
    SqDist(a.Centre(), t.Centre()) <= tol.pos * tol.pos
  }

  /**
   * The squared test is the game's test on the real distance d, and the
   * game's zeroing of a distance below 1 only ever zeroes a distance of 0.
   */
  lemma PositionOkAsDistance(a: Shape, t: Shape, tol: Tolerance, d: real)
    requires d >= 0.0 && d * d == SqDist(a.Centre(), t.Centre()) as real
    ensures PositionOk(a, t, tol) <==> d <= tol.pos as real
    ensures d < 1.0 ==> d == 0.0
  {
    RealSquareMonotone(d, tol.pos as real);
    assert (tol.pos * tol.pos) as real == (tol.pos as real) * (tol.pos as real);
    if d < 1.0 {
      calc {
        d * d;
      <= d * 1.0;
      < 1.0;
      }
      assert SqDist(a.Centre(), t.Centre()) == 0;
      RealSquareMonotone(d, 0.0);
    }
  }

  /** Squaring preserves the order of non-negative reals. */
  lemma RealSquareMonotone(d: real, p: real)
    requires d >= 0.0 && p >= 0.0
    ensures d <= p <==> d * d <= p * p
  {
    if d <= p {
      calc {
        d * d;
      <= d * p;
      <= p * p;
      }
    } else {
      calc {
        p * p;
      <= p * d;
      < d * d;
      }
    }
  }

  predicate RotationOk(a: Shape, t: Shape, tol: Tolerance) {
    RotDiff(a.rotation, t.rotation) <= tol.rot
  }

  /**
   * Size test |a - t| / t <= scalePct / 100, multiplied out. A negative target
   * size gives a negative quotient, which passes; a zero target size is a
   * division by zero in the game and is excluded by the check's precondition.
   */
  predicate ScaleOk(a: Shape, t: Shape, tol: Tolerance) {
    if t.size > 0 then 100 * Abs(a.size - t.size) <= tol.scalePct * t.size
    else t.size < 0
  }

  predicate Matches(a: Shape, t: Shape, tol: Tolerance) {
    PositionOk(a, t, tol) && RotationOk(a, t, tol) && ScaleOk(a, t, tol)
  }

  /** The multiplied-out size test is the game's relative error test over the reals. */
  lemma ScaleOkAsRatio(a: Shape, t: Shape, tol: Tolerance)
    requires t.size > 0
    ensures ScaleOk(a, t, tol) <==>
      (Abs(a.size - t.size) as real) / (t.size as real) <= (tol.scalePct as real) / 100.0
  {
    var e, s, k := Abs(a.size - t.size) as real, t.size as real, tol.scalePct as real;
    assert e / s <= k / 100.0 <==> 100.0 * e <= k * s by {
      assert e / s * s == e;
      assert (e / s <= k / 100.0) <==> (e / s) * (100.0 * s) <= (k / 100.0) * (100.0 * s);
    }
  }

  /** A shape placed exactly on its target, up to whole turns, passes on every difficulty. */
  lemma AlignedShapeMatches(a: Shape, t: Shape, d: Difficulty)
    requires a.Centre() == t.Centre() && a.size == t.size && t.size > 0
    requires (a.rotation - t.rotation) % 360 == 0
    ensures Matches(a, t, ToleranceOf(d))
  {
  }

  /** A shape further from its target than the position threshold fails. */
  lemma DisplacedShapeFails(a: Shape, t: Shape, d: Difficulty)
    requires SqDist(a.Centre(), t.Centre()) > ToleranceOf(d).pos * ToleranceOf(d).pos
    ensures !Matches(a, t, ToleranceOf(d))
  {
  }

  // ---------------------------------------------------------------- batches

  /** The number of shapes to check together: min(level, 5, max(1, count)). */
  function RequiredBatchOf(level: int, count: nat): (r: int)
    ensures r <= level && r <= 5 && r <= Max(1, count)
    ensures r == level || r == 5 || r == Max(1, count)
    ensures level >= 1 ==> 1 <= r
  {
    Min(Min(level, 5), Max(1, count))
  }

  // ---------------------------------------------------------------- shape edits

  /** A shape turned by `deg` degrees; its rotation stays in [0, 360). */
  function Rotated(s: Shape, deg: int): (r: Shape)
    ensures r == s.(rotation := r.rotation)
    ensures 0 <= r.rotation < 360 && (r.rotation - (s.rotation + deg)) % 360 == 0
  {
    s.(rotation := DegNorm(s.rotation + deg))
  }

  /** Integer division truncating toward zero, as Python's int() of a quotient. */
  function TruncDiv(a: int, b: int): (q: int)
    requires b > 0
    ensures 0 <= a ==> 0 <= q && q * b <= a < (q + 1) * b
    ensures a < 0 ==> q <= 0 && (q - 1) * b < a <= q * b
  {
    var m := Abs(a) / b;
    DivBounds(Abs(a), b);
    if a >= 0 then m
    else
      assert (-m) * b == -(m * b) && (-m - 1) * b == -((m + 1) * b);
      -m
  }

  /** Floor division of a non-negative number brackets it between multiples of the divisor. */
  lemma DivBounds(x: int, den: int)
    requires x >= 0 && den > 0
    ensures 0 <= x / den && (x / den) * den <= x < (x / den + 1) * den
  {
    assert x == (x / den) * den + x % den;
    assert (x / den + 1) * den == (x / den) * den + den;
  }

  /** A shape scaled by num / den: the product is truncated, then clamped to [30, 260]. */
  function Rescaled(s: Shape, num: int, den: int): (r: Shape)
    requires den > 0
    ensures r == s.(size := r.size)
    ensures MinSize <= r.size <= MaxSize
    ensures var raw := TruncDiv(s.size * num, den);
      r.size == (if raw < MinSize then MinSize else if raw > MaxSize then MaxSize else raw)
  {
    s.(size := Max(MinSize, Min(MaxSize, TruncDiv(s.size * num, den))))
  }

  /** Scaling by 1 leaves an in-range size alone. */
  lemma RescaledByOne(s: Shape)
    requires MinSize <= s.size <= MaxSize
    ensures Rescaled(s, 1, 1) == s
  {
  }

  /** `s` with `f` applied at the indices in `idx` and nowhere else. */
  ghost function EditAt(s: seq<Shape>, idx: set<nat>, f: Shape -> Shape): (r: seq<Shape>)
    ensures |r| == |s|
  {
    seq(|s|, i requires 0 <= i < |s| => if i in idx then f(s[i]) else s[i])
  }

  /** Editing one more index is one more in-place update. */
  lemma EditAtStep(s: seq<Shape>, idx: set<nat>, f: Shape -> Shape, i: nat)
    requires i < |s| && i !in idx
    ensures EditAt(s, idx + {i}, f) == EditAt(s, idx, f)[i := f(s[i])]
  {
  }

  // ---------------------------------------------------------------- hit test

  /** Shape i contains the point and no shape above it (higher index) does. */
  predicate IsTopmostHit(shapes: seq<Shape>, x: int, y: int, i: nat) {
    i < |shapes| && shapes[i].Contains(x, y) &&
    forall j | i < j < |shapes| :: !shapes[j].Contains(x, y)
  }

  predicate NoHit(shapes: seq<Shape>, x: int, y: int) {
    forall j | 0 <= j < |shapes| :: !shapes[j].Contains(x, y)
  }

  /** At most one shape is the topmost hit, and it exists unless nothing is hit. */
  lemma TopmostHitUnique(shapes: seq<Shape>, x: int, y: int, i: nat, j: nat)
    requires IsTopmostHit(shapes, x, y, i)
    ensures !NoHit(shapes, x, y)
    ensures IsTopmostHit(shapes, x, y, j) ==> i == j
  {
  }

  /** Scans from the last shape down and stops at the first one containing the point. */
  method TopmostHit(shapes: seq<Shape>, x: int, y: int) returns (hit: Option<nat>)
    ensures hit.Some? ==> IsTopmostHit(shapes, x, y, hit.value)
    ensures hit.None? ==> NoHit(shapes, x, y)
  {
    var i := |shapes|;
    while i > 0
      invariant 0 <= i <= |shapes|
      invariant forall j | i <= j < |shapes| :: !shapes[j].Contains(x, y)
    {
      i := i - 1;
      if shapes[i].Contains(x, y) {
        return Some(i);
      }
    }
    return None;
  }

  /** Every pair named by `batch` exists and its active shape matches its target. */
  predicate AllMatched(active: seq<Shape>, target: seq<Shape>, batch: set<nat>, tol: Tolerance) {
    forall i | i in batch :: i < |active| && i < |target| && Matches(active[i], target[i], tol)
  }

  /**
   * The scoring loop of the check: every index of `batch` is scored and the
   * answer is false as soon as one shape is out of tolerance.
   */
  method AllMatch(active: seq<Shape>, target: seq<Shape>, batch: set<nat>, tol: Tolerance) returns (ok: bool)
    requires forall i | i in batch :: i < |active| && i < |target|
    ensures ok <==> AllMatched(active, target, batch, tol)
  {
    var todo := batch;
    while todo != {}
      invariant todo <= batch
      invariant forall i | i in batch - todo :: Matches(active[i], target[i], tol)
      decreases |todo|
    {
      var i :| i in todo;
      if !Matches(active[i], target[i], tol) {
        return false;
      }
      todo := todo - {i};
    }
    return true;
  }

  // ---------------------------------------------------------------- results, snapshots

  /** What the batch check reports. */
  datatype CheckResult =
    | AlreadyCleared          // no shapes left: neutral
    | SelectExactly(need: int) // wrong selection size: neutral
    | Inaccurate              // some shape is out of tolerance: one life lost
    | Matched                 // every selected pair removed

  /** A saved game; an absent key is None and loads with a default. */
  datatype Snapshot = Snapshot(
    level: Option<int>,
    lives: Option<int>,
    playerName: Option<string>,
    active: Option<seq<ShapeDict>>,
    target: Option<seq<ShapeDict>>,
    stats: Option<Statistics.StatsDict>,
    width: Option<int>,
    height: Option<int>,
    levelCount: Option<int>,
    difficulty: Option<string>)

  /** The shape list under a snapshot key, an absent key meaning the empty list. */
  function LoadedShapes(entry: Option<seq<ShapeDict>>): (r: Option<seq<Shape>>)
    ensures entry.None? ==> r == Some([])
    ensures entry.Some? ==> r == ParseShapes(entry.value)
  {
    ParseShapes(entry.GetOr([]))
  }

  // ---------------------------------------------------------------- the engine

  class Game {
    var width: int
    var height: int
    var levelCount: int
    const stats: Statistics.Stats
    var level: int
    var lives: int
    var playerName: string
    /** The player's shapes; active[i] is scored against target[i]. */
    var active: seq<Shape>
    var target: seq<Shape>
    var selected: set<nat>
    var focus: Option<nat>
    /** The shape being dragged, if any. Not cleared by the check or by loading, so it may be stale. */
    var dragIndex: Option<nat>
    var dragOffset: Point
    var difficulty: Difficulty
    var snapRadius: int

    /** Selection and focus name existing shapes; the snap radius belongs to the difficulty. */
    predicate Valid()
      reads this`selected, this`focus, this`active, this`snapRadius, this`difficulty
    {
      (forall i | i in selected :: i < |active|) &&
      (focus.Some? ==> focus.value < |active|) &&
      snapRadius == SnapRadius(difficulty)
    }

    /** Both lists have one entry per pair. */
    predicate Paired()
      reads this`active, this`target
    {
      |active| == |target|
    }

    function RequiredBatch(): int
      reads this`level, this`active
    {
      RequiredBatchOf(level, |active|)
    }

    /** No more shapes are selected than a batch needs. */
    predicate SelectionWithinBatch()
      reads this`selected, this`level, this`active
    {
      selected == {} || |selected| <= RequiredBatch()
    }

    predicate IsLevelCleared()
      reads this`active
    {
      |active| == 0
    }

    constructor (width: int, height: int, levelCount: int, stats: Statistics.Stats)
      ensures this.width == width && this.height == height && this.levelCount == levelCount
      ensures this.stats == stats
      ensures level == 1 && lives == StartLives && playerName == "Névtelen"
      ensures active == [] && target == [] && selected == {} && focus == None
      ensures dragIndex == None && dragOffset == (0, 0)
      ensures difficulty == Normal && snapRadius == 45
      ensures Valid() && Paired() && SelectionWithinBatch()
    {
      this.width := width;
      this.height := height;
      this.levelCount := levelCount;
      this.stats := stats;
      level := 1;
      lives := StartLives;
      playerName := "Névtelen";
      active := [];
      target := [];
      selected := {};
      focus := None;
      dragIndex := None;
      dragOffset := (0, 0);
      difficulty := Normal;
      snapRadius := 45;
    }

    method SetDifficulty(name: string)
      modifies this`difficulty, this`snapRadius
      ensures difficulty == ParseDifficulty(name)
      ensures snapRadius == (if name == "easy" then 70 else if name == "hard" then 30 else 45)
      ensures old(Valid()) ==> Valid()
    {
      difficulty := ParseDifficulty(name);
      snapRadius := SnapRadius(difficulty);
    }

    /**
     * Fresh content for the current level: all state about the previous
     * content goes, up to min(level, 5) centres are placed from `tries`, and
     * pair k is built from centre k and draws[k]. The level's attempt is
     * recorded at clock `now`. On a canvas too small for the sampling window
     * the first centre draw fails (`ok` is false) with both lists already
     * cleared and no attempt recorded.
     */
    method NewLevel(canvasW: int, canvasH: int, tries: seq<seq<Point>>, draws: seq<PairDraw>, now: int)
      returns (ok: bool)
      requires 0 <= level < |stats.startTimes| && level < |stats.attempts|
      requires Pairs(level) <= |tries| && Pairs(level) <= |draws|
      requires forall p | 0 <= p < |tries| :: |tries[p]| == MaxTries
      requires CanSample(Max(canvasW, width), Max(canvasH, height)) ==>
        forall p, t | 0 <= p < |tries| && 0 <= t < |tries[p]| ::
          InWindow(tries[p][t], Max(canvasW, width), Max(canvasH, height))
      requires forall k | 0 <= k < |draws| :: draws[k].InRange()
      modifies this`active, this`target, this`selected, this`focus, this`dragIndex, stats
      ensures ok <==> Pairs(level) == 0 || CanSample(Max(canvasW, width), Max(canvasH, height))
      ensures Valid() <==> snapRadius == SnapRadius(difficulty)
      ensures Paired() && SelectionWithinBatch()
      ensures selected == {} && focus == None && dragIndex == None
      ensures !ok ==> active == [] && target == [] && unchanged(stats)
      ensures ok ==> stats.Value() == old(stats.Value()).StartLevel(level, now)
      ensures ok ==> target == TargetsAt(PlaceAll(tries[..Pairs(level)]), draws, Sides(level))
      ensures ok ==> active == ActivesAt(PlaceAll(tries[..Pairs(level)]), draws, Sides(level))
    {
      var cw := Max(canvasW, width);
      var ch := Max(canvasH, height);
      var pairs := Min(level, 5);
      var sides := Min(3 + (level - 1), 7);
      selected := {};
      focus := None;
      dragIndex := None;
      if pairs > 0 && !CanSample(cw, ch) {
        active := [];
        target := [];
        return false;
      }

      var centres := PlaceCentres(pairs, tries);

      var targets, actives := BuildPairs(centres, draws, sides);
      target := targets;
      active := actives;
      stats.StartLevel(level, now);
      return true;
    }

    /** Back to level 1 with full lives, then fresh content as `NewLevel` builds it. */
    method Reset(canvasW: int, canvasH: int, tries: seq<seq<Point>>, draws: seq<PairDraw>, now: int)
      returns (ok: bool)
      requires 1 < |stats.startTimes| && 1 < |stats.attempts|
      requires Pairs(1) <= |tries| && Pairs(1) <= |draws|
      requires forall p | 0 <= p < |tries| :: |tries[p]| == MaxTries
      requires CanSample(Max(canvasW, width), Max(canvasH, height)) ==>
        forall p, t | 0 <= p < |tries| && 0 <= t < |tries[p]| ::
          InWindow(tries[p][t], Max(canvasW, width), Max(canvasH, height))
      requires forall k | 0 <= k < |draws| :: draws[k].InRange()
      modifies this`level, this`lives, this`active, this`target, this`selected, this`focus,
        this`dragIndex, stats
      ensures level == 1 && lives == StartLives
      ensures ok <==> CanSample(Max(canvasW, width), Max(canvasH, height))
      ensures Valid() <==> snapRadius == SnapRadius(difficulty)
      ensures Paired() && SelectionWithinBatch() && |active| <= 1
      ensures selected == {} && focus == None && dragIndex == None
      ensures !ok ==> active == [] && target == [] && unchanged(stats)
      ensures ok ==> stats.Value() == old(stats.Value()).StartLevel(1, now)
      ensures ok ==> target == TargetsAt(PlaceAll(tries[..1]), draws, Sides(1))
      ensures ok ==> active == ActivesAt(PlaceAll(tries[..1]), draws, Sides(1))
    {
      level := 1;
      lives := StartLives;
      ok := NewLevel(canvasW, canvasH, tries, draws, now);
    }

    /** On to the next level, then fresh content as `NewLevel` builds it. */
    method NextLevel(canvasW: int, canvasH: int, tries: seq<seq<Point>>, draws: seq<PairDraw>, now: int)
      returns (ok: bool)
      requires 0 <= level + 1 < |stats.startTimes| && level + 1 < |stats.attempts|
      requires Pairs(level + 1) <= |tries| && Pairs(level + 1) <= |draws|
      requires forall p | 0 <= p < |tries| :: |tries[p]| == MaxTries
      requires CanSample(Max(canvasW, width), Max(canvasH, height)) ==>
        forall p, t | 0 <= p < |tries| && 0 <= t < |tries[p]| ::
          InWindow(tries[p][t], Max(canvasW, width), Max(canvasH, height))
      requires forall k | 0 <= k < |draws| :: draws[k].InRange()
      modifies this`level, this`active, this`target, this`selected, this`focus, this`dragIndex, stats
      ensures level == old(level) + 1
      ensures ok <==> Pairs(level) == 0 || CanSample(Max(canvasW, width), Max(canvasH, height))
      ensures Valid() <==> snapRadius == SnapRadius(difficulty)
      ensures Paired() && SelectionWithinBatch() && |active| <= Pairs(level)
      ensures selected == {} && focus == None && dragIndex == None
      ensures !ok ==> active == [] && target == [] && unchanged(stats)
      ensures ok ==> stats.Value() == old(stats.Value()).StartLevel(level, now)
      ensures ok ==> target == TargetsAt(PlaceAll(tries[..Pairs(level)]), draws, Sides(level))
      ensures ok ==> active == ActivesAt(PlaceAll(tries[..Pairs(level)]), draws, Sides(level))
    {
      level := level + 1;
      ok := NewLevel(canvasW, canvasH, tries, draws, now);
    }

    /**
     * Press at (x, y). The topmost shape containing the point has its
     * selection toggled (adding only below the batch size) and becomes both
     * the focus and the dragged shape. A miss only ends any drag.
     */
    method PointerDown(x: int, y: int)
      modifies this`selected, this`focus, this`dragIndex, this`dragOffset
      ensures old(Valid()) ==> Valid()
      ensures old(SelectionWithinBatch()) ==> SelectionWithinBatch()
      ensures NoHit(active, x, y) ==>
        dragIndex == None && selected == old(selected) && focus == old(focus) && dragOffset == old(dragOffset)
      ensures forall i: nat | IsTopmostHit(active, x, y, i) ::
        selected == Toggle(old(selected), i, RequiredBatch()) &&
        focus == Some(i) && dragIndex == Some(i) &&
        dragOffset == (x - active[i].cx, y - active[i].cy)
    {
      dragIndex := None;
      var hit := TopmostHit(active, x, y);
      if hit.Some? {
        var i := hit.value;
        selected := Toggle(selected, i, RequiredBatch());
        focus := Some(i);
        dragIndex := Some(i);
        dragOffset := (x - active[i].cx, y - active[i].cy);
        forall j: nat | IsTopmostHit(active, x, y, j) ensures j == i {
          TopmostHitUnique(active, x, y, i, j);
        }
      }
    }

    /**
     * Pointer moved to (x, y) during a drag: the shape follows the pointer
     * (keeping the grab offset), unless that puts it within the snap radius of
     * its own target, in which case it lands on the target's centre and the
     * drag ends. No other shape moves. A drag index left stale by a check
     * or a load that names no shape is the game's IndexError: `ok` is false
     * and nothing changes.
     */
    method DragTo(x: int, y: int) returns (ok: bool)
      modifies this`active, this`dragIndex
      ensures ok <==> old(dragIndex).None? || old(dragIndex).value < |old(active)|
      ensures (old(Valid()) ==> Valid()) && |active| == |old(active)|
      ensures !ok ==> active == old(active) && dragIndex == old(dragIndex)
      ensures old(dragIndex).None? ==> active == old(active) && dragIndex == None
      ensures ok && old(dragIndex).Some? ==>
        var i := old(dragIndex).value;
        var p := (x - dragOffset.0, y - dragOffset.1);
        var snaps := i < |target| && SqDist(p, target[i].Centre()) <= snapRadius * snapRadius;
        (forall j | 0 <= j < |active| && j != i :: active[j] == old(active)[j]) &&
        (snaps ==> active[i] == old(active)[i].(cx := target[i].cx, cy := target[i].cy) && dragIndex == None) &&
        (!snaps ==> active[i] == old(active)[i].(cx := p.0, cy := p.1) && dragIndex == old(dragIndex))
    {
      if dragIndex.None? {
        return true;
      }
      var i := dragIndex.value;
      if i >= |active| {
        return false;
      }
      var sh := active[i];
      var newX, newY := x - dragOffset.0, y - dragOffset.1;
      if 0 <= i < |target| {
        var t := target[i];
        if SqDist((newX, newY), t.Centre()) <= snapRadius * snapRadius {
          active := active[i := sh.(cx := t.cx, cy := t.cy)];
          dragIndex := None;
        } else {
          active := active[i := sh.(cx := newX, cy := newY)];
        }
      } else {
        active := active[i := sh.(cx := newX, cy := newY)];
      }
      return true;
    }

    method PointerUp(x: int, y: int)
      modifies this`dragIndex
      ensures dragIndex == None
    {
      dragIndex := None;
    }

    /** The shapes a rotate or scale acts on: the selection, else the focus, else none. */
    function Affected(): (s: set<nat>)
      reads this`selected, this`focus, this`active, this`snapRadius, this`difficulty
      ensures Valid() ==> forall i | i in s :: i < |active|
      ensures selected != {} ==> s == selected
      ensures selected == {} && focus.Some? ==> s == {focus.value}
      ensures selected == {} && focus.None? ==> s == {}
    {
      if selected != {} then selected else if focus.Some? then {focus.value} else {}
    }

    /** Turns every affected shape by `deg` degrees; the others are untouched. */
    method RotateActive(deg: int)
      requires forall i | i in Affected() :: i < |active|
      modifies this`active
      ensures (old(Valid()) ==> Valid()) && |active| == |old(active)|
      ensures forall i | 0 <= i < |active| ::
        active[i] == if i in Affected() then Rotated(old(active)[i], deg) else old(active)[i]
    {
      var todo := Affected();
      ghost var affected := todo;
      ghost var done: set<nat> := {};
      ghost var f := (sh: Shape) => Rotated(sh, deg);
      while todo != {}
        invariant todo + done == affected && todo !! done
        invariant active == EditAt(old(active), done, f)
        decreases |todo|
      {
        var i :| i in todo;
        EditAtStep(old(active), done, f, i);
        active := active[i := Rotated(active[i], deg)];
        todo := todo - {i};
        done := done + {i};
      }
    }

    /** Scales every affected shape by num / den (size truncated, then clamped); the others are untouched. */
    method ScaleActive(num: int, den: int)
      requires forall i | i in Affected() :: i < |active|
      requires den > 0
      modifies this`active
      ensures (old(Valid()) ==> Valid()) && |active| == |old(active)|
      ensures forall i | 0 <= i < |active| ::
        active[i] == if i in Affected() then Rescaled(old(active)[i], num, den) else old(active)[i]
    {
      var todo := Affected();
      ghost var affected := todo;
      ghost var done: set<nat> := {};
      ghost var f := (sh: Shape) => Rescaled(sh, num, den);
      while todo != {}
        invariant todo + done == affected && todo !! done
        invariant active == EditAt(old(active), done, f)
        decreases |todo|
      {
        var i :| i in todo;
        EditAtStep(old(active), done, f, i);
        active := active[i := Rescaled(active[i], num, den)];
        todo := todo - {i};
        done := done + {i};
      }
    }

    /** The batch size the check demands. */
    function Need(): (n: int)
      reads this`level, this`active
      ensures n <= |active|
      ensures |active| > 0 ==> n == RequiredBatch()
    {
      Min(RequiredBatch(), |active|)
    }

    /** The indices the check scores: the selection, or every shape when none is selected and all fit in one batch. */
    function Batch(): (b: set<nat>)
      reads this`selected, this`level, this`active
      ensures selected != {} ==> b == selected
      ensures selected == {} && |active| <= RequiredBatch() ==>
        |b| == |active| && forall i: nat :: i in b <==> i < |active|
      ensures selected == {} && |active| > RequiredBatch() ==> b == {}
    {
      if selected == {} && |active| <= Need() then RangeSet(|active|) else selected
    }

    /** The check gets past its neutral cases and scores the batch. */
    predicate Scored()
      reads this`selected, this`level, this`active
    {
      |active| > 0 && |Batch()| == Need()
    }

    /** Every shape of the batch is within the difficulty's tolerance of its target. */
    predicate BatchMatches()
      reads this`selected, this`level, this`active, this`target, this`difficulty
    {
      AllMatched(active, target, Batch(), ToleranceOf(difficulty))
    }

    /** Scoring can look up every batch shape and its target, and no target has size 0. */
    predicate ScoringDefined()
      reads this`selected, this`level, this`active, this`target
    {
      Scored() ==> forall i | i in Batch() :: i < |active| && i < |target| && target[i].size != 0
    }

    /** A check that clears the level can record the level's time. */
    predicate FinishDefined()
      reads this`selected, this`level, this`active, this`target, this`difficulty, stats`startTimes, stats`elapsed
    {
      Scored() && BatchMatches() && |Batch()| == |active| ==>
        0 <= level < |stats.startTimes| && level < |stats.elapsed|
    }

    /** Deletes the pairs at the indices of `batch` from both lists, highest index first. */
    method DeletePairs(batch: set<nat>)
      requires forall i | i in batch :: i < |active| && i < |target|
      modifies this`active, this`target
      ensures active == RemoveIndices(old(active), batch) && target == RemoveIndices(old(target), batch)
      ensures |active| == old(|active|) - |batch| && |target| == old(|target|) - |batch|
      ensures old(Paired()) ==> Paired()
    {
      ghost var a0, t0 := active, target;
      var i := Max(|active|, |target|);
      while i > 0
        invariant 0 <= i <= Max(|a0|, |t0|)
        invariant active == Prefix(a0, i) + SurvivorsFrom(a0, batch, i)
        invariant target == Prefix(t0, i) + SurvivorsFrom(t0, batch, i)
      {
        i := i - 1;
        DeleteStep(a0, batch, i);
        DeleteStep(t0, batch, i);
        if i in batch {
          active := active[..i] + active[i + 1..];
          target := target[..i] + target[i + 1..];
        }
      }
      RemoveIndicesLength(a0, batch);
      RemoveIndicesLength(t0, batch);
    }

    /** With nothing selected and every shape fitting in one batch, all shapes become selected. */
    method AutoSelect()
      modifies this`selected
      ensures selected == old(Batch()) && (old(Valid()) ==> Valid())
      ensures old(selected) == {} ==> forall i | i in selected :: i < |active|
      ensures old(SelectionWithinBatch()) ==> SelectionWithinBatch()
    {
      if selected == {} && |active| <= Need() {
        selected := RangeSet(|active|);
      }
    }

    /**
     * The scoring half of the check, once the selection has the right size:
     * one life is lost if some selected shape is out of tolerance, otherwise
     * the selected pairs are deleted, selection and focus cleared, and the
     * level's time recorded if no shape is left.
     */
    method ScoreSelection(now: int) returns (res: CheckResult)
      requires forall i | i in selected :: i < |active| && i < |target| && target[i].size != 0
      requires AllMatched(active, target, selected, ToleranceOf(difficulty)) && |selected| == |active| ==>
        0 <= level < |stats.startTimes| && level < |stats.elapsed|
      modifies this`selected, this`lives, this`active, this`target, this`focus, stats
      ensures (old(Valid()) ==> Valid()) && forall i | i in selected :: i < |active|
      ensures old(Paired()) ==> Paired()
      ensures !old(AllMatched(active, target, selected, ToleranceOf(difficulty))) ==>
        res == Inaccurate && lives == old(lives) - 1 && selected == old(selected) &&
        active == old(active) && target == old(target) && focus == old(focus) && unchanged(stats)
      ensures old(AllMatched(active, target, selected, ToleranceOf(difficulty))) ==>
        res == Matched && lives == old(lives) && selected == {} && focus == None &&
        active == RemoveIndices(old(active), old(selected)) &&
        target == RemoveIndices(old(target), old(selected)) &&
        |active| == old(|active|) - old(|selected|) &&
        if IsLevelCleared() then stats.Value() == old(stats.Value()).FinishLevel(level, now) else unchanged(stats)
    {
      var ok := AllMatch(active, target, selected, ToleranceOf(difficulty));
      if !ok {
        lives := lives - 1;
        return Inaccurate;
      }
      ghost var n0, k := |active|, |selected|;
      DeletePairs(selected);
      selected := {};
      focus := None;
      if |active| == 0 {
        assert n0 == k;
        var _ := stats.FinishLevel(level, now);
      }
      return Matched;
    }

    /**
     * The batch alignment check. Neutral when no shapes are left or the batch
     * has the wrong size; loses exactly one life when some batch shape is out
     * of tolerance; otherwise deletes exactly the batch's pairs from both
     * lists, clears selection and focus, and records the level's time if no
     * shape is left.
     */
    method CheckAlignmentBatch(now: int) returns (res: CheckResult)
      requires ScoringDefined() && FinishDefined()
      modifies this`selected, this`lives, this`active, this`target, this`focus, stats
      ensures old(Valid()) ==> Valid()
      ensures old(SelectionWithinBatch()) ==> SelectionWithinBatch()
      ensures old(Paired()) ==> Paired()
      ensures old(IsLevelCleared()) ==>
        res == AlreadyCleared && selected == old(selected) && lives == old(lives) &&
        active == old(active) && target == old(target) && focus == old(focus) && unchanged(stats)
      ensures !old(IsLevelCleared()) && !old(Scored()) ==>
        res == SelectExactly(old(Need())) && selected == old(selected) && lives == old(lives) &&
        active == old(active) && target == old(target) && focus == old(focus) && unchanged(stats)
      ensures old(Scored()) && !old(BatchMatches()) ==>
        res == Inaccurate && lives == old(lives) - 1 && selected == old(Batch()) &&
        active == old(active) && target == old(target) && focus == old(focus) && unchanged(stats)
      ensures old(Scored()) && old(BatchMatches()) ==>
        res == Matched && lives == old(lives) && selected == {} && focus == None &&
        active == RemoveIndices(old(active), old(Batch())) &&
        target == RemoveIndices(old(target), old(Batch())) &&
        |active| == old(|active|) - old(|Batch()|)
      ensures old(Scored()) && old(BatchMatches()) && IsLevelCleared() ==>
        0 <= level && stats.Value() == old(stats.Value()).FinishLevel(level, now)
      ensures old(Scored()) && old(BatchMatches()) && !IsLevelCleared() ==> unchanged(stats)
    {
      if |active| == 0 {
        return AlreadyCleared;
      }
      var need := Need();
      AutoSelect();
      if |selected| != need {
        return SelectExactly(need);
      }
      res := ScoreSelection(now);
    }

    /** The saved form of the game; the shape lists load back unchanged. */
    function ToDict(): (s: Snapshot)
      reads this, stats
      ensures s.active.Some? && s.target.Some? && s.stats == Some(stats.AsDict())
      ensures s.level == Some(level) && s.lives == Some(lives) && s.playerName == Some(playerName)
      ensures s.width == Some(width) && s.height == Some(height) && s.levelCount == Some(levelCount)
      ensures s.difficulty == Some(DifficultyName(difficulty)) && ParseDifficulty(s.difficulty.value) == difficulty
      ensures LoadedShapes(s.active) == Some(active) && LoadedShapes(s.target) == Some(target)
      ensures forall k | 0 <= k < |s.active.value| :: s.active.value[k].Keys == {"cx", "cy", "size", "rotation", "sides", "color"}
      ensures forall k | 0 <= k < |s.target.value| :: s.target.value[k].Keys == {"cx", "cy", "size", "rotation", "sides", "color"}
    {
      ParseDictsOf(active);
      ParseDictsOf(target);
      Snapshot(Some(level), Some(lives), Some(playerName), Some(DictsOf(active)), Some(DictsOf(target)),
               Some(stats.AsDict()), Some(width), Some(height), Some(levelCount), Some(DifficultyName(difficulty)))
    }

    /**
     * Loads a snapshot. Absent keys take defaults (level 1, 3 lives) or keep
     * the current value; the saved stats are ignored; the lengths of the two
     * lists are not compared. The fields are assigned one by one, so a shape
     * entry that fails to load leaves the fields before it assigned and the
     * ones after it untouched.
     */
    method FromDict(data: Snapshot) returns (ok: bool)
      modifies this`level, this`lives, this`playerName, this`width, this`height, this`levelCount,
        this`difficulty, this`snapRadius, this`active, this`target, this`selected, this`focus
      ensures level == data.level.GetOr(1) && lives == data.lives.GetOr(StartLives)
      ensures playerName == data.playerName.GetOr(old(playerName))
      ensures width == data.width.GetOr(old(width)) && height == data.height.GetOr(old(height))
      ensures levelCount == data.levelCount.GetOr(old(levelCount))
      ensures difficulty == ParseDifficulty(data.difficulty.GetOr(DifficultyName(old(difficulty))))
      ensures snapRadius == SnapRadius(difficulty)
      ensures ok <==> LoadedShapes(data.active).Some? && LoadedShapes(data.target).Some?
      ensures ok ==>
        active == LoadedShapes(data.active).value && target == LoadedShapes(data.target).value &&
        selected == {} && focus == None && Valid() && SelectionWithinBatch()
      ensures LoadedShapes(data.active).None? ==>
        active == old(active) && target == old(target) && selected == old(selected) && focus == old(focus)
      ensures LoadedShapes(data.active).Some? && LoadedShapes(data.target).None? ==>
        active == LoadedShapes(data.active).value &&
        target == old(target) && selected == old(selected) && focus == old(focus)
    {
      LoadScalars(data);
      ok := LoadLists(data.active, data.target);
    }

    /** The scalar half of loading, which comes first: each key present replaces its field. */
    method LoadScalars(data: Snapshot)
      modifies this`level, this`lives, this`playerName, this`width, this`height, this`levelCount,
        this`difficulty, this`snapRadius
      ensures level == data.level.GetOr(1) && lives == data.lives.GetOr(StartLives)
      ensures playerName == data.playerName.GetOr(old(playerName))
      ensures width == data.width.GetOr(old(width)) && height == data.height.GetOr(old(height))
      ensures levelCount == data.levelCount.GetOr(old(levelCount))
      ensures difficulty == ParseDifficulty(data.difficulty.GetOr(DifficultyName(old(difficulty))))
      ensures snapRadius == SnapRadius(difficulty)
    {
      level := data.level.GetOr(1);
      lives := data.lives.GetOr(StartLives);
      playerName := data.playerName.GetOr(playerName);
      width := data.width.GetOr(width);
      height := data.height.GetOr(height);
      levelCount := data.levelCount.GetOr(levelCount);
      var name := data.difficulty.GetOr(DifficultyName(difficulty));
      SetDifficulty(name);
    }

    /**
     * The list half of loading: the active list is decoded and assigned, then
     * the target list; selection and focus are cleared only when both load.
     */
    method LoadLists(activeEntry: Option<seq<ShapeDict>>, targetEntry: Option<seq<ShapeDict>>) returns (ok: bool)
      modifies this`active, this`target, this`selected, this`focus
      ensures ok <==> LoadedShapes(activeEntry).Some? && LoadedShapes(targetEntry).Some?
      ensures ok ==>
        active == LoadedShapes(activeEntry).value && target == LoadedShapes(targetEntry).value &&
        selected == {} && focus == None
      ensures LoadedShapes(activeEntry).None? ==>
        active == old(active) && target == old(target) && selected == old(selected) && focus == old(focus)
      ensures LoadedShapes(activeEntry).Some? && LoadedShapes(targetEntry).None? ==>
        active == LoadedShapes(activeEntry).value &&
        target == old(target) && selected == old(selected) && focus == old(focus)
    {
      var loadedActive := LoadedShapes(activeEntry);
      if loadedActive.None? {
        return false;
      }
      active := loadedActive.value;
      var loadedTarget := LoadedShapes(targetEntry);
      if loadedTarget.None? {
        return false;
      }
      target := loadedTarget.value;
      selected := {};
      focus := None;
      return true;
    }

    /**
     * Saving and loading back restores level, lives, name, canvas size, level
     * count, difficulty and both shape lists; selection and focus are cleared.
     * A stale selection or focus does not matter: both are cleared on load.
     */
    method SaveAndReload() returns (ok: bool)
      requires snapRadius == SnapRadius(difficulty)
      modifies this`level, this`lives, this`playerName, this`width, this`height, this`levelCount,
        this`difficulty, this`snapRadius, this`active, this`target, this`selected, this`focus
      ensures ok && Valid()
      ensures level == old(level) && lives == old(lives) && playerName == old(playerName)
      ensures width == old(width) && height == old(height) && levelCount == old(levelCount)
      ensures difficulty == old(difficulty) && snapRadius == old(snapRadius)
      ensures active == old(active) && target == old(target) && selected == {} && focus == None
    {
      var snapshot := ToDict();
      ok := FromDict(snapshot);
    }
  }
}
