/**
 * star5: two wires are laid out on a grid from the origin as sequences of
 * axis-aligned segments; the answer is the Manhattan distance from the
 * origin to the closest point, other than the origin, where they cross.
 * Coordinates are unbounded integers (the source's `i32` overflow is not
 * modelled).
 */
module CrossedWires {
  import opened MachineInts
  import opened Optional

  datatype Point = Point(x: int, y: int)

  const ORIGIN: Point := Point(0, 0)

  function Abs(n: int): nat
  {
    if n < 0 then -n else n
  }

  function Min(a: int, b: int): int
  {
    if a <= b then a else b
  }

  function Max(a: int, b: int): int
  {
    if a <= b then b else a
  }

  /**
   * The Manhattan distance from the origin: `x + y` in the first quadrant,
   * never smaller than either coordinate's magnitude, and zero only at the
   * origin.
   */
  function ManhattanDistanceFromOrigin(p: Point): (d: nat)
    ensures p.x >= 0 && p.y >= 0 ==> d == p.x + p.y
    ensures d >= Abs(p.x) && d >= Abs(p.y)
    ensures d == 0 <==> p == ORIGIN
  {
    Abs(p.x) + Abs(p.y)
  }

  /** Reflecting a point in either axis keeps its distance, so every quadrant measures `|x| + |y|`. */
  lemma ManhattanDistanceReflects(p: Point)
    ensures ManhattanDistanceFromOrigin(Point(-p.x, p.y)) == ManhattanDistanceFromOrigin(p)
    ensures ManhattanDistanceFromOrigin(Point(p.x, -p.y)) == ManhattanDistanceFromOrigin(p)
  {
  }

  /** The derived `PartialOrd` `<` on points: by `x`, then by `y`. */
  predicate LessThan(a: Point, b: Point)
  {
    a.x < b.x || (a.x == b.x && a.y < b.y)
  }

  datatype LineKind = Horizontal | Vertical

  /** A segment from `start` to `end` (the source's `endpoints.0` and `.1`). */
  datatype Line = Line(start: Point, end: Point, kind: LineKind)

  /**
   * The shape every segment built from a path has: vertical exactly when
   * both ends share `x`, and a horizontal segment keeps `y`.
   */
  predicate WellFormed(l: Line)
  {
    && (l.kind == Vertical <==> l.start.x == l.end.x)
    && (l.kind == Horizontal ==> l.start.y == l.end.y)
  }

  /** `p` lies within the bounding box of `l`, which for a well-formed segment is the segment. */
  predicate OnSegment(p: Point, l: Line)
  {
    && Min(l.start.x, l.end.x) <= p.x <= Max(l.start.x, l.end.x)
    && Min(l.start.y, l.end.y) <= p.y <= Max(l.start.y, l.end.y)
  }

  /** Which coordinate `IsIn` compares. */
  datatype Extent = Domain | Range

  /**
   * Whether the start of `self` lies within the extent of `cmp` along one
   * axis, where `cmp`'s ends are ordered by the point order above. Along `x`
   * this is always `cmp`'s x-span; along `y` it is `cmp`'s y-span when `cmp`
   * is vertical (both ends share `x`).
   */
  function IsIn(self: Line, extent: Extent, cmp: Line): (r: bool)
    ensures extent == Domain ==>
              (r <==> Min(cmp.start.x, cmp.end.x) <= self.start.x <= Max(cmp.start.x, cmp.end.x))
    ensures extent == Range && cmp.start.x == cmp.end.x ==>
              (r <==> Min(cmp.start.y, cmp.end.y) <= self.start.y <= Max(cmp.start.y, cmp.end.y))
  {
    var (lo, hi) := if LessThan(cmp.start, cmp.end) then (cmp.start, cmp.end) else (cmp.end, cmp.start);
    match extent
    case Domain => lo.x <= self.start.x && hi.x >= self.start.x
    case Range => lo.y <= self.start.y && hi.y >= self.start.y
  }

  /**
   * The crossing of a horizontal and a vertical segment: the vertical's `x`
   * and the horizontal's `y`, when that point is within the horizontal's
   * x-span and the vertical's extent along `y`. Segments of the same kind
   * never cross, even when they overlap.
   */
  function IntersectsWith(self: Line, cmp: Line): (r: Option<Point>)
    ensures self.kind == cmp.kind ==> r == None
    ensures r.Some? ==> var (h, v) := if self.kind == Horizontal then (self, cmp) else (cmp, self);
              && h.kind == Horizontal && v.kind == Vertical
              && r.value == Point(v.start.x, h.start.y)
              && Min(h.start.x, h.end.x) <= r.value.x <= Max(h.start.x, h.end.x)
              && (v.start.x == v.end.x ==> Min(v.start.y, v.end.y) <= r.value.y <= Max(v.start.y, v.end.y))
  {
    if self.kind == cmp.kind then None
    else
      var (h, v) := if self.kind == Horizontal then (self, cmp) else (cmp, self);
      if !IsIn(v, Domain, h) || !IsIn(h, Range, v) then None
      else Some(Point(v.start.x, h.start.y))
  }

  /** Crossing does not depend on which segment asks. */
  lemma IntersectsWithSymmetric(a: Line, b: Line)
    ensures IntersectsWith(a, b) == IntersectsWith(b, a)
  {
  }

  /**
   * For well-formed segments of different kinds, the crossing is exactly a
   * point that lies on both.
   */
  lemma IntersectsWithIsCommonPoint(a: Line, b: Line, p: Point)
    requires WellFormed(a) && WellFormed(b) && a.kind != b.kind
    ensures IntersectsWith(a, b) == Some(p) <==> OnSegment(p, a) && OnSegment(p, b)
  {
  }

  /** A wire: its segments in the order they are laid. */
  datatype Wire = Wire(lines: seq<Line>)

  predicate IsDirection(c: char)
  {
    c == 'D' || c == 'U' || c == 'L' || c == 'R'
  }

  /** Where one token of the path leads from `p`: down, up, left or right by `steps`. */
  function Move(p: Point, direction: char, steps: u16): Point
    requires IsDirection(direction)
  {
    match direction
    case 'D' => Point(p.x, p.y - steps)
    case 'U' => Point(p.x, p.y + steps)
    case 'L' => Point(p.x - steps, p.y)
    case 'R' => Point(p.x + steps, p.y)
  }

  /** The segment from `from` to `to`, vertical exactly when `x` is unchanged. */
  function Segment(from: Point, to: Point): Line
  {
    Line(from, to, if from.x == to.x then Vertical else Horizontal)
  }

  /**
   * The segments of a path laid from `start`: one per token, the first from
   * `start` and each later one from the previous end, each moved by its
   * token and well-formed. It fails exactly when some token has a direction
   * other than D, U, L or R.
   */
  function LinesFrom(start: Point, path: seq<(char, u16)>): (r: Option<seq<Line>>)
    ensures r.None? <==> exists i :: 0 <= i < |path| && !IsDirection(path[i].0)
    ensures r.Some? ==> |r.value| == |path|
    ensures r.Some? && |path| > 0 ==> r.value[0].start == start
    ensures r.Some? ==> forall i :: 0 < i < |path| ==> r.value[i].start == r.value[i - 1].end
    ensures r.Some? ==> forall i :: 0 <= i < |path| ==>
              IsDirection(path[i].0) && r.value[i].end == Move(r.value[i].start, path[i].0, path[i].1)
    ensures r.Some? ==> forall i :: 0 <= i < |path| ==> WellFormed(r.value[i])
    decreases |path|
  {
    if |path| == 0 then Some([])
    else if !IsDirection(path[0].0) then None
    else
      var next := Move(start, path[0].0, path[0].1);
      match LinesFrom(next, path[1..])
      case None => None
      case Some(rest) => Some([Segment(start, next)] + rest)
  }

  /** `Wire::new_from_path`: lay the path from the origin; an unknown direction panics. */
  function NewFromPath(path: seq<(char, u16)>): (r: Option<Wire>)
    ensures r.None? <==> exists i :: 0 <= i < |path| && !IsDirection(path[i].0)
    ensures r.Some? ==> |r.value.lines| == |path| && (|path| > 0 ==> r.value.lines[0].start == ORIGIN)
  {
    match LinesFrom(ORIGIN, path)
    case None => None
    case Some(lines) => Some(Wire(lines))
  }

  /** The inner loop: the non-origin crossings of `a` with each of `bs`, in order. */
  function LineCrossings(a: Line, bs: seq<Line>): (ps: seq<Point>)
    ensures forall p :: p in ps <==>
              p != ORIGIN && exists j :: 0 <= j < |bs| && IntersectsWith(a, bs[j]) == Some(p)
  {
    if |bs| == 0 then []
    else
      var last := bs[|bs| - 1];
      var earlier := LineCrossings(a, bs[..|bs| - 1]);
      match IntersectsWith(a, last)
      case Some(p) => if p != ORIGIN then earlier + [p] else earlier
      case None => earlier
  }

  /** Some segment of `linesA` crosses some segment of `linesB` at `p`. */
  ghost predicate CrossAt(linesA: seq<Line>, linesB: seq<Line>, p: Point)
  {
    exists i, j :: 0 <= i < |linesA| && 0 <= j < |linesB| && IntersectsWith(linesA[i], linesB[j]) == Some(p)
  }

  /** A crossing of a longer first wire is one of its prefix or one of its last segment. */
  lemma CrossAtSnoc(linesA: seq<Line>, linesB: seq<Line>, p: Point)
    requires |linesA| > 0
    ensures CrossAt(linesA, linesB, p) <==>
              CrossAt(linesA[..|linesA| - 1], linesB, p) ||
              exists j :: 0 <= j < |linesB| && IntersectsWith(linesA[|linesA| - 1], linesB[j]) == Some(p)
  {
  }

  /**
   * All non-origin crossings, segments of the first wire outer and of the
   * second inner: a point is listed exactly when some pair of segments
   * crosses there and it is not the origin.
   */
  function Crossings(linesA: seq<Line>, linesB: seq<Line>): (ps: seq<Point>)
    ensures ORIGIN !in ps
    ensures forall p :: p in ps <==> p != ORIGIN && CrossAt(linesA, linesB, p)
  {
    if |linesA| == 0 then []
    else
      var ps := Crossings(linesA[..|linesA| - 1], linesB) + LineCrossings(linesA[|linesA| - 1], linesB);
      assert forall p :: p in ps <==> p != ORIGIN && CrossAt(linesA, linesB, p) by {
        forall p {
          CrossAtSnoc(linesA, linesB, p);
        }
      }
      ps
  }

  /** The two wires cross at the same points whichever is taken first. */
  lemma CrossingsSymmetric(linesA: seq<Line>, linesB: seq<Line>, p: Point)
    ensures p in Crossings(linesA, linesB) <==> p in Crossings(linesB, linesA)
  {
  }

  /** `get_intersection_points_with`, as the source's two nested loops. */
  method GetIntersectionPointsWith(self: Wire, cmp: Wire) returns (points: seq<Point>)
    ensures points == Crossings(self.lines, cmp.lines)
  {
    points := [];
    for i := 0 to |self.lines|
      invariant points == Crossings(self.lines[..i], cmp.lines)
    {
      var a := self.lines[i];
      for j := 0 to |cmp.lines|
        invariant points == Crossings(self.lines[..i], cmp.lines) + LineCrossings(a, cmp.lines[..j])
      {
        assert cmp.lines[..j + 1][..j] == cmp.lines[..j];
        var crossing := IntersectsWith(a, cmp.lines[j]);
        match crossing {
          case Some(p) =>
            if p != ORIGIN {
              points := points + [p];
            }
          case None =>
        }
      }
      assert cmp.lines[..|cmp.lines|] == cmp.lines;
      assert self.lines[..i + 1][..i] == self.lines[..i];
    }
    assert self.lines[..|self.lines|] == self.lines;
  }

  /**
   * The fold `min` seeded with `acc`: no larger than `acc` or any point's
   * distance, and equal to `acc` or to one of those distances.
   */
  function FoldMinDistance(acc: int, ps: seq<Point>): (d: int)
    ensures d <= acc
    ensures forall p :: p in ps ==> d <= ManhattanDistanceFromOrigin(p)
    ensures d == acc || exists p :: p in ps && d == ManhattanDistanceFromOrigin(p)
  {
    if |ps| == 0 then acc
    else
      var x := ManhattanDistanceFromOrigin(ps[0]);
      FoldMinDistance(if acc < x then acc else x, ps[1..])
  }

  /**
   * The printed answer for a list of crossings: the least distance, or
   * `u32::MAX` when there is none.
   */
  function MinDistance(ps: seq<Point>): (d: int)
    ensures |ps| == 0 ==> d == U32_MAX
    ensures d <= U32_MAX
    ensures forall p :: p in ps ==> d <= ManhattanDistanceFromOrigin(p)
    ensures d == U32_MAX || exists p :: p in ps && d == ManhattanDistanceFromOrigin(p)
  {
    FoldMinDistance(U32_MAX, ps)
  }

  /**
   * The whole puzzle: lay both wires and report the distance of the closest
   * non-origin crossing (`u32::MAX` when they never cross). It fails exactly
   * when either path has an unknown direction.
   */
  function ClosestCrossing(pathA: seq<(char, u16)>, pathB: seq<(char, u16)>): (r: Option<int>)
    ensures r.None? <==> NewFromPath(pathA).None? || NewFromPath(pathB).None?
    ensures r.Some? ==> var ps := Crossings(NewFromPath(pathA).value.lines, NewFromPath(pathB).value.lines);
              && r.value <= U32_MAX
              && (forall p :: p in ps ==> r.value <= ManhattanDistanceFromOrigin(p))
              && (r.value == U32_MAX || exists p :: p in ps && r.value == ManhattanDistanceFromOrigin(p))
  {
    match (NewFromPath(pathA), NewFromPath(pathB))
    case (Some(a), Some(b)) => Some(MinDistance(Crossings(a.lines, b.lines)))
    case _ => None
  }
}
