// Line drawing on the map image: the incremental integer algorithm paints exactly the rounded line.
module DrawLine {

  function Abs(x: int): nat {
    if x < 0 then -x else x
  }

  function Max(x: int, y: int): int {
    if x < y then y else x
  }

  datatype Point = Point(x: int, y: int)

  // n * minor / major rounded to the nearest integer, halves up.
  function Rounded(n: nat, minor: nat, major: nat): nat
    requires major > 0
  {
    (2 * n * minor + major) / (2 * major)
  }

  function Steps(a: Point, b: Point): nat {
    Max(Abs(b.x - a.x), Abs(b.y - a.y))
  }

  function Toward(from: int, to: int, distance: nat): int {
    if from < to then from + distance else from - distance
  }

  // The n-th point of the line: n steps along the longer axis, and the nearest pixel on the other one.
  function LinePoint(a: Point, b: Point, n: nat): Point {
    var dx, dy := Abs(b.x - a.x), Abs(b.y - a.y);
    if dx == 0 && dy == 0 then a
    else if dx >= dy then Point(Toward(a.x, b.x, n), Toward(a.y, b.y, Rounded(n, dy, dx)))
    else Point(Toward(a.x, b.x, Rounded(n, dx, dy)), Toward(a.y, b.y, n))
  }

  lemma ProductMonotone(a: nat, b: nat, c: nat)
    requires a <= b
    ensures a * c <= b * c
  {
  }

  lemma QuotientIs(v: nat, d: nat, j: nat)
    requires d > 0
    ensures j == v / d <==> j * d <= v < j * d + d
  {
    var q := v / d;
    assert q * d <= v < q * d + d;
    assert (j + 1) * d == j * d + d && (q + 1) * d == q * d + d;
    if j < q {
      ProductMonotone(j + 1, q, d);
    } else if j > q {
      ProductMonotone(q + 1, j, d);
    }
  }

  // The rounded offset is the only one within half a pixel of the ideal line.
  lemma RoundedIs(n: nat, minor: nat, major: nat, j: nat)
    requires major > 0
    ensures j == Rounded(n, minor, major) <==> 0 < 2 * (j * major - n * minor) + major <= 2 * major
  {
    QuotientIs(2 * n * minor + major, 2 * major, j);
    assert j * (2 * major) == 2 * (j * major);
    assert 2 * n * minor == 2 * (n * minor);
  }

  // After n steps along the longer axis and j along the other, with e = (j + 1) * major - (n + 1) * minor:
  // the algorithm's tests always advance the longer axis, and advance the other exactly when rounding does.
  lemma TestsRound(major: nat, minor: nat, n: nat, j: nat, e: int)
    requires major >= minor && major > 0 && j == Rounded(n, minor, major)
    requires e == (j + 1) * major - (n + 1) * minor
    ensures 0 <= 2 * e + minor
    ensures Rounded(n + 1, minor, major) == if 2 * e <= major then j + 1 else j
  {
    RoundedIs(n, minor, major, j);
    RoundedIs(n + 1, minor, major, j);
    RoundedIs(n + 1, minor, major, j + 1);
    assert (j + 1) * major == j * major + major && (n + 1) * minor == n * minor + minor;
  }

  lemma LineEnds(a: Point, b: Point)
    ensures LinePoint(a, b, 0) == a && LinePoint(a, b, Steps(a, b)) == b
    ensures forall n :: 0 <= n < Steps(a, b) ==> LinePoint(a, b, n) != b
  {
    var dx, dy := Abs(b.x - a.x), Abs(b.y - a.y);
    if dx >= dy && dx > 0 {
      RoundedIs(0, dy, dx, 0);
      RoundedIs(dx, dy, dx, dy);
    } else if dy > 0 {
      RoundedIs(0, dx, dy, 0);
      RoundedIs(dy, dx, dy, dx);
    }
  }

  // No visited point is more than half a pixel from the ideal line, and none lies beyond an end point.
  lemma HalfPixel(a: Point, b: Point, n: nat)
    requires n <= Steps(a, b)
    ensures var dx, dy, p := Abs(b.x - a.x), Abs(b.y - a.y), LinePoint(a, b, n);
            var i, j := Abs(p.x - a.x), Abs(p.y - a.y);
            && i <= dx && j <= dy
            && 2 * Abs(j * dx - i * dy) <= Max(dx, dy)
            && (p.x == a.x || (p.x > a.x) == (b.x > a.x)) && (p.y == a.y || (p.y > a.y) == (b.y > a.y))
  {
    var dx, dy := Abs(b.x - a.x), Abs(b.y - a.y);
    if dx >= dy && dx > 0 {
      WithinMinor(dx, dy, n);
    } else if dy > 0 {
      WithinMinor(dy, dx, n);
    }
  }

  lemma WithinMinor(major: nat, minor: nat, n: nat)
    requires major >= minor && major > 0 && n <= major
    ensures Rounded(n, minor, major) <= minor
    ensures 2 * Abs(Rounded(n, minor, major) * major - n * minor) <= major
  {
    hide Rounded;
    var j := Rounded(n, minor, major);
    RoundedIs(n, minor, major, j);
    ProductMonotone(n, major, minor);
    assert (minor + 1) * major == major * minor + major;
    ProductCancels(j, minor + 1, major);
  }

  lemma ProductCancels(a: nat, b: nat, c: nat)
    requires a * c < b * c
    ensures a < b
  {
    if b <= a {
      ProductMonotone(b, a, c);
    }
  }

  // Consecutive points touch: neither coordinate moves by more than one, and one of them moves.
  lemma LineConnected(a: Point, b: Point, n: nat)
    requires n < Steps(a, b)
    ensures var p, q := LinePoint(a, b, n), LinePoint(a, b, n + 1);
            Max(Abs(q.x - p.x), Abs(q.y - p.y)) == 1
  {
    var dx, dy := Abs(b.x - a.x), Abs(b.y - a.y);
    if dx >= dy {
      var j := Rounded(n, dy, dx);
      TestsRound(dx, dy, n, j, (j + 1) * dx - (n + 1) * dy);
    } else {
      var i := Rounded(n, dx, dy);
      TestsRound(dy, dx, n, i, (i + 1) * dy - (n + 1) * dx);
    }
  }

  ghost predicate Visited(a: Point, b: Point, count: nat, p: Point) {
    exists n :: 0 <= n < count && LinePoint(a, b, n) == p
  }

  method Plot<Color>(img: array2<Color>, x: int, y: int, c: Color)
    modifies img
    ensures forall u, v :: 0 <= u < img.Length0 && 0 <= v < img.Length1 ==>
              img[u, v] == if Point(u, v) == Point(x, y) then c else old(img[u, v])
  {
    if 0 <= x < img.Length0 && 0 <= y < img.Length1 {
      img[x, y] := c;
    }
  }

  // Paint the line from (x0, y0) to (x1, y1). The image's first index is x; points outside it are skipped.
  method DrawLine<Color>(img: array2<Color>, x0: int, y0: int, x1: int, y1: int, c: Color)
    modifies img
    ensures var a, b := Point(x0, y0), Point(x1, y1);
            forall x, y :: 0 <= x < img.Length0 && 0 <= y < img.Length1 ==>
              img[x, y] == if Visited(a, b, Steps(a, b) + 1, Point(x, y)) then c else old(img[x, y])
  {
    ghost var a, b := Point(x0, y0), Point(x1, y1);
    var dx, dy: int := Abs(x1 - x0), -(Abs(y1 - y0) as int);
    var sx, sy := 1, 1;
    if x0 >= x1 {
      sx := -1;
    }
    if y0 >= y1 {
      sy := -1;
    }
    var err := dx + dy;
    var x, y := x0, y0;
    ghost var at := Progress(0, 0, 0);
    LineEnds(a, b);
    InStepStarts(a, b);
    hide Visited, Rounded, LinePoint, InStep, Steps;
    while true
      invariant InStep(a, b, at, err) && x == Toward(x0, x1, at.i) && y == Toward(y0, y1, at.j)
      invariant forall u, v :: 0 <= u < img.Length0 && 0 <= v < img.Length1 ==>
                  img[u, v] == if Visited(a, b, at.n, Point(u, v)) then c else old(img[u, v])
      decreases Steps(a, b) - at.n
    {
      Plot(img, x, y, c);
      VisitedNext(a, b, at.n);
      InStepIsOnLine(a, b, at, err);
      if x == x1 && y == y1 {
        break;
      }
      x, y, err, at := Walk(x, y, err, dx, dy, sx, sy, a, b, at);
    }
  }

  // One iteration's moves.
  method Walk(x0: int, y0: int, err0: int, dx: int, dy: int, sx: int, sy: int,
              ghost a: Point, ghost b: Point, ghost at: Progress)
    returns (x: int, y: int, err: int, ghost at': Progress)
    requires InStep(a, b, at, err0) && at.n < Steps(a, b)
    requires dx == Abs(b.x - a.x) && dy == -(Abs(b.y - a.y) as int)
    requires sx == (if a.x < b.x then 1 else -1) && sy == (if a.y < b.y then 1 else -1)
    requires x0 == Toward(a.x, b.x, at.i) && y0 == Toward(a.y, b.y, at.j)
    ensures InStep(a, b, at', err) && at'.n == at.n + 1
    ensures x == Toward(a.x, b.x, at'.i) && y == Toward(a.y, b.y, at'.j)
  {
    hide InStep;
    Advances(a, b, at, err0);
    at' := Next(at, dx, dy, err0);
    x, y, err := x0, y0, err0;
    var e2 := 2 * err;
    if e2 >= dy {
      err := err + dy;
      x := x + sx;
    }
    if e2 <= dx {
      err := err + dx;
      y := y + sy;
    }
  }

  // Where the loop is: n iterations made, i steps on the x axis and j on the y axis.
  datatype Progress = Progress(n: nat, i: nat, j: nat)

  function Next(at: Progress, dx: int, dy: int, err: int): Progress {
    Progress(at.n + 1, if 2 * err >= dy then at.i + 1 else at.i, if 2 * err <= dx then at.j + 1 else at.j)
  }

  ghost predicate InStep(a: Point, b: Point, at: Progress, err: int) {
    var dx, dy := Abs(b.x - a.x), Abs(b.y - a.y);
    && at.n <= Max(dx, dy)
    && err == (at.j + 1) * dx - (at.i + 1) * dy
    && (dx >= dy && dx > 0 ==> at.i == at.n && at.j == Rounded(at.n, dy, dx))
    && (dx < dy ==> at.j == at.n && at.i == Rounded(at.n, dx, dy))
    && (dx == 0 && dy == 0 ==> at.i == 0 && at.j == 0)
  }

  lemma InStepStarts(a: Point, b: Point)
    ensures InStep(a, b, Progress(0, 0, 0), Abs(b.x - a.x) - Abs(b.y - a.y))
    ensures forall p :: !Visited(a, b, 0, p)
  {
    var dx, dy := Abs(b.x - a.x), Abs(b.y - a.y);
    if dx >= dy && dx > 0 {
      RoundedIs(0, dy, dx, 0);
    } else if dy > 0 {
      RoundedIs(0, dx, dy, 0);
    }
  }

  lemma InStepIsOnLine(a: Point, b: Point, at: Progress, err: int)
    requires InStep(a, b, at, err)
    ensures LinePoint(a, b, at.n) == Point(Toward(a.x, b.x, at.i), Toward(a.y, b.y, at.j))
    ensures LinePoint(a, b, at.n) == b <==> at.n == Steps(a, b)
    ensures at.n <= Steps(a, b)
  {
    LineEnds(a, b);
  }

  // The error term after the moves.
  function NextError(dx: int, dy: int, err: int): int {
    err + (if 2 * err >= dy then dy else 0) + (if 2 * err <= dx then dx else 0)
  }

  lemma ErrorFollows(dx: nat, dy: nat, at: Progress, err: int)
    requires err == (at.j + 1) * dx - (at.i + 1) * dy
    ensures var next := Next(at, dx, -(dy as int), err);
            NextError(dx, -(dy as int), err) == (next.j + 1) * dx - (next.i + 1) * dy
  {
    assert (at.j + 2) * dx == (at.j + 1) * dx + dx;
    assert (at.i + 2) * dy == (at.i + 1) * dy + dy;
  }

  lemma Advances(a: Point, b: Point, at: Progress, err: int)
    requires InStep(a, b, at, err) && at.n < Steps(a, b)
    ensures var dx: int, dy: int := Abs(b.x - a.x), -(Abs(b.y - a.y) as int);
            InStep(a, b, Next(at, dx, dy, err), NextError(dx, dy, err))
  {
    hide Rounded;
    var dx, dy := Abs(b.x - a.x), Abs(b.y - a.y);
    ErrorFollows(dx, dy, at, err);
    hide NextError;
    if dx >= dy {
      TestsRound(dx, dy, at.n, at.j, err);
    } else {
      TestsRound(dy, dx, at.n, at.i, -err);
    }
  }

  lemma VisitedNext(a: Point, b: Point, n: nat)
    ensures forall p :: Visited(a, b, n + 1, p) <==> Visited(a, b, n, p) || p == LinePoint(a, b, n)
  {
    hide LinePoint;
    assert Visited(a, b, n + 1, LinePoint(a, b, n));
  }
}
