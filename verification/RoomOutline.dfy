// The outline of a room: the edges between its cells and the cells around them.
module RoomOutline {
  import opened MapSpans

  datatype Edge = Edge(x1: int, y1: int, x2: int, y2: int)

  type Cell = (int, int)

  // Edge from (x, y) down to (x, y + 1): it separates the cells (x - 1, y) and (x, y).
  function VerticalEdge(x: int, y: int): Edge {
    Edge(x, y, x, y + 1)
  }

  // How far the cells of row `row` along the span stay outside the room, from the span's start on.
  function FreeEnd(s: Span, row: int, cells: set<Cell>, x: int): (end: int)
    requires s.x <= x <= s.x + s.w
    ensures x <= end <= s.x + s.w
    ensures forall u :: x <= u < end ==> (u, row) !in cells
    ensures end < s.x + s.w ==> (end, row) in cells
    decreases s.x + s.w - x
  {
    if x < s.x + s.w && (x, row) !in cells then FreeEnd(s, row, cells, x + 1) else x
  }

  function RowEdge(s: Span, row: int, y: int, cells: set<Cell>): seq<Edge> {
    var end := FreeEnd(s, row, cells, s.x);
    if end > s.x then [Edge(s.x, y, end, y)] else []
  }

  function SideEdge(x: int, outside: Cell, cells: set<Cell>): seq<Edge> {
    if outside in cells then [] else [VerticalEdge(x, outside.1)]
  }

  function SpanEdges(s: Span, cells: set<Cell>): seq<Edge> {
    RowEdge(s, s.y - 1, s.y, cells) + RowEdge(s, s.y + 1, s.y + 1, cells)
    + SideEdge(s.x, (s.x - 1, s.y), cells) + SideEdge(s.x + s.w, (s.x + s.w, s.y), cells)
  }

  function Outline(spans: seq<Span>, cells: set<Cell>): seq<Edge> {
    if spans == [] then [] else Outline(spans[..|spans| - 1], cells) + SpanEdges(spans[|spans| - 1], cells)
  }

  method RoomCells(spans: seq<Span>) returns (cells: set<Cell>)
    ensures forall x, y :: (x, y) in cells <==> Covers(spans, x, y)
  {
    cells := {};
    for i := 0 to |spans|
      invariant forall x, y :: (x, y) in cells <==> Covers(spans[..i], x, y)
    {
      var s := spans[i];
      ghost var before := cells;
      for x := s.x to s.x + s.w
        invariant forall u, v :: (u, v) in cells <==> (u, v) in before || (v == s.y && s.x <= u < x)
      {
        cells := cells + {(x, s.y)};
      }
      assert spans[..i + 1] == spans[..i] + [s];
      forall u, v ensures (u, v) in cells <==> Covers(spans[..i + 1], u, v) {
        CoversMore(spans[..i], s, u, v);
      }
    }
    assert spans[..|spans|] == spans;
  }

  method ScanRow(s: Span, row: int, cells: set<Cell>) returns (end: int)
    ensures end == FreeEnd(s, row, cells, s.x)
  {
    end := s.x;
    while end < s.x + s.w && (end, row) !in cells
      invariant s.x <= end <= s.x + s.w && FreeEnd(s, row, cells, s.x) == FreeEnd(s, row, cells, end)
    {
      end := end + 1;
    }
  }

  // The edges one span adds: top, bottom, left, right.
  method EdgesAround(s: Span, roomPixels: set<Cell>) returns (edges: seq<Edge>)
    requires s.w > 0
    ensures edges == SpanEdges(s, roomPixels)
  {
    edges := [];
    if (s.x, s.y - 1) !in roomPixels {
      var endX := ScanRow(s, s.y - 1, roomPixels);
      if endX > s.x {
        edges := edges + [Edge(s.x, s.y, endX, s.y)];
      }
    }
    assert edges == RowEdge(s, s.y - 1, s.y, roomPixels);
    if (s.x, s.y + 1) !in roomPixels {
      var endX := ScanRow(s, s.y + 1, roomPixels);
      if endX > s.x {
        edges := edges + [Edge(s.x, s.y + 1, endX, s.y + 1)];
      }
    }
    assert edges == RowEdge(s, s.y - 1, s.y, roomPixels) + RowEdge(s, s.y + 1, s.y + 1, roomPixels);
    if (s.x - 1, s.y) !in roomPixels {
      edges := edges + [Edge(s.x, s.y, s.x, s.y + 1)];
    }
    var endX := s.x + s.w;
    if (endX, s.y) !in roomPixels {
      edges := edges + [Edge(endX, s.y, endX, s.y + 1)];
    }
  }

  method ComputeOutline(spans: seq<Span>) returns (edges: seq<Edge>, ghost cells: set<Cell>)
    requires forall i :: 0 <= i < |spans| ==> spans[i].w > 0
    ensures forall x, y :: (x, y) in cells <==> Covers(spans, x, y)
    ensures edges == Outline(spans, cells)
  {
    var roomPixels := RoomCells(spans);
    cells := roomPixels;
    edges := [];
    hide SpanEdges, Covers;
    for i := 0 to |spans|
      invariant edges == Outline(spans[..i], roomPixels)
    {
      var around := EdgesAround(spans[i], roomPixels);
      edges := edges + around;
      assert spans[..i + 1][..i] == spans[..i];
    }
    assert spans[..|spans|] == spans;
  }

  // The room's cells, as non-overlapping spans in order.
  ghost predicate RoomOf(spans: seq<Span>, cells: set<Cell>) {
    && InOrder(spans)
    && (forall i :: 0 <= i < |spans| ==> spans[i].w > 0)
    && (forall x, y :: (x, y) in cells <==> Covers(spans, x, y))
  }

  ghost predicate VerticalBoundary(cells: set<Cell>, x: int, y: int) {
    ((x - 1, y) in cells) != ((x, y) in cells)
  }

  ghost predicate HorizontalBoundary(cells: set<Cell>, x: int, y: int) {
    ((x, y - 1) in cells) != ((x, y) in cells)
  }

  // The span emits the vertical edge at (x, y).
  ghost predicate EmitsVertical(s: Span, cells: set<Cell>, x: int, y: int) {
    s.y == y && ((s.x == x && (x - 1, y) !in cells) || (s.x + s.w == x && (x, y) !in cells))
  }

  lemma SpanVerticals(s: Span, cells: set<Cell>, x: int, y: int)
    requires s.w > 0 && forall u :: s.x <= u < s.x + s.w ==> (u, s.y) in cells
    ensures Times(SpanEdges(s, cells), VerticalEdge(x, y)) == if EmitsVertical(s, cells, x, y) then 1 else 0
  {
    hide RowEdge, SideEdge, Times, FreeEnd;
    var v := VerticalEdge(x, y);
    var top, bottom := RowEdge(s, s.y - 1, s.y, cells), RowEdge(s, s.y + 1, s.y + 1, cells);
    var left, right := SideEdge(s.x, (s.x - 1, s.y), cells), SideEdge(s.x + s.w, (s.x + s.w, s.y), cells);
    RowEdgeIsHorizontal(s, s.y - 1, s.y, cells, v);
    RowEdgeIsHorizontal(s, s.y + 1, s.y + 1, cells, v);
    SideEdgeCount(s.x, (s.x - 1, s.y), cells, x, y);
    SideEdgeCount(s.x + s.w, (s.x + s.w, s.y), cells, x, y);
    CountConcat(top, bottom, v);
    CountConcat(top + bottom, left, v);
    CountConcat(top + bottom + left, right, v);
    if s.y == y && s.x == x {
      assert (s.x, s.y) in cells;
    }
    if s.y == y && s.x + s.w == x {
      assert (s.x + s.w - 1, s.y) in cells;
    }
  }

  // How often an edge occurs.
  function Times(edges: seq<Edge>, e: Edge): nat {
    if edges == [] then 0 else Times(edges[..|edges| - 1], e) + if edges[|edges| - 1] == e then 1 else 0
  }

  lemma {:induction false} CountConcat(a: seq<Edge>, b: seq<Edge>, v: Edge)
    ensures Times(a + b, v) == Times(a, v) + Times(b, v)
  {
    if b == [] {
      assert a + b == a;
    } else {
      CountConcat(a, b[..|b| - 1], v);
      assert (a + b)[..|a + b| - 1] == a + b[..|b| - 1];
    }
  }

  lemma SideEdgeCount(x0: int, outside: Cell, cells: set<Cell>, x: int, y: int)
    ensures Times(SideEdge(x0, outside, cells), VerticalEdge(x, y))
         == if outside !in cells && x == x0 && y == outside.1 then 1 else 0
  {
  }

  lemma RowEdgeIsHorizontal(s: Span, row: int, y: int, cells: set<Cell>, v: Edge)
    requires v.y1 != v.y2
    ensures Times(RowEdge(s, row, y, cells), v) == 0
  {
  }

  lemma EmitterIsUnique(spans: seq<Span>, cells: set<Cell>, i: nat, j: nat, x: int, y: int)
    requires RoomOf(spans, cells) && i < |spans| && j < |spans|
    requires EmitsVertical(spans[i], cells, x, y) && EmitsVertical(spans[j], cells, x, y)
    ensures i == j
  {
    var cell := if (x, y) in cells then x else x - 1;
    SpanInside(spans, cells, i);
    SpanInside(spans, cells, j);
    assert Contains(spans[i], cell, y) && Contains(spans[j], cell, y);
    SpansApart(spans, i, j, cell, y);
  }

  lemma SpanInside(spans: seq<Span>, cells: set<Cell>, i: nat)
    requires RoomOf(spans, cells) && i < |spans|
    ensures spans[i].w > 0
    ensures forall u :: spans[i].x <= u < spans[i].x + spans[i].w ==> (u, spans[i].y) in cells
  {
    forall u | spans[i].x <= u < spans[i].x + spans[i].w ensures (u, spans[i].y) in cells {
      assert Contains(spans[i], u, spans[i].y);
    }
  }

  ghost predicate SomeEmits(spans: seq<Span>, cells: set<Cell>, n: nat, x: int, y: int)
    requires n <= |spans|
  {
    exists i :: 0 <= i < n && EmitsVertical(spans[i], cells, x, y)
  }

  lemma EmitsOnce(spans: seq<Span>, cells: set<Cell>, n: nat, x: int, y: int)
    requires RoomOf(spans, cells) && n < |spans|
    ensures SomeEmits(spans, cells, n + 1, x, y) <==>
              SomeEmits(spans, cells, n, x, y) || EmitsVertical(spans[n], cells, x, y)
    ensures !(SomeEmits(spans, cells, n, x, y) && EmitsVertical(spans[n], cells, x, y))
  {
    hide RoomOf, EmitsVertical;
    forall i | 0 <= i < n ensures !(EmitsVertical(spans[i], cells, x, y) && EmitsVertical(spans[n], cells, x, y)) {
      if EmitsVertical(spans[i], cells, x, y) && EmitsVertical(spans[n], cells, x, y) {
        EmitterIsUnique(spans, cells, i, n, x, y);
      }
    }
  }

  // Of the first n spans, the one that emits the vertical edge at (x, y) is counted once.
  lemma {:induction false} PrefixVerticals(spans: seq<Span>, cells: set<Cell>, n: nat, x: int, y: int)
    requires RoomOf(spans, cells) && n <= |spans|
    ensures Times(Outline(spans[..n], cells), VerticalEdge(x, y)) == if SomeEmits(spans, cells, n, x, y) then 1 else 0
  {
    hide RoomOf, EmitsVertical, SpanEdges, Outline, SomeEmits;
    if n > 0 {
      PrefixVerticals(spans, cells, n - 1, x, y);
      SpanInside(spans, cells, n - 1);
      SpanVerticals(spans[n - 1], cells, x, y);
      OutlineStep(spans, cells, n);
      CountConcat(Outline(spans[..n - 1], cells), SpanEdges(spans[n - 1], cells), VerticalEdge(x, y));
      EmitsOnce(spans, cells, n - 1, x, y);
    } else {
      NothingEmitted(spans, cells, x, y);
    }
  }

  lemma NothingEmitted(spans: seq<Span>, cells: set<Cell>, x: int, y: int)
    ensures Outline(spans[..0], cells) == [] && !SomeEmits(spans, cells, 0, x, y)
  {
  }

  lemma OutlineStep(spans: seq<Span>, cells: set<Cell>, n: nat)
    requires 0 < n <= |spans|
    ensures Outline(spans[..n], cells) == Outline(spans[..n - 1], cells) + SpanEdges(spans[n - 1], cells)
  {
    assert spans[..n][..n - 1] == spans[..n - 1];
  }

  // The vertical edges of an outline are exactly the room's vertical boundaries, each of them once.
  lemma VerticalEdgesExact(spans: seq<Span>, cells: set<Cell>, x: int, y: int)
    requires RoomOf(spans, cells)
    ensures Times(Outline(spans, cells), Edge(x, y, x, y + 1)) ==
              if ((x - 1, y) in cells) != ((x, y) in cells) then 1 else 0
  {
    PrefixVerticals(spans, cells, |spans|, x, y);
    assert spans[..|spans|] == spans;
    forall i | 0 <= i < |spans| && EmitsVertical(spans[i], cells, x, y) ensures VerticalBoundary(cells, x, y) {
      SpanInside(spans, cells, i);
    }
    if VerticalBoundary(cells, x, y) {
      var cell := if (x, y) in cells then x else x - 1;
      assert Covers(spans, cell, y);
      var i :| 0 <= i < |spans| && Contains(spans[i], cell, y);
      SpanInside(spans, cells, i);
      assert EmitsVertical(spans[i], cells, x, y);
    }
  }

  predicate Along(e: Edge, x: int, y: int) {
    e.y1 == y && e.y2 == y && e.x1 <= x < e.x2
  }

  ghost predicate Drawn(edges: seq<Edge>, x: int, y: int) {
    exists k :: 0 <= k < |edges| && Along(edges[k], x, y)
  }

  // The span draws the unit from (x, y) to (x + 1, y): on its own top or bottom side, before the first
  // cell there that belongs to the room.
  ghost predicate DrawsUnit(s: Span, cells: set<Cell>, x: int, y: int) {
    || (y == s.y && s.x <= x < FreeEnd(s, s.y - 1, cells, s.x))
    || (y == s.y + 1 && s.x <= x < FreeEnd(s, s.y + 1, cells, s.x))
  }

  lemma SpanDraws(s: Span, cells: set<Cell>, x: int, y: int)
    ensures Drawn(SpanEdges(s, cells), x, y) <==> DrawsUnit(s, cells, x, y)
  {
    var edges := SpanEdges(s, cells);
    var top, bottom := RowEdge(s, s.y - 1, s.y, cells), RowEdge(s, s.y + 1, s.y + 1, cells);
    if y == s.y && s.x <= x < FreeEnd(s, s.y - 1, cells, s.x) {
      assert edges[0] == top[0] && Along(edges[0], x, y);
    }
    if y == s.y + 1 && s.x <= x < FreeEnd(s, s.y + 1, cells, s.x) {
      assert edges[|top|] == bottom[0] && Along(edges[|top|], x, y);
    }
  }

  lemma DrawnEither(front: seq<Edge>, back: seq<Edge>, x: int, y: int)
    ensures Drawn(front + back, x, y) <==> Drawn(front, x, y) || Drawn(back, x, y)
  {
    if Drawn(front, x, y) {
      var k :| 0 <= k < |front| && Along(front[k], x, y);
      assert Along((front + back)[k], x, y);
    }
    if Drawn(back, x, y) {
      var k :| 0 <= k < |back| && Along(back[k], x, y);
      assert Along((front + back)[|front| + k], x, y);
    }
  }

  ghost predicate AnyDraws(spans: seq<Span>, cells: set<Cell>, x: int, y: int) {
    exists i :: 0 <= i < |spans| && DrawsUnit(spans[i], cells, x, y)
  }

  lemma AnyDrawsMore(spans: seq<Span>, n: nat, cells: set<Cell>, x: int, y: int)
    requires n + 1 == |spans|
    ensures AnyDraws(spans, cells, x, y) <==> AnyDraws(spans[..n], cells, x, y) || DrawsUnit(spans[n], cells, x, y)
  {
    hide DrawsUnit;
    assert forall i :: 0 <= i < n ==> spans[..n][i] == spans[i];
    if AnyDraws(spans[..n], cells, x, y) {
      var i :| 0 <= i < n && DrawsUnit(spans[..n][i], cells, x, y);
      assert DrawsUnit(spans[i], cells, x, y);
    }
    if AnyDraws(spans, cells, x, y) && !DrawsUnit(spans[n], cells, x, y) {
      var i :| 0 <= i < |spans| && DrawsUnit(spans[i], cells, x, y);
      assert DrawsUnit(spans[..n][i], cells, x, y);
    }
  }

  lemma {:induction false} OutlineDraws(spans: seq<Span>, cells: set<Cell>, x: int, y: int)
    ensures Drawn(Outline(spans, cells), x, y) <==> AnyDraws(spans, cells, x, y)
  {
    if spans != [] {
      hide Drawn, DrawsUnit, SpanEdges, AnyDraws;
      var n := |spans| - 1;
      OutlineDraws(spans[..n], cells, x, y);
      SpanDraws(spans[n], cells, x, y);
      DrawnEither(Outline(spans[..n], cells), SpanEdges(spans[n], cells), x, y);
      AnyDrawsMore(spans, n, cells, x, y);
    }
  }

  // Whatever is drawn horizontally is a boundary of the room.
  lemma HorizontalEdgesSound(spans: seq<Span>, cells: set<Cell>, x: int, y: int)
    requires RoomOf(spans, cells) && Drawn(Outline(spans, cells), x, y)
    ensures HorizontalBoundary(cells, x, y)
  {
    hide Outline, Drawn, FreeEnd;
    OutlineDraws(spans, cells, x, y);
    var i :| 0 <= i < |spans| && DrawsUnit(spans[i], cells, x, y);
    SpanInside(spans, cells, i);
  }

  // Along the span, the cells of that row that are outside the room come before those inside.
  ghost predicate FreeFirst(s: Span, row: int, cells: set<Cell>) {
    forall x :: s.x < x < s.x + s.w && (x, row) !in cells ==> (x - 1, row) !in cells
  }

  lemma {:induction false} FreeFirstDrawsAll(s: Span, row: int, cells: set<Cell>, x: int)
    requires FreeFirst(s, row, cells) && s.x <= x < s.x + s.w && (x, row) !in cells
    ensures x < FreeEnd(s, row, cells, s.x)
    decreases x - s.x
  {
    if x > s.x {
      FreeFirstDrawsAll(s, row, cells, x - 1);
    }
  }

  // Not every horizontal boundary is drawn: only the first run along each span is. The outline is
  // complete exactly when, above and below every span, that first run is all there is.
  lemma HorizontalEdgesCompleteIff(spans: seq<Span>, cells: set<Cell>)
    requires RoomOf(spans, cells)
    ensures (forall x, y :: HorizontalBoundary(cells, x, y) ==> Drawn(Outline(spans, cells), x, y))
       <==> forall i :: 0 <= i < |spans| ==>
              FreeFirst(spans[i], spans[i].y - 1, cells) && FreeFirst(spans[i], spans[i].y + 1, cells)
  {
    if forall i :: 0 <= i < |spans| ==>
         FreeFirst(spans[i], spans[i].y - 1, cells) && FreeFirst(spans[i], spans[i].y + 1, cells)
    {
      forall x, y | HorizontalBoundary(cells, x, y) ensures Drawn(Outline(spans, cells), x, y) {
        var row := if (x, y) in cells then y else y - 1;
        var i :| 0 <= i < |spans| && Contains(spans[i], x, row);
        FreeFirstDrawsAll(spans[i], if row == y then y - 1 else y, cells, x);
        assert DrawsUnit(spans[i], cells, x, y);
        OutlineDraws(spans, cells, x, y);
      }
    }
    if forall x, y :: HorizontalBoundary(cells, x, y) ==> Drawn(Outline(spans, cells), x, y) {
      forall i | 0 <= i < |spans|
        ensures FreeFirst(spans[i], spans[i].y - 1, cells) && FreeFirst(spans[i], spans[i].y + 1, cells)
      {
        CompleteIsFreeFirst(spans, cells, i, spans[i].y - 1, spans[i].y);
        CompleteIsFreeFirst(spans, cells, i, spans[i].y + 1, spans[i].y + 1);
      }
    }
  }

  lemma CompleteIsFreeFirst(spans: seq<Span>, cells: set<Cell>, i: nat, row: int, y: int)
    requires RoomOf(spans, cells) && i < |spans|
    requires (row == spans[i].y - 1 && y == spans[i].y) || (row == spans[i].y + 1 && y == row)
    requires forall x, v :: HorizontalBoundary(cells, x, v) ==> Drawn(Outline(spans, cells), x, v)
    ensures FreeFirst(spans[i], row, cells)
  {
    hide RoomOf, Outline, Drawn;
    var s := spans[i];
    SpanInside(spans, cells, i);
    forall x | s.x < x < s.x + s.w && (x, row) !in cells ensures (x - 1, row) !in cells {
      assert HorizontalBoundary(cells, x, y);
      DrawnInFull(spans, cells, i, row, y, x);
    }
  }

  // A side that is drawn inside the span is drawn from the span's start on.
  lemma DrawnInFull(spans: seq<Span>, cells: set<Cell>, i: nat, row: int, y: int, x: int)
    requires RoomOf(spans, cells) && i < |spans| && spans[i].x < x < spans[i].x + spans[i].w
    requires (row == spans[i].y - 1 && y == spans[i].y) || (row == spans[i].y + 1 && y == row)
    requires Drawn(Outline(spans, cells), x, y) && (x, row) !in cells
    ensures (x - 1, row) !in cells
  {
    hide Outline, Drawn, FreeEnd;
    OutlineDraws(spans, cells, x, y);
    var k :| 0 <= k < |spans| && DrawsUnit(spans[k], cells, x, y);
    SpanInside(spans, cells, k);
    SpanInside(spans, cells, i);
    assert Contains(spans[k], x, spans[i].y) && Contains(spans[i], x, spans[i].y);
    SpansApart(spans, k, i, x, spans[i].y);
  }

  // A cell above the first cell of a wider span is enough to lose that span's top side.
  lemma OutlineCanMissBoundaries()
    ensures var spans, cells := [Span(0, 0, 1), Span(0, 1, 2)], {(0, 0), (0, 1), (1, 1)};
            RoomOf(spans, cells) && HorizontalBoundary(cells, 1, 1) && !Drawn(Outline(spans, cells), 1, 1)
  {
    var spans, cells := [Span(0, 0, 1), Span(0, 1, 2)], {(0, 0), (0, 1), (1, 1)};
    ExampleIsRoom(spans, cells);
    NotDrawn(spans[0], cells);
    NotDrawn(spans[1], cells);
    OutlineDraws(spans, cells, 1, 1);
    hide Outline, DrawsUnit, Drawn, RoomOf;
  }

  lemma ExampleIsRoom(spans: seq<Span>, cells: set<Cell>)
    requires spans == [Span(0, 0, 1), Span(0, 1, 2)] && cells == {(0, 0), (0, 1), (1, 1)}
    ensures RoomOf(spans, cells)
  {
    forall x, y ensures (x, y) in cells <==> Covers(spans, x, y) {
      if (x, y) in cells {
        assert Contains(spans[if y == 0 then 0 else 1], x, y);
      }
    }
  }

  lemma NotDrawn(s: Span, cells: set<Cell>)
    requires cells == {(0, 0), (0, 1), (1, 1)} && (s == Span(0, 0, 1) || s == Span(0, 1, 2))
    ensures !DrawsUnit(s, cells, 1, 1)
  {
  }

  // How often a horizontal unit is drawn.
  function TimesDrawn(edges: seq<Edge>, x: int, y: int): nat {
    if edges == [] then 0
    else TimesDrawn(edges[..|edges| - 1], x, y) + if Along(edges[|edges| - 1], x, y) then 1 else 0
  }

  lemma {:induction false} DrawnConcat(a: seq<Edge>, b: seq<Edge>, x: int, y: int)
    ensures TimesDrawn(a + b, x, y) == TimesDrawn(a, x, y) + TimesDrawn(b, x, y)
  {
    if b == [] {
      assert a + b == a;
    } else {
      DrawnConcat(a, b[..|b| - 1], x, y);
      assert (a + b)[..|a + b| - 1] == a + b[..|b| - 1];
    }
  }

  lemma RowEdgeDraws(s: Span, row: int, v: int, cells: set<Cell>, x: int, y: int)
    ensures TimesDrawn(RowEdge(s, row, v, cells), x, y)
         == if y == v && s.x <= x < FreeEnd(s, row, cells, s.x) then 1 else 0
  {
    hide FreeEnd;
  }

  lemma SideEdgeDrawsNone(x0: int, outside: Cell, cells: set<Cell>, x: int, y: int)
    ensures TimesDrawn(SideEdge(x0, outside, cells), x, y) == 0
  {
  }

  lemma SpanDrawsOnce(s: Span, cells: set<Cell>, x: int, y: int)
    ensures TimesDrawn(SpanEdges(s, cells), x, y) == if DrawsUnit(s, cells, x, y) then 1 else 0
  {
    hide RowEdge, SideEdge, TimesDrawn, FreeEnd;
    var top, bottom := RowEdge(s, s.y - 1, s.y, cells), RowEdge(s, s.y + 1, s.y + 1, cells);
    var left, right := SideEdge(s.x, (s.x - 1, s.y), cells), SideEdge(s.x + s.w, (s.x + s.w, s.y), cells);
    RowEdgeDraws(s, s.y - 1, s.y, cells, x, y);
    RowEdgeDraws(s, s.y + 1, s.y + 1, cells, x, y);
    SideEdgeDrawsNone(s.x, (s.x - 1, s.y), cells, x, y);
    SideEdgeDrawsNone(s.x + s.w, (s.x + s.w, s.y), cells, x, y);
    DrawnConcat(top, bottom, x, y);
    DrawnConcat(top + bottom, left, x, y);
    DrawnConcat(top + bottom + left, right, x, y);
  }

  lemma DrawerIsUnique(spans: seq<Span>, cells: set<Cell>, i: nat, j: nat, x: int, y: int)
    requires RoomOf(spans, cells) && i < |spans| && j < |spans|
    requires DrawsUnit(spans[i], cells, x, y) && DrawsUnit(spans[j], cells, x, y)
    ensures i == j
  {
    hide FreeEnd;
    var row := if (x, y) in cells then y else y - 1;
    SpanInside(spans, cells, i);
    SpanInside(spans, cells, j);
    assert Contains(spans[i], x, row) && Contains(spans[j], x, row);
    SpansApart(spans, i, j, x, row);
  }

  // No horizontal unit is drawn twice.
  lemma {:induction false} HorizontalEdgesOnce(spans: seq<Span>, cells: set<Cell>, n: nat, x: int, y: int)
    requires RoomOf(spans, cells) && n <= |spans|
    ensures TimesDrawn(Outline(spans[..n], cells), x, y) == if AnyDraws(spans[..n], cells, x, y) then 1 else 0
  {
    hide RoomOf, DrawsUnit, SpanEdges, Outline;
    if n > 0 {
      var some := spans[..n];
      HorizontalEdgesOnce(spans, cells, n - 1, x, y);
      SpanDrawsOnce(spans[n - 1], cells, x, y);
      OutlineStep(spans, cells, n);
      DrawnConcat(Outline(spans[..n - 1], cells), SpanEdges(spans[n - 1], cells), x, y);
      AnyDrawsMore(some, n - 1, cells, x, y);
      assert some[..n - 1] == spans[..n - 1] && some[n - 1] == spans[n - 1];
      forall i | 0 <= i < n - 1 ensures !(DrawsUnit(spans[i], cells, x, y) && DrawsUnit(spans[n - 1], cells, x, y)) {
        if DrawsUnit(spans[i], cells, x, y) && DrawsUnit(spans[n - 1], cells, x, y) {
          DrawerIsUnique(spans, cells, i, n - 1, x, y);
        }
      }
    } else {
      assert Outline(spans[..0], cells) == [] by { NothingEmitted(spans, cells, x, y); }
    }
  }

  // The cell is a pixel of the room.
  predicate OnRoom(img: Image, id: nat, x: int, y: int) {
    0 <= x < img.width && 0 <= y < img.height && ClassAt(img, x, y) == Room(id)
  }

  // The cells the spans of a room cover are its pixels, and the spans are as the outline needs them.
  lemma RoomOfImage(img: Image, e: Encoded, id: nat, cells: set<Cell>)
    requires Exact(img, e) && id in e.rooms && forall x, y :: (x, y) in cells <==> Covers(e.rooms[id], x, y)
    ensures RoomOf(e.rooms[id], cells) && forall x, y :: (x, y) in cells <==> OnRoom(img, id, x, y)
  {
    var spans := e.rooms[id];
    assert ListUpTo(img, Room(id), SpansOf(e, Room(id)), 0, img.height);
    hide Exact, Covers, InOrder;
    forall x, y ensures Covers(spans, x, y) <==> OnRoom(img, id, x, y) {
      if 0 <= x < img.width && 0 <= y < img.height {
        CoveredExactlyOnce(img, e, x, y);
        assert Covers(SpansOf(e, Room(id)), x, y) <==> ClassAt(img, x, y) == Room(id);
      } else {
        RoomInside(img, spans, id, x, y);
      }
    }
  }

  lemma RoomInside(img: Image, spans: seq<Span>, id: nat, x: int, y: int)
    requires ListUpTo(img, Room(id), spans, 0, img.height) && !(0 <= x < img.width && 0 <= y < img.height)
    ensures !Covers(spans, x, y)
  {
    forall i | 0 <= i < |spans| ensures !Contains(spans[i], x, y) {
      assert MaximalRun(img, Room(id), spans[i]);
    }
  }

  // What an outline is to the image: every vertical side of the room's pixels once and no other, and of the
  // horizontal sides none twice and nothing else.
  ghost predicate Traces(img: Image, id: nat, outline: seq<Edge>) {
    && (forall x, y ::
          Times(outline, VerticalEdge(x, y)) == if OnRoom(img, id, x - 1, y) != OnRoom(img, id, x, y) then 1 else 0)
    && (forall x, y ::
          TimesDrawn(outline, x, y) <= if OnRoom(img, id, x, y - 1) != OnRoom(img, id, x, y) then 1 else 0)
  }

  lemma HorizontalTraced(spans: seq<Span>, cells: set<Cell>, x: int, y: int)
    requires RoomOf(spans, cells)
    ensures TimesDrawn(Outline(spans, cells), x, y) <= if HorizontalBoundary(cells, x, y) then 1 else 0
  {
    hide RoomOf, Outline, TimesDrawn, DrawsUnit;
    HorizontalEdgesOnce(spans, cells, |spans|, x, y);
    assert spans[..|spans|] == spans;
    OutlineDraws(spans, cells, x, y);
    if AnyDraws(spans, cells, x, y) {
      HorizontalEdgesSound(spans, cells, x, y);
    }
  }

  lemma OutlineTracesRoom(img: Image, e: Encoded, id: nat, cells: set<Cell>)
    requires Exact(img, e) && id in e.rooms && forall x, y :: (x, y) in cells <==> Covers(e.rooms[id], x, y)
    ensures Traces(img, id, Outline(e.rooms[id], cells))
  {
    var spans := e.rooms[id];
    RoomOfImage(img, e, id, cells);
    hide Exact, Covers, OnRoom, RoomOf, Outline, Times, TimesDrawn;
    forall x, y
      ensures Times(Outline(spans, cells), VerticalEdge(x, y)) ==
              if OnRoom(img, id, x - 1, y) != OnRoom(img, id, x, y) then 1 else 0
    {
      VerticalEdgesExact(spans, cells, x, y);
    }
    forall x, y
      ensures TimesDrawn(Outline(spans, cells), x, y) <=
              if OnRoom(img, id, x, y - 1) != OnRoom(img, id, x, y) then 1 else 0
    {
      HorizontalTraced(spans, cells, x, y);
    }
  }
}
