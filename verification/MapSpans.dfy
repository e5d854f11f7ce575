// The map image as run-length spans: one list for the walls, one for the floor, one per room.
module MapSpans {
  import opened Common

  type byte = i: int | 0 <= i < 256

  datatype PixelClass = Empty | Wall | Floor | Room(id: nat)

  function ClassifyPixel(value: byte): PixelClass {
    if value == 0 then Empty
    else if value == 1 then Wall
    else if value == 255 || value == 7 then Floor
    else if value % 8 == 7 then (if value / 8 > 0 then Room(value / 8) else Floor)
    else if value % 8 == 0 || value % 8 == 1 then Wall
    else Floor
  }

  // Each of the thirty rooms has exactly one pixel value, only the value 0 is empty, and which values are walls
  // and floor.
  lemma RoomPixels(value: byte, id: nat)
    ensures ClassifyPixel(value) == Room(id) <==> 1 <= id <= 30 && value == 8 * id + 7
    ensures ClassifyPixel(value) == Empty <==> value == 0
    ensures ClassifyPixel(value) == Wall <==> value != 0 && (value % 8 == 0 || value % 8 == 1)
    ensures ClassifyPixel(value) == Floor <==> value == 7 || value == 255 || 2 <= value % 8 <= 6
  {
  }

  datatype Image = Image(top: int, left: int, width: nat, height: nat, pixels: seq<byte>)

  // Pixels are stored bottom row first; missing ones count as empty.
  function SourceIndex(img: Image, x: nat, y: nat): nat
    requires x < img.width && y < img.height
  {
    (img.height - 1 - y) * img.width + x
  }

  function ClassAt(img: Image, x: nat, y: nat): PixelClass
    requires x < img.width && y < img.height
  {
    var i := SourceIndex(img, x, y);
    if i < |img.pixels| then ClassifyPixel(img.pixels[i]) else Empty
  }

  // What a cell of the map shows: the pixel of its column in the row counted from the bottom, by its value.
  lemma ClassAtTells(img: Image, x: nat, y: nat, at: nat, id: nat)
    requires x < img.width && y < img.height && at == (img.height - 1 - y) * img.width + x
    ensures ClassAt(img, x, y) == Empty <==> at >= |img.pixels| || img.pixels[at] == 0
    ensures ClassAt(img, x, y) == Wall <==>
              at < |img.pixels| && img.pixels[at] != 0 && (img.pixels[at] % 8 == 0 || img.pixels[at] % 8 == 1)
    ensures ClassAt(img, x, y) == Room(id) <==>
              at < |img.pixels| && img.pixels[at] as int == 8 * id + 7 && 1 <= id <= 30
  {
    hide ClassifyPixel;
    assert SourceIndex(img, x, y) == at;
    hide SourceIndex;
    if at < |img.pixels| {
      RoomPixels(img.pixels[at], id);
    }
  }

  datatype Span = Span(x: nat, y: nat, w: nat)

  predicate Contains(s: Span, x: int, y: int) {
    y == s.y && s.x <= x < s.x + s.w
  }

  ghost predicate Covers(spans: seq<Span>, x: int, y: int) {
    exists i :: 0 <= i < |spans| && Contains(spans[i], x, y)
  }

  datatype Encoded = Encoded(walls: seq<Span>, floor: seq<Span>, rooms: map<nat, seq<Span>>)

  function SpansOf(e: Encoded, c: PixelClass): seq<Span> {
    match c
    case Empty => []
    case Wall => e.walls
    case Floor => e.floor
    case Room(id) => if id in e.rooms then e.rooms[id] else []
  }

  // A run of class c that cannot be extended on either side.
  ghost predicate MaximalRun(img: Image, c: PixelClass, s: Span) {
    && s.y < img.height && 0 < s.w && s.x + s.w <= img.width
    && (forall x :: s.x <= x < s.x + s.w ==> ClassAt(img, x, s.y) == c)
    && (s.x > 0 ==> ClassAt(img, s.x - 1, s.y) != c)
    && (s.x + s.w < img.width ==> ClassAt(img, s.x + s.w, s.y) != c)
  }

  predicate Precedes(s: Span, t: Span) {
    s.y < t.y || (s.y == t.y && s.x + s.w <= t.x)
  }

  ghost predicate InOrder(spans: seq<Span>) {
    forall i, j :: 0 <= i < j < |spans| ==> Precedes(spans[i], spans[j])
  }

  predicate BeforeCell(x: nat, y: nat, col: nat, row: nat) {
    y < row || (y == row && x < col)
  }

  // The list holds, in order, the maximal runs of class c among the cells before (col, row).
  ghost predicate ListUpTo(img: Image, c: PixelClass, spans: seq<Span>, col: nat, row: nat) {
    && (forall i :: 0 <= i < |spans| ==>
          MaximalRun(img, c, spans[i]) && BeforeCell(spans[i].x + spans[i].w - 1, spans[i].y, col, row))
    && InOrder(spans)
    && (forall x, y ::
          0 <= x < img.width && 0 <= y < img.height && BeforeCell(x, y, col, row) && ClassAt(img, x, y) == c ==>
          Covers(spans, x, y))
  }

  ghost predicate EncodedUpTo(img: Image, e: Encoded, col: nat, row: nat) {
    && (forall c: PixelClass :: c != Empty ==> ListUpTo(img, c, SpansOf(e, c), col, row))
    && (forall id :: id in e.rooms ==> e.rooms[id] != [])
  }

  // The encoding of the whole image.
  ghost predicate Exact(img: Image, e: Encoded) {
    EncodedUpTo(img, e, 0, img.height)
  }

  // Between two cells of a row that do not belong to one run.
  ghost predicate RunBoundary(img: Image, col: nat, row: nat)
    requires row < img.height
  {
    0 < col < img.width ==>
      ClassAt(img, col - 1, row) == Empty || ClassAt(img, col - 1, row) != ClassAt(img, col, row)
  }

  function WithSpan(e: Encoded, c: PixelClass, s: Span): Encoded {
    match c
    case Empty => e
    case Wall => e.(walls := e.walls + [s])
    case Floor => e.(floor := e.floor + [s])
    case Room(id) => e.(rooms := e.rooms[id := (if id in e.rooms then e.rooms[id] else []) + [s]])
  }

  lemma SkipCell(img: Image, e: Encoded, col: nat, row: nat)
    requires row < img.height && col < img.width && ClassAt(img, col, row) == Empty
    requires EncodedUpTo(img, e, col, row)
    ensures EncodedUpTo(img, e, col + 1, row)
  {
  }

  lemma NextRow(img: Image, e: Encoded, row: nat)
    requires row < img.height && EncodedUpTo(img, e, img.width, row)
    ensures EncodedUpTo(img, e, 0, row + 1)
  {
  }

  lemma CoversMore(spans: seq<Span>, s: Span, x: int, y: int)
    ensures Covers(spans + [s], x, y) <==> Covers(spans, x, y) || Contains(s, x, y)
  {
    if Covers(spans, x, y) {
      var i :| 0 <= i < |spans| && Contains(spans[i], x, y);
      assert Contains((spans + [s])[i], x, y);
    }
    assert (spans + [s])[|spans|] == s;
  }

  lemma AppendRun(img: Image, c: PixelClass, spans: seq<Span>, s: Span)
    requires ListUpTo(img, c, spans, s.x, s.y) && MaximalRun(img, c, s)
    ensures ListUpTo(img, c, spans + [s], s.x + s.w, s.y)
  {
    var more := spans + [s];
    forall x, y |
        0 <= x < img.width && 0 <= y < img.height && BeforeCell(x, y, s.x + s.w, s.y) && ClassAt(img, x, y) == c
      ensures Covers(more, x, y)
    {
      CoversMore(spans, s, x, y);
    }
  }

  lemma SkipRun(img: Image, c: PixelClass, k: PixelClass, spans: seq<Span>, s: Span)
    requires k != c && ListUpTo(img, k, spans, s.x, s.y) && MaximalRun(img, c, s)
    ensures ListUpTo(img, k, spans, s.x + s.w, s.y)
  {
    hide InOrder, Covers;
  }

  lemma AddRun(img: Image, e: Encoded, c: PixelClass, s: Span)
    requires c != Empty && EncodedUpTo(img, e, s.x, s.y) && MaximalRun(img, c, s)
    ensures EncodedUpTo(img, WithSpan(e, c, s), s.x + s.w, s.y)
  {
    hide ListUpTo, MaximalRun;
    var e' := WithSpan(e, c, s);
    forall k: PixelClass | k != Empty ensures ListUpTo(img, k, SpansOf(e', k), s.x + s.w, s.y) {
      if k == c {
        assert SpansOf(e', c) == SpansOf(e, c) + [s];
        AppendRun(img, c, SpansOf(e, c), s);
      } else {
        assert SpansOf(e', k) == SpansOf(e, k);
        SkipRun(img, c, k, SpansOf(e, k), s);
      }
    }
  }

  lemma NothingEncoded(img: Image)
    ensures EncodedUpTo(img, Encoded([], [], map[]), 0, 0)
  {
  }

  lemma RunIsMaximal(img: Image, c: PixelClass, s: Span)
    requires c != Empty && s.y < img.height && 0 < s.w && s.x + s.w <= img.width && RunBoundary(img, s.x, s.y)
    requires forall x :: s.x <= x < s.x + s.w ==> ClassAt(img, x, s.y) == c
    requires s.x + s.w < img.width ==> ClassAt(img, s.x + s.w, s.y) != c
    ensures MaximalRun(img, c, s)
  {
    assert ClassAt(img, s.x, s.y) == c;
  }

  method EncodeSpans(img: Image) returns (e: Encoded)
    ensures Exact(img, e)
  {
    hide EncodedUpTo, MaximalRun;
    e := Encoded([], [], map[]);
    NothingEncoded(img);
    var w, h := img.width, img.height;
    for y := 0 to h
      invariant EncodedUpTo(img, e, 0, y)
    {
      var srcY := h - 1 - y;
      var x := 0;
      while x < w
        invariant x <= w && EncodedUpTo(img, e, x, y) && RunBoundary(img, x, y)
      {
        var idx := srcY * w + x;
        assert idx == SourceIndex(img, x, y);
        if idx >= |img.pixels| {
          SkipCell(img, e, x, y);
          x := x + 1;
          continue;
        }
        var kind := ClassifyPixel(img.pixels[idx]);
        if kind == Empty {
          SkipCell(img, e, x, y);
          x := x + 1;
          continue;
        }
        var startX := x;
        while x < w
          invariant startX <= x <= w
          invariant forall k :: startX <= k < x ==> ClassAt(img, k, y) == kind
          invariant startX == x ==> x < w && ClassAt(img, x, y) == kind
        {
          var idx2 := srcY * w + x;
          assert idx2 == SourceIndex(img, x, y);
          if idx2 >= |img.pixels| || ClassifyPixel(img.pixels[idx2]) != kind {
            break;
          }
          x := x + 1;
        }
        assert x < w ==> ClassAt(img, x, y) != kind;
        var span := Span(startX, y, x - startX);
        assert ClassAt(img, startX, y) == kind;
        assert MaximalRun(img, kind, span) by { RunIsMaximal(img, kind, span); }
        AddRun(img, e, kind, span);
        ghost var extended := WithSpan(e, kind, span);
        match kind {
          case Wall => e := e.(walls := e.walls + [span]);
          case Floor => e := e.(floor := e.floor + [span]);
          case Room(id) => e := e.(rooms := e.rooms[id := (if id in e.rooms then e.rooms[id] else []) + [span]]);
        }
        assert e == extended;
        assert x < w ==> ClassAt(img, x - 1, y) == kind;
      }
      NextRow(img, e, y);
    }
  }

  ghost predicate CoversOnce(spans: seq<Span>, x: int, y: int) {
    exists i :: 0 <= i < |spans| && Contains(spans[i], x, y)
      && forall j :: 0 <= j < |spans| && Contains(spans[j], x, y) ==> j == i
  }

  lemma SpansApart(spans: seq<Span>, i: nat, j: nat, x: int, y: int)
    requires InOrder(spans) && i < |spans| && j < |spans|
    requires Contains(spans[i], x, y) && Contains(spans[j], x, y)
    ensures i == j
  {
  }

  lemma InOrderCoversOnce(spans: seq<Span>, x: int, y: int)
    requires InOrder(spans) && Covers(spans, x, y)
    ensures CoversOnce(spans, x, y)
  {
    hide InOrder;
    var i :| 0 <= i < |spans| && Contains(spans[i], x, y);
    forall j | 0 <= j < |spans| && Contains(spans[j], x, y) ensures j == i {
      SpansApart(spans, i, j, x, y);
    }
  }

  // Every non-empty cell lies in exactly one span of exactly one list, the list of its own class.
  lemma CoveredExactlyOnce(img: Image, e: Encoded, x: nat, y: nat)
    requires Exact(img, e) && x < img.width && y < img.height
    ensures forall c: PixelClass :: c != Empty ==> (Covers(SpansOf(e, c), x, y) <==> ClassAt(img, x, y) == c)
    ensures ClassAt(img, x, y) != Empty ==> CoversOnce(SpansOf(e, ClassAt(img, x, y)), x, y)
  {
    forall c: PixelClass | c != Empty ensures Covers(SpansOf(e, c), x, y) <==> ClassAt(img, x, y) == c {
      assert ListUpTo(img, c, SpansOf(e, c), 0, img.height);
    }
    var c := ClassAt(img, x, y);
    if c != Empty {
      assert ListUpTo(img, c, SpansOf(e, c), 0, img.height);
      InOrderCoversOnce(SpansOf(e, c), x, y);
    }
  }

  // Reading a cell back from the spans.
  ghost function DecodeAt(e: Encoded, x: nat, y: nat): PixelClass {
    if Covers(e.walls, x, y) then Wall
    else if Covers(e.floor, x, y) then Floor
    else if exists id :: id in e.rooms && Covers(e.rooms[id], x, y) then
      var id :| id in e.rooms && Covers(e.rooms[id], x, y);
      Room(id)
    else Empty
  }

  lemma WhereCovered(img: Image, e: Encoded, x: nat, y: nat)
    requires Exact(img, e) && x < img.width && y < img.height
    ensures Covers(e.walls, x, y) <==> ClassAt(img, x, y) == Wall
    ensures Covers(e.floor, x, y) <==> ClassAt(img, x, y) == Floor
    ensures forall id :: id in e.rooms && Covers(e.rooms[id], x, y) <==> ClassAt(img, x, y) == Room(id)
  {
    CoveredExactlyOnce(img, e, x, y);
    hide Exact, ClassAt;
    assert Covers(SpansOf(e, Wall), x, y) <==> ClassAt(img, x, y) == Wall;
    assert Covers(SpansOf(e, Floor), x, y) <==> ClassAt(img, x, y) == Floor;
    forall id ensures id in e.rooms && Covers(e.rooms[id], x, y) <==> ClassAt(img, x, y) == Room(id) {
      assert Covers(SpansOf(e, Room(id)), x, y) <==> ClassAt(img, x, y) == Room(id);
    }
  }

  lemma DecodeRoundTrip(img: Image, e: Encoded, x: nat, y: nat)
    requires Exact(img, e) && x < img.width && y < img.height
    ensures DecodeAt(e, x, y) == ClassAt(img, x, y)
  {
    hide Exact, Covers, ClassAt;
    WhereCovered(img, e, x, y);
  }
}
