// The rooms of the vector map, and the room the robot is in.
module CurrentRoom {
  import opened Common
  import opened Text
  import opened MapSpans
  import opened RoomOutline

  // Go's integer division.
  function TruncDiv(a: int, b: int): int
    requires b > 0
  {
    if a >= 0 then a / b else -((-a) / b)
  }

  datatype Position = Position(x: int, y: int)

  // The column and the source row of a position in millimetres.
  function Column(img: Image, p: Position): int {
    TruncDiv(p.x, 50) - img.left
  }

  function SourceRow(img: Image, p: Position): int {
    TruncDiv(p.y, 50) - img.top
  }

  // The pixels are 50 millimetres wide; as positions are rounded towards 0, the one at 0 reaches 50 millimetres
  // to either side.
  lemma PixelUnder(img: Image, p: Position, col: int, row: int)
    ensures col == Column(img, p) <==>
              if p.x >= 0 then 50 * (img.left + col) <= p.x < 50 * (img.left + col + 1)
              else 50 * (img.left + col - 1) < p.x <= 50 * (img.left + col)
    ensures row == SourceRow(img, p) <==>
              if p.y >= 0 then 50 * (img.top + row) <= p.y < 50 * (img.top + row + 1)
              else 50 * (img.top + row - 1) < p.y <= 50 * (img.top + row)
  {
  }

  // Where the vector map shows a position: rows are counted from the top.
  function Displayed(img: Image, p: Position): Position {
    Position(Column(img, p), img.height - 1 - SourceRow(img, p))
  }

  // The position lies on a pixel of room `id`.
  predicate OnRoomPixel(img: Image, p: Position, id: nat) {
    var col, row := Column(img, p), SourceRow(img, p);
    && 0 <= col < img.width && 0 <= row < img.height
    && row * img.width + col < |img.pixels|
    && ClassifyPixel(img.pixels[row * img.width + col]) == Room(id)
  }

  datatype VectorRoom = VectorRoom(id: nat, center: Position, spans: seq<Span>, outline: seq<Edge>)

  datatype RoomHere = RoomHere(id: nat, name: string)

  function SumX(spans: seq<Span>): nat {
    if spans == [] then 0
    else var s := spans[|spans| - 1]; SumX(spans[..|spans| - 1]) + (s.x + s.x + s.w) * s.w / 2
  }

  function SumY(spans: seq<Span>): nat {
    if spans == [] then 0 else SumY(spans[..|spans| - 1]) + spans[|spans| - 1].y * spans[|spans| - 1].w
  }

  function SumW(spans: seq<Span>): nat {
    if spans == [] then 0 else SumW(spans[..|spans| - 1]) + spans[|spans| - 1].w
  }

  function CenterOf(spans: seq<Span>): Position {
    if SumW(spans) > 0 then Position(SumX(spans) / SumW(spans), SumY(spans) / SumW(spans)) else Position(0, 0)
  }

  method Center(spans: seq<Span>) returns (center: Position)
    ensures center == CenterOf(spans)
  {
    var sumX, sumY, totalW := 0, 0, 0;
    for i := 0 to |spans|
      invariant sumX == SumX(spans[..i]) && sumY == SumY(spans[..i]) && totalW == SumW(spans[..i])
    {
      assert spans[..i + 1][..i] == spans[..i];
      var s := spans[i];
      sumX := sumX + (s.x + s.x + s.w) * s.w / 2;
      sumY := sumY + s.y * s.w;
      totalW := totalW + s.w;
    }
    assert spans[..|spans|] == spans;
    var cx, cy := 0, 0;
    if totalW > 0 {
      cx := sumX / totalW;
      cy := sumY / totalW;
    }
    center := Position(cx, cy);
  }

  predicate Inside(s: Span, left: nat, right: nat, top: nat, bottom: nat) {
    left <= s.x && s.x + s.w - 1 <= right && top <= s.y <= bottom
  }

  lemma ScaleBounds(lo: nat, v: nat, hi: nat, w: nat)
    requires lo <= v <= hi
    ensures lo * w <= v * w <= hi * w
  {
  }

  lemma RunMiddle(x: nat, w: nat, left: nat, right: nat)
    requires w > 0 && left <= x && x + w - 1 <= right
    ensures left * w <= (x + x + w) * w / 2 <= right * w
  {
    assert (x + x + w) * w == 2 * (x * w) + w * w;
    ScaleBounds(left, x, x, w);
    ScaleBounds(x + w - 1, x + w - 1, right, w);
    assert (x + w - 1) * w == x * w + w * w - w;
    if w >= 2 {
      assert 2 * w <= w * w by { ScaleBounds(2, w, w, w); }
    }
  }

  lemma AddBounds(lo: nat, hi: nat, n: nat, w: nat, sum: nat, term: nat)
    requires lo * n <= sum <= hi * n && lo * w <= term <= hi * w
    ensures lo * (n + w) <= sum + term <= hi * (n + w)
  {
    assert lo * (n + w) == lo * n + lo * w;
    assert hi * (n + w) == hi * n + hi * w;
  }

  lemma {:induction false} SumsBounded(spans: seq<Span>, left: nat, right: nat, top: nat, bottom: nat)
    requires forall i :: 0 <= i < |spans| ==> spans[i].w > 0 && Inside(spans[i], left, right, top, bottom)
    ensures left * SumW(spans) <= SumX(spans) <= right * SumW(spans)
    ensures top * SumW(spans) <= SumY(spans) <= bottom * SumW(spans)
  {
    if spans != [] {
      var front, s := spans[..|spans| - 1], spans[|spans| - 1];
      SumsBounded(front, left, right, top, bottom);
      RunMiddle(s.x, s.w, left, right);
      ScaleBounds(top, s.y, bottom, s.w);
      AddBounds(left, right, SumW(front), s.w, SumX(front), (s.x + s.x + s.w) * s.w / 2);
      AddBounds(top, bottom, SumW(front), s.w, SumY(front), s.y * s.w);
    }
  }

  lemma Cancels(a: nat, b: nat, w: nat)
    requires a * w < b * w
    ensures a < b
  {
    if b <= a {
      ScaleBounds(b, a, a, w);
    }
  }

  lemma QuotientBounds(lo: nat, sum: nat, hi: nat, w: nat)
    requires w > 0 && lo * w <= sum <= hi * w
    ensures lo <= sum / w <= hi
  {
    var q := sum / w;
    assert q * w <= sum < q * w + w;
    assert (q + 1) * w == q * w + w && (hi + 1) * w == hi * w + w;
    Cancels(lo, q + 1, w);
    Cancels(q, hi + 1, w);
  }

  // A room's centre lies within any box that holds all its pixels.
  lemma CenterInsideRoom(spans: seq<Span>, left: nat, right: nat, top: nat, bottom: nat)
    requires spans != []
    requires forall i :: 0 <= i < |spans| ==> spans[i].w > 0 && Inside(spans[i], left, right, top, bottom)
    ensures SumW(spans) > 0
    ensures left <= CenterOf(spans).x <= right && top <= CenterOf(spans).y <= bottom
  {
    SumsBounded(spans, left, right, top, bottom);
    QuotientBounds(left, SumX(spans), right, SumW(spans));
    QuotientBounds(top, SumY(spans), bottom, SumW(spans));
  }

  // The pixels of spans, in order, and the sums of their coordinates; a pixel's middle is half a pixel in.
  function PixelsOf(spans: seq<Span>): seq<Cell> {
    if spans == [] then [] else PixelsOf(spans[..|spans| - 1]) + RunOf(spans[|spans| - 1], spans[|spans| - 1].w)
  }

  function RunOf(s: Span, n: nat): seq<Cell> {
    if n == 0 then [] else RunOf(s, n - 1) + [(s.x + n - 1, s.y)]
  }

  function MiddlesTwice(cells: seq<Cell>): int {
    if cells == [] then 0 else MiddlesTwice(cells[..|cells| - 1]) + 2 * cells[|cells| - 1].0 + 1
  }

  function Rows(cells: seq<Cell>): int {
    if cells == [] then 0 else Rows(cells[..|cells| - 1]) + cells[|cells| - 1].1
  }

  lemma {:induction false} SumsConcat(a: seq<Cell>, b: seq<Cell>)
    ensures MiddlesTwice(a + b) == MiddlesTwice(a) + MiddlesTwice(b) && Rows(a + b) == Rows(a) + Rows(b)
  {
    if b == [] {
      assert a + b == a;
    } else {
      SumsConcat(a, b[..|b| - 1]);
      assert (a + b)[..|a + b| - 1] == a + b[..|b| - 1];
    }
  }

  lemma {:induction false} RunSums(s: Span, n: nat)
    ensures |RunOf(s, n)| == n && MiddlesTwice(RunOf(s, n)) == (2 * s.x + n) * n && Rows(RunOf(s, n)) == s.y * n
  {
    if n > 0 {
      RunSums(s, n - 1);
      assert RunOf(s, n)[..n - 1] == RunOf(s, n - 1);
      OneMore(2 * s.x, n, s.y);
    }
  }

  lemma OneMore(a: nat, n: nat, y: nat)
    requires n > 0
    ensures (a + n) * n == (a + (n - 1)) * (n - 1) + a + 2 * n - 1
    ensures y * n == y * (n - 1) + y
  {
    var k := n - 1;
    assert (a + n) * n == (a + k + 1) * (k + 1) == (a + k) * k + (a + k) + k + 1;
    assert y * (k + 1) == y * k + y;
  }

  lemma {:induction false} SumsOfPixels(spans: seq<Span>)
    ensures SumW(spans) == |PixelsOf(spans)| && SumY(spans) == Rows(PixelsOf(spans))
    ensures 2 * SumX(spans) <= MiddlesTwice(PixelsOf(spans)) <= 2 * SumX(spans) + |spans|
  {
    if spans != [] {
      var front, s := spans[..|spans| - 1], spans[|spans| - 1];
      SumsOfPixels(front);
      RunSums(s, s.w);
      SumsConcat(PixelsOf(front), RunOf(s, s.w));
    }
  }

  // A room's centre is the mean of the middles of its pixels, rounded down; in x each span may lose half a pixel
  // more. In y it is the mean row.
  lemma CenterIsMean(spans: seq<Span>)
    requires SumW(spans) > 0
    ensures var pixels, c := PixelsOf(spans), CenterOf(spans);
            && |pixels| > 0
            && 2 * |pixels| * c.x <= MiddlesTwice(pixels) < 2 * |pixels| * (c.x + 1) + |spans|
            && |pixels| * c.y <= Rows(pixels) < |pixels| * (c.y + 1)
  {
    SumsOfPixels(spans);
    hide PixelsOf, MiddlesTwice, Rows;
    Rounded(SumX(spans), SumW(spans));
    Rounded(SumY(spans), SumW(spans));
  }

  lemma Rounded(sum: nat, n: nat)
    requires n > 0
    ensures n * (sum / n) <= sum < n * (sum / n + 1)
    ensures 2 * n * (sum / n) <= 2 * sum && 2 * sum + 2 <= 2 * n * (sum / n + 1)
  {
    var q := sum / n;
    assert sum == n * q + sum % n && n * (q + 1) == n * q + n;
    assert 2 * n * q == 2 * (n * q) && 2 * n * (q + 1) == 2 * (n * (q + 1));
  }

  // The rooms of a map except those in `rest`, once each, in whatever order.
  ghost predicate ArrangesAllBut(rooms: seq<VectorRoom>, byId: map<nat, seq<Span>>, rest: set<nat>) {
    && (forall i :: 0 <= i < |rooms| ==>
          rooms[i].id in byId && rooms[i].id !in rest && rooms[i].spans == byId[rooms[i].id] && IsBuilt(rooms[i]))
    && (forall id :: id in byId && id !in rest ==> exists i :: 0 <= i < |rooms| && rooms[i].id == id)
    && (forall i, j :: 0 <= i < j < |rooms| ==> rooms[i].id != rooms[j].id)
  }

  ghost predicate Arranges(rooms: seq<VectorRoom>, byId: map<nat, seq<Span>>) {
    ArrangesAllBut(rooms, byId, {})
  }

  lemma ArrangeOne(rooms: seq<VectorRoom>, byId: map<nat, seq<Span>>, rest: set<nat>, room: VectorRoom)
    requires ArrangesAllBut(rooms, byId, rest) && room.id in rest && room.id in byId
    requires room.spans == byId[room.id] && IsBuilt(room)
    ensures ArrangesAllBut(rooms + [room], byId, rest - {room.id})
  {
    hide IsBuilt;
    var more := rooms + [room];
    forall id | id in byId && id !in rest - {room.id} ensures exists i :: 0 <= i < |more| && more[i].id == id {
      if id == room.id {
        assert more[|rooms|].id == id;
      } else {
        var i :| 0 <= i < |rooms| && rooms[i].id == id;
        assert more[i].id == id;
      }
    }
  }

  // The room's centre and outline are those of its spans.
  ghost predicate IsBuilt(room: VectorRoom) {
    && room.center == CenterOf(room.spans)
    && exists cells: set<Cell> ::
         && (forall x, y :: (x, y) in cells <==> Covers(room.spans, x, y))
         && room.outline == Outline(room.spans, cells)
  }

  method BuildRoom(id: nat, spans: seq<Span>) returns (room: VectorRoom)
    requires forall i :: 0 <= i < |spans| ==> spans[i].w > 0
    ensures room.id == id && room.spans == spans && IsBuilt(room)
  {
    var center := Center(spans);
    var outline, cells := ComputeOutline(spans);
    room := VectorRoom(id, center, spans, outline);
  }

  method BuildRooms(byId: map<nat, seq<Span>>) returns (rooms: seq<VectorRoom>)
    requires forall id, i :: id in byId && 0 <= i < |byId[id]| ==> byId[id][i].w > 0
    ensures Arranges(rooms, byId)
  {
    rooms := [];
    var rest := byId.Keys;
    while rest != {}
      invariant rest <= byId.Keys && ArrangesAllBut(rooms, byId, rest)
      decreases rest
    {
      hide ArrangesAllBut, IsBuilt;
      var id :| id in rest;
      var room := BuildRoom(id, byId[id]);
      ArrangeOne(rooms, byId, rest, room);
      rooms := rooms + [room];
      rest := rest - {id};
    }
  }

  // The first room of the list that covers the position.
  ghost predicate IsFirstOver(rooms: seq<VectorRoom>, p: Position, i: nat)
    requires i < |rooms|
  {
    Covers(rooms[i].spans, p.x, p.y) && forall k :: 0 <= k < i ==> !Covers(rooms[k].spans, p.x, p.y)
  }

  method FindCurrentRoom(rooms: seq<VectorRoom>, robot: Option<Position>, roomNames: map<string, string>)
    returns (room: Option<RoomHere>)
    ensures room.Some? ==>
              && robot.Some?
              && (exists i :: 0 <= i < |rooms| && rooms[i].id == room.value.id && IsFirstOver(rooms, robot.value, i))
              && room.value.name == (var key := Decimal(room.value.id);
                                     if key in roomNames && roomNames[key] != "" then roomNames[key] else "Room " + key)
    ensures room.None? && robot.Some? ==>
              forall i :: 0 <= i < |rooms| ==> !Covers(rooms[i].spans, robot.value.x, robot.value.y)
  {
    if robot.None? {
      return None;
    }
    var p := robot.value;
    for i := 0 to |rooms|
      invariant forall k :: 0 <= k < i ==> !Covers(rooms[k].spans, p.x, p.y)
    {
      var spans := rooms[i].spans;
      for j := 0 to |spans|
        invariant forall k :: 0 <= k < j ==> !Contains(spans[k], p.x, p.y)
      {
        if p.y == spans[j].y && p.x >= spans[j].x && p.x < spans[j].x + spans[j].w {
          assert Contains(spans[j], p.x, p.y);
          var key := Decimal(rooms[i].id);
          var name := if key in roomNames then roomNames[key] else "";
          if name == "" {
            name := "Room " + key;
          }
          return Some(RoomHere(rooms[i].id, name));
        }
      }
    }
    return None;
  }

  lemma CoveredIsInside(img: Image, e: Encoded, id: nat, x: int, y: int)
    requires Exact(img, e) && Covers(SpansOf(e, Room(id)), x, y)
    ensures 0 <= x < img.width && 0 <= y < img.height
  {
    assert ListUpTo(img, Room(id), SpansOf(e, Room(id)), 0, img.height);
    var i :| 0 <= i < |SpansOf(e, Room(id))| && Contains(SpansOf(e, Room(id))[i], x, y);
    assert MaximalRun(img, Room(id), SpansOf(e, Room(id))[i]);
  }

  lemma DisplayedCell(img: Image, e: Encoded, p: Position, id: nat)
    requires Exact(img, e)
    ensures var d := Displayed(img, p);
            (id in e.rooms && Covers(e.rooms[id], d.x, d.y)) <==> OnRoomPixel(img, p, id)
  {
    hide Exact, TruncDiv, ClassifyPixel, Covers;
    var d := Displayed(img, p);
    assert img.height - 1 - d.y == SourceRow(img, p);
    if Covers(SpansOf(e, Room(id)), d.x, d.y) {
      CoveredIsInside(img, e, id, d.x, d.y);
    }
    if 0 <= d.x < img.width && 0 <= d.y < img.height {
      CoveredExactlyOnce(img, e, d.x, d.y);
      assert Covers(SpansOf(e, Room(id)), d.x, d.y) <==> ClassAt(img, d.x, d.y) == Room(id);
      assert SourceIndex(img, d.x, d.y) == SourceRow(img, p) * img.width + d.x;
    }
  }

  // The rooms of the vector map, in whatever order.
  method VectorRooms(img: Image) returns (rooms: seq<VectorRoom>, ghost e: Encoded)
    ensures Exact(img, e) && Arranges(rooms, e.rooms)
    ensures forall i :: 0 <= i < |rooms| ==> Traces(img, rooms[i].id, rooms[i].outline)
  {
    var encoded := EncodeSpans(img);
    e := encoded;
    forall id, i | id in e.rooms && 0 <= i < |e.rooms[id]| ensures e.rooms[id][i].w > 0 {
      assert ListUpTo(img, Room(id), SpansOf(e, Room(id)), 0, img.height);
      assert MaximalRun(img, Room(id), SpansOf(e, Room(id))[i]);
    }
    hide Exact, IsBuilt, Traces;
    rooms := BuildRooms(encoded.rooms);
    forall i | 0 <= i < |rooms| ensures Traces(img, rooms[i].id, rooms[i].outline) {
      BuiltTraces(img, e, rooms[i]);
    }
  }

  lemma BuiltTraces(img: Image, e: Encoded, room: VectorRoom)
    requires Exact(img, e) && room.id in e.rooms && room.spans == e.rooms[room.id] && IsBuilt(room)
    ensures Traces(img, room.id, room.outline)
  {
    hide Exact, Traces, Covers, Outline;
    var cells: set<Cell> :|
      && (forall x, y :: (x, y) in cells <==> Covers(room.spans, x, y))
      && room.outline == Outline(room.spans, cells);
    OutlineTracesRoom(img, e, room.id, cells);
  }

  lemma RoomUnder(img: Image, p: Position, room: Option<RoomHere>)
    requires forall id: nat :: (room.Some? && room.value.id == id) <==> OnRoomPixel(img, p, id)
    ensures var col, row := Column(img, p), SourceRow(img, p);
            && (room.Some? <==>
                  && 0 <= col < img.width && 0 <= row < img.height && row * img.width + col < |img.pixels|
                  && var pixel := img.pixels[row * img.width + col]; 15 <= pixel <= 247 && pixel % 8 == 7)
            && (room.Some? ==>
                  1 <= room.value.id <= 30 && img.pixels[row * img.width + col] == 8 * room.value.id + 7)
  {
    hide Column, SourceRow, ClassifyPixel;
    var col, row := Column(img, p), SourceRow(img, p);
    assert room.Some? ==> OnRoomPixel(img, p, room.value.id);
    if 0 <= col < img.width && 0 <= row < img.height && row * img.width + col < |img.pixels| {
      var pixel := img.pixels[row * img.width + col];
      RoomPixels(pixel, pixel / 8);
      if room.Some? {
        RoomPixels(pixel, room.value.id);
      } else {
        assert !OnRoomPixel(img, p, pixel / 8);
      }
    }
  }

  // The room whose pixel lies under the robot.
  method RoomUnderRobot(img: Image, robot: Option<Position>, roomNames: map<string, string>)
      returns (room: Option<RoomHere>)
    ensures robot.None? ==> room.None?
    ensures forall id: nat ::
              (room.Some? && room.value.id == id) <==> (robot.Some? && OnRoomPixel(img, robot.value, id))
    ensures room.Some? ==>
              room.value.name == (var key := Decimal(room.value.id);
                                  if key in roomNames && roomNames[key] != "" then roomNames[key] else "Room " + key)
  {
    if img.width == 0 || img.height == 0 {
      return None;
    }
    var rooms, e := VectorRooms(img);
    hide Exact, Traces, IsBuilt, Displayed, Decimal;
    var shown := if robot.Some? then Some(Displayed(img, robot.value)) else None;
    room := FindCurrentRoom(rooms, shown, roomNames);
    if robot.Some? {
      hide OnRoomPixel;
      forall id: nat ensures (room.Some? && room.value.id == id) <==> OnRoomPixel(img, robot.value, id) {
        DisplayedCell(img, e, robot.value, id);
        if room.Some? {
          DisplayedCell(img, e, robot.value, room.value.id);
        }
      }
    }
  }

  // From the image to the answer: whatever order the rooms come in, the robot is reported in a room
  // exactly when the pixel it stands on, at `col` and `row`, is in the image and belongs to that room.
  method LocateRobot(img: Image, robot: Option<Position>, roomNames: map<string, string>)
      returns (room: Option<RoomHere>, ghost col: int, ghost row: int)
    ensures robot.Some? ==>
              var p := robot.value;
              && (if p.x >= 0 then 50 * (img.left + col) <= p.x < 50 * (img.left + col + 1)
                  else 50 * (img.left + col - 1) < p.x <= 50 * (img.left + col))
              && (if p.y >= 0 then 50 * (img.top + row) <= p.y < 50 * (img.top + row + 1)
                  else 50 * (img.top + row - 1) < p.y <= 50 * (img.top + row))
    ensures room.Some? <==>
              && robot.Some? && 0 <= col < img.width && 0 <= row < img.height
              && row * img.width + col < |img.pixels|
              && var pixel := img.pixels[row * img.width + col]; 15 <= pixel <= 247 && pixel % 8 == 7
    ensures room.Some? ==>
              && 1 <= room.value.id <= 30 && img.pixels[row * img.width + col] == 8 * room.value.id + 7
              && room.value.name == (var key := Decimal(room.value.id);
                                     if key in roomNames && roomNames[key] != "" then roomNames[key] else "Room " + key)
    ensures forall id: nat ::
              (room.Some? && room.value.id == id) <==> (robot.Some? && OnRoomPixel(img, robot.value, id))
  {
    hide Column, SourceRow, OnRoomPixel, Decimal;
    room := RoomUnderRobot(img, robot, roomNames);
    col, row := 0, 0;
    if robot.Some? {
      col, row := Column(img, robot.value), SourceRow(img, robot.value);
      PixelUnder(img, robot.value, col, row);
      RoomUnder(img, robot.value, room);
    }
  }
}
