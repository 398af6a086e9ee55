/**
  The logic under the preview server (`src/visualization-server.ts`): validating
  the period of the two `/api/...` routes, the deterministic mock occupancy of
  the engineering building's fifteen classrooms, the responses the routes give,
  and the free/occupied summary the preview page renders in the browser.

  Express routing, the HTML templates and the clock are left out: the route
  parameter and the date are inputs, and a response is its status with an
  abstract body. The renderer the image route calls is not part of this model;
  its response carries the arguments the renderer is given.
*/
module VisualizationServer {
  import opened Wrappers
  import opened JsText

  // ---------------------------------------------------------------------------
  // Period validation
  // ---------------------------------------------------------------------------

  /** `parseInt(param)`, accepted only when it is a number in 1..12. */
  function ValidPeriod(param: string): (r: Option<int>)
    ensures r.Some? ==> 1 <= r.value <= 12 && ParseInt(param) == r
    ensures r.None? ==> ParseInt(param).None? || ParseInt(param).value < 1 || ParseInt(param).value > 12
  {
    match ParseInt(param)
    case Some(p) => if 1 <= p <= 12 then Some(p) else None
    case None => None
  }

  /** Every period the preview page links to is accepted as itself. */
  lemma ValidPeriodOfPrinted(p: int)
    ensures ValidPeriod(IntToString(p)) == (if 1 <= p <= 12 then Some(p) else None)
  {
    ParseIntOfIntToString(p);
  }

  lemma {:induction false} DigitPrefixStopsAtNonDigit(s: string, rest: string)
    requires forall i :: 0 <= i < |s| ==> IsDecimalDigit(s[i])
    requires rest == [] || !IsDecimalDigit(rest[0])
    ensures DigitPrefix(s + rest, 10) == s
  {
    if s == [] {
      assert s + rest == rest;
    } else {
      assert (s + rest)[1..] == s[1..] + rest;
      DigitPrefixStopsAtNonDigit(s[1..], rest);
    }
  }

  /**
    `parseInt` reads only the leading numeral, so a period followed by anything
    that does not start with a digit (`"3abc"`, `"12.5"`) is accepted as that period.
  */
  lemma ValidPeriodIgnoresSuffix(p: int, rest: string)
    requires p >= 1
    requires rest == [] || !IsDecimalDigit(rest[0])
    ensures ValidPeriod(IntToString(p) + rest) == (if p <= 12 then Some(p) else None)
  {
    var digits := NatToString(p);
    assert IntToString(p) == digits;
    assert !IsWhiteSpace((digits + rest)[0]);
    assert TrimStart(digits + rest) == digits + rest;
    assert digits[0] != '0';
    DigitPrefixStopsAtNonDigit(digits, rest);
    DigitsValueOfNatToString(p);
  }

  // ---------------------------------------------------------------------------
  // The mock occupancy generator
  // ---------------------------------------------------------------------------

  /** The modulus of the linear congruential generator; a pseudo-random value is `r / Modulus`. */
  const Modulus := 233280

  /**
    The occupancy rate of a period, as a numerator over `Modulus`: 0.7 for
    periods 1-4, 0.5 for periods 5-8 and 0.3 for every other period.
  */
  function OccupancyThreshold(period: int): (t: int)
    ensures 1 <= period <= 4 ==> t * 10 == 7 * Modulus
    ensures 5 <= period <= 8 ==> t * 10 == 5 * Modulus
    ensures (period < 1 || period > 8) ==> t * 10 == 3 * Modulus
  {
    if 1 <= period <= 4 then 163296
    else if 5 <= period <= 8 then 116640
    else 69984
  }

  /** JavaScript's `a % 233280`: the remainder takes the sign of the dividend. */
  function TruncatingMod(a: int): (r: int)
    ensures -Modulus < r < Modulus
    ensures a >= 0 ==> 0 <= r
    ensures a <= 0 ==> r <= 0
    ensures (a - r) % Modulus == 0
  {
    if a >= 0 then a % Modulus else -((-a) % Modulus)
  }

  /** The numerator of `(seed * 9301 + 49297) % 233280 / 233280`. */
  function PseudoRandom(seed: int): (r: int)
    ensures seed >= 0 ==> 0 <= r < Modulus
    ensures (seed * 9301 + 49297 - r) % Modulus == 0
  {
    TruncatingMod(seed * 9301 + 49297)
  }

  /** A classroom of the fixed list the generator starts from. */
  datatype BaseClassroom = BaseClassroom(name: string, capacity: int, kind: string)

  /** `ClassroomInfo`: a classroom with its building and whether it is free. */
  datatype ClassroomInfo = ClassroomInfo(name: string, capacity: int, kind: string, building: string, isFree: bool)

  const EngineeringBuilding := "工学馆"

  const BaseClassrooms: seq<BaseClassroom> := [
    BaseClassroom("GX101", 120, "多媒体大教室"),
    BaseClassroom("GX102", 80, "多媒体教室"),
    BaseClassroom("GX103", 60, "普通教室"),
    BaseClassroom("GX201", 100, "多媒体教室"),
    BaseClassroom("GX202", 80, "多媒体教室"),
    BaseClassroom("GX203", 60, "普通教室"),
    BaseClassroom("GX301", 120, "多媒体大教室"),
    BaseClassroom("GX302", 80, "多媒体教室"),
    BaseClassroom("GX303", 60, "普通教室"),
    BaseClassroom("GX401", 100, "多媒体教室"),
    BaseClassroom("GX402", 80, "多媒体教室"),
    BaseClassroom("GX403", 60, "普通教室"),
    BaseClassroom("GX501", 40, "研讨室"),
    BaseClassroom("GX502", 40, "研讨室"),
    BaseClassroom("GX503", 30, "小教室")]

  /**
    Room `index` is free when its pseudo-random value exceeds the period's
    occupancy rate. Both are fractions over `Modulus`, and the floating-point
    quotients compare as their numerators do, so the test is exact here.
  */
  predicate RoomIsFree(period: int, index: int)
  {
    PseudoRandom(period * 1000 + index) > OccupancyThreshold(period)
  }

  /** `generateMockClassroomData(period)`: the base list mapped in order. */
  function MockClassrooms(period: int): (rooms: seq<ClassroomInfo>)
    ensures |rooms| == |BaseClassrooms| == 15
    ensures forall k :: 0 <= k < |rooms| ==>
      && rooms[k].name == BaseClassrooms[k].name
      && rooms[k].capacity == BaseClassrooms[k].capacity
      && rooms[k].kind == BaseClassrooms[k].kind
      && rooms[k].building == EngineeringBuilding
      && (rooms[k].isFree <==> PseudoRandom(period * 1000 + k) > OccupancyThreshold(period))
  {
    seq(|BaseClassrooms|, k requires 0 <= k < |BaseClassrooms| =>
      ClassroomInfo(BaseClassrooms[k].name, BaseClassrooms[k].capacity, BaseClassrooms[k].kind,
                    EngineeringBuilding, RoomIsFree(period, k)))
  }

  // ---------------------------------------------------------------------------
  // The routes
  // ---------------------------------------------------------------------------

  /** What a route sends back. `Png` stands for the image rendered from its arguments. */
  datatype Body =
    | PlainText(text: string)
    | ErrorJson(error: string)
    | PeriodData(date: string, period: int, building: string, classrooms: seq<ClassroomInfo>)
    | Png(classrooms: seq<ClassroomInfo>, date: string, period: int)

  datatype Response = Response(status: int, body: Body)

  const InvalidPeriod := "Invalid period"

  /** `GET /api/classroom-data/:period`. */
  function DataRoute(param: string, date: string): (r: Response)
    ensures r.status == 200 || r.status == 400
    ensures r.status == 200 <==> ValidPeriod(param).Some?
    ensures r.status == 400 ==> r.body == ErrorJson(InvalidPeriod)
    ensures r.status == 200 ==>
      && r.body.PeriodData?
      && r.body.date == date
      && r.body.period == ValidPeriod(param).value
      && r.body.building == EngineeringBuilding
      && r.body.classrooms == MockClassrooms(r.body.period)
  {
    match ValidPeriod(param)
    case None => Response(400, ErrorJson(InvalidPeriod))
    case Some(p) => Response(200, PeriodData(date, p, EngineeringBuilding, MockClassrooms(p)))
  }

  /** `GET /api/classroom-image/:period`. */
  function ImageRoute(param: string, date: string): (r: Response)
    ensures r.status == 200 || r.status == 400
    ensures r.status == 200 <==> ValidPeriod(param).Some?
    ensures r.status == 400 ==> r.body == PlainText(InvalidPeriod)
    ensures r.status == 200 ==>
      r.body.Png? && r.body.date == date && r.body.period == ValidPeriod(param).value
      && r.body.classrooms == MockClassrooms(r.body.period)
  {
    match ValidPeriod(param)
    case None => Response(400, PlainText(InvalidPeriod))
    case Some(p) => Response(200, Png(MockClassrooms(p), date, p))
  }

  /** The two routes accept the same periods, and on success describe the same classrooms. */
  lemma RoutesAgree(param: string, date: string)
    ensures DataRoute(param, date).status == ImageRoute(param, date).status
    ensures DataRoute(param, date).status == 200 ==>
      DataRoute(param, date).body.classrooms == ImageRoute(param, date).body.classrooms
      && DataRoute(param, date).body.period == ImageRoute(param, date).body.period
  {
  }

  // ---------------------------------------------------------------------------
  // The summary the preview page renders (`renderVisualization`)
  // ---------------------------------------------------------------------------

  /** `classrooms.filter(room => room.isFree)`. */
  function FreeRooms(rooms: seq<ClassroomInfo>): (free: seq<ClassroomInfo>)
    ensures |free| <= |rooms|
    ensures forall k :: 0 <= k < |free| ==> free[k].isFree
  {
    if rooms == [] then []
    else (if rooms[0].isFree then [rooms[0]] else []) + FreeRooms(rooms[1..])
  }

  /** `classrooms.filter(room => !room.isFree)`. */
  function OccupiedRooms(rooms: seq<ClassroomInfo>): (occupied: seq<ClassroomInfo>)
    ensures |occupied| <= |rooms|
    ensures forall k :: 0 <= k < |occupied| ==> !occupied[k].isFree
  {
    if rooms == [] then []
    else (if rooms[0].isFree then [] else [rooms[0]]) + OccupiedRooms(rooms[1..])
  }

  /** `filter` keeps list order: filtering a concatenation is the concatenation of the filtered parts. */
  lemma {:induction false} FreeRoomsOfAppend(a: seq<ClassroomInfo>, b: seq<ClassroomInfo>)
    ensures FreeRooms(a + b) == FreeRooms(a) + FreeRooms(b)
  {
    if a == [] {
      assert a + b == b;
    } else {
      assert (a + b)[1..] == a[1..] + b;
      FreeRoomsOfAppend(a[1..], b);
    }
  }

  /** A single room is kept by the free filter exactly when it is free. */
  lemma FreeRoomsOfOne(room: ClassroomInfo)
    ensures FreeRooms([room]) == if room.isFree then [room] else []
  {
    assert [room][1..] == [];
  }

  /** `filter` keeps list order: filtering a concatenation is the concatenation of the filtered parts. */
  lemma {:induction false} OccupiedRoomsOfAppend(a: seq<ClassroomInfo>, b: seq<ClassroomInfo>)
    ensures OccupiedRooms(a + b) == OccupiedRooms(a) + OccupiedRooms(b)
  {
    if a == [] {
      assert a + b == b;
    } else {
      assert (a + b)[1..] == a[1..] + b;
      OccupiedRoomsOfAppend(a[1..], b);
    }
  }

  /** A single room is kept by the occupied filter exactly when it is not free. */
  lemma OccupiedRoomsOfOne(room: ClassroomInfo)
    ensures OccupiedRooms([room]) == if room.isFree then [] else [room]
  {
    assert [room][1..] == [];
  }

  /** The free and the occupied rooms split the list: together they are all of it, each room once. */
  lemma {:induction false} PartitionOfRooms(rooms: seq<ClassroomInfo>)
    ensures multiset(FreeRooms(rooms)) + multiset(OccupiedRooms(rooms)) == multiset(rooms)
    ensures |FreeRooms(rooms)| + |OccupiedRooms(rooms)| == |rooms|
  {
    if rooms != [] {
      PartitionOfRooms(rooms[1..]);
      assert rooms == [rooms[0]] + rooms[1..];
    }
  }

  /** A room is listed as free exactly when it is in the list and free. */
  lemma {:induction false} FreeRoomsMembership(rooms: seq<ClassroomInfo>, room: ClassroomInfo)
    ensures room in FreeRooms(rooms) <==> room in rooms && room.isFree
  {
    if rooms != [] {
      FreeRoomsMembership(rooms[1..], room);
      assert rooms == [rooms[0]] + rooms[1..];
    }
  }

  /** One side of the preview: either a placeholder message or rooms, with a note of how many more. */
  datatype RoomList =
    | Placeholder(message: string)
    | Rooms(rooms: seq<ClassroomInfo>, moreCount: Option<int>)

  const NoFreeMessage := "暂无空闲教室"
  const NoOccupiedMessage := "无已占用教室"
  const OccupiedShown := 5

  /** The free side: every free room, or the placeholder. */
  function FreeSection(free: seq<ClassroomInfo>): (r: RoomList)
    ensures r.Placeholder? <==> free == []
    ensures r.Placeholder? ==> r.message == NoFreeMessage
    ensures r.Rooms? ==> r.rooms == free && r.moreCount.None?
  {
    if |free| > 0 then Rooms(free, None) else Placeholder(NoFreeMessage)
  }

  /**
    The occupied side: the first five occupied rooms, and when there are more, a
    note of how many are not shown; the placeholder when none is occupied.
  */
  function OccupiedSection(occupied: seq<ClassroomInfo>): (r: RoomList)
    ensures r.Placeholder? <==> occupied == []
    ensures r.Placeholder? ==> r.message == NoOccupiedMessage
    ensures r.Rooms? ==>
      && 0 < |r.rooms| <= OccupiedShown && |r.rooms| <= |occupied|
      && r.rooms == occupied[..|r.rooms|]
      && (r.moreCount.Some? <==> |occupied| > OccupiedShown)
      && (r.moreCount.Some? ==> r.moreCount.value > 0)
      && |r.rooms| + r.moreCount.GetOr(0) == |occupied|
    ensures r.Rooms? ==> |r.rooms| == if |occupied| < OccupiedShown then |occupied| else OccupiedShown
    ensures r.Rooms? ==> r.moreCount == if |occupied| > OccupiedShown then Some(|occupied| - OccupiedShown) else None
  {
    if |occupied| > 0 then
      var shown := if |occupied| < OccupiedShown then |occupied| else OccupiedShown;
      Rooms(occupied[..shown], if |occupied| > OccupiedShown then Some(|occupied| - OccupiedShown) else None)
    else Placeholder(NoOccupiedMessage)
  }

  /** The figures and lists of the preview's two cards. */
  datatype Summary = Summary(
    date: string, period: int, building: string,
    total: int, freeCount: int, occupiedCount: int,
    free: RoomList, occupied: RoomList)

  /** `renderVisualization(data, imageUrl, period)`, reduced to what the cards show. */
  function RenderVisualization(date: string, period: int, building: string, classrooms: seq<ClassroomInfo>): (s: Summary)
    ensures s.date == date && s.period == period && s.building == building
    ensures s.total == |classrooms|
    ensures s.freeCount == |FreeRooms(classrooms)| && s.occupiedCount == |OccupiedRooms(classrooms)|
    ensures s.freeCount + s.occupiedCount == s.total
    ensures s.free == FreeSection(FreeRooms(classrooms)) && s.occupied == OccupiedSection(OccupiedRooms(classrooms))
  {
    PartitionOfRooms(classrooms);
    var free := FreeRooms(classrooms);
    var occupied := OccupiedRooms(classrooms);
    Summary(date, period, building, |classrooms|, |free|, |occupied|, FreeSection(free), OccupiedSection(occupied))
  }

  /** The preview of any accepted period counts fifteen rooms, free and occupied together. */
  lemma PreviewOfAcceptedPeriod(param: string, date: string)
    requires DataRoute(param, date).status == 200
    ensures var b := DataRoute(param, date).body;
      var s := RenderVisualization(b.date, b.period, b.building, b.classrooms);
      s.total == 15 && s.freeCount + s.occupiedCount == 15 && s.period == ValidPeriod(param).value
  {
  }

  /**
    The generated rooms run in blocks: in period 1 no room is free, so the
    preview shows the placeholder on the free side and five of fifteen occupied
    rooms with a note of ten more.
  */
  lemma FirstPeriodHasNoFreeRoom()
    ensures FreeRooms(MockClassrooms(1)) == []
    ensures var s := RenderVisualization("", 1, EngineeringBuilding, MockClassrooms(1));
      s.free == Placeholder(NoFreeMessage) && s.occupied.Rooms? && s.occupied.moreCount == Some(10)
  {
    var rooms := MockClassrooms(1);
    forall k | 0 <= k < 15 ensures !rooms[k].isFree {
      assert !RoomIsFree(1, k);
    }
    NoneFree(rooms);
    PartitionOfRooms(rooms);
  }

  lemma {:induction false} NoneFree(rooms: seq<ClassroomInfo>)
    requires forall k :: 0 <= k < |rooms| ==> !rooms[k].isFree
    ensures FreeRooms(rooms) == []
  {
    if rooms != [] {
      NoneFree(rooms[1..]);
    }
  }
}
