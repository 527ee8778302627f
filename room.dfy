/**
 * The room of the school-timetabling use case: a named place with optional
 * coordinates, and the rounded Euclidean distance between two rooms.
 */
module SchoolTimetabling {
  import opened Wrappers
  import opened JavaInt
  import opened JavaStrings

  /** The squared length of the offset from (x1, y1) to (x2, y2), each coordinate
      difference taken in Java `int` arithmetic. */
  function SquaredOffset(x1: Int32, y1: Int32, x2: Int32, y2: Int32): (n: nat)
  {
    var dx, dy := Sub32(x2, x1) as int, Sub32(y2, y1) as int;
    dx * dx + dy * dy
  }

  /** `Math.round(Math.sqrt(dx² + dy²))` from (x1, y1) to (x2, y2). */
  function PointDistance(x1: Int32, y1: Int32, x2: Int32, y2: Int32): (d: nat)
    ensures RoundsSqrt(SquaredOffset(x1, y1, x2, y2), d)
  {
    RoundSqrt(SquaredOffset(x1, y1, x2, y2))
  }

  function Abs(v: int): (r: nat)
  {
    if v < 0 then -v else v
  }

  lemma PointDistanceSymmetric(x1: Int32, y1: Int32, x2: Int32, y2: Int32)
    ensures PointDistance(x1, y1, x2, y2) == PointDistance(x2, y2, x1, y1)
  {
    SquareSub32Symmetric(x2, x1);
    SquareSub32Symmetric(y2, y1);
  }

  /** Along one axis the distance is the exact coordinate difference. */
  lemma PointDistanceAlongAxis(x1: Int32, y1: Int32, x2: Int32, y2: Int32)
    ensures y1 == y2 ==> PointDistance(x1, y1, x2, y2) == Abs(Sub32(x2, x1) as int)
    ensures x1 == x2 ==> PointDistance(x1, y1, x2, y2) == Abs(Sub32(y2, y1) as int)
  {
    if y1 == y2 {
      assert Sub32(y2, y1) == 0;
      RoundSqrtOfSquare(Sub32(x2, x1) as int);
    }
    if x1 == x2 {
      assert Sub32(x2, x1) == 0;
      RoundSqrtOfSquare(Sub32(y2, y1) as int);
    }
  }

  /** The coordinate differences wrap like Java `int`: two points four billion apart on
      the x axis come out 294967296 apart. */
  lemma PointDistanceWrapsFarApart()
    ensures PointDistance(-2_000_000_000, 0, 2_000_000_000, 0) == 294_967_296
  {
    assert Sub32(2_000_000_000, -2_000_000_000) == -294_967_296;
    PointDistanceAlongAxis(-2_000_000_000, 0, 2_000_000_000, 0);
  }

  class Room {
    /** Generated by the database; absent until then. */
    var id: Option<int>
    /** Absent only for a room made by the no-argument constructor. */
    var name: Option<string>
    var xLocation: Option<Int32>
    var yLocation: Option<Int32>

    /** The no-argument constructor the persistence layer uses. */
    constructor Empty()
      ensures id == None && name == None && xLocation == None && yLocation == None
    {
      id, name, xLocation, yLocation := None, None, None, None;
    }

    constructor Named(name: string)
      ensures this.name == Some(Trim(name)) && ToString() == Some(Trim(name))
      ensures id == None && xLocation == None && yLocation == None
    {
      id, this.name, xLocation, yLocation := None, Some(Trim(name)), None, None;
    }

    constructor Located(name: string, xLocation: Option<Int32>, yLocation: Option<Int32>)
      ensures this.name == Some(Trim(name)) && ToString() == Some(Trim(name))
      ensures this.xLocation == xLocation && this.yLocation == yLocation && id == None
    {
      id, this.name := None, Some(Trim(name));
      this.xLocation, this.yLocation := xLocation, yLocation;
    }

    constructor WithId(id: int, name: string)
      ensures this.id == Some(id) && this.name == Some(Trim(name)) && ToString() == Some(Trim(name))
      ensures xLocation == None && yLocation == None
    {
      this.id, this.name, xLocation, yLocation := Some(id), Some(Trim(name)), None, None;
    }

    /** `toString`: the stored name, absent for the no-argument room. */
    function ToString(): (r: Option<string>)
      reads this
      ensures r == name
    {
      name
    }

    /** An absent x coordinate reads as 0. */
    function XLocation(): (x: Int32)
      reads this
      ensures xLocation == None ==> x == 0
      ensures xLocation != None ==> x == xLocation.value
    {
      xLocation.GetOr(0)
    }

    /** An absent y coordinate reads as 0. */
    function YLocation(): (y: Int32)
      reads this
      ensures yLocation == None ==> y == 0
      ensures yLocation != None ==> y == yLocation.value
    {
      yLocation.GetOr(0)
    }

    method SetXLocation(xLocation: Option<Int32>)
      modifies this`xLocation
      ensures this.xLocation == xLocation && XLocation() == xLocation.GetOr(0)
      ensures yLocation == old(yLocation) && YLocation() == old(YLocation())
      ensures id == old(id) && name == old(name)
    {
      this.xLocation := xLocation;
    }

    method SetYLocation(yLocation: Option<Int32>)
      modifies this`yLocation
      ensures this.yLocation == yLocation && YLocation() == yLocation.GetOr(0)
      ensures xLocation == old(xLocation) && XLocation() == old(XLocation())
      ensures id == old(id) && name == old(name)
    {
      this.yLocation := yLocation;
    }

    /** The distance to `room`: the integer nearest to the length of the offset
        between their (defaulted) coordinates. */
    function GetDistance(room: Room): (d: nat)
      reads this, room
      ensures RoundsSqrt(SquaredOffset(XLocation(), YLocation(), room.XLocation(), room.YLocation()), d)
    {
      PointDistance(XLocation(), YLocation(), room.XLocation(), room.YLocation())
    }
  }

  lemma DistanceSymmetric(a: Room, b: Room)
    ensures a.GetDistance(b) == b.GetDistance(a)
  {
    PointDistanceSymmetric(a.XLocation(), a.YLocation(), b.XLocation(), b.YLocation());
  }

  /** Rooms at the same place, a room and itself included, are 0 apart. */
  lemma DistanceAtSamePlace(a: Room, b: Room)
    requires a.XLocation() == b.XLocation() && a.YLocation() == b.YLocation()
    ensures a.GetDistance(b) == 0
  {
    assert SquaredOffset(a.XLocation(), a.YLocation(), b.XLocation(), b.YLocation()) == 0;
    RoundsSqrtUnique(0, 0, a.GetDistance(b));
  }

  /** A room without coordinates stands at the origin. */
  lemma DistanceToUnlocated(a: Room, b: Room)
    requires b.xLocation == None && b.yLocation == None
    ensures a.GetDistance(b) == PointDistance(0, 0, a.XLocation(), a.YLocation())
    ensures b.GetDistance(a) == PointDistance(0, 0, a.XLocation(), a.YLocation())
  {
    PointDistanceSymmetric(a.XLocation(), a.YLocation(), 0, 0);
  }

  /** Rooms on one horizontal line are |dx| apart; rooms on one vertical line are |dy| apart. */
  lemma DistanceAlongAxis(a: Room, b: Room)
    ensures a.YLocation() == b.YLocation() ==> a.GetDistance(b) == Abs(Sub32(b.XLocation(), a.XLocation()) as int)
    ensures a.XLocation() == b.XLocation() ==> a.GetDistance(b) == Abs(Sub32(b.YLocation(), a.YLocation()) as int)
  {
    PointDistanceAlongAxis(a.XLocation(), a.YLocation(), b.XLocation(), b.YLocation());
  }
}
