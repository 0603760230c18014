/**
 * The coordinate handling of the parcel endpoints: the point-count check, the
 * swap between wire and storage order, closing the client's open point list
 * into a ring on the write path, and opening the stored ring on the read path.
 */
module Rings {
  import opened Models

  /** The fewest points a create or update request may carry. */
  const MinPoints := 4

  /**
   * The point-count check of the write path: fewer than MinPoints points is a
   * bad request. A list that passes is non-empty, so the ring closer may read
   * its first point, and it closes into a valid exterior ring.
   */
  function HasEnoughPoints(points: seq<CoordinateDto>): (ok: bool)
    ensures ok ==> |points| > 0 && IsLinearRing(ClosedRing(points))
    ensures !ok ==> |points| < MinPoints
  {
    |points| >= MinPoints
  }

  /** A wire point as a storage point: X takes the longitude, Y the latitude. */
  function ToStored(c: CoordinateDto): Coordinate
  {
    Coordinate(c.lon, c.lat)
  }

  /** A storage point as a wire point: the latitude is Y, the longitude X. */
  function ToWire(c: Coordinate): CoordinateDto
  {
    CoordinateDto(c.y, c.x)
  }

  /** Every wire point, in order, in storage form. */
  function Project(points: seq<CoordinateDto>): (ring: seq<Coordinate>)
    ensures |ring| == |points|
    ensures forall i :: 0 <= i < |points| ==> ring[i].x == points[i].lon && ring[i].y == points[i].lat
  {
    seq(|points|, i requires 0 <= i < |points| => ToStored(points[i]))
  }

  /** Every storage point, in order, in wire form. */
  function Unproject(ring: seq<Coordinate>): (points: seq<CoordinateDto>)
    ensures |points| == |ring|
    ensures forall i :: 0 <= i < |ring| ==> points[i].lat == ring[i].y && points[i].lon == ring[i].x
  {
    seq(|ring|, i requires 0 <= i < |ring| => ToWire(ring[i]))
  }

  /** The two coordinate orders are inverse to each other. */
  lemma ProjectionsAreInverse(points: seq<CoordinateDto>, ring: seq<Coordinate>)
    ensures Unproject(Project(points)) == points
    ensures Project(Unproject(ring)) == ring
  {
  }

  /** The first and the last point of a non-empty ring coincide. */
  predicate IsClosed(ring: seq<Coordinate>)
  {
    |ring| > 0 && ring[0] == ring[|ring| - 1]
  }

  /** What a polygon's exterior ring must be: closed and of at least four points. */
  predicate IsLinearRing(ring: seq<Coordinate>)
  {
    |ring| >= 4 && IsClosed(ring)
  }

  /**
   * The ring stored for a client point list: the points in storage order, with
   * the first point appended when the list does not already end where it starts.
   */
  function ClosedRing(points: seq<CoordinateDto>): (ring: seq<Coordinate>)
    requires |points| > 0
    ensures IsClosed(ring)
    ensures |points| <= |ring| <= |points| + 1
    ensures ring[..|points|] == Project(points)
    ensures |ring| == |points| <==> points[0] == points[|points| - 1]
  {
    var projected := Project(points);
    if points[0] == points[|points| - 1] then projected else projected + [ToStored(points[0])]
  }

  /**
   * The write path's ring closing: project the list, then append its first
   * point when the first and last points differ.
   */
  method CloseRing(points: seq<CoordinateDto>) returns (ring: seq<Coordinate>)
    requires |points| > 0
    ensures ring == ClosedRing(points)
  {
    ring := Project(points);
    if ring[0] != ring[|ring| - 1] {
      ring := ring + [ring[0]];
    }
  }

  /**
   * The wire points read back from a stored geometry: no geometry gives no
   * points; otherwise every ring point in wire order, less the last one when it
   * repeats the first.
   */
  function OpenedRing(geometry: Option<seq<Coordinate>>): (points: seq<CoordinateDto>)
    ensures geometry.None? ==> points == []
    ensures geometry.Some? ==> points <= Unproject(geometry.value)
    ensures geometry.Some? ==> |geometry.value| - 1 <= |points|
    ensures geometry.Some? ==> (|points| < |geometry.value| <==> IsClosed(geometry.value))
  {
    match geometry
    case None => []
    case Some(ring) =>
      var all := Unproject(ring);
      if |all| > 0 && all[0] == all[|all| - 1] then all[..|all| - 1] else all
  }

  /**
   * The read path's ring opening: copy every ring point into a list in wire
   * order, then remove the last entry when it equals the first.
   */
  method OpenRing(geometry: Option<seq<Coordinate>>) returns (points: seq<CoordinateDto>)
    ensures points == OpenedRing(geometry)
  {
    points := [];
    if geometry.Some? {
      var ring := geometry.value;
      var i := 0;
      while i < |ring|
        invariant 0 <= i <= |ring|
        invariant |points| == i
        invariant forall k :: 0 <= k < i ==> points[k] == ToWire(ring[k])
      {
        points := points + [ToWire(ring[i])];
        i := i + 1;
      }
      if |points| > 0 && points[0] == points[|points| - 1] {
        points := points[..|points| - 1];
      }
    }
  }

  /**
   * Round trip: a point list whose first and last points differ reads back,
   * after closing and reopening, exactly as it was sent.
   */
  lemma RoundTrip(points: seq<CoordinateDto>)
    requires |points| > 0 && points[0] != points[|points| - 1]
    ensures OpenedRing(Some(ClosedRing(points))) == points
  {
  }

  /**
   * A point list the client already closed is stored as given and reads back
   * without its last point, so it comes back one point shorter than it was sent.
   */
  lemma ClosedInputReadsBackShorter(points: seq<CoordinateDto>)
    requires |points| > 0 && points[0] == points[|points| - 1]
    ensures OpenedRing(Some(ClosedRing(points))) == points[..|points| - 1]
  {
  }
}
