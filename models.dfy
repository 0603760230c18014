/**
 * The records the parcel endpoints exchange and store: the stored Parcel entity,
 * the client-facing request and response shapes, and the two coordinate forms
 * (latitude-first on the wire, longitude-first in storage).
 */
module Models {

  datatype Option<T> = None | Some(value: T)

  /** A coordinate value in degrees. The endpoints only copy and compare these values. */
  type Degree = real

  /** A point in time, as the store records it (DateTime.UtcNow in the service). */
  type Instant = int

  /** A wire point: latitude first. */
  datatype CoordinateDto = CoordinateDto(lat: Degree, lon: Degree)

  /** A stored ring point: X is the longitude, Y the latitude. */
  datatype Coordinate = Coordinate(x: Degree, y: Degree)

  /**
   * A stored parcel. The geometry is the exterior ring of the polygon, kept as
   * its sequence of points; a missing (null) description is None.
   */
  datatype Parcel = Parcel(
    id: int,
    userId: string,
    name: string,
    description: Option<string>,
    geometry: seq<Coordinate>,
    createdAt: Instant,
    updatedAt: Instant)

  /** The body of a create or an update request. */
  datatype CreateParcelRequest = CreateParcelRequest(
    name: string,
    description: Option<string>,
    coordinates: seq<CoordinateDto>)

  /** What every parcel endpoint returns for one parcel. */
  datatype ParcelResponse = ParcelResponse(
    id: int,
    name: string,
    description: Option<string>,
    coordinates: seq<CoordinateDto>,
    createdAt: Instant,
    updatedAt: Instant)
}
