/**
 * Clients of the parcel endpoints: what a caller can conclude about a sequence
 * of requests from the endpoints' contracts alone.
 */
module Scenarios {
  import opened Models
  import opened Rings
  import opened ParcelEndpoints

  /** Four map-drawn points, first and last different. */
  function Square(): seq<CoordinateDto>
  {
    [CoordinateDto(41.0, 29.0), CoordinateDto(41.0, 29.1), CoordinateDto(41.1, 29.1), CoordinateDto(41.1, 29.0)]
  }

  /**
   * A four-point parcel is stored as a five-point ring that ends where it starts,
   * and reading it back gives the four points as sent.
   */
  method CreateThenGet(now: Instant)
  {
    var store := new ParcelStore();
    var owner := Some("alice");
    var created := store.Create(owner, CreateParcelRequest("field", None, Square()), now);
    assert created.Created?;
    var id := created.body.id;
    assert created.body.coordinates == Square();
    var ring := store.parcels[id].geometry;
    assert |ring| == 5 && ring[4] == Coordinate(29.0, 41.0);
    var read := store.Get(owner, id);
    RoundTrip(Square());
    assert read == Ok(ParcelResponse(id, "field", None, Square(), now, now));
  }

  /** A three-point request is refused and nothing is stored. */
  method TooFewPoints(now: Instant)
  {
    var store := new ParcelStore();
    var owner := Some("alice");
    var created := store.Create(owner, CreateParcelRequest("field", None, Square()[..3]), now);
    assert created == BadRequest(PointCountMessage);
    assert store.parcels == map[];
  }

  /** Another user's update is answered NotFound and leaves the parcel as it was. */
  method UpdateByAnotherUser(now: Instant, later: Instant)
  {
    var store := new ParcelStore();
    var created := store.Create(Some("alice"), CreateParcelRequest("field", None, Square()), now);
    var id := created.body.id;
    var before := store.parcels[id];
    var updated := store.Update(Some("bob"), id, CreateParcelRequest("taken", None, Square()), later);
    assert updated == NotFound;
    assert store.parcels[id] == before;
    var deleted := store.Delete(Some("bob"), id);
    assert deleted == NotFound && id in store.parcels;
  }
}
