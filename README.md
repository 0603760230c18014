# WorldMapLeaflet parcel endpoints in Dafny

WorldMapLeaflet lets signed-in users draw polygonal land parcels on a map and store them. Later they can list, read, update and delete them. This project models the five parcel endpoints of `WorldMapLeaflet/Program.cs`:

- `GET /api/parcels`
- `POST /api/parcels`
- `GET /api/parcels/{id}`
- `PUT /api/parcels/{id}`
- `DELETE /api/parcels/{id}`

It covers the coordinate handling inside those endpoints and their owner-scoped access to the parcels table.

- `models.dfy` (module `Models`) holds the records:
  - the stored `Parcel`;
  - the wire shapes `CreateParcelRequest`, `CoordinateDto` (latitude first) and `ParcelResponse`;
  - the storage point `Coordinate` (X = longitude, Y = latitude).
- `rings.dfy` (module `Rings`) holds the point-count check (`MinPoints` = 4) and the swap between wire and storage order.
  - The write path's ring closer is specified by the function `ClosedRing` and carried out by the method `CloseRing`. It projects the list and appends the first point when the first and last points differ.
  - The read path's ring opener is specified by `OpenedRing` and carried out by `OpenRing`. It copies every ring point back in a loop, then removes the last point only when it equals the first.
  - The lemmas `RoundTrip` and `ClosedInputReadsBackShorter` connect the two paths.
- `parcel_store.dfy` (module `ParcelEndpoints`) holds the class `ParcelStore`. It keeps the parcels table as a `map<int, Parcel>` keyed by id, plus the next id to hand out.
  - Each endpoint is a method. It returns a `Reply`: Unauthorized, BadRequest, NotFound, Ok, Created or NoContent.
  - Every lookup matches both the id and the caller's user id, so another user's parcel answers NotFound.
  - The invariant `Valid` says each stored parcel is filed under its own id, has a non-empty owner, and holds a closed ring of at least four points.
- `scenarios.dfy` (module `Scenarios`) holds three clients of the store. They show that the endpoint contracts are enough to conclude the following:
  - a four-point parcel is stored as a five-point ring and reads back as the four points;
  - a three-point request stores nothing;
  - another user's update and delete answer NotFound and leave the parcel untouched.

The caller's identity is the value of the NameIdentifier claim, an `Option<string>`. When it is missing or empty, every endpoint answers Unauthorized and touches nothing.

The clock is a parameter `now`. Coordinate values are `real`s, because the endpoints only copy and compare them.

Where the design intent and the code differ, the model follows the code:

- The code checks only that a request carries at least four points. It does not require four distinct vertices. When the comparison of first and last point is read as value equality, a four-point list that is already closed is stored as a four-point ring.
- The round trip is exact only when the submitted first and last points differ (`RoundTrip`).
- Under that value-equality reading, when the client sends a list that is already closed, the ring closer adds nothing. The opener then drops the client's own last point. The create and update responses echo the request's points unchanged, so a later read of that parcel returns one point fewer than the write response did (`ClosedInputReadsBackShorter`).

## Model

| member | source | states |
|---|---|---|
| `Rings.Project` | WorldMapLeaflet/Program.cs:260 | the write path's projection keeps the number and order of points, and each stored point has X = the wire longitude and Y = the wire latitude |
| `Rings.Unproject` | WorldMapLeaflet/Program.cs:223-226 | the read path's projection keeps the number and order of points, and each wire point has latitude = Y and longitude = X |
| `Rings.ProjectionsAreInverse` | WorldMapLeaflet/Program.cs:223-226 | the wire-to-storage swap and the storage-to-wire swap undo each other, in both directions |
| `Rings.ClosedRing` | WorldMapLeaflet/Program.cs:259-262 | the closed ring begins with the projected client points in order and ends where it starts; it has n points exactly when the client's first and last points are equal, and otherwise n + 1 |
| `Rings.HasEnoughPoints` | WorldMapLeaflet/Program.cs:256-257 | the point-count check fails only for lists of fewer than four points; a list that passes is non-empty and always closes into a ring of at least four points whose first and last points are equal, which is what a polygon's exterior ring must be |
| `Rings.CloseRing` | WorldMapLeaflet/Program.cs:346-348 | projecting the list and then appending the first point when first and last differ produces exactly `ClosedRing` of the request's points |
| `Rings.OpenedRing` | WorldMapLeaflet/Program.cs:219-233 | no geometry gives an empty list; otherwise the result is a prefix of the ring in wire order, one point shorter exactly when the ring is closed and whole otherwise |
| `Rings.OpenRing` | WorldMapLeaflet/Program.cs:304-317 | the copying loop followed by the conditional removal of the last point yields exactly `OpenedRing` of the geometry |
| `Rings.RoundTrip` | WorldMapLeaflet/Program.cs:260-262 | opening the ring stored for a point list whose first and last points differ gives back exactly that list |
| `Rings.ClosedInputReadsBackShorter` | WorldMapLeaflet/Program.cs:346-348 | for a point list whose first and last points are already equal, opening the stored ring gives the list without its last point |
| `ParcelEndpoints.Authenticated` | WorldMapLeaflet/Program.cs:208-210 | the caller id is usable exactly when the claim is neither missing nor the empty string, the two cases `string.IsNullOrEmpty` rejects |
| `ParcelEndpoints.ResponseOf` | WorldMapLeaflet/Program.cs:319-327 | a stored parcel's response copies its id, name, description and both timestamps, and its points are a prefix of the stored ring in wire order, one point shorter than a valid stored ring, so the closing point never reaches the client |
| `ParcelEndpoints.RowFilterIsLookup` | WorldMapLeaflet/Program.cs:337-338 | in a table whose rows are filed under their own ids, looking up the id and checking the owner agrees with filtering rows on `Id == id && UserId == userId`, in both directions |
| `ParcelEndpoints.ParcelStore.Owns` | WorldMapLeaflet/Program.cs:298-299 | in a valid store, the caller owns the id exactly when some stored row matches both the id and the caller's user id |
| `ParcelEndpoints.ParcelStore.constructor` | WorldMapLeaflet/Data/AppDbContext.cs:10 | a new store holds no parcels and satisfies the store invariant |
| `ParcelEndpoints.ParcelStore.List` | WorldMapLeaflet/Program.cs:206-247 | Unauthorized without a caller id; otherwise Ok with every parcel the caller owns, each exactly once, each with its points read back by the ring opener, and no one else's parcel |
| `ParcelEndpoints.ParcelStore.Create` | WorldMapLeaflet/Program.cs:250-289 | Unauthorized without a caller id and BadRequest with the fixed message below four points, both leaving the store unchanged; otherwise the parcel is added under a fresh id, owned by the caller, with the closed ring and equal creation and update times, and the Created response echoes the request's points |
| `ParcelEndpoints.ParcelStore.Get` | WorldMapLeaflet/Program.cs:292-328 | Unauthorized without a caller id; NotFound unless the id exists and belongs to the caller; otherwise Ok with that parcel's response, its points read back by the ring opener |
| `ParcelEndpoints.ParcelStore.Update` | WorldMapLeaflet/Program.cs:331-371 | Unauthorized, then NotFound for a parcel the caller does not own, then BadRequest below four points, each leaving the store unchanged; otherwise only that parcel changes: new name, description, closed ring and update time, same id, owner and creation time, and the response echoes the request's points |
| `ParcelEndpoints.ParcelStore.Delete` | WorldMapLeaflet/Program.cs:374-390 | Unauthorized without a caller id; NotFound, with the store unchanged, for a parcel the caller does not own; otherwise NoContent and exactly that parcel is removed |

## Left out

- Registration, login, the current-user endpoint, JWT issuing and validation, the Identity password options and CORS (`WorldMapLeaflet/Program.cs:24-71`, `104-126`, `151-203`). These are framework configuration and cryptography. The model keeps only the claim they produce, as the caller id.
- The Nominatim geocode proxy (`WorldMapLeaflet/Program.cs:99-101`, `129-148`). It is outbound HTTP with a timeout.
- Database bootstrap with `EnsureCreated` (`WorldMapLeaflet/Program.cs:76-90` and `temp_check_db.cs`), and the EF Core mapping and cascade delete in `WorldMapLeaflet/Data/AppDbContext.cs`. The table is an in-memory map. A new id comes from a counter starting at 1, standing in for the database's generated key. Persistence faults are not modelled.
- NetTopologySuite's `GeometryFactory`, `PrecisionModel`, SRID 4326 and `CreatePolygon`. That library is not part of this model. The stored geometry is just the ring's point sequence. `HasEnoughPoints` shows that every ring handed to `CreatePolygon` is closed and has at least four points.
- The write path's `coords[0] != coords[^1]` compares NetTopologySuite `Coordinate` objects. It is modelled as value equality on both components. Under a reference-equality reading the first point would always be appended and the stored ring would have n + 1 points. `RoundTrip` still holds under that reading, but `ClosedInputReadsBackShorter`, and the four-point ring stored for an already-closed four-point list, do not: such a list would read back whole.
- IEEE double behaviour (NaN is unequal to itself, and -0.0 equals 0.0). Coordinates are `real`, so point equality is equality of both components.
- Range and self-intersection checks on coordinates. The endpoints do not perform them.
- Asynchronous execution and concurrent requests. Each endpoint is a sequential method.
- `ParcelEndpoints.ParcelStore.Create`: the model uses one clock reading `now` for both CreatedAt and UpdatedAt. The property initialisers in `WorldMapLeaflet/Models/Parcel.cs:13-14` read `DateTime.UtcNow` twice, so the two values may differ by a tick.
- `ParcelEndpoints.ParcelStore.Create`: the Location header of the Created reply (`/api/parcels/{id}`) is not modelled. The reply carries only the response body.
- `ParcelEndpoints.ParcelStore.List`: the endpoint returns parcels in the order the database yields them. The model promises no order, only that each of the caller's parcels appears exactly once.
- A request whose `Coordinates` list is null. The request model always carries a list.
