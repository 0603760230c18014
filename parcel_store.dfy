/**
 * The five parcel endpoints (list, create, get, update, delete) over an
 * in-memory store of parcels keyed by id. Every endpoint first resolves the
 * caller's id; every lookup matches both the parcel id and the caller's id, so a
 * parcel owned by someone else is indistinguishable from a missing one.
 */
module ParcelEndpoints {
  import opened Models
  import opened Rings

  /** The outcome of an endpoint: the HTTP result kinds the endpoints produce. */
  datatype Reply<T> =
    | Unauthorized
    | BadRequest(message: string)
    | NotFound
    | Ok(body: T)
    | Created(body: T)
    | NoContent

  /** The message of the point-count rejection. */
  const PointCountMessage := "En az 4 koordinat noktası gerekli"

  /**
   * The caller's NameIdentifier claim resolves to a usable id: it is neither
   * missing nor the empty string.
   */
  function Authenticated(claim: Option<string>): (ok: bool)
    ensures ok <==> claim != None && claim != Some("")
  {
    claim.Some? && claim.value != ""
  }

  /**
   * The response for a stored parcel: its metadata copied as stored, its points
   * read back from the stored ring in wire order, without the closing point.
   */
  function ResponseOf(p: Parcel): (r: ParcelResponse)
    ensures r.id == p.id && r.name == p.name && r.description == p.description
    ensures r.createdAt == p.createdAt && r.updatedAt == p.updatedAt
    ensures r.coordinates <= Unproject(p.geometry)
    ensures IsLinearRing(p.geometry) ==> |r.coordinates| == |p.geometry| - 1
  {
    ParcelResponse(p.id, p.name, p.description, OpenedRing(Some(p.geometry)), p.createdAt, p.updatedAt)
  }

  /**
   * In a table whose every row is filed under its own id, looking the id up and
   * checking its owner finds the same parcel as filtering the rows on both the
   * id and the owner.
   */
  lemma RowFilterIsLookup(m: map<int, Parcel>, userId: string, id: int)
    ensures (forall k :: k in m ==> m[k].id == k) ==>
              ((id in m && m[id].userId == userId) <==>
               exists p :: p in m.Values && p.id == id && p.userId == userId)
  {
    if forall k :: k in m ==> m[k].id == k {
      if id in m && m[id].userId == userId {
        assert m[id] in m.Values;
      }
      if exists p :: p in m.Values && p.id == id && p.userId == userId {
        var p :| p in m.Values && p.id == id && p.userId == userId;
        var k :| k in m && m[k] == p;
      }
    }
  }

  /** A set of ids is empty or has a member to pick. */
  lemma EmptyOrHasMember(s: set<int>)
    ensures s == {} || exists id :: id in s
  {
    if forall id :: id !in s {
      assert s == {};
    }
  }

  /**
   * The responses built so far describe exactly the parcels whose ids are in
   * `ids`, once each; `position` records where each of them was listed.
   */
  ghost predicate ListedOnce(m: map<int, Parcel>, rs: seq<ParcelResponse>, ids: set<int>, position: map<int, nat>)
  {
    && ids <= m.Keys
    && (forall i :: 0 <= i < |rs| ==> rs[i].id in ids && rs[i] == ResponseOf(m[rs[i].id]))
    && (forall i, j :: 0 <= i < j < |rs| ==> rs[i].id != rs[j].id)
    && (forall id :: id in ids ==> id in position && position[id] < |rs| && rs[position[id]].id == id)
  }

  /** Listing one more parcel, not listed before and filed under its own id, keeps ListedOnce. */
  lemma ListedOnceExtend(m: map<int, Parcel>, rs: seq<ParcelResponse>, ids: set<int>, position: map<int, nat>, id: int)
    requires ListedOnce(m, rs, ids, position)
    requires id in m && m[id].id == id && id !in ids
    ensures ListedOnce(m, rs + [ResponseOf(m[id])], ids + {id}, position[id := |rs|])
  {
  }

  class ParcelStore {
    /** The parcels table, keyed by parcel id. */
    var parcels: map<int, Parcel>
    /** The id the store gives the next parcel it adds. */
    var nextId: int

    /**
     * Every parcel is filed under its own id, below nextId, belongs to a
     * non-empty user id and holds a valid exterior ring.
     */
    ghost predicate Valid()
      reads this
    {
      && nextId >= 1
      && forall id :: id in parcels ==>
           && 1 <= id < nextId
           && parcels[id].id == id
           && parcels[id].userId != ""
           && IsLinearRing(parcels[id].geometry)
    }

    /**
     * The parcel with this id exists and is owned by this user: in a valid
     * store, exactly when some stored row matches both the id and the user id.
     */
    function Owns(userId: string, id: int): (ok: bool)
      reads this
      ensures Valid() ==> (ok <==> exists p :: p in parcels.Values && p.id == id && p.userId == userId)
    {
      RowFilterIsLookup(parcels, userId, id);
      id in parcels && parcels[id].userId == userId
    }

    constructor ()
      ensures Valid()
      ensures parcels == map[]
    {
      parcels := map[];
      nextId := 1;
    }

    /**
     * GET /api/parcels: every parcel of the caller, in no particular order,
     * each with its points read back from its stored ring.
     */
    method List(claim: Option<string>) returns (reply: Reply<seq<ParcelResponse>>)
      requires Valid()
      ensures !Authenticated(claim) ==> reply == Unauthorized
      ensures Authenticated(claim) ==> reply.Ok?
      ensures Authenticated(claim) ==> forall i :: 0 <= i < |reply.body| ==>
                Owns(claim.value, reply.body[i].id) && reply.body[i] == ResponseOf(parcels[reply.body[i].id])
      ensures Authenticated(claim) ==> forall id :: Owns(claim.value, id) ==>
                exists i :: 0 <= i < |reply.body| && reply.body[i].id == id
      ensures Authenticated(claim) ==> forall i, j :: 0 <= i < j < |reply.body| ==>
                reply.body[i].id != reply.body[j].id
    {
      if !Authenticated(claim) {
        return Unauthorized;
      }
      var userId := claim.value;
      var pending := set id | id in parcels && parcels[id].userId == userId;
      ghost var done: set<int> := {};
      ghost var position: map<int, nat> := map[];
      var responses: seq<ParcelResponse> := [];
      while pending != {}
        invariant pending !! done
        invariant forall id :: (id in pending || id in done) == Owns(userId, id)
        invariant ListedOnce(parcels, responses, done, position)
        decreases pending
      {
        EmptyOrHasMember(pending);
        var id :| id in pending;
        var p := parcels[id];
        var coordinates := OpenRing(Some(p.geometry));
        ListedOnceExtend(parcels, responses, done, position, id);
        responses := responses + [ParcelResponse(p.id, p.name, p.description, coordinates, p.createdAt, p.updatedAt)];
        position := position[id := |responses| - 1];
        pending := pending - {id};
        done := done + {id};
      }
      forall id | Owns(userId, id)
        ensures exists i :: 0 <= i < |responses| && responses[i].id == id
      {
        assert responses[position[id]].id == id;
      }
      reply := Ok(responses);
    }

    /**
     * POST /api/parcels: a request of at least MinPoints points is stored under
     * a fresh id with its closed ring; the response echoes the request's points.
     */
    method Create(claim: Option<string>, req: CreateParcelRequest, now: Instant) returns (reply: Reply<ParcelResponse>)
      requires Valid()
      modifies this
      ensures Valid()
      ensures !Authenticated(claim) ==> reply == Unauthorized && unchanged(this)
      ensures Authenticated(claim) && !HasEnoughPoints(req.coordinates) ==>
                reply == BadRequest(PointCountMessage) && unchanged(this)
      ensures Authenticated(claim) && HasEnoughPoints(req.coordinates) ==>
                && reply.Created?
                && reply.body == ParcelResponse(reply.body.id, req.name, req.description, req.coordinates, now, now)
                && reply.body.id !in old(parcels)
                && parcels == old(parcels)[reply.body.id := Parcel(reply.body.id, claim.value, req.name,
                                                                   req.description, ClosedRing(req.coordinates), now, now)]
    {
      if !Authenticated(claim) {
        return Unauthorized;
      }
      if !HasEnoughPoints(req.coordinates) {
        return BadRequest(PointCountMessage);
      }
      var ring := CloseRing(req.coordinates);
      var id := nextId;
      parcels := parcels[id := Parcel(id, claim.value, req.name, req.description, ring, now, now)];
      nextId := nextId + 1;
      reply := Created(ParcelResponse(id, req.name, req.description, req.coordinates, now, now));
    }

    /** GET /api/parcels/{id}: the caller's parcel with this id, or NotFound. */
    method Get(claim: Option<string>, id: int) returns (reply: Reply<ParcelResponse>)
      ensures !Authenticated(claim) ==> reply == Unauthorized
      ensures Authenticated(claim) && !Owns(claim.value, id) ==> reply == NotFound
      ensures Authenticated(claim) && Owns(claim.value, id) ==> reply == Ok(ResponseOf(parcels[id]))
    {
      if !Authenticated(claim) {
        return Unauthorized;
      }
      if !(id in parcels && parcels[id].userId == claim.value) {
        return NotFound;
      }
      var p := parcels[id];
      var coordinates := OpenRing(Some(p.geometry));
      reply := Ok(ParcelResponse(p.id, p.name, p.description, coordinates, p.createdAt, p.updatedAt));
    }

    /**
     * PUT /api/parcels/{id}: ownership is checked before the point count; the
     * caller's parcel gets the new name, description and ring and the new update
     * time, and keeps its id, owner and creation time.
     */
    method Update(claim: Option<string>, id: int, req: CreateParcelRequest, now: Instant)
      returns (reply: Reply<ParcelResponse>)
      requires Valid()
      modifies this
      ensures Valid()
      ensures !Authenticated(claim) ==> reply == Unauthorized && unchanged(this)
      ensures Authenticated(claim) && !old(Owns(claim.value, id)) ==> reply == NotFound && unchanged(this)
      ensures Authenticated(claim) && old(Owns(claim.value, id)) && !HasEnoughPoints(req.coordinates) ==>
                reply == BadRequest(PointCountMessage) && unchanged(this)
      ensures Authenticated(claim) && old(Owns(claim.value, id)) && HasEnoughPoints(req.coordinates) ==>
                && nextId == old(nextId)
                && parcels.Keys == old(parcels.Keys)
                && (forall other :: other in parcels && other != id ==> parcels[other] == old(parcels[other]))
                && parcels[id].id == old(parcels[id].id)
                && parcels[id].userId == old(parcels[id].userId)
                && parcels[id].createdAt == old(parcels[id].createdAt)
                && parcels[id].name == req.name
                && parcels[id].description == req.description
                && parcels[id].geometry == ClosedRing(req.coordinates)
                && parcels[id].updatedAt == now
                && reply == Ok(ParcelResponse(id, req.name, req.description, req.coordinates,
                                              old(parcels[id].createdAt), now))
    {
      if !Authenticated(claim) {
        return Unauthorized;
      }
      if !(id in parcels && parcels[id].userId == claim.value) {
        return NotFound;
      }
      if !HasEnoughPoints(req.coordinates) {
        return BadRequest(PointCountMessage);
      }
      var ring := CloseRing(req.coordinates);
      var p := parcels[id];
      p := p.(name := req.name, description := req.description, geometry := ring, updatedAt := now);
      parcels := parcels[id := p];
      reply := Ok(ParcelResponse(p.id, p.name, p.description, req.coordinates, p.createdAt, p.updatedAt));
    }

    /** DELETE /api/parcels/{id}: removes exactly the caller's parcel with this id. */
    method Delete(claim: Option<string>, id: int) returns (reply: Reply<()>)
      requires Valid()
      modifies this
      ensures Valid()
      ensures !Authenticated(claim) ==> reply == Unauthorized && unchanged(this)
      ensures Authenticated(claim) && !old(Owns(claim.value, id)) ==> reply == NotFound && unchanged(this)
      ensures Authenticated(claim) && old(Owns(claim.value, id)) ==>
                reply == NoContent && parcels == old(parcels) - {id} && nextId == old(nextId)
    {
      if !Authenticated(claim) {
        return Unauthorized;
      }
      if !(id in parcels && parcels[id].userId == claim.value) {
        return NotFound;
      }
      parcels := parcels - {id};
      reply := NoContent;
    }
  }
}
