/** The service's module-level `zones` array and the handlers that read and
    change it, each request taken as one atomic step. */
module Store {
  import opened Json
  import opened Zones

  class ZoneStore {
    /** The zones, in load and insertion order. */
    var zones: seq<JsObject>

    /** Every zone carries a risk among the levels: load sets one on every
        record, create and update on the record they write. */
    ghost predicate Valid()
      reads this
    {
      AllRated(zones)
    }

    /** The load block: the records of the parsed backing document with a
        fresh risk each, or no zones when reading or parsing failed. */
    constructor Load(parsed: Option<JsValue>, draws: nat -> Draw)
      ensures zones == LoadZones(parsed, draws)
      ensures Valid()
    {
      zones := LoadZones(parsed, draws);
    }

    /** GET /zones: the whole store, as it is. */
    method List() returns (all: seq<JsObject>)
      ensures all == zones
    {
      all := zones;
    }

    /** GET /zones/:id: the first zone that answers to `id`. */
    method GetById(id: string) returns (r: Reply)
      ensures r.Found? || r == NotFound(NotFoundError)
      ensures r.NotFound? <==> forall k :: 0 <= k < |zones| ==> !Matches(zones[k], id)
      ensures r.Found? ==> FindIndex(zones, id) >= 0 && r.zone == zones[FindIndex(zones, id)]
    {
      var i := FindIndex(zones, id);
      if i == -1 {
        return NotFound(NotFoundError);
      }
      r := Found(zones[i]);
    }

    /** POST /zones: append a new zone built from `body`, or refuse a body
        whose geometry is not an array of at least 3 points. */
    method Create(body: JsObject, now: nat, u: Draw) returns (r: Reply)
      modifies this
      ensures r.Created? <==> ValidGeometry(Get(body, "geometry"))
      ensures !r.Created? ==> r == BadRequest(GeometryError) && zones == old(zones)
      ensures r.Created? ==>
        && r == Created(CreatedMessage, NewZone(body, |old(zones)|, now, u))
        && zones == old(zones) + [r.zone]
      ensures old(Valid()) ==> Valid()
    {
      var geometry := Get(body, "geometry");
      if !ValidGeometry(geometry) {
        return BadRequest(GeometryError);
      }
      var newZone := NewZone(body, |zones|, now, u);
      zones := zones + [newZone];
      r := Created(CreatedMessage, newZone);
    }

    /** PUT /zones/:id: merge `body` into the first zone that answers to
        `id`, in its place. */
    method Update(id: string, body: JsObject, u: Draw) returns (r: Reply)
      modifies this
      ensures var i := FindIndex(old(zones), id);
        if i == -1 then
          r == NotFound(NotFoundError) && zones == old(zones)
        else
          && zones == old(zones)[i := UpdatedZone(old(zones)[i], body, u)]
          && r == Updated(UpdatedMessage, zones[i])
      ensures old(Valid()) ==> Valid()
    {
      var i := FindIndex(zones, id);
      if i == -1 {
        return NotFound(NotFoundError);
      }
      zones := zones[i := UpdatedZone(zones[i], body, u)];
      r := Updated(UpdatedMessage, zones[i]);
    }

    /** DELETE /zones/:id: remove the first zone that answers to `id` and
        hand it back. */
    method Delete(id: string) returns (r: Reply)
      modifies this
      ensures var i := FindIndex(old(zones), id);
        if i == -1 then
          r == NotFound(NotFoundError) && zones == old(zones)
        else
          && r == Deleted(DeletedMessage, old(zones)[i])
          && zones == old(zones)[..i] + old(zones)[i + 1..]
      ensures old(Valid()) ==> Valid()
    {
      var i := FindIndex(zones, id);
      if i == -1 {
        return NotFound(NotFoundError);
      }
      var deleted := zones[i];
      zones := zones[..i] + zones[i + 1..];
      r := Deleted(DeletedMessage, deleted);
    }
  }
}
