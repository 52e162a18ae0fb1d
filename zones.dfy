/** The zone records of the service and the pure parts of its handlers: the
    random risk level, the load of the backing document, the dual-key match,
    the search for the first matching zone, and the records built by create
    and by update. */
module Zones {
  import opened Decimal
  import opened Json

  // ---------------------------------------------------------------------
  // Risk levels

  const RiskLevels: seq<string> := ["low", "medium", "high"]

  /** One value of `Math.random()`: a number in [0, 1). */
  type Draw = u: real | 0.0 <= u < 1.0

  /** `getRandomRisk`: the level at index floor(u * 3) for the draw `u`. */
  function GetRandomRisk(u: Draw): (r: string)
    ensures r in RiskLevels
  {
    var k := (u * |RiskLevels| as real).Floor;
    assert 0 <= k < |RiskLevels|;
    RiskLevels[k]
  }

  /** Each level is chosen by exactly one third of the draws: level `k` by
      the draws in [k/3, (k+1)/3). */
  lemma RiskBand(u: Draw, k: nat)
    requires k < |RiskLevels|
    ensures GetRandomRisk(u) == RiskLevels[k] <==> k as real / 3.0 <= u < (k + 1) as real / 3.0
  {
  }

  /** A zone carries a risk that is one of the levels. */
  predicate Rated(z: JsObject) {
    "risk" in z && z["risk"].Str? && z["risk"].text in RiskLevels
  }

  predicate AllRated(zones: seq<JsObject>) {
    forall i :: 0 <= i < |zones| ==> Rated(zones[i])
  }

  /** `z` is `{...src, risk: ...}`: the fields of `src`, with `risk` set to
      one of the levels. */
  predicate Rerated(z: JsObject, src: JsObject) {
    && Rated(z)
    && z.Keys == src.Keys + {"risk"}
    && (forall k :: k in src && k != "risk" ==> z[k] == src[k])
  }

  // ---------------------------------------------------------------------
  // Load

  /** The store at startup. `parsed` is the parsed backing document, or
      `None` when it could not be read or parsed; `draws(i)` is the value of
      `Math.random()` used for the `i`-th record. An array becomes the copies
      of its elements with a fresh risk each; anything else makes `.map`
      throw, and every failure leaves the store empty. */
  function LoadZones(parsed: Option<JsValue>, draws: nat -> Draw): (zones: seq<JsObject>)
    ensures AllRated(zones)
    ensures !(parsed.Some? && parsed.value.Arr?) ==> zones == []
    ensures parsed.Some? && parsed.value.Arr? ==>
      && |zones| == |parsed.value.items|
      && forall i :: 0 <= i < |zones| ==>
           && Rerated(zones[i], Spread(parsed.value.items[i]))
           && zones[i]["risk"] == Str(GetRandomRisk(draws(i)))
  {
    match parsed
    case Some(Arr(items)) =>
      var zones := seq(|items|, i requires 0 <= i < |items| => Rerate(Spread(items[i]), draws(i)));
      assert forall i :: 0 <= i < |zones| ==> zones[i] == Rerate(Spread(items[i]), draws(i));
      zones
    case _ => []
  }

  /** `{...src, risk: getRandomRisk()}` with the draw `u`. */
  function Rerate(src: JsObject, u: Draw): (z: JsObject)
    ensures Rerated(z, src)
    ensures z["risk"] == Str(GetRandomRisk(u))
  {
    src["risk" := Str(GetRandomRisk(u))]
  }

  /** Loading a document whose records are all objects keeps every field of
      every record except `risk`, in order. */
  lemma LoadKeepsRecords(records: seq<JsObject>, draws: nat -> Draw)
    ensures var zones := LoadZones(Some(Arr(seq(|records|, i requires 0 <= i < |records| => Obj(records[i])))), draws);
      && |zones| == |records|
      && forall i :: 0 <= i < |records| ==> Rerated(zones[i], records[i])
  {
  }

  // ---------------------------------------------------------------------
  // Lookup

  /** The handlers' lookup predicate: `_id.$oid` equals the key (when `_id`
      is truthy), or `zoneId` equals it. */
  predicate Matches(z: JsObject, id: string) {
    (Truthy(Get(z, "_id")) && Prop(Get(z, "_id"), "$oid") == Str(id))
    || Get(z, "zoneId") == Str(id)
  }

  /** Either key form is accepted, and nothing else is. */
  lemma MatchesDualKey(z: JsObject, id: string)
    ensures Matches(z, id) <==>
      || ("_id" in z && z["_id"].Obj? && "$oid" in z["_id"].fields && z["_id"].fields["$oid"] == Str(id))
      || ("zoneId" in z && z["zoneId"] == Str(id))
  {
  }

  /** `zones.findIndex(z => Matches(z, id))`: the index of the first
      matching zone, or -1 when none matches. */
  function FindIndex(zones: seq<JsObject>, id: string): (i: int)
    ensures -1 <= i < |zones|
    ensures i == -1 <==> forall k :: 0 <= k < |zones| ==> !Matches(zones[k], id)
    ensures 0 <= i ==> Matches(zones[i], id) && forall k :: 0 <= k < i ==> !Matches(zones[k], id)
    decreases |zones|
  {
    if zones == [] then -1
    else if Matches(zones[0], id) then 0
    else
      var j := FindIndex(zones[1..], id);
      if j == -1 then -1 else j + 1
  }

  /** The search depends only on which positions match. */
  lemma FindIndexByPattern(a: seq<JsObject>, b: seq<JsObject>, id: string)
    requires |a| == |b|
    requires forall k :: 0 <= k < |a| ==> (Matches(a[k], id) <==> Matches(b[k], id))
    ensures FindIndex(a, id) == FindIndex(b, id)
  {
  }

  /** Appending a zone changes no earlier answer; a key that matched nothing
      now finds the new zone exactly when the new zone matches it. */
  lemma FindIndexAfterAppend(zones: seq<JsObject>, z: JsObject, id: string)
    ensures FindIndex(zones + [z], id) ==
      if FindIndex(zones, id) >= 0 then FindIndex(zones, id)
      else if Matches(z, id) then |zones|
      else -1
  {
    var s := zones + [z];
    var i := FindIndex(zones, id);
    if i >= 0 {
      assert s[i] == zones[i];
      assert forall k :: 0 <= k < i ==> s[k] == zones[k];
    } else {
      assert forall k :: 0 <= k < |zones| ==> s[k] == zones[k];
      assert s[|zones|] == z;
    }
  }

  /** After the first match at `i` is removed, the key finds the next match
      after `i`, which now sits one place earlier, or nothing. */
  lemma FindIndexAfterRemoval(zones: seq<JsObject>, id: string)
    requires FindIndex(zones, id) >= 0
    ensures var i := FindIndex(zones, id);
      var j := FindIndex(zones[i + 1..], id);
      FindIndex(zones[..i] + zones[i + 1..], id) == if j == -1 then -1 else i + j
  {
    var i := FindIndex(zones, id);
    var rest := zones[i + 1..];
    var j := FindIndex(rest, id);
    var s := zones[..i] + rest;
    assert forall k :: 0 <= k < i ==> s[k] == zones[k];
    var end := if j == -1 then |s| else i + j;
    forall k | i <= k < end
      ensures !Matches(s[k], id)
    {
      assert s[k] == rest[k - i];
    }
    if j != -1 {
      assert s[i + j] == rest[j];
    }
  }

  // ---------------------------------------------------------------------
  // Create

  /** What create accepts: `geometry` is present, is an array, and has at
      least 3 elements (the elements themselves are not inspected). */
  predicate ValidGeometry(g: JsValue)
    ensures ValidGeometry(g) <==> g.Arr? && |g.items| >= 3
  {
    Truthy(g) && g.Arr? && |g.items| >= 3
  }

  /** `tags?.landuse || 'unknown'`. */
  function Landuse(tags: JsValue): (l: JsValue)
    ensures Truthy(l)
    ensures tags.Obj? && "landuse" in tags.fields && Truthy(tags.fields["landuse"]) ==> l == tags.fields["landuse"]
    ensures !(tags.Obj? && "landuse" in tags.fields && Truthy(tags.fields["landuse"])) ==> l == Str("unknown")
  {
    Or(Prop(tags, "landuse"), Str("unknown"))
  }

  const CreatedKeys: set<string> :=
    {"_id", "geometry", "risk", "zoneId", "tags", "bounding_box", "buildings", "cross_walks", "routes"}

  /** The record create appends for `body` when the store holds `count`
      zones, at time `now` (milliseconds) and with the draw `u`. */
  function NewZone(body: JsObject, count: nat, now: nat, u: Draw): (z: JsObject)
    ensures z.Keys == CreatedKeys
    ensures Rated(z) && z["risk"] == Str(GetRandomRisk(u))
    ensures z["_id"] == Obj(map["$oid" := Str("zoneId_" + NatToString(now))])
    ensures z["zoneId"] == Str("ZONE" + NatToString(count + 1))
    ensures z["geometry"] == Get(body, "geometry")
    ensures z["tags"] == Obj(map["landuse" := Landuse(Get(body, "tags"))])
    ensures forall k :: k in {"bounding_box", "buildings", "routes"} ==>
      z[k] == (if Truthy(Get(body, k)) then Get(body, k) else Arr([]))
    ensures z["cross_walks"] == (if Truthy(Get(body, "cross_walks")) then Get(body, "cross_walks") else Num(0.0))
  {
    map[
      "_id" := Obj(map["$oid" := Str("zoneId_" + NatToString(now))]),
      "geometry" := Get(body, "geometry"),
      "risk" := Str(GetRandomRisk(u)),
      "zoneId" := Str("ZONE" + NatToString(count + 1)),
      "tags" := Obj(map["landuse" := Landuse(Get(body, "tags"))]),
      "bounding_box" := Or(Get(body, "bounding_box"), Arr([])),
      "buildings" := Or(Get(body, "buildings"), Arr([])),
      "cross_walks" := Or(Get(body, "cross_walks"), Num(0.0)),
      "routes" := Or(Get(body, "routes"), Arr([]))
    ]
  }

  /** The number in a created zone's `zoneId` is the store's size before the
      append plus one. */
  lemma NewZoneNumber(body: JsObject, count: nat, now: nat, u: Draw)
    ensures var id := NewZone(body, count, now, u)["zoneId"].text;
      && |id| > 4 && id[..4] == "ZONE"
      && IsNumeral(id[4..]) && ParseDecimal(id[4..]) == count + 1
  {
  }

  /** Looking up a just-created zone by its `zoneId` finds it exactly when no
      zone already in the store answers to that key. */
  lemma {:induction false} CreatedZoneLookup(zones: seq<JsObject>, body: JsObject, now: nat, u: Draw)
    ensures var z := NewZone(body, |zones|, now, u);
      var id := z["zoneId"].text;
      FindIndex(zones + [z], id) == |zones| <==> FindIndex(zones, id) == -1
  {
    var z := NewZone(body, |zones|, now, u);
    var id := z["zoneId"].text;
    assert Matches(z, id);
    FindIndexAfterAppend(zones, z, id);
  }

  /** The generated key is not unique. Take any store whose last zone was
      created by a push, and delete a zone that is not that one. The next
      create then reuses the last zone's `zoneId`, and a lookup by that key
      finds the older zone, not the new one. */
  lemma {:induction false} ZoneIdRepeatsAfterDelete(
    zones: seq<JsObject>, key: string, lastBody: JsObject, lastNow: nat, lastDraw: Draw,
    body: JsObject, now: nat, u: Draw)
    requires |zones| >= 1 && zones[|zones| - 1] == NewZone(lastBody, |zones| - 1, lastNow, lastDraw)
    requires 0 <= FindIndex(zones, key) < |zones| - 1
    ensures var i := FindIndex(zones, key);
      var after := zones[..i] + zones[i + 1..];
      var z := NewZone(body, |after|, now, u);
      && z["zoneId"] == zones[|zones| - 1]["zoneId"]
      && 0 <= FindIndex(after + [z], z["zoneId"].text) < |after|
  {
    var i := FindIndex(zones, key);
    var after := zones[..i] + zones[i + 1..];
    var z := NewZone(body, |after|, now, u);
    var last := zones[|zones| - 1];
    assert |after| == |zones| - 1;
    assert z["zoneId"] == Str("ZONE" + NatToString(|zones|)) == last["zoneId"];
    var id := z["zoneId"].text;
    assert after[|after| - 1] == last;
    assert Get(last, "zoneId") == Str(id);
    FindIndexAfterAppend(after, z, id);
  }

  // ---------------------------------------------------------------------
  // Update

  /** The fields update replaces when the request value is truthy. */
  const TruthyMerged: set<string> := {"geometry", "tags", "bounding_box", "buildings", "routes"}

  /** Every field update writes. */
  const UpdatedKeys: set<string> := TruthyMerged + {"cross_walks", "risk"}

  /** The record update stores: `{...z, <the six request fields>, risk}`,
      where `cross_walks` is taken whenever it is defined, the other five only
      when truthy, and a field read from `z` that it lacks is `undefined`. */
  function UpdatedZone(z: JsObject, body: JsObject, u: Draw): (r: JsObject)
    ensures r.Keys == z.Keys + UpdatedKeys
    ensures Rated(r) && r["risk"] == Str(GetRandomRisk(u))
    ensures forall k :: k in z && k !in UpdatedKeys ==> r[k] == z[k]
    ensures forall k :: k in TruthyMerged && Truthy(Get(body, k)) ==> r[k] == Get(body, k)
    ensures forall k :: k in TruthyMerged && !Truthy(Get(body, k)) ==> r[k] == Get(z, k)
    ensures Get(body, "cross_walks") != Undefined ==> r["cross_walks"] == Get(body, "cross_walks")
    ensures Get(body, "cross_walks") == Undefined ==> r["cross_walks"] == Get(z, "cross_walks")
  {
    z + Overrides(z, body, u)
  }

  /** The object literal of the update handler, without the spread. */
  function Overrides(z: JsObject, body: JsObject, u: Draw): (o: JsObject)
    ensures o.Keys == UpdatedKeys
    ensures "risk" in o && o["risk"] == Str(GetRandomRisk(u)) && o["risk"].text in RiskLevels
    ensures forall k :: k in TruthyMerged && Truthy(Get(body, k)) ==> o[k] == Get(body, k)
    ensures forall k :: k in TruthyMerged && !Truthy(Get(body, k)) ==> o[k] == Get(z, k)
    ensures Get(body, "cross_walks") != Undefined ==> o["cross_walks"] == Get(body, "cross_walks")
    ensures Get(body, "cross_walks") == Undefined ==> o["cross_walks"] == Get(z, "cross_walks")
  {
    var crossWalks := Get(body, "cross_walks");
    map[
      "geometry" := Or(Get(body, "geometry"), Get(z, "geometry")),
      "tags" := Or(Get(body, "tags"), Get(z, "tags")),
      "bounding_box" := Or(Get(body, "bounding_box"), Get(z, "bounding_box")),
      "buildings" := Or(Get(body, "buildings"), Get(z, "buildings")),
      "cross_walks" := if crossWalks != Undefined then crossWalks else Get(z, "cross_walks"),
      "routes" := Or(Get(body, "routes"), Get(z, "routes")),
      "risk" := Str(GetRandomRisk(u))
    ]
  }

  /** A body of only `{cross_walks: 0}` sets `cross_walks` to 0 and leaves
      every other field but `risk` as it reads. */
  lemma UpdateCrossWalksZero(z: JsObject, u: Draw)
    ensures var r := UpdatedZone(z, map["cross_walks" := Num(0.0)], u);
      && r["cross_walks"] == Num(0.0)
      && forall k :: k != "cross_walks" && k != "risk" ==> Get(r, k) == Get(z, k)
  {
  }

  /** Update does not validate the geometry it stores: an empty array is
      truthy and replaces the old one. */
  lemma UpdateDoesNotCheckGeometry(z: JsObject, u: Draw)
    ensures UpdatedZone(z, map["geometry" := Arr([])], u)["geometry"] == Arr([])
  {
  }

  /** `cross_walks` is defaulted by truthiness on create but taken whenever
      defined on update: a `null` becomes 0 in a new zone and is stored as
      `null` by an update. */
  lemma CrossWalksCreateVersusUpdate(z: JsObject, count: nat, now: nat, u: Draw)
    ensures var body := map["cross_walks" := Null];
      && NewZone(body, count, now, u)["cross_walks"] == Num(0.0)
      && UpdatedZone(z, body, u)["cross_walks"] == Null
  {
  }

  /** Update keeps `_id` and `zoneId`, so the updated record answers to
      exactly the keys it answered to before. */
  lemma UpdateKeepsKeys(z: JsObject, body: JsObject, u: Draw, id: string)
    ensures Matches(UpdatedZone(z, body, u), id) <==> Matches(z, id)
  {
    var r := UpdatedZone(z, body, u);
    assert Get(r, "_id") == Get(z, "_id");
    assert Get(r, "zoneId") == Get(z, "zoneId");
  }

  /** Every lookup gives the same index after an update as before it. */
  lemma UpdatePreservesLookup(zones: seq<JsObject>, i: nat, body: JsObject, u: Draw, id: string)
    requires i < |zones|
    ensures FindIndex(zones[i := UpdatedZone(zones[i], body, u)], id) == FindIndex(zones, id)
  {
    var s := zones[i := UpdatedZone(zones[i], body, u)];
    UpdateKeepsKeys(zones[i], body, u, id);
    FindIndexByPattern(s, zones, id);
  }

  // ---------------------------------------------------------------------
  // Replies

  const NotFoundError := "Zone non trouvée"
  const GeometryError := "Geometry doit être un tableau de coordonnées avec au moins 3 points"
  const CreatedMessage := "Zone ajoutée (temporaire, non sauvegardée)"
  const UpdatedMessage := "Zone mise à jour (temporaire, non sauvegardée)"
  const DeletedMessage := "Zone supprimée (temporaire, non sauvegardée)"

  /** What a handler answers: the JSON body it sends, by kind. */
  datatype Reply =
    | Found(zone: JsObject)
    | Created(message: string, zone: JsObject)
    | Updated(message: string, zone: JsObject)
    | Deleted(message: string, zone: JsObject)
    | BadRequest(error: string)
    | NotFound(error: string)

  /** The HTTP status sent with each kind of reply. */
  function Status(r: Reply): (code: int)
    ensures code == 201 <==> r.Created?
    ensures code == 400 <==> r.BadRequest?
    ensures code == 404 <==> r.NotFound?
    ensures code == 200 <==> r.Found? || r.Updated? || r.Deleted?
  {
    match r
    case Found(_) => 200
    case Created(_, _) => 201
    case Updated(_, _) => 200
    case Deleted(_, _) => 200
    case BadRequest(_) => 400
    case NotFound(_) => 404
  }
}
