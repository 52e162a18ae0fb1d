# Zone store of the zoneaoi API, in Dafny

The zoneaoi API is an Express service that serves geofencing "zones":
polygons with tags, buildings, routes, a crossing count and a random risk
level. It keeps every zone in one module-level array, `zones`. At startup
that array is filled from a JSON file, and each record gets a fresh risk.
The GET, POST, PUT and DELETE handlers read the array and change it in
place. The handlers never write the array back to disk.

This project models that store and its handlers.

- `decimal.dfy` (module `Decimal`) renders non-negative integers in decimal,
  as a template literal renders them. It also reads them back, so the
  rendering is proved injective.
- `json.dfy` (module `Json`) models JavaScript values and the few rules the
  handlers rely on: truthiness, `||`, property reads (including `?.`) and
  object spread.
- `zones.dfy` (module `Zones`) holds the pure parts of the service:
  - `getRandomRisk`, with `Math.random()` taken as a draw in [0, 1);
  - the load step, taking the parsed document and giving the initial store;
  - the dual-key match predicate and the `findIndex` search;
  - the record that create builds and the record that update builds;
  - the replies, with their status codes.
- `store.dfy` (module `Store`) is the `zones` array as a class with a `seq`
  field. The load block is its constructor. GET, POST, PUT and DELETE are its
  methods: create appends (`push`), update assigns one index, and delete
  splices one element out.

A zone is a JavaScript object, modelled as `map<string, JsValue>`. This
gives `{...zone, risk}` and `{...zones[i], geometry: …}` the same fields and
values as in JavaScript, though not their order. Spread keeps every field of
a record, including fields the handlers never name. A
field that update reads from a record that lacks it is stored as
`undefined`, just as JavaScript does.

Inputs that come from outside the program are parameters:

- the parsed backing document, or `None` when reading or parsing failed;
- the request body, as an object;
- the path parameter `id`;
- `Date.now()`, as a natural number of milliseconds;
- each `Math.random()` value, as a `Draw`. Load takes a stream of draws,
  one per record.

## Model

| member | source | states |
|---|---|---|
| `Decimal.NatToString` | zoneaoi.js:66 | the rendering of `n` is a canonical decimal numeral (digits only, no leading zero) that reads back as `n` |
| `Decimal.NatToStringOfParse` | zoneaoi.js:66 | every canonical numeral is the rendering of the number it denotes (the other half of the round trip) |
| `Decimal.NatToStringInjective` | zoneaoi.js:66 | two numbers render alike exactly when they are equal |
| `Json.Or` | zoneaoi.js:91-96 | the `or` operator gives `a` when `a` is truthy and `b` otherwise; it is truthy iff one operand is |
| `Json.Truthy` | zoneaoi.js:58 | a value is falsy exactly when it is `undefined`, `null`, `false`, `0` or `""`; every array and object, even an empty one, is truthy |
| `Json.Prop` | zoneaoi.js:67 | for the keys the handlers read (`$oid`, `landuse`), which no built-in value carries: reading `k` of an object that has `k` gives its value; on any other value, or an object without `k`, it gives `undefined` |
| `Json.Spread` | zoneaoi.js:21-24 | `{...v}` copies an object's fields, an array's elements or a string's characters under their indices, and nothing from other values |
| `Json.Indexed` | zoneaoi.js:21-24 | the object built from a sequence has exactly the element `i` under the key `"i"`, and no other keys |
| `Zones.GetRandomRisk` | zoneaoi.js:9-15 | the chosen risk is always one of `low`, `medium`, `high` |
| `Zones.RiskBand` | zoneaoi.js:12-15 | level `k` is chosen exactly by the draws in [k/3, (k+1)/3), so each level has one third of the draws |
| `Zones.LoadZones` | zoneaoi.js:19-29 | if the document is an array, the store has one zone per record, in order, with the record's fields, and a risk among the levels from that record's draw; if reading or parsing failed, or the document is not an array, the store is empty |
| `Zones.Rerate` | zoneaoi.js:21-24 | `{...src, risk}` keeps every field of `src` except `risk` and adds exactly a `risk` among the levels |
| `Zones.LoadKeepsRecords` | zoneaoi.js:19-25 | loading a document of object records keeps the count and every field but `risk` of each record |
| `Zones.Matches` | zoneaoi.js:45-47 | the lookup predicate shared by GET, PUT and DELETE: `_id` is truthy and its `$oid` equals the key, or `zoneId` equals the key |
| `Zones.MatchesDualKey` | zoneaoi.js:45-47 | a zone answers to `id` exactly when its `_id` is an object whose `$oid` is `id`, or its `zoneId` is `id` |
| `Zones.FindIndex` | zoneaoi.js:81-84 | the result is -1 exactly when no zone matches; otherwise it is the index of a matching zone, and no earlier zone matches |
| `Zones.FindIndexByPattern` | zoneaoi.js:81-83 | two stores whose positions match the same key alike give that key the same index |
| `Zones.FindIndexAfterAppend` | zoneaoi.js:74 | after a push, every key that matched before finds the same index; a key that matched nothing finds the new zone iff the new zone matches it, and otherwise still finds nothing |
| `Zones.CreatedZoneLookup` | zoneaoi.js:62-74 | a lookup by a just-created zone's `zoneId` finds that zone exactly when no older zone answers to that key |
| `Zones.FindIndexAfterRemoval` | zoneaoi.js:105-112 | after the first match at `i` is spliced out, the key finds the next match after `i`, now one place earlier, or nothing; so DELETE then GET gives 404 iff no later zone matches |
| `Zones.ValidGeometry` | zoneaoi.js:58 | create accepts a geometry exactly when it is an array of at least 3 elements; the elements are not inspected |
| `Zones.Landuse` | zoneaoi.js:67 | the new `landuse` is the request's `tags.landuse` when it is truthy, and `'unknown'` otherwise |
| `Zones.NewZone` | zoneaoi.js:62-72 | the created record has exactly the nine fields. `_id.$oid` is `zoneId_<now>`. `zoneId` is `ZONE<count+1>`. `geometry` is the request's. The risk is one of the levels. `tags` holds only `landuse`. `bounding_box`, `buildings` and `routes` are the request's when truthy, else `[]`. `cross_walks` is the request's when truthy, else 0. The risk is the level of the draw `u` |
| `Zones.NewZoneNumber` | zoneaoi.js:66 | a new `zoneId` is `ZONE` followed by a canonical numeral whose value is the store size before the push plus one |
| `Zones.ZoneIdRepeatsAfterDelete` | zoneaoi.js:66 | in any store whose last zone was pushed by create, deleting an earlier zone makes the next create reuse the last zone's `zoneId`, and a lookup by that key then finds the older zone, not the new one |
| `Zones.UpdatedZone` | zoneaoi.js:89-98 | the updated record has the old fields plus the seven written ones. Fields other than those seven keep their old values, including `_id` and `zoneId`. `geometry`, `tags`, `bounding_box`, `buildings` and `routes` take the request value when it is truthy, else the old value. `cross_walks` takes the request value whenever it is defined. The risk is always re-drawn: it is the level of the draw `u`, whatever the old risk was |
| `Zones.Overrides` | zoneaoi.js:90-97 | the object literal of the update writes exactly the seven fields, with the merge rules above, and a `risk` that is the level of the draw `u` |
| `Zones.UpdateCrossWalksZero` | zoneaoi.js:95 | an update whose body is only `{cross_walks: 0}` sets `cross_walks` to 0; every other field except `risk` reads as before |
| `Zones.UpdateDoesNotCheckGeometry` | zoneaoi.js:91 | an update stores an empty geometry array; the update never checks the point count |
| `Zones.CrossWalksCreateVersusUpdate` | zoneaoi.js:70-95 | a `null` `cross_walks` becomes 0 in a created zone but is stored as `null` by an update |
| `Zones.UpdateKeepsKeys` | zoneaoi.js:89-90 | an updated zone answers to exactly the keys the zone answered to before |
| `Zones.UpdatePreservesLookup` | zoneaoi.js:89-98 | after an update, every key finds the same index as before |
| `Zones.Status` | zoneaoi.js:76 | a create reply is sent with 201, an invalid geometry with 400, a lookup miss with 404, and the other replies with 200 |
| `Store.ZoneStore.Load` | zoneaoi.js:17-29 | the initial store is the load of the parsed document, and every zone has a risk among the levels |
| `Store.ZoneStore.List` | zoneaoi.js:37-40 | GET /zones returns the whole store, as it is |
| `Store.ZoneStore.GetById` | zoneaoi.js:43-52 | the reply is 404 exactly when no zone answers to `id`; otherwise it is the zone at the first matching index |
| `Store.ZoneStore.Create` | zoneaoi.js:55-77 | the reply is a creation exactly when the geometry is an array of at least 3 elements. Otherwise the reply is 400 with the geometry message and the store is unchanged. On success the new record is pushed after the unchanged old zones. Every zone keeps a risk among the levels |
| `Store.ZoneStore.Update` | zoneaoi.js:80-101 | an unknown id gives 404 and leaves the store unchanged. Otherwise only the first match's index is replaced, by the merged record; the length and every other index stay the same, and the reply carries the new record |
| `Store.ZoneStore.Delete` | zoneaoi.js:104-115 | an unknown id gives 404 and leaves the store unchanged. Otherwise the first match is returned and the store becomes `old[..i] + old[i+1..]`: one shorter, with the others in order |

## Left out

- Express routing, middleware, the `/` banner route, `res.status`/`res.json`
  and `module.exports` (zoneaoi.js:1-6, 31-34, 118) are HTTP plumbing. Replies
  are the `Reply` datatype, and `Status` gives their codes.
- `fs.readFileSync` and `JSON.parse` (zoneaoi.js:20-21) are file I/O and a
  foreign parser. Load takes their outcome as `Option<JsValue>`.
- `Math.random()` (zoneaoi.js:13) is a `Draw`, a real in [0, 1). Floating-point
  rounding of `u * 3` is not modelled.
- `Date.now()` (zoneaoi.js:63) is a parameter. Decimal rendering is modelled
  for whole numbers only, which covers timestamps, lengths and indices below
  1e21.
- Logging with `console.log` and `console.error` is left out; it has no effect
  on the store.
- Requests are atomic steps. The source has no synchronisation, so
  interleavings of concurrent requests are not modelled.
- The request body is taken to be an object. A missing body, which would make
  the destructuring throw under some Express versions, is not modelled.
- `Json.Spread`: a string element of the loaded document is spread by Unicode
  characters. JavaScript spreads it by UTF-16 code units, so the two differ
  for characters outside the Basic Multilingual Plane.
- `JsValue` numbers are exact reals, with no NaN or infinity. A numeric
  literal too large for a double, which `JSON.parse` reads as `Infinity`, is
  kept at its exact value. No handler computes with a number, so no reply
  changes.
- Property order is not modelled: objects are maps. The order of fields in
  the JSON that `res.json` sends is therefore not captured.
- Store-wide guarantees that the source does not give are not claimed.
  `zoneId` is not unique (`Zones.ZoneIdRepeatsAfterDelete` shows how it
  repeats). Geometry is not re-checked after an update or a load.
