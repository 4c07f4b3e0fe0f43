# Chicken-coop bridge: a Dafny model

This project models the event handling of the chicken-coop controller's Node.js server
and of its browser dashboard.

- **The server** (`NodeJS/server.js`) sits between the MQTT broker, the database and the
  connected dashboards. At start-up it seeds the status table with configured defaults.
  It handles every packet published on the broker: a `coop/temperature` or
  `coop/brightness` packet appends a reading and broadcasts it; a `coop/status` packet
  carries `id|state`, upserts that row and broadcasts it. A new dashboard connection is
  sent the last 24 hours of readings (oldest first, at most 360 per channel) and every
  status row by id. A dashboard's `remoteTrigger` is relayed to `coop/remotetrigger`. The
  server also sends broker-client liveness notices and a time beacon.
- **The dashboard** (`NodeJS/public/js/app.js`) holds the item list, the current readings
  and two chart buffers. Triggering the door predicts its motion (`open` to `opening`,
  `closed` to `closing`) before the device confirms it. The message handler folds every
  server message into this state; a live reading is pushed into a buffer that sheds its
  oldest point once it passes 300.
- **The status record** (`NodeJS/models/Status.js`) has a string primary key `id` and a
  non-null `status` drawn from `off`, `on`, `closed`, `open`, `opening`, `closing`. It
  has an `updatedAt` stamp and no `createdAt`.

Files and modules:

- `optional.dfy` (`Optional`): `Option` for JavaScript's `undefined`, `Result` for rejected writes.
- `text.dfy` (`Text`): `split`/`join` on one character, the code-unit order of ids, and
  decimal rendering of integers.
- `status.dfy` (`Statuses`): the status enumeration, the row, the table and the record's
  validation.
- `protocol.dfy` (`Protocol`): MQTT packets, socket messages and topics.
- `hydration.dfy` (`Hydration`): the 24-hour, ascending, 360-reading history query.
- `server.dfy` (`Server`): the `Bridge` class and the status-payload functions.
- `dashboard.dfy` (`Dashboard`): the `Dashboard` class and the buffer and trigger functions.

Modelling choices:

- The database, the socket server and the broker are fields of `Bridge`. These are the
  status table (a map keyed by id, so at most one row per id), the temperature and
  brightness logs, the `broadcasts` outbox (`primus.write`) and the `published` outbox
  (`mqttServer.publish`).
- Clock reads become a `now` parameter in milliseconds. `format('X')` is `now / 1000`;
  `format('x')` is `now`.
- A `coop/status` upsert is checked against the record definition. The status must be
  present and be one of the six values. A payload without `|` (so `data[1]` is
  `undefined`), or with an unknown state, writes no row. The broadcast still goes out,
  with the status absent when there was none.

## Model

| member | source | states |
|---|---|---|
| `Text.Split` | NodeJS/server.js:170 | splitting on the separator always yields at least one piece |
| `Text.JoinSplit` | NodeJS/server.js:170 | joining the pieces of a split with the separator gives back the original payload |
| `Text.SplitPiecesFree` | NodeJS/server.js:170 | no piece of a split contains the separator |
| `Text.SplitPrefix` | NodeJS/server.js:170 | a separator-free leading text is glued onto the first piece of what follows it |
| `Text.SplitJoin` | NodeJS/server.js:170 | splitting a join of separator-free pieces gives back exactly those pieces |
| `Text.SplitHead` | NodeJS/server.js:170 | the first piece is the text before the first separator (all of it when none), and a second piece exists exactly when there is a separator |
| `Text.BelowIrreflexive` | NodeJS/server.js:236 | the id order used by `ORDER BY id ASC` is irreflexive |
| `Text.BelowTransitive` | NodeJS/server.js:236 | the id order is transitive |
| `Text.BelowTotal` | NodeJS/server.js:236 | any two distinct ids are ordered one way or the other |
| `Text.LeastExists` | NodeJS/server.js:236 | every non-empty set of ids has a least id, below all the others |
| `Text.DigitChar` | NodeJS/server.js:18 | a digit below ten is written as the character with that digit value |
| `Text.NatToDecimal` | NodeJS/server.js:18 | `toString` of a non-negative integer is digits only, with no leading zero |
| `Text.NatDecimalRoundTrip` | NodeJS/server.js:18 | the digits of `n.toString()` denote `n` |
| `Text.IntToDecimal` | NodeJS/server.js:18 | `toString` of an integer: a minus sign exactly when it is negative, then digits; the definition the beacon and the sun-hour messages use, read back by `IntDecimalRoundTrip` |
| `Text.IntDecimalRoundTrip` | NodeJS/server.js:18 | the decimal text of any integer, sign included, reads back as that integer |
| `Statuses.Parse` | NodeJS/models/Status.js:4 | a text denotes an enumeration value exactly when it is one of the six names, and then it is that value's name |
| `Statuses.ParseName` | NodeJS/models/Status.js:4 | each of the six values reads back from its stored name |
| `Statuses.ValidateRow` | NodeJS/models/Status.js:3-5 | a row is admitted exactly when its status is present and one of the six names; the row stores that status, stamped `updatedAt = now`; a missing status is refused as null |
| `Statuses.Upsert` | NodeJS/server.js:171 | upsert by primary key: the id's row becomes the new row, no other row changes, and no other row appears or disappears |
| `Hydration.After` | NodeJS/server.js:194-198 | the window holds exactly the log's readings stamped strictly after the cutoff, each as often as in the log |
| `Hydration.Insert` | NodeJS/server.js:199 | inserting into an ascending sequence keeps it ascending and adds exactly that reading |
| `Hydration.SortByCreated` | NodeJS/server.js:199 | `ORDER BY createdAt ASC` yields an ascending permutation of the window |
| `Hydration.PrefixOlderThanRest` | NodeJS/server.js:199-200 | in an ascending sequence nothing in a prefix is newer than anything after it |
| `Hydration.PrefixHoldsOldest` | NodeJS/server.js:199-200 | a prefix of the sorted window is an ascending part of the window, and nothing it keeps is newer than what it leaves out |
| `Hydration.Recent` | NodeJS/server.js:193-231 | the history sent per channel: ascending, only readings newer than now minus 24 hours, drawn from the log, `min(window size, 360)` of them, the whole window when it fits, and otherwise the window's oldest 360 |
| `Server.PayloadName` | NodeJS/server.js:170-174 | `data[0]`, the id a status payload names, is a separator-free prefix of the payload; the definition `IngestStatus`, `OnPublished` and the payload lemmas rely on |
| `Server.PayloadState` | NodeJS/server.js:170-175 | `data[1]` is present exactly when the payload holds a separator, and never contains one; the definition `IngestStatus`, `OnPublished` and the payload lemmas rely on |
| `Server.PayloadFields` | NodeJS/server.js:170 | `data[0]` is the text before the first separator, and `data[1]` exists exactly when the payload has a separator |
| `Server.StatusPayloadRoundTrip` | NodeJS/server.js:170 | for a key and a state without the separator, the payload made of key, separator and state reads back as that key and that state |
| `Server.IngestStatus` | NodeJS/server.js:168-171 | a status packet sets the named row to its state stamped `now`; a missing or unknown state changes nothing; no other row changes |
| `Server.UnwrittenRowPersists` | NodeJS/server.js:168-171 | over a run of status packets, a row that none of them writes keeps its value or stays absent |
| `Server.LastWriterWins` | NodeJS/server.js:168-171 | over a run of status packets, a row holds the state and arrival time of the last packet that writes it |
| `Server.RowView` | NodeJS/server.js:240-244 | a status row is shown as its id, the name of its status, and `updatedAt` in whole seconds; the definition `HydrateStatuses` relies on |
| `Server.LocalSeconds` | NodeJS/server.js:12-18 | the beacon's number is the whole local second containing `now`: UTC seconds shifted by the zone's offset |
| `Server.Bridge.constructor` | NodeJS/server.js:10-12 | the bridge starts over the stored tables with empty outboxes and the configured client id, sun hours and zone offset |
| `Server.Bridge.SeedDefaults` | NodeJS/server.js:35-44 | a configured id without a row before seeding gets its default, if the record admits it; existing rows keep their status; nothing else changes |
| `Server.Bridge.OnPublished` | NodeJS/server.js:148-181 | temperature or brightness: one reading appended to that log only and the same value broadcast as `temp` or `light`; status: the table becomes `IngestStatus` of the payload and one update carries `data[0]`, `data[1]` and the time; any other topic changes nothing; nothing is published |
| `Server.Bridge.HydrateStatuses` | NodeJS/server.js:234-247 | every status row exactly once, strictly ascending by id, each as its name, status and `updatedAt` in seconds |
| `Server.Bridge.LightHydration` | NodeJS/server.js:192-210 | the `lightReadings` message: ascending, at most 360, only brightness readings of the last 24 hours; built on `Recent` |
| `Server.Bridge.TempHydration` | NodeJS/server.js:212-231 | the `tempReadings` message: ascending, at most 360, only temperature readings of the last 24 hours; built on `Recent` |
| `Server.Bridge.OnSocketData` | NodeJS/server.js:250-260 | a `remoteTrigger` is published once to `coop/remotetrigger`, payload unchanged, qos 2, not retained, without checking the device; other messages publish nothing; nothing else changes |
| `Server.Bridge.OnClientConnected` | NodeJS/server.js:130-138 | `Online` is broadcast only for the configured client; sunrise and sunset are published on every connection |
| `Server.Bridge.OnClientDisconnected` | NodeJS/server.js:140-146 | `Offline` is broadcast only for the configured client; nothing is published |
| `Server.Bridge.TimeBeacon` | NodeJS/server.js:15-24 | one beacon: the local second as decimal text on `time/beacon`, qos 0, not retained |
| `Dashboard.TriggeredStatus` | NodeJS/public/js/app.js:33-40 | a trigger changes a status only for the item named `door`, and only `open` to `opening` or `closed` to `closing`; those two always move |
| `Dashboard.TriggerSettles` | NodeJS/public/js/app.js:33-40 | triggering again before the device reports back changes nothing more |
| `Dashboard.ItemType` | NodeJS/public/js/app.js:234-241 | `itemType` is 1 exactly for `on` and `off`, and 2 otherwise |
| `Dashboard.ItemTypeMatchesKind` | NodeJS/public/js/app.js:234-241 | over the six stored values, `itemType` is 1 exactly for the two-state devices |
| `Dashboard.Points` | NodeJS/public/js/app.js:75-83 | a batch becomes one `[createdAt, reading]` point per reading, in order; the definition `AppendReadings`, the batch methods and `OnData` rely on |
| `Dashboard.AppendReadings` | NodeJS/public/js/app.js:73-76 | a reading batch is appended in order as `[createdAt, reading]` points, and the buffer before it is untouched |
| `Dashboard.Capped` | NodeJS/public/js/app.js:91-95 | a live point becomes the last element; the length grows by one below 300 and stays put otherwise; only the oldest points are dropped |
| `Dashboard.LatestOr` | NodeJS/public/js/app.js:77-87 | after a batch, the current value is the last point's value when the buffer is non-empty, and is unchanged otherwise; the definition the batch methods and `OnData` rely on |
| `Dashboard.LiveUpdatesLength` | NodeJS/public/js/app.js:91-95 | a run of live updates grows a buffer to 300 and then keeps its length; a longer buffer never shrinks |
| `Dashboard.StatusApplied` | NodeJS/public/js/app.js:105-110 | a status update keeps the item list's length, order and names; the definition `ApplyStatusUpdate`, `OnData` and the two update lemmas rely on |
| `Dashboard.UnmatchedUpdateChangesNothing` | NodeJS/public/js/app.js:104-111 | a status update that matches no item's name leaves the items unchanged |
| `Dashboard.UpdateKeepsNames` | NodeJS/public/js/app.js:104-111 | a status update keeps the length and the names, a matching item carries exactly the new status and time, and every other item is unchanged |
| `Dashboard.Dashboard.constructor` | NodeJS/public/js/app.js:8-14 | the page starts with no items, no current readings (`---`), empty buffers and the broker client `Offline` |
| `Dashboard.Dashboard.TriggerItem` | NodeJS/public/js/app.js:31-42 | only the triggered item's status changes, as `TriggeredStatus` says; `{remoteTrigger: name}` is sent whether or not it moved |
| `Dashboard.Dashboard.ApplyStatusUpdate` | NodeJS/public/js/app.js:104-111 | every item whose name equals the update's takes its status and the current second; the others and the rest of the state are unchanged |
| `Dashboard.Dashboard.ReceiveLightReadings` | NodeJS/public/js/app.js:73-80 | a light batch is appended, and the current light becomes the last point's value when the buffer is non-empty |
| `Dashboard.Dashboard.ReceiveTempReadings` | NodeJS/public/js/app.js:81-88 | a temperature batch is appended, and the current temperature becomes the last point's value when the buffer is non-empty |
| `Dashboard.Dashboard.ReceiveLight` | NodeJS/public/js/app.js:90-96 | a live light value becomes current and is pushed into the capped light buffer |
| `Dashboard.Dashboard.ReceiveTemp` | NodeJS/public/js/app.js:97-103 | a live temperature becomes current and is pushed into the capped temperature buffer |
| `Dashboard.Dashboard.OnData` | NodeJS/public/js/app.js:66-114 | the handler in order: a status list replaces the items; the broker client's status is taken; batches are appended; live readings are pushed; a status update rewrites the matching items; nothing is sent |

## Left out

- Transports: the MQTT broker, Primus/socket.io and Express routing and static serving
  (server.js:98-113) are left out. Their effects appear only as outbox entries. The
  `setInterval` timers are left out too; `TimeBeacon` is one tick.
- Broker authentication (server.js:119-126) is left out. It belongs to the broker, which
  is outside the model.
- The Wunderground sunrise/sunset fetch (server.js:48-96) is network I/O. `sunRise` and
  `sunSet` therefore stay at their configured defaults.
- `Server.Bridge.OnClientConnected` always publishes both sun hours. The source reads the
  sunset default as `config.sun.default.Set` with a capital S (server.js:50) but the
  sunrise default as `.rise` (server.js:49). If the configuration's key is `set`, then
  `sunSet` is undefined and `sunSet.toString()` throws at server.js:137, after `sun/rise`
  has been published. The configuration file is not part of this model, so that case is
  not captured.
- Numbers are unbounded integers here. JavaScript numbers are doubles: they lose
  precision above 2^53 and `toString` switches to exponent form from 1e21. The beacon
  seconds and the sun hours stay far below those limits.
- `parseFloat` and `parseInt` on payloads are function parameters of `OnPublished`, and
  reading values are integers. Floating point and the exact JavaScript parsing rules are
  not modelled.
- The 24-hour cutoff in the history query is compared as integer milliseconds. The
  source compares dates formatted to whole seconds (server.js:196); that formatting is
  not modelled.
- The database's ordering is modelled as plain orders. Ids sort by code unit; a
  collation may order them differently. The source leaves the order of readings with
  equal `createdAt` unspecified; the model keeps log order.
- The three history queries of a connection resolve in any order. Each is modelled on
  its own (`Recent`, `HydrateStatuses`), not their interleaving.
- Store writes are asynchronous and unchecked in the source. Here they take effect
  immediately. Failures other than the record's own validation are not modelled.
- `models/index.js` registers only `Temperature` and `Brightness`, not `Status`. The
  status table is modelled abstractly as a map rather than through that wiring.
- `remoteTrigger` may be any JSON value in the source. Here it is a string, which is
  what the dashboard sends.
- `Dashboard.Dashboard.TriggerItem` requires an index inside the item list. The model
  assumes the page only passes such indices; the page template is not part of this
  model. An index outside the list throws in the source.
- The chart objects share the page's buffer arrays (app.js:185, 230). The model keeps the
  buffers as sequences, so that aliasing is not captured.
- The page's UI code is left out: `safeApply`, the sidenav, the login POST, the chart
  options (app.js:116-232), the window-width watch and the `capitalize` filter.
- `console.log` calls are left out.
- The server does not check trigger targets: it relays every `remoteTrigger` unchanged
  (server.js:250-260). It does not refuse a re-trigger while the door is `opening` or
  `closing`, and it does not check state transitions on `coop/status` packets: any
  enumerated state overwrites the row. The model has none of these checks either.
