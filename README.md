# TTLock callback decision logic, in Dafny

This project models how the access-control server reacts to the webhook the
TTLock cloud posts when someone uses a lock, and proves what that reaction
guarantees.

**The desktop server (`Server.js`).** Its `/api/ttlock/callback` handler
works in these steps:

- Extract the lock id.
- Drop redeliveries for the same lock within 3 s, using the in-memory map
  `lastAccessEvent`.
- Register or refresh the lock in the `dispositivo` table.
- Identify the person by fingerprint, then card, then full name.
- Judge the attempt against the zone's schedule (`isWithinSchedule` with
  `toSeconds`) and its security level (`hasRequiredLevel`).
- Drop identity-less denials within 5 s of an authorization on the same lock.
- Write an `acceso` row only for an identified user.
- Announce the attempt, and for an authorization ask for the lock to open
  exactly once: through the cloud when `HAS_GATEWAY` is `"true"`, through the
  bridges otherwise.

**The older router (`ttlock/callback.js`).** It works in these steps:

- Keep a single `lastProcessedId`.
- Ignore every callback whose lock id is `<=` that value.
- Register the lock as an "RFID" device.
- Look the user up by name or fingerprint.
- Judge against a zone it never loads.
- Always write one access row.

**How the model is built.**

- JavaScript values are modelled explicitly in `JsValues`:
  - truthiness;
  - `a || b` chains;
  - `String(v)`;
  - `parseInt(v, 10)`;
  - `split(":")`;
  - `<=`, which compares two strings as text and everything else as numbers,
    with `NaN` making the comparison false.
- Database tables are values:
  - `usuarios` and `zonas` are sequences of rows;
  - `dispositivo` is a map keyed by the text of the lock id;
  - `acceso` is a log that the handlers append to.
- Broadcasts and cloud unlocks are recorded in an outbox of `Notice`s.
- Each handler exists twice:
  - as a pure transition, `ServerCallback.Handle` and `WifiCallback.Handle`;
  - as a class that updates its fields in place, `ServerCallback.Server` and
    `WifiCallback.WifiRouter`. The in-place method is proved to produce
    exactly the transition's state and answer.
- The clock readings of a callback are parameters (`ServerCallback.Clock`).

Files:

- `jsvalues.dfy`: JavaScript value semantics.
- `rows.dfy`: rows, request body and lookups.
- `policy.dfy`: schedule, level and classification.
- `server.dfy` and `server_properties.dfy`: the desktop server's handler and
  its properties.
- `wifi_callback.dfy` and `wifi_properties.dfy`: the older router and its
  properties.

## Model

| member | source | states |
|---|---|---|
| JsValues.OrChain | Server.js:434-438 | A chain of JavaScript OR operators is truthy exactly when some operand is. It then gives the first truthy operand; otherwise it gives the last operand. |
| JsValues.ParseInt | Server.js:227 | `parseInt(s, 10)`: skips leading white space, reads an optional sign and the longest run of digits, and gives `NaN` when there are none. `ParseIntOfText` and `Policy.Components` state what it reads. |
| JsValues.NumberOr | Server.js:227 | For a parsed number, `parseInt(x) || d` is the general JavaScript `||` (`OrChain`) on that number and `d`. `NaN` is falsy and gives `d`. |
| JsValues.ParseIntOfText | Server.js:238-239 | `parseInt(String(n), 10) == n` for every integer `n` of the model. Model integers are unbounded and `String` writes them in plain decimal (see "Left out"). |
| JsValues.SplitPiece | Server.js:227 | `split(":")` returns a piece without a colon whole, and splits `a + ":" + rest` into `a` followed by the pieces of `rest`. |
| JsValues.Split | Server.js:227 | `split(":")` always returns at least one piece. `SplitPiece` states how it cuts. |
| JsValues.JsLessEqReflexive | ttlock/callback.js:45 | Every value is `<=` itself under JavaScript's comparison, text or number. |
| JsValues.JsLessEqOnNumbers | ttlock/callback.js:45 | For numbers, `<=` is the integer order, in both directions. |
| JsValues.JsLessEq | ttlock/callback.js:45 | JavaScript `a <= b`: strings compare as text, anything else as numbers, and `NaN` makes it false. `JsLessEqReflexive`, `JsLessEqOnNumbers` and `WifiProperties.TextIdsCompareAsText` state its behaviour. |
| Storage.FindUser | Server.js:197-208 | The user lookup finds nobody exactly when no row matches the key by fingerprint, card or full name (or, for the older query, name or fingerprint); otherwise it gives the first matching row. |
| Storage.ZoneForDevice | Server.js:210-220 | The device's zone is null exactly when the device has no row. A device bound to a zone id that some `zonas` row has yields the first such row. A device bound to no zone, or to an id no row has, joins to a row whose zone columns are all NULL. |
| Policy.Components | Server.js:227 | `toSeconds` reads one number per `:`-separated piece. A piece of decimal digits reads as its value. A piece with no digits after its white space and sign reads as 0. |
| Policy.ToSecondsAsWritten | Server.js:225-229 | `toSeconds` as written: an unset bound is 0, and text with fewer than three pieces is `NaN`. `ClockTextSeconds` and `ShortClockTextSeconds` state its values. |
| Policy.ToSeconds | Server.js:225-229 | `toSeconds` as intended: a missing piece counts as 0. `ClockTextSeconds` and `ShortClockTextSeconds` state its values. |
| Policy.IsWithinScheduleAsWritten | Server.js:223-235 | `isWithinSchedule` as written, where a `NaN` bound makes every comparison false. `ShortBoundsRefuseEveryTime` and `AsWrittenAgreesOnCompleteBounds` state its behaviour. |
| Policy.IsWithinSchedule | Server.js:223-235 | `isWithinSchedule` with the intended `toSeconds`. `ScheduleIsCircularWindow`, `UnscheduledZoneAlwaysOpen` and `NightShiftWindow` state its behaviour. |
| Policy.HasRequiredLevel | Server.js:236-241 | `hasRequiredLevel`. `NoZoneLevelAdmitsEveryone`, `LevelCheckOnNumbers` and `LevelDefaults` state its behaviour. |
| Policy.ClockTextSeconds | Server.js:225-229 | For `"h:m:s"` with digit pieces, `toSeconds` is `h*3600 + m*60 + s`. The source's version agrees on such input. |
| Policy.ShortClockTextSeconds | Server.js:225-229 | For `"h:m"`, the intended `toSeconds` counts the missing seconds as 0. The source's version gives `NaN`. |
| Policy.AsWrittenAgreesOnCompleteBounds | Server.js:225-234 | When both bounds have three pieces, the source's schedule check and the intended one give the same answer. |
| Policy.UnscheduledZoneAlwaysOpen | Server.js:224 | With no zone, or a missing or empty bound, the schedule check passes at every time of day, as written and as intended. |
| Policy.ScheduleIsCircularWindow | Server.js:233-234 | The schedule check is a window on the 24-hour circle: `now` passes exactly when it lies clockwise from start no further than end does. This covers windows that wrap past midnight. |
| Policy.WindowIsCircular | Server.js:233-234 | Inclusive `start <= now <= end` when `start <= end`, and `now >= start` or `now <= end` otherwise, is the clockwise-window condition. |
| Policy.NightShiftWindow | Server.js:223-235 | A 22:00:00–06:00:00 zone admits 23:00 and 02:00 and refuses 12:00. |
| Policy.ShortBoundsRefuseEveryTime | Server.js:227-234 | As written, an "08:00"–"17:00" zone refuses every time of day. The intended check admits 12:00. |
| Policy.ShortBoundsAuthorizedAsIntended | Server.js:544-558 | With the intended check, a known user is authorized at 12:00 in an "08:00"–"17:00" zone with no level, where the source answers "Fuera de horario". |
| Policy.ShortBoundDecidesAlone | Server.js:227-234 | As written, with only the start short the check admits exactly `now <= end`. With only the end short it admits exactly `now >= start`. With both short it admits nothing. |
| Policy.ShortStartAdmitsEarlyMorning | Server.js:227-234 | As written, an "08:00"–"17:00:00" zone admits 07:00 and 12:00 and refuses 18:00. The intended check refuses 07:00, where a known user is classified "Fuera de horario". |
| Policy.NoZoneLevelAdmitsEveryone | Server.js:237 | With no zone, or a zone level that is NULL, 0 or empty, the level check passes for every user. |
| Policy.LevelCheckOnNumbers | Server.js:238-240 | With numeric levels (non-zero zone level), the level check is `userLevel >= zoneLevel`. |
| Policy.LevelDefaults | Server.js:236-241 | An unparseable or 0 zone level counts as 1. A missing or unparseable user level, or no user, counts as 0. The check is `userLevel >= zoneLevel`. |
| Policy.Classify | Server.js:544-558 | The first failing check wins: no user gives "Usuario no encontrado"; otherwise out of schedule gives "Fuera de horario"; otherwise a low level gives "Nivel de acceso insuficiente"; otherwise "Autorizado" with no reason. Each holds in both directions, and `motivo` is null exactly when authorized. The schedule is judged with the intended `toSeconds` (see "Findings"). |
| Policy.ClassifyAgreesWithSourceOnCompleteBounds | Server.js:544-558 | When the zone has no schedule, or both bounds have three pieces, the classification is exactly what the source's `isWithinSchedule` gives, in both directions. |
| ServerCallback.RegisterDevice | Server.js:475-511 | The upsert leaves the lock present, "Activo", with `wifi_lock` 1. A new row is `Cerradura-<id>` of kind "TTLock" with no zone and the callback's MAC or NULL. An existing row keeps everything but status, Wi-Fi flag and MAC, and keeps its MAC unless the callback brings one. Other devices are untouched. |
| ServerCallback.AuthorizedKeyIsNotALockId | Server.js:574 | The `authorized_<lockId>` key never coincides with the lock's own key in the shared map. |
| ServerCallback.ResolveUser | Server.js:516-539 | The fingerprint, card and name lookups, each run only while nobody is found. `ServerProperties.ResolutionPriority` states its priority. |
| ServerCallback.Handle | Server.js:419-649 | One callback as a state transition. The `ServerProperties` lemmas state what it guarantees. |
| ServerCallback.IdentifyUser | Server.js:518-539 | The three lookups run one after another and give the resolution `ResolveUser` describes. |
| ServerCallback.Decide | Server.js:544-558 | Starting from "Denegado" / "Usuario no autorizado", the step-by-step reassignment ends in `Classify`'s decision, which uses the intended `toSeconds`. |
| ServerCallback.Server.constructor | Server.js:22 | A started server has an empty `lastAccessEvent`, an empty log and no notices. |
| ServerCallback.Server.HandleCallback | Server.js:419-649 | Handling a callback in place yields exactly the state and the answer of the transition `Handle`, whose schedule check uses the intended `toSeconds`. |
| ServerCallback.Server.RegisterLock | Server.js:452-511 | Marks the lock with the receive time and applies the device upsert. |
| ServerCallback.Server.Record | Server.js:587-638 | Appends the access row, the announcement and, for an authorization, one unlock request chosen by `HAS_GATEWAY`. |
| ServerProperties.LockIdSources | Server.js:424-438 | The lock id is the body's `lockId` when set; otherwise the first parsed record's `lockId`, then its `doorId`. Without any of them the callback is refused with 400 and nothing changes. |
| ServerProperties.RejectedCallbackChangesNothing | Server.js:434-450 | A callback with no lock id gets 400, and a redelivery within 3 s is dropped. Either way the state, including `lastAccessEvent`, is unchanged. |
| ServerProperties.AcceptedCallbackMarksLock | Server.js:444-452 | An accepted callback sets the lock's mark to its receive time. Only the lock's and its `authorized_` keys may change. |
| ServerProperties.RedeliveryIsDropped | Server.js:444-452 | The same body redelivered under 3 s after acceptance is dropped with no change, so the two deliveries write at most one row. |
| ServerProperties.ResolutionPriority | Server.js:516-539 | Fingerprint wins over card, and card over name. A later token is used only when earlier ones find nobody. Nobody is found exactly when no present token matches. |
| ServerProperties.IdentitylessEventLeavesNoTrace | Server.js:563-584 | A callback that identifies nobody is ignored with no row and no notice, whatever the authorization marks and the clock. |
| ServerProperties.RecordOnlyForIdentifiedUser | Server.js:581-599 | A row is written (answer success) exactly when the callback is accepted and finds a user with an id. The row names that user, the lock, the decision, the zone id (`currentZone?.idzonas || null`), the record type or "Huella", and the card number or NULL; otherwise the log and the notices are unchanged. |
| ServerProperties.UnlockFollowsAuthorization | Server.js:603-638 | An identified user's attempt is announced. An authorization adds exactly one unlock: cloud when `HAS_GATEWAY === "true"`, bridge broadcast otherwise. A denial adds none. |
| ServerProperties.AuthorizationIsMarked | Server.js:573-575 | An authorization sets `authorized_<lockId>` to its time. A denial leaves that mark as it was. |
| ServerProperties.LevelDecidesOnUnscheduledZone | Server.js:548-553 | On an unscheduled zone with numeric levels, the decision is authorization exactly when the user level reaches the zone level; otherwise the reason is the level. The lock opens exactly in the first case. |
| ServerProperties.DeviceRegistration | Server.js:475-511 | After an accepted callback the lock is registered and active. An existing row keeps its name, kind and zone; a new one is `Cerradura-<id>`, "TTLock", with no zone. Other devices are unchanged. |
| ServerProperties.UnboundLockAdmitsAnyKnownUser | Server.js:483-497 | On a lock bound to no zone, such as one created by its first callback, every identified user is authorized. With an id, the lock is opened. |
| ServerProperties.StartIsConsistent | Server.js:22 | A freshly started server satisfies the log and notice invariant. |
| ServerProperties.HandleKeepsConsistent | Server.js:581-638 | Each callback only appends to the log and the notices. Every row has a user id, a registered lock and a reason exactly for a denial, and is never "Usuario no encontrado". Every unlock directly follows an authorized announcement for the same lock. |
| ServerProperties.RunKeepsConsistent | Server.js:419-649 | Over any sequence of callbacks the invariant holds and the log only grows. |
| WifiCallback.RegisterDevice | ttlock/callback.js:59-74 | The upsert leaves the lock present, "Activo", with `wifi_lock` 1 and the callback's MAC. A new row is `Cerradura-<id>`, "RFID", with no zone. An existing row keeps name, kind and zone. Other devices are untouched. |
| WifiCallback.LookupUser | ttlock/callback.js:77-81 | A missing name finds nobody. A found user matches by full name or fingerprint. Nobody is found only when no row matches. |
| WifiCallback.Decide | ttlock/callback.js:84-94 | "Autorizado" (with no reason) exactly when a user and a zone exist and the user level is `>=` the zone level. "Nivel de acceso insuficiente" exactly when both exist and it is not. "Usuario no autorizado" exactly when either is missing. |
| WifiCallback.DecideAccess | ttlock/callback.js:84-94 | The step-by-step reassignment ends in `Decide`'s decision. |
| WifiCallback.Handle | ttlock/callback.js:19-114 | One callback as a state transition. The `WifiProperties` lemmas state what it guarantees. |
| WifiCallback.WifiRouter.constructor | ttlock/callback.js:16 | A loaded router starts with `lastProcessedId` 0 and an empty log. |
| WifiCallback.WifiRouter.HandleCallback | ttlock/callback.js:19-114 | Handling a callback in place yields exactly the state and the answer of the transition `Handle`. |
| WifiProperties.RejectedCallbackChangesNothing | ttlock/callback.js:35-48 | A missing lock id gets 400 "Falta lockId", and one `<=` `lastProcessedId` gets "Evento repetido ignorado". Either way `lastProcessedId`, the devices and the log are unchanged. |
| WifiProperties.NeverAuthorizes | ttlock/callback.js:83-94 | With `currentZone` null, every decision is "Denegado" / "Usuario no autorizado". |
| WifiProperties.AcceptedCallbackIsRecorded | ttlock/callback.js:50-110 | An accepted callback sets `lastProcessedId` to its lock id and upserts the device. It appends exactly one row: a denial on that lock, with the user's id or NULL. |
| WifiProperties.SameLockIsIgnoredAfterwards | ttlock/callback.js:45-51 | Once a lock's callback is processed, the next callback from that lock is ignored, whatever record it carries. |
| WifiProperties.TextIdsCompareAsText | ttlock/callback.js:45 | Text ids compare as text, so "99999" passes after "123456" while 99999 does not pass after 123456. A non-numeric id and a number are never `<=` each other. |
| WifiProperties.MixedIdsReprocessLock | ttlock/callback.js:35-51 | Non-numeric text ids (such as "L1") and numeric ids are never `<=` each other. So callbacks from the lock "L1", then the lock 5, then "L1" again all succeed, and three rows are written: a lock can be processed again after a callback from another lock. |
| WifiProperties.NumericStep | ttlock/callback.js:45-51 | With numeric ids, one callback raises `lastProcessedId` to the maximum. It writes one denial exactly when the id is above the old value. |
| WifiProperties.NumericRunKeepsMaximum | ttlock/callback.js:45-51 | Over any run with numeric ids, `lastProcessedId` is the running maximum, never decreasing. One row is written per callback that beats every earlier id, and each is a denial. |
| WifiProperties.TextStepRaises | ttlock/callback.js:45-51 | With text ids on both sides, an accepted lock id is strictly greater as text than the last processed one and replaces it, so over text-id runs `lastProcessedId` only rises in text order. |

## Left out

- Database failures and the 500 answers are not modelled. So are the swallowed errors of the device upsert and of `registerAccess` (Server.js:509-511, 597-599). Every query is taken to succeed.
- SQL comparison is modelled as exact text equality. MySQL's type coercion (a number compared with a text column), collation (case and trailing spaces) and the row order behind `LIMIT 1` are not modelled; the first matching row of the table sequence is taken.
- The `fecha_inicio_acceso` timestamp (`NOW()`) and all logging are not modelled.
- The clock is not read; its readings are parameters (`Clock`), and the time of day is given in seconds.
- `broadcastToBridges` and `unlockViaCloud` are recorded as requests in the outbox; nothing is delivered. In the source the module-level `wss` (Server.js:47) is shadowed inside `startWebSocketServer` (Server.js:49) and never assigned, so `broadcastToBridges` returns at once (Server.js:65). A bridge broadcast therefore reaches no bridge at run time. The model records that the handler asked for one.
- The token handling, the HTTP calls to the TTLock cloud, the WebSocket server, the other endpoints and the React front end are not part of this model.
- `JSON.parse` of `records` is abstracted: the body carries either no records, unparseable text, or a parsed list of records. A parsed value that is not an array counts as an empty list.
- JavaScript numbers are integers here; fractions, `Infinity` and `NaN` as stored values are not modelled. `null` and `undefined` are one value. Booleans and objects as field values are not modelled.
- `Number(text)` in comparisons covers optional white space, an optional sign and decimal digits. "Infinity" and the hexadecimal (`0x`), binary (`0b`), octal (`0o`), exponent and decimal-point forms count as `NaN`.
- JsValues.Text, JsValues.ParseIntOfText: model numbers are unbounded integers written in plain decimal. JavaScript writes numbers of magnitude 1e21 or more in exponent form (`parseInt("1e+21")` is 1) and rounds integers beyond 2^53, so the round trip holds in JavaScript only for safe integers.
- Policy.Classify: the schedule is judged with the intended `toSeconds` (see "Findings"), not the one Server.js:548 calls. The two differ only when a bound has fewer than three pieces, and then in either direction. With both bounds short the source refuses at every time. With only the start short it admits exactly the times up to the end, and with only the end short exactly the times from the start (`ShortBoundDecidesAlone`). The model judges the full window instead. `ClassifyAgreesWithSourceOnCompleteBounds` proves the two agree otherwise.
- ServerCallback.Decide: uses `Classify`, so it departs from Server.js:548 in the same way, in either direction, on bounds with fewer than three pieces only.
- ServerCallback.Handle: its decision is `Classify`'s, so it departs from Server.js:548 in the same way. On such a zone it can write an "Autorizado" row and an unlock where the source writes "Fuera de horario" and no unlock (`ShortBoundsAuthorizedAsIntended`). It can also write "Fuera de horario" and no unlock where the source authorizes and unlocks (`ShortStartAdmitsEarlyMorning`).
- ServerCallback.Server.HandleCallback: equals `Handle`, so it departs from the source in the same way, in either direction, on bounds with fewer than three pieces only.
- Text order compares Dafny characters, which are Unicode scalar values. JavaScript compares UTF-16 code units, and the two orders differ only for characters outside the Basic Multilingual Plane.
- Concurrent callbacks are not modelled: each callback is handled atomically, one after another.
- `battery` and `admin` in the older router are computed but never used (ttlock/callback.js:37-38), so they are not modelled.

## Findings

| source | as written | input that shows it | evidently intended | confidence | as-written member | corrected member |
|---|---|---|---|---|---|---|
| Server.js:227 | `const [h, m, s] = ("" + hms).split(":").map(...)` leaves `s` undefined for a bound with two pieces. `h * 3600 + m * 60 + s` is then `NaN`, and every comparison with it is false. | A zone open "08:00" to "17:00", checked at 12:00:00, is refused, as is every other time. | A missing piece counts as 0, like an unparseable one (each piece already defaults to 0). "08:00" is then 28800 s and 12:00 is admitted. The handler model uses this reading. | not executed | Policy.ShortBoundsRefuseEveryTime | Policy.ShortClockTextSeconds |
