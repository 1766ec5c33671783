/**
 * The rows the callback handlers read from and write to the database
 * (`usuarios`, `zonas`, `dispositivo`, `acceso`), and the webhook body
 * the TTLock cloud posts.
 */
module Rows {
  import opened Options
  import opened JsValues

  /** A `usuarios` row. */
  datatype User = User(
    id: JsValue,           // idUsuarios
    firstName: string,     // nombre_usuario
    lastName: string,      // apellido_usuario
    fingerprint: JsValue,  // huella_usuario
    card: JsValue,         // targeta_usuario
    level: JsValue         // nivel_acceso
  )

  /** A `zonas` row; the schedule bounds are "HH:MM:SS" text or NULL. */
  datatype Zone = Zone(
    id: JsValue,                     // idzonas
    scheduleStart: Option<string>,   // horario_inicio_zona
    scheduleEnd: Option<string>,     // horario_fin_zona
    securityLevel: JsValue           // nivel_seguridad_zona
  )

  /**
   * What `SELECT z.* FROM dispositivo d LEFT JOIN zonas z ...` yields for a
   * device bound to no zone: a row whose zone columns are all NULL.
   */
  const UnjoinedZone := Zone(Null, None, None, Null)

  /** A `dispositivo` row (its key, `idDispositivo`, is the key of the table map). */
  datatype Device = Device(
    name: string,       // nombre_dispositivo
    kind: string,       // tipo_dispositivo
    status: string,     // Estado
    lockKey: JsValue,   // lock_key (the lock's MAC address)
    wifiLock: int,      // wifi_lock
    zoneId: JsValue     // Idzona_dispositivo
  )

  /** `estado_acceso`. */
  datatype AccessState = Autorizado | Denegado

  /** An `acceso` row; `fecha_inicio_acceso` is the database's NOW() and is not modelled. */
  datatype AccessRow = AccessRow(
    userId: JsValue,         // idUsuario
    zoneId: JsValue,         // idZona
    accessType: JsValue,     // tipo_acceso
    deviceKind: string,      // tipo_dispositivo_acceso
    deviceId: JsValue,       // idDispositivo
    estado: AccessState,     // estado_acceso
    motivo: Option<string>,  // motivo_rechazo_acceso
    cardId: JsValue          // tarjeta_id
  )

  /** The fields of one element of the `records` JSON array that the handlers read. */
  datatype LockRecord = LockRecord(
    lockId: JsValue,
    doorId: JsValue,
    lockMac: JsValue,
    username: JsValue,
    senderUsername: JsValue,
    fingerprintName: JsValue,
    cardName: JsValue,
    fingerprintNumber: JsValue,
    fingerprintId: JsValue,
    cardNumber: JsValue,
    cardId: JsValue,
    recordType: JsValue     // type
  )

  /** Reading any field of a missing record (`record?.x`) gives `undefined`. */
  const AbsentRecord := LockRecord(Null, Null, Null, Null, Null, Null, Null, Null, Null, Null, Null, Null)

  /**
   * The `records` field of the body: absent or empty, text that `JSON.parse`
   * rejects, or a parsed array.
   */
  datatype Records = NoRecords | Unparseable | Parsed(items: seq<LockRecord>)

  /** The webhook body fields the handlers read. */
  datatype Payload = Payload(lockId: JsValue, lockMac: JsValue, username: JsValue, records: Records)

  /**
   * `record`: the first element of the parsed `records` array, or null when
   * the field is absent, unparseable or an empty array.
   */
  function FirstRecord(r: Records): (rec: Option<LockRecord>)
    ensures rec.Some? <==> r.Parsed? && |r.items| > 0
    ensures rec.Some? ==> rec.value == r.items[0]
  {
    if r.Parsed? && |r.items| > 0 then Some(r.items[0]) else None
  }

  /** The fields `record?.x` reads: those of the first record, or all `undefined`. */
  function RecordFields(r: Records): LockRecord {
    match FirstRecord(r)
    case Some(rec) => rec
    case None => AbsentRecord
  }
}

/**
 * The database lookups the handlers issue, as functions over the table
 * contents. Matching is exact text equality; a NULL column matches nothing.
 */
module Storage {
  import opened Options
  import opened JsValues
  import opened Rows

  /** `col = key` in SQL, for a column that may be NULL. */
  predicate ColumnEquals(col: JsValue, key: string) {
    col != Null && Text(col) == key
  }

  /** `CONCAT(nombre_usuario, ' ', apellido_usuario)`. */
  function FullName(u: User): string {
    u.firstName + " " + u.lastName
  }

  /** The two user queries: by fingerprint, card or full name, and (the older handler) by full name or fingerprint. */
  datatype UserQuery = ByFingerprintCardOrName | ByNameOrFingerprint

  predicate Matches(q: UserQuery, u: User, key: string) {
    match q
    case ByFingerprintCardOrName =>
      ColumnEquals(u.fingerprint, key) || ColumnEquals(u.card, key) || FullName(u) == key
    case ByNameOrFingerprint =>
      FullName(u) == key || ColumnEquals(u.fingerprint, key)
  }

  /** The first row of `users` that the query matches (`rows[0] || null`). */
  function FindUser(users: seq<User>, q: UserQuery, key: string): (r: Option<User>)
    ensures r.None? <==> forall i :: 0 <= i < |users| ==> !Matches(q, users[i], key)
    ensures r.Some? ==> Matches(q, r.value, key)
    ensures r.Some? ==> exists i :: 0 <= i < |users| && users[i] == r.value && forall j :: 0 <= j < i ==> !Matches(q, users[j], key)
  {
    if users == [] then None
    else if Matches(q, users[0], key) then Some(users[0])
    else
      var r := FindUser(users[1..], q, key);
      assert forall i :: 1 <= i < |users| ==> users[i] == users[1..][i - 1];
      r
  }

  /** The zone whose `idzonas` equals the device's `Idzona_dispositivo`, if any. */
  function FindZone(zones: seq<Zone>, zoneId: JsValue): (r: Option<Zone>)
    ensures r.Some? ==> r.value in zones && ColumnEquals(r.value.id, Text(zoneId)) && zoneId != Null
    ensures r.None? <==> zoneId == Null || forall i :: 0 <= i < |zones| ==> !ColumnEquals(zones[i].id, Text(zoneId))
    ensures r.Some? ==> exists i :: (0 <= i < |zones| && zones[i] == r.value
      && forall j :: 0 <= j < i ==> !ColumnEquals(zones[j].id, Text(zoneId)))
  {
    if zoneId == Null || zones == [] then None
    else if ColumnEquals(zones[0].id, Text(zoneId)) then Some(zones[0])
    else
      var r := FindZone(zones[1..], zoneId);
      assert forall i :: 1 <= i < |zones| ==> zones[i] == zones[1..][i - 1];
      r
  }

  /**
   * `getZoneForDevice`: null when the device has no row; otherwise the first
   * zone whose `idzonas` equals the device's `Idzona_dispositivo`, or a row of
   * NULL zone columns when the device is bound to no zone or to a zone id no
   * row has.
   */
  function ZoneForDevice(devices: map<string, Device>, zones: seq<Zone>, deviceKey: string): (r: Option<Zone>)
    ensures r.None? <==> deviceKey !in devices
    ensures deviceKey in devices && devices[deviceKey].zoneId == Null ==> r == Some(UnjoinedZone)
    ensures deviceKey in devices && devices[deviceKey].zoneId != Null ==>
      var k := Text(devices[deviceKey].zoneId);
      ((exists i :: 0 <= i < |zones| && ColumnEquals(zones[i].id, k)) ==>
         r.Some? && r.value in zones && ColumnEquals(r.value.id, k)
         && exists i :: (0 <= i < |zones| && zones[i] == r.value
           && forall j :: 0 <= j < i ==> !ColumnEquals(zones[j].id, k)))
    ensures deviceKey in devices ==>
      var k := Text(devices[deviceKey].zoneId);
      ((forall i :: 0 <= i < |zones| ==> !ColumnEquals(zones[i].id, k)) ==> r == Some(UnjoinedZone))
  {
    if deviceKey !in devices then None
    else match FindZone(zones, devices[deviceKey].zoneId)
      case Some(z) => Some(z)
      case None => Some(UnjoinedZone)
  }
}
