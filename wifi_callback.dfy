/**
 * The older TTLock callback router (`POST /` of the Wi-Fi lock router): it
 * keeps one in-memory "last processed" value, registers the lock as an RFID
 * device, looks the user up by full name or fingerprint, judges the attempt
 * against a zone that it never loads, and always writes one access row.
 */
module WifiCallback {
  import opened Options
  import opened JsValues
  import opened Rows
  import opened Storage
  import opened Policy

  /** The value `lastProcessedId` starts from. */
  const InitialLastProcessedId := Num(0)

  /** The HTTP answers: 400 "Falta lockId", "Evento repetido ignorado", and success. */
  datatype Response = MissingLockId | StaleIgnored | Success

  /** The in-memory `lastProcessedId`, the `dispositivo` table and the `acceso` table. */
  datatype WifiState = WifiState(lastProcessedId: JsValue, devices: map<string, Device>, accessLog: seq<AccessRow>)

  datatype Step = Step(state: WifiState, response: Response)

  function LockIdOf(p: Payload): JsValue {
    OrChain([p.lockId, RecordFields(p.records).lockId])
  }

  function LockMacOf(p: Payload): JsValue {
    OrChain([p.lockMac, RecordFields(p.records).lockMac])
  }

  function UsernameOf(p: Payload): JsValue {
    OrChain([p.username, RecordFields(p.records).username])
  }

  /**
   * The device upsert of this router: a new lock gets a row named
   * `Cerradura-<id>` of kind "RFID" in no zone; a known lock is set active and
   * its MAC is overwritten with whatever the callback carries.
   */
  function RegisterDevice(devices: map<string, Device>, lockId: JsValue, lockMac: JsValue): (r: map<string, Device>)
    ensures r.Keys == devices.Keys + {Text(lockId)}
    ensures forall k :: k in devices && k != Text(lockId) ==> r[k] == devices[k]
    ensures r[Text(lockId)].status == "Activo" && r[Text(lockId)].wifiLock == 1 && r[Text(lockId)].lockKey == lockMac
    ensures Text(lockId) in devices ==>
      var prev := devices[Text(lockId)];
      r[Text(lockId)].name == prev.name && r[Text(lockId)].kind == prev.kind && r[Text(lockId)].zoneId == prev.zoneId
    ensures Text(lockId) !in devices ==>
      r[Text(lockId)].name == "Cerradura-" + Text(lockId) && r[Text(lockId)].kind == "RFID" && r[Text(lockId)].zoneId == Null
  {
    var key := Text(lockId);
    if key !in devices then devices[key := Device("Cerradura-" + key, "RFID", "Activo", lockMac, 1, Null)]
    else devices[key := devices[key].(status := "Activo", lockKey := lockMac, wifiLock := 1)]
  }

  /** The user query by full name or fingerprint; a missing name (SQL NULL) matches no row. */
  function LookupUser(users: seq<User>, username: JsValue): (r: Option<User>)
    ensures username == Null ==> r.None?
    ensures r.Some? ==> r.value in users && Matches(ByNameOrFingerprint, r.value, Text(username))
    ensures username != Null && r.None? ==> forall u :: u in users ==> !Matches(ByNameOrFingerprint, u, Text(username))
  {
    if username == Null then None else FindUser(users, ByNameOrFingerprint, Text(username))
  }

  /**
   * The decision of this router: authorized only when both a user and a zone
   * are known and the user's level is at least the zone's (`>=` on the raw
   * column values); a known pair with a lower level is refused for the level;
   * anything else keeps the initial "Usuario no autorizado".
   */
  function Decide(user: Option<User>, zone: Option<Zone>): (d: Decision)
    ensures d.estado == Autorizado <==> d.motivo.None?
    ensures d.estado == Autorizado <==>
      user.Some? && zone.Some? && JsLessEq(zone.value.securityLevel, user.value.level)
    ensures d.motivo == Some(InsufficientLevel) <==>
      user.Some? && zone.Some? && !JsLessEq(zone.value.securityLevel, user.value.level)
    ensures d.motivo == Some(NotAuthorized) <==> user.None? || zone.None?
  {
    if user.Some? && zone.Some? then
      if JsLessEq(zone.value.securityLevel, user.value.level) then Decision(Autorizado, None)
      else Decision(Denegado, Some(InsufficientLevel))
    else Decision(Denegado, Some(NotAuthorized))
  }

  /** The `acceso` row this router writes; `currentZone` is always null here. */
  function AccessRowFor(p: Payload, lockId: JsValue, user: Option<User>): AccessRow {
    var d := Decide(user, None);
    AccessRow(if user.Some? then OrChain([user.value.id, Null]) else Null,
              Null,
              OrChain([RecordFields(p.records).recordType, Str("Huella")]),
              "TTLock WiFi",
              lockId,
              d.estado,
              d.motivo,
              Null)
  }

  /** One callback: the lock-id check, the "old event" check against `lastProcessedId`, then the writes. */
  function Handle(users: seq<User>, s: WifiState, p: Payload): Step {
    var lockId := LockIdOf(p);
    if !Truthy(lockId) then Step(s, MissingLockId)
    else if JsLessEq(lockId, s.lastProcessedId) then Step(s, StaleIgnored)
    else
      var user := LookupUser(users, UsernameOf(p));
      Step(WifiState(lockId,
                     RegisterDevice(s.devices, lockId, LockMacOf(p)),
                     s.accessLog + [AccessRowFor(p, lockId, user)]),
           Success)
  }

  /** The decision as the router computes it, starting from "Denegado" / "Usuario no autorizado". */
  method DecideAccess(user: Option<User>, currentZone: Option<Zone>) returns (estadoAcceso: AccessState, motivo: Option<string>)
    ensures Decision(estadoAcceso, motivo) == Decide(user, currentZone)
  {
    estadoAcceso := Denegado;
    motivo := Some(NotAuthorized);
    if user.Some? && currentZone.Some? {
      if JsLessEq(currentZone.value.securityLevel, user.value.level) {
        estadoAcceso := Autorizado;
        motivo := None;
      } else {
        motivo := Some(InsufficientLevel);
      }
    }
  }

  class WifiRouter {
    var lastProcessedId: JsValue
    var devices: map<string, Device>
    var accessLog: seq<AccessRow>

    function State(): WifiState
      reads this
    {
      WifiState(lastProcessedId, devices, accessLog)
    }

    /** A freshly loaded router: `lastProcessedId` is 0, nothing logged, the given device table. */
    constructor (devices: map<string, Device>)
      ensures State() == WifiState(InitialLastProcessedId, devices, [])
    {
      lastProcessedId := InitialLastProcessedId;
      this.devices := devices;
      accessLog := [];
    }

    /** Handles one callback, doing in place what `Handle` describes. */
    method HandleCallback(users: seq<User>, p: Payload) returns (response: Response)
      modifies this
      ensures Step(State(), response) == Handle(users, old(State()), p)
    {
      var rec := RecordFields(p.records);
      var lockId := OrChain([p.lockId, rec.lockId]);
      var lockMac := OrChain([p.lockMac, rec.lockMac]);
      if !Truthy(lockId) {
        return MissingLockId;
      }
      if JsLessEq(lockId, lastProcessedId) {
        return StaleIgnored;
      }
      lastProcessedId := lockId;

      var key := Text(lockId);
      if key !in devices {
        devices := devices[key := Device("Cerradura-" + key, "RFID", "Activo", lockMac, 1, Null)];
      } else {
        devices := devices[key := devices[key].(status := "Activo", lockKey := lockMac, wifiLock := 1)];
      }

      var username := OrChain([p.username, rec.username]);
      var user := if username == Null then None else FindUser(users, ByNameOrFingerprint, Text(username));
      var currentZone: Option<Zone> := None;
      var estadoAcceso, motivo := DecideAccess(user, currentZone);
      var userId := if user.Some? then OrChain([user.value.id, Null]) else Null;
      accessLog := accessLog + [AccessRow(userId, Null, OrChain([rec.recordType, Str("Huella")]), "TTLock WiFi",
                                          lockId, estadoAcceso, motivo, Null)];
      return Success;
    }
  }
}
