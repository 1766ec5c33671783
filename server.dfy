/**
 * The `/api/ttlock/callback` webhook of the desktop server: a callback from
 * the TTLock cloud is deduplicated per lock, the lock is registered as a
 * device, the person is identified by fingerprint, card or name, the
 * attempt is judged against the zone's schedule and security level, the
 * decision is written to the access log and announced, and an authorized
 * attempt opens the lock through the cloud or through the bridges.
 *
 * `Handle` is the whole handler as one state transition; the class `Server`
 * performs the same steps in place and is proved to agree with it.
 */
module ServerCallback {
  import opened Options
  import opened JsValues
  import opened Rows
  import opened Storage
  import opened Policy

  /** A second callback for the same lock within this many milliseconds is a redelivery. */
  const RedeliveryWindowMs := 3000
  /** An identity-less denial this soon after an authorization on the lock is dropped. */
  const LocalEchoWindowMs := 5000

  /** The read-only inputs: the `usuarios` and `zonas` tables and the `HAS_GATEWAY` variable. */
  datatype Env = Env(users: seq<User>, zones: seq<Zone>, hasGateway: Option<string>)

  /** `process.env.HAS_GATEWAY === "true"`. */
  predicate GatewayPaired(env: Env) {
    env.hasGateway == Some("true")
  }

  /** The separate readings of `Date.now()` and of the local time of day one callback makes. */
  datatype Clock = Clock(
    receivedMs: int,     // the redelivery check and mark
    secondsOfDay: int,   // the schedule check
    echoCheckMs: int,    // the identity-less echo check
    authorizedMs: int,   // the authorization mark
    notifiedMs: int      // the timestamp of the announcement
  )

  /** The `user` object of an announcement: id and full name. */
  datatype UserSummary = UserSummary(id: JsValue, name: string)

  /** What the handler hands to the bridges and to the cloud. */
  datatype Notice =
    | AccessAttempt(lockId: JsValue, user: UserSummary, estado: AccessState, motivo: Option<string>, timestamp: int)
    | UnlockCommand(lockId: JsValue, userId: JsValue)
    | CloudUnlock(lockId: JsValue)

  predicate IsUnlock(n: Notice) {
    n.UnlockCommand? || n.CloudUnlock?
  }

  /** The HTTP answers: 400 "Falta lockId", the duplicate notice, `ignored: true`, and success. */
  datatype Response = MissingLockId | DuplicateIgnored | Ignored | Success

  /**
   * The state the handler changes: the in-memory `lastAccessEvent` map (lock
   * ids and `authorized_<lockId>` keys share it), the `dispositivo` table keyed
   * by the text of the lock id, the `acceso` table, and the notices sent.
   */
  datatype ServerState = ServerState(
    lastAccessEvent: map<JsValue, int>,
    devices: map<string, Device>,
    accessLog: seq<AccessRow>,
    outbox: seq<Notice>
  )

  datatype Step = Step(state: ServerState, response: Response)

  // ---------------------------------------------------------------------
  // Reading the callback body
  // ---------------------------------------------------------------------

  function LockIdOf(p: Payload): JsValue {
    var rec := RecordFields(p.records);
    OrChain([p.lockId, rec.lockId, rec.doorId, Null])
  }

  function UsernameOf(p: Payload): JsValue {
    var rec := RecordFields(p.records);
    OrChain([p.username, rec.senderUsername, rec.username, rec.fingerprintName, rec.cardName, Null])
  }

  function FingerprintOf(p: Payload): JsValue {
    var rec := RecordFields(p.records);
    OrChain([rec.fingerprintNumber, rec.fingerprintId, Null])
  }

  function CardOf(p: Payload): JsValue {
    var rec := RecordFields(p.records);
    OrChain([rec.cardNumber, rec.cardId, Null])
  }

  /** The key `authorized_${lockId}` under which the last authorization is kept. */
  function AuthorizedKey(lockId: JsValue): JsValue {
    Str("authorized_" + Text(lockId))
  }

  /** The authorization key of a lock is never the lock's own key. */
  lemma AuthorizedKeyIsNotALockId(lockId: JsValue)
    ensures AuthorizedKey(lockId) != lockId
  {
    if lockId.Str? {
      assert |AuthorizedKey(lockId).s| == |"authorized_"| + |lockId.s|;
    }
  }

  /** `last && now - last < window` for the mark stored under `key`. */
  predicate Recent(marks: map<JsValue, int>, key: JsValue, now: int, window: int) {
    key in marks && marks[key] != 0 && now - marks[key] < window
  }

  // ---------------------------------------------------------------------
  // The steps of the handler
  // ---------------------------------------------------------------------

  /**
   * The device upsert: a new lock gets a row named `Cerradura-<id>` of kind
   * "TTLock" bound to no zone; a known lock is set active with its MAC kept
   * unless the callback brings one.
   */
  function RegisterDevice(devices: map<string, Device>, lockId: JsValue, recordMac: JsValue, bodyMac: JsValue): (r: map<string, Device>)
    ensures r.Keys == devices.Keys + {Text(lockId)}
    ensures forall k :: k in devices && k != Text(lockId) ==> r[k] == devices[k]
    ensures r[Text(lockId)].status == "Activo" && r[Text(lockId)].wifiLock == 1
    ensures Text(lockId) in devices ==>
      var prev := devices[Text(lockId)];
      r[Text(lockId)] == prev.(status := "Activo", lockKey := OrChain([recordMac, bodyMac, prev.lockKey]), wifiLock := 1)
    ensures Text(lockId) !in devices ==>
      r[Text(lockId)] == Device("Cerradura-" + Text(lockId), "TTLock", "Activo", OrChain([recordMac, bodyMac, Null]), 1, Null)
  {
    var key := Text(lockId);
    if key !in devices then
      devices[key := Device("Cerradura-" + key, "TTLock", "Activo", OrChain([recordMac, bodyMac, Null]), 1, Null)]
    else
      var d := devices[key];
      devices[key := d.(status := "Activo", lockKey := OrChain([recordMac, bodyMac, d.lockKey]), wifiLock := 1)]
  }

  /** The three lookups in order: by fingerprint, then by card, then by name, each only while nobody is found. */
  function ResolveUser(users: seq<User>, fingerprint: JsValue, card: JsValue, username: JsValue): Option<User> {
    var byFingerprint :=
      if Truthy(fingerprint) then FindUser(users, ByFingerprintCardOrName, Text(fingerprint)) else None;
    var byCard :=
      if byFingerprint.None? && Truthy(card) then FindUser(users, ByFingerprintCardOrName, Text(card)) else byFingerprint;
    if byCard.None? && Truthy(username) then FindUser(users, ByFingerprintCardOrName, Text(username)) else byCard
  }

  /** A present token that some user row matches. */
  predicate Identifies(users: seq<User>, token: JsValue) {
    Truthy(token) && FindUser(users, ByFingerprintCardOrName, Text(token)).Some?
  }

  /** The callback is past the lock-id check and the redelivery check. */
  predicate Accepts(s: ServerState, p: Payload, c: Clock) {
    Truthy(LockIdOf(p)) && !Recent(s.lastAccessEvent, LockIdOf(p), c.receivedMs, RedeliveryWindowMs)
  }

  /** The state once a callback is accepted: the lock is marked and registered. */
  function Admit(s: ServerState, p: Payload, c: Clock): ServerState {
    var rec := RecordFields(p.records);
    var lockId := LockIdOf(p);
    s.(lastAccessEvent := s.lastAccessEvent[lockId := c.receivedMs],
       devices := RegisterDevice(s.devices, lockId, rec.lockMac, p.lockMac))
  }

  function UserOf(env: Env, p: Payload): Option<User> {
    ResolveUser(env.users, FingerprintOf(p), CardOf(p), UsernameOf(p))
  }

  /** The zone of the (just registered) lock. */
  function ZoneOf(env: Env, s: ServerState, p: Payload, c: Clock): Option<Zone> {
    ZoneForDevice(Admit(s, p, c).devices, env.zones, Text(LockIdOf(p)))
  }

  function DecisionOf(env: Env, s: ServerState, p: Payload, c: Clock): Decision {
    Classify(UserOf(env, p), ZoneOf(env, s, p, c), c.secondsOfDay)
  }

  /** The `acceso` row written for an identified user. */
  function AccessRowFor(p: Payload, lockId: JsValue, user: User, zone: Option<Zone>, d: Decision): AccessRow {
    var rec := RecordFields(p.records);
    AccessRow(user.id,
              if zone.Some? then OrChain([zone.value.id, Null]) else Null,
              OrChain([rec.recordType, Str("Huella")]),
              "TTLock Callback",
              lockId,
              d.estado,
              d.motivo,
              OrChain([CardOf(p), Null]))
  }

  /** The announcement, followed for an authorized attempt by one unlock request. */
  function NoticesFor(env: Env, lockId: JsValue, user: User, d: Decision, c: Clock): seq<Notice> {
    var attempt := AccessAttempt(lockId, UserSummary(user.id, FullName(user)), d.estado, d.motivo, c.notifiedMs);
    if d.estado != Autorizado then [attempt]
    else if GatewayPaired(env) then [attempt, CloudUnlock(lockId)]
    else [attempt, UnlockCommand(lockId, OrChain([user.id, Null]))]
  }

  /** One callback, from the state before it to the state after it and the answer. */
  function Handle(env: Env, s: ServerState, p: Payload, c: Clock): Step {
    var lockId := LockIdOf(p);
    if !Truthy(lockId) then Step(s, MissingLockId)
    else if Recent(s.lastAccessEvent, lockId, c.receivedMs, RedeliveryWindowMs) then Step(s, DuplicateIgnored)
    else
      var admitted := Admit(s, p, c);
      var user := UserOf(env, p);
      var zone := ZoneOf(env, s, p, c);
      var d := Classify(user, zone, c.secondsOfDay);
      if d.estado == Denegado && user.None?
         && Recent(admitted.lastAccessEvent, AuthorizedKey(lockId), c.echoCheckMs, LocalEchoWindowMs)
      then Step(admitted, Ignored)
      else
        var marked :=
          if d.estado == Autorizado
          then admitted.(lastAccessEvent := admitted.lastAccessEvent[AuthorizedKey(lockId) := c.authorizedMs])
          else admitted;
        if user.None? || !Truthy(user.value.id) then Step(marked, Ignored)
        else
          Step(marked.(accessLog := marked.accessLog + [AccessRowFor(p, lockId, user.value, zone, d)],
                       outbox := marked.outbox + NoticesFor(env, lockId, user.value, d, c)),
               Success)
  }

  // ---------------------------------------------------------------------
  // The handler in place
  // ---------------------------------------------------------------------

  /** The user lookups of the handler, run one after another. */
  method IdentifyUser(users: seq<User>, fingerprintNumber: JsValue, cardNumber: JsValue, usernameFromLock: JsValue)
    returns (user: Option<User>)
    ensures user == ResolveUser(users, fingerprintNumber, cardNumber, usernameFromLock)
  {
    user := None;
    if Truthy(fingerprintNumber) {
      user := FindUser(users, ByFingerprintCardOrName, Text(fingerprintNumber));
    }
    if user.None? && Truthy(cardNumber) {
      user := FindUser(users, ByFingerprintCardOrName, Text(cardNumber));
    }
    if user.None? && Truthy(usernameFromLock) {
      user := FindUser(users, ByFingerprintCardOrName, Text(usernameFromLock));
    }
  }

  /** The decision of the handler, starting from "Denegado" / "Usuario no autorizado". */
  method Decide(user: Option<User>, currentZone: Option<Zone>, secondsOfDay: int)
    returns (estado: AccessState, motivo: Option<string>)
    ensures Decision(estado, motivo) == Classify(user, currentZone, secondsOfDay)
  {
    estado := Denegado;
    motivo := Some(NotAuthorized);
    if user.Some? {
      if !IsWithinSchedule(currentZone, secondsOfDay) {
        motivo := Some(OutsideSchedule);
      } else if !HasRequiredLevel(user, currentZone) {
        motivo := Some(InsufficientLevel);
      } else {
        estado := Autorizado;
        motivo := None;
      }
    } else {
      motivo := Some(NotFound);
    }
  }

  class Server {
    var lastAccessEvent: map<JsValue, int>
    var devices: map<string, Device>
    var accessLog: seq<AccessRow>
    var outbox: seq<Notice>

    function State(): ServerState
      reads this
    {
      ServerState(lastAccessEvent, devices, accessLog, outbox)
    }

    /** A freshly started server: no marks, nothing logged or sent, the given device table. */
    constructor (devices: map<string, Device>)
      ensures State() == ServerState(map[], devices, [], [])
    {
      lastAccessEvent := map[];
      this.devices := devices;
      accessLog := [];
      outbox := [];
    }

    /** Handles one callback, doing in place what `Handle` describes. */
    method HandleCallback(env: Env, p: Payload, c: Clock) returns (response: Response)
      modifies this
      ensures Step(State(), response) == Handle(env, old(State()), p, c)
    {
      ghost var before := State();
      var rec := RecordFields(p.records);
      var lockId := OrChain([p.lockId, rec.lockId, rec.doorId, Null]);
      assert lockId == LockIdOf(p);
      if !Truthy(lockId) {
        return MissingLockId;
      }
      if lockId in lastAccessEvent {
        var last := lastAccessEvent[lockId];
        if last != 0 && c.receivedMs - last < RedeliveryWindowMs {
          return DuplicateIgnored;
        }
      }
      RegisterLock(p, lockId, c);

      var usernameFromLock := OrChain([p.username, rec.senderUsername, rec.username, rec.fingerprintName, rec.cardName, Null]);
      var fingerprintNumber := OrChain([rec.fingerprintNumber, rec.fingerprintId, Null]);
      var cardNumber := OrChain([rec.cardNumber, rec.cardId, Null]);
      var currentZone := ZoneForDevice(devices, env.zones, Text(lockId));
      var user := IdentifyUser(env.users, fingerprintNumber, cardNumber, usernameFromLock);
      var estado, motivo := Decide(user, currentZone, c.secondsOfDay);

      if estado == Denegado && user.None? {
        var authKey := AuthorizedKey(lockId);
        if authKey in lastAccessEvent {
          var lastAuthorized := lastAccessEvent[authKey];
          if lastAuthorized != 0 && c.echoCheckMs - lastAuthorized < LocalEchoWindowMs {
            return Ignored;
          }
        }
      }
      if estado == Autorizado {
        lastAccessEvent := lastAccessEvent[AuthorizedKey(lockId) := c.authorizedMs];
      }
      if user.None? || !Truthy(user.value.id) {
        return Ignored;
      }
      Record(env, p, lockId, user.value, currentZone, Decision(estado, motivo), c);
      return Success;
    }

    /** Marks the lock as just seen and registers or refreshes its device row. */
    method RegisterLock(p: Payload, lockId: JsValue, c: Clock)
      requires lockId == LockIdOf(p)
      modifies this
      ensures State() == Admit(old(State()), p, c)
    {
      var rec := RecordFields(p.records);
      lastAccessEvent := lastAccessEvent[lockId := c.receivedMs];
      var key := Text(lockId);
      if key !in devices {
        devices := devices[key := Device("Cerradura-" + key, "TTLock", "Activo", OrChain([rec.lockMac, p.lockMac, Null]), 1, Null)];
      } else {
        var row := devices[key];
        devices := devices[key := row.(status := "Activo", lockKey := OrChain([rec.lockMac, p.lockMac, row.lockKey]), wifiLock := 1)];
      }
    }

    /** Writes the access row, announces the attempt and, when authorized, asks for the lock to open. */
    method Record(env: Env, p: Payload, lockId: JsValue, user: User, currentZone: Option<Zone>, d: Decision, c: Clock)
      modifies this
      ensures State() == old(State()).(accessLog := old(accessLog) + [AccessRowFor(p, lockId, user, currentZone, d)],
                                       outbox := old(outbox) + NoticesFor(env, lockId, user, d, c))
    {
      var rec := RecordFields(p.records);
      var cardNumber := OrChain([rec.cardNumber, rec.cardId, Null]);
      var zoneId := if currentZone.Some? then OrChain([currentZone.value.id, Null]) else Null;
      accessLog := accessLog + [AccessRow(user.id, zoneId, OrChain([rec.recordType, Str("Huella")]),
                                          "TTLock Callback", lockId, d.estado, d.motivo, OrChain([cardNumber, Null]))];
      var attempt := AccessAttempt(lockId, UserSummary(user.id, FullName(user)), d.estado, d.motivo, c.notifiedMs);
      outbox := outbox + [attempt];
      if d.estado == Autorizado {
        if env.hasGateway == Some("true") {
          outbox := outbox + [CloudUnlock(lockId)];
          assert outbox == old(outbox) + [attempt, CloudUnlock(lockId)];
        } else {
          outbox := outbox + [UnlockCommand(lockId, OrChain([user.id, Null]))];
          assert outbox == old(outbox) + [attempt, UnlockCommand(lockId, OrChain([user.id, Null]))];
        }
      }
    }
  }
}
