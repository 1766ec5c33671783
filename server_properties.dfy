/**
 * What the desktop server's callback handler guarantees, stated over the
 * transition `Handle` and over runs of several callbacks.
 */
module ServerProperties {
  import opened Options
  import opened JsValues
  import opened Rows
  import opened Storage
  import opened Policy
  import opened ServerCallback

  // ---------------------------------------------------------------------
  // The lock-id and redelivery checks
  // ---------------------------------------------------------------------

  /**
   * Where the lock id comes from: the body's `lockId` when it is set;
   * otherwise the first parsed record's `lockId`, then its `doorId`. Without
   * a parsed record and a body `lockId` there is no lock id, and the callback
   * is refused with 400.
   */
  lemma LockIdSources(env: Env, s: ServerState, p: Payload, c: Clock)
    ensures Truthy(p.lockId) ==> LockIdOf(p) == p.lockId
    ensures !Truthy(p.lockId) && p.records.Parsed? && |p.records.items| > 0 ==>
      var rec := p.records.items[0];
      && (Truthy(rec.lockId) ==> LockIdOf(p) == rec.lockId)
      && (!Truthy(rec.lockId) && Truthy(rec.doorId) ==> LockIdOf(p) == rec.doorId)
      && (!Truthy(rec.lockId) && !Truthy(rec.doorId) ==> Handle(env, s, p, c) == Step(s, MissingLockId))
    ensures !Truthy(p.lockId) && !(p.records.Parsed? && |p.records.items| > 0) ==>
      Handle(env, s, p, c) == Step(s, MissingLockId)
  {
    var rec := RecordFields(p.records);
    var vs := [p.lockId, rec.lockId, rec.doorId, Null];
    if !Truthy(p.lockId) {
      assert LockIdOf(p) == OrChain(vs[1..]);
      assert vs[1..][1..] == [rec.doorId, Null];
      assert vs[1..][1..][1..] == [Null];
    }
  }

  /** A callback without a lock id, or a redelivery, is answered without touching anything. */
  lemma RejectedCallbackChangesNothing(env: Env, s: ServerState, p: Payload, c: Clock)
    requires !Accepts(s, p, c)
    ensures Handle(env, s, p, c).state == s
    ensures Handle(env, s, p, c).response == if Truthy(LockIdOf(p)) then DuplicateIgnored else MissingLockId
  {
  }

  /**
   * An accepted callback leaves the lock's mark at the time it was received,
   * and no key other than the lock's and its authorization key changes.
   */
  lemma AcceptedCallbackMarksLock(env: Env, s: ServerState, p: Payload, c: Clock)
    requires Accepts(s, p, c)
    ensures var st := Handle(env, s, p, c);
      && st.response in {Ignored, Success}
      && LockIdOf(p) in st.state.lastAccessEvent
      && st.state.lastAccessEvent[LockIdOf(p)] == c.receivedMs
      && st.state.lastAccessEvent.Keys <= s.lastAccessEvent.Keys + {LockIdOf(p), AuthorizedKey(LockIdOf(p))}
      && forall k :: k in s.lastAccessEvent && k != LockIdOf(p) && k != AuthorizedKey(LockIdOf(p)) ==>
           k in st.state.lastAccessEvent && st.state.lastAccessEvent[k] == s.lastAccessEvent[k]
  {
    AuthorizedKeyIsNotALockId(LockIdOf(p));
  }

  /**
   * The same body delivered again less than three seconds after it was
   * accepted is dropped, so a redelivery adds at most one access row.
   * (A mark of 0 is falsy, hence `c1.receivedMs != 0`.)
   */
  lemma RedeliveryIsDropped(env: Env, s: ServerState, p: Payload, c1: Clock, c2: Clock)
    requires Accepts(s, p, c1)
    requires c1.receivedMs != 0 && c2.receivedMs - c1.receivedMs < RedeliveryWindowMs
    ensures var s1 := Handle(env, s, p, c1).state;
      && Handle(env, s1, p, c2) == Step(s1, DuplicateIgnored)
      && |s1.accessLog| <= |s.accessLog| + 1
  {
    AcceptedCallbackMarksLock(env, s, p, c1);
  }

  // ---------------------------------------------------------------------
  // Identification, the echo filter and the record gate
  // ---------------------------------------------------------------------

  /**
   * The lookups stop at the first token that finds a user: fingerprint,
   * then card, then name; nobody is found only when no present token matches.
   */
  lemma ResolutionPriority(users: seq<User>, fingerprint: JsValue, card: JsValue, username: JsValue)
    ensures var u := ResolveUser(users, fingerprint, card, username);
      && (Identifies(users, fingerprint) ==> u == FindUser(users, ByFingerprintCardOrName, Text(fingerprint)))
      && (!Identifies(users, fingerprint) && Identifies(users, card) ==>
            u == FindUser(users, ByFingerprintCardOrName, Text(card)))
      && (!Identifies(users, fingerprint) && !Identifies(users, card) && Identifies(users, username) ==>
            u == FindUser(users, ByFingerprintCardOrName, Text(username)))
      && (u.None? <==> !Identifies(users, fingerprint) && !Identifies(users, card) && !Identifies(users, username))
  {
  }

  /**
   * A callback that identifies nobody is ignored after the lock is marked and
   * registered, whatever the authorization marks and the clock say: it writes
   * no access row and sends nothing. The five-second filter for such events
   * therefore changes no outcome.
   */
  lemma IdentitylessEventLeavesNoTrace(env: Env, s: ServerState, p: Payload, c: Clock)
    requires Accepts(s, p, c) && UserOf(env, p).None?
    ensures Handle(env, s, p, c) == Step(Admit(s, p, c), Ignored)
  {
    assert DecisionOf(env, s, p, c).estado == Denegado;
  }

  /**
   * An access row is written, and the attempt announced, exactly when the
   * callback is accepted and identifies a user with an id; the row names that
   * user, the lock and the decision. Otherwise the log and the notices stay.
   */
  lemma RecordOnlyForIdentifiedUser(env: Env, s: ServerState, p: Payload, c: Clock)
    ensures var st := Handle(env, s, p, c);
      && (st.response == Success <==> Accepts(s, p, c) && UserOf(env, p).Some? && Truthy(UserOf(env, p).value.id))
      && (st.response != Success ==> st.state.accessLog == s.accessLog && st.state.outbox == s.outbox)
      && (st.response == Success ==>
            && |st.state.accessLog| == |s.accessLog| + 1
            && st.state.accessLog[..|s.accessLog|] == s.accessLog
            && var row := st.state.accessLog[|s.accessLog|];
               && row.userId == UserOf(env, p).value.id
               && row.deviceId == LockIdOf(p)
               && row.deviceKind == "TTLock Callback"
               && row.estado == DecisionOf(env, s, p, c).estado
               && row.motivo == DecisionOf(env, s, p, c).motivo
               && row.zoneId == (if ZoneOf(env, s, p, c).Some? then OrChain([ZoneOf(env, s, p, c).value.id, Null]) else Null)
               && row.accessType == OrChain([RecordFields(p.records).recordType, Str("Huella")])
               && row.cardId == OrChain([CardOf(p), Null]))
  {
    var st := Handle(env, s, p, c);
    if st.response == Success {
      assert st.state.accessLog[..|s.accessLog|] == s.accessLog;
    }
  }

  // ---------------------------------------------------------------------
  // Authorization and unlocking
  // ---------------------------------------------------------------------

  /**
   * For an identified user the handler announces the attempt, and after an
   * authorization asks exactly once for the lock to open: through the cloud
   * when a gateway is paired, through the bridges otherwise. A denial sends
   * no unlock.
   */
  lemma UnlockFollowsAuthorization(env: Env, s: ServerState, p: Payload, c: Clock)
    requires Accepts(s, p, c) && UserOf(env, p).Some? && Truthy(UserOf(env, p).value.id)
    ensures var st := Handle(env, s, p, c);
      var user := UserOf(env, p).value;
      var d := DecisionOf(env, s, p, c);
      var attempt := AccessAttempt(LockIdOf(p), UserSummary(user.id, FullName(user)), d.estado, d.motivo, c.notifiedMs);
      st.state.outbox ==
        s.outbox + [attempt] +
        if d.estado == Denegado then []
        else if GatewayPaired(env) then [CloudUnlock(LockIdOf(p))]
        else [UnlockCommand(LockIdOf(p), user.id)]
  {
  }

  /**
   * An authorization leaves its mark under `authorized_<lockId>` at the time
   * it was taken; a denial leaves that mark as it was.
   */
  lemma AuthorizationIsMarked(env: Env, s: ServerState, p: Payload, c: Clock)
    requires Accepts(s, p, c)
    ensures var st := Handle(env, s, p, c).state;
      var key := AuthorizedKey(LockIdOf(p));
      && (DecisionOf(env, s, p, c).estado == Autorizado ==>
            key in st.lastAccessEvent && st.lastAccessEvent[key] == c.authorizedMs)
      && (DecisionOf(env, s, p, c).estado == Denegado ==>
            (key in st.lastAccessEvent <==> key in s.lastAccessEvent)
            && (key in s.lastAccessEvent ==> st.lastAccessEvent[key] == s.lastAccessEvent[key]))
  {
    AuthorizedKeyIsNotALockId(LockIdOf(p));
  }

  /**
   * On a lock bound to an unscheduled zone with a numeric level, a user with
   * a numeric level is authorized, and the lock opened, exactly when that
   * level reaches the zone's; otherwise the row records the level as reason.
   */
  lemma LevelDecidesOnUnscheduledZone(env: Env, s: ServerState, p: Payload, c: Clock, u: User, z: Zone, userLevel: int, zoneLevel: int)
    requires Accepts(s, p, c) && UserOf(env, p) == Some(u) && Truthy(u.id)
    requires ZoneOf(env, s, p, c) == Some(z) && z.scheduleStart.None?
    requires u.level == Num(userLevel) && z.securityLevel == Num(zoneLevel) && zoneLevel != 0
    ensures DecisionOf(env, s, p, c) ==
      if userLevel >= zoneLevel then Decision(Autorizado, None) else Decision(Denegado, Some(InsufficientLevel))
    ensures (exists n :: n in Handle(env, s, p, c).state.outbox[|s.outbox|..] && IsUnlock(n)) <==> userLevel >= zoneLevel
  {
    UnscheduledZoneAlwaysOpen(Some(z), c.secondsOfDay);
    LevelCheckOnNumbers(u, z, userLevel, zoneLevel);
    UnlockFollowsAuthorization(env, s, p, c);
    var added := Handle(env, s, p, c).state.outbox[|s.outbox|..];
    if userLevel >= zoneLevel {
      assert IsUnlock(added[1]);
    } else {
      assert added == [added[0]];
    }
  }

  // ---------------------------------------------------------------------
  // Device registration
  // ---------------------------------------------------------------------

  /**
   * An accepted callback leaves the lock registered, active and marked as a
   * Wi-Fi lock; an existing row keeps its name, kind and zone, a new row is
   * `Cerradura-<id>` of kind "TTLock" in no zone; other devices stay.
   */
  lemma DeviceRegistration(env: Env, s: ServerState, p: Payload, c: Clock)
    requires Accepts(s, p, c)
    ensures var devices := Handle(env, s, p, c).state.devices;
      var key := Text(LockIdOf(p));
      && key in devices && devices[key].status == "Activo" && devices[key].wifiLock == 1
      && (key in s.devices ==>
            && devices[key].name == s.devices[key].name
            && devices[key].kind == s.devices[key].kind
            && devices[key].zoneId == s.devices[key].zoneId)
      && (key !in s.devices ==>
            devices[key].name == "Cerradura-" + key && devices[key].kind == "TTLock" && devices[key].zoneId == Null)
      && forall k :: k in s.devices && k != key ==> k in devices && devices[k] == s.devices[k]
  {
  }

  /**
   * A lock bound to no zone (in particular one registered by its first
   * callback) joins to a zone with no schedule and no level, so every
   * identified user is authorized there and, with an id, the lock opens.
   */
  lemma UnboundLockAdmitsAnyKnownUser(env: Env, s: ServerState, p: Payload, c: Clock)
    requires Accepts(s, p, c) && UserOf(env, p).Some?
    requires var key := Text(LockIdOf(p)); key !in s.devices || s.devices[key].zoneId == Null
    ensures DecisionOf(env, s, p, c) == Decision(Autorizado, None)
    ensures Truthy(UserOf(env, p).value.id) ==>
      exists n :: n in Handle(env, s, p, c).state.outbox[|s.outbox|..] && IsUnlock(n)
  {
    var zone := ZoneOf(env, s, p, c);
    assert zone == Some(UnjoinedZone);
    UnscheduledZoneAlwaysOpen(zone, c.secondsOfDay);
    NoZoneLevelAdmitsEveryone(UserOf(env, p), zone);
    if Truthy(UserOf(env, p).value.id) {
      UnlockFollowsAuthorization(env, s, p, c);
      var added := Handle(env, s, p, c).state.outbox[|s.outbox|..];
      assert IsUnlock(added[1]);
    }
  }

  // ---------------------------------------------------------------------
  // Runs of callbacks
  // ---------------------------------------------------------------------

  /** One delivered callback with the clock readings it sees. */
  datatype Delivery = Delivery(payload: Payload, clock: Clock)

  /** The state after handling the deliveries in order. */
  function Run(env: Env, s: ServerState, ds: seq<Delivery>): ServerState
    decreases |ds|
  {
    if ds == [] then s else Run(env, Handle(env, s, ds[0].payload, ds[0].clock).state, ds[1..])
  }

  /**
   * An access row as the handler writes it: a user id, a registered lock, the
   * callback's device kind, a reason exactly for a denial, and never
   * "Usuario no encontrado".
   */
  predicate RowWellFormed(row: AccessRow, devices: map<string, Device>) {
    && Truthy(row.userId)
    && Text(row.deviceId) in devices
    && row.deviceKind == "TTLock Callback"
    && (row.estado == Autorizado <==> row.motivo.None?)
    && row.motivo != Some(NotFound)
  }

  /** Every unlock request directly follows the announcement of an authorized attempt on the same lock. */
  predicate UnlocksFollowAuthorizations(outbox: seq<Notice>) {
    forall i :: 0 <= i < |outbox| && IsUnlock(outbox[i]) ==>
      && 0 < i
      && outbox[i - 1].AccessAttempt?
      && outbox[i - 1].estado == Autorizado
      && outbox[i - 1].lockId == outbox[i].lockId
  }

  predicate Consistent(s: ServerState) {
    && (forall i :: 0 <= i < |s.accessLog| ==> RowWellFormed(s.accessLog[i], s.devices))
    && UnlocksFollowAuthorizations(s.outbox)
  }

  /** A freshly started server is consistent. */
  lemma StartIsConsistent(devices: map<string, Device>)
    ensures Consistent(ServerState(map[], devices, [], []))
  {
  }

  /** Rows stay well formed when the device table only gains rows. */
  lemma LogSurvivesRegistration(log: seq<AccessRow>, devices: map<string, Device>, more: map<string, Device>, row: Option<AccessRow>)
    requires devices.Keys <= more.Keys
    requires forall i :: 0 <= i < |log| ==> RowWellFormed(log[i], devices)
    requires row.Some? ==> RowWellFormed(row.value, more)
    ensures var log' := if row.Some? then log + [row.value] else log;
      forall i :: 0 <= i < |log'| ==> RowWellFormed(log'[i], more)
  {
    var log' := if row.Some? then log + [row.value] else log;
    forall i | 0 <= i < |log'|
      ensures RowWellFormed(log'[i], more)
    {
      if i < |log| {
        assert log'[i] == log[i] && RowWellFormed(log[i], devices);
      }
    }
  }

  /** The notices of one attempt keep every unlock right after its authorized announcement. */
  lemma NoticesKeepOrder(outbox: seq<Notice>, env: Env, lockId: JsValue, user: User, d: Decision, c: Clock)
    requires UnlocksFollowAuthorizations(outbox)
    ensures UnlocksFollowAuthorizations(outbox + NoticesFor(env, lockId, user, d, c))
  {
    var notices := NoticesFor(env, lockId, user, d, c);
    var o := outbox + notices;
    forall i | 0 <= i < |o| && IsUnlock(o[i])
      ensures 0 < i && o[i - 1].AccessAttempt? && o[i - 1].estado == Autorizado && o[i - 1].lockId == o[i].lockId
    {
      if i < |outbox| {
        assert o[i] == outbox[i] && o[i - 1] == outbox[i - 1];
      } else {
        assert o[i] == notices[i - |outbox|];
        assert i - |outbox| == 1;
        assert o[i - 1] == notices[0];
      }
    }
  }

  /** Each callback keeps the log and the notices consistent and only appends to them. */
  lemma HandleKeepsConsistent(env: Env, s: ServerState, p: Payload, c: Clock)
    requires Consistent(s)
    ensures var st := Handle(env, s, p, c).state;
      Consistent(st) && s.accessLog <= st.accessLog && s.outbox <= st.outbox
  {
    var st := Handle(env, s, p, c);
    if Accepts(s, p, c) {
      var devices := Admit(s, p, c).devices;
      assert st.state.devices == devices;
      if st.response == Success {
        var user := UserOf(env, p).value;
        var d := DecisionOf(env, s, p, c);
        var lockId := LockIdOf(p);
        var row := AccessRowFor(p, lockId, user, ZoneOf(env, s, p, c), d);
        assert st.state.accessLog == s.accessLog + [row];
        assert st.state.outbox == s.outbox + NoticesFor(env, lockId, user, d, c);
        LogSurvivesRegistration(s.accessLog, s.devices, devices, Some(row));
        NoticesKeepOrder(s.outbox, env, lockId, user, d, c);
      } else {
        RecordOnlyForIdentifiedUser(env, s, p, c);
        LogSurvivesRegistration(s.accessLog, s.devices, devices, None);
      }
    }
  }

  /** Over any run of callbacks from a consistent state, the state stays consistent and the log only grows. */
  lemma {:induction false} RunKeepsConsistent(env: Env, s: ServerState, ds: seq<Delivery>)
    requires Consistent(s)
    ensures Consistent(Run(env, s, ds))
    ensures s.accessLog <= Run(env, s, ds).accessLog
    ensures s.outbox <= Run(env, s, ds).outbox
    decreases |ds|
  {
    if ds != [] {
      var s1 := Handle(env, s, ds[0].payload, ds[0].clock).state;
      HandleKeepsConsistent(env, s, ds[0].payload, ds[0].clock);
      RunKeepsConsistent(env, s1, ds[1..]);
    }
  }
}
