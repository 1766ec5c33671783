/**
 * What the older callback router does, stated over its transition `Handle`
 * and over runs of several callbacks.
 */
module WifiProperties {
  import opened Options
  import opened JsValues
  import opened Rows
  import opened Storage
  import opened Policy
  import opened WifiCallback

  /** A callback without a lock id, or one whose id is not above `lastProcessedId`, changes nothing. */
  lemma RejectedCallbackChangesNothing(users: seq<User>, s: WifiState, p: Payload)
    requires !Truthy(LockIdOf(p)) || JsLessEq(LockIdOf(p), s.lastProcessedId)
    ensures Handle(users, s, p).state == s
    ensures Handle(users, s, p).response == if Truthy(LockIdOf(p)) then StaleIgnored else MissingLockId
  {
  }

  /**
   * Since no zone is ever loaded, the router never authorizes: every decision
   * it takes is a denial for "Usuario no autorizado", whoever the user is.
   */
  lemma NeverAuthorizes(user: Option<User>)
    ensures Decide(user, None) == Decision(Denegado, Some(NotAuthorized))
  {
  }

  /**
   * An accepted callback records its lock id as the last processed value,
   * registers the lock, and appends exactly one row: a denial of the found
   * user (or of nobody) on that lock.
   */
  lemma AcceptedCallbackIsRecorded(users: seq<User>, s: WifiState, p: Payload)
    requires Truthy(LockIdOf(p)) && !JsLessEq(LockIdOf(p), s.lastProcessedId)
    ensures var st := Handle(users, s, p);
      var user := LookupUser(users, UsernameOf(p));
      && st.response == Success
      && st.state.lastProcessedId == LockIdOf(p)
      && st.state.devices == RegisterDevice(s.devices, LockIdOf(p), LockMacOf(p))
      && |st.state.accessLog| == |s.accessLog| + 1
      && st.state.accessLog[..|s.accessLog|] == s.accessLog
      && var row := st.state.accessLog[|s.accessLog|];
         && row.deviceId == LockIdOf(p)
         && row.deviceKind == "TTLock WiFi"
         && row.zoneId == Null
         && row.estado == Denegado && row.motivo == Some(NotAuthorized)
         && (user.None? ==> row.userId == Null)
         && (user.Some? && Truthy(user.value.id) ==> row.userId == user.value.id)
  {
    var st := Handle(users, s, p);
    assert st.state.accessLog[..|s.accessLog|] == s.accessLog;
    NeverAuthorizes(LookupUser(users, UsernameOf(p)));
  }

  /**
   * The "old event" check compares lock ids, so once a lock's callback has
   * been processed the next callback from that lock is ignored, whatever
   * record it carries. (Callbacks from other locks in between can lift this:
   * see `MixedIdsReprocessLock`.)
   */
  lemma SameLockIsIgnoredAfterwards(users: seq<User>, s: WifiState, p: Payload, q: Payload)
    requires Handle(users, s, p).response == Success
    requires LockIdOf(q) == LockIdOf(p)
    ensures Handle(users, Handle(users, s, p).state, q) == Step(Handle(users, s, p).state, StaleIgnored)
  {
    JsLessEqReflexive(LockIdOf(p));
  }

  /**
   * Text ids are compared as text: after the lock "123456" the lock "99999"
   * still passes, while after the number 123456 the number 99999 does not.
   * A text id that is not a number and a numeric id are never `<=` each
   * other, so callbacks from two such locks pass in turn indefinitely.
   */
  lemma TextIdsCompareAsText()
    ensures !JsLessEq(Str("99999"), Str("123456"))
    ensures JsLessEq(Num(99999), Num(123456))
    ensures !JsLessEq(Str("L1"), Num(5)) && !JsLessEq(Num(5), Str("L1"))
  {
    assert StrLess("123456", "99999");
    TextL1IsNotANumber();
  }

  lemma TextL1IsNotANumber()
    ensures StringToNumber("L1").None?
  {
    assert TrimStart("L1") == "L1" && TrimEnd("L1") == "L1";
    assert SignedBody("L1") == "L1" && !IsDigit("L1"[0]);
  }

  /**
   * A non-numeric text lock id (such as "L1") and a numeric one are never
   * `<=` each other, so when
   * callbacks alternate between the lock "L1" (a form-encoded `lockId`) and
   * the lock 5 (a numeric `lockId` from `records`), the lock "L1" is
   * processed again: all three callbacks below succeed and write a row.
   */
  lemma MixedIdsReprocessLock(users: seq<User>, s: WifiState, records: Records)
    requires s.lastProcessedId == InitialLastProcessedId
    ensures var p1 := Payload(Str("L1"), Null, Null, records);
      var p2 := Payload(Num(5), Null, Null, records);
      var s1 := Handle(users, s, p1);
      var s2 := Handle(users, s1.state, p2);
      var s3 := Handle(users, s2.state, p1);
      && s1.response == Success && s2.response == Success && s3.response == Success
      && s3.state.lastProcessedId == Str("L1")
      && |s3.state.accessLog| == |s.accessLog| + 3
  {
    TextL1IsNotANumber();
    var p1 := Payload(Str("L1"), Null, Null, records);
    var p2 := Payload(Num(5), Null, Null, records);
    assert LockIdOf(p1) == Str("L1");
    assert LockIdOf(p2) == Num(5);
  }

  // ---------------------------------------------------------------------
  // Runs of callbacks with numeric lock ids
  // ---------------------------------------------------------------------

  /**
   * With text ids on both sides, an accepted callback's lock id is strictly
   * greater as text than the last processed one, which it then replaces: over
   * runs of text ids `lastProcessedId` only rises in text order.
   */
  lemma TextStepRaises(users: seq<User>, s: WifiState, p: Payload)
    requires s.lastProcessedId.Str? && LockIdOf(p).Str?
    requires Handle(users, s, p).response == Success
    ensures StrLess(s.lastProcessedId.s, LockIdOf(p).s)
    ensures Handle(users, s, p).state.lastProcessedId == LockIdOf(p)
  {
  }

  /** The state after handling the callbacks in order. */
  function Run(users: seq<User>, s: WifiState, ps: seq<Payload>): WifiState
    decreases |ps|
  {
    if ps == [] then s else Run(users, Handle(users, s, ps[0]).state, ps[1..])
  }

  /** The largest of `m` and the ids. */
  function Watermark(m: int, ids: seq<int>): (r: int)
    ensures r >= m && forall i :: 0 <= i < |ids| ==> ids[i] <= r
    ensures r == m || exists i :: 0 <= i < |ids| && r == ids[i]
    decreases |ids|
  {
    if ids == [] then m
    else
      var r := Watermark(if ids[0] > m then ids[0] else m, ids[1..]);
      assert forall i :: 1 <= i < |ids| ==> ids[i] == ids[1..][i - 1];
      r
  }

  /** How many ids exceed every id before them (and `m`). */
  function Raises(m: int, ids: seq<int>): (r: nat)
    ensures r <= |ids|
    decreases |ids|
  {
    if ids == [] then 0
    else if ids[0] > m then 1 + Raises(ids[0], ids[1..])
    else Raises(m, ids[1..])
  }

  /** Every row from position `n` on is a denial for "Usuario no autorizado". */
  predicate DeniedFrom(log: seq<AccessRow>, n: nat) {
    forall i :: n <= i < |log| ==> log[i].estado == Denegado && log[i].motivo == Some(NotAuthorized)
  }

  /** One callback with a numeric lock id `k` against the last processed number `m`. */
  lemma NumericStep(users: seq<User>, s: WifiState, p: Payload, m: int, k: int)
    requires m >= 0 && s.lastProcessedId == Num(m) && LockIdOf(p) == Num(k)
    ensures var st := Handle(users, s, p).state;
      && st.lastProcessedId == Num(if k > m then k else m)
      && |st.accessLog| == |s.accessLog| + (if k > m then 1 else 0)
      && st.accessLog[..|s.accessLog|] == s.accessLog
      && DeniedFrom(st.accessLog, |s.accessLog|)
  {
    JsLessEqOnNumbers(k, m);
    if k > m {
      AcceptedCallbackIsRecorded(users, s, p);
    } else {
      RejectedCallbackChangesNothing(users, s, p);
    }
  }

  /**
   * With numeric lock ids the router keeps the running maximum as its last
   * processed value and writes one row for exactly those callbacks whose id
   * exceeds every earlier one, each of them a denial.
   */
  lemma {:induction false} NumericRunKeepsMaximum(users: seq<User>, s: WifiState, ps: seq<Payload>, m: int, ids: seq<int>)
    requires m >= 0 && s.lastProcessedId == Num(m)
    requires |ids| == |ps| && forall i :: 0 <= i < |ps| ==> LockIdOf(ps[i]) == Num(ids[i])
    ensures var r := Run(users, s, ps);
      && r.lastProcessedId == Num(Watermark(m, ids))
      && |r.accessLog| == |s.accessLog| + Raises(m, ids)
      && r.accessLog[..|s.accessLog|] == s.accessLog
      && DeniedFrom(r.accessLog, |s.accessLog|)
    decreases |ps|
  {
    if ps != [] {
      var k := ids[0];
      var st := Handle(users, s, ps[0]).state;
      NumericStep(users, s, ps[0], m, k);
      var m' := if k > m then k else m;
      assert forall i :: 0 <= i < |ps[1..]| ==> LockIdOf(ps[1..][i]) == Num(ids[1..][i]);
      NumericRunKeepsMaximum(users, st, ps[1..], m', ids[1..]);
      var r := Run(users, s, ps);
      assert r == Run(users, st, ps[1..]);
      assert r.accessLog[..|s.accessLog|] == s.accessLog by {
        assert r.accessLog[..|st.accessLog|] == st.accessLog;
        assert st.accessLog[..|s.accessLog|] == s.accessLog;
      }
      assert DeniedFrom(r.accessLog, |s.accessLog|) by {
        forall i | |s.accessLog| <= i < |r.accessLog|
          ensures r.accessLog[i].estado == Denegado && r.accessLog[i].motivo == Some(NotAuthorized)
        {
          if i < |st.accessLog| {
            assert r.accessLog[i] == st.accessLog[i];
          }
        }
      }
    }
  }
}
