/**
 * The zone policy of the newer callback handler: the schedule check
 * (`isWithinSchedule` with its `toSeconds` helper), the security-level check
 * (`hasRequiredLevel`) and the "first failing check wins" classification.
 */
module Policy {
  import opened Options
  import opened JsValues
  import opened Rows

  const SecondsPerDay := 86400

  const NotFound := "Usuario no encontrado"
  const OutsideSchedule := "Fuera de horario"
  const InsufficientLevel := "Nivel de acceso insuficiente"
  /** The initial reason both handlers start from. */
  const NotAuthorized := "Usuario no autorizado"

  /** A schedule bound counts as set when it is neither NULL nor empty text. */
  predicate BoundSet(b: Option<string>) {
    b.Some? && b.value != ""
  }

  /**
   * The pieces of "h:m:s" after `split(":")`, each read as `parseInt(x, 10) || 0`:
   * one number per piece, a piece of decimal digits is its value, and a piece
   * with no digits after its white space and sign is 0.
   */
  function Components(hms: string): (c: seq<int>)
    ensures |c| == |Split(hms, ':')| && |c| >= 1
    ensures forall i :: 0 <= i < |c| && |Split(hms, ':')[i]| >= 1 && AllDigits(Split(hms, ':')[i]) ==>
      c[i] == DigitsValue(Split(hms, ':')[i])
    ensures forall i :: 0 <= i < |c| && DigitPrefix(SignedBody(TrimStart(Split(hms, ':')[i]))) == [] ==>
      c[i] == 0
  {
    var parts := Split(hms, ':');
    var c := seq(|parts|, i requires 0 <= i < |parts| => NumberOr(ParseInt(parts[i]), 0));
    assert forall i :: 0 <= i < |parts| && |parts[i]| >= 1 && AllDigits(parts[i]) ==> c[i] == DigitsValue(parts[i]) by {
      forall i | 0 <= i < |parts| && |parts[i]| >= 1 && AllDigits(parts[i])
        ensures c[i] == DigitsValue(parts[i])
      {
        ParseIntOfDigits(parts[i]);
      }
    }
    c
  }

  /**
   * `toSeconds` as the source computes it. `const [h, m, s] = ...` leaves a
   * missing piece `undefined`, and `undefined * 60` is `NaN` (`None`): text
   * with fewer than three pieces yields `NaN`, not a count with zeros.
   */
  function ToSecondsAsWritten(hms: Option<string>): Option<int> {
    if !BoundSet(hms) then Some(0)
    else
      var c := Components(hms.value);
      if |c| < 3 then None else Some(c[0] * 3600 + c[1] * 60 + c[2])
  }

  /** The piece at `i`, or 0 when there is none. */
  function ComponentOrZero(c: seq<int>, i: nat): int {
    if i < |c| then c[i] else 0
  }

  /** `toSeconds` as intended: a missing or unparseable piece counts as 0. */
  function ToSeconds(hms: Option<string>): int {
    if !BoundSet(hms) then 0
    else
      var c := Components(hms.value);
      ComponentOrZero(c, 0) * 3600 + ComponentOrZero(c, 1) * 60 + ComponentOrZero(c, 2)
  }

  /** `a <= b` on numbers that may be `NaN`: false when either is. */
  predicate NumLessEq(a: Option<int>, b: Option<int>) {
    a.Some? && b.Some? && a.value <= b.value
  }

  /** Whether the zone has no schedule: no zone, or a bound that is not set. */
  predicate Unscheduled(zone: Option<Zone>) {
    zone.None? || !BoundSet(zone.value.scheduleStart) || !BoundSet(zone.value.scheduleEnd)
  }

  /** `isWithinSchedule` as the source computes it, with `toSeconds` as written. */
  predicate IsWithinScheduleAsWritten(zone: Option<Zone>, secondsNow: int) {
    if Unscheduled(zone) then true
    else
      var start := ToSecondsAsWritten(zone.value.scheduleStart);
      var end := ToSecondsAsWritten(zone.value.scheduleEnd);
      if NumLessEq(start, end) then NumLessEq(start, Some(secondsNow)) && NumLessEq(Some(secondsNow), end)
      else NumLessEq(start, Some(secondsNow)) || NumLessEq(Some(secondsNow), end)
  }

  /** The comparison of lines 233-234: inclusive `[start, end]`, wrapping past midnight when `start > end`. */
  predicate InWindow(start: int, end: int, secondsNow: int) {
    if start <= end then start <= secondsNow <= end
    else secondsNow >= start || secondsNow <= end
  }

  /** `isWithinSchedule`, with the intended `toSeconds`. */
  predicate IsWithinSchedule(zone: Option<Zone>, secondsNow: int) {
    Unscheduled(zone)
    || InWindow(ToSeconds(zone.value.scheduleStart), ToSeconds(zone.value.scheduleEnd), secondsNow)
  }

  /** `parseInt(zone.nivel_seguridad_zona || "1", 10) || 1`. */
  function ZoneLevel(z: Zone): int {
    NumberOr(ParseIntValue(if Truthy(z.securityLevel) then z.securityLevel else Str("1")), 1)
  }

  /** `parseInt(user?.nivel_acceso || "0", 10) || 0`. */
  function UserLevel(user: Option<User>): int {
    var v := if user.Some? && Truthy(user.value.level) then user.value.level else Str("0");
    NumberOr(ParseIntValue(v), 0)
  }

  /** `hasRequiredLevel`: no zone, or no zone level, means no restriction. */
  predicate HasRequiredLevel(user: Option<User>, zone: Option<Zone>) {
    if zone.None? || !Truthy(zone.value.securityLevel) then true
    else UserLevel(user) >= ZoneLevel(zone.value)
  }

  /** The outcome written to `estado_acceso` and `motivo_rechazo_acceso`. */
  datatype Decision = Decision(estado: AccessState, motivo: Option<string>)

  /**
   * The decision of the callback handler: no user, then the schedule, then the
   * level; the first failing check gives the reason, and only when all pass is
   * the access authorized, with no reason.
   */
  function Classify(user: Option<User>, zone: Option<Zone>, secondsNow: int): (d: Decision)
    ensures d.estado == Autorizado <==> d.motivo.None?
    ensures d.estado == Autorizado <==>
      user.Some? && IsWithinSchedule(zone, secondsNow) && HasRequiredLevel(user, zone)
    ensures d.motivo == Some(NotFound) <==> user.None?
    ensures d.motivo == Some(OutsideSchedule) <==> user.Some? && !IsWithinSchedule(zone, secondsNow)
    ensures d.motivo == Some(InsufficientLevel) <==>
      user.Some? && IsWithinSchedule(zone, secondsNow) && !HasRequiredLevel(user, zone)
  {
    if user.None? then Decision(Denegado, Some(NotFound))
    else if !IsWithinSchedule(zone, secondsNow) then Decision(Denegado, Some(OutsideSchedule))
    else if !HasRequiredLevel(user, zone) then Decision(Denegado, Some(InsufficientLevel))
    else Decision(Autorizado, None)
  }

  // ---------------------------------------------------------------------
  // Properties of the schedule check
  // ---------------------------------------------------------------------

  /** A zone without both schedule bounds is open at every time of day. */
  lemma UnscheduledZoneAlwaysOpen(zone: Option<Zone>, secondsNow: int)
    requires Unscheduled(zone)
    ensures IsWithinSchedule(zone, secondsNow)
    ensures IsWithinScheduleAsWritten(zone, secondsNow)
  {
  }

  /** "h:m:s" with three runs of digits is h*3600 + m*60 + s, as written and as intended. */
  lemma ClockTextSeconds(h: string, m: string, s: string)
    requires |h| >= 1 && |m| >= 1 && |s| >= 1
    requires AllDigits(h) && AllDigits(m) && AllDigits(s)
    ensures ToSeconds(Some(h + ":" + m + ":" + s))
         == DigitsValue(h) * 3600 + DigitsValue(m) * 60 + DigitsValue(s)
    ensures ToSecondsAsWritten(Some(h + ":" + m + ":" + s))
         == Some(ToSeconds(Some(h + ":" + m + ":" + s)))
  {
    SplitThree(h, m, s);
    SecondsOfThreePieces(h + ":" + m + ":" + s, [h, m, s]);
    CompleteBoundAgrees(Some(h + ":" + m + ":" + s));
  }

  /** "h:m" with two runs of digits: the intended `toSeconds` reads the missing seconds as 0. */
  lemma ShortClockTextSeconds(h: string, m: string)
    requires |h| >= 1 && |m| >= 1 && AllDigits(h) && AllDigits(m)
    ensures ToSeconds(Some(h + ":" + m)) == DigitsValue(h) * 3600 + DigitsValue(m) * 60
    ensures ToSecondsAsWritten(Some(h + ":" + m)).None?
  {
    SplitTwo(h, m);
    SecondsOfTwoPieces(h + ":" + m, [h, m]);
  }

  /** `toSeconds` of text whose pieces are three runs of digits. */
  lemma SecondsOfThreePieces(hms: string, pieces: seq<string>)
    requires Split(hms, ':') == pieces && |pieces| == 3
    requires forall i :: 0 <= i < |pieces| ==> |pieces[i]| >= 1 && AllDigits(pieces[i])
    ensures ToSeconds(Some(hms)) == DigitsValue(pieces[0]) * 3600 + DigitsValue(pieces[1]) * 60 + DigitsValue(pieces[2])
  {
    EmptyTextIsOnePiece();
    SecondsOfComponents(hms, Components(hms));
  }

  /** `toSeconds` of text whose pieces are two runs of digits. */
  lemma SecondsOfTwoPieces(hms: string, pieces: seq<string>)
    requires Split(hms, ':') == pieces && |pieces| == 2
    requires forall i :: 0 <= i < |pieces| ==> |pieces[i]| >= 1 && AllDigits(pieces[i])
    ensures ToSeconds(Some(hms)) == DigitsValue(pieces[0]) * 3600 + DigitsValue(pieces[1]) * 60
    ensures ToSecondsAsWritten(Some(hms)).None?
  {
    EmptyTextIsOnePiece();
    SecondsOfComponents(hms, Components(hms));
  }

  /** `toSeconds` in terms of the numbers read from the pieces. */
  lemma SecondsOfComponents(hms: string, c: seq<int>)
    requires hms != "" && Components(hms) == c
    ensures ToSeconds(Some(hms)) == ComponentOrZero(c, 0) * 3600 + ComponentOrZero(c, 1) * 60 + ComponentOrZero(c, 2)
    ensures |c| < 3 ==> ToSecondsAsWritten(Some(hms)).None?
    ensures |c| >= 3 ==> ToSecondsAsWritten(Some(hms)) == Some(c[0] * 3600 + c[1] * 60 + c[2])
  {
  }

  lemma EmptyTextIsOnePiece()
    ensures |Split("", ':')| == 1
  {
  }

  lemma SplitThree(h: string, m: string, s: string)
    requires AllDigits(h) && AllDigits(m) && AllDigits(s)
    ensures Split(h + ":" + m + ":" + s, ':') == [h, m, s]
  {
    NoColonInDigits(h);
    NoColonInDigits(m);
    NoColonInDigits(s);
    SplitPiece(h, ':', m + ":" + s);
    SplitPiece(m, ':', s);
    SplitPiece(s, ':', "");
    assert h + ":" + m + ":" + s == h + [':'] + (m + ":" + s);
    assert m + ":" + s == m + [':'] + s;
  }

  lemma SplitTwo(h: string, m: string)
    requires AllDigits(h) && AllDigits(m)
    ensures Split(h + ":" + m, ':') == [h, m]
  {
    NoColonInDigits(h);
    NoColonInDigits(m);
    SplitPiece(h, ':', m);
    SplitPiece(m, ':', "");
    assert h + ":" + m == h + [':'] + m;
  }

  lemma NoColonInDigits(d: string)
    requires AllDigits(d)
    ensures forall i :: 0 <= i < |d| ==> d[i] != ':'
  {
  }

  /**
   * The check is a window on the 24-hour circle: a time of day is within it
   * exactly when going forward from `start` reaches it no later than `end`.
   */
  lemma ScheduleIsCircularWindow(zone: Option<Zone>, secondsNow: int)
    requires !Unscheduled(zone)
    requires 0 <= ToSeconds(zone.value.scheduleStart) < SecondsPerDay
    requires 0 <= ToSeconds(zone.value.scheduleEnd) < SecondsPerDay
    requires 0 <= secondsNow < SecondsPerDay
    ensures IsWithinSchedule(zone, secondsNow) <==>
      ClockwiseDistance(ToSeconds(zone.value.scheduleStart), secondsNow)
        <= ClockwiseDistance(ToSeconds(zone.value.scheduleStart), ToSeconds(zone.value.scheduleEnd))
  {
    WindowIsCircular(ToSeconds(zone.value.scheduleStart), ToSeconds(zone.value.scheduleEnd), secondsNow);
  }

  /** Seconds to go forward on the 24-hour clock from `from` to `to`. */
  function ClockwiseDistance(from: int, to: int): (d: int)
    requires 0 <= from < SecondsPerDay && 0 <= to < SecondsPerDay
    ensures 0 <= d < SecondsPerDay
    ensures (from + d) % SecondsPerDay == to
  {
    if from <= to then to - from else to - from + SecondsPerDay
  }

  lemma WindowIsCircular(start: int, end: int, secondsNow: int)
    requires 0 <= start < SecondsPerDay && 0 <= end < SecondsPerDay && 0 <= secondsNow < SecondsPerDay
    ensures InWindow(start, end, secondsNow) <==>
      ClockwiseDistance(start, secondsNow) <= ClockwiseDistance(start, end)
  {
  }

  /** A night shift from 22:00:00 to 06:00:00 admits 23:00 and 02:00 and refuses noon. */
  lemma NightShiftWindow(zoneId: JsValue, level: JsValue)
    ensures var night := Some(Zone(zoneId, Some("22:00:00"), Some("06:00:00"), level));
      IsWithinSchedule(night, 23 * 3600) && IsWithinSchedule(night, 2 * 3600)
      && !IsWithinSchedule(night, 12 * 3600)
  {
    NightShiftStart();
    NightShiftEnd();
  }

  lemma NightShiftStart()
    ensures ToSeconds(Some("22:00:00")) == 22 * 3600
  {
    assert "22" + ":" + "00" + ":" + "00" == "22:00:00";
    ClockTextValue("22", "00", "00", 22 * 3600);
  }

  lemma NightShiftEnd()
    ensures ToSeconds(Some("06:00:00")) == 6 * 3600
  {
    assert "06" + ":" + "00" + ":" + "00" == "06:00:00";
    ClockTextValue("06", "00", "00", 6 * 3600);
  }

  /** `toSeconds` of a literal "hh:mm:ss" with two digits per piece. */
  lemma ClockTextValue(h: string, m: string, s: string, value: int)
    requires |h| == 2 && |m| == 2 && |s| == 2 && AllDigits(h) && AllDigits(m) && AllDigits(s)
    requires value == (DigitValue(h[0]) * 10 + DigitValue(h[1])) * 3600
      + (DigitValue(m[0]) * 10 + DigitValue(m[1])) * 60 + DigitValue(s[0]) * 10 + DigitValue(s[1])
    ensures ToSeconds(Some(h + ":" + m + ":" + s)) == value
  {
    TwoDigits(h);
    TwoDigits(m);
    TwoDigits(s);
    ClockTextSeconds(h, m, s);
  }

  /** The value of a two-digit string. */
  lemma TwoDigits(d: string)
    requires |d| == 2 && AllDigits(d)
    ensures DigitsValue(d) == DigitValue(d[0]) * 10 + DigitValue(d[1])
  {
    var p := d[..1];
    assert d[..|d| - 1] == p;
    assert p[..|p| - 1] == [];
    assert DigitsValue(p) == DigitValue(d[0]);
  }

  /**
   * Wherever both bounds have all three pieces, the source's `toSeconds`
   * and the intended one agree, and so do the two schedule checks.
   */
  lemma AsWrittenAgreesOnCompleteBounds(zone: Option<Zone>, secondsNow: int)
    requires !Unscheduled(zone)
    requires |Split(zone.value.scheduleStart.value, ':')| >= 3
    requires |Split(zone.value.scheduleEnd.value, ':')| >= 3
    ensures IsWithinScheduleAsWritten(zone, secondsNow) == IsWithinSchedule(zone, secondsNow)
  {
    CompleteBoundAgrees(zone.value.scheduleStart);
    CompleteBoundAgrees(zone.value.scheduleEnd);
  }

  lemma CompleteBoundAgrees(b: Option<string>)
    requires BoundSet(b) && |Split(b.value, ':')| >= 3
    ensures ToSecondsAsWritten(b) == Some(ToSeconds(b))
  {
    var c := Components(b.value);
    assert ComponentOrZero(c, 0) == c[0];
    assert ComponentOrZero(c, 1) == c[1];
    assert ComponentOrZero(c, 2) == c[2];
  }

  /**
   * A zone open "08:00" to "17:00" (no seconds): as written both bounds are
   * `NaN` and every comparison fails, so every time of day is refused; as
   * intended noon is admitted.
   */
  lemma ShortBoundsRefuseEveryTime(zoneId: JsValue, level: JsValue)
    ensures var day := Some(Zone(zoneId, Some("08:00"), Some("17:00"), level));
      (forall t :: !IsWithinScheduleAsWritten(day, t)) && IsWithinSchedule(day, 12 * 3600)
  {
    DayShiftStart();
    DayShiftEnd();
  }

  /**
   * As written, a single short bound is `NaN`, so `start <= end` is false and
   * the wrap-around branch decides on the other bound alone: a short start
   * admits exactly the times up to the end, a short end exactly the times
   * from the start; with both short nothing is admitted.
   */
  lemma ShortBoundDecidesAlone(zone: Option<Zone>, t: int)
    requires !Unscheduled(zone)
    ensures var start := ToSecondsAsWritten(zone.value.scheduleStart);
      var end := ToSecondsAsWritten(zone.value.scheduleEnd);
      && (start.None? && end.Some? ==> (IsWithinScheduleAsWritten(zone, t) <==> t <= end.value))
      && (start.Some? && end.None? ==> (IsWithinScheduleAsWritten(zone, t) <==> t >= start.value))
      && (start.None? && end.None? ==> !IsWithinScheduleAsWritten(zone, t))
  {
  }

  /**
   * A zone from "08:00" to "17:00:00": as written the source admits 07:00 and
   * 12:00 and refuses 18:00, while the intended check refuses 07:00, where
   * the classification answers "Fuera de horario" to a known user.
   */
  lemma ShortStartAdmitsEarlyMorning(u: User, zoneId: JsValue, level: JsValue)
    ensures var z := Some(Zone(zoneId, Some("08:00"), Some("17:00:00"), level));
      && IsWithinScheduleAsWritten(z, 7 * 3600) && IsWithinScheduleAsWritten(z, 12 * 3600)
      && !IsWithinScheduleAsWritten(z, 18 * 3600)
      && !IsWithinSchedule(z, 7 * 3600)
      && Classify(Some(u), z, 7 * 3600).motivo == Some(OutsideSchedule)
  {
    DayShiftStart();
    DayShiftFullEnd();
  }

  lemma DayShiftFullEnd()
    ensures ToSeconds(Some("17:00:00")) == 17 * 3600
    ensures ToSecondsAsWritten(Some("17:00:00")) == Some(17 * 3600)
  {
    assert "17" + ":" + "00" + ":" + "00" == "17:00:00";
    ClockTextValue("17", "00", "00", 17 * 3600);
    ClockTextSeconds("17", "00", "00");
  }

  /**
   * The classification uses the intended `toSeconds`, so for the same zone
   * it authorizes a known user at noon where the source answers
   * "Fuera de horario".
   */
  lemma ShortBoundsAuthorizedAsIntended(u: User, zoneId: JsValue)
    ensures var day := Some(Zone(zoneId, Some("08:00"), Some("17:00"), Null));
      Classify(Some(u), day, 12 * 3600) == Decision(Autorizado, None)
      && !IsWithinScheduleAsWritten(day, 12 * 3600)
  {
    ShortBoundsRefuseEveryTime(zoneId, Null);
  }

  /**
   * Wherever the zone has no schedule, or both bounds have all three pieces,
   * the classification is the one the source's schedule check gives: the
   * first failing check wins, judged with `isWithinSchedule` as written.
   */
  lemma ClassifyAgreesWithSourceOnCompleteBounds(user: Option<User>, zone: Option<Zone>, secondsNow: int)
    requires Unscheduled(zone)
      || (|Split(zone.value.scheduleStart.value, ':')| >= 3 && |Split(zone.value.scheduleEnd.value, ':')| >= 3)
    ensures Classify(user, zone, secondsNow).estado == Autorizado <==>
      user.Some? && IsWithinScheduleAsWritten(zone, secondsNow) && HasRequiredLevel(user, zone)
    ensures Classify(user, zone, secondsNow).motivo == Some(OutsideSchedule) <==>
      user.Some? && !IsWithinScheduleAsWritten(zone, secondsNow)
    ensures Classify(user, zone, secondsNow).motivo == Some(InsufficientLevel) <==>
      user.Some? && IsWithinScheduleAsWritten(zone, secondsNow) && !HasRequiredLevel(user, zone)
  {
    if Unscheduled(zone) {
      UnscheduledZoneAlwaysOpen(zone, secondsNow);
    } else {
      AsWrittenAgreesOnCompleteBounds(zone, secondsNow);
    }
  }

  lemma DayShiftStart()
    ensures ToSeconds(Some("08:00")) == 8 * 3600 && ToSecondsAsWritten(Some("08:00")).None?
  {
    assert "08" + ":" + "00" == "08:00";
    ShortBoundSeconds("08", "00", 8 * 3600);
  }

  lemma DayShiftEnd()
    ensures ToSeconds(Some("17:00")) == 17 * 3600 && ToSecondsAsWritten(Some("17:00")).None?
  {
    assert "17" + ":" + "00" == "17:00";
    ShortBoundSeconds("17", "00", 17 * 3600);
  }

  /** A two-piece bound "hh:mm" with two digits per piece, read both ways. */
  lemma ShortBoundSeconds(h: string, m: string, value: int)
    requires |h| == 2 && |m| == 2 && AllDigits(h) && AllDigits(m)
    requires value == (DigitValue(h[0]) * 10 + DigitValue(h[1])) * 3600 + (DigitValue(m[0]) * 10 + DigitValue(m[1])) * 60
    ensures ToSeconds(Some(h + ":" + m)) == value
    ensures ToSecondsAsWritten(Some(h + ":" + m)).None?
  {
    TwoDigits(h);
    TwoDigits(m);
    ShortClockTextSeconds(h, m);
  }

  // ---------------------------------------------------------------------
  // Properties of the level check
  // ---------------------------------------------------------------------

  /** No zone, or a zone whose level is NULL, 0 or empty, restricts nobody. */
  lemma NoZoneLevelAdmitsEveryone(user: Option<User>, zone: Option<Zone>)
    requires zone.None? || !Truthy(zone.value.securityLevel)
    ensures HasRequiredLevel(user, zone)
  {
  }

  /** With numeric levels, the check is `userLevel >= zoneLevel` on the integers. */
  lemma LevelCheckOnNumbers(u: User, z: Zone, userLevel: int, zoneLevel: int)
    requires u.level == Num(userLevel) && z.securityLevel == Num(zoneLevel) && zoneLevel != 0
    ensures HasRequiredLevel(Some(u), Some(z)) <==> userLevel >= zoneLevel
  {
    ParseIntOfText(zoneLevel);
    ParseIntOfText(userLevel);
    ParseIntOfText(0);
  }

  /**
   * Defaults when parsing fails: a zone level that does not parse (or parses
   * to 0) counts as 1; a missing user, or a user level that is NULL or does not
   * parse, counts as 0 — so such a user passes only a zone whose level is 0 or less.
   */
  lemma LevelDefaults(user: Option<User>, z: Zone)
    requires Truthy(z.securityLevel)
    ensures NumberOr(ParseIntValue(z.securityLevel), 0) == 0 ==> ZoneLevel(z) == 1
    ensures user.None? || !Truthy(user.value.level) || ParseIntValue(user.value.level).None?
      ==> UserLevel(user) == 0
    ensures HasRequiredLevel(user, Some(z)) <==> UserLevel(user) >= ZoneLevel(z)
  {
    ParseIntOfText(0);
  }
}
