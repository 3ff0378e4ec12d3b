/**
 * What a punch or an attempt by hand does to a day, by its direction and by the day it meets, and what
 * the minutes of a row mean.
 */
module AttendanceRules {
  import opened Wrappers
  import opened Attendance
  import opened PunchIngest

  // ---------------------------------------------------------------- opening and closing by hand

  /** A day is opened exactly in an open period, by an allowed method on an allowed day, where no row was ever written. */
  lemma CreatedExactly(t: Table, k: Key, companyId: Id, checkIn: Option<int>, checkOut: Option<int>, status: Status,
                       source: Option<string>, c: Context)
    ensures var r := Created(t, k, companyId, checkIn, checkOut, status, source, c);
            && (r.Ok? <==> k !in t && c.payrollOpen && c.methodAllowed && c.dayAllowed && c.checksPass)
            && (r.Ok? ==> var row := r.value;
                          && row.companyId == companyId && row.branchId == c.branchId && row.source == source
                          && row.checkIn == checkIn && row.checkOut == checkOut && !row.deleted
                          && row.earlyLeaveMinutes == 0 && row.workDuration == 0
                          && row.scheduledWorkStart == c.workStart && row.scheduledWorkEnd == c.workEnd
                          && (status != PRESENT || checkIn.None? ==> row.status == status && row.lateMinutes == 0))
  {}

  /** The first check that fails is the one that is reported. */
  lemma OpeningRefusals(t: Table, k: Key, companyId: Id, checkIn: Option<int>, checkOut: Option<int>, status: Status,
                        source: Option<string>, c: Context)
    ensures var r := Created(t, k, companyId, checkIn, checkOut, status, source, c);
            var met := c.payrollOpen && !(k in t && !t[k].deleted);
            && (r == Err(PayrollClosed) <==> !c.payrollOpen)
            && (r == Err(AlreadyExists) <==> c.payrollOpen && k in t && !t[k].deleted)
            && (r == Err(MethodNotAllowed) <==> met && !c.methodAllowed)
            && (r == Err(NonWorkingDay) <==> met && c.methodAllowed && !c.dayAllowed)
            && (r == Err(ChecksFailed) <==> met && c.methodAllowed && c.dayAllowed && !c.checksPass)
            && (r == Err(DuplicateRow) <==> met && c.methodAllowed && c.dayAllowed && c.checksPass && k in t)
  {}

  /** A day is closed exactly in an open period, by an allowed method, when it was opened and not closed; nothing else of it changes. */
  lemma CheckedOutExactly(t: Table, k: Key, at: int, c: Context)
    ensures var r := CheckedOut(t, k, at, c);
            && (r.Ok? <==> && k in t && !t[k].deleted && t[k].checkIn.Some? && t[k].checkOut.None?
                           && c.payrollOpen && c.methodAllowed && c.checksPass)
            && (r.Ok? ==> r.value == t[k].(checkOut := Some(at), workDuration := r.value.workDuration,
                                           earlyLeaveMinutes := r.value.earlyLeaveMinutes))
  {}

  lemma ClosingRefusals(t: Table, k: Key, at: int, c: Context)
    ensures var r := CheckedOut(t, k, at, c);
            var open := k in t && !t[k].deleted && t[k].checkIn.Some? && t[k].checkOut.None?;
            && (r == Err(NotFound) <==> k !in t || t[k].deleted)
            && (r == Err(NoCheckIn) <==> k in t && !t[k].deleted && t[k].checkIn.None?)
            && (r == Err(AlreadyCheckedOut) <==> k in t && !t[k].deleted && t[k].checkIn.Some? && t[k].checkOut.Some?)
            && (r == Err(PayrollClosed) <==> open && !c.payrollOpen)
            && (r == Err(MethodNotAllowed) <==> open && c.payrollOpen && !c.methodAllowed)
            && (r == Err(ChecksFailed) <==> open && c.payrollOpen && c.methodAllowed && !c.checksPass)
  {}

  // ---------------------------------------------------------------- minutes

  /** The nearest whole minutes of an elapsed time, a half rounding up; nothing for a time that ran backwards. */
  predicate NearestMinutes(m: nat, elapsed: int) {
    if elapsed <= 0 then m == 0 else elapsed - 30_000 < m * 60_000 <= elapsed + 30_000
  }

  lemma MinutesAreTheNearest(later: int, earlier: int)
    ensures NearestMinutes(MinutesBetween(later, earlier), later - earlier)
  {
    if later > earlier { MinutesAreNearest(later, earlier); }
  }

  /** Nearest minutes are unique. */
  lemma NearestIsUnique(m: nat, n: nat, elapsed: int)
    requires NearestMinutes(m, elapsed) && NearestMinutes(n, elapsed)
    ensures m == n
  {
    if elapsed > 0 {
      assert m * 60_000 - n * 60_000 == (m - n) * 60_000;
    }
  }

  /** Whether a person, a terminal or the nightly sweep closes a day, it records the minutes nearest to the time worked. */
  lemma WorkedMinutesAreNearest(t: Table, k: Key, at: int, c: Context)
    ensures CheckedOut(t, k, at, c).Ok? ==>
              NearestMinutes(CheckedOut(t, k, at, c).value.workDuration, at - t[k].checkIn.value)
    ensures k in t && t[k].checkIn.Some? ==>
              var row := SweepClosed(t[k], at);
              && NearestMinutes(row.workDuration, at - t[k].checkIn.value)
              && row == t[k].(checkOut := Some(at), workDuration := row.workDuration, source := Some("auto-checkout"))
  {
    if k in t && t[k].checkIn.Some? { MinutesAreTheNearest(at, t[k].checkIn.value); }
  }

  /**
   * Leaving is early exactly before the tolerated end, and then the minutes nearest to the time left are
   * recorded, at least the tolerated ones; otherwise none are.
   */
  lemma EarlyLeaveExactly(t: Table, k: Key, at: int, c: Context)
    requires CheckedOut(t, k, at, c).Ok?
    ensures var early := CheckedOut(t, k, at, c).value.earlyLeaveMinutes;
            if c.scheduledEnd.Some? && at < c.scheduledEnd.value - c.earlyTolerance * 60_000
            then NearestMinutes(early, c.scheduledEnd.value - at) && early >= c.earlyTolerance
            else early == 0
  {
    if c.scheduledEnd.Some? && at < c.scheduledEnd.value - c.earlyTolerance * MINUTE {
      MinutesAreTheNearest(c.scheduledEnd.value, at);
      MinutesGrow(c.scheduledEnd.value, at, c.earlyTolerance);
    }
  }

  /** Of a late day, the minutes nearest to the time since the scheduled start. */
  lemma LateMinutesAreNearest(t: Table, k: Key, companyId: Id, at: int, source: Option<string>, c: Context)
    requires Created(t, k, companyId, Some(at), None, PRESENT, source, c).Ok?
    ensures var row := Created(t, k, companyId, Some(at), None, PRESENT, source, c).value;
            row.status == LATE ==> c.scheduledStart.Some? && NearestMinutes(row.lateMinutes, at - c.scheduledStart.value)
  {
    if c.scheduledStart.Some? { MinutesAreTheNearest(at, c.scheduledStart.value); }
  }

  // ---------------------------------------------------------------- what a punch may do

  /** No row of the day was ever written, and an opening attempt passes. */
  predicate MayOpen(days: Table, k: Key, c: Context) {
    k !in days && c.payrollOpen && c.methodAllowed && c.dayAllowed && c.checksPass
  }

  /** The day is open in the device's company, and a closing attempt passes. */
  predicate MayClose(days: Table, k: Key, device: Device, c: Context) {
    && k in days && !days[k].deleted && days[k].companyId == device.companyId
    && days[k].checkIn.Some? && days[k].checkOut.None?
    && c.payrollOpen && c.methodAllowed && c.checksPass
  }

  /** The serial number behind its mark, as far as fifty characters go. */
  predicate NamesTheDevice(source: string, device: Device) {
    source <= "DEVICE:" + device.serialNumber
    && |source| == if 7 + |device.serialNumber| <= 50 then 7 + |device.serialNumber| else 50
  }

  /** IN only opens, OUT only closes, and AUTO does what the day allows. */
  lemma DirectionsExactly(days: Table, device: Device, k: Key, punch: Punch, w: World)
    ensures Applied(days, device, k, punch, w).Ok? <==>
              match punch.direction
              case IN => MayOpen(days, k, w.opening)
              case OUT => MayClose(days, k, device, w.closing)
              case AUTO => MayOpen(days, k, w.opening) || MayClose(days, k, device, w.closing)
    ensures Applied(days, device, k, punch, w).Ok? ==>
              var row := Applied(days, device, k, punch, w).value;
              if k !in days
              then && row.checkIn == Some(punch.punchedAt) && row.checkOut.None? && row.companyId == device.companyId
                   && row.source.Some? && NamesTheDevice(row.source.value, device)
                   && row.status == (if w.opening.scheduledStart.Some?
                                        && punch.punchedAt > w.opening.scheduledStart.value + w.opening.lateTolerance * 60_000
                                     then LATE else PRESENT)
              else row == days[k].(checkOut := Some(punch.punchedAt), workDuration := row.workDuration,
                                   earlyLeaveMinutes := row.earlyLeaveMinutes)
  {}

  /** Where all attempts pass, the refusals by direction and by the day met. */
  lemma RefusalsExactly(days: Table, device: Device, k: Key, punch: Punch, w: World)
    requires w.opening.payrollOpen && w.opening.methodAllowed && w.opening.dayAllowed && w.opening.checksPass
    requires w.closing.payrollOpen && w.closing.methodAllowed && w.closing.checksPass
    ensures var r := Applied(days, device, k, punch, w);
            var here := k in days && !days[k].deleted && days[k].companyId == device.companyId;
            var open := here && days[k].checkIn.Some?;
            match punch.direction
            case IN => if k !in days then r.Ok? else r == Err(if days[k].deleted then DuplicateRow else AlreadyExists)
            case OUT => if !here then r == Err(NoRecordToClose)
                        else if days[k].checkOut.Some? then r == Err(AlreadyCheckedOut)
                        else if !open then r == Err(NoCheckIn) else r.Ok?
            case AUTO => if open then (if days[k].checkOut.Some? then r == Err(AlreadyCheckedOut) else r.Ok?)
                         else if k !in days then r.Ok?
                         else r == Err(if days[k].deleted then DuplicateRow else AlreadyExists)
  {}

  /** A live day of the company refuses an IN, and none refuses an OUT, before anything else is looked at. */
  lemma OwnDayDecidesFirst(days: Table, device: Device, k: Key, punch: Punch, w: World)
    ensures var r := Applied(days, device, k, punch, w);
            var here := k in days && !days[k].deleted && days[k].companyId == device.companyId;
            && (punch.direction == IN && here ==> r == Err(AlreadyExists))
            && (punch.direction == OUT && !here ==> r == Err(NoRecordToClose))
            && (punch.direction != IN && here && days[k].checkIn.Some? && days[k].checkOut.Some? ==> r == Err(AlreadyCheckedOut))
  {}

  /**
   * A new punch of a known employee is applied exactly when its direction lets it do what the day allows.
   * It is recorded as it was sent, with that outcome, and it writes only a day of the device's company.
   */
  lemma PunchAppliedExactly(db: Db, device: Device, punch: Punch, w: World)
    requires w.employee.Some? && forall p :: p in db.punches ==> !(p.deviceId == device.id && p.externalId == punch.externalId)
    ensures var (after, outcome) := IngestOne(db, device, punch, w);
            var k := Key(w.employee.value, punch.punchedAt / 86_400_000);
            && (outcome.status == APPLIED <==>
                  || (punch.direction != OUT && MayOpen(db.days, k, w.opening))
                  || (punch.direction != IN && MayClose(db.days, k, device, w.closing)))
            && (outcome.status != APPLIED ==> outcome.status == REJECTED && outcome.attendance.None? && after.days == db.days)
            && (outcome.status == APPLIED ==>
                  && outcome.attendance == Some(k) && k in after.days && after.days == db.days[k := after.days[k]]
                  && after.days[k].companyId == device.companyId
                  && (punch.direction == IN ==> k !in db.days) && (punch.direction == OUT ==> k in db.days)
                  && (if k !in db.days then after.days[k].checkIn == Some(punch.punchedAt)
                      else after.days[k].checkOut == Some(punch.punchedAt)))
            && outcome.externalId == punch.externalId && outcome.employeeCode == punch.employeeCode
            && after.punches == db.punches + [PunchRow(device.id, punch.externalId, device.companyId, punch.employeeCode,
                                                       punch.punchedAt, punch.direction, w.employee, outcome.status, outcome.attendance)]
  {
    var k := Key(w.employee.value, punch.punchedAt / 86_400_000);
    assert DayOf(w.employee.value, punch) == k;
    DirectionsExactly(db.days, device, k, punch, w);
  }

  // ---------------------------------------------------------------- days over whole runs

  /** What people, sweeps and deletion do to a day: who writes it, who closes it, who deletes it. */
  lemma WritersExactly(days: Table, e: Event, k: Key)
    requires !e.Punched?
    ensures var after := TableStep(days, e);
            && (k in after <==> k in days || (e.MarkedAbsent? && e.day == k) || (e.Recorded? && e.day == k && MayOpen(days, k, e.context)))
            && (k in days ==>
                  var open := !days[k].deleted && days[k].checkIn.Some? && days[k].checkOut.None?;
                  && (after[k].checkOut != days[k].checkOut <==>
                        && e.day == k && open
                        && ((e.CheckedOutByHand? && e.context.payrollOpen && e.context.methodAllowed && e.context.checksPass)
                            || (e.ClosedBySweep? && days[k].checkIn.value < e.scheduledEnd)))
                  && (after[k].checkOut != days[k].checkOut ==>
                        after[k].checkOut == Some(if e.ClosedBySweep? then e.scheduledEnd else e.at))
                  && (after[k].deleted <==> days[k].deleted || e == Deleted(k))
                  && (after[k].checkIn == days[k].checkIn))
  {}

  lemma RunToNext(db: Db, events: seq<Event>, i: nat)
    requires i < |events|
    ensures Run(db, events[..i + 1]) == Step(Run(db, events[..i]), events[i])
  {
    assert events[..i + 1][..i] == events[..i];
  }

  lemma RankGrowsOnce(db: Db, events: seq<Event>, i: nat, k: Key)
    requires i < |events|
    ensures RankOf(Run(db, events[..i]), k) <= RankOf(Run(db, events[..i + 1]), k)
  {
    RunToNext(db, events, i);
    StepMovesOn(Run(db, events[..i]), events[i], k);
  }

  lemma {:induction false} RankGrows(db: Db, events: seq<Event>, i: nat, j: nat, k: Key)
    requires i <= j <= |events|
    ensures RankOf(Run(db, events[..i]), k) <= RankOf(Run(db, events[..j]), k)
    decreases j
  {
    if i < j {
      RankGrows(db, events, i, j - 1, k);
      RankGrowsOnce(db, events, j - 1, k);
    }
  }

  /** In any run no two punches open one day, and no two close it. */
  lemma OneOpeningOneClosing(db: Db, events: seq<Event>, i: nat, j: nat, k: Key)
    requires i < j < |events|
    ensures !(Opens(Run(db, events[..i]), events[i], k) && Opens(Run(db, events[..j]), events[j], k))
    ensures !(Closes(Run(db, events[..i]), events[i], k) && Closes(Run(db, events[..j]), events[j], k))
    ensures !(Closes(Run(db, events[..i]), events[i], k) && Opens(Run(db, events[..j]), events[j], k))
  {
    RunToNext(db, events, i);
    StepMovesOn(Run(db, events[..i]), events[i], k);
    StepMovesOn(Run(db, events[..j]), events[j], k);
    RankGrows(db, events, i + 1, j, k);
  }

  /** A recorded check-in or check-out is never changed or lost. */
  lemma {:induction false} TimesNeverChange(db: Db, events: seq<Event>, k: Key)
    requires k in db.days
    ensures var days := Run(db, events).days;
            && k in days
            && (db.days[k].checkIn.Some? ==> days[k].checkIn == db.days[k].checkIn)
            && (db.days[k].checkOut.Some? ==> days[k].checkOut == db.days[k].checkOut)
  {
    if events != [] {
      TimesNeverChange(db, events[..|events| - 1], k);
      StepKeepsTimes(Run(db, events[..|events| - 1]), events[|events| - 1]);
    }
  }

  /** From the first day on, every punch recorded as applied is the check-in or the check-out of the day it names. */
  lemma AppliedPunchesAreOnTheirDays(events: seq<Event>)
    ensures var db := Run(Db(map[], []), events);
            forall p :: p in db.punches && p.status == APPLIED ==>
              p.attendance.Some? && p.attendance.value in db.days
              && Some(p.punchedAt) in [db.days[p.attendance.value].checkIn, db.days[p.attendance.value].checkOut]
  {
    RunKeepsTraced(Db(map[], []), events);
    var db := Run(Db(map[], []), events);
    forall p | p in db.punches && p.status == APPLIED
      ensures p.attendance.Some? && p.attendance.value in db.days
      ensures Some(p.punchedAt) in [db.days[p.attendance.value].checkIn, db.days[p.attendance.value].checkOut]
    {
      assert Traced(db.days, p);
    }
  }

  // ---------------------------------------------------------------- other answers

  /** A code that no employee of the company has is recorded and does nothing. */
  lemma UnknownCodeDoesNothing(db: Db, device: Device, punch: Punch, w: World)
    requires w.employee.None? && forall p :: p in db.punches ==> !(p.deviceId == device.id && p.externalId == punch.externalId)
    ensures IngestOne(db, device, punch, w)
         == (db.(punches := db.punches + [PunchRow(device.id, punch.externalId, device.companyId, punch.employeeCode,
                                                   punch.punchedAt, punch.direction, None, UNMATCHED_EMPLOYEE, None)]),
             PunchIngest.Outcome(punch.externalId, punch.employeeCode, UNMATCHED_EMPLOYEE, None))
  {}

  /** A duplicate is answered with the day the first one was applied to. */
  lemma DuplicateNamesItsDay(db: Db, device: Device, punch: Punch, w: World, again: World)
    ensures var (after, first) := IngestOne(db, device, punch, w);
            first.status == APPLIED ==>
              IngestOne(after, device, punch, again).1
                == PunchIngest.Outcome(punch.externalId, punch.employeeCode, DUPLICATE, first.attendance)
  {
    var (after, first) := IngestOne(db, device, punch, w);
    if first.status == APPLIED {
      SeenInFront(db.punches, after.punches[|db.punches|], device.id, punch.externalId);
    }
  }

  /** The first row of the pair is found behind rows that are not of it. */
  lemma {:induction false} SeenInFront(punches: seq<PunchRow>, row: PunchRow, deviceId: Id, externalId: string)
    requires Seen(punches, deviceId, externalId).None? && row.deviceId == deviceId && row.externalId == externalId
    ensures Seen(punches + [row], deviceId, externalId) == Some(row)
  {
    if punches != [] {
      assert (punches + [row])[1..] == punches[1..] + [row];
      SeenInFront(punches[1..], row, deviceId, externalId);
    }
  }
}
