/**
 * The attendance table, one row per employee and day, and the two ways a row is written by hand or
 * by a terminal: opening the day (lateness) and closing it (early leave and worked minutes).
 */
module Attendance {
  import opened Wrappers

  type Id = string

  datatype Status = PRESENT | ABSENT | LATE | EXCUSED

  /** The unique index of the table; `date` is the number of a UTC calendar day. */
  datatype Key = Key(employeeId: Id, date: int)

  /** Instants are milliseconds; the other amounts are minutes. */
  datatype Row = Row(companyId: Id, branchId: Option<Id>, checkIn: Option<int>, checkOut: Option<int>, status: Status,
                     lateMinutes: nat, earlyLeaveMinutes: nat, workDuration: nat,
                     scheduledWorkStart: Option<string>, scheduledWorkEnd: Option<string>,
                     source: Option<string>, deleted: bool)

  type Table = map<Key, Row>

  /**
   * What the rest of the system answers about one attempt: the payroll period, the resolved policy and
   * schedule, and whether the remaining location and identity checks pass.
   */
  datatype Context = Context(payrollOpen: bool, methodAllowed: bool, dayAllowed: bool, checksPass: bool,
                             branchId: Option<Id>, workStart: Option<string>, workEnd: Option<string>,
                             scheduledStart: Option<int>, scheduledEnd: Option<int>,
                             lateTolerance: nat, earlyTolerance: nat)

  datatype Error =
    | PayrollClosed | AlreadyExists | MethodNotAllowed | NonWorkingDay | ChecksFailed | DuplicateRow
    | NotFound | NoCheckIn | AlreadyCheckedOut | NoRecordToClose

  const MINUTE := 60_000
  const DAY := 86_400_000

  function DateOf(instant: int): int {
    instant / DAY
  }

  /** `Math.max(0, Math.round((later - earlier) / 60000))`; a half minute rounds up. */
  function MinutesBetween(later: int, earlier: int): (m: nat) {
    var rounded := (later - earlier + MINUTE / 2) / MINUTE;
    if rounded < 0 then 0 else rounded
  }

  predicate Live(t: Table, k: Key) {
    k in t && !t[k].deleted
  }

  // ---------------------------------------------------------------- opening and closing

  predicate IsLate(checkIn: Option<int>, status: Status, c: Context) {
    && checkIn.Some? && status == PRESENT && c.scheduledStart.Some?
    && checkIn.value > c.scheduledStart.value + c.lateTolerance * MINUTE
  }

  /** The row an attempt to create attendance inserts, or why it is refused, in the order of the checks. */
  function Created(t: Table, k: Key, companyId: Id, checkIn: Option<int>, checkOut: Option<int>, status: Status,
                   source: Option<string>, c: Context): Result<Row, Error> {
    if !c.payrollOpen then Err(PayrollClosed)
    else if Live(t, k) then Err(AlreadyExists)
    else if !c.methodAllowed then Err(MethodNotAllowed)
    else if !c.dayAllowed then Err(NonWorkingDay)
    else if !c.checksPass then Err(ChecksFailed)
    else if k in t then Err(DuplicateRow)
    else
      var late := IsLate(checkIn, status, c);
      Ok(Row(companyId, c.branchId, checkIn, checkOut, if late then LATE else status,
             if late then MinutesBetween(checkIn.value, c.scheduledStart.value) else 0, 0, 0,
             c.workStart, c.workEnd, source, false))
  }

  function EarlyLeave(at: int, c: Context): nat {
    if c.scheduledEnd.Some? && at < c.scheduledEnd.value - c.earlyTolerance * MINUTE
    then MinutesBetween(c.scheduledEnd.value, at) else 0
  }

  /** The row an attempt to check out leaves behind, or why it is refused. */
  function CheckedOut(t: Table, k: Key, at: int, c: Context): Result<Row, Error> {
    if !Live(t, k) then Err(NotFound)
    else if t[k].checkIn.None? then Err(NoCheckIn)
    else if t[k].checkOut.Some? then Err(AlreadyCheckedOut)
    else if !c.payrollOpen then Err(PayrollClosed)
    else if !c.methodAllowed then Err(MethodNotAllowed)
    else if !c.checksPass then Err(ChecksFailed)
    else Ok(t[k].(checkOut := Some(at), workDuration := MinutesBetween(at, t[k].checkIn.value),
                  earlyLeaveMinutes := EarlyLeave(at, c)))
  }

  /** What the nightly sweeps write: a day nobody attended, and the end of a day nobody closed. */
  function AbsentRow(companyId: Id, branchId: Option<Id>): Row {
    Row(companyId, branchId, None, None, ABSENT, 0, 0, 0, None, None, Some("auto-absent"), false)
  }

  function SweepClosed(row: Row, scheduledEnd: int): Row
    requires row.checkIn.Some?
  {
    row.(checkOut := Some(scheduledEnd), workDuration := MinutesBetween(scheduledEnd, row.checkIn.value),
         source := Some("auto-checkout"))
  }

  // ---------------------------------------------------------------- what the minutes mean

  /** The recorded minutes are the ones nearest to the elapsed time. */
  lemma MinutesAreNearest(later: int, earlier: int)
    requires later >= earlier
    ensures var d := later - earlier; var m := MinutesBetween(later, earlier) * MINUTE;
            d - MINUTE / 2 < m <= d + MINUTE / 2
  {}

  lemma MinutesGrow(later: int, earlier: int, minutes: nat)
    requires later - earlier >= minutes * MINUTE
    ensures MinutesBetween(later, earlier) >= minutes
  {
    assert later - earlier + MINUTE / 2 < (MinutesBetween(later, earlier) + 1) * MINUTE;
  }

  /**
   * A day opened as present is late exactly when it was opened after the tolerated start, and then by
   * at least the tolerated minutes; late minutes are never recorded for a day that is not late.
   */
  lemma LateExactly(t: Table, k: Key, companyId: Id, at: int, source: Option<string>, c: Context)
    requires Created(t, k, companyId, Some(at), None, PRESENT, source, c).Ok?
    ensures var row := Created(t, k, companyId, Some(at), None, PRESENT, source, c).value;
            && (row.status == LATE <==> c.scheduledStart.Some? && at > c.scheduledStart.value + c.lateTolerance * MINUTE)
            && (row.status != LATE ==> row.status == PRESENT && row.lateMinutes == 0)
            && (row.status == LATE ==> row.lateMinutes >= c.lateTolerance)
  {
    var row := Created(t, k, companyId, Some(at), None, PRESENT, source, c).value;
    if row.status == LATE {
      MinutesGrow(at, c.scheduledStart.value, c.lateTolerance);
    }
  }

  /**
   * A late day carries no late minutes exactly when nothing is tolerated and it opened less than half
   * a minute after the start: payroll, which reads the minutes, then sees a day on time.
   */
  lemma LateWithoutMinutesExactly(t: Table, k: Key, companyId: Id, at: int, source: Option<string>, c: Context)
    requires Created(t, k, companyId, Some(at), None, PRESENT, source, c).Ok?
    ensures var row := Created(t, k, companyId, Some(at), None, PRESENT, source, c).value;
            row.status == LATE && row.lateMinutes == 0
            <==> c.scheduledStart.Some? && c.lateTolerance == 0
                 && c.scheduledStart.value < at < c.scheduledStart.value + MINUTE / 2
  {
    var row := Created(t, k, companyId, Some(at), None, PRESENT, source, c).value;
    if row.status == LATE {
      MinutesGrow(at, c.scheduledStart.value, c.lateTolerance);
    }
  }

  // ---------------------------------------------------------------- how far a day has come

  datatype Phase = Missing | OpenDay | ClosedDay

  /** A row without a check-in, or a deleted one, can no longer be opened or closed. */
  function PhaseOf(t: Table, k: Key): Phase {
    if k !in t then Missing
    else if t[k].deleted || t[k].checkIn.None? || t[k].checkOut.Some? then ClosedDay
    else OpenDay
  }

  function Rank(p: Phase): nat {
    match p
    case Missing => 0
    case OpenDay => 1
    case ClosedDay => 2
  }

  lemma CreatingOpens(t: Table, k: Key, companyId: Id, checkIn: Option<int>, checkOut: Option<int>, status: Status,
                      source: Option<string>, c: Context)
    ensures Created(t, k, companyId, checkIn, checkOut, status, source, c).Ok? ==> PhaseOf(t, k) == Missing
  {}

  lemma CheckingOutCloses(t: Table, k: Key, at: int, c: Context)
    ensures var r := CheckedOut(t, k, at, c);
            r.Ok? ==> PhaseOf(t, k) == OpenDay && PhaseOf(t[k := r.value], k) == ClosedDay
  {}
}
