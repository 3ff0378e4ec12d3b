/**
 * How payroll counts an employee's days in a period: present, on leave, or absent.
 */
module PayrollDays {
  import opened Wrappers
  import opened Attendance

  datatype DayRow = DayRow(date: int, status: Status)
  datatype Range = Range(start: int, end: int, paid: bool)
  datatype Summary = Summary(workDays: nat, present: nat, leave: nat, unpaidLeave: nat, absent: nat)
  datatype RangeError = InvalidLeave | InvalidTrip

  predicate CountsAsPresent(row: DayRow) {
    row.status == PRESENT || row.status == LATE
  }

  predicate Covers(r: Range, date: int) {
    r.start <= date <= r.end
  }

  /** `ranges.find(test)`, where the test may also ask for paid ranges only. */
  function FindCovering(ranges: seq<Range>, date: int, paidOnly: bool): (r: Option<Range>)
    ensures r.Some? ==> r.value in ranges && Covers(r.value, date) && (paidOnly ==> r.value.paid)
    ensures r.None? ==> forall x :: x in ranges ==> !(Covers(x, date) && (paidOnly ==> x.paid))
  {
    if ranges == [] then None
    else if Covers(ranges[0], date) && (paidOnly ==> ranges[0].paid) then Some(ranges[0])
    else FindCovering(ranges[1..], date, paidOnly)
  }

  // ---------------------------------------------------------------- what each day is

  function PresentDates(rows: seq<DayRow>): set<int> {
    set row | row in rows && CountsAsPresent(row) :: row.date
  }

  predicate PresentOn(rows: seq<DayRow>, presence: seq<Range>, date: int) {
    date in PresentDates(rows) || exists r :: r in presence && Covers(r, date)
  }

  predicate OnLeave(leaves: seq<Range>, date: int) {
    exists r :: r in leaves && Covers(r, date)
  }

  /** A day covered by leave, none of it paid. */
  predicate OnUnpaidLeave(leaves: seq<Range>, date: int) {
    OnLeave(leaves, date) && forall r :: r in leaves && Covers(r, date) ==> !r.paid
  }

  datatype Kind = Present | PaidLeave | UnpaidLeave | Absent

  function KindOf(rows: seq<DayRow>, leaves: seq<Range>, presence: seq<Range>, date: int): Kind {
    if PresentOn(rows, presence, date) then Present
    else if !OnLeave(leaves, date) then Absent
    else if OnUnpaidLeave(leaves, date) then UnpaidLeave
    else PaidLeave
  }

  /** How many of the days are of a kind. */
  function DaysOf(kind: Kind, days: seq<int>, rows: seq<DayRow>, leaves: seq<Range>, presence: seq<Range>): nat {
    if days == [] then 0
    else
      var last := if KindOf(rows, leaves, presence, days[|days| - 1]) == kind then 1 else 0;
      DaysOf(kind, days[..|days| - 1], rows, leaves, presence) + last
  }

  predicate Valid(ranges: seq<Range>) {
    forall r :: r in ranges ==> r.start <= r.end
  }

  /** The counts, by what each working day is; the working days come as a list without repetition. */
  function Counted(working: seq<int>, rows: seq<DayRow>, leaves: seq<Range>, presence: seq<Range>): Result<Summary, RangeError> {
    if !Valid(leaves) then Err(InvalidLeave)
    else if !Valid(presence) then Err(InvalidTrip)
    else
      var unpaid := DaysOf(UnpaidLeave, working, rows, leaves, presence);
      Ok(Summary(|working|, DaysOf(Present, working, rows, leaves, presence),
                 DaysOf(PaidLeave, working, rows, leaves, presence) + unpaid, unpaid,
                 DaysOf(Absent, working, rows, leaves, presence)))
  }

  /** Every day is of one kind. */
  lemma {:induction false} KindsPartition(days: seq<int>, rows: seq<DayRow>, leaves: seq<Range>, presence: seq<Range>)
    ensures DaysOf(Present, days, rows, leaves, presence) + DaysOf(PaidLeave, days, rows, leaves, presence)
          + DaysOf(UnpaidLeave, days, rows, leaves, presence) + DaysOf(Absent, days, rows, leaves, presence) == |days|
  {
    if days != [] { KindsPartition(days[..|days| - 1], rows, leaves, presence); }
  }

  /** What one working day is, as the loop decides it. */
  method Classify(rows: seq<DayRow>, leaves: seq<Range>, presence: seq<Range>, present: set<int>, date: int) returns (kind: Kind)
    requires present == PresentDates(rows)
    ensures kind == KindOf(rows, leaves, presence, date)
  {
    if date in present || exists r :: r in presence && Covers(r, date) { return Present; }
    var paid := FindCovering(leaves, date, true);
    var covering := if paid.Some? then paid else FindCovering(leaves, date, false);
    if covering.None? { return Absent; }
    return if covering.value.paid then PaidLeave else UnpaidLeave;
  }

  /** The counting loop: one pass over the working days. */
  method CountPayrollAttendance(working: seq<int>, rows: seq<DayRow>, leaves: seq<Range>, presence: seq<Range>)
      returns (r: Result<Summary, RangeError>)
    ensures r == Counted(working, rows, leaves, presence)
  {
    if exists x :: x in leaves && x.end < x.start { return Err(InvalidLeave); }
    if exists x :: x in presence && x.end < x.start { return Err(InvalidTrip); }
    var present := PresentDates(rows);
    var presentDays, leaveDays, unpaidLeaveDays := 0, 0, 0;
    for i := 0 to |working|
      invariant presentDays == DaysOf(Present, working[..i], rows, leaves, presence)
      invariant unpaidLeaveDays == DaysOf(UnpaidLeave, working[..i], rows, leaves, presence)
      invariant leaveDays == DaysOf(PaidLeave, working[..i], rows, leaves, presence) + unpaidLeaveDays
    {
      assert working[..i + 1][..i] == working[..i];
      var kind := Classify(rows, leaves, presence, present, working[i]);
      match kind
      case Present => presentDays := presentDays + 1;
      case PaidLeave => leaveDays := leaveDays + 1;
      case UnpaidLeave =>
        leaveDays := leaveDays + 1;
        unpaidLeaveDays := unpaidLeaveDays + 1;
      case Absent =>
    }
    assert working[..|working|] == working;
    KindsPartition(working, rows, leaves, presence);
    return Ok(Summary(|working|, presentDays, leaveDays, unpaidLeaveDays, |working| - presentDays - leaveDays));
  }

  // ---------------------------------------------------------------- what the counts depend on

  /** Present, leave and absent days add up to the working days; absence is what is neither. */
  lemma DaysAddUp(working: seq<int>, rows: seq<DayRow>, leaves: seq<Range>, presence: seq<Range>)
    requires Counted(working, rows, leaves, presence).Ok?
    ensures var s := Counted(working, rows, leaves, presence).value;
            s.present + s.leave + s.absent == s.workDays == |working| && s.unpaidLeave <= s.leave
  {
    KindsPartition(working, rows, leaves, presence);
  }

  ghost predicate SameElements(a: seq<Range>, b: seq<Range>) {
    forall x :: x in a <==> x in b
  }

  lemma KindDependsOnPresence(rows: seq<DayRow>, rows': seq<DayRow>, leaves: seq<Range>, leaves': seq<Range>,
                              presence: seq<Range>, presence': seq<Range>, date: int)
    requires PresentDates(rows) == PresentDates(rows') && SameElements(leaves, leaves') && SameElements(presence, presence')
    ensures KindOf(rows, leaves, presence, date) == KindOf(rows', leaves', presence', date)
  {
    assert PresentOn(rows, presence, date) <==> PresentOn(rows', presence', date);
    assert OnLeave(leaves, date) <==> OnLeave(leaves', date);
    assert OnUnpaidLeave(leaves, date) <==> OnUnpaidLeave(leaves', date);
  }

  lemma {:induction false} DaysDependOnKinds(kind: Kind, days: seq<int>, rows: seq<DayRow>, rows': seq<DayRow>, leaves: seq<Range>,
                                             leaves': seq<Range>, presence: seq<Range>, presence': seq<Range>)
    requires forall date :: KindOf(rows, leaves, presence, date) == KindOf(rows', leaves', presence', date)
    ensures DaysOf(kind, days, rows, leaves, presence) == DaysOf(kind, days, rows', leaves', presence')
  {
    if days != [] { DaysDependOnKinds(kind, days[..|days| - 1], rows, rows', leaves, leaves', presence, presence'); }
  }

  lemma CountsDependOnKinds(working: seq<int>, rows: seq<DayRow>, rows': seq<DayRow>, leaves: seq<Range>,
                            leaves': seq<Range>, presence: seq<Range>, presence': seq<Range>)
    requires Valid(leaves) == Valid(leaves') && Valid(presence) == Valid(presence')
    requires forall date :: KindOf(rows, leaves, presence, date) == KindOf(rows', leaves', presence', date)
    ensures Counted(working, rows, leaves, presence) == Counted(working, rows', leaves', presence')
  {
    DaysDependOnKinds(Present, working, rows, rows', leaves, leaves', presence, presence');
    DaysDependOnKinds(PaidLeave, working, rows, rows', leaves, leaves', presence, presence');
    DaysDependOnKinds(UnpaidLeave, working, rows, rows', leaves, leaves', presence, presence');
    DaysDependOnKinds(Absent, working, rows, rows', leaves, leaves', presence, presence');
  }

  /**
   * The counts never depend on the order or repetition in which rows and ranges are read, nor on
   * attendance rows that record anything but presence: in particular paid cover wins over unpaid
   * whichever is found first.
   */
  lemma CountsIgnoreOrder(working: seq<int>, rows: seq<DayRow>, rows': seq<DayRow>, leaves: seq<Range>, leaves': seq<Range>,
                          presence: seq<Range>, presence': seq<Range>)
    requires PresentDates(rows) == PresentDates(rows') && SameElements(leaves, leaves') && SameElements(presence, presence')
    ensures Counted(working, rows, leaves, presence) == Counted(working, rows', leaves', presence')
  {
    forall date ensures KindOf(rows, leaves, presence, date) == KindOf(rows', leaves', presence', date) {
      KindDependsOnPresence(rows, rows', leaves, leaves', presence, presence', date);
    }
    CountsDependOnKinds(working, rows, rows', leaves, leaves', presence, presence');
  }

  /** For a single day: absent is exactly a working day without presence and without leave. */
  lemma OneDay(working: bool, date: int, rows: seq<DayRow>, leaves: seq<Range>, presence: seq<Range>)
    requires Counted(if working then [date] else [], rows, leaves, presence).Ok?
    ensures Counted(if working then [date] else [], rows, leaves, presence).value.absent == 1
       <==> working && !PresentOn(rows, presence, date) && !OnLeave(leaves, date)
  {
    var days := if working then [date] else [];
    if working {
      assert days[..|days| - 1] == [];
      assert DaysOf(Absent, days[..|days| - 1], rows, leaves, presence) == 0;
    }
  }
}
