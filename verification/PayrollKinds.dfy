/**
 * What payroll's counts count: for each working day, who was there, who was on leave, paid or not, and who
 * was absent.
 */
module PayrollKinds {
  import opened Wrappers
  import opened Attendance
  import opened PayrollDays

  /** A present or late row of the day, or a trip that covers it. */
  ghost predicate WasThere(rows: seq<DayRow>, trips: seq<Range>, date: int) {
    || (exists row :: row in rows && row.date == date && (row.status == PRESENT || row.status == LATE))
    || (exists r :: r in trips && r.start <= date <= r.end)
  }

  ghost predicate HadLeave(leaves: seq<Range>, date: int, paid: bool) {
    exists r :: r in leaves && r.start <= date <= r.end && r.paid == paid
  }

  /** Presence comes first, then paid leave, then unpaid leave. */
  lemma KindsExactly(rows: seq<DayRow>, leaves: seq<Range>, trips: seq<Range>, date: int)
    ensures var kind, there := KindOf(rows, leaves, trips, date), WasThere(rows, trips, date);
            && (kind == Present <==> there)
            && (kind == PaidLeave <==> !there && HadLeave(leaves, date, true))
            && (kind == UnpaidLeave <==> !there && !HadLeave(leaves, date, true) && HadLeave(leaves, date, false))
            && (kind == Absent <==> !there && !HadLeave(leaves, date, true) && !HadLeave(leaves, date, false))
  {
    assert PresentOn(rows, trips, date) <==> WasThere(rows, trips, date) by {
      if row :| row in rows && row.date == date && (row.status == PRESENT || row.status == LATE) {
        assert CountsAsPresent(row);
      }
    }
    if r :| r in leaves && Covers(r, date) { assert HadLeave(leaves, date, r.paid); }
  }

  /** The places of the days of a kind in the list of working days. */
  ghost function Places(kind: Kind, working: seq<int>, rows: seq<DayRow>, leaves: seq<Range>, trips: seq<Range>): set<nat> {
    set i: nat | i < |working| && KindOf(rows, leaves, trips, working[i]) == kind
  }

  lemma {:induction false} DaysAreCounted(kind: Kind, working: seq<int>, rows: seq<DayRow>, leaves: seq<Range>, trips: seq<Range>)
    ensures DaysOf(kind, working, rows, leaves, trips) == |Places(kind, working, rows, leaves, trips)|
  {
    if working == [] {
      assert Places(kind, working, rows, leaves, trips) == {};
    } else {
      var n := |working| - 1;
      DaysAreCounted(kind, working[..n], rows, leaves, trips);
      PlacesGrow(kind, working, rows, leaves, trips);
      assert n !in Places(kind, working[..n], rows, leaves, trips);
    }
  }

  lemma PlacesGrow(kind: Kind, working: seq<int>, rows: seq<DayRow>, leaves: seq<Range>, trips: seq<Range>)
    requires |working| > 0
    ensures var n := |working| - 1;
            Places(kind, working, rows, leaves, trips)
              == Places(kind, working[..n], rows, leaves, trips) + if KindOf(rows, leaves, trips, working[n]) == kind then {n} else {}
  {
    var n := |working| - 1;
    assert forall i: nat :: i < n ==> working[..n][i] == working[i];
  }

  ghost predicate RunsBackwards(ranges: seq<Range>) {
    exists r :: r in ranges && r.end < r.start
  }

  /** Payroll refuses leave, then trips, that end before they begin, and otherwise counts the days of each kind. */
  lemma CountsExactly(working: seq<int>, rows: seq<DayRow>, leaves: seq<Range>, trips: seq<Range>)
    ensures var r := Counted(working, rows, leaves, trips);
            && (r == Err(InvalidLeave) <==> RunsBackwards(leaves))
            && (r == Err(InvalidTrip) <==> !RunsBackwards(leaves) && RunsBackwards(trips))
            && (r.Ok? ==> && r.value.workDays == |working|
                          && r.value.present == |Places(Present, working, rows, leaves, trips)|
                          && r.value.leave == |Places(PaidLeave, working, rows, leaves, trips)|
                                            + |Places(UnpaidLeave, working, rows, leaves, trips)|
                          && r.value.unpaidLeave == |Places(UnpaidLeave, working, rows, leaves, trips)|
                          && r.value.absent == |Places(Absent, working, rows, leaves, trips)|)
  {
    DaysAreCounted(Present, working, rows, leaves, trips);
    DaysAreCounted(PaidLeave, working, rows, leaves, trips);
    DaysAreCounted(UnpaidLeave, working, rows, leaves, trips);
    DaysAreCounted(Absent, working, rows, leaves, trips);
  }
}
