/**
 * The nightly sweeps in terms of the policy rows themselves: which row decides for an employee, and what
 * each of its two switches makes happen.
 */
module SweepPolicies {
  import opened Wrappers
  import opened Attendance
  import opened PayrollDays
  import opened Sweeps

  predicate OwnRowAt(rows: seq<PolicyRow>, company: Id, branchId: Option<Id>, i: int) {
    0 <= i < |rows| && rows[i].companyId == company && branchId.Some? && branchId.value != "" && rows[i].branchId == branchId
  }

  predicate WideRowAt(rows: seq<PolicyRow>, company: Id, i: int) {
    0 <= i < |rows| && rows[i].companyId == company && (rows[i].branchId.None? || rows[i].branchId == Some(""))
  }

  /** The row that decides: the last of the own branch, and without any of those the last company-wide one. */
  ghost predicate Decides(rows: seq<PolicyRow>, company: Id, branchId: Option<Id>, i: int) {
    || (OwnRowAt(rows, company, branchId, i) && forall j :: OwnRowAt(rows, company, branchId, j) ==> j <= i)
    || (&& (forall j :: !OwnRowAt(rows, company, branchId, j))
        && WideRowAt(rows, company, i) && forall j :: WideRowAt(rows, company, j) ==> j <= i)
  }

  /** The switch of the deciding row that the sweep looks at. */
  ghost predicate ChecksOut(rows: seq<PolicyRow>, company: Id, branchId: Option<Id>) {
    exists i :: Decides(rows, company, branchId, i) && rows[i].autoCheckout
  }

  ghost predicate MarksAbsent(rows: seq<PolicyRow>, company: Id, branchId: Option<Id>) {
    exists i :: Decides(rows, company, branchId, i) && rows[i].autoAbsent
  }

  lemma {:induction false} OwnRowIsTheLast(rows: seq<PolicyRow>, company: Id, branch: Id)
    requires branch != ""
    ensures OwnRow(rows, company, branch).None? ==> forall i :: !OwnRowAt(rows, company, Some(branch), i)
    ensures OwnRow(rows, company, branch).Some? ==>
              exists i :: OwnRowAt(rows, company, Some(branch), i) && rows[i] == OwnRow(rows, company, branch).value
                          && forall j :: OwnRowAt(rows, company, Some(branch), j) ==> j <= i
  {
    if rows != [] {
      var n := |rows| - 1;
      var front := rows[..n];
      OwnRowIsTheLast(front, company, branch);
      assert forall i :: OwnRowAt(rows, company, Some(branch), i)
               <==> OwnRowAt(front, company, Some(branch), i) || (i == n && OwnRowAt(rows, company, Some(branch), n));
      if OwnRowAt(rows, company, Some(branch), n) { assert OwnRow(rows, company, branch) == Some(rows[n]); }
    }
  }

  lemma {:induction false} WideRowIsTheLast(rows: seq<PolicyRow>, company: Id)
    ensures WideRow(rows, company).None? ==> forall i :: !WideRowAt(rows, company, i)
    ensures WideRow(rows, company).Some? ==>
              exists i :: WideRowAt(rows, company, i) && rows[i] == WideRow(rows, company).value
                          && forall j :: WideRowAt(rows, company, j) ==> j <= i
  {
    if rows != [] {
      var n := |rows| - 1;
      var front := rows[..n];
      WideRowIsTheLast(front, company);
      assert forall i :: WideRowAt(rows, company, i) <==> WideRowAt(front, company, i) || (i == n && WideRowAt(rows, company, n));
      if WideRowAt(rows, company, n) { assert WideRow(rows, company) == Some(rows[n]); }
    }
  }

  /** Either lookup answers by the switch of the deciding row, and off without one. */
  lemma DirectExactly(rows: seq<PolicyRow>, company: Id, branchId: Option<Id>)
    ensures Direct(rows, AutoCheckout, company, branchId) <==> ChecksOut(rows, company, branchId)
    ensures Direct(rows, AutoAbsent, company, branchId) <==> MarksAbsent(rows, company, branchId)
  {
    WideRowIsTheLast(rows, company);
    if Truthy(branchId) { OwnRowIsTheLast(rows, company, branchId.value); }
    forall i, j | Decides(rows, company, branchId, i) && Decides(rows, company, branchId, j) ensures i == j {}
    var own := if Truthy(branchId) then OwnRow(rows, company, branchId.value) else None;
    if own.Some? {
      var i :| OwnRowAt(rows, company, branchId, i) && rows[i] == own.value
               && forall j :: OwnRowAt(rows, company, branchId, j) ==> j <= i;
      assert Decides(rows, company, branchId, i);
    } else if WideRow(rows, company).Some? {
      var i :| WideRowAt(rows, company, i) && rows[i] == WideRow(rows, company).value
               && forall j :: WideRowAt(rows, company, j) ==> j <= i;
      assert Decides(rows, company, branchId, i);
    }
  }

  /**
   * The checkout sweep closes a day exactly when it is open, its period too, the deciding row of its branch
   * has automatic checkout on, and a scheduled end after the check-in is known; it leaves all others.
   */
  lemma CheckoutClosesExactly(t: Table, w: World, k: Key)
    requires k in t
    ensures Swept(t, w).Keys == t.Keys
    ensures Swept(t, w)[k] != t[k] <==>
              && k.date == w.date && !t[k].deleted && t[k].checkIn.Some? && t[k].checkOut.None?
              && w.payrollOpen(t[k].companyId) && ChecksOut(w.policies, t[k].companyId, t[k].branchId)
              && w.scheduledEnd(t[k]).Some? && t[k].checkIn.value < w.scheduledEnd(t[k]).value
  {
    DirectExactly(w.policies, t[k].companyId, t[k].branchId);
  }

  /**
   * The absence sweep writes a row exactly for an active employee without one, in a company it reaches whose
   * period is open, when the deciding row of the branch marks absences and the day was a working day without
   * leave, trip or presence.
   */
  lemma AbsenceIsMarkedExactly(t: Table, w: World, e: Employee)
    requires UniqueEmployees(w) && e in w.employees
    ensures var k := Key(e.id, w.date); var after := SweptAbsent(t, w);
            && (k in after && k !in t <==>
                  && k !in t && e.active && e.companyId in Reached(w) && w.payrollOpen(e.companyId)
                  && MarksAbsent(w.policies, e.companyId, e.branchId)
                  && w.works(e.id) == Some(true)
                  && (forall r :: r in w.leaves(e.id) ==> !(r.start <= w.date <= r.end))
                  && (forall r :: r in w.presence(e.id) ==> !(r.start <= w.date <= r.end)))
            && (k in after && k !in t ==>
                  after[k] == Row(e.companyId, e.branchId, None, None, ABSENT, 0, 0, 0, None, None, Some("auto-absent"), false))
  {
    AbsentSweepWritesExactly(t, w, e);
    DirectExactly(w.policies, e.companyId, e.branchId);
  }

  /** Payroll counts the day as absent exactly for a working day without leave or trip, and without a row that records presence. */
  lemma AbsenteeExactly(t: Table, w: World, e: Employee)
    ensures var k := Key(e.id, w.date);
            IsAbsent(t, w, e) <==>
              && w.works(e.id) == Some(true)
              && (forall r :: r in w.leaves(e.id) ==> !(r.start <= w.date <= r.end))
              && (forall r :: r in w.presence(e.id) ==> !(r.start <= w.date <= r.end))
              && !(k in t && !t[k].deleted && t[k].companyId == e.companyId && (t[k].status == PRESENT || t[k].status == LATE))
  {
    var rows, leaves, presence := DayRows(t, w, e), Loaded(w.leaves(e.id), w.date), Loaded(w.presence(e.id), w.date);
    OneDay(w.works(e.id) == Some(true), w.date, rows, leaves, presence);
    assert rows != [] ==> rows[0] in rows;
  }

  /** The job fails in a company exactly when its period is open and it covers somebody whose working day cannot be told. */
  lemma FailsExactly(w: World, company: Id)
    ensures CompanyFails(w, company) <==>
              w.payrollOpen(company)
              && exists e :: e in w.employees && e.companyId == company && e.active && MarksAbsent(w.policies, company, e.branchId)
                             && w.works(e.id).None?
  {
    forall e ensures e in CoveredOf(w, company, w.employees)
      <==> e in w.employees && e.companyId == company && e.active && MarksAbsent(w.policies, company, e.branchId)
    {
      CoveredExactly(w, company, w.employees, e);
      DirectExactly(w.policies, company, e.branchId);
    }
  }

  /** The company is on for some branch, or for those without one. */
  ghost predicate IsOn(w: World, s: Switch, company: Id) {
    exists b: Option<Id> :: if s.AutoCheckout? then ChecksOut(w.policies, company, b) else MarksAbsent(w.policies, company, b)
  }

  /** The places of the list whose company is on, or of those the ones whose period is closed. */
  ghost function PlacesOn(w: World, s: Switch, order: seq<Id>, closedOnly: bool): set<nat> {
    set i: nat | i < |order| && IsOn(w, s, order[i]) && (closedOnly ==> !w.payrollOpen(order[i]))
  }

  /** The reports count the companies that are on, and of those the ones whose period is closed. */
  lemma {:induction false} CountOnExactly(w: World, s: Switch, order: seq<Id>, closedOnly: bool)
    ensures CountOn(w, s, order, closedOnly) == |PlacesOn(w, s, order, closedOnly)|
  {
    if order == [] {
      assert PlacesOn(w, s, order, closedOnly) == {};
    } else {
      var n := |order| - 1;
      CountOnExactly(w, s, order[..n], closedOnly);
      OnExactly(w, s, order[n]);
      PlacesGrow(w, s, order, closedOnly);
    }
  }

  lemma PlacesGrow(w: World, s: Switch, order: seq<Id>, closedOnly: bool)
    requires |order| > 0
    ensures var n := |order| - 1; var counts := IsOn(w, s, order[n]) && (closedOnly ==> !w.payrollOpen(order[n]));
            PlacesOn(w, s, order, closedOnly) == PlacesOn(w, s, order[..n], closedOnly) + if counts then {n} else {}
  {
    var front := order[..|order| - 1];
    assert forall i: nat :: i < |front| ==> front[i] == order[i];
  }

  lemma OnExactly(w: World, s: Switch, company: Id)
    ensures SwitchedOn(w.policies, s, company) <==> IsOn(w, s, company)
  {
    forall b: Option<Id> ensures Direct(w.policies, s, company, b)
      <==> if s.AutoCheckout? then ChecksOut(w.policies, company, b) else MarksAbsent(w.policies, company, b)
    {
      DirectExactly(w.policies, company, b);
    }
  }
}
