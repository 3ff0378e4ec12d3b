/**
 * The two nightly sweeps over one day: closing days nobody checked out of, and recording days nobody
 * attended. Both read the same per-company index of attendance policies.
 */
module Sweeps {
  import opened Wrappers
  import opened Attendance
  import opened PayrollDays

  // ---------------------------------------------------------------- policies

  datatype PolicyRow = PolicyRow(companyId: Id, branchId: Option<Id>, autoCheckout: bool, autoAbsent: bool)
  datatype Switch = AutoCheckout | AutoAbsent

  function Flag(p: PolicyRow, s: Switch): bool {
    match s
    case AutoCheckout => p.autoCheckout
    case AutoAbsent => p.autoAbsent
  }

  datatype Entry = Entry(branch: map<Id, bool>, fallback: bool)

  /** The last row for the branch itself, among the rows of the company. */
  function OwnRow(rows: seq<PolicyRow>, company: Id, branch: Id): Option<PolicyRow> {
    if rows == [] then None
    else
      var last := rows[|rows| - 1];
      if last.companyId == company && Truthy(last.branchId) && last.branchId.value == branch then Some(last)
      else OwnRow(rows[..|rows| - 1], company, branch)
  }

  /** The last company-wide row. */
  function WideRow(rows: seq<PolicyRow>, company: Id): Option<PolicyRow> {
    if rows == [] then None
    else
      var last := rows[|rows| - 1];
      if last.companyId == company && !Truthy(last.branchId) then Some(last)
      else WideRow(rows[..|rows| - 1], company)
  }

  /** The own branch's row if there is one, else the company-wide row, else off. */
  predicate Direct(rows: seq<PolicyRow>, s: Switch, company: Id, branchId: Option<Id>) {
    var own := if Truthy(branchId) then OwnRow(rows, company, branchId.value) else None;
    var wide := WideRow(rows, company);
    if own.Some? then Flag(own.value, s) else wide.Some? && Flag(wide.value, s)
  }

  predicate Lookup(entry: Entry, branchId: Option<Id>) {
    if Truthy(branchId) && branchId.value in entry.branch then entry.branch[branchId.value] else entry.fallback
  }

  predicate AnyEnabled(entry: Entry) {
    entry.fallback || exists b :: b in entry.branch && entry.branch[b]
  }

  function CompanyOf(rows: seq<PolicyRow>): seq<Id> {
    seq(|rows|, i requires 0 <= i < |rows| => rows[i].companyId)
  }

  /** The companies in the order a Map first meets them. */
  function Companies(rows: seq<PolicyRow>): seq<Id> {
    Dedup(CompanyOf(rows))
  }

  /** What an entry must hold for a company, given the rows met so far. */
  ghost predicate EntryFor(entry: Entry, rows: seq<PolicyRow>, s: Switch, company: Id) {
    && (forall b :: b in entry.branch <==> b != "" && OwnRow(rows, company, b).Some?)
    && (forall b | b in entry.branch :: entry.branch[b] == Flag(OwnRow(rows, company, b).value, s))
    && entry.fallback == (WideRow(rows, company).Some? && Flag(WideRow(rows, company).value, s))
  }

  ghost predicate Indexes(byCompany: map<Id, Entry>, rows: seq<PolicyRow>, s: Switch) {
    && (forall c :: c in byCompany <==> c in CompanyOf(rows))
    && (forall c :: c in byCompany ==> EntryFor(byCompany[c], rows, s, c))
  }

  /** One pass over the rows; each company's entry is updated by the rows met for it. */
  method BuildIndex(rows: seq<PolicyRow>, s: Switch) returns (order: seq<Id>, byCompany: map<Id, Entry>)
    ensures order == Companies(rows)
    ensures Indexes(byCompany, rows, s)
  {
    order, byCompany := [], map[];
    for i := 0 to |rows|
      invariant order == Companies(rows[..i])
      invariant Indexes(byCompany, rows[..i], s)
    {
      var policy := rows[i];
      assert rows[..i + 1][..i] == rows[..i];
      assert CompanyOf(rows[..i + 1]) == CompanyOf(rows[..i]) + [policy.companyId];
      assert CompanyOf(rows[..i + 1])[..i] == CompanyOf(rows[..i]);
      assert rows[..i] + [policy] == rows[..i + 1];
      if policy.companyId !in byCompany {
        NoRowsNoPolicy(rows[..i], policy.companyId);
        order := order + [policy.companyId];
      }
      var entry := if policy.companyId in byCompany then byCompany[policy.companyId] else Entry(map[], false);
      EntryGrows(entry, rows[..i], policy, s);
      if Truthy(policy.branchId) {
        entry := entry.(branch := entry.branch[policy.branchId.value := Flag(policy, s)]);
      } else {
        entry := entry.(fallback := Flag(policy, s));
      }
      IndexGrows(byCompany, rows[..i], policy, entry, s);
      byCompany := byCompany[policy.companyId := entry];
    }
    assert rows[..|rows|] == rows;
  }

  lemma {:induction false} NoRowsNoPolicy(rows: seq<PolicyRow>, company: Id)
    requires company !in CompanyOf(rows)
    ensures WideRow(rows, company).None?
    ensures forall b :: OwnRow(rows, company, b).None?
  {
    if rows != [] {
      assert CompanyOf(rows) == CompanyOf(rows[..|rows| - 1]) + [rows[|rows| - 1].companyId];
      NoRowsNoPolicy(rows[..|rows| - 1], company);
    }
  }

  lemma EntryGrows(entry: Entry, rows: seq<PolicyRow>, policy: PolicyRow, s: Switch)
    requires EntryFor(entry, rows, s, policy.companyId)
    ensures EntryFor(if Truthy(policy.branchId) then entry.(branch := entry.branch[policy.branchId.value := Flag(policy, s)])
                     else entry.(fallback := Flag(policy, s)), rows + [policy], s, policy.companyId)
  {
    assert (rows + [policy])[..|rows|] == rows;
  }

  lemma IndexGrows(byCompany: map<Id, Entry>, rows: seq<PolicyRow>, policy: PolicyRow, entry: Entry, s: Switch)
    requires Indexes(byCompany, rows, s) && EntryFor(entry, rows + [policy], s, policy.companyId)
    ensures Indexes(byCompany[policy.companyId := entry], rows + [policy], s)
  {
    assert CompanyOf(rows + [policy]) == CompanyOf(rows) + [policy.companyId];
    forall c | c in byCompany && c != policy.companyId ensures EntryFor(byCompany[c], rows + [policy], s, c) {
      OtherEntryStays(byCompany[c], rows, policy, s, c);
    }
  }

  lemma OtherEntryStays(entry: Entry, rows: seq<PolicyRow>, policy: PolicyRow, s: Switch, company: Id)
    requires company != policy.companyId && EntryFor(entry, rows, s, company)
    ensures EntryFor(entry, rows + [policy], s, company)
  {
    assert (rows + [policy])[..|rows|] == rows;
  }

  /** The index answers every employee as the direct lookup over the same rows does; an absent company is off. */
  lemma IndexAgreesWithDirect(byCompany: map<Id, Entry>, rows: seq<PolicyRow>, s: Switch, company: Id, branchId: Option<Id>)
    requires Indexes(byCompany, rows, s)
    ensures (company in byCompany && Lookup(byCompany[company], branchId)) == Direct(rows, s, company, branchId)
  {
    if company !in byCompany { NoRowsNoPolicy(rows, company); }
  }

  ghost predicate Agrees(entry: Entry, rows: seq<PolicyRow>, s: Switch, company: Id) {
    forall b: Option<Id> :: Lookup(entry, b) == Direct(rows, s, company, b)
  }

  lemma EntryAgrees(byCompany: map<Id, Entry>, rows: seq<PolicyRow>, s: Switch, company: Id)
    requires Indexes(byCompany, rows, s) && company in byCompany
    ensures Agrees(byCompany[company], rows, s, company)
  {
    forall b: Option<Id> ensures Lookup(byCompany[company], b) == Direct(rows, s, company, b) {
      IndexAgreesWithDirect(byCompany, rows, s, company, b);
    }
  }

  /** Skipping a company with no enabled row leaves out nobody. */
  lemma DisabledCoversNobody(entry: Entry, branchId: Option<Id>)
    requires !AnyEnabled(entry)
    ensures !Lookup(entry, branchId)
  {}

  /** Somebody in the company could be covered. */
  ghost predicate SwitchedOn(rows: seq<PolicyRow>, s: Switch, company: Id) {
    exists b: Option<Id> :: Direct(rows, s, company, b)
  }

  /** A company is kept exactly when its policy is on for some branch or for the rest. */
  lemma EnabledExactly(entry: Entry, rows: seq<PolicyRow>, s: Switch, company: Id)
    requires EntryFor(entry, rows, s, company) && Agrees(entry, rows, s, company)
    ensures AnyEnabled(entry) <==> SwitchedOn(rows, s, company)
  {
    if AnyEnabled(entry) {
      if entry.fallback {
        assert Lookup(entry, None) && Direct(rows, s, company, None);
      } else {
        var b :| b in entry.branch && entry.branch[b];
        assert Lookup(entry, Some(b)) && Direct(rows, s, company, Some(b));
      }
    } else {
      forall b: Option<Id> ensures !Direct(rows, s, company, b) {
        DisabledCoversNobody(entry, b);
      }
    }
  }

  // ---------------------------------------------------------------- the world of one night

  datatype Employee = Employee(id: Id, companyId: Id, branchId: Option<Id>, active: bool)

  /**
   * `scheduledEnd` composes a row's schedule with its branch's or company's time zone on the swept day.
   * `works` is nothing for an employee whose calendar or shift cannot be resolved.
   */
  datatype World = World(date: int, policies: seq<PolicyRow>, payrollOpen: Id -> bool, scheduledEnd: Row -> Option<int>,
                         employees: seq<Employee>, works: Id -> Option<bool>, leaves: Id -> seq<Range>, presence: Id -> seq<Range>)

  // ---------------------------------------------------------------- auto-checkout

  predicate OpenRow(t: Table, w: World, k: Key) {
    k in t && k.date == w.date && !t[k].deleted && t[k].checkIn.Some? && t[k].checkOut.None?
  }

  predicate Candidate(t: Table, w: World, k: Key) {
    OpenRow(t, w, k) && w.payrollOpen(t[k].companyId) && Direct(w.policies, AutoCheckout, t[k].companyId, t[k].branchId)
  }

  predicate Closable(t: Table, w: World, k: Key) {
    Candidate(t, w, k) && w.scheduledEnd(t[k]).Some? && w.scheduledEnd(t[k]).value > t[k].checkIn.value
  }

  /** The table after the sweep has dealt with some of the days. */
  function SweptWithin(t: Table, w: World, keys: set<Key>): Table {
    map k | k in t :: if k in keys && Closable(t, w, k) then SweepClosed(t[k], w.scheduledEnd(t[k]).value) else t[k]
  }

  function Swept(t: Table, w: World): Table {
    SweptWithin(t, w, t.Keys)
  }

  function DaysOfCompany(t: Table, company: Id): set<Key> {
    set k | k in t && t[k].companyId == company
  }

  /** The rows the company's query returns. */
  function OpenDays(t: Table, w: World, company: Id): set<Key> {
    set k | k in t && t[k].companyId == company && OpenRow(t, w, k)
  }

  function Candidates(t: Table, w: World, keys: set<Key>): set<Key> {
    set k | k in keys && Candidate(t, w, k)
  }

  function Closed(t: Table, w: World, keys: set<Key>): set<Key> {
    set k | k in keys && Closable(t, w, k)
  }

  // ---------------------------------------------------------------- auto-absent

  function DayRows(t: Table, w: World, e: Employee): seq<DayRow> {
    var k := PayrollKey(w, e);
    if Live(t, k) && t[k].companyId == e.companyId then [DayRow(w.date, t[k].status)] else []
  }

  function PayrollKey(w: World, e: Employee): Key {
    Key(e.id, w.date)
  }

  /** The ranges a query for the one day returns: those that reach it from both sides. */
  function Loaded(ranges: seq<Range>, date: int): (loaded: seq<Range>)
    ensures Valid(loaded)
    ensures forall r :: r in loaded <==> r in ranges && Covers(r, date)
  {
    if ranges == [] then []
    else if Covers(ranges[0], date) then [ranges[0]] + Loaded(ranges[1..], date)
    else Loaded(ranges[1..], date)
  }

  /** Payroll's own count for the one day. The loaded ranges are never malformed, so it never refuses. */
  function DaySummary(t: Table, w: World, e: Employee): Summary {
    Counted(if w.works(e.id) == Some(true) then [w.date] else [], DayRows(t, w, e), Loaded(w.leaves(e.id), w.date),
            Loaded(w.presence(e.id), w.date)).value
  }

  predicate Covered(w: World, company: Id, e: Employee) {
    e.companyId == company && e.active && Direct(w.policies, AutoAbsent, company, e.branchId)
  }

  function CoveredOf(w: World, company: Id, employees: seq<Employee>): seq<Employee> {
    if employees == [] then []
    else
      var front := CoveredOf(w, company, employees[..|employees| - 1]);
      var last := employees[|employees| - 1];
      if Covered(w, company, last) then front + [last] else front
  }

  predicate IsAbsent(t: Table, w: World, e: Employee) {
    DaySummary(t, w, e).absent == 1
  }

  function Absentees(t: Table, w: World, covered: seq<Employee>): seq<Employee> {
    if covered == [] then []
    else
      var front := Absentees(t, w, covered[..|covered| - 1]);
      var last := covered[|covered| - 1];
      if IsAbsent(t, w, last) then front + [last] else front
  }

  /** `createMany` with `skipDuplicates`: a day that has a row, deleted or not, keeps it. */
  function InsertAbsent(t: Table, w: World, absentees: seq<Employee>): Table {
    if absentees == [] then t
    else
      var front := InsertAbsent(t, w, absentees[..|absentees| - 1]);
      var last := absentees[|absentees| - 1];
      var k := PayrollKey(w, last);
      if k in front then front else front[k := AbsentRow(last.companyId, last.branchId)]
  }

  function AbsentCompany(t: Table, w: World, company: Id): Table {
    if !w.payrollOpen(company) then t
    else InsertAbsent(t, w, Absentees(t, w, CoveredOf(w, company, w.employees)))
  }

  function AbsentCompanies(t: Table, w: World, order: seq<Id>): Table {
    if order == [] then t
    else AbsentCompany(AbsentCompanies(t, w, order[..|order| - 1]), w, order[|order| - 1])
  }

  /** Payroll cannot be loaded when the calendar of a covered employee is missing, ambiguous or malformed. */
  predicate CompanyFails(w: World, company: Id) {
    w.payrollOpen(company) && exists e :: e in CoveredOf(w, company, w.employees) && w.works(e.id).None?
  }

  /** The companies before the first that fails: its error ends the job. */
  function Completed(w: World, order: seq<Id>): (done: seq<Id>)
    ensures done <= order
  {
    if order == [] then []
    else
      var front := Completed(w, order[..|order| - 1]);
      if |front| < |order| - 1 || CompanyFails(w, order[|order| - 1]) then front else order
  }

  function Reached(w: World): seq<Id> {
    Completed(w, Companies(w.policies))
  }

  function SweptAbsent(t: Table, w: World): Table {
    AbsentCompanies(t, w, Reached(w))
  }

  // ---------------------------------------------------------------- the auto-checkout sweep

  /** A closed row ends after it began, and is credited with the time up to the scheduled end and no more. */
  lemma ClosedRowsEndLater(t: Table, w: World, k: Key)
    requires k in t && Swept(t, w)[k] != t[k]
    ensures Candidate(t, w, k) && k.date == w.date
    ensures var row := Swept(t, w)[k];
            && row.checkIn == t[k].checkIn && row.checkOut == w.scheduledEnd(t[k])
            && row.checkIn.Some? && row.checkOut.Some? && row.checkOut.value > row.checkIn.value
            && row.workDuration * MINUTE <= row.checkOut.value - row.checkIn.value + MINUTE / 2
            && row.status == t[k].status && row.companyId == t[k].companyId && row.deleted == t[k].deleted
  {
    assert Closable(t, w, k);
    MinutesAreNearest(w.scheduledEnd(t[k]).value, t[k].checkIn.value);
  }

  /** A second run finds only the rows the first one had to leave, and closes nothing. */
  lemma SecondCheckoutClosesNothing(t: Table, w: World)
    ensures Swept(Swept(t, w), w) == Swept(t, w)
    ensures Closed(Swept(t, w), w, t.Keys) == {}
    ensures Candidates(Swept(t, w), w, t.Keys) == Candidates(t, w, t.Keys) - Closed(t, w, t.Keys)
  {
    var s := Swept(t, w);
    forall k | k in t
      ensures !Closable(s, w, k)
      ensures Candidate(s, w, k) <==> Candidate(t, w, k) && !Closable(t, w, k)
    {}
    assert Swept(s, w) == s;
  }

  lemma SweptWithinComposes(t: Table, w: World, a: set<Key>, b: set<Key>)
    requires a !! b
    ensures SweptWithin(SweptWithin(t, w, a), w, b) == SweptWithin(t, w, a + b)
    ensures Candidates(SweptWithin(t, w, a), w, b) == Candidates(t, w, b)
    ensures Closed(SweptWithin(t, w, a), w, b) == Closed(t, w, b)
  {
    var s := SweptWithin(t, w, a);
    assert forall k :: k in b && k in t ==> s[k] == t[k];
    assert forall k :: k in b ==> (Closable(s, w, k) <==> Closable(t, w, k)) && (Candidate(s, w, k) <==> Candidate(t, w, k));
  }

  // ---------------------------------------------------------------- the auto-absent sweep

  lemma {:induction false} CoveredExactly(w: World, company: Id, employees: seq<Employee>, e: Employee)
    ensures e in CoveredOf(w, company, employees) <==> e in employees && Covered(w, company, e)
  {
    if employees != [] { CoveredExactly(w, company, employees[..|employees| - 1], e); }
  }

  lemma {:induction false} AbsenteesExactly(t: Table, w: World, covered: seq<Employee>, e: Employee)
    ensures e in Absentees(t, w, covered) <==> e in covered && IsAbsent(t, w, e)
  {
    if covered != [] { AbsenteesExactly(t, w, covered[..|covered| - 1], e); }
  }

  predicate HasKey(w: World, employees: seq<Employee>, k: Key) {
    exists e :: e in employees && PayrollKey(w, e) == k
  }

  lemma {:induction false} InsertedExactly(t: Table, w: World, absentees: seq<Employee>, k: Key)
    ensures var after := InsertAbsent(t, w, absentees);
            && (k in after <==> k in t || HasKey(w, absentees, k))
            && (k in t ==> after[k] == t[k])
            && (k in after && k !in t ==>
                  exists e :: e in absentees && PayrollKey(w, e) == k && after[k] == AbsentRow(e.companyId, e.branchId))
  {
    if absentees != [] {
      var front := absentees[..|absentees| - 1];
      InsertedExactly(t, w, front, k);
      InsertedExactly(t, w, front, PayrollKey(w, absentees[|absentees| - 1]));
      assert forall e :: e in absentees <==> e in front || e == absentees[|absentees| - 1];
    }
  }

  /** The day of an absentee without a row: a working day with neither presence nor leave. */
  predicate Missed(w: World, e: Employee) {
    && w.works(e.id) == Some(true) && !OnLeave(w.leaves(e.id), w.date)
    && !exists r :: r in w.presence(e.id) && Covers(r, w.date)
  }

  lemma AbsentWithoutARow(t: Table, w: World, e: Employee)
    requires PayrollKey(w, e) !in t
    ensures IsAbsent(t, w, e) <==> Missed(w, e)
  {
    OneDay(w.works(e.id) == Some(true), w.date, [], Loaded(w.leaves(e.id), w.date), Loaded(w.presence(e.id), w.date));
    assert PresentDates([]) == {};
  }

  /** An employee a company's sweep writes a row for, when the day has none. */
  predicate Due(w: World, company: Id, e: Employee) {
    e in w.employees && w.payrollOpen(company) && Covered(w, company, e) && Missed(w, e)
  }

  predicate UniqueEmployees(w: World) {
    forall i, j :: 0 <= i < j < |w.employees| ==> w.employees[i].id != w.employees[j].id
  }

  lemma SameIdSameEmployee(w: World, e: Employee, f: Employee)
    requires UniqueEmployees(w) && e in w.employees && f in w.employees && e.id == f.id
    ensures e == f
  {}

  lemma CompanyWritesExactly(t: Table, w: World, company: Id, e: Employee)
    requires UniqueEmployees(w) && e in w.employees
    ensures var k := PayrollKey(w, e); var after := AbsentCompany(t, w, company);
            && (k in after <==> k in t || Due(w, company, e))
            && (k in t ==> after[k] == t[k])
            && (k in after && k !in t ==> after[k] == AbsentRow(e.companyId, e.branchId))
  {
    var k := PayrollKey(w, e);
    if w.payrollOpen(company) {
      var covered := CoveredOf(w, company, w.employees);
      var absentees := Absentees(t, w, covered);
      InsertedExactly(t, w, absentees, k);
      CoveredExactly(w, company, w.employees, e);
      AbsenteesExactly(t, w, covered, e);
      forall f | f in absentees && PayrollKey(w, f) == k ensures f == e {
        CoveredExactly(w, company, w.employees, f);
        AbsenteesExactly(t, w, covered, f);
        SameIdSameEmployee(w, e, f);
      }
      if k !in t && e in covered { AbsentWithoutARow(t, w, e); }
    }
  }

  lemma {:induction false} CompaniesWriteExactly(t: Table, w: World, order: seq<Id>, e: Employee)
    requires UniqueEmployees(w) && e in w.employees
    ensures var k := PayrollKey(w, e); var after := AbsentCompanies(t, w, order);
            && (k in after <==> k in t || (e.companyId in order && Due(w, e.companyId, e)))
            && (k in t ==> after[k] == t[k])
            && (k in after && k !in t ==> after[k] == AbsentRow(e.companyId, e.branchId))
  {
    if order != [] {
      var front, last := order[..|order| - 1], order[|order| - 1];
      CompaniesWriteExactly(t, w, front, e);
      CompanyWritesExactly(AbsentCompanies(t, w, front), w, last, e);
      assert e.companyId in order <==> e.companyId in front || e.companyId == last;
    }
  }

  /** Companies without a policy row have nobody covered, so the order of the index leaves none out. */
  lemma EveryCompanyIsVisited(w: World, e: Employee)
    requires Due(w, e.companyId, e)
    ensures e.companyId in Companies(w.policies)
  {
    if e.companyId !in Companies(w.policies) { NoRowsNoPolicy(w.policies, e.companyId); }
  }

  /**
   * The sweep adds a row exactly for each active, covered employee of a company whose payroll is open,
   * whose day was a working day without leave, trip or any row, and leaves every other row as it was.
   */
  lemma AbsentSweepWritesExactly(t: Table, w: World, e: Employee)
    requires UniqueEmployees(w) && e in w.employees
    ensures var k := PayrollKey(w, e); var after := SweptAbsent(t, w);
            && (k in after <==> k in t || (e.companyId in Reached(w) && Due(w, e.companyId, e)))
            && (k in t ==> after[k] == t[k])
            && (k in after && k !in t ==> after[k] == AbsentRow(e.companyId, e.branchId))
  {
    CompaniesWriteExactly(t, w, Reached(w), e);
  }

  /** What the job reaches: all companies exactly when none fails, and otherwise those before the first that does. */
  lemma {:induction false} CompletedExactly(w: World, order: seq<Id>, i: nat)
    requires i < |order|
    ensures i < |Completed(w, order)| <==> forall k :: 0 <= k <= i ==> !CompanyFails(w, order[k])
  {
    var n := |order| - 1;
    if i < n {
      CompletedExactly(w, order[..n], i);
    } else {
      if n > 0 { CompletedExactly(w, order[..n], n - 1); }
      assert forall k :: 0 <= k < n ==> order[..n][k] == order[k];
    }
  }

  /** The first failing company is where the job stops. */
  lemma StopsAtFailure(w: World, order: seq<Id>, i: nat)
    requires i < |order| && Completed(w, order[..i]) == order[..i] && CompanyFails(w, order[i])
    ensures Completed(w, order) == order[..i]
  {
    CompletedExactly(w, order, i);
    if i > 0 {
      CompletedExactly(w, order[..i], i - 1);
      assert forall k :: 0 <= k < i ==> order[..i][k] == order[k];
      CompletedExactly(w, order, i - 1);
    }
  }

  lemma OneMoreCompleted(w: World, order: seq<Id>, i: nat)
    requires i < |order| && Completed(w, order[..i]) == order[..i] && !CompanyFails(w, order[i])
    ensures Completed(w, order[..i + 1]) == order[..i + 1]
  {
    assert order[..i + 1][..i] == order[..i];
  }

  // ---------------------------------------------------------------- the two together

  /** Tables that agree on everything the absence count and the insertion read. */
  predicate SamePayrollView(a: Table, b: Table) {
    && a.Keys == b.Keys
    && forall k :: k in a ==> a[k].status == b[k].status && a[k].companyId == b[k].companyId && a[k].deleted == b[k].deleted
  }

  lemma CheckoutKeepsPayrollView(t: Table, w: World)
    ensures SamePayrollView(t, Swept(t, w))
  {}

  lemma {:induction false} SameViewSameAbsentees(a: Table, b: Table, w: World, covered: seq<Employee>)
    requires SamePayrollView(a, b)
    ensures Absentees(a, w, covered) == Absentees(b, w, covered)
  {
    if covered != [] {
      SameViewSameAbsentees(a, b, w, covered[..|covered| - 1]);
      assert DayRows(a, w, covered[|covered| - 1]) == DayRows(b, w, covered[|covered| - 1]);
    }
  }

  /** A row without a check-in is nothing to the auto-checkout sweep. */
  lemma AbsentRowIsNotClosed(t: Table, w: World, k: Key, company: Id, branchId: Option<Id>)
    requires k !in t
    ensures Swept(t[k := AbsentRow(company, branchId)], w) == Swept(t, w)[k := AbsentRow(company, branchId)]
  {
    var more := t[k := AbsentRow(company, branchId)];
    assert forall x :: x in t ==> more[x] == t[x] && (Closable(more, w, x) <==> Closable(t, w, x));
    assert Swept(more, w).Keys == Swept(t, w)[k := AbsentRow(company, branchId)].Keys;
  }

  lemma {:induction false} InsertCommutes(t: Table, w: World, absentees: seq<Employee>)
    ensures InsertAbsent(Swept(t, w), w, absentees) == Swept(InsertAbsent(t, w, absentees), w)
  {
    if absentees != [] {
      var front, last := absentees[..|absentees| - 1], absentees[|absentees| - 1];
      InsertCommutes(t, w, front);
      var before := InsertAbsent(t, w, front);
      CheckoutKeepsPayrollView(before, w);
      if PayrollKey(w, last) !in before {
        AbsentRowIsNotClosed(before, w, PayrollKey(w, last), last.companyId, last.branchId);
      }
    }
  }

  lemma CompanyCommutes(t: Table, w: World, company: Id)
    ensures AbsentCompany(Swept(t, w), w, company) == Swept(AbsentCompany(t, w, company), w)
  {
    var covered := CoveredOf(w, company, w.employees);
    CheckoutKeepsPayrollView(t, w);
    SameViewSameAbsentees(t, Swept(t, w), w, covered);
    InsertCommutes(t, w, Absentees(t, w, covered));
  }

  lemma {:induction false} CompaniesCommute(t: Table, w: World, order: seq<Id>)
    ensures AbsentCompanies(Swept(t, w), w, order) == Swept(AbsentCompanies(t, w, order), w)
  {
    if order != [] {
      var front, last := order[..|order| - 1], order[|order| - 1];
      CompaniesCommute(t, w, front);
      CompanyCommutes(AbsentCompanies(t, w, front), w, last);
    }
  }

  /**
   * The two sweeps of a day commute: in either order they leave the same table, and the auto-checkout
   * sweep finds and closes the same days.
   */
  lemma SweepsCommute(t: Table, w: World)
    ensures var a := SweptAbsent(t, w);
            && SweptAbsent(Swept(t, w), w) == Swept(a, w)
            && Candidates(a, w, a.Keys) == Candidates(t, w, t.Keys)
            && Closed(a, w, a.Keys) == Closed(t, w, t.Keys)
  {
    var order := Reached(w);
    CompaniesCommute(t, w, order);
    var a := AbsentCompanies(t, w, order);
    CompaniesAddOnlyAbsent(t, w, order);
    forall k ensures Candidate(a, w, k) <==> Candidate(t, w, k) ensures Closable(a, w, k) <==> Closable(t, w, k) {}
    assert Candidates(a, w, a.Keys) == Candidates(t, w, t.Keys);
    assert Closed(a, w, a.Keys) == Closed(t, w, t.Keys);
  }

  /** Every row stays, and every new one is an employee's absence without a check-in. */
  predicate AddsOnlyAbsent(t: Table, w: World, after: Table) {
    && (forall k :: k in t ==> k in after && after[k] == t[k])
    && (forall k :: k in after && k !in t ==>
          after[k].status == ABSENT && after[k].checkIn.None? && HasKey(w, w.employees, k))
  }

  lemma CompanyAddsOnlyAbsent(t: Table, w: World, company: Id)
    ensures AddsOnlyAbsent(t, w, AbsentCompany(t, w, company))
  {
    var covered := CoveredOf(w, company, w.employees);
    var absentees := Absentees(t, w, covered);
    var after := InsertAbsent(t, w, absentees);
    forall k
      ensures k in t ==> k in after && after[k] == t[k]
      ensures k in after && k !in t ==> after[k].status == ABSENT && after[k].checkIn.None? && HasKey(w, w.employees, k)
    {
      InsertedExactly(t, w, absentees, k);
      if k in after && k !in t {
        var e :| e in absentees && PayrollKey(w, e) == k && after[k] == AbsentRow(e.companyId, e.branchId);
        AbsenteesExactly(t, w, covered, e);
        CoveredExactly(w, company, w.employees, e);
      }
    }
  }

  lemma {:induction false} CompaniesAddOnlyAbsent(t: Table, w: World, order: seq<Id>)
    ensures AddsOnlyAbsent(t, w, AbsentCompanies(t, w, order))
  {
    if order != [] {
      CompaniesAddOnlyAbsent(t, w, order[..|order| - 1]);
      CompanyAddsOnlyAbsent(AbsentCompanies(t, w, order[..|order| - 1]), w, order[|order| - 1]);
    }
  }

  /** A second run of the auto-absent sweep changes nothing. */
  lemma SecondAbsentAddsNothing(t: Table, w: World)
    requires UniqueEmployees(w)
    ensures SweptAbsent(SweptAbsent(t, w), w) == SweptAbsent(t, w)
  {
    var once := SweptAbsent(t, w);
    var twice := SweptAbsent(once, w);
    CompaniesAddOnlyAbsent(once, w, Reached(w));
    forall k | k in twice ensures k in once {
      if k !in once {
        var e :| e in w.employees && PayrollKey(w, e) == k;
        AbsentSweepWritesExactly(t, w, e);
        AbsentSweepWritesExactly(once, w, e);
      }
    }
    assert twice.Keys == once.Keys;
  }

  // ---------------------------------------------------------------- neither changes anybody's pay

  /** `rows` are what payroll reads of one employee in a company over a period. */
  ghost predicate Reads(rows: seq<DayRow>, t: Table, company: Id, employeeId: Id, from: int, to: int) {
    forall row :: row in rows <==>
      (from <= row.date <= to && Live(t, Key(employeeId, row.date))
       && t[Key(employeeId, row.date)].companyId == company && t[Key(employeeId, row.date)].status == row.status)
  }

  /** Same presence: every present or late row is in both tables, and says the same. */
  ghost predicate SamePresentRows(t: Table, after: Table) {
    forall k :: IsPresentRow(t, k) || IsPresentRow(after, k) ==>
      && k in t && k in after
      && t[k].status == after[k].status && t[k].companyId == after[k].companyId && t[k].deleted == after[k].deleted
  }

  predicate IsPresentRow(t: Table, k: Key) {
    k in t && (t[k].status == PRESENT || t[k].status == LATE)
  }

  lemma PresentDatesFollowTable(t: Table, after: Table, rows: seq<DayRow>, rows': seq<DayRow>, company: Id,
                                employeeId: Id, from: int, to: int)
    requires SamePresentRows(t, after)
    requires Reads(rows, t, company, employeeId, from, to) && Reads(rows', after, company, employeeId, from, to)
    ensures PresentDates(rows) <= PresentDates(rows')
  {
    forall row | row in rows && CountsAsPresent(row) ensures row in rows' {
      assert IsPresentRow(t, Key(employeeId, row.date));
    }
  }

  lemma SweepsKeepPresentRows(t: Table, w: World)
    ensures SamePresentRows(t, Swept(t, w)) && SamePresentRows(Swept(t, w), t)
    ensures SamePresentRows(t, SweptAbsent(t, w)) && SamePresentRows(SweptAbsent(t, w), t)
  {
    CompaniesAddOnlyAbsent(t, w, Reached(w));
  }

  /**
   * Neither sweep changes what payroll counts: for every employee, company, period, working days, leave
   * and trips, the counted days are the same before and after either of them.
   */
  lemma SweepsChangeNobodysDays(t: Table, w: World, after: Table, company: Id, employeeId: Id, from: int, to: int,
                                rows: seq<DayRow>, rows': seq<DayRow>, working: seq<int>, leaves: seq<Range>, presence: seq<Range>)
    requires after == Swept(t, w) || after == SweptAbsent(t, w)
    requires Reads(rows, t, company, employeeId, from, to) && Reads(rows', after, company, employeeId, from, to)
    ensures Counted(working, rows, leaves, presence) == Counted(working, rows', leaves, presence)
  {
    SweepsKeepPresentRows(t, w);
    PresentDatesFollowTable(t, after, rows, rows', company, employeeId, from, to);
    PresentDatesFollowTable(after, t, rows', rows, company, employeeId, from, to);
    CountsIgnoreOrder(working, rows, rows', leaves, leaves, presence, presence);
  }

  // ---------------------------------------------------------------- the jobs

  datatype CheckoutReport = CheckoutReport(companies: nat, candidates: nat, closed: nat, skippedNoSchedule: nat, closedPeriods: nat)
  datatype CalendarError = UnresolvedSchedule
  datatype AbsentReport = AbsentReport(companies: nat, candidates: nat, created: nat, closedPeriods: nat)

  /** How many of the companies are switched on, or of those how many have their payroll closed. */
  ghost function CountOn(w: World, s: Switch, order: seq<Id>, closedOnly: bool): nat {
    if order == [] then 0
    else
      var last := order[|order| - 1];
      var counts := SwitchedOn(w.policies, s, last) && (closedOnly ==> !w.payrollOpen(last));
      CountOn(w, s, order[..|order| - 1], closedOnly) + if counts then 1 else 0
  }

  function Plus(a: CheckoutReport, b: CheckoutReport): CheckoutReport {
    CheckoutReport(a.companies + b.companies, a.candidates + b.candidates, a.closed + b.closed,
                   a.skippedNoSchedule + b.skippedNoSchedule, a.closedPeriods + b.closedPeriods)
  }

  /** What holds of the table and the report once some companies are dealt with. */
  ghost predicate Reported(t: Table, now: Table, w: World, companies: seq<Id>, r: CheckoutReport) {
    && Progress(t, now, w, DaysOfCompanies(t, companies), r.candidates, r.closed, r.skippedNoSchedule)
    && CompaniesReported(w, companies, r)
  }

  ghost predicate CompaniesReported(w: World, companies: seq<Id>, r: CheckoutReport) {
    && r.companies == CountOn(w, AutoCheckout, companies, false)
    && r.closedPeriods == CountOn(w, AutoCheckout, companies, true)
  }

  datatype DayOutcome = NotCovered | Skips | Closes

  function OutcomeOf(t: Table, w: World, k: Key): DayOutcome {
    if Closable(t, w, k) then Closes else if Candidate(t, w, k) then Skips else NotCovered
  }

  function AfterDay(t: Table, w: World, k: Key): Table {
    if Closable(t, w, k) then t[k := SweepClosed(t[k], w.scheduledEnd(t[k]).value)] else t
  }

  lemma SameDaySameOutcome(t: Table, u: Table, w: World, k: Key)
    requires k in t && k in u && t[k] == u[k]
    ensures OutcomeOf(t, w, k) == OutcomeOf(u, w, k) && (OpenRow(t, w, k) <==> OpenRow(u, w, k))
  {}

  class NightlySweeps {
    var table: Table

    /** One open day: left to its policy, skipped for want of a later scheduled end, or closed. */
    method CloseDay(w: World, k: Key, entry: Entry) returns (outcome: DayOutcome)
      requires OpenRow(table, w, k) && w.payrollOpen(table[k].companyId)
      requires Agrees(entry, w.policies, AutoCheckout, table[k].companyId)
      modifies this
      ensures outcome == OutcomeOf(old(table), w, k)
      ensures table == AfterDay(old(table), w, k)
    {
      var row := table[k];
      if !Lookup(entry, row.branchId) { return NotCovered; }
      var scheduledEnd := w.scheduledEnd(row);
      if scheduledEnd.None? || row.checkIn.None? { return Skips; }
      if scheduledEnd.value <= row.checkIn.value { return Skips; }
      table := table[k := SweepClosed(row, scheduledEnd.value)];
      return Closes;
    }

    /** The open days of one company. */
    method CloseCompany(w: World, company: Id, entry: Entry) returns (candidates: nat, closed: nat, skipped: nat)
      requires w.payrollOpen(company) && Agrees(entry, w.policies, AutoCheckout, company)
      modifies this
      ensures Progress(old(table), table, w, DaysOfCompany(old(table), company), candidates, closed, skipped)
    {
      ghost var t := table;
      candidates, closed, skipped := 0, 0, 0;
      var open := OpenDays(table, w, company);
      ghost var all, done: set<Key> := open, {};
      NoProgressYet(t, w);
      while open != {}
        invariant Split(all, done, open)
        invariant Progress(t, table, w, done, candidates, closed, skipped)
        decreases |open|
      {
        var k :| k in open;
        MoveOne(all, done, open, k);
        open := open - {k};
        ProgressStep(t, table, w, done, candidates, closed, skipped, k);
        done := done + {k};
        var outcome := CloseDay(w, k, entry);
        candidates := candidates + if outcome == NotCovered then 0 else 1;
        closed := closed + if outcome == Closes then 1 else 0;
        skipped := skipped + if outcome == Skips then 1 else 0;
      }
      assert done == all;
      OnlyOpenRowsMatter(t, w, company);
    }

    /** One company: nothing when it is switched off or its payroll period is closed. */
    method SweepCompany(w: World, company: Id, entry: Entry) returns (r: CheckoutReport)
      requires EntryFor(entry, w.policies, AutoCheckout, company) && Agrees(entry, w.policies, AutoCheckout, company)
      modifies this
      ensures Reported(old(table), table, w, [company], r)
    {
      EnabledExactly(entry, w.policies, AutoCheckout, company);
      SingleCompany(table, w, company);
      if !AnyEnabled(entry) {
        NothingToClose(table, w, company);
        return CheckoutReport(0, 0, 0, 0, 0);
      }
      if !w.payrollOpen(company) {
        NothingToClose(table, w, company);
        return CheckoutReport(1, 0, 0, 0, 1);
      }
      var candidates, closed, skipped := CloseCompany(w, company, entry);
      return CheckoutReport(1, candidates, closed, skipped, 0);
    }

    /** Every company of the index in turn. */
    method SweepAutoCheckout(w: World) returns (report: CheckoutReport)
      modifies this
      ensures table == Swept(old(table), w)
      ensures report.candidates == |Candidates(old(table), w, old(table).Keys)|
      ensures report.closed == |Closed(old(table), w, old(table).Keys)|
      ensures report.candidates == report.closed + report.skippedNoSchedule
      ensures report.companies == CountOn(w, AutoCheckout, Companies(w.policies), false)
      ensures report.closedPeriods == CountOn(w, AutoCheckout, Companies(w.policies), true)
    {
      ghost var t := table;
      var order, byCompany := BuildIndex(w.policies, AutoCheckout);
      report := CheckoutReport(0, 0, 0, 0, 0);
      NothingReported(t, w);
      ghost var done: seq<Id> := [];
      for i := 0 to |order|
        invariant done == order[..i]
        invariant Reported(t, table, w, done, report)
      {
        EntryAgrees(byCompany, w.policies, AutoCheckout, order[i]);
        ghost var now := table;
        var r := SweepCompany(w, order[i], byCompany[order[i]]);
        ReportedComposes(t, now, table, w, done, order[i], report, r);
        report := Plus(report, r);
        done := done + [order[i]];
      }
      assert done == order;
      UnlistedCompaniesAreOff(t, w);
    }

    /** One company: nothing when it is switched off, its payroll period is closed, or nobody is absent. */
    method RecordAbsences(w: World, company: Id, entry: Entry) returns (r: Result<AbsentReport, CalendarError>)
      requires EntryFor(entry, w.policies, AutoAbsent, company) && Agrees(entry, w.policies, AutoAbsent, company)
      modifies this
      ensures r.Err? <==> CompanyFails(w, company)
      ensures r.Err? ==> table == old(table)
      ensures r.Ok? ==> table == AbsentCompany(old(table), w, company) && CompanyReported(old(table), table, w, company, r.value)
    {
      EnabledExactly(entry, w.policies, AutoAbsent, company);
      OneCompanyCounted(w, AutoAbsent, company);
      if !AnyEnabled(entry) {
        NobodyCovered(w, company, entry, w.employees);
        return Ok(AbsentReport(0, 0, 0, 0));
      }
      if !w.payrollOpen(company) { return Ok(AbsentReport(1, 0, 0, 1)); }
      var covered := FilterCovered(w, company, entry);
      if covered == [] { return Ok(AbsentReport(1, 0, 0, 0)); }
      if exists e :: e in covered && w.works(e.id).None? { return Err(UnresolvedSchedule); }
      var absentees := Absentees(table, w, covered);
      if absentees == [] { return Ok(AbsentReport(1, 0, 0, 0)); }
      InsertCounts(table, w, absentees);
      var before := |table|;
      table := InsertAbsent(table, w, absentees);
      return Ok(AbsentReport(1, |absentees|, |table| - before, 0));
    }

    /**
     * The companies of the index in turn, one insertion per company. A company whose employees' schedules
     * cannot be resolved ends the job; what earlier companies got stays.
     */
    method SweepAutoAbsent(w: World) returns (r: Result<AbsentReport, CalendarError>)
      modifies this
      ensures table == SweptAbsent(old(table), w)
      ensures r.Ok? <==> Reached(w) == Companies(w.policies)
      ensures r.Ok? ==> AbsencesReported(old(table), table, w, Companies(w.policies), r.value)
    {
      ghost var t := table;
      var order, byCompany := BuildIndex(w.policies, AutoAbsent);
      var report := AbsentReport(0, 0, 0, 0);
      ghost var done: seq<Id> := [];
      for i := 0 to |order|
        invariant done == order[..i] && Completed(w, done) == done
        invariant AbsencesReported(t, table, w, done, report)
      {
        EntryAgrees(byCompany, w.policies, AutoAbsent, order[i]);
        ghost var now := table;
        var one := RecordAbsences(w, order[i], byCompany[order[i]]);
        if one.Err? {
          StopsAtFailure(w, order, i);
          return Err(one.error);
        }
        AbsencesCompose(t, now, table, w, done, order[i], report, one.value);
        OneMoreCompleted(w, order, i);
        report := PlusAbsent(report, one.value);
        done := done + [order[i]];
        assert done == order[..i + 1];
      }
      assert done == order;
      return Ok(report);
    }
  }

  function PlusAbsent(a: AbsentReport, b: AbsentReport): AbsentReport {
    AbsentReport(a.companies + b.companies, a.candidates + b.candidates, a.created + b.created, a.closedPeriods + b.closedPeriods)
  }

  /** What one company adds to the table and the report. */
  ghost predicate CompanyReported(t: Table, now: Table, w: World, company: Id, r: AbsentReport) {
    && |now| == |t| + r.created && r.created <= r.candidates && r.candidates == CompanyAbsentees(t, w, company)
    && r.companies == CountOn(w, AutoAbsent, [company], false) && r.closedPeriods == CountOn(w, AutoAbsent, [company], true)
  }

  /** How many of the company's covered employees payroll counts as absent; none while its period is closed. */
  function CompanyAbsentees(t: Table, w: World, company: Id): nat {
    if w.payrollOpen(company) then |Absentees(t, w, CoveredOf(w, company, w.employees))| else 0
  }

  function AllAbsentees(t: Table, w: World, order: seq<Id>): nat {
    if order == [] then 0
    else
      var front, last := order[..|order| - 1], order[|order| - 1];
      AllAbsentees(t, w, front) + CompanyAbsentees(AbsentCompanies(t, w, front), w, last)
  }

  ghost predicate AbsencesReported(t: Table, now: Table, w: World, companies: seq<Id>, r: AbsentReport) {
    && now == AbsentCompanies(t, w, companies)
    && |now| == |t| + r.created && r.created <= r.candidates && r.candidates == AllAbsentees(t, w, companies)
    && r.companies == CountOn(w, AutoAbsent, companies, false) && r.closedPeriods == CountOn(w, AutoAbsent, companies, true)
  }

  lemma AbsencesCompose(t: Table, now: Table, after: Table, w: World, order: seq<Id>, company: Id, r: AbsentReport, r': AbsentReport)
    requires AbsencesReported(t, now, w, order, r)
    requires after == AbsentCompany(now, w, company) && CompanyReported(now, after, w, company, r')
    ensures AbsencesReported(t, after, w, order + [company], PlusAbsent(r, r'))
  {
    assert (order + [company])[..|order|] == order;
    CountOnStep(w, AutoAbsent, order, company, false);
    CountOnStep(w, AutoAbsent, order, company, true);
  }

  /** `employees.filter(...)` over the company's active employees. */
  method FilterCovered(w: World, company: Id, entry: Entry) returns (covered: seq<Employee>)
    requires Agrees(entry, w.policies, AutoAbsent, company)
    ensures covered == CoveredOf(w, company, w.employees)
  {
    covered := [];
    for i := 0 to |w.employees|
      invariant covered == CoveredOf(w, company, w.employees[..i])
    {
      var e := w.employees[i];
      assert w.employees[..i + 1][..i] == w.employees[..i];
      if e.companyId == company && e.active && Lookup(entry, e.branchId) { covered := covered + [e]; }
    }
    assert w.employees[..|w.employees|] == w.employees;
  }

  lemma {:induction false} NobodyCovered(w: World, company: Id, entry: Entry, employees: seq<Employee>)
    requires !AnyEnabled(entry)
    requires Agrees(entry, w.policies, AutoAbsent, company)
    ensures CoveredOf(w, company, employees) == []
  {
    if employees != [] {
      NobodyCovered(w, company, entry, employees[..|employees| - 1]);
      DisabledCoversNobody(entry, employees[|employees| - 1].branchId);
    }
  }

  lemma {:induction false} InsertCounts(t: Table, w: World, absentees: seq<Employee>)
    ensures |t| <= |InsertAbsent(t, w, absentees)| <= |t| + |absentees|
  {
    if absentees != [] {
      var front, last := absentees[..|absentees| - 1], absentees[|absentees| - 1];
      InsertCounts(t, w, front);
      var before := InsertAbsent(t, w, front);
      var k := PayrollKey(w, last);
      if k !in before {
        assert before[k := AbsentRow(last.companyId, last.branchId)].Keys == before.Keys + {k};
      }
    }
  }

  lemma OneMoreCandidate(t: Table, w: World, done: set<Key>, k: Key)
    requires k !in done
    ensures |Candidates(t, w, done + {k})| == |Candidates(t, w, done)| + (if Candidate(t, w, k) then 1 else 0)
  {
    if Candidate(t, w, k) {
      assert Candidates(t, w, done + {k}) == Candidates(t, w, done) + {k};
    } else {
      assert Candidates(t, w, done + {k}) == Candidates(t, w, done);
    }
  }

  lemma OneMoreClosed(t: Table, w: World, done: set<Key>, k: Key)
    requires k !in done
    ensures |Closed(t, w, done + {k})| == |Closed(t, w, done)| + (if Closable(t, w, k) then 1 else 0)
  {
    if Closable(t, w, k) {
      assert Closed(t, w, done + {k}) == Closed(t, w, done) + {k};
    } else {
      assert Closed(t, w, done + {k}) == Closed(t, w, done);
    }
  }

  predicate Split(all: set<Key>, done: set<Key>, rest: set<Key>) {
    done !! rest && done + rest == all
  }

  lemma MoveOne(all: set<Key>, done: set<Key>, rest: set<Key>, k: Key)
    requires Split(all, done, rest) && k in rest
    ensures Split(all, done + {k}, rest - {k}) && k in all && k !in done
  {}

  /** What holds of the table and the counters once some days are dealt with. */
  ghost predicate Progress(t: Table, now: Table, w: World, done: set<Key>, candidates: nat, closed: nat, skipped: nat) {
    && now == SweptWithin(t, w, done)
    && candidates == |Candidates(t, w, done)| && closed == |Closed(t, w, done)|
    && candidates == closed + skipped
  }

  lemma NoProgressYet(t: Table, w: World)
    ensures Progress(t, t, w, {}, 0, 0, 0)
  {
    assert SweptWithin(t, w, {}) == t;
  }

  lemma ProgressStep(t: Table, now: Table, w: World, done: set<Key>, candidates: nat, closed: nat, skipped: nat, k: Key)
    requires Progress(t, now, w, done, candidates, closed, skipped)
    requires k in t && k !in done
    ensures k in now && now[k] == t[k] && OutcomeOf(now, w, k) == OutcomeOf(t, w, k)
    ensures OpenRow(now, w, k) == OpenRow(t, w, k)
    ensures var outcome := OutcomeOf(t, w, k);
            Progress(t, AfterDay(now, w, k), w, done + {k}, candidates + (if outcome == NotCovered then 0 else 1),
                     closed + (if outcome == Closes then 1 else 0), skipped + (if outcome == Skips then 1 else 0))
  {
    OneMoreCandidate(t, w, done, k);
    OneMoreClosed(t, w, done, k);
    OneMoreSwept(t, w, done, k);
    SameDaySameOutcome(t, now, w, k);
  }

  lemma OneMoreSwept(t: Table, w: World, done: set<Key>, k: Key)
    requires k in t && k !in done
    ensures SweptWithin(t, w, done)[k] == t[k]
    ensures SweptWithin(t, w, done + {k})
         == if OutcomeOf(t, w, k) == Closes then SweptWithin(t, w, done)[k := SweepClosed(t[k], w.scheduledEnd(t[k]).value)]
            else SweptWithin(t, w, done)
  {}

  /** Only the open days of a company can be candidates. */
  lemma OnlyOpenRowsMatter(t: Table, w: World, company: Id)
    ensures SweptWithin(t, w, OpenDays(t, w, company)) == SweptWithin(t, w, DaysOfCompany(t, company))
    ensures Candidates(t, w, OpenDays(t, w, company)) == Candidates(t, w, DaysOfCompany(t, company))
    ensures Closed(t, w, OpenDays(t, w, company)) == Closed(t, w, DaysOfCompany(t, company))
  {}

  lemma CountsCompose(t: Table, w: World, a: set<Key>, b: set<Key>)
    requires a !! b
    ensures |Candidates(t, w, a + b)| == |Candidates(t, w, a)| + |Candidates(t, w, b)|
    ensures |Closed(t, w, a + b)| == |Closed(t, w, a)| + |Closed(t, w, b)|
  {
    assert Candidates(t, w, a + b) == Candidates(t, w, a) + Candidates(t, w, b);
    assert Closed(t, w, a + b) == Closed(t, w, a) + Closed(t, w, b);
  }

  lemma SweptNothing(t: Table, w: World, days: set<Key>)
    requires forall k :: k in days ==> !Candidate(t, w, k)
    ensures Progress(t, t, w, days, 0, 0, 0)
  {
    assert Candidates(t, w, days) == {} && Closed(t, w, days) == {};
    assert SweptWithin(t, w, days) == t;
  }

  lemma NothingToClose(t: Table, w: World, company: Id)
    requires !SwitchedOn(w.policies, AutoCheckout, company) || !w.payrollOpen(company)
    ensures Progress(t, t, w, DaysOfCompany(t, company), 0, 0, 0)
  {
    forall k | k in DaysOfCompany(t, company) ensures !Candidate(t, w, k) {
      assert Direct(w.policies, AutoCheckout, company, t[k].branchId) ==> SwitchedOn(w.policies, AutoCheckout, company);
    }
    SweptNothing(t, w, DaysOfCompany(t, company));
  }

  function DaysOfCompanies(t: Table, companies: seq<Id>): set<Key> {
    set k | k in t && t[k].companyId in companies
  }

  lemma ProgressComposes(t: Table, now: Table, after: Table, w: World, order: seq<Id>, company: Id,
                         candidates: nat, closed: nat, skipped: nat, candidates': nat, closed': nat, skipped': nat)
    requires company !in order
    requires Progress(t, now, w, DaysOfCompanies(t, order), candidates, closed, skipped)
    requires Progress(now, after, w, DaysOfCompany(now, company), candidates', closed', skipped')
    ensures Progress(t, after, w, DaysOfCompanies(t, order + [company]), candidates + candidates', closed + closed',
                     skipped + skipped')
  {
    var done, days := DaysOfCompanies(t, order), DaysOfCompany(t, company);
    assert DaysOfCompany(now, company) == days;
    assert DaysOfCompanies(t, order + [company]) == done + days;
    SweptWithinComposes(t, w, done, days);
    CountsCompose(t, w, done, days);
  }

  lemma CountOnStep(w: World, s: Switch, order: seq<Id>, company: Id, closedOnly: bool)
    ensures CountOn(w, s, order + [company], closedOnly) == CountOn(w, s, order, closedOnly) + CountOn(w, s, [company], closedOnly)
  {
    assert (order + [company])[..|order|] == order;
    assert [company][..0] == [];
  }

  lemma CompaniesReportedComposes(w: World, order: seq<Id>, company: Id, r: CheckoutReport, r': CheckoutReport)
    requires CompaniesReported(w, order, r) && CompaniesReported(w, [company], r')
    ensures CompaniesReported(w, order + [company], Plus(r, r'))
  {
    CountOnStep(w, AutoCheckout, order, company, false);
    CountOnStep(w, AutoCheckout, order, company, true);
  }

  lemma OnlyCompany(t: Table, company: Id)
    ensures DaysOfCompanies(t, [company]) == DaysOfCompany(t, company)
  {}

  lemma ReportedComposes(t: Table, now: Table, after: Table, w: World, order: seq<Id>, company: Id, r: CheckoutReport,
                         r': CheckoutReport)
    requires company !in order && Reported(t, now, w, order, r) && Reported(now, after, w, [company], r')
    ensures Reported(t, after, w, order + [company], Plus(r, r'))
  {
    OnlyCompany(now, company);
    CompaniesReportedComposes(w, order, company, r, r');
    ProgressComposes(t, now, after, w, order, company, r.candidates, r.closed, r.skippedNoSchedule,
                     r'.candidates, r'.closed, r'.skippedNoSchedule);
  }

  lemma SingleCompany(t: Table, w: World, company: Id)
    ensures DaysOfCompanies(t, [company]) == DaysOfCompany(t, company)
    ensures var on := SwitchedOn(w.policies, AutoCheckout, company);
            && CountOn(w, AutoCheckout, [company], false) == (if on then 1 else 0)
            && CountOn(w, AutoCheckout, [company], true) == (if on && !w.payrollOpen(company) then 1 else 0)
  {
    OneCompanyCounted(w, AutoCheckout, company);
  }

  lemma OneCompanyCounted(w: World, s: Switch, company: Id)
    ensures var on := SwitchedOn(w.policies, s, company);
            && CountOn(w, s, [company], false) == (if on then 1 else 0)
            && CountOn(w, s, [company], true) == (if on && !w.payrollOpen(company) then 1 else 0)
  {
    assert [company][..0] == [];
  }

  lemma NothingReported(t: Table, w: World)
    ensures Reported(t, t, w, [], CheckoutReport(0, 0, 0, 0, 0))
  {
    NoProgressYet(t, w);
    assert DaysOfCompanies(t, []) == {};
  }

  /** Rows of companies without a policy are not candidates. */
  lemma UnlistedCompaniesAreOff(t: Table, w: World)
    ensures var done := DaysOfCompanies(t, Companies(w.policies));
            && SweptWithin(t, w, done) == Swept(t, w)
            && Candidates(t, w, done) == Candidates(t, w, t.Keys) && Closed(t, w, done) == Closed(t, w, t.Keys)
  {
    var done := DaysOfCompanies(t, Companies(w.policies));
    forall k | k in t && Candidate(t, w, k) ensures k in done {
      if t[k].companyId !in CompanyOf(w.policies) { NoRowsNoPolicy(w.policies, t[k].companyId); }
    }
  }
}
