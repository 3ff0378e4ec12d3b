/**
 * Which employees a requester may reach: the configured scope rows of the requester's roles are merged
 * into one, or a default stands in for them, and the scope becomes a filter.
 */
module DataScope {
  import opened Wrappers

  type Id = string

  // ---------------------------------------------------------------- configured rows

  datatype ScopeRow = ScopeRow(companyId: Id, roleCode: string, resource: string, scopeType: string, scopeValue: Option<string>)

  /** How far a scope type restricts; a type that is not listed counts as none. */
  function Rank(scopeType: string): nat {
    match scopeType
    case "COMPANY_ONLY" => 1
    case "BRANCH_ONLY" => 2
    case "OWN_BRANCH" => 2
    case "DEPARTMENT_ONLY" => 3
    case "OWN_DEPARTMENT" => 3
    case "SUB_DEPARTMENT_ONLY" => 4
    case "OWN_SUB_DEPARTMENT" => 4
    case "MANAGER_TEAM" => 5
    case "EMPLOYEE_SELF" => 6
    case _ => 0
  }

  predicate Matches(row: ScopeRow, companyId: Id, roles: seq<string>, resource: string) {
    row.companyId == companyId && row.roleCode in roles && (row.resource == resource || row.resource == "ALL")
  }

  /** The query's rows. */
  function Configured(table: seq<ScopeRow>, companyId: Id, roles: seq<string>, resource: string): (rows: seq<ScopeRow>)
    ensures forall row :: row in rows <==> row in table && Matches(row, companyId, roles, resource)
  {
    if table == [] then []
    else if Matches(table[0], companyId, roles, resource) then [table[0]] + Configured(table[1..], companyId, roles, resource)
    else Configured(table[1..], companyId, roles, resource)
  }

  predicate Replaces(row: ScopeRow, best: ScopeRow, resource: string) {
    || Rank(row.scopeType) > Rank(best.scopeType)
    || (Rank(row.scopeType) == Rank(best.scopeType) && row.resource == resource && best.resource == "ALL")
  }

  /** The row the loop holds after the given rows, starting with the first one. */
  function Merged(rows: seq<ScopeRow>, first: ScopeRow, resource: string): ScopeRow {
    if rows == [] then first
    else
      var best := Merged(rows[..|rows| - 1], first, resource);
      var last := rows[|rows| - 1];
      if Replaces(last, best, resource) then last else best
  }

  /** The merge loop. */
  method MostRestrictive(rows: seq<ScopeRow>, resource: string) returns (r: Option<ScopeRow>)
    ensures r.None? <==> rows == []
    ensures r.Some? ==> r.value == Merged(rows, rows[0], resource) && r.value in rows
    ensures r.Some? ==> forall row :: row in rows ==> Rank(row.scopeType) <= Rank(r.value.scopeType)
    ensures r.Some? && (forall row :: row in rows ==> row.resource == resource || row.resource == "ALL") ==>
              (r.value.resource == resource
               <==> exists row :: row in rows && Rank(row.scopeType) == Rank(r.value.scopeType) && row.resource == resource)
  {
    if rows == [] { return None; }
    var best := rows[0];
    for i := 0 to |rows|
      invariant best == Merged(rows[..i], rows[0], resource)
    {
      assert rows[..i + 1][..i] == rows[..i];
      if Replaces(rows[i], best, resource) { best := rows[i]; }
    }
    assert rows[..|rows|] == rows;
    MergedIsMostRestrictive(rows, resource);
    return Some(best);
  }

  /** The held row is one of those seen, of greatest rank, and specific if a specific one has that rank. */
  lemma {:induction false} MergedSoFar(rows: seq<ScopeRow>, first: ScopeRow, resource: string)
    ensures var best := Merged(rows, first, resource);
            && (best == first || best in rows)
            && Rank(first.scopeType) <= Rank(best.scopeType)
            && (forall row :: row in rows ==> Rank(row.scopeType) <= Rank(best.scopeType))
            && (forall row :: row in rows && Rank(row.scopeType) == Rank(best.scopeType) && row.resource == resource ==>
                  best.resource == resource || best.resource != "ALL")
  {
    if rows != [] {
      var front, last := rows[..|rows| - 1], rows[|rows| - 1];
      MergedSoFar(front, first, resource);
      assert forall row :: row in rows <==> row in front || row == last;
    }
  }

  lemma MergedIsMostRestrictive(rows: seq<ScopeRow>, resource: string)
    requires rows != []
    ensures var best := Merged(rows, rows[0], resource);
            && best in rows
            && (forall row :: row in rows ==> Rank(row.scopeType) <= Rank(best.scopeType))
            && ((forall row :: row in rows ==> row.resource == resource || row.resource == "ALL") ==>
                  (best.resource == resource
                   <==> exists row :: row in rows && Rank(row.scopeType) == Rank(best.scopeType) && row.resource == resource))
  {
    MergedSoFar(rows, rows[0], resource);
  }

  ghost predicate SameRows(a: seq<ScopeRow>, b: seq<ScopeRow>) {
    forall row :: row in a <==> row in b
  }

  /** Whatever order the rows come in, the merged row restricts alike and is specific alike. */
  lemma OrderDoesNotMatter(a: seq<ScopeRow>, b: seq<ScopeRow>, resource: string)
    requires a != [] && b != [] && SameRows(a, b)
    requires forall row :: row in a ==> row.resource == resource || row.resource == "ALL"
    ensures var x, y := Merged(a, a[0], resource), Merged(b, b[0], resource);
            Rank(x.scopeType) == Rank(y.scopeType) && (x.resource == resource <==> y.resource == resource)
  {
    MergedIsMostRestrictive(a, resource);
    MergedIsMostRestrictive(b, resource);
  }

  /** Another configured row, or another role, never lowers the rank of the scope in force. */
  lemma MoreRowsNeverLowerRank(table: seq<ScopeRow>, more: seq<ScopeRow>, companyId: Id, roles: seq<string>,
                               moreRoles: seq<string>, resource: string)
    requires forall row :: row in table ==> row in more
    requires forall role :: role in roles ==> role in moreRoles
    requires Configured(table, companyId, roles, resource) != []
    ensures var a, b := Configured(table, companyId, roles, resource), Configured(more, companyId, moreRoles, resource);
            b != [] && Rank(Merged(a, a[0], resource).scopeType) <= Rank(Merged(b, b[0], resource).scopeType)
  {
    var a, b := Configured(table, companyId, roles, resource), Configured(more, companyId, moreRoles, resource);
    MergedIsMostRestrictive(a, resource);
    var best := Merged(a, a[0], resource);
    assert Matches(best, companyId, moreRoles, resource) && best in more;
    assert best in b;
    MergedIsMostRestrictive(b, resource);
  }

  // ---------------------------------------------------------------- the scope in force

  datatype Scope = Scope(scopeType: string, scopeValue: Option<string>, team: Option<seq<Id>>, isDefault: bool)

  datatype User = User(roles: seq<string>, companyId: Option<Id>, employeeId: Option<Id>, companyScope: seq<Id>,
                       branchId: Option<Id>, departmentId: Option<Id>, subDepartmentId: Option<Id>, team: Option<seq<Id>>)

  datatype Error = CrossCompany | InvalidValue | NoIdentifiers | NoEmployee | Unsupported

  const COMPANY_WIDE_DEFAULT_ROLES := ["SUPER_ADMIN", "GROUP_ADMIN", "COMPANY_ADMIN", "HR_MANAGER", "HR_STAFF", "FINANCE"]

  predicate CompanyWide(roles: seq<string>) {
    exists role :: role in roles && role in COMPANY_WIDE_DEFAULT_ROLES
  }

  function DefaultScope(roles: seq<string>): Option<Scope> {
    if CompanyWide(roles) then None
    else if "MANAGER" in roles then Some(Scope("MANAGER_TEAM", None, None, true))
    else Some(Scope("EMPLOYEE_SELF", None, None, true))
  }

  predicate CompanyAllowed(user: User, companyId: Id) {
    if "SUPER_ADMIN" in user.roles then Truthy(user.companyId) && user.companyId == Some(companyId)
    else if user.companyScope != [] then companyId in user.companyScope
    else Truthy(user.companyId) && user.companyId == Some(companyId)
  }

  /**
   * Without the role of all companies a requester may act in the companies of their scope, or with no scope
   * in their own; with that role, only in the one selected.
   */
  lemma CompanyAllowedExactly(user: User, companyId: Id)
    ensures CompanyAllowed(user, companyId) <==>
              if "SUPER_ADMIN" in user.roles then user.companyId == Some(companyId) && companyId != ""
              else companyId in user.companyScope || (user.companyScope == [] && user.companyId == Some(companyId) && companyId != "")
  {
    if user.companyScope != [] { assert user.companyScope[0] in user.companyScope; }
  }

  /** The configured row if there is one, else the default; a team scope names its team at once. */
  function ScopeInForce(table: seq<ScopeRow>, teamOf: Id -> seq<Id>, user: User, companyId: Id, resource: string): Option<Scope> {
    var rows := Configured(table, companyId, user.roles, resource);
    var scope := if rows == [] then DefaultScope(user.roles)
                 else var row := Merged(rows, rows[0], resource); Some(Scope(row.scopeType, row.scopeValue, None, false));
    if scope.Some? && scope.value.scopeType == "MANAGER_TEAM" && Truthy(user.employeeId)
    then Some(scope.value.(team := Some(teamOf(user.employeeId.value)))) else scope
  }

  // ---------------------------------------------------------------- the filter

  datatype Unit = Branch | Department | SubDepartment

  /** `Everyone` carries no condition; the others name the employees or the units that match. */
  datatype Filter = Everyone | Employees(ids: seq<Id>) | Units(unit: Unit, ids: seq<Id>)

  function Split(s: string): (parts: seq<string>)
    ensures |parts| > 0
  {
    if s == "" then [""]
    else
      var rest := Split(s[1..]);
      if s[0] == ',' then [""] + rest else [[s[0]] + rest[0]] + rest[1..]
  }

  function NonBlank(parts: seq<string>): (ids: seq<Id>)
    ensures forall id :: id in ids ==> id != ""
  {
    if parts == [] then []
    else if Trim(parts[0]) == "" then NonBlank(parts[1..])
    else [Trim(parts[0])] + NonBlank(parts[1..])
  }

  predicate TrimsTo(parts: seq<string>, id: Id) {
    exists i :: 0 <= i < |parts| && Trim(parts[i]) == id
  }

  /** What is kept are the trimmed parts that are not blank. */
  lemma {:induction false} NonBlankExactly(parts: seq<string>, id: Id)
    ensures id in NonBlank(parts) <==> id != "" && TrimsTo(parts, id)
  {
    if parts != [] {
      NonBlankExactly(parts[1..], id);
      assert TrimsTo(parts, id) <==> Trim(parts[0]) == id || TrimsTo(parts[1..], id) by {
        assert forall i :: 1 <= i < |parts| ==> parts[i] == parts[1..][i - 1];
      }
    }
  }

  /** The trimmed, non-blank parts of the comma-separated value. */
  function Ids(value: Option<string>): seq<Id> {
    if value.Some? then NonBlank(Split(value.value)) else []
  }

  function ListedUnit(scopeType: string): Option<Unit> {
    match scopeType
    case "BRANCH_ONLY" => Some(Branch)
    case "DEPARTMENT_ONLY" => Some(Department)
    case "SUB_DEPARTMENT_ONLY" => Some(SubDepartment)
    case _ => None
  }

  /** Scopes that list units need a value, and each listed part must be an identifier. */
  predicate ValidValue(scopeType: string, value: Option<string>) {
    ListedUnit(scopeType).Some? ==> Truthy(value) && forall id :: id in Ids(value) ==> IsUuid(id)
  }

  function OwnUnit(unit: Unit, id: Option<Id>): Filter {
    if Truthy(id) then Units(unit, [id.value]) else Employees([])
  }

  /** A configured row refuses a requester without an employee; the default matches nobody. */
  function DenyOrNothing(scope: Scope): Result<Filter, Error> {
    if scope.isDefault then Ok(Employees([])) else Err(NoEmployee)
  }

  function OrElse<T>(a: Option<T>, b: Option<T>): Option<T> {
    if a.Some? then a else b
  }

  function ResolveFilter(scope: Option<Scope>, user: User): Result<Filter, Error> {
    if scope.None? then Ok(Everyone)
    else
      var s := scope.value;
      if !ValidValue(s.scopeType, s.scopeValue) then Err(InvalidValue)
      else if ListedUnit(s.scopeType).Some? then
        if Ids(s.scopeValue) == [] then Err(NoIdentifiers) else Ok(Units(ListedUnit(s.scopeType).value, Ids(s.scopeValue)))
      else match s.scopeType
        case "OWN_BRANCH" => Ok(OwnUnit(Branch, user.branchId))
        case "OWN_DEPARTMENT" => Ok(OwnUnit(Department, user.departmentId))
        case "OWN_SUB_DEPARTMENT" => Ok(OwnUnit(SubDepartment, user.subDepartmentId))
        case "MANAGER_TEAM" =>
          var team := OrElse(s.team, user.team);
          if team.Some? && team.value != [] then Ok(Employees(Dedup(team.value)))
          else if Truthy(user.employeeId) then Ok(Employees([user.employeeId.value]))
          else DenyOrNothing(s)
        case "ALL" => Ok(Everyone)
        case "COMPANY_ONLY" => Ok(Everyone)
        case "EMPLOYEE_SELF" =>
          if Truthy(user.employeeId) then Ok(Employees([user.employeeId.value])) else DenyOrNothing(s)
        case _ => Err(Unsupported)
  }

  function Resolve(table: seq<ScopeRow>, teamOf: Id -> seq<Id>, user: User, companyId: Id,
                   resource: string): Result<Filter, Error> {
    if !CompanyAllowed(user, companyId) then Err(CrossCompany)
    else ResolveFilter(ScopeInForce(table, teamOf, user, companyId, resource), user)
  }

  // ---------------------------------------------------------------- who is reached

  datatype Employee = Employee(id: Id, branchId: Option<Id>, departmentId: Option<Id>, subDepartmentId: Option<Id>)

  function UnitOf(e: Employee, unit: Unit): Option<Id> {
    match unit
    case Branch => e.branchId
    case Department => e.departmentId
    case SubDepartment => e.subDepartmentId
  }

  predicate Reaches(f: Filter, e: Employee) {
    match f
    case Everyone => true
    case Employees(ids) => e.id in ids
    case Units(unit, ids) => UnitOf(e, unit).Some? && UnitOf(e, unit).value in ids
  }

  predicate Unrestricting(scopeType: string) {
    scopeType == "ALL" || scopeType == "COMPANY_ONLY"
  }

  /**
   * The whole company is reached exactly when no row is configured and a role has that default, or when
   * the merged row is ALL or COMPANY_ONLY, and the requester may act in the company at all.
   */
  lemma EveryoneExactly(table: seq<ScopeRow>, teamOf: Id -> seq<Id>, user: User, companyId: Id,
                        resource: string)
    ensures var rows := Configured(table, companyId, user.roles, resource);
            Resolve(table, teamOf, user, companyId, resource) == Ok(Everyone)
            <==> && CompanyAllowed(user, companyId)
                 && if rows == [] then CompanyWide(user.roles) else Unrestricting(Merged(rows, rows[0], resource).scopeType)
  {
    FilterIsEveryoneExactly(ScopeInForce(table, teamOf, user, companyId, resource), user);
  }

  lemma FilterIsEveryoneExactly(scope: Option<Scope>, user: User)
    ensures ResolveFilter(scope, user) == Ok(Everyone) <==> scope.None? || Unrestricting(scope.value.scopeType)
  {}

  /** A configured row that restricts is never ignored: with one, the filter is not everyone. */
  lemma NoRestrictionIsIgnored(table: seq<ScopeRow>, teamOf: Id -> seq<Id>, user: User, companyId: Id,
                               resource: string, row: ScopeRow)
    requires row in table && Matches(row, companyId, user.roles, resource) && Rank(row.scopeType) >= 2
    ensures Resolve(table, teamOf, user, companyId, resource) != Ok(Everyone)
  {
    var rows := Configured(table, companyId, user.roles, resource);
    assert row in rows;
    MergedIsMostRestrictive(rows, resource);
    EveryoneExactly(table, teamOf, user, companyId, resource);
  }

  /** Without a configured row and without a company-wide role, a requester reaches a team, self, or nobody. */
  lemma DefaultIsClosed(table: seq<ScopeRow>, teamOf: Id -> seq<Id>, user: User, companyId: Id,
                        resource: string, e: Employee)
    requires Configured(table, companyId, user.roles, resource) == [] && !CompanyWide(user.roles) && CompanyAllowed(user, companyId)
    ensures var r := Resolve(table, teamOf, user, companyId, resource);
            && r.Ok? && r.value.Employees?
            && (Reaches(r.value, e) ==>
                  || (Truthy(user.employeeId) && e.id == user.employeeId.value)
                  || ("MANAGER" in user.roles && Truthy(user.employeeId) && e.id in teamOf(user.employeeId.value))
                  || ("MANAGER" in user.roles && !Truthy(user.employeeId) && user.team.Some? && e.id in user.team.value))
  {}

  // ---------------------------------------------------------------- scopes by what they mean

  /** Who a scope is for, by its type: listed units, the requester's own unit, a team, oneself, or everyone. */
  predicate InScope(s: Scope, user: User, e: Employee) {
    match s.scopeType
    case "BRANCH_ONLY" => e.branchId.Some? && e.branchId.value in Ids(s.scopeValue)
    case "DEPARTMENT_ONLY" => e.departmentId.Some? && e.departmentId.value in Ids(s.scopeValue)
    case "SUB_DEPARTMENT_ONLY" => e.subDepartmentId.Some? && e.subDepartmentId.value in Ids(s.scopeValue)
    case "OWN_BRANCH" => Truthy(user.branchId) && e.branchId == user.branchId
    case "OWN_DEPARTMENT" => Truthy(user.departmentId) && e.departmentId == user.departmentId
    case "OWN_SUB_DEPARTMENT" => Truthy(user.subDepartmentId) && e.subDepartmentId == user.subDepartmentId
    case "MANAGER_TEAM" =>
      var team := OrElse(s.team, user.team);
      if team.Some? && team.value != [] then e.id in team.value else Truthy(user.employeeId) && e.id == user.employeeId.value
    case "EMPLOYEE_SELF" => Truthy(user.employeeId) && e.id == user.employeeId.value
    case _ => true
  }

  /** A scope that resolves reaches exactly the employees it is for. */
  lemma ReachExactly(s: Scope, user: User, e: Employee)
    requires ResolveFilter(Some(s), user).Ok?
    ensures Reaches(ResolveFilter(Some(s), user).value, e) <==> InScope(s, user, e)
  {}

  /** A scope with listed units is accepted exactly when it lists one at least and nothing but identifiers. */
  lemma ListedUnitsAreValid(s: Scope, user: User)
    requires ListedUnit(s.scopeType).Some?
    ensures ResolveFilter(Some(s), user).Ok? <==> Ids(s.scopeValue) != [] && forall id :: id in Ids(s.scopeValue) ==> IsUuid(id)
  {
    if s.scopeValue == Some("") {
      assert Split("") == [""] && [""][1..] == [] && Ids(s.scopeValue) == [];
    }
  }

  // ---------------------------------------------------------------- when one reach is inside another

  /** A name that is longer than every name of the list. */
  function Fresh(ids: seq<Id>): (id: Id)
    ensures id !in ids && forall x :: x in ids ==> |x| < |id|
  {
    if ids == [] then "x"
    else
      var rest := Fresh(ids[1..]);
      assert ids == [ids[0]] + ids[1..];
      if |ids[0]| < |rest| then rest else ids[0] + "x"
  }

  predicate Subset(a: seq<Id>, b: seq<Id>) {
    forall id :: id in a ==> id in b
  }

  ghost predicate Inside(narrow: Filter, wide: Filter) {
    forall e :: Reaches(narrow, e) ==> Reaches(wide, e)
  }

  predicate SameKind(a: Filter, b: Filter) {
    (a.Employees? && b.Employees?) || (a.Units? && b.Units? && a.unit == b.unit)
  }

  /** An employee of one unit and no other. */
  function MemberOf(id: Id, unit: Unit, unitId: Id): Employee {
    Employee(id, if unit == Branch then Some(unitId) else None, if unit == Department then Some(unitId) else None,
             if unit == SubDepartment then Some(unitId) else None)
  }

  /** An employee of the narrower filter that a wider one of another kind, or without the id, misses. */
  function Witness(narrow: Filter, wide: Filter, id: Id): Employee
    requires !wide.Everyone?
  {
    var other := if wide.Employees? then Fresh(wide.ids) else "x";
    match narrow
    case Everyone => Employee(other, None, None, None)
    case Employees(_) => Employee(id, None, None, None)
    case Units(unit, _) => MemberOf(other, unit, id)
  }

  /**
   * One filter reaches nobody outside another exactly when the wider one is everyone, or the narrower
   * names nobody, or both name employees, or units of one kind, and the wider names all of the narrower's.
   */
  lemma NarrowsExactly(narrow: Filter, wide: Filter)
    ensures Inside(narrow, wide) <==>
              || wide.Everyone?
              || (!narrow.Everyone? && narrow.ids == [])
              || (SameKind(narrow, wide) && Subset(narrow.ids, wide.ids))
  {
    if !wide.Everyone? {
      if narrow.Everyone? {
        assert !Reaches(wide, Witness(narrow, wide, ""));
      } else if narrow.ids != [] && !(SameKind(narrow, wide) && Subset(narrow.ids, wide.ids)) {
        var id := if SameKind(narrow, wide) then Missing(narrow.ids, wide.ids) else narrow.ids[0];
        assert Reaches(narrow, Witness(narrow, wide, id)) && !Reaches(wide, Witness(narrow, wide, id));
      }
    }
  }

  function Missing(a: seq<Id>, b: seq<Id>): (id: Id)
    requires !Subset(a, b)
    ensures id in a && id !in b
  {
    if a[0] !in b then a[0] else assert a == [a[0]] + a[1..]; Missing(a[1..], b)
  }

  /** The kind of unit a scope type speaks of; the others speak of employees. */
  function KindOf(scopeType: string): Option<Unit> {
    match scopeType
    case "BRANCH_ONLY" => Some(Branch)
    case "OWN_BRANCH" => Some(Branch)
    case "DEPARTMENT_ONLY" => Some(Department)
    case "OWN_DEPARTMENT" => Some(Department)
    case "SUB_DEPARTMENT_ONLY" => Some(SubDepartment)
    case "OWN_SUB_DEPARTMENT" => Some(SubDepartment)
    case _ => None
  }

  function IfAny(id: Option<Id>): seq<Id> {
    if Truthy(id) then [id.value] else []
  }

  /** The units or employees a scope names, from its type, its value and the requester. */
  function Named(s: Scope, user: User): seq<Id> {
    match s.scopeType
    case "OWN_BRANCH" => IfAny(user.branchId)
    case "OWN_DEPARTMENT" => IfAny(user.departmentId)
    case "OWN_SUB_DEPARTMENT" => IfAny(user.subDepartmentId)
    case "MANAGER_TEAM" =>
      var team := OrElse(s.team, user.team);
      if team.Some? && team.value != [] then team.value else IfAny(user.employeeId)
    case "EMPLOYEE_SELF" => IfAny(user.employeeId)
    case _ => Ids(s.scopeValue)
  }

  /** Checkable from the two scopes and the requester alone. */
  predicate Narrows(narrow: Scope, wide: Scope, user: User) {
    || Unrestricting(wide.scopeType)
    || (&& !Unrestricting(narrow.scopeType)
        && (Named(narrow, user) == []
            || (KindOf(narrow.scopeType) == KindOf(wide.scopeType) && Subset(Named(narrow, user), Named(wide, user)))))
  }

  /** The filter of a scope: everyone, nobody, or the units or employees it names. */
  lemma FilterNames(s: Scope, user: User)
    requires ResolveFilter(Some(s), user).Ok?
    ensures var f, kind := ResolveFilter(Some(s), user).value, KindOf(s.scopeType);
            && (f.Everyone? <==> Unrestricting(s.scopeType))
            && (!f.Everyone? ==> (f.ids == [] <==> Named(s, user) == []) && forall id :: id in f.ids <==> id in Named(s, user))
            && (!f.Everyone? && f.ids != [] ==> if kind.Some? then f.Units? && f.unit == kind.value else f.Employees?)
  {
    if ListedUnit(s.scopeType).Some? {
      ListedUnitsAreValid(s, user);
    } else if s.scopeType == "MANAGER_TEAM" {
      var team := OrElse(s.team, user.team);
      if team.Some? && team.value != [] {
        var ids := Dedup(team.value);
        assert team.value[0] in ids;
      }
    }
  }

  /** One accepted scope is for nobody the other is not for exactly when it narrows it by type, value and requester. */
  lemma ScopeNarrowsExactly(narrow: Scope, wide: Scope, user: User)
    requires ResolveFilter(Some(narrow), user).Ok? && ResolveFilter(Some(wide), user).Ok?
    ensures (forall e :: InScope(narrow, user, e) ==> InScope(wide, user, e)) <==> Narrows(narrow, wide, user)
  {
    var f, g := ResolveFilter(Some(narrow), user).value, ResolveFilter(Some(wide), user).value;
    forall e
      ensures Reaches(f, e) <==> InScope(narrow, user, e)
      ensures Reaches(g, e) <==> InScope(wide, user, e)
    {
      ReachExactly(narrow, user, e);
      ReachExactly(wide, user, e);
    }
    assert Inside(f, g) <==> forall e :: InScope(narrow, user, e) ==> InScope(wide, user, e);
    NarrowsExactly(f, g);
    FilterNames(narrow, user);
    FilterNames(wide, user);
    NarrowsByNames(f, g, narrow, wide, user);
  }

  lemma NarrowsByNames(f: Filter, g: Filter, narrow: Scope, wide: Scope, user: User)
    requires f.Everyone? <==> Unrestricting(narrow.scopeType)
    requires g.Everyone? <==> Unrestricting(wide.scopeType)
    requires !f.Everyone? ==> (f.ids == [] <==> Named(narrow, user) == []) && forall id :: id in f.ids <==> id in Named(narrow, user)
    requires !g.Everyone? ==> (g.ids == [] <==> Named(wide, user) == []) && forall id :: id in g.ids <==> id in Named(wide, user)
    requires !f.Everyone? && f.ids != [] ==>
               if KindOf(narrow.scopeType).Some? then f.Units? && f.unit == KindOf(narrow.scopeType).value else f.Employees?
    requires !g.Everyone? && g.ids != [] ==>
               if KindOf(wide.scopeType).Some? then g.Units? && g.unit == KindOf(wide.scopeType).value else g.Employees?
    ensures (g.Everyone? || (!f.Everyone? && f.ids == []) || (SameKind(f, g) && Subset(f.ids, g.ids))) <==> Narrows(narrow, wide, user)
  {
    if !f.Everyone? && !g.Everyone? && f.ids != [] {
      assert f.ids[0] in f.ids;
      if g.ids == [] {
        assert f.ids[0] !in g.ids;
        assert !Subset(f.ids, g.ids) && !Subset(Named(narrow, user), Named(wide, user));
      } else {
        assert SameKind(f, g) <==> KindOf(narrow.scopeType) == KindOf(wide.scopeType);
      }
    }
  }

  predicate InForceNarrows(after: Option<Scope>, before: Option<Scope>, user: User) {
    || before.None?
    || Unrestricting(before.value.scopeType)
    || (after.Some? && Narrows(after.value, before.value, user))
  }

  /**
   * A change of the configured rows gives a requester nobody new exactly when the scope in force after it
   * narrows the one before, which both tables and the requester determine.
   */
  lemma ChangedRowsNarrowExactly(before: seq<ScopeRow>, after: seq<ScopeRow>, teamOf: Id -> seq<Id>, user: User, companyId: Id,
                                 resource: string)
    requires Resolve(before, teamOf, user, companyId, resource).Ok? && Resolve(after, teamOf, user, companyId, resource).Ok?
    ensures Inside(Resolve(after, teamOf, user, companyId, resource).value, Resolve(before, teamOf, user, companyId, resource).value)
       <==> InForceNarrows(ScopeInForce(after, teamOf, user, companyId, resource), ScopeInForce(before, teamOf, user, companyId, resource), user)
  {
    var s, t := ScopeInForce(after, teamOf, user, companyId, resource), ScopeInForce(before, teamOf, user, companyId, resource);
    var f, g := Resolve(after, teamOf, user, companyId, resource).value, Resolve(before, teamOf, user, companyId, resource).value;
    NarrowsExactly(f, g);
    FilterIsEveryoneExactly(s, user);
    FilterIsEveryoneExactly(t, user);
    if s.Some? && t.Some? {
      FilterNames(s.value, user);
      FilterNames(t.value, user);
      NarrowsByNames(f, g, s.value, t.value, user);
    }
  }

  const BRANCH_ID := "0f8fad5b-d9cb-469f-a165-70867728950e"
  const DEPARTMENT_ID := "7c9e6679-7425-40de-944b-e07fc1f90ae7"

  lemma {:induction false} OnePart(s: string)
    requires ',' !in s
    ensures Split(s) == [s]
  {
    if s != "" {
      assert s == [s[0]] + s[1..];
      OnePart(s[1..]);
      assert [s[1..]][1..] == [];
    }
  }

  /** An identifier is a list of itself. */
  lemma UuidIsOneId(id: string)
    requires IsUuid(id)
    ensures Ids(Some(id)) == [id]
  {
    forall c | c in id ensures c != ',' && !IsSpace(c) {
      var i :| 0 <= i < |id| && id[i] == c;
    }
    OnePart(id);
    assert id[0] in id && id[|id| - 1] in id;
    assert Trim(id) == id;
    assert [id][1..] == [] && NonBlank([]) == [];
  }

  /** A branch row of one role, and a department row of another. */
  function BranchRow(companyId: Id, role: string, branch: Id): ScopeRow {
    ScopeRow(companyId, role, "ALL", "BRANCH_ONLY", Some(branch))
  }

  function DepartmentRow(companyId: Id, role: string, department: Id): ScopeRow {
    ScopeRow(companyId, role, "ALL", "DEPARTMENT_ONLY", Some(department))
  }

  lemma OneRow(row: ScopeRow, companyId: Id, roles: seq<string>, resource: string)
    requires Matches(row, companyId, roles, resource)
    ensures Configured([row], companyId, roles, resource) == [row] && Merged([row], row, resource) == row
  {
    assert [row][1..] == [] && [row][..0] == [];
    assert Configured([], companyId, roles, resource) == [];
    assert [row] + [] == [row];
  }

  lemma TwoRows(a: ScopeRow, b: ScopeRow, companyId: Id, roles: seq<string>, resource: string)
    requires Matches(a, companyId, roles, resource) && Matches(b, companyId, roles, resource)
    requires Rank(b.scopeType) > Rank(a.scopeType)
    ensures Configured([a, b], companyId, roles, resource) == [a, b] && Merged([a, b], a, resource) == b
  {
    OneRow(a, companyId, roles, resource);
    OneRow(b, companyId, roles, resource);
    assert [a, b][1..] == [b] && [a, b][..1] == [a] && [a] + [b] == [a, b];
  }

  /**
   * So a higher rank is not a smaller reach: whatever the branch and the department, adding a row of a
   * second role raises the rank and lets the requester reach employees of the department in other branches.
   */
  lemma HigherRankReachesOthers(teamOf: Id -> seq<Id>, user: User, companyId: Id, resource: string, branchRole: string,
                                departmentRole: string, branch: Id, department: Id, e: Employee)
    requires IsUuid(branch) && IsUuid(department) && CompanyAllowed(user, companyId)
    requires branchRole in user.roles && departmentRole in user.roles
    requires e.departmentId == Some(department) && e.branchId != Some(branch)
    ensures var before := [BranchRow(companyId, branchRole, branch)];
            var after := before + [DepartmentRow(companyId, departmentRole, department)];
            var f, g := Resolve(before, teamOf, user, companyId, resource), Resolve(after, teamOf, user, companyId, resource);
            && f == Ok(Units(Branch, [branch])) && g == Ok(Units(Department, [department]))
            && !Reaches(f.value, e) && Reaches(g.value, e) && !Inside(g.value, f.value)
  {
    var a, b := BranchRow(companyId, branchRole, branch), DepartmentRow(companyId, departmentRole, department);
    UuidIsOneId(branch);
    UuidIsOneId(department);
    OneRow(a, companyId, user.roles, resource);
    TwoRows(a, b, companyId, user.roles, resource);
    assert [a] + [b] == [a, b];
    assert !Reaches(Units(Branch, [branch]), e) && Reaches(Units(Department, [department]), e);
  }

  /** There are such identifiers. */
  lemma SomeUuids()
    ensures IsUuid(BRANCH_ID) && IsUuid(DEPARTMENT_ID) && BRANCH_ID != DEPARTMENT_ID
  {}

  // ---------------------------------------------------------------- the service

  class AdministrationService {
    const scopeRows: seq<ScopeRow>
    const teamOf: Id -> seq<Id>

    constructor (scopeRows: seq<ScopeRow>, teamOf: Id -> seq<Id>)
      ensures this.scopeRows == scopeRows && this.teamOf == teamOf
    {
      this.scopeRows, this.teamOf := scopeRows, teamOf;
    }

    method FindMyDataScope(user: User, companyId: Id, resource: string) returns (r: Result<Option<Scope>, Error>)
      ensures r.Ok? <==> if "SUPER_ADMIN" in user.roles then user.companyId == Some(companyId) && companyId != ""
                         else companyId in user.companyScope
                              || (user.companyScope == [] && user.companyId == Some(companyId) && companyId != "")
      ensures r == if CompanyAllowed(user, companyId) then Ok(ScopeInForce(scopeRows, teamOf, user, companyId, resource))
                   else Err(CrossCompany)
    {
      CompanyAllowedExactly(user, companyId);
      if !CompanyAllowed(user, companyId) { return Err(CrossCompany); }
      var row := MostRestrictive(Configured(scopeRows, companyId, user.roles, resource), resource);
      var scope := if row.Some? then Some(Scope(row.value.scopeType, row.value.scopeValue, None, false))
                   else DefaultScope(user.roles);
      if scope.Some? && scope.value.scopeType == "MANAGER_TEAM" && Truthy(user.employeeId) {
        return Ok(Some(scope.value.(team := Some(teamOf(user.employeeId.value)))));
      }
      return Ok(scope);
    }

    /** `ids` are checked one by one; the first that is not an identifier refuses the value. */
    method ValidateScopeValue(scopeType: string, value: Option<string>) returns (ok: bool)
      ensures ok <==> ValidValue(scopeType, value)
    {
      var needValue := ListedUnit(scopeType).Some?;
      if needValue && !Truthy(value) { return false; }
      if needValue {
        var ids := Ids(value);
        for i := 0 to |ids|
          invariant forall k :: 0 <= k < i ==> IsUuid(ids[k])
        {
          if !IsUuid(ids[i]) { return false; }
        }
      }
      return true;
    }
  }
}
