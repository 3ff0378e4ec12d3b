/**
 * Data scopes between companies, roles and resources: who may ask for a company's scope at all, which of
 * the configured rows matter for the answer, and when it is the whole company.
 */
module TenantScope {
  import opened Wrappers
  import opened DataScope

  // ---------------------------------------------------------------- the company

  /** Outside the companies of a requester nothing is resolved, and inside them it is never refused for the company. */
  lemma OtherCompaniesAreRefused(table: seq<ScopeRow>, teamOf: Id -> seq<Id>, user: User, companyId: Id, resource: string)
    requires "SUPER_ADMIN" !in user.roles
    ensures Resolve(table, teamOf, user, companyId, resource) == Err(CrossCompany)
       <==> companyId !in user.companyScope && (user.companyScope != [] || user.companyId != Some(companyId) || companyId == "")
  {
    CompanyAllowedExactly(user, companyId);
  }

  // ---------------------------------------------------------------- which rows matter

  /** The rows that `keep` leaves in the table. */
  function Kept(table: seq<ScopeRow>, keep: ScopeRow -> bool): seq<ScopeRow> {
    if table == [] then []
    else (if keep(table[0]) then [table[0]] else []) + Kept(table[1..], keep)
  }

  /** A row for the company, a role of the requester, and the resource or all of them. */
  predicate Concerns(row: ScopeRow, companyId: Id, roles: seq<string>, resource: string) {
    row.companyId == companyId && row.roleCode in roles && row.resource in [resource, "ALL"]
  }

  lemma {:induction false} ConfiguredKeeps(table: seq<ScopeRow>, keep: ScopeRow -> bool, companyId: Id, roles: seq<string>,
                                           resource: string)
    requires forall row :: Concerns(row, companyId, roles, resource) ==> keep(row)
    ensures Configured(Kept(table, keep), companyId, roles, resource) == Configured(table, companyId, roles, resource)
  {
    if table != [] {
      ConfiguredKeeps(table[1..], keep, companyId, roles, resource);
      var row, rest := table[0], Kept(table[1..], keep);
      if keep(row) {
        assert ([row] + rest)[1..] == rest;
      } else {
        assert !Concerns(row, companyId, roles, resource);
        assert [] + rest == rest;
      }
    }
  }

  /** No row that does not concern the requester, company and resource has any influence. */
  lemma OnlyConcerningRowsCount(table: seq<ScopeRow>, keep: ScopeRow -> bool, teamOf: Id -> seq<Id>, user: User, companyId: Id,
                                resource: string)
    requires forall row :: Concerns(row, companyId, user.roles, resource) ==> keep(row)
    ensures ScopeInForce(Kept(table, keep), teamOf, user, companyId, resource) == ScopeInForce(table, teamOf, user, companyId, resource)
    ensures Resolve(Kept(table, keep), teamOf, user, companyId, resource) == Resolve(table, teamOf, user, companyId, resource)
  {
    ConfiguredKeeps(table, keep, companyId, user.roles, resource);
  }

  /** The rows of other companies can be taken away, or added, without any effect. */
  lemma TenantsAreSeparate(table: seq<ScopeRow>, teamOf: Id -> seq<Id>, user: User, companyId: Id, resource: string)
    ensures var own := Kept(table, (row: ScopeRow) => row.companyId == companyId);
            && ScopeInForce(own, teamOf, user, companyId, resource) == ScopeInForce(table, teamOf, user, companyId, resource)
            && Resolve(own, teamOf, user, companyId, resource) == Resolve(table, teamOf, user, companyId, resource)
  {
    OnlyConcerningRowsCount(table, (row: ScopeRow) => row.companyId == companyId, teamOf, user, companyId, resource);
  }

  /** And so can those of roles the requester does not have, and of other resources. */
  lemma OtherRolesAndResourcesDoNotCount(table: seq<ScopeRow>, teamOf: Id -> seq<Id>, user: User, companyId: Id, resource: string)
    ensures var keep := (row: ScopeRow) => row.roleCode in user.roles && row.resource in [resource, "ALL"];
            Resolve(Kept(table, keep), teamOf, user, companyId, resource) == Resolve(table, teamOf, user, companyId, resource)
  {
    var keep := (row: ScopeRow) => row.roleCode in user.roles && row.resource in [resource, "ALL"];
    OnlyConcerningRowsCount(table, keep, teamOf, user, companyId, resource);
  }

  // ---------------------------------------------------------------- which row wins

  /** From least to most restrictive; the types of one group restrict alike. */
  const GROUPS: seq<seq<string>> := [
    ["ALL"], ["COMPANY_ONLY"], ["BRANCH_ONLY", "OWN_BRANCH"], ["DEPARTMENT_ONLY", "OWN_DEPARTMENT"],
    ["SUB_DEPARTMENT_ONLY", "OWN_SUB_DEPARTMENT"], ["MANAGER_TEAM"], ["EMPLOYEE_SELF"]]

  predicate InGroup(scopeType: string, g: int) {
    0 <= g < |GROUPS| && scopeType in GROUPS[g]
  }

  lemma RankIsTheGroup(scopeType: string, g: int)
    requires InGroup(scopeType, g)
    ensures Rank(scopeType) == g
  {}

  /** Of two rows that concern the requester, the one of the more restrictive group is in force, in whatever order they stand. */
  lemma MoreRestrictiveWins(a: ScopeRow, b: ScopeRow, teamOf: Id -> seq<Id>, user: User, companyId: Id, resource: string, g: int, h: int)
    requires Concerns(a, companyId, user.roles, resource) && Concerns(b, companyId, user.roles, resource)
    requires InGroup(a.scopeType, g) && InGroup(b.scopeType, h) && g < h
    ensures forall table | table == [a, b] || table == [b, a] ::
              ScopeInForce(table, teamOf, user, companyId, resource).Some?
              && ScopeInForce(table, teamOf, user, companyId, resource).value.scopeType == b.scopeType
              && ScopeInForce(table, teamOf, user, companyId, resource).value.scopeValue == b.scopeValue
  {
    RankIsTheGroup(a.scopeType, g);
    RankIsTheGroup(b.scopeType, h);
    TwoConcern(a, b, companyId, user.roles, resource);
    TwoConcern(b, a, companyId, user.roles, resource);
    assert [a, b][..1] == [a] && [b, a][..1] == [b] && [a][..0] == [] && [b][..0] == [];
    assert Merged([a], a, resource) == a && Merged([b], b, resource) == b;
    assert Merged([a, b], a, resource) == b && Merged([b, a], b, resource) == b;
  }

  lemma TwoConcern(a: ScopeRow, b: ScopeRow, companyId: Id, roles: seq<string>, resource: string)
    requires Concerns(a, companyId, roles, resource) && Concerns(b, companyId, roles, resource)
    ensures Configured([a, b], companyId, roles, resource) == [a, b]
  {
    assert [a, b][1..] == [b] && [b][1..] == [];
    assert Configured([], companyId, roles, resource) == [];
    assert Configured([b], companyId, roles, resource) == [b];
  }

  // ---------------------------------------------------------------- the whole company

  /** The roles that see the whole company when nothing is configured for them. */
  predicate SeesAllByDefault(roles: seq<string>) {
    || "SUPER_ADMIN" in roles || "GROUP_ADMIN" in roles || "COMPANY_ADMIN" in roles
    || "HR_MANAGER" in roles || "HR_STAFF" in roles || "FINANCE" in roles
  }

  predicate Known(scopeType: string) {
    exists g | 0 <= g < |GROUPS| :: InGroup(scopeType, g)
  }

  lemma DefaultRoles(roles: seq<string>)
    ensures CompanyWide(roles) <==> SeesAllByDefault(roles)
  {
    if CompanyWide(roles) {
      var role :| role in roles && role in COMPANY_WIDE_DEFAULT_ROLES;
    }
    assert forall role :: role in COMPANY_WIDE_DEFAULT_ROLES <==>
             role in ["SUPER_ADMIN", "GROUP_ADMIN", "COMPANY_ADMIN", "HR_MANAGER", "HR_STAFF", "FINANCE"];
  }

  /**
   * With the types the database knows, the whole company is reached exactly in an allowed company when no
   * row concerns the requester and a role sees all by default, or when every row that does is ALL or
   * COMPANY_ONLY.
   */
  lemma WholeCompanyExactly(table: seq<ScopeRow>, teamOf: Id -> seq<Id>, user: User, companyId: Id, resource: string)
    requires forall row :: row in table ==> Known(row.scopeType)
    ensures Resolve(table, teamOf, user, companyId, resource) == Ok(Everyone) <==>
              && CompanyAllowed(user, companyId)
              && (forall row :: row in table && Concerns(row, companyId, user.roles, resource) ==>
                    row.scopeType == "ALL" || row.scopeType == "COMPANY_ONLY")
              && ((exists row :: row in table && Concerns(row, companyId, user.roles, resource)) || SeesAllByDefault(user.roles))
  {
    var rows := Configured(table, companyId, user.roles, resource);
    EveryoneExactly(table, teamOf, user, companyId, resource);
    DefaultRoles(user.roles);
    assert forall row :: row in rows <==> row in table && Concerns(row, companyId, user.roles, resource);
    if rows != [] {
      assert rows[0] in rows;
      MergedIsMostRestrictive(rows, resource);
      var best := Merged(rows, rows[0], resource);
      forall row | row in rows ensures Unrestricting(row.scopeType) <==> Rank(row.scopeType) <= 1 {
        var g :| InGroup(row.scopeType, g);
        RankIsTheGroup(row.scopeType, g);
      }
      assert best in rows;
    }
  }

  // ---------------------------------------------------------------- which of equals wins

  /** The row is better than the other one: it restricts more, or as much and for the resource itself. */
  predicate Beats(row: ScopeRow, other: ScopeRow, resource: string) {
    var g, h := Rank(row.scopeType), Rank(other.scopeType);
    g > h || (g == h && row.resource == resource && other.resource == "ALL")
  }

  /** The merged row beats every row before it that is not as it is, and no row after it beats it. */
  ghost predicate Winner(rows: seq<ScopeRow>, resource: string, i: int) {
    && 0 <= i < |rows|
    && (forall j :: 0 <= j < i ==> Beats(rows[i], rows[j], resource))
    && (forall j :: i < j < |rows| ==> !Beats(rows[j], rows[i], resource))
  }

  /** Among the rows that restrict most, the merge takes the first one for the resource itself, else the first one at all. */
  lemma {:induction false} MergedIsTheWinner(rows: seq<ScopeRow>, resource: string)
    requires |rows| > 0 && forall row :: row in rows ==> row.resource in [resource, "ALL"]
    ensures exists i :: Winner(rows, resource, i) && rows[i] == Merged(rows, rows[0], resource)
  {
    var n := |rows| - 1;
    var front := rows[..n];
    if n == 0 {
      assert Merged(front, rows[0], resource) == rows[0];
      assert Winner(rows, resource, 0);
    } else {
      assert forall row :: row in front ==> row in rows;
      MergedIsTheWinner(front, resource);
      var i :| Winner(front, resource, i) && front[i] == Merged(front, front[0], resource);
      WinnerOfMore(rows, resource, i);
      assert Winner(rows, resource, if Beats(rows[n], rows[i], resource) then n else i);
    }
  }

  lemma WinnerOfMore(rows: seq<ScopeRow>, resource: string, i: int)
    requires |rows| > 1 && Winner(rows[..|rows| - 1], resource, i)
    requires forall row :: row in rows ==> row.resource in [resource, "ALL"]
    ensures Winner(rows, resource, if Beats(rows[|rows| - 1], rows[i], resource) then |rows| - 1 else i)
  {
    var n := |rows| - 1;
    var front := rows[..n];
    assert forall j :: 0 <= j < n ==> front[j] == rows[j];
    if Beats(rows[n], rows[i], resource) {
      forall j | 0 <= j < n ensures Beats(rows[n], rows[j], resource) {
        assert rows[j] in rows && rows[i] in rows;
        if j < i { BeatsOn(rows[n], rows[i], rows[j], resource); } else if i < j { BeatsPast(rows[n], rows[i], rows[j], resource); }
      }
    }
  }

  lemma BeatsOn(a: ScopeRow, b: ScopeRow, c: ScopeRow, resource: string)
    requires Beats(a, b, resource) && Beats(b, c, resource)
    ensures Beats(a, c, resource)
  {}

  lemma BeatsPast(a: ScopeRow, b: ScopeRow, c: ScopeRow, resource: string)
    requires Beats(a, b, resource) && !Beats(c, b, resource)
    requires b.resource in [resource, "ALL"] && c.resource in [resource, "ALL"]
    ensures Beats(a, c, resource)
  {}

  // ---------------------------------------------------------------- the default

  /** Without a row that concerns them, the roles alone decide: everyone, a manager's team, or oneself. */
  lemma DefaultReachesExactly(table: seq<ScopeRow>, teamOf: Id -> seq<Id>, user: User, companyId: Id, resource: string, e: Employee)
    requires CompanyAllowed(user, companyId) && forall row :: row in table ==> !Concerns(row, companyId, user.roles, resource)
    ensures var f := Resolve(table, teamOf, user, companyId, resource);
            var linked := user.employeeId.Some? && user.employeeId.value != "";
            var team := if linked then teamOf(user.employeeId.value) else if user.team.Some? then user.team.value else [];
            && f.Ok?
            && (Reaches(f.value, e) <==>
                  if SeesAllByDefault(user.roles) then true
                  else if "MANAGER" in user.roles && team != [] then e.id in team
                  else linked && e.id == user.employeeId.value)
  {
    var rows := Configured(table, companyId, user.roles, resource);
    if rows != [] { assert rows[0] in rows && Concerns(rows[0], companyId, user.roles, resource); }
    DefaultRoles(user.roles);
  }

  /** The scope in force names a team exactly for a team scope of a requester with an employee, and it is that employee's. */
  lemma TeamIsNamedExactly(table: seq<ScopeRow>, teamOf: Id -> seq<Id>, user: User, companyId: Id, resource: string)
    ensures var s := ScopeInForce(table, teamOf, user, companyId, resource);
            s.Some? ==>
              && (s.value.team.Some? <==> s.value.scopeType == "MANAGER_TEAM" && user.employeeId.Some? && user.employeeId.value != "")
              && (s.value.team.Some? ==> s.value.team.value == teamOf(user.employeeId.value))
              && (s.value.isDefault <==> forall row :: row in table ==> !Concerns(row, companyId, user.roles, resource))
  {
    var rows := Configured(table, companyId, user.roles, resource);
    assert forall row :: row in rows <==> row in table && Concerns(row, companyId, user.roles, resource);
    if rows != [] { assert rows[0] in rows; }
  }

  // ---------------------------------------------------------------- refusals

  predicate ListsUnits(scopeType: string) {
    scopeType == "BRANCH_ONLY" || scopeType == "DEPARTMENT_ONLY" || scopeType == "SUB_DEPARTMENT_ONLY"
  }

  /** Which scopes are refused, and why; a default without an employee reaches nobody instead. */
  lemma RefusalsExactly(s: Scope, user: User)
    ensures var r := ResolveFilter(Some(s), user);
            var linked := user.employeeId.Some? && user.employeeId.value != "";
            var team := if s.team.Some? then s.team.value else if user.team.Some? then user.team.value else [];
            && (r == Err(InvalidValue) <==>
                  ListsUnits(s.scopeType) && (s.scopeValue.None? || s.scopeValue == Some("") || exists id :: id in Ids(s.scopeValue) && !IsUuid(id)))
            && (r == Err(NoIdentifiers) <==>
                  ListsUnits(s.scopeType) && s.scopeValue.Some? && s.scopeValue != Some("") && Ids(s.scopeValue) == [])
            && (r == Err(NoEmployee) <==>
                  !linked && !s.isDefault && (s.scopeType == "EMPLOYEE_SELF" || (s.scopeType == "MANAGER_TEAM" && team == [])))
            && (r == Err(Unsupported) <==> !Known(s.scopeType))
  {
    KnownTypes(s.scopeType);
  }

  lemma KnownTypes(scopeType: string)
    ensures Known(scopeType) <==> scopeType in ["ALL", "COMPANY_ONLY", "BRANCH_ONLY", "OWN_BRANCH", "DEPARTMENT_ONLY",
      "OWN_DEPARTMENT", "SUB_DEPARTMENT_ONLY", "OWN_SUB_DEPARTMENT", "MANAGER_TEAM", "EMPLOYEE_SELF"]
  {
    assert forall g :: 0 <= g < 7 ==> (InGroup(scopeType, g) <==> scopeType in GROUPS[g]);
    if scopeType in ["ALL"] { assert InGroup(scopeType, 0); }
    if scopeType in ["COMPANY_ONLY"] { assert InGroup(scopeType, 1); }
    if scopeType in ["BRANCH_ONLY", "OWN_BRANCH"] { assert InGroup(scopeType, 2); }
    if scopeType in ["DEPARTMENT_ONLY", "OWN_DEPARTMENT"] { assert InGroup(scopeType, 3); }
    if scopeType in ["SUB_DEPARTMENT_ONLY", "OWN_SUB_DEPARTMENT"] { assert InGroup(scopeType, 4); }
    if scopeType in ["MANAGER_TEAM"] { assert InGroup(scopeType, 5); }
    if scopeType in ["EMPLOYEE_SELF"] { assert InGroup(scopeType, 6); }
  }

  // ---------------------------------------------------------------- the list of units

  /** Splitting cuts at every comma and loses nothing. */
  lemma {:induction false} SplitCutsAtCommas(s: string)
    ensures Join(Split(s), ",") == s && forall part :: part in Split(s) ==> ',' !in part
  {
    if s != "" {
      SplitCutsAtCommas(s[1..]);
      var rest := Split(s[1..]);
      if s[0] == ',' {
        JoinHead("", rest);
      } else {
        assert rest == [rest[0]] + rest[1..];
        JoinFirst(s[0], rest);
      }
    }
  }

  lemma JoinHead(head: string, rest: seq<string>)
    requires |rest| > 0
    ensures Join([head] + rest, ",") == head + ("," + Join(rest, ","))
  {
    assert ([head] + rest)[1..] == rest;
  }

  lemma JoinFirst(c: char, parts: seq<string>)
    requires |parts| > 0
    ensures Join([[c] + parts[0]] + parts[1..], ",") == [c] + Join(parts, ",")
  {
    var longer := [[c] + parts[0]] + parts[1..];
    assert longer[1..] == parts[1..];
    if |parts| > 1 { Assoc([c], parts[0], "," + Join(parts[1..], ",")); }
  }

  lemma Assoc(a: string, b: string, c: string)
    ensures a + b + c == a + (b + c)
  {}
}
