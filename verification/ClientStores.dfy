/**
 * The browser's two stores: who is signed in, and which company is active. Requests to the server are
 * started by one event and answered by another; in between anything may happen.
 */
module ClientStores {
  import opened Wrappers

  type Id = string

  // ---------------------------------------------------------------- the company store

  datatype Company = Company(id: Id, name: string)

  /** `mirror` is the copy of the active id kept in local storage. */
  datatype CompanyState = CompanyState(activeId: Option<Id>, active: Option<Company>, companies: seq<Company>, mirror: Option<Id>)

  /** `companies.find(...)` by id. */
  function Find(companies: seq<Company>, id: Option<Id>): (r: Option<Company>)
    ensures r.Some? ==> r.value in companies && id == Some(r.value.id)
    ensures r.None? ==> forall c :: c in companies ==> id != Some(c.id)
  {
    if companies == [] then None
    else if id == Some(companies[0].id) then Some(companies[0])
    else Find(companies[1..], id)
  }

  /** An empty id is kept out of local storage. */
  function Mirrored(id: Option<Id>): Option<Id> {
    if Truthy(id) then id else None
  }

  function SetActive(s: CompanyState, company: Option<Company>): CompanyState {
    var id := if company.Some? then Some(company.value.id) else None;
    s.(activeId := id, active := company, mirror := Mirrored(id))
  }

  function Normalized(id: Option<Id>): Option<Id> {
    if id.Some? && Trim(id.value) != "" then Some(Trim(id.value)) else None
  }

  function Seed(s: CompanyState, id: Option<Id>): CompanyState {
    var normalized := Normalized(id);
    if s.activeId == normalized then s
    else s.(activeId := normalized, active := if normalized.Some? then Find(s.companies, normalized) else None,
            mirror := Mirrored(normalized))
  }

  function Clear(s: CompanyState): CompanyState {
    CompanyState(None, None, [], None)
  }

  function SetCompanies(s: CompanyState, companies: seq<Company>): CompanyState {
    s.(companies := companies, active := Find(companies, s.activeId))
  }

  /** The active company object has the active id, and local storage mirrors that id. */
  predicate Consistent(s: CompanyState) {
    && (s.active.Some? ==> s.activeId == Some(s.active.value.id))
    && s.mirror == Mirrored(s.activeId)
  }

  // ---------------------------------------------------------------- the auth store

  datatype User = User(id: Id, companyId: Option<Id>, employeeId: Option<Id>, groupId: Option<Id>)

  /**
   * `version` counts the session changes. A login in flight is known by the version it started, a
   * profile request by the version it saw; there is at most one of the latter.
   */
  datatype AuthState = AuthState(user: Option<User>, isAuthenticated: bool, isLoading: bool, isBootstrapped: bool, version: nat,
                                 logins: set<nat>, profile: Option<nat>, company: CompanyState,
                                 employeeIdKept: Option<Id>, groupIdKept: Option<Id>)

  datatype Answer = Accepted(user: User) | Failed

  datatype Event =
    | SetUser(user: Option<User>)
    | LoginStarts
    | LoginAnswered(started: nat, answer: Answer)
    | Reset
    | LoadProfile
    | ProfileAnswered(answer: Answer)
    | ChooseCompany(company: Option<Company>)
    | CompaniesLoaded(companies: seq<Company>)
    | SessionLost

  /** What is kept beside the user. A company is only seeded when none is active yet. */
  function SyncUserContext(s: AuthState, user: Option<User>): AuthState {
    if user.None? then s.(company := Clear(s.company), employeeIdKept := None, groupIdKept := None)
    else
      var company := if Truthy(s.company.activeId) then s.company
                     else if Truthy(user.value.companyId) then Seed(s.company, user.value.companyId)
                     else Clear(s.company);
      s.(company := company, employeeIdKept := Mirrored(user.value.employeeId), groupIdKept := Mirrored(user.value.groupId))
  }

  function OnSetUser(s: AuthState, user: Option<User>): AuthState {
    SyncUserContext(s, user).(version := s.version + 1, user := user, isAuthenticated := user.Some?, isBootstrapped := true)
  }

  function OnLoginStarts(s: AuthState): AuthState {
    s.(version := s.version + 1, logins := s.logins + {s.version + 1}, isLoading := true)
  }

  function OnLoginAnswered(s: AuthState, started: nat, answer: Answer): AuthState {
    if started !in s.logins then s
    else
      var t := s.(logins := s.logins - {started});
      match answer
      case Failed => t.(isLoading := false)
      case Accepted(user) =>
        if started != s.version then t
        else SyncUserContext(t, Some(user)).(user := Some(user), isAuthenticated := true, isBootstrapped := true, isLoading := false)
  }

  function OnReset(s: AuthState): AuthState {
    SyncUserContext(s, None).(version := s.version + 1, user := None, isAuthenticated := false, isLoading := false,
                              isBootstrapped := true)
  }

  function OnLoadProfile(s: AuthState): AuthState {
    if s.profile.Some? then s else s.(isLoading := true, profile := Some(s.version))
  }

  function OnProfileAnswered(s: AuthState, answer: Answer): AuthState {
    if s.profile.None? then s
    else if s.profile.value != s.version then s.(profile := None)
    else
      var t := match answer
               case Accepted(user) => SyncUserContext(s, Some(user)).(user := Some(user), isAuthenticated := true)
               case Failed => SyncUserContext(s, None).(user := None, isAuthenticated := false);
      t.(isLoading := false, isBootstrapped := true, profile := None)
  }

  /** The request client gives up a session it could not refresh; the auth store keeps its user. */
  function OnSessionLost(s: AuthState): AuthState {
    s.(company := Clear(s.company), employeeIdKept := None, groupIdKept := None)
  }

  function Step(s: AuthState, e: Event): AuthState {
    match e
    case SetUser(user) => OnSetUser(s, user)
    case LoginStarts => OnLoginStarts(s)
    case LoginAnswered(started, answer) => OnLoginAnswered(s, started, answer)
    case Reset => OnReset(s)
    case LoadProfile => OnLoadProfile(s)
    case ProfileAnswered(answer) => OnProfileAnswered(s, answer)
    case ChooseCompany(company) => s.(company := SetActive(s.company, company))
    case CompaniesLoaded(companies) => s.(company := SetCompanies(s.company, companies))
    case SessionLost => OnSessionLost(s)
  }

  function Run(s: AuthState, events: seq<Event>): AuthState {
    if events == [] then s else Step(Run(s, events[..|events| - 1]), events[|events| - 1])
  }

  // ---------------------------------------------------------------- every state

  predicate Inv(s: AuthState) {
    && s.isAuthenticated == s.user.Some?
    && Consistent(s.company)
    && (s.profile.Some? ==> s.profile.value <= s.version)
    && (forall v :: v in s.logins ==> v <= s.version)
  }

  lemma SyncKeepsConsistent(s: AuthState, user: Option<User>)
    requires Consistent(s.company)
    ensures Consistent(SyncUserContext(s, user).company)
  {}

  lemma StepKeepsInv(s: AuthState, e: Event)
    requires Inv(s)
    ensures Inv(Step(s, e))
  {
    match e
    case SetUser(user) => SyncKeepsConsistent(s, user);
    case LoginAnswered(started, answer) =>
      if answer.Accepted? { SyncKeepsConsistent(s, Some(answer.user)); }
    case Reset => SyncKeepsConsistent(s, None);
    case ProfileAnswered(answer) =>
      SyncKeepsConsistent(s, if answer.Accepted? then Some(answer.user) else None);
    case _ =>
  }

  /**
   * In every run: signed in means a user is present, the active company object has the active id, and
   * local storage mirrors that id.
   */
  lemma {:induction false} RunKeepsInv(s: AuthState, events: seq<Event>)
    requires Inv(s)
    ensures Inv(Run(s, events))
  {
    if events != [] {
      RunKeepsInv(s, events[..|events| - 1]);
      StepKeepsInv(Run(s, events[..|events| - 1]), events[|events| - 1]);
    }
  }

  // ---------------------------------------------------------------- answers and the session they began in

  /** The events that start another session. */
  predicate ChangesSession(e: Event) {
    e.SetUser? || e.LoginStarts? || e.Reset?
  }

  function SessionChanges(events: seq<Event>): nat {
    if events == [] then 0
    else SessionChanges(events[..|events| - 1]) + if ChangesSession(events[|events| - 1]) then 1 else 0
  }

  lemma {:induction false} VersionCountsSessionChanges(s: AuthState, events: seq<Event>)
    ensures Run(s, events).version == s.version + SessionChanges(events)
  {
    if events != [] { VersionCountsSessionChanges(s, events[..|events| - 1]); }
  }

  predicate AnswersLogin(e: Event, started: nat) {
    e.LoginAnswered? && e.started == started
  }

  lemma OtherStepsKeepLogin(s: AuthState, e: Event, started: nat)
    requires started in s.logins && !AnswersLogin(e, started)
    ensures started in Step(s, e).logins
  {}

  lemma {:induction false} LoginStaysInFlight(s: AuthState, events: seq<Event>, started: nat)
    requires started in s.logins && forall e :: e in events ==> !AnswersLogin(e, started)
    ensures started in Run(s, events).logins
  {
    if events != [] {
      LoginStaysInFlight(s, events[..|events| - 1], started);
      assert events[|events| - 1] in events;
      OtherStepsKeepLogin(Run(s, events[..|events| - 1]), events[|events| - 1], started);
    }
  }

  /**
   * A login answered after any events signs its user in exactly when none of them changed the session;
   * otherwise the answer changes neither the user nor anything kept beside the user.
   */
  lemma LoginCountsOnlyInItsSession(s: AuthState, events: seq<Event>, user: User)
    requires Inv(s)
    requires forall e :: e in events ==> !AnswersLogin(e, s.version + 1)
    ensures var before := Run(Step(s, LoginStarts), events);
            var after := Step(before, LoginAnswered(s.version + 1, Accepted(user)));
            && (SessionChanges(events) == 0 ==> after.user == Some(user) && after.isAuthenticated && !after.isLoading)
            && (SessionChanges(events) > 0 ==> after == before.(logins := before.logins - {s.version + 1}))
  {
    var started := Step(s, LoginStarts);
    VersionCountsSessionChanges(started, events);
    LoginStaysInFlight(started, events, s.version + 1);
  }

  lemma {:induction false} ProfileStaysInFlight(s: AuthState, events: seq<Event>)
    requires s.profile.Some? && forall e :: e in events ==> !e.ProfileAnswered?
    ensures Run(s, events).profile == s.profile
  {
    if events != [] { ProfileStaysInFlight(s, events[..|events| - 1]); }
  }

  /**
   * A profile request that goes out and is answered after any events signs in or out exactly when none
   * of them changed the session; otherwise the answer only ends the request.
   */
  lemma ProfileCountsOnlyInItsSession(s: AuthState, events: seq<Event>, answer: Answer)
    requires s.profile.None? && forall e :: e in events ==> !e.ProfileAnswered?
    ensures var before := Run(Step(s, LoadProfile), events);
            var after := Step(before, ProfileAnswered(answer));
            && (SessionChanges(events) == 0 ==> after.user == if answer.Accepted? then Some(answer.user) else None)
            && (SessionChanges(events) > 0 ==> after == before.(profile := None))
  {
    var asked := Step(s, LoadProfile);
    VersionCountsSessionChanges(asked, events);
    ProfileStaysInFlight(asked, events);
  }

  /**
   * One profile request at a time: asking again joins the one in flight. If that one is from an earlier
   * session, the refresh asked for in the new session never happens.
   */
  lemma JoiningAnOldRequestRefreshesNothing(s: AuthState, events: seq<Event>, answer: Answer)
    requires s.profile.Some? && s.profile.value < s.version
    requires forall e :: e in events ==> !e.ProfileAnswered?
    ensures Step(s, LoadProfile) == s
    ensures var before := Run(Step(s, LoadProfile), events);
            Step(before, ProfileAnswered(answer)) == before.(profile := None)
  {
    VersionCountsSessionChanges(s, events);
    ProfileStaysInFlight(s, events);
  }

  // ---------------------------------------------------------------- the active company

  /** The events by which a person or a lost session may take the active company away. */
  predicate MayTakeCompany(s: AuthState, e: Event) {
    || e.ChooseCompany? || e.Reset? || e.SessionLost? || (e.SetUser? && e.user.None?)
    || (e.ProfileAnswered? && e.answer.Failed? && s.profile == Some(s.version))
  }

  /**
   * No refresh of the user replaces an active company: the active id changes exactly when another one is
   * chosen, on signing out, when the request client gives the session up, or when a profile request of
   * the current session fails.
   */
  lemma CompanyMovesExactly(s: AuthState, e: Event)
    requires Truthy(s.company.activeId)
    ensures Step(s, e).company.activeId != s.company.activeId
       <==> MayTakeCompany(s, e) && !(e.ChooseCompany? && e.company.Some? && Some(e.company.value.id) == s.company.activeId)
  {}

  lemma {:induction false} RefreshesKeepTheCompany(s: AuthState, events: seq<Event>)
    requires Truthy(s.company.activeId)
    requires forall i :: 0 <= i < |events| ==> !MayTakeCompany(Run(s, events[..i]), events[i])
    ensures Run(s, events).company.activeId == s.company.activeId
  {
    if events != [] {
      var front := events[..|events| - 1];
      assert forall i :: 0 <= i < |front| ==> front[..i] == events[..i];
      RefreshesKeepTheCompany(s, front);
      CompanyMovesExactly(Run(s, front), events[|events| - 1]);
    }
  }

  /**
   * A session the request client gives up takes the company and the mirrors, and leaves the user signed
   * in; the next user that is set or refreshed is given a company again.
   */
  lemma LostSessionKeepsTheUser(s: AuthState, user: User)
    requires Inv(s)
    ensures var lost := Step(s, SessionLost);
            && lost.user == s.user && lost.isAuthenticated == s.isAuthenticated && lost.version == s.version
            && lost.company == CompanyState(None, None, [], None) && lost.employeeIdKept.None? && lost.groupIdKept.None?
            && Step(lost, SetUser(Some(user))).company.activeId
                 == (if Truthy(user.companyId) then Normalized(user.companyId) else None)
  {}

  /** After signing out nothing of the session is left in the stores or their mirrors. */
  lemma NothingSurvivesSignOut(s: AuthState)
    ensures var after := Step(s, Reset);
            && after.user.None? && !after.isAuthenticated && !after.isLoading
            && after.company == CompanyState(None, None, [], None) && after.employeeIdKept.None? && after.groupIdKept.None?
            && (forall v :: v in s.logins && v <= s.version ==> v != after.version)
  {}

  // ---------------------------------------------------------------- the loading flag

  predicate InFlight(s: AuthState) {
    s.logins != {} || s.profile.Some?
  }

  /** The flag is not left on when nothing is under way. */
  predicate LoadingIsReal(s: AuthState) {
    s.isLoading ==> InFlight(s)
  }

  /** The last answer under way belongs to an earlier session, and is not a failed login. */
  predicate LastAnswerIsStale(s: AuthState, e: Event) {
    match e
    case LoginAnswered(started, answer) =>
      s.logins == {started} && s.profile.None? && answer.Accepted? && started != s.version
    case ProfileAnswered(_) => s.logins == {} && s.profile.Some? && s.profile.value != s.version
    case _ => false
  }

  /** The flag stays on with nothing under way exactly when the last answer is dropped as stale. */
  lemma LoadingGetsStuckExactly(s: AuthState, e: Event)
    requires LoadingIsReal(s)
    ensures LoadingIsReal(Step(s, e)) <==> !(s.isLoading && LastAnswerIsStale(s, e))
  {
    if e.LoginStarts? {
      assert s.version + 1 in Step(s, e).logins;
    }
    if e.LoginAnswered? && e.started in s.logins && Step(s, e).logins == {} {
      assert s.logins == (s.logins - {e.started}) + {e.started};
      assert s.logins == {e.started};
    }
    if e.LoginAnswered? && e.started in s.logins && Step(s, e).logins != {} {
      assert s.logins != {e.started};
    }
  }

  /** It does happen: a profile request, a new user before its answer, and the answer. */
  lemma LoadingGetsStuck(s: AuthState, user: User, answer: Answer)
    requires s.logins == {} && s.profile.None?
    ensures var after := Step(Step(Step(s, LoadProfile), SetUser(Some(user))), ProfileAnswered(answer));
            after.isLoading && !InFlight(after) && after.user == Some(user)
  {}

  // ---------------------------------------------------------------- the stores

  class CompanyStore {
    var activeCompanyId: Option<Id>
    var activeCompany: Option<Company>
    var companies: seq<Company>
    var stored: Option<Id>

    ghost function Model(): CompanyState
      reads this
    {
      CompanyState(activeCompanyId, activeCompany, companies, stored)
    }

    constructor ()
      ensures Model() == CompanyState(None, None, [], None) && Consistent(Model())
    {
      activeCompanyId, activeCompany, companies, stored := None, None, [], None;
    }

    method SyncActiveCompanyId(companyId: Option<Id>)
      modifies this`stored
      ensures stored == Mirrored(companyId)
    {
      if !Truthy(companyId) {
        stored := None;
        return;
      }
      stored := companyId;
    }

    method SetActiveCompany(company: Option<Company>)
      modifies this
      ensures Model() == SetActive(old(Model()), company) && Consistent(Model())
    {
      var id := if company.Some? then Some(company.value.id) else None;
      SyncActiveCompanyId(id);
      activeCompanyId, activeCompany := id, company;
    }

    method SeedActiveCompanyId(companyId: Option<Id>)
      modifies this
      ensures Model() == Seed(old(Model()), companyId)
      ensures old(Consistent(Model())) ==> Consistent(Model())
    {
      var normalizedId := Normalized(companyId);
      if activeCompanyId == normalizedId { return; }
      var found := if normalizedId.Some? then Find(companies, normalizedId) else None;
      SyncActiveCompanyId(normalizedId);
      activeCompanyId, activeCompany := normalizedId, found;
    }

    method ClearActiveCompany()
      modifies this
      ensures Model() == Clear(old(Model())) && Consistent(Model())
    {
      SyncActiveCompanyId(None);
      activeCompanyId, activeCompany, companies := None, None, [];
    }

    method ReplaceCompanies(list: seq<Company>)
      modifies this
      ensures Model() == SetCompanies(old(Model()), list)
      ensures old(Consistent(Model())) ==> Consistent(Model())
    {
      companies := list;
      activeCompany := Find(list, activeCompanyId);
    }
  }

  class AuthStore {
    const companyStore: CompanyStore
    var user: Option<User>
    var isAuthenticated: bool
    var isLoading: bool
    var isBootstrapped: bool
    var sessionVersion: nat
    var logins: set<nat>
    var profileRequest: Option<nat>
    var storedEmployeeId: Option<Id>
    var storedGroupId: Option<Id>

    ghost function Model(): AuthState
      reads this, companyStore
    {
      AuthState(user, isAuthenticated, isLoading, isBootstrapped, sessionVersion, logins, profileRequest,
                companyStore.Model(), storedEmployeeId, storedGroupId)
    }

    constructor (companyStore: CompanyStore)
      requires Consistent(companyStore.Model())
      ensures this.companyStore == companyStore && Inv(Model())
      ensures Model() == AuthState(None, false, false, false, 0, {}, None, companyStore.Model(), None, None)
    {
      this.companyStore := companyStore;
      user, isAuthenticated, isLoading, isBootstrapped := None, false, false, false;
      sessionVersion, logins, profileRequest := 0, {}, None;
      storedEmployeeId, storedGroupId := None, None;
    }

    method SyncContext(newUser: Option<User>)
      modifies this`storedEmployeeId, this`storedGroupId, companyStore
      ensures Model() == SyncUserContext(old(Model()), newUser)
    {
      if newUser.None? {
        storedEmployeeId, storedGroupId := None, None;
        companyStore.ClearActiveCompany();
        return;
      }
      if !Truthy(companyStore.activeCompanyId) {
        if Truthy(newUser.value.companyId) {
          companyStore.SeedActiveCompanyId(newUser.value.companyId);
        } else {
          companyStore.ClearActiveCompany();
        }
      }
      storedEmployeeId := if Truthy(newUser.value.employeeId) then newUser.value.employeeId else None;
      storedGroupId := if Truthy(newUser.value.groupId) then newUser.value.groupId else None;
    }

    method SetSignedIn(newUser: Option<User>)
      requires Inv(Model())
      modifies this, companyStore
      ensures Model() == Step(old(Model()), SetUser(newUser)) && Inv(Model())
    {
      StepKeepsInv(Model(), SetUser(newUser));
      sessionVersion := sessionVersion + 1;
      SyncContext(newUser);
      user, isAuthenticated, isBootstrapped := newUser, newUser.Some?, true;
    }

    /** The part of a login before its request; the version it gets identifies it. */
    method BeginLogin() returns (version: nat)
      requires Inv(Model())
      modifies this
      ensures Model() == Step(old(Model()), LoginStarts) && Inv(Model()) && version == sessionVersion
    {
      StepKeepsInv(Model(), LoginStarts);
      sessionVersion := sessionVersion + 1;
      version := sessionVersion;
      logins := logins + {version};
      isLoading := true;
    }

    /** The part of a login after its answer. */
    method EndLogin(version: nat, answer: Answer)
      requires Inv(Model()) && version in logins
      modifies this, companyStore
      ensures Model() == Step(old(Model()), LoginAnswered(version, answer)) && Inv(Model())
    {
      StepKeepsInv(Model(), LoginAnswered(version, answer));
      logins := logins - {version};
      if answer.Failed? {
        isLoading := false;
        return;
      }
      if version != sessionVersion { return; }
      SyncContext(Some(answer.user));
      user, isAuthenticated, isBootstrapped, isLoading := Some(answer.user), true, true, false;
    }

    method ResetSession()
      requires Inv(Model())
      modifies this, companyStore
      ensures Model() == Step(old(Model()), Reset) && Inv(Model())
    {
      StepKeepsInv(Model(), Reset);
      sessionVersion := sessionVersion + 1;
      SyncContext(None);
      user, isAuthenticated, isLoading, isBootstrapped := None, false, false, true;
    }

    method BeginProfile()
      requires Inv(Model())
      modifies this
      ensures Model() == Step(old(Model()), LoadProfile) && Inv(Model())
    {
      StepKeepsInv(Model(), LoadProfile);
      if profileRequest.Some? { return; }
      isLoading := true;
      profileRequest := Some(sessionVersion);
    }

    method EndProfile(answer: Answer)
      requires Inv(Model()) && profileRequest.Some?
      modifies this, companyStore
      ensures Model() == Step(old(Model()), ProfileAnswered(answer)) && Inv(Model())
    {
      StepKeepsInv(Model(), ProfileAnswered(answer));
      var version := profileRequest.value;
      if version == sessionVersion {
        if answer.Accepted? {
          SyncContext(Some(answer.user));
          user, isAuthenticated := Some(answer.user), true;
        } else {
          SyncContext(None);
          user, isAuthenticated := None, false;
        }
        isLoading, isBootstrapped := false, true;
      }
      profileRequest := None;
    }
  }

  /** The request client's own clearing: mirrors and company go, the auth store is not told. */
  method ClearClientSession(auth: AuthStore)
    requires Inv(auth.Model())
    modifies auth`storedEmployeeId, auth`storedGroupId, auth.companyStore
    ensures auth.Model() == Step(old(auth.Model()), SessionLost) && Inv(auth.Model())
  {
    StepKeepsInv(auth.Model(), SessionLost);
    auth.storedEmployeeId, auth.storedGroupId := None, None;
    auth.companyStore.ClearActiveCompany();
  }
}
