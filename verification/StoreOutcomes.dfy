/**
 * What each event leaves in the two stores: the user, the mirrors of the user's ids, the active company
 * and its object, and the flags.
 */
module StoreOutcomes {
  import opened Wrappers
  import opened ClientStores

  /** Whom the event signs in, or that it signs out; an answer of an earlier session does neither. */
  function NewUser(s: AuthState, e: Event): Option<Option<User>> {
    match e
    case SetUser(user) => Some(user)
    case Reset => Some(None)
    case LoginAnswered(started, Accepted(user)) => if started in s.logins && started == s.version then Some(Some(user)) else None
    case ProfileAnswered(answer) =>
      if s.profile != Some(s.version) then None
      else Some(if answer.Accepted? then Some(answer.user) else None)
    case _ => None
  }

  predicate SignsIn(s: AuthState, e: Event) {
    NewUser(s, e).Some? && NewUser(s, e).value.Some?
  }

  predicate SignsOut(s: AuthState, e: Event) {
    NewUser(s, e) == Some(None)
  }

  lemma UserExactly(s: AuthState, e: Event)
    requires Inv(s)
    ensures Step(s, e).user == if NewUser(s, e).Some? then NewUser(s, e).value else s.user
    ensures Step(s, e).isAuthenticated <==> Step(s, e).user.Some?
    ensures Step(s, e).isBootstrapped <==> s.isBootstrapped || NewUser(s, e).Some?
  {}

  /** The flag goes on with a request and off with the end of one that still counts, a failed login or a sign-out. */
  lemma LoadingExactly(s: AuthState, e: Event)
    requires Inv(s)
    ensures var ends := || e.Reset? || (e.LoginAnswered? && e.started in s.logins && (e.answer.Failed? || e.started == s.version))
                        || (e.ProfileAnswered? && s.profile == Some(s.version));
            Step(s, e).isLoading <==> e.LoginStarts? || (e.LoadProfile? && s.profile.None?) || (s.isLoading && !ends)
  {}

  /** Requests under way: a login is known by the version it began, and there is one profile request at a time. */
  lemma RequestsExactly(s: AuthState, e: Event)
    ensures forall v :: v in Step(s, e).logins <==>
              (e.LoginStarts? && v == s.version + 1) || (v in s.logins && !(e.LoginAnswered? && e.started == v))
    ensures Step(s, e).profile == if e.ProfileAnswered? then None
                                  else if e.LoadProfile? && s.profile.None? then Some(s.version)
                                  else s.profile
  {}

  // ---------------------------------------------------------------- the mirrors of the user

  /** An id as local storage keeps it. */
  function Kept(id: Option<Id>): Option<Id> {
    if id == Some("") then None else id
  }

  lemma MirrorsExactly(s: AuthState, e: Event)
    ensures var s' := Step(s, e);
            if SignsIn(s, e) then s'.employeeIdKept == Kept(NewUser(s, e).value.value.employeeId)
                                  && s'.groupIdKept == Kept(NewUser(s, e).value.value.groupId)
            else if SignsOut(s, e) || e.SessionLost? then s'.employeeIdKept.None? && s'.groupIdKept.None?
            else s'.employeeIdKept == s.employeeIdKept && s'.groupIdKept == s.groupIdKept
  {}

  /** Local storage holds the employee and the group of the user who is signed in, and nothing when nobody is. */
  predicate Mirrors(s: AuthState) {
    if s.user.None? then s.employeeIdKept.None? && s.groupIdKept.None?
    else s.employeeIdKept == Kept(s.user.value.employeeId) && s.groupIdKept == Kept(s.user.value.groupId)
  }

  lemma StepMirrors(s: AuthState, e: Event)
    requires Inv(s) && (Mirrors(s) || NewUser(s, e).Some?) && !e.SessionLost?
    ensures Mirrors(Step(s, e))
  {
    UserExactly(s, e);
    MirrorsExactly(s, e);
  }

  /** In every run without a lost session the mirrors are those of the user. */
  lemma {:induction false} RunMirrorsTheUser(s: AuthState, events: seq<Event>)
    requires Inv(s) && Mirrors(s) && forall e :: e in events ==> !e.SessionLost?
    ensures Mirrors(Run(s, events))
  {
    if events != [] {
      var front := events[..|events| - 1];
      RunMirrorsTheUser(s, front);
      RunKeepsInv(s, front);
      assert events[|events| - 1] in events;
      StepMirrors(Run(s, front), events[|events| - 1]);
    }
  }

  /** And after a lost session they are again from the next sign-in or sign-out on. */
  lemma LostMirrorsComeBack(s: AuthState, lost: seq<Event>, e: Event, since: seq<Event>)
    requires Inv(s) && NewUser(Run(s, lost), e).Some? && forall x :: x in since ==> !x.SessionLost?
    ensures Mirrors(Run(Step(Run(s, lost), e), since))
  {
    RunKeepsInv(s, lost);
    StepKeepsInv(Run(s, lost), e);
    StepMirrors(Run(s, lost), e);
    RunMirrorsTheUser(Step(Run(s, lost), e), since);
  }

  // ---------------------------------------------------------------- the active company

  /** The id is trimmed; a blank one is none. */
  function Seeded(id: Option<Id>): Option<Id> {
    if id.None? || Trim(id.value) == "" then None else Some(Trim(id.value))
  }

  predicate Active(id: Option<Id>) {
    id.Some? && id != Some("")
  }

  /** The id a user brings to a store where none is active. */
  function Brought(user: User): Option<Id> {
    if user.companyId == Some("") then None else Seeded(user.companyId)
  }

  /** What setting or refreshing a user does to the company: nothing where one is active. */
  lemma SyncSeeds(s: AuthState, user: Option<User>)
    ensures var c, c' := s.company, SyncUserContext(s, user).company;
            if user.None? then c' == CompanyState(None, None, [], None)
            else if Active(c.activeId) then c' == c
            else
              && c'.activeId == Brought(user.value)
              && (Active(c'.activeId) ==> c'.companies == c.companies && c'.active == Find(c.companies, c'.activeId))
  {
    if user.Some? && user.value.companyId.Some? { TrimmedIsNotBlank(user.value.companyId.value); }
  }

  lemma TrimmedIsNotBlank(id: string)
    ensures Normalized(Some(id)) == Seeded(Some(id)) && Normalized(Some(id)) != Some("")
  {}

  lemma CompanyAfter(s: AuthState, e: Event)
    ensures Step(s, e).company ==
              if e.ChooseCompany? then SetActive(s.company, e.company)
              else if e.CompaniesLoaded? then SetCompanies(s.company, e.companies)
              else if e.SessionLost? then CompanyState(None, None, [], None)
              else if NewUser(s, e).Some? then SyncUserContext(s, NewUser(s, e).value).company
              else s.company
  {}

  /** The active id after any event: a choice, nothing after a sign-out or a lost session, and a seed only where none is active. */
  lemma ActiveIdExactly(s: AuthState, e: Event)
    ensures Step(s, e).company.activeId ==
              if e.ChooseCompany? then (if e.company.Some? then Some(e.company.value.id) else None)
              else if SignsOut(s, e) || e.SessionLost? then None
              else if SignsIn(s, e) && !Active(s.company.activeId) then Brought(NewUser(s, e).value.value)
              else s.company.activeId
  {
    CompanyAfter(s, e);
    if NewUser(s, e).Some? { SyncSeeds(s, NewUser(s, e).value); }
  }

  /** The object beside the id: the chosen one, or the first of the list with the active id. */
  lemma ActiveCompanyExactly(s: AuthState, e: Event)
    ensures var c, c' := s.company, Step(s, e).company;
            if e.ChooseCompany? then c'.active == e.company && c'.companies == c.companies
            else if e.CompaniesLoaded? then c'.companies == e.companies && IsFirst(c'.active, e.companies, c.activeId)
            else if Active(c'.activeId) && c'.activeId == c.activeId then c' == c
            else Active(c'.activeId) ==> c'.companies == c.companies && IsFirst(c'.active, c.companies, c'.activeId)
  {
    CompanyAfter(s, e);
    if NewUser(s, e).Some? { SyncSeeds(s, NewUser(s, e).value); }
    FindsTheFirst(if e.CompaniesLoaded? then e.companies else s.company.companies, Step(s, e).company.activeId);
  }

  /** A sign-out, a lost session, and a user of no company who meets no active one, leave no company behind, nor any list. */
  lemma NoCompanyIsLeft(s: AuthState, e: Event)
    requires || SignsOut(s, e) || e.SessionLost?
             || (SignsIn(s, e) && !Active(s.company.activeId) && NewUser(s, e).value.value.companyId in [None, Some("")])
    ensures Step(s, e).company == CompanyState(None, None, [], None)
  {
    CompanyAfter(s, e);
  }

  /** In every run the object beside the active id has that id, and local storage holds the id unless it is empty. */
  lemma ActiveIsMirrored(s: AuthState, events: seq<Event>)
    requires Inv(s)
    ensures var c := Run(s, events).company;
            && c.mirror == (if c.activeId == Some("") then None else c.activeId)
            && (c.active.Some? ==> c.activeId == Some(c.active.value.id))
  {
    RunKeepsInv(s, events);
  }

  ghost predicate IsFirst(found: Option<Company>, companies: seq<Company>, id: Option<Id>) {
    if found.None? then forall c :: c in companies ==> Some(c.id) != id
    else exists i :: 0 <= i < |companies| && companies[i] == found.value && Some(companies[i].id) == id
                     && forall j :: 0 <= j < i ==> Some(companies[j].id) != id
  }

  lemma {:induction false} FindsTheFirst(companies: seq<Company>, id: Option<Id>)
    ensures IsFirst(Find(companies, id), companies, id)
  {
    if companies != [] && id != Some(companies[0].id) {
      var rest := companies[1..];
      FindsTheFirst(rest, id);
      if Find(rest, id).Some? {
        var i :| 0 <= i < |rest| && rest[i] == Find(rest, id).value && Some(rest[i].id) == id
                 && forall j :: 0 <= j < i ==> Some(rest[j].id) != id;
        assert companies[i + 1] == rest[i];
        assert forall j :: 1 <= j < i + 1 ==> companies[j] == rest[j - 1];
      } else {
        assert forall c :: c in companies ==> c == companies[0] || c in rest;
      }
    }
  }
}
