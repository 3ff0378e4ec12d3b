/**
 * What the answers that come in decide: which callers get a response, which get an error, who is called
 * again, which CSRF token is kept, which one goes out, and whose signal is aborted.
 */
module ApiOutcomes {
  import opened Wrappers
  import opened ApiClient

  // ---------------------------------------------------------------- causes

  predicate Accepts(e: Event, id: RequestId) {
    e.Respond? && e.id == id && e.response.Succeeded?
  }

  /** The event turns the request away for good. */
  predicate TurnsAway(s: State, e: Event, id: RequestId)
    requires Enabled(s, e) && id in s.requests
  {
    var r := s.requests[id];
    match e
    case Dispatch(d) => d == id && r.config.signal.Aborted(s.ctl)
    case HeaderReady(d) => d == id && r.phase.wait.result.Err?
    case CsrfRetryReady(d) => d == id && r.phase.wait.result.Err?
    case Respond(d, response) =>
      d == id && (response.OtherError?
                  || (response.CsrfRejected? && (r.config.csrfRetry || !r.config.unsafeMethod))
                  || (response.Unauthorized? && (r.config.retry || r.config.endpoint == SessionEndpoint)))
    case FinishRefresh(d) => s.requests[d].phase == Leading(RefreshDone(false)) && (d == id || r.phase.Queued?)
    case _ => false
  }

  /** A fresh token after a CSRF refusal, or a refresh that worked. */
  predicate CallsAgain(s: State, e: Event, id: RequestId)
    requires Enabled(s, e) && id in s.requests
  {
    || (e == CsrfRetryReady(id) && s.requests[id].phase.wait.result.Ok?)
    || (e.FinishRefresh? && s.requests[e.id].phase == Leading(RefreshDone(true)) && (e.id == id || s.requests[id].phase.Queued?))
  }

  /** The first 401 outside a session endpoint. */
  predicate AsksForRefresh(s: State, e: Event, id: RequestId)
    requires id in s.requests
  {
    e == Respond(id, Unauthorized) && !s.requests[id].config.retry && s.requests[id].config.endpoint != SessionEndpoint
  }

  /** The first CSRF refusal of an unsafe request. */
  predicate AsksForToken(s: State, e: Event, id: RequestId)
    requires id in s.requests
  {
    e == Respond(id, CsrfRejected) && s.requests[id].config.unsafeMethod && !s.requests[id].config.csrfRetry
  }

  predicate RefreshWorks(e: Event, id: RequestId) {
    e.RefreshAnswered? && e.id == id && e.response.Succeeded?
  }

  /** No token to be had, or an answer that the one retry does not help. */
  predicate RefreshFails(s: State, e: Event, id: RequestId)
    requires Enabled(s, e) && id in s.requests
  {
    || (e == RefreshCsrfReady(id) && s.requests[id].phase.stage.wait.result.Err?
        && (s.requests[id].phase.stage.SecondCsrf? || s.requests[id].phase.stage.wait.result == Err(false)))
    || (e.RefreshAnswered? && e.id == id && !e.response.Succeeded?
        && (s.requests[id].phase.stage.SecondPost? || !e.response.CsrfRejected?))
  }

  /** The refresh itself was refused for its token and asks for another, once. */
  predicate RefreshAsksAgain(s: State, e: Event, id: RequestId)
    requires Enabled(s, e) && id in s.requests
  {
    || (e == RefreshCsrfReady(id) && s.requests[id].phase.stage == FirstCsrf(Ready(Err(true))))
    || (e == RefreshAnswered(id, CsrfRejected) && s.requests[id].phase.stage.FirstPost?)
  }

  // ---------------------------------------------------------------- every phase, by what brings it about

  /** How a request that was in phase `p` comes to be in phase `p'`: by its causes, or by staying. */
  ghost predicate PhaseFollows(s: State, e: Event, id: RequestId, p': Phase)
    requires Enabled(s, e) && id in s.requests
  {
    var r := s.requests[id]; var p, c := r.phase, r.config;
    && (p' == Settled(true) <==> p == Settled(true) || Accepts(e, id))
    && (p' == Settled(false) <==> p == Settled(false) || TurnsAway(s, e, id))
    && (p' == Called <==> CallsAgain(s, e, id) || (p == Called && e != RunInterceptor(id)))
    && (p'.AwaitHeader? <==> (e == RunInterceptor(id) && c.unsafeMethod) || (p.AwaitHeader? && e != HeaderReady(id)))
    && (p' == Assembled <==> || (e == RunInterceptor(id) && !c.unsafeMethod)
                             || (e == HeaderReady(id) && p.wait.result.Ok?)
                             || (p == Assembled && e != Dispatch(id)))
    && (p' == InFlight <==> (e == Dispatch(id) && !c.signal.Aborted(s.ctl)) || (p == InFlight && !(e.Respond? && e.id == id)))
    && (p'.AwaitCsrfRetry? <==> AsksForToken(s, e, id) || (p.AwaitCsrfRetry? && e != CsrfRetryReady(id)))
    && (p' == Queued <==> (AsksForRefresh(s, e, id) && s.isRefreshing) || (p == Queued && !e.FinishRefresh?))
    && (p'.Leading? <==> (AsksForRefresh(s, e, id) && !s.isRefreshing) || (p.Leading? && e != FinishRefresh(id)))
  }

  /** The same for the stages of the leader's refresh. */
  ghost predicate StageFollows(s: State, e: Event, id: RequestId, p': Phase)
    requires Enabled(s, e) && id in s.requests
  {
    var p := s.requests[id].phase;
    && (p' == Leading(RefreshDone(true)) <==>
          RefreshWorks(e, id) || (p == Leading(RefreshDone(true)) && e != FinishRefresh(id)))
    && (p' == Leading(RefreshDone(false)) <==>
          RefreshFails(s, e, id) || (p == Leading(RefreshDone(false)) && e != FinishRefresh(id)))
    && (p'.Leading? && p'.stage == FirstPost <==>
          || (e == RefreshCsrfReady(id) && p.stage.FirstCsrf? && p.stage.wait.result.Ok?)
          || (p == Leading(FirstPost) && !(e.RefreshAnswered? && e.id == id)))
    && (p'.Leading? && p'.stage == SecondPost <==>
          || (e == RefreshCsrfReady(id) && p.stage.SecondCsrf? && p.stage.wait.result.Ok?)
          || (p == Leading(SecondPost) && !(e.RefreshAnswered? && e.id == id)))
    && (p'.Leading? && p'.stage.SecondCsrf? <==>
          RefreshAsksAgain(s, e, id) || (p.Leading? && p.stage.SecondCsrf? && e != RefreshCsrfReady(id)))
  }

  lemma ResponsePhases(s: State, d: RequestId, response: Response, id: RequestId)
    requires Enabled(s, Respond(d, response)) && id in s.requests
    ensures id in OnResponse(s, d, response).requests
    ensures PhaseFollows(s, Respond(d, response), id, OnResponse(s, d, response).requests[id].phase)
    ensures StageFollows(s, Respond(d, response), id, OnResponse(s, d, response).requests[id].phase)
  {}

  lemma RefreshCsrfPhases(s: State, d: RequestId, id: RequestId)
    requires Enabled(s, RefreshCsrfReady(d)) && id in s.requests
    ensures id in OnRefreshCsrfReady(s, d).requests
    ensures PhaseFollows(s, RefreshCsrfReady(d), id, OnRefreshCsrfReady(s, d).requests[id].phase)
    ensures StageFollows(s, RefreshCsrfReady(d), id, OnRefreshCsrfReady(s, d).requests[id].phase)
  {}

  lemma RefreshAnsweredPhases(s: State, d: RequestId, response: Response, id: RequestId)
    requires Enabled(s, RefreshAnswered(d, response)) && id in s.requests
    ensures id in OnRefreshAnswered(s, d, response).requests
    ensures PhaseFollows(s, RefreshAnswered(d, response), id, OnRefreshAnswered(s, d, response).requests[id].phase)
    ensures StageFollows(s, RefreshAnswered(d, response), id, OnRefreshAnswered(s, d, response).requests[id].phase)
  {}

  lemma FinishPhases(s: State, d: RequestId, id: RequestId)
    requires QueueOk(s) && LeaderOk(s) && Enabled(s, FinishRefresh(d)) && id in s.requests
    ensures id in OnFinishRefresh(s, d).requests
    ensures PhaseFollows(s, FinishRefresh(d), id, OnFinishRefresh(s, d).requests[id].phase)
    ensures StageFollows(s, FinishRefresh(d), id, OnFinishRefresh(s, d).requests[id].phase)
  {
    FinishChanges(s, d, id);
  }

  lemma WakePhases(s: State, id: RequestId)
    requires Enabled(s, BootstrapFinally) && id in s.requests
    ensures id in OnBootstrapFinally(s).requests
    ensures PhaseFollows(s, BootstrapFinally, id, OnBootstrapFinally(s).requests[id].phase)
    ensures StageFollows(s, BootstrapFinally, id, OnBootstrapFinally(s).requests[id].phase)
  {}

  lemma SendingPhases(s: State, e: Event, id: RequestId)
    requires Enabled(s, e) && id in s.requests
    requires e.Dispatch? || e.CsrfRetryReady?
    ensures id in Apply(s, e).requests
    ensures PhaseFollows(s, e, id, Apply(s, e).requests[id].phase) && StageFollows(s, e, id, Apply(s, e).requests[id].phase)
  {}

  lemma InterceptorPhases(s: State, d: RequestId, id: RequestId)
    requires Enabled(s, RunInterceptor(d)) && id in s.requests
    ensures id in OnInterceptor(s, d).requests
    ensures PhaseFollows(s, RunInterceptor(d), id, OnInterceptor(s, d).requests[id].phase)
    ensures StageFollows(s, RunInterceptor(d), id, OnInterceptor(s, d).requests[id].phase)
  {}

  lemma HeaderPhases(s: State, d: RequestId, id: RequestId)
    requires Enabled(s, HeaderReady(d)) && id in s.requests
    ensures id in OnHeaderReady(s, d).requests
    ensures PhaseFollows(s, HeaderReady(d), id, OnHeaderReady(s, d).requests[id].phase)
    ensures StageFollows(s, HeaderReady(d), id, OnHeaderReady(s, d).requests[id].phase)
  {}

  lemma OutsidePhases(s: State, e: Event, id: RequestId)
    requires Enabled(s, e) && id in s.requests
    requires e.Call? || e.CallerAbort? || e.SwitchCompany? || e.BootstrapAnswered?
    ensures id in Apply(s, e).requests
    ensures PhaseFollows(s, e, id, Apply(s, e).requests[id].phase) && StageFollows(s, e, id, Apply(s, e).requests[id].phase)
  {}

  /** Every phase a request can be in, exactly by what brings it there. */
  lemma PhasesExactly(s: State, e: Event, id: RequestId)
    requires QueueOk(s) && LeaderOk(s) && Enabled(s, e) && id in s.requests
    ensures id in Apply(s, e).requests
    ensures PhaseFollows(s, e, id, Apply(s, e).requests[id].phase) && StageFollows(s, e, id, Apply(s, e).requests[id].phase)
  {
    match e
    case Respond(d, response) => ResponsePhases(s, d, response, id);
    case RefreshCsrfReady(d) => RefreshCsrfPhases(s, d, id);
    case RefreshAnswered(d, response) => RefreshAnsweredPhases(s, d, response, id);
    case FinishRefresh(d) => FinishPhases(s, d, id);
    case BootstrapFinally => WakePhases(s, id);
    case Call(_, _) => OutsidePhases(s, e, id);
    case CallerAbort(_) => OutsidePhases(s, e, id);
    case SwitchCompany(_) => OutsidePhases(s, e, id);
    case BootstrapAnswered(_) => OutsidePhases(s, e, id);
    case RunInterceptor(d) => InterceptorPhases(s, d, id);
    case HeaderReady(d) => HeaderPhases(s, d, id);
    case _ => SendingPhases(s, e, id);
  }

  // ---------------------------------------------------------------- whole runs: who gets a response

  function Next(s: State, e: Event): State {
    if Enabled(s, e) then Apply(s, e) else s
  }

  lemma NextKeepsInv(s: State, e: Event)
    requires Inv(s)
    ensures Inv(Next(s, e))
  {
    if Enabled(s, e) { StepKeepsInv(s, e); }
  }

  predicate HasOutcome(s: State, id: RequestId, success: bool) {
    id in s.requests && s.requests[id].phase == Settled(success)
  }

  /** A success answer to the request occurs in the run. */
  predicate IsAccepted(s: State, events: seq<Event>, id: RequestId)
    decreases |events|
  {
    events != [] && ((Enabled(s, events[0]) && Accepts(events[0], id)) || IsAccepted(Next(s, events[0]), events[1..], id))
  }

  /** An event of the run turns the request away. */
  predicate IsTurnedAway(s: State, events: seq<Event>, id: RequestId)
    decreases |events|
  {
    events != [] && (|| (Enabled(s, events[0]) && id in s.requests && TurnsAway(s, events[0], id))
                     || IsTurnedAway(Next(s, events[0]), events[1..], id))
  }

  lemma NextSettlesExactly(s: State, e: Event, id: RequestId)
    requires Inv(s)
    ensures HasOutcome(Next(s, e), id, true) <==> HasOutcome(s, id, true) || (Enabled(s, e) && Accepts(e, id))
    ensures HasOutcome(Next(s, e), id, false)
       <==> HasOutcome(s, id, false) || (Enabled(s, e) && id in s.requests && TurnsAway(s, e, id))
  {
    if Enabled(s, e) {
      if id in s.requests { PhasesExactly(s, e, id); } else { NewRequestIsCalled(s, e, id); }
    }
  }

  lemma NewRequestIsCalled(s: State, e: Event, id: RequestId)
    requires QueueOk(s) && LeaderOk(s) && Enabled(s, e) && id !in s.requests
    ensures id in Apply(s, e).requests <==> e.Call? && e.id == id
    ensures id in Apply(s, e).requests ==> Apply(s, e).requests[id] == Request(e.config, Called, 0)
  {
    if !e.Call? && e.FinishRefresh? { FinishSettlesOnly(s, e.id); }
  }

  /**
   * Whatever the schedule, a caller gets a response exactly when a success answer to the request came in,
   * and an error exactly when an event turned it away.
   */
  lemma {:induction false} RunSettlesExactly(s: State, events: seq<Event>, id: RequestId)
    requires Inv(s)
    ensures HasOutcome(Run(s, events), id, true) <==> HasOutcome(s, id, true) || IsAccepted(s, events, id)
    ensures HasOutcome(Run(s, events), id, false) <==> HasOutcome(s, id, false) || IsTurnedAway(s, events, id)
    decreases |events|
  {
    if events != [] {
      NextKeepsInv(s, events[0]);
      NextSettlesExactly(s, events[0], id);
      RunSettlesExactly(Next(s, events[0]), events[1..], id);
    }
  }

  // ---------------------------------------------------------------- which token is kept

  /** What the event says about the kept token, if it says anything. */
  function TokenAnswer(s: State, e: Event): Option<Option<string>>
    requires Enabled(s, e)
  {
    match e
    case Respond(id, Succeeded(token)) =>
      (match s.requests[id].config.endpoint
       case SessionEndpoint => Some(token)
       case LogoutEndpoint => Some(None)
       case OtherEndpoint => None)
    case RefreshAnswered(_, Succeeded(token)) => Some(token)
    case BootstrapAnswered(Ok(token)) => Some(token)
    case FinishRefresh(id) => if s.requests[id].phase == Leading(RefreshDone(false)) then Some(None) else None
    case _ => None
  }

  /** The event asks for a token that is not there, or for another one than is there. */
  predicate Fetches(s: State, e: Event)
    requires Enabled(s, e)
  {
    s.bootstrap == NoBootstrap
    && match e
       case RunInterceptor(id) => s.requests[id].config.unsafeMethod && s.csrfToken.None?
       case Respond(id, _) => AsksForToken(s, e, id) || (AsksForRefresh(s, e, id) && !s.isRefreshing && s.csrfToken.None?)
       case RefreshCsrfReady(id) => RefreshAsksAgain(s, e, id)
       case RefreshAnswered(id, _) => RefreshAsksAgain(s, e, id)
       case _ => false
  }

  /** The kept token is the last one answered; it is dropped exactly by a logout, a failed refresh, or to fetch another. */
  lemma KeptTokenExactly(s: State, e: Event)
    requires Enabled(s, e)
    ensures Apply(s, e).csrfToken == if TokenAnswer(s, e).Some? then TokenAnswer(s, e).value
                                     else if Fetches(s, e) then None
                                     else s.csrfToken
  {}

  /** One fetch at a time: it begins where it is asked for, holds its answer, and ends. */
  lemma BootstrapExactly(s: State, e: Event)
    requires Enabled(s, e)
    ensures var b := Apply(s, e).bootstrap;
            && (b == Fetching <==> Fetches(s, e) || (s.bootstrap == Fetching && !e.BootstrapAnswered?))
            && (b == NoBootstrap <==> e == BootstrapFinally || (s.bootstrap == NoBootstrap && !Fetches(s, e)))
            && (b.Fetched? <==> e.BootstrapAnswered? || (s.bootstrap.Fetched? && e != BootstrapFinally))
            && (b.Fetched? && s.bootstrap.Fetched? ==> b == s.bootstrap)
            && (b.Fetched? && !s.bootstrap.Fetched? ==> b.result == AnsweredToken(e.answer))
  {}

  /** An answer without a token is an error. */
  function AnsweredToken(answer: Result<Option<string>, IsCsrfError>): Result<string, IsCsrfError> {
    match answer
    case Ok(token) => if token.Some? then Ok(token.value) else Err(false)
    case Err(isCsrf) => Err(isCsrf)
  }

  // ---------------------------------------------------------------- which token a wait is answered with

  function WaitOf(p: Phase): Option<Wait> {
    match p
    case AwaitHeader(w) => Some(w)
    case AwaitCsrfRetry(w) => Some(w)
    case Leading(FirstCsrf(w)) => Some(w)
    case Leading(SecondCsrf(w)) => Some(w)
    case _ => None
  }

  /** The event begins a wait that a kept token answers at once. */
  predicate BeginsWithKept(s: State, e: Event, id: RequestId)
    requires Enabled(s, e) && id in s.requests
  {
    s.bootstrap == NoBootstrap && s.csrfToken.Some?
    && ((e == RunInterceptor(id) && s.requests[id].config.unsafeMethod) || (AsksForRefresh(s, e, id) && !s.isRefreshing))
  }

  predicate EndsWait(e: Event, id: RequestId) {
    e == HeaderReady(id) || e == CsrfRetryReady(id) || e == RefreshCsrfReady(id)
  }

  ghost predicate WaitFollows(s: State, e: Event, id: RequestId, p': Phase)
    requires Enabled(s, e) && id in s.requests
  {
    forall result ::
      WaitOf(p') == Some(Ready(result)) <==>
        || (BeginsWithKept(s, e, id) && result == Ok(s.csrfToken.value))
        || (e == BootstrapFinally && WaitOf(s.requests[id].phase) == Some(OnBootstrap) && result == s.bootstrap.result)
        || (WaitOf(s.requests[id].phase) == Some(Ready(result)) && !EndsWait(e, id))
  }

  /** A wait is answered with the kept token, or with what the fetch it waits for brought, and keeps its answer. */
  lemma WaitsExactly(s: State, e: Event, id: RequestId)
    requires QueueOk(s) && LeaderOk(s) && Enabled(s, e) && id in s.requests
    ensures id in Apply(s, e).requests && WaitFollows(s, e, id, Apply(s, e).requests[id].phase)
  {
    match e
    case Respond(d, response) => ResponseWaits(s, d, response, id);
    case RefreshCsrfReady(d) => RefreshCsrfWaits(s, d, id);
    case RefreshAnswered(d, response) => RefreshAnsweredWaits(s, d, response, id);
    case FinishRefresh(d) => FinishChanges(s, d, id);
    case BootstrapFinally => WakeWaits(s, id);
    case _ => OtherWaits(s, e, id);
  }

  lemma ResponseWaits(s: State, d: RequestId, response: Response, id: RequestId)
    requires Enabled(s, Respond(d, response)) && id in s.requests
    ensures id in OnResponse(s, d, response).requests
    ensures WaitFollows(s, Respond(d, response), id, OnResponse(s, d, response).requests[id].phase)
  {}

  lemma RefreshCsrfWaits(s: State, d: RequestId, id: RequestId)
    requires Enabled(s, RefreshCsrfReady(d)) && id in s.requests
    ensures id in OnRefreshCsrfReady(s, d).requests
    ensures WaitFollows(s, RefreshCsrfReady(d), id, OnRefreshCsrfReady(s, d).requests[id].phase)
  {}

  lemma RefreshAnsweredWaits(s: State, d: RequestId, response: Response, id: RequestId)
    requires Enabled(s, RefreshAnswered(d, response)) && id in s.requests
    ensures id in OnRefreshAnswered(s, d, response).requests
    ensures WaitFollows(s, RefreshAnswered(d, response), id, OnRefreshAnswered(s, d, response).requests[id].phase)
  {}

  lemma WakeWaits(s: State, id: RequestId)
    requires Enabled(s, BootstrapFinally) && id in s.requests
    ensures id in OnBootstrapFinally(s).requests
    ensures WaitFollows(s, BootstrapFinally, id, OnBootstrapFinally(s).requests[id].phase)
  {}

  lemma OtherWaits(s: State, e: Event, id: RequestId)
    requires Enabled(s, e) && id in s.requests
    requires !e.Respond? && !e.RefreshCsrfReady? && !e.RefreshAnswered? && !e.FinishRefresh? && !e.BootstrapFinally?
    ensures id in Apply(s, e).requests && WaitFollows(s, e, id, Apply(s, e).requests[id].phase)
  {}

  // ---------------------------------------------------------------- what a request carries and what is sent

  /** What may change of a request's config, and by what. */
  ghost predicate ConfigFollows(s: State, e: Event, id: RequestId, r': Request)
    requires Enabled(s, e) && id in s.requests
  {
    var r := s.requests[id]; var c, c' := r.config, r'.config;
    var prepares := e == RunInterceptor(id) && c.companyScoped;
    && c'.endpoint == c.endpoint && c'.companyScoped == c.companyScoped && c'.unsafeMethod == c.unsafeMethod
    && (c'.retry <==> c.retry || AsksForRefresh(s, e, id))
    && (c'.csrfRetry <==> c.csrfRetry || AsksForToken(s, e, id))
    && c'.csrfHeader == (if e == HeaderReady(id) && r.phase.wait.result.Ok? then Some(r.phase.wait.result.value) else c.csrfHeader)
    && (prepares ==> c'.companyParam == if s.ctl.activeCompanyId == Some("") then None else s.ctl.activeCompanyId)
    && (prepares ==> forall ctl: Controllers :: c'.signal.Aborted(ctl) <==> c.signal.Aborted(ctl) || s.ctl.epoch < ctl.epoch)
    && (!prepares ==> c'.companyParam == c.companyParam && c'.signal == c.signal)
    && r'.sends == r.sends + if e == Dispatch(id) && !c.signal.Aborted(s.ctl) then 1 else 0
  }

  lemma ConfigsExactly(s: State, e: Event, id: RequestId)
    requires QueueOk(s) && LeaderOk(s) && Enabled(s, e) && id in s.requests
    ensures id in Apply(s, e).requests && ConfigFollows(s, e, id, Apply(s, e).requests[id])
  {
    match e
    case Respond(d, response) => ResponseConfigs(s, d, response, id);
    case FinishRefresh(d) => FinishChanges(s, d, id);
    case RunInterceptor(d) => InterceptorConfigs(s, d, id);
    case RefreshCsrfReady(d) => RefreshCsrfConfigs(s, d, id);
    case RefreshAnswered(d, response) => RefreshAnsweredConfigs(s, d, response, id);
    case _ => OtherConfigs(s, e, id);
  }

  lemma ResponseConfigs(s: State, d: RequestId, response: Response, id: RequestId)
    requires Enabled(s, Respond(d, response)) && id in s.requests
    ensures id in OnResponse(s, d, response).requests
    ensures ConfigFollows(s, Respond(d, response), id, OnResponse(s, d, response).requests[id])
  {
    if d != id {
      ResponseLeavesOthers(s, d, response, id);
    } else {
      OwnResponseConfig(s, id, response);
    }
  }

  lemma ResponseLeavesOthers(s: State, d: RequestId, response: Response, id: RequestId)
    requires Enabled(s, Respond(d, response)) && id in s.requests && id != d
    ensures id in OnResponse(s, d, response).requests && OnResponse(s, d, response).requests[id] == s.requests[id]
  {}

  lemma OwnResponseConfig(s: State, id: RequestId, response: Response)
    requires Enabled(s, Respond(id, response))
    ensures id in OnResponse(s, id, response).requests
    ensures ConfigFollows(s, Respond(id, response), id, OnResponse(s, id, response).requests[id])
  {}

  lemma InterceptorConfigs(s: State, d: RequestId, id: RequestId)
    requires Enabled(s, RunInterceptor(d)) && id in s.requests
    ensures id in OnInterceptor(s, d).requests
    ensures ConfigFollows(s, RunInterceptor(d), id, OnInterceptor(s, d).requests[id])
  {
    CompanySignalAborts(s.requests[id].config.signal, s.ctl.epoch);
  }

  lemma CompanySignalAborts(sig: Signal, epoch: nat)
    ensures forall ctl: Controllers :: WithCompanyAbortSignal(sig, epoch).Aborted(ctl) <==> sig.Aborted(ctl) || epoch < ctl.epoch
  {}

  lemma RefreshCsrfConfigs(s: State, d: RequestId, id: RequestId)
    requires Enabled(s, RefreshCsrfReady(d)) && id in s.requests
    ensures id in OnRefreshCsrfReady(s, d).requests
    ensures ConfigFollows(s, RefreshCsrfReady(d), id, OnRefreshCsrfReady(s, d).requests[id])
  {}

  lemma RefreshAnsweredConfigs(s: State, d: RequestId, response: Response, id: RequestId)
    requires Enabled(s, RefreshAnswered(d, response)) && id in s.requests
    ensures id in OnRefreshAnswered(s, d, response).requests
    ensures ConfigFollows(s, RefreshAnswered(d, response), id, OnRefreshAnswered(s, d, response).requests[id])
  {}

  lemma OtherConfigs(s: State, e: Event, id: RequestId)
    requires Enabled(s, e) && id in s.requests
    requires !e.Respond? && !e.RunInterceptor? && !e.FinishRefresh? && !e.RefreshCsrfReady? && !e.RefreshAnswered?
    ensures id in Apply(s, e).requests && ConfigFollows(s, e, id, Apply(s, e).requests[id])
  {}

  /** Nothing leaves but at an unaborted dispatch, and then what the request carries leaves in the company active at the moment. */
  lemma NetworkExactly(s: State, e: Event)
    requires Enabled(s, e)
    ensures var sends := e.Dispatch? && !s.requests[e.id].config.signal.Aborted(s.ctl);
            && Apply(s, e).network == s.network + (if sends then [Apply(s, e).network[|s.network|]] else [])
            && (sends ==> var m, c := Apply(s, e).network[|s.network|], s.requests[e.id].config;
                          && m.id == e.id && m.companyScoped == c.companyScoped && m.companyParam == c.companyParam
                          && m.csrfHeader == c.csrfHeader && m.activeCompanyId == s.ctl.activeCompanyId && m.epoch == s.ctl.epoch)
  {}

  /** The company is left only for the chosen one, or for none when a refresh fails; each change is one epoch. */
  lemma CompanyExactly(s: State, e: Event)
    requires Enabled(s, e)
    ensures var ctl, ctl' := s.ctl, Apply(s, e).ctl;
            && ctl'.activeCompanyId == (if e.SwitchCompany? then e.companyId
                                        else if e.FinishRefresh? && s.requests[e.id].phase == Leading(RefreshDone(false)) then None
                                        else ctl.activeCompanyId)
            && ctl'.epoch == ctl.epoch + (if ctl'.activeCompanyId == ctl.activeCompanyId then 0 else 1)
            && ctl'.abortedCallers == ctl.abortedCallers + (if e.CallerAbort? then {e.controller} else {})
  {}

  /** The controller of the caller a signal listens to. */
  function CallerOf(sig: Signal): Option<nat> {
    match sig
    case CallerSignal(c) => Some(c)
    case Combined(inner, _) => CallerOf(inner)
    case _ => None
  }

  ghost predicate ListensToEnded(sig: Signal, ctl: Controllers) {
    exists e: nat :: sig.ListensTo(e) && e < ctl.epoch
  }

  /** A signal is aborted exactly by its caller, or by the end of a company epoch it listens to. */
  lemma {:induction false} AbortedExactly(sig: Signal, ctl: Controllers)
    ensures sig.Aborted(ctl)
       <==> (CallerOf(sig).Some? && CallerOf(sig).value in ctl.abortedCallers) || ListensToEnded(sig, ctl)
  {
    if sig.Combined? {
      AbortedExactly(sig.requestSignal, ctl);
      assert sig.ListensTo(sig.companyEpoch);
      forall e: nat ensures sig.ListensTo(e) <==> e == sig.companyEpoch || sig.requestSignal.ListensTo(e) {}
    } else if sig.CompanySignal? {
      assert sig.ListensTo(sig.epoch);
    }
  }

  // ---------------------------------------------------------------- whole runs: tokens

  /** The token an answer of this event carries. */
  function TokensOf(e: Event): set<string> {
    match e
    case Respond(_, Succeeded(Some(t))) => {t}
    case RefreshAnswered(_, Succeeded(Some(t))) => {t}
    case BootstrapAnswered(Ok(Some(t))) => {t}
    case _ => {}
  }

  function TokensIn(events: seq<Event>): set<string> {
    if events == [] then {} else TokensOf(events[0]) + TokensIn(events[1..])
  }

  predicate From(tokens: set<string>, token: Option<string>) {
    token.Some? ==> token.value in tokens
  }

  predicate AnsweredFrom(tokens: set<string>, result: Result<string, IsCsrfError>) {
    result.Ok? ==> result.value in tokens
  }

  predicate RequestFrom(tokens: set<string>, r: Request) {
    && From(tokens, r.config.csrfHeader)
    && (WaitOf(r.phase).Some? && WaitOf(r.phase).value.Ready? ==> AnsweredFrom(tokens, WaitOf(r.phase).value.result))
  }

  /** Every token the client holds anywhere is one of these. */
  ghost predicate AllFrom(tokens: set<string>, s: State) {
    && From(tokens, s.csrfToken)
    && (s.bootstrap.Fetched? ==> AnsweredFrom(tokens, s.bootstrap.result))
    && (forall id :: id in s.requests ==> RequestFrom(tokens, s.requests[id]))
    && (forall m :: m in s.network ==> From(tokens, m.csrfHeader))
  }

  lemma StepAllFrom(s: State, e: Event, tokens: set<string>)
    requires QueueOk(s) && LeaderOk(s) && Enabled(s, e) && AllFrom(tokens, s)
    ensures AllFrom(tokens + TokensOf(e), Apply(s, e))
  {
    var s', more := Apply(s, e), tokens + TokensOf(e);
    KeptTokenExactly(s, e);
    BootstrapExactly(s, e);
    NetworkExactly(s, e);
    forall id | id in s'.requests ensures RequestFrom(more, s'.requests[id]) {
      if id in s.requests { RequestStaysFrom(s, e, id, tokens); } else { NewRequestIsCalled(s, e, id); }
    }
  }

  lemma RequestStaysFrom(s: State, e: Event, id: RequestId, tokens: set<string>)
    requires QueueOk(s) && LeaderOk(s) && Enabled(s, e) && id in s.requests && RequestFrom(tokens, s.requests[id])
    requires From(tokens, s.csrfToken) && (s.bootstrap.Fetched? ==> AnsweredFrom(tokens, s.bootstrap.result))
    ensures id in Apply(s, e).requests && RequestFrom(tokens + TokensOf(e), Apply(s, e).requests[id])
  {
    WaitsExactly(s, e, id);
    ConfigsExactly(s, e, id);
  }

  /** The client never makes a token up: what it holds and sends came in an answer of the run. */
  lemma {:induction false} RunAllFrom(s: State, events: seq<Event>, tokens: set<string>)
    requires Inv(s) && AllFrom(tokens, s)
    ensures AllFrom(tokens + TokensIn(events), Run(s, events))
    decreases |events|
  {
    if events == [] {
      assert tokens + TokensIn(events) == tokens;
    } else {
      var e := events[0];
      NextKeepsInv(s, e);
      if Enabled(s, e) { StepAllFrom(s, e, tokens); }
      assert AllFrom(tokens + TokensOf(e), Next(s, e));
      RunAllFrom(Next(s, e), events[1..], tokens + TokensOf(e));
      assert tokens + TokensOf(e) + TokensIn(events[1..]) == tokens + TokensIn(events);
    }
  }

  lemma SentTokensWereAnswered(events: seq<Event>)
    ensures forall m :: m in Run(Initial, events).network && m.csrfHeader.Some? ==> m.csrfHeader.value in TokensIn(events)
  {
    InitialInv();
    RunAllFrom(Initial, events, {});
    assert {} + TokensIn(events) == TokensIn(events);
  }

  /** The last thing said about the kept token in the run. */
  function LastAnswer(s: State, events: seq<Event>, before: Option<string>): Option<string>
    decreases |events|
  {
    if events == [] then before
    else
      var answer := if Enabled(s, events[0]) then TokenAnswer(s, events[0]) else None;
      LastAnswer(Next(s, events[0]), events[1..], if answer.Some? then answer.value else before)
  }

  /** A kept token is the newest: the one the last answer of the run brought. */
  lemma {:induction false} KeptTokenIsTheLast(s: State, events: seq<Event>, before: Option<string>)
    requires s.csrfToken.Some? ==> s.csrfToken == before
    ensures Run(s, events).csrfToken.Some? ==> Run(s, events).csrfToken == LastAnswer(s, events, before)
    decreases |events|
  {
    if events != [] {
      var e := events[0];
      var answer := if Enabled(s, e) then TokenAnswer(s, e) else None;
      if Enabled(s, e) { KeptTokenExactly(s, e); }
      KeptTokenIsTheLast(Next(s, e), events[1..], if answer.Some? then answer.value else before);
    }
  }
}
