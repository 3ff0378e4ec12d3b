/**
 * The browser's request client: request and response interceptors, single-flight session refresh,
 * single-flight CSRF bootstrap, and the abort epoch of the active company.
 *
 * JavaScript runs one synchronous block at a time, so every block between two awaits is one step.
 * `State` holds the module variables and one record per caller request; `Apply` is one step.
 */
module ApiClient {
  import opened Wrappers

  type RequestId = nat

  /** Whether a failed call was refused with the CSRF message. */
  type IsCsrfError = bool

  // ---------------------------------------------------------------- data

  /** An abort signal, by the controllers it listens to. */
  datatype Signal =
    | NoSignal
    | CallerSignal(controller: nat)
    | CompanySignal(epoch: nat)
    | Combined(requestSignal: Signal, companyEpoch: nat)
  {
    /** True if the signal listens to the controller of company epoch `e`. */
    predicate ListensTo(e: nat) {
      match this
      case NoSignal => false
      case CallerSignal(_) => false
      case CompanySignal(epoch) => epoch == e
      case Combined(inner, epoch) => epoch == e || inner.ListensTo(e)
    }

    /** True if the signal listens to a company controller created so far. */
    predicate BoundToCompany(currentEpoch: nat) {
      match this
      case NoSignal => false
      case CallerSignal(_) => false
      case CompanySignal(epoch) => epoch <= currentEpoch
      case Combined(inner, epoch) => epoch <= currentEpoch || inner.BoundToCompany(currentEpoch)
    }

    /** Controllers of epochs before the current one have been aborted. */
    predicate Aborted(ctl: Controllers) {
      match this
      case NoSignal => false
      case CallerSignal(c) => c in ctl.abortedCallers
      case CompanySignal(epoch) => epoch < ctl.epoch
      case Combined(inner, epoch) => epoch < ctl.epoch || inner.Aborted(ctl)
    }
  }

  datatype Endpoint = SessionEndpoint | LogoutEndpoint | OtherEndpoint

  datatype Config = Config(
    endpoint: Endpoint,
    companyScoped: bool,
    unsafeMethod: bool,
    companyParam: Option<string>,
    signal: Signal,
    csrfHeader: Option<string>,
    retry: bool,
    csrfRetry: bool)

  /** What an awaited `ensureCsrfToken()` promise currently is. */
  datatype Wait = OnBootstrap | Ready(result: Result<string, IsCsrfError>)

  datatype RefreshStage =
    | FirstCsrf(wait: Wait)
    | FirstPost
    | SecondCsrf(wait: Wait)
    | SecondPost
    | RefreshDone(ok: bool)

  datatype Phase =
    | Called                      // api(config) was called, the request interceptor has not run
    | AwaitHeader(wait: Wait)     // the interceptor awaits the CSRF header
    | Assembled                   // the interceptor returned, dispatch has not run
    | InFlight
    | AwaitCsrfRetry(wait: Wait)  // the response interceptor awaits a fresh CSRF token
    | Queued                      // waiting in failedQueue
    | Leading(stage: RefreshStage)
    | Settled(success: bool)

  datatype Request = Request(config: Config, phase: Phase, sends: nat)

  datatype Bootstrap = NoBootstrap | Fetching | Fetched(result: Result<string, IsCsrfError>)

  /** One dispatched request, with the company that was active at that moment. */
  datatype Sent = Sent(id: RequestId, companyScoped: bool, companyParam: Option<string>, csrfHeader: Option<string>,
                       activeCompanyId: Option<string>, epoch: nat)

  /** The company store's active id, its abort controller's epoch, and the callers that aborted. */
  datatype Controllers = Controllers(activeCompanyId: Option<string>, epoch: nat, abortedCallers: set<nat>)

  datatype State = State(
    ctl: Controllers,
    isRefreshing: bool,
    failedQueue: seq<RequestId>,
    csrfToken: Option<string>,
    bootstrap: Bootstrap,
    requests: map<RequestId, Request>,
    network: seq<Sent>)

  datatype Response = Succeeded(csrfToken: Option<string>) | CsrfRejected | Unauthorized | OtherError

  datatype Event =
    | Call(id: RequestId, config: Config)
    | CallerAbort(controller: nat)
    | SwitchCompany(companyId: Option<string>)
    | RunInterceptor(id: RequestId)
    | HeaderReady(id: RequestId)
    | Dispatch(id: RequestId)
    | Respond(id: RequestId, response: Response)
    | CsrfRetryReady(id: RequestId)
    | RefreshCsrfReady(id: RequestId)
    | RefreshAnswered(id: RequestId, response: Response)
    | FinishRefresh(id: RequestId)
    | BootstrapAnswered(answer: Result<Option<string>, IsCsrfError>)
    | BootstrapFinally

  const Initial := State(Controllers(None, 0, {}), false, [], None, NoBootstrap, map[], [])

  // ---------------------------------------------------------------- pieces of the handlers

  /** The company id a request may carry: an empty id is dropped like a missing one. */
  function CompanyParam(active: Option<string>): Option<string> {
    if Truthy(active) then active else None
  }

  function WithCompanyAbortSignal(requestSignal: Signal, epoch: nat): Signal {
    if requestSignal.NoSignal? then CompanySignal(epoch) else Combined(requestSignal, epoch)
  }

  function Ensure(s: State, force: bool): (State, Wait) {
    if s.bootstrap != NoBootstrap then (s, OnBootstrap)
    else if s.csrfToken.Some? && !force then (s, Ready(Ok(s.csrfToken.value)))
    else (s.(csrfToken := None, bootstrap := Fetching), OnBootstrap)
  }

  function WithPhase(s: State, id: RequestId, phase: Phase): State
    requires id in s.requests
  {
    s.(requests := s.requests[id := s.requests[id].(phase := phase)])
  }

  function WithConfig(s: State, id: RequestId, config: Config, phase: Phase): State
    requires id in s.requests
  {
    s.(requests := s.requests[id := s.requests[id].(config := config, phase := phase)])
  }

  /** Every listed request moves to the given phase; the others stay. */
  function SettleAll(requests: map<RequestId, Request>, ids: seq<RequestId>, phase: Phase): map<RequestId, Request> {
    map id | id in requests :: if id in ids then requests[id].(phase := phase) else requests[id]
  }

  function Wake(phase: Phase, result: Result<string, IsCsrfError>): Phase {
    match phase
    case AwaitHeader(OnBootstrap) => AwaitHeader(Ready(result))
    case AwaitCsrfRetry(OnBootstrap) => AwaitCsrfRetry(Ready(result))
    case Leading(FirstCsrf(OnBootstrap)) => Leading(FirstCsrf(Ready(result)))
    case Leading(SecondCsrf(OnBootstrap)) => Leading(SecondCsrf(Ready(result)))
    case _ => phase
  }

  function ChangeCompany(s: State, companyId: Option<string>): State {
    if companyId == s.ctl.activeCompanyId then s
    else s.(ctl := s.ctl.(activeCompanyId := companyId, epoch := s.ctl.epoch + 1))
  }

  // ---------------------------------------------------------------- one step

  function OnInterceptor(s: State, id: RequestId): State
    requires id in s.requests
  {
    var c := s.requests[id].config;
    var scoped := if c.companyScoped
                  then c.(companyParam := CompanyParam(s.ctl.activeCompanyId),
                          signal := WithCompanyAbortSignal(c.signal, s.ctl.epoch))
                  else c;
    if !c.unsafeMethod then WithConfig(s, id, scoped, Assembled)
    else
      var (s', wait) := Ensure(s, false);
      WithConfig(s', id, scoped, AwaitHeader(wait))
  }

  function OnHeaderReady(s: State, id: RequestId): State
    requires id in s.requests && s.requests[id].phase.AwaitHeader?
  {
    match s.requests[id].phase.wait
    case Ready(Ok(t)) => WithConfig(s, id, s.requests[id].config.(csrfHeader := Some(t)), Assembled)
    case Ready(Err(_)) => WithPhase(s, id, Settled(false))
    case OnBootstrap => s
  }

  function OnDispatch(s: State, id: RequestId): State
    requires id in s.requests
  {
    var r := s.requests[id];
    if r.config.signal.Aborted(s.ctl) then WithPhase(s, id, Settled(false))
    else s.(
      requests := s.requests[id := r.(phase := InFlight, sends := r.sends + 1)],
      network := s.network + [Sent(id, r.config.companyScoped, r.config.companyParam, r.config.csrfHeader,
                                  s.ctl.activeCompanyId, s.ctl.epoch)])
  }

  function OnResponse(s: State, id: RequestId, response: Response): State
    requires id in s.requests
  {
    var c := s.requests[id].config;
    match response
    case Succeeded(token) =>
      var s' := if c.endpoint == SessionEndpoint then s.(csrfToken := token)
                else if c.endpoint == LogoutEndpoint then s.(csrfToken := None)
                else s;
      WithPhase(s', id, Settled(true))
    case CsrfRejected =>
      if c.unsafeMethod && !c.csrfRetry then
        var (s', wait) := Ensure(s, true);
        WithConfig(s', id, c.(csrfRetry := true), AwaitCsrfRetry(wait))
      else WithPhase(s, id, Settled(false))
    case Unauthorized =>
      if c.retry || c.endpoint == SessionEndpoint then WithPhase(s, id, Settled(false))
      else if s.isRefreshing then
        WithConfig(s.(failedQueue := s.failedQueue + [id]), id, c.(retry := true), Queued)
      else
        var (s', wait) := Ensure(s, false);
        WithConfig(s'.(isRefreshing := true), id, c.(retry := true), Leading(FirstCsrf(wait)))
    case OtherError => WithPhase(s, id, Settled(false))
  }

  function OnCsrfRetryReady(s: State, id: RequestId): State
    requires id in s.requests && s.requests[id].phase.AwaitCsrfRetry?
  {
    match s.requests[id].phase.wait
    case Ready(Ok(_)) => WithPhase(s, id, Called)
    case Ready(Err(_)) => WithPhase(s, id, Settled(false))
    case OnBootstrap => s
  }

  /** The forced second attempt of `refreshSession` after a CSRF refusal of the first. */
  function RetryRefresh(s: State, id: RequestId): State
    requires id in s.requests
  {
    var (s', wait) := Ensure(s, true);
    WithPhase(s', id, Leading(SecondCsrf(wait)))
  }

  function OnRefreshCsrfReady(s: State, id: RequestId): State
    requires id in s.requests && s.requests[id].phase.Leading?
  {
    match s.requests[id].phase.stage
    case FirstCsrf(Ready(Ok(_))) => WithPhase(s, id, Leading(FirstPost))
    case FirstCsrf(Ready(Err(true))) => RetryRefresh(s, id)
    case FirstCsrf(Ready(Err(false))) => WithPhase(s, id, Leading(RefreshDone(false)))
    case SecondCsrf(Ready(Ok(_))) => WithPhase(s, id, Leading(SecondPost))
    case SecondCsrf(Ready(Err(_))) => WithPhase(s, id, Leading(RefreshDone(false)))
    case _ => s
  }

  function OnRefreshAnswered(s: State, id: RequestId, response: Response): State
    requires id in s.requests && s.requests[id].phase.Leading?
  {
    match s.requests[id].phase.stage
    case FirstPost =>
      if response.Succeeded? then WithPhase(s.(csrfToken := response.csrfToken), id, Leading(RefreshDone(true)))
      else if response.CsrfRejected? then RetryRefresh(s, id)
      else WithPhase(s, id, Leading(RefreshDone(false)))
    case SecondPost =>
      if response.Succeeded? then WithPhase(s.(csrfToken := response.csrfToken), id, Leading(RefreshDone(true)))
      else WithPhase(s, id, Leading(RefreshDone(false)))
    case _ => s
  }

  /** Success: resolve the queue and call again. Failure: reject the queue and drop the client session. */
  function OnFinishRefresh(s: State, id: RequestId): State
    requires id in s.requests && s.requests[id].phase.Leading? && s.requests[id].phase.stage.RefreshDone?
  {
    var outcome := if s.requests[id].phase.stage.ok then Called else Settled(false);
    var s' := s.(requests := SettleAll(s.requests, s.failedQueue, outcome)[id := s.requests[id].(phase := outcome)],
                 failedQueue := [], isRefreshing := false);
    if outcome == Called then s' else ChangeCompany(s'.(csrfToken := None), None)
  }

  function OnBootstrapAnswered(s: State, answer: Result<Option<string>, IsCsrfError>): State {
    match answer
    case Ok(Some(t)) => s.(csrfToken := Some(t), bootstrap := Fetched(Ok(t)))
    case Ok(None) => s.(csrfToken := None, bootstrap := Fetched(Err(false)))
    case Err(isCsrf) => s.(bootstrap := Fetched(Err(isCsrf)))
  }

  function OnBootstrapFinally(s: State): State
    requires s.bootstrap.Fetched?
  {
    s.(bootstrap := NoBootstrap,
       requests := map id | id in s.requests ::
                     s.requests[id].(phase := Wake(s.requests[id].phase, s.bootstrap.result)))
  }

  /** A caller's config: the retry flags and the CSRF header are the client's own, the signal the caller's. */
  predicate FreshConfig(c: Config) {
    !c.retry && !c.csrfRetry && c.csrfHeader.None? && (c.signal.NoSignal? || c.signal.CallerSignal?)
  }

  predicate Enabled(s: State, e: Event) {
    match e
    case Call(id, config) => id !in s.requests && FreshConfig(config)
    case CallerAbort(_) => true
    case SwitchCompany(_) => true
    case RunInterceptor(id) => id in s.requests && s.requests[id].phase == Called
    case HeaderReady(id) => id in s.requests && s.requests[id].phase.AwaitHeader? && !s.requests[id].phase.wait.OnBootstrap?
    case Dispatch(id) => id in s.requests && s.requests[id].phase == Assembled
    case Respond(id, _) => id in s.requests && s.requests[id].phase == InFlight
    case CsrfRetryReady(id) => id in s.requests && s.requests[id].phase.AwaitCsrfRetry? && !s.requests[id].phase.wait.OnBootstrap?
    case RefreshCsrfReady(id) =>
      id in s.requests && s.requests[id].phase.Leading? &&
      var st := s.requests[id].phase.stage;
      (st.FirstCsrf? || st.SecondCsrf?) && !st.wait.OnBootstrap?
    case RefreshAnswered(id, _) =>
      id in s.requests && s.requests[id].phase.Leading? &&
      (s.requests[id].phase.stage.FirstPost? || s.requests[id].phase.stage.SecondPost?)
    case FinishRefresh(id) =>
      id in s.requests && s.requests[id].phase.Leading? && s.requests[id].phase.stage.RefreshDone?
    case BootstrapAnswered(_) => s.bootstrap == Fetching
    case BootstrapFinally => s.bootstrap.Fetched?
  }

  function Apply(s: State, e: Event): State
    requires Enabled(s, e)
  {
    match e
    case Call(id, config) => s.(requests := s.requests[id := Request(config, Called, 0)])
    case CallerAbort(c) => s.(ctl := s.ctl.(abortedCallers := s.ctl.abortedCallers + {c}))
    case SwitchCompany(companyId) => ChangeCompany(s, companyId)
    case RunInterceptor(id) => OnInterceptor(s, id)
    case HeaderReady(id) => OnHeaderReady(s, id)
    case Dispatch(id) => OnDispatch(s, id)
    case Respond(id, response) => OnResponse(s, id, response)
    case CsrfRetryReady(id) => OnCsrfRetryReady(s, id)
    case RefreshCsrfReady(id) => OnRefreshCsrfReady(s, id)
    case RefreshAnswered(id, response) => OnRefreshAnswered(s, id, response)
    case FinishRefresh(id) => OnFinishRefresh(s, id)
    case BootstrapAnswered(answer) => OnBootstrapAnswered(s, answer)
    case BootstrapFinally => OnBootstrapFinally(s)
  }

  /** A schedule; an event that is not enabled when its turn comes does not happen. */
  function Run(s: State, events: seq<Event>): State
    decreases |events|
  {
    if events == [] then s
    else Run(if Enabled(s, events[0]) then Apply(s, events[0]) else s, events[1..])
  }

  // ---------------------------------------------------------------- the invariant

  predicate WaitsOnBootstrap(p: Phase) {
    || p == AwaitHeader(OnBootstrap)
    || p == AwaitCsrfRetry(OnBootstrap)
    || p == Leading(FirstCsrf(OnBootstrap))
    || p == Leading(SecondCsrf(OnBootstrap))
  }

  /** Retry flags spent, which bounds how often the request can have been sent. */
  function Spent(c: Config): nat {
    (if c.retry then 1 else 0) + (if c.csrfRetry then 1 else 0)
  }

  predicate BeforeDispatch(p: Phase) {
    !p.InFlight? && !p.Settled?
  }

  /** The request interceptor has run at least once. */
  predicate Prepared(r: Request) {
    r.phase != Called || Spent(r.config) > 0
  }

  function CountSends(network: seq<Sent>, id: RequestId): nat {
    if network == [] then 0
    else CountSends(network[..|network| - 1], id) + if network[|network| - 1].id == id then 1 else 0
  }

  predicate RequestOk(ctl: Controllers, r: Request) {
    && r.sends <= Spent(r.config) + (if BeforeDispatch(r.phase) then 0 else 1)
    && (r.phase.Queued? || r.phase.Leading? ==> r.config.retry)
    && (r.phase.AwaitCsrfRetry? ==> r.config.csrfRetry)
    && (r.config.unsafeMethod && (r.phase.Assembled? || r.phase.InFlight?) ==> r.config.csrfHeader.Some?)
    && (r.config.companyScoped && Prepared(r) ==> r.config.signal.BoundToCompany(ctl.epoch))
    && (r.config.companyScoped && (r.phase.AwaitHeader? || r.phase.Assembled?) ==>
          CarriesActiveCompany(ctl, r.config) || r.config.signal.Aborted(ctl))
  }

  predicate CarriesActiveCompany(ctl: Controllers, c: Config) {
    c.signal.ListensTo(ctl.epoch) && c.companyParam == CompanyParam(ctl.activeCompanyId)
  }

  ghost predicate BootstrapOk(s: State) {
    forall id | id in s.requests && WaitsOnBootstrap(s.requests[id].phase) :: s.bootstrap != NoBootstrap
  }

  ghost predicate QueueOk(s: State) {
    && (forall id :: id in s.failedQueue <==> id in s.requests && s.requests[id].phase.Queued?)
    && (forall i, j :: 0 <= i < j < |s.failedQueue| ==> s.failedQueue[i] != s.failedQueue[j])
    && (s.failedQueue != [] ==> s.isRefreshing)
  }

  ghost predicate LeaderOk(s: State) {
    && (s.isRefreshing <==> exists id :: id in s.requests && s.requests[id].phase.Leading?)
    && (forall a, b | a in s.requests && b in s.requests && s.requests[a].phase.Leading? && s.requests[b].phase.Leading?
          :: a == b)
  }

  predicate SentOk(s: State, m: Sent) {
    && m.id in s.requests
    && m.companyScoped == s.requests[m.id].config.companyScoped
    && (s.requests[m.id].config.unsafeMethod ==> m.csrfHeader.Some?)
    && m.epoch <= s.ctl.epoch
    && (m.epoch == s.ctl.epoch ==> m.activeCompanyId == s.ctl.activeCompanyId)
    && (m.companyScoped ==> m.companyParam == CompanyParam(m.activeCompanyId)
                            && s.requests[m.id].config.signal.ListensTo(m.epoch))
  }

  /** One company per epoch, and one epoch per company-scoped request. */
  predicate SentAgree(m: Sent, n: Sent) {
    && (m.epoch == n.epoch ==> m.activeCompanyId == n.activeCompanyId)
    && (m.id == n.id ==> m.companyScoped == n.companyScoped)
    && (m.id == n.id && m.companyScoped ==> m.epoch == n.epoch)
  }

  ghost predicate NetworkOk(s: State) {
    && (forall m :: m in s.network ==> SentOk(s, m))
    && (forall m, n :: m in s.network && n in s.network ==> SentAgree(m, n))
    && (forall id :: id in s.requests ==> CountSends(s.network, id) == s.requests[id].sends)
  }

  ghost predicate Inv(s: State) {
    && (forall id :: id in s.requests ==> RequestOk(s.ctl, s.requests[id]))
    && BootstrapOk(s) && QueueOk(s) && LeaderOk(s) && NetworkOk(s)
  }

  // ---------------------------------------------------------------- the termination measure

  function PhaseRank(p: Phase): nat {
    match p
    case Settled(_) => 0
    case InFlight => 1
    case Assembled => 2
    case AwaitHeader(w) => if w.OnBootstrap? then 4 else 3
    case Called => 5
    case AwaitCsrfRetry(w) => if w.OnBootstrap? then 7 else 6
    case Queued => 6
    case Leading(RefreshDone(_)) => 6
    case Leading(SecondPost) => 7
    case Leading(SecondCsrf(w)) => if w.OnBootstrap? then 9 else 8
    case Leading(FirstPost) => 10
    case Leading(FirstCsrf(w)) => if w.OnBootstrap? then 12 else 11
  }

  /** Each retry flag is worth one more pass through the phases. */
  function Measure(r: Request): nat {
    20 * (2 - Spent(r.config)) + PhaseRank(r.phase)
  }

  // ---------------------------------------------------------------- signals

  /** Aborts accumulate and epochs advance. */
  predicate Later(ctl: Controllers, ctl': Controllers) {
    && ctl.epoch <= ctl'.epoch && ctl.abortedCallers <= ctl'.abortedCallers
    && (ctl.epoch == ctl'.epoch ==> ctl.activeCompanyId == ctl'.activeCompanyId)
  }

  /** An abort is final, and binding to an old company controller is an abort. */
  lemma SignalAborts(sig: Signal, ctl: Controllers, ctl': Controllers)
    requires Later(ctl, ctl')
    ensures sig.Aborted(ctl) ==> sig.Aborted(ctl')
    ensures sig.BoundToCompany(ctl.epoch) && ctl.epoch < ctl'.epoch ==> sig.Aborted(ctl')
    ensures sig.BoundToCompany(ctl.epoch) ==> sig.BoundToCompany(ctl'.epoch)
  {
    if sig.Combined? { SignalAborts(sig.requestSignal, ctl, ctl'); }
  }

  lemma ListenerAborts(sig: Signal, e: nat, ctl: Controllers)
    requires sig.ListensTo(e) && e < ctl.epoch
    ensures sig.Aborted(ctl)
  {
    if sig.Combined? && sig.companyEpoch != e { ListenerAborts(sig.requestSignal, e, ctl); }
  }

  // ---------------------------------------------------------------- every step keeps the invariant

  /** What no step takes back: a request stays, keeps its scope, and its signal keeps every controller. */
  ghost predicate Extends(s: State, s': State) {
    forall id | id in s.requests ::
      && id in s'.requests
      && s'.requests[id].config.companyScoped == s.requests[id].config.companyScoped
      && s'.requests[id].config.unsafeMethod == s.requests[id].config.unsafeMethod
      && SignalGrows(s.requests[id].config.signal, s'.requests[id].config.signal)
  }

  /** The second signal is the first or wraps it. */
  predicate SignalGrows(sig: Signal, sig': Signal) {
    sig' == sig || sig == NoSignal || (sig'.Combined? && sig'.requestSignal == sig)
  }

  /** Nothing was sent and the epoch only advances. */
  lemma NetworkFrame(s: State, s': State)
    requires NetworkOk(s) && Extends(s, s')
    requires s'.network == s.network && Later(s.ctl, s'.ctl)
    requires forall id | id in s.requests :: s'.requests[id].sends == s.requests[id].sends
    requires s'.requests.Keys == s.requests.Keys
    ensures NetworkOk(s')
  {
    forall m | m in s'.network ensures SentOk(s', m) { assert SentOk(s, m); }
  }

  lemma LeaderFrame(s: State, s': State)
    requires LeaderOk(s) && s'.isRefreshing == s.isRefreshing && s'.requests.Keys == s.requests.Keys
    requires forall id | id in s.requests :: s'.requests[id].phase.Leading? == s.requests[id].phase.Leading?
    ensures LeaderOk(s')
  {
    if s.isRefreshing {
      var l :| l in s.requests && s.requests[l].phase.Leading?;
      assert l in s'.requests && s'.requests[l].phase.Leading?;
    }
  }

  lemma QueueFrame(s: State, s': State)
    requires QueueOk(s) && s'.requests.Keys == s.requests.Keys
    requires s'.failedQueue == s.failedQueue && s'.isRefreshing == s.isRefreshing
    requires forall id | id in s.requests :: s'.requests[id].phase.Queued? == s.requests[id].phase.Queued?
    ensures QueueOk(s')
  {}

  /** The request `id` alone has changed, from `r` to `r'`. */
  ghost predicate OnlyChanged(s: State, s': State, id: RequestId, r: Request, r': Request) {
    && id in s.requests && s.requests[id] == r && s'.requests == s.requests[id := r']
    && r'.config.companyScoped == r.config.companyScoped && r'.config.unsafeMethod == r.config.unsafeMethod
    && SignalGrows(r.config.signal, r'.config.signal)
  }

  lemma ChangeExtends(s: State, s': State, id: RequestId, r: Request, r': Request)
    requires OnlyChanged(s, s', id, r, r')
    ensures Extends(s, s') && s'.requests.Keys == s.requests.Keys
  {}

  /** `id` moved on by itself: neither into nor out of the queue or the leader's seat, and nothing was sent. */
  ghost predicate IsLocal(s: State, s': State, id: RequestId) {
    && id in s.requests && id in s'.requests
    && (var r, r' := s.requests[id], s'.requests[id];
        && OnlyChanged(s, s', id, r, r') && r'.sends == r.sends
        && r'.phase.Queued? == r.phase.Queued? && r'.phase.Leading? == r.phase.Leading?
        && (RequestOk(s.ctl, r) ==> RequestOk(s.ctl, r'))
        && (WaitsOnBootstrap(r'.phase) ==> s'.bootstrap != NoBootstrap)
        && Measure(r') < Measure(r))
    && (s.bootstrap != NoBootstrap ==> s'.bootstrap != NoBootstrap)
    && s'.network == s.network && s'.ctl == s.ctl
    && s'.failedQueue == s.failedQueue && s'.isRefreshing == s.isRefreshing
  }

  lemma LocalStep(s: State, s': State, id: RequestId)
    requires Inv(s) && IsLocal(s, s', id)
    ensures Inv(s')
  {
    ChangeExtends(s, s', id, s.requests[id], s'.requests[id]);
    NetworkFrame(s, s');
    LeaderFrame(s, s');
    QueueFrame(s, s');
  }

  /** A later phase of `id`, with perhaps another CSRF token or a bootstrap begun, is a local step. */
  lemma PhaseIsLocal(s: State, t: State, id: RequestId, phase: Phase)
    requires id in s.requests && t == s.(csrfToken := t.csrfToken, bootstrap := t.bootstrap)
    requires s.bootstrap != NoBootstrap ==> t.bootstrap != NoBootstrap
    requires var r := s.requests[id];
             && phase.Queued? == r.phase.Queued? && phase.Leading? == r.phase.Leading?
             && PhaseRank(phase) < PhaseRank(r.phase)
             && (RequestOk(s.ctl, r) ==> RequestOk(s.ctl, r.(phase := phase)))
    requires WaitsOnBootstrap(phase) ==> t.bootstrap != NoBootstrap
    ensures IsLocal(s, WithPhase(t, id, phase), id)
  {}

  /** What an awaited token can be waiting for. */
  lemma EnsureBegins(s: State, force: bool)
    ensures var (t, wait) := Ensure(s, force);
            && t == s.(csrfToken := t.csrfToken, bootstrap := t.bootstrap)
            && (s.bootstrap != NoBootstrap ==> t.bootstrap != NoBootstrap)
            && (wait.OnBootstrap? ==> t.bootstrap != NoBootstrap)
  {}

  lemma InterceptorIsLocal(s: State, id: RequestId)
    requires Enabled(s, RunInterceptor(id))
    ensures IsLocal(s, OnInterceptor(s, id), id)
  {}

  lemma HeaderIsLocal(s: State, id: RequestId)
    requires Enabled(s, HeaderReady(id))
    ensures IsLocal(s, OnHeaderReady(s, id), id)
  {
    if s.requests[id].phase.wait.result.Err? { PhaseIsLocal(s, s, id, Settled(false)); }
  }

  lemma CsrfRetryIsLocal(s: State, id: RequestId)
    requires Enabled(s, CsrfRetryReady(id))
    ensures IsLocal(s, OnCsrfRetryReady(s, id), id)
  {
    PhaseIsLocal(s, s, id, if s.requests[id].phase.wait.result.Ok? then Called else Settled(false));
  }

  lemma RetryRefreshIsLocal(s: State, id: RequestId)
    requires id in s.requests && s.requests[id].phase.Leading?
    requires s.requests[id].phase.stage.FirstPost? || s.requests[id].phase.stage.FirstCsrf?
    ensures IsLocal(s, RetryRefresh(s, id), id)
  {
    EnsureBegins(s, true);
    var (t, wait) := Ensure(s, true);
    PhaseIsLocal(s, t, id, Leading(SecondCsrf(wait)));
  }

  lemma StageIsLocal(s: State, t: State, id: RequestId, stage: RefreshStage)
    requires id in s.requests && s.requests[id].phase.Leading? && t == s.(csrfToken := t.csrfToken)
    requires PhaseRank(Leading(stage)) < PhaseRank(s.requests[id].phase) && !WaitsOnBootstrap(Leading(stage))
    ensures IsLocal(s, WithPhase(t, id, Leading(stage)), id)
  {
    PhaseIsLocal(s, t, id, Leading(stage));
  }

  lemma RefreshCsrfIsLocal(s: State, id: RequestId)
    requires Enabled(s, RefreshCsrfReady(id))
    ensures IsLocal(s, OnRefreshCsrfReady(s, id), id)
  {
    match s.requests[id].phase.stage
    case FirstCsrf(Ready(Ok(_))) => StageIsLocal(s, s, id, FirstPost);
    case FirstCsrf(Ready(Err(true))) => RetryRefreshIsLocal(s, id);
    case SecondCsrf(Ready(Ok(_))) => StageIsLocal(s, s, id, SecondPost);
    case _ => StageIsLocal(s, s, id, RefreshDone(false));
  }

  lemma RefreshAnsweredIsLocal(s: State, id: RequestId, response: Response)
    requires Enabled(s, RefreshAnswered(id, response))
    ensures IsLocal(s, OnRefreshAnswered(s, id, response), id)
  {
    if response.Succeeded? {
      StageIsLocal(s, s.(csrfToken := response.csrfToken), id, RefreshDone(true));
    } else if response.CsrfRejected? && s.requests[id].phase.stage.FirstPost? {
      RetryRefreshIsLocal(s, id);
    } else {
      StageIsLocal(s, s, id, RefreshDone(false));
    }
  }

  /** The one retry after a CSRF refusal. */
  lemma CsrfRejectedIsLocal(s: State, id: RequestId)
    requires Enabled(s, Respond(id, CsrfRejected))
    requires s.requests[id].config.unsafeMethod && !s.requests[id].config.csrfRetry
    ensures IsLocal(s, OnResponse(s, id, CsrfRejected), id)
  {
    EnsureBegins(s, true);
  }

  lemma ResponseIsLocal(s: State, id: RequestId, response: Response)
    requires Enabled(s, Respond(id, response))
    requires !(response.Unauthorized? && FirstUnauthorized(s.requests[id].config))
    ensures IsLocal(s, OnResponse(s, id, response), id)
  {
    var c := s.requests[id].config;
    if response.Succeeded? {
      var t := if c.endpoint == SessionEndpoint then s.(csrfToken := response.csrfToken)
               else if c.endpoint == LogoutEndpoint then s.(csrfToken := None) else s;
      PhaseIsLocal(s, t, id, Settled(true));
    } else if response.CsrfRejected? && c.unsafeMethod && !c.csrfRetry {
      CsrfRejectedIsLocal(s, id);
    } else {
      PhaseIsLocal(s, s, id, Settled(false));
    }
  }

  /** A 401 that starts or joins a refresh. */
  predicate FirstUnauthorized(c: Config) {
    !c.retry && c.endpoint != SessionEndpoint
  }

  lemma LocalKeepsInv(s: State, e: Event)
    requires Inv(s) && Enabled(s, e)
    requires e.RunInterceptor? || e.HeaderReady? || e.CsrfRetryReady? || e.RefreshCsrfReady? || e.RefreshAnswered?
    ensures Inv(Apply(s, e))
  {
    LocalEventIsLocal(s, e);
    LocalStep(s, Apply(s, e), e.id);
  }

  lemma LocalEventIsLocal(s: State, e: Event)
    requires Enabled(s, e)
    requires e.RunInterceptor? || e.HeaderReady? || e.CsrfRetryReady? || e.RefreshCsrfReady? || e.RefreshAnswered?
    ensures IsLocal(s, Apply(s, e), e.id)
  {
    match e
    case RunInterceptor(id) => InterceptorIsLocal(s, id);
    case RefreshCsrfReady(id) => RefreshCsrfIsLocal(s, id);
    case RefreshAnswered(id, response) => RefreshAnsweredIsLocal(s, id, response);
    case HeaderReady(id) => HeaderIsLocal(s, id);
    case CsrfRetryReady(id) => CsrfRetryIsLocal(s, id);
  }

  // the environment: a new call, an abort by a caller, a switch of company

  lemma CallKeepsInv(s: State, id: RequestId, config: Config)
    requires Inv(s) && Enabled(s, Call(id, config))
    ensures Inv(Apply(s, Call(id, config)))
  {
    var s' := Apply(s, Call(id, config));
    if s.isRefreshing {
      var l :| l in s.requests && s.requests[l].phase.Leading?;
      assert l in s'.requests && s'.requests[l].phase.Leading?;
    }
    forall m | m in s.network ensures SentOk(s', m) && m.id != id { assert SentOk(s, m); }
    NeverSent(s.network, id);
  }

  lemma NeverSent(network: seq<Sent>, id: RequestId)
    requires forall m :: m in network ==> m.id != id
    ensures CountSends(network, id) == 0
  {}

  /** A caller's abort or a switch of company changes no request, only what its signal means. */
  lemma AbortsKeepInv(s: State, s': State)
    requires Inv(s) && Later(s.ctl, s'.ctl) && s' == s.(ctl := s'.ctl)
    ensures Inv(s')
  {
    forall id | id in s'.requests ensures RequestOk(s'.ctl, s'.requests[id]) {
      SignalAborts(s.requests[id].config.signal, s.ctl, s'.ctl);
    }
    NetworkFrame(s, s');
    LeaderFrame(s, s');
  }

  // dispatch

  lemma SendKeepsNetworkOk(s: State, id: RequestId)
    requires NetworkOk(s) && Enabled(s, Dispatch(id)) && RequestOk(s.ctl, s.requests[id])
    requires !s.requests[id].config.signal.Aborted(s.ctl)
    ensures NetworkOk(OnDispatch(s, id))
  {
    var s', r := OnDispatch(s, id), s.requests[id];
    var m := s'.network[|s.network|];
    assert s'.network[..|s'.network| - 1] == s.network;
    assert SentOk(s', m);
    forall n | n in s.network ensures SentOk(s', n) && SentAgree(n, m) && SentAgree(m, n) {
      assert SentOk(s, n);
      if n.id == id && n.companyScoped && n.epoch < s.ctl.epoch {
        ListenerAborts(r.config.signal, n.epoch, s.ctl);
      }
    }
  }

  lemma DispatchChanges(s: State, id: RequestId)
    requires Enabled(s, Dispatch(id))
    ensures var s', r := OnDispatch(s, id), s.requests[id];
            if r.config.signal.Aborted(s.ctl) then IsLocal(s, s', id)
            else && s'.requests == s.requests[id := r.(phase := InFlight, sends := r.sends + 1)]
                 && s' == s.(requests := s'.requests, network := s'.network)
                 && (RequestOk(s.ctl, r) ==> RequestOk(s.ctl, s'.requests[id]))
  {}

  lemma SendKeepsInv(s: State, id: RequestId)
    requires Inv(s) && Enabled(s, Dispatch(id)) && !s.requests[id].config.signal.Aborted(s.ctl)
    ensures Inv(OnDispatch(s, id))
  {
    var s' := OnDispatch(s, id);
    DispatchChanges(s, id);
    SendKeepsNetworkOk(s, id);
    LeaderFrame(s, s');
    QueueFrame(s, s');
  }

  lemma DispatchKeepsInv(s: State, id: RequestId)
    requires Inv(s) && Enabled(s, Dispatch(id))
    ensures Inv(OnDispatch(s, id))
  {
    if s.requests[id].config.signal.Aborted(s.ctl) {
      DispatchChanges(s, id);
      LocalStep(s, OnDispatch(s, id), id);
    } else {
      SendKeepsInv(s, id);
    }
  }

  // a first 401 joins the queue behind the leader, or takes the leader's seat

  lemma UnauthorizedChanges(s: State, id: RequestId)
    requires Enabled(s, Respond(id, Unauthorized)) && FirstUnauthorized(s.requests[id].config)
    ensures var s', r := OnResponse(s, id, Unauthorized), s.requests[id];
            && id in s'.requests && OnlyChanged(s, s', id, r, s'.requests[id]) && s'.requests[id].sends == r.sends
            && (RequestOk(s.ctl, r) ==> RequestOk(s.ctl, s'.requests[id]))
            && (WaitsOnBootstrap(s'.requests[id].phase) ==> s'.bootstrap != NoBootstrap)
            && Measure(s'.requests[id]) < Measure(r)
            && (s.bootstrap != NoBootstrap ==> s'.bootstrap != NoBootstrap)
            && s'.network == s.network && s'.ctl == s.ctl && s'.isRefreshing
            && s'.failedQueue == (if s.isRefreshing then s.failedQueue + [id] else s.failedQueue)
            && (if s.isRefreshing then s'.requests[id].phase.Queued? else s'.requests[id].phase.Leading?)
  {}

  lemma Enqueue(s: State, s': State, id: RequestId)
    requires QueueOk(s) && id in s.requests && !s.requests[id].phase.Queued? && s'.isRefreshing
    requires id in s'.requests && s'.requests == s.requests[id := s'.requests[id]] && s'.requests[id].phase.Queued?
    requires s'.failedQueue == s.failedQueue + [id]
    ensures QueueOk(s')
  {}

  lemma NewLeader(s: State, s': State, id: RequestId)
    requires LeaderOk(s) && !s.isRefreshing && s'.isRefreshing
    requires id in s'.requests && s'.requests == s.requests[id := s'.requests[id]] && s'.requests[id].phase.Leading?
    ensures LeaderOk(s')
  {}

  lemma UnauthorizedKeepsInv(s: State, id: RequestId)
    requires Inv(s) && Enabled(s, Respond(id, Unauthorized)) && FirstUnauthorized(s.requests[id].config)
    ensures Inv(OnResponse(s, id, Unauthorized))
  {
    var s' := OnResponse(s, id, Unauthorized);
    UnauthorizedChanges(s, id);
    ChangeExtends(s, s', id, s.requests[id], s'.requests[id]);
    NetworkFrame(s, s');
    if s.isRefreshing {
      LeaderFrame(s, s');
      Enqueue(s, s', id);
    } else {
      NewLeader(s, s', id);
    }
  }

  lemma ResponseKeepsInv(s: State, id: RequestId, response: Response)
    requires Inv(s) && Enabled(s, Respond(id, response))
    ensures Inv(OnResponse(s, id, response))
  {
    if response.Unauthorized? && FirstUnauthorized(s.requests[id].config) {
      UnauthorizedKeepsInv(s, id);
    } else {
      ResponseIsLocal(s, id, response);
      LocalStep(s, OnResponse(s, id, response), id);
    }
  }

  // phases that change under a request: the queue when its leader is done, the waiters of a bootstrap

  lemma PhasesMove(s: State, s': State)
    requires Inv(s) && s'.requests.Keys == s.requests.Keys && s'.network == s.network && s'.ctl == s.ctl
    requires forall i | i in s.requests ::
               && s'.requests[i].config == s.requests[i].config && s'.requests[i].sends == s.requests[i].sends
               && (RequestOk(s.ctl, s.requests[i]) ==> RequestOk(s.ctl, s'.requests[i]))
    requires BootstrapOk(s') && QueueOk(s') && LeaderOk(s')
    ensures Inv(s')
  {
    NetworkFrame(s, s');
  }

  lemma FinishChanges(s: State, id: RequestId, i: RequestId)
    requires QueueOk(s) && LeaderOk(s) && Enabled(s, FinishRefresh(id)) && i in s.requests
    ensures var r, r' := s.requests[i], OnFinishRefresh(s, id).requests[i];
            var settled := r.phase.Queued? || r.phase.Leading?;
            && r' == (if settled then r.(phase := if s.requests[id].phase.stage.ok then Called else Settled(false)) else r)
            && (RequestOk(s.ctl, r) ==> RequestOk(s.ctl, r'))
  {
    assert i in s.failedQueue <==> s.requests[i].phase.Queued?;
  }

  /** What the end of a refresh makes of each request: it keeps what was sent and waits for no refresh. */
  predicate Released(ctl: Controllers, r: Request, r': Request) {
    && r'.config == r.config && r'.sends == r.sends
    && !r'.phase.Queued? && !r'.phase.Leading?
    && (WaitsOnBootstrap(r'.phase) ==> WaitsOnBootstrap(r.phase))
    && (RequestOk(ctl, r) ==> RequestOk(ctl, r'))
  }

  lemma FinishReleases(s: State, id: RequestId, i: RequestId)
    requires QueueOk(s) && LeaderOk(s) && Enabled(s, FinishRefresh(id)) && i in s.requests
    ensures Released(s.ctl, s.requests[i], OnFinishRefresh(s, id).requests[i])
  {
    FinishChanges(s, id, i);
    if s.requests[i].phase.Leading? { assert i == id; }
  }

  lemma FinishKeepsInv(s: State, id: RequestId)
    requires Inv(s) && Enabled(s, FinishRefresh(id))
    ensures Inv(OnFinishRefresh(s, id))
  {
    var s' := OnFinishRefresh(s, id);
    SettlingKeepsInv(s, id);
    AbortsKeepInv(s'.(ctl := s.ctl), s');
  }

  /** The end of a refresh, but for the abort of a company switch. */
  lemma SettlingKeepsInv(s: State, id: RequestId)
    requires Inv(s) && Enabled(s, FinishRefresh(id))
    ensures Inv(OnFinishRefresh(s, id).(ctl := s.ctl))
  {
    forall i | i in s.requests ensures Released(s.ctl, s.requests[i], OnFinishRefresh(s, id).requests[i]) {
      FinishReleases(s, id, i);
    }
    FinishSettlesOnly(s, id);
    ReleaseKeepsInv(s, OnFinishRefresh(s, id).(ctl := s.ctl));
  }

  lemma FinishSettlesOnly(s: State, id: RequestId)
    requires Enabled(s, FinishRefresh(id))
    ensures var s' := OnFinishRefresh(s, id);
            && s'.requests.Keys == s.requests.Keys && s'.network == s.network
            && s'.bootstrap == s.bootstrap && s'.failedQueue == [] && !s'.isRefreshing
  {}

  /** Without a leader and a queue nothing waits for a refresh. */
  lemma ReleaseKeepsInv(s: State, t: State)
    requires Inv(s) && t.requests.Keys == s.requests.Keys && t.network == s.network && t.ctl == s.ctl
    requires t.bootstrap == s.bootstrap && t.failedQueue == [] && !t.isRefreshing
    requires forall i | i in s.requests :: Released(s.ctl, s.requests[i], t.requests[i])
    ensures Inv(t)
  {
    PhasesMove(s, t);
  }

  lemma WakeKeeps(ctl: Controllers, r: Request, result: Result<string, IsCsrfError>)
    ensures var p := Wake(r.phase, result);
            && p.Queued? == r.phase.Queued? && p.Leading? == r.phase.Leading? && !WaitsOnBootstrap(p)
            && (RequestOk(ctl, r) ==> RequestOk(ctl, r.(phase := p)))
            && Measure(r.(phase := p)) <= Measure(r)
  {}

  lemma BootstrapFinallyKeepsInv(s: State)
    requires Inv(s) && Enabled(s, BootstrapFinally)
    ensures Inv(OnBootstrapFinally(s))
  {
    var s' := OnBootstrapFinally(s);
    forall i | i in s.requests
      ensures var r, r' := s.requests[i], s'.requests[i];
              && r'.config == r.config && r'.sends == r.sends && !WaitsOnBootstrap(r'.phase)
              && r'.phase.Queued? == r.phase.Queued? && r'.phase.Leading? == r.phase.Leading?
              && (RequestOk(s.ctl, r) ==> RequestOk(s.ctl, r'))
    {
      WakeKeeps(s.ctl, s.requests[i], s.bootstrap.result);
    }
    LeaderFrame(s, s');
    QueueFrame(s, s');
    PhasesMove(s, s');
  }

  lemma BootstrapAnsweredKeepsInv(s: State, answer: Result<Option<string>, IsCsrfError>)
    requires Inv(s) && Enabled(s, BootstrapAnswered(answer))
    ensures Inv(OnBootstrapAnswered(s, answer))
  {
    var s' := OnBootstrapAnswered(s, answer);
    LeaderFrame(s, s');
    QueueFrame(s, s');
    PhasesMove(s, s');
  }

  lemma StepKeepsInv(s: State, e: Event)
    requires Inv(s) && Enabled(s, e)
    ensures Inv(Apply(s, e))
  {
    match e
    case Call(id, config) => CallKeepsInv(s, id, config);
    case CallerAbort(_) => AbortsKeepInv(s, Apply(s, e));
    case SwitchCompany(_) => AbortsKeepInv(s, Apply(s, e));
    case Dispatch(id) => DispatchKeepsInv(s, id);
    case Respond(id, response) => ResponseKeepsInv(s, id, response);
    case FinishRefresh(id) => FinishKeepsInv(s, id);
    case BootstrapAnswered(answer) => BootstrapAnsweredKeepsInv(s, answer);
    case BootstrapFinally => BootstrapFinallyKeepsInv(s);
    case _ => LocalKeepsInv(s, e);
  }

  lemma {:induction false} RunKeepsInv(s: State, events: seq<Event>)
    requires Inv(s)
    ensures Inv(Run(s, events))
    decreases |events|
  {
    if events != [] {
      if Enabled(s, events[0]) {
        StepKeepsInv(s, events[0]);
        RunKeepsInv(Apply(s, events[0]), events[1..]);
      } else {
        RunKeepsInv(s, events[1..]);
      }
    }
  }

  predicate OwnStep(e: Event, id: RequestId) {
    (e.RunInterceptor? || e.HeaderReady? || e.Dispatch? || e.Respond? || e.CsrfRetryReady?
     || e.RefreshCsrfReady? || e.RefreshAnswered? || e.FinishRefresh?) && e.id == id
  }

  /** What any step does to any request: it keeps its signal, never moves it back, and its own steps bring it on. */
  ghost predicate Moves(e: Event, id: RequestId, r: Request, r': Request) {
    && SignalGrows(r.config.signal, r'.config.signal)
    && Measure(r') <= Measure(r)
    && (OwnStep(e, id) ==> Measure(r') < Measure(r))
    && (r.phase.Queued? && !e.FinishRefresh? ==> r'.phase.Queued?)
  }

  lemma StepMoves(s: State, e: Event, id: RequestId)
    requires QueueOk(s) && LeaderOk(s) && Enabled(s, e) && id in s.requests
    ensures id in Apply(s, e).requests
    ensures Moves(e, id, s.requests[id], Apply(s, e).requests[id])
  {
    match e
    case Call(_, _) => OutsideMovesNothing(s, e, id);
    case CallerAbort(_) => OutsideMovesNothing(s, e, id);
    case SwitchCompany(_) => OutsideMovesNothing(s, e, id);
    case Dispatch(d) => DispatchMoves(s, d, id);
    case Respond(d, response) => ResponseMoves(s, d, response, id);
    case FinishRefresh(d) => FinishMoves(s, d, id);
    case BootstrapAnswered(answer) => BootstrapAnsweredMoves(s, answer, id);
    case BootstrapFinally => BootstrapFinallyMoves(s, id);
    case _ => LocalMoves(s, e, id);
  }

  /** Callers and users move no request that is under way. */
  lemma OutsideMovesNothing(s: State, e: Event, id: RequestId)
    requires Enabled(s, e) && id in s.requests && (e.Call? || e.CallerAbort? || e.SwitchCompany?)
    ensures id in Apply(s, e).requests && Apply(s, e).requests[id] == s.requests[id]
    ensures Moves(e, id, s.requests[id], Apply(s, e).requests[id])
  {}

  lemma DispatchMoves(s: State, d: RequestId, id: RequestId)
    requires Enabled(s, Dispatch(d)) && id in s.requests
    ensures id in OnDispatch(s, d).requests
    ensures Moves(Dispatch(d), id, s.requests[id], OnDispatch(s, d).requests[id])
  {
    DispatchChanges(s, d);
  }

  lemma FinishMoves(s: State, d: RequestId, id: RequestId)
    requires QueueOk(s) && LeaderOk(s) && Enabled(s, FinishRefresh(d)) && id in s.requests
    ensures id in OnFinishRefresh(s, d).requests
    ensures Moves(FinishRefresh(d), id, s.requests[id], OnFinishRefresh(s, d).requests[id])
  {
    FinishChanges(s, d, id);
  }

  lemma BootstrapAnsweredMoves(s: State, answer: Result<Option<string>, IsCsrfError>, id: RequestId)
    requires Enabled(s, BootstrapAnswered(answer)) && id in s.requests
    ensures OnBootstrapAnswered(s, answer).requests == s.requests
    ensures Moves(BootstrapAnswered(answer), id, s.requests[id], s.requests[id])
  {}

  lemma BootstrapFinallyMoves(s: State, id: RequestId)
    requires Enabled(s, BootstrapFinally) && id in s.requests
    ensures id in OnBootstrapFinally(s).requests
    ensures Moves(BootstrapFinally, id, s.requests[id], OnBootstrapFinally(s).requests[id])
  {
    WakeKeeps(s.ctl, s.requests[id], s.bootstrap.result);
  }

  lemma LocalMoves(s: State, e: Event, id: RequestId)
    requires Enabled(s, e) && id in s.requests
    requires e.RunInterceptor? || e.HeaderReady? || e.CsrfRetryReady? || e.RefreshCsrfReady? || e.RefreshAnswered?
    ensures id in Apply(s, e).requests && Moves(e, id, s.requests[id], Apply(s, e).requests[id])
  {
    LocalEventIsLocal(s, e);
  }

  lemma ResponseMoves(s: State, d: RequestId, response: Response, id: RequestId)
    requires Enabled(s, Respond(d, response)) && id in s.requests
    ensures id in OnResponse(s, d, response).requests
    ensures Moves(Respond(d, response), id, s.requests[id], OnResponse(s, d, response).requests[id])
  {
    if response.Unauthorized? && FirstUnauthorized(s.requests[d].config) {
      UnauthorizedChanges(s, d);
    } else {
      ResponseIsLocal(s, d, response);
    }
  }

  /** Epochs only advance, and only a dispatch reaches the network. */
  lemma StepAdvances(s: State, e: Event)
    requires Enabled(s, e)
    ensures Later(s.ctl, Apply(s, e).ctl)
    ensures !e.Dispatch? ==> Apply(s, e).network == s.network
  {}

  // ---------------------------------------------------------------- what holds in every run

  lemma InitialInv()
    ensures Inv(Initial)
  {}

  /**
   * Whatever the schedule: a company-scoped request only leaves with the company that is active at
   * that moment, all its sends fall into one company epoch, an unsafe request never leaves without
   * a CSRF header, no request is sent more than three times, one refresh runs at a time, and requests wait only while it does.
   */
  lemma EveryRunIsSafe(events: seq<Event>)
    ensures var s := Run(Initial, events);
            && (forall m | m in s.network && m.companyScoped :: m.companyParam == CompanyParam(m.activeCompanyId))
            && (forall m | m in s.network && m.id in s.requests && s.requests[m.id].config.unsafeMethod ::
                  m.csrfHeader.Some?)
            && (forall m, n | m in s.network && n in s.network && m.id == n.id && m.companyScoped ::
                  m.epoch == n.epoch && m.activeCompanyId == n.activeCompanyId && m.companyParam == n.companyParam)
            && (forall id | id in s.requests :: CountSends(s.network, id) <= 3)
            && (forall a, b | a in s.requests && b in s.requests
                              && s.requests[a].phase.Leading? && s.requests[b].phase.Leading? :: a == b)
            && (s.failedQueue != [] ==> exists id :: id in s.requests && s.requests[id].phase.Leading?)
  {
    InitialInv();
    RunKeepsInv(Initial, events);
    var s := Run(Initial, events);
    forall m, n | m in s.network && n in s.network && m.id == n.id && m.companyScoped
      ensures m.epoch == n.epoch && m.activeCompanyId == n.activeCompanyId && m.companyParam == n.companyParam
    {
      assert SentAgree(m, n) && SentOk(s, m) && SentOk(s, n);
    }
    forall id | id in s.requests ensures CountSends(s.network, id) <= 3 {
      assert RequestOk(s.ctl, s.requests[id]);
    }
  }

  // ---------------------------------------------------------------- a switch of company is final

  /** Once its signal is aborted a request is never sent again, whatever happens later. */
  lemma {:induction false} AbortedNeverSent(s: State, events: seq<Event>, id: RequestId)
    requires Inv(s) && id in s.requests
    requires s.requests[id].config.signal.Aborted(s.ctl)
    ensures CountSends(Run(s, events).network, id) == CountSends(s.network, id)
    decreases |events|
  {
    if events != [] {
      if Enabled(s, events[0]) {
        StepKeepsInv(s, events[0]);
        AbortedStaysAborted(s, events[0], id);
        AbortedNeverSent(Apply(s, events[0]), events[1..], id);
      } else {
        AbortedNeverSent(s, events[1..], id);
      }
    }
  }

  lemma AbortedStaysAborted(s: State, e: Event, id: RequestId)
    requires Inv(s) && Enabled(s, e) && id in s.requests
    requires s.requests[id].config.signal.Aborted(s.ctl)
    ensures var s' := Apply(s, e);
            && id in s'.requests && s'.requests[id].config.signal.Aborted(s'.ctl)
            && CountSends(s'.network, id) == CountSends(s.network, id)
  {
    var s' := Apply(s, e);
    StepMoves(s, e, id);
    StepAdvances(s, e);
    SignalAborts(s.requests[id].config.signal, s.ctl, s'.ctl);
    if e.Dispatch? && s'.network != s.network {
      assert s'.network[..|s'.network| - 1] == s.network;
    }
  }

  /** A company-scoped request prepared before a switch is never sent after it: not from the queue, not by a retry. */
  lemma SwitchStopsPreparedRequests(s: State, companyId: Option<string>, events: seq<Event>, id: RequestId)
    requires Inv(s) && companyId != s.ctl.activeCompanyId
    requires id in s.requests && s.requests[id].config.companyScoped && Prepared(s.requests[id])
    ensures CountSends(Run(s, [SwitchCompany(companyId)] + events).network, id) == CountSends(s.network, id)
  {
    var s' := ChangeCompany(s, companyId);
    assert RequestOk(s.ctl, s.requests[id]);
    SignalAborts(s.requests[id].config.signal, s.ctl, s'.ctl);
    StepKeepsInv(s, SwitchCompany(companyId));
    AbortedNeverSent(s', events, id);
    assert ([SwitchCompany(companyId)] + events)[1..] == events;
  }

  // ---------------------------------------------------------------- the queue and its leader

  /** A queued request leaves the queue only when the leader is done, and shares the leader's outcome. */
  lemma QueueLeavesWithLeader(s: State, e: Event, id: RequestId)
    requires Inv(s) && Enabled(s, e) && id in s.requests && s.requests[id].phase.Queued?
    ensures id in Apply(s, e).requests
    ensures !e.FinishRefresh? ==> Apply(s, e).requests[id].phase.Queued?
    ensures e.FinishRefresh? ==>
              Apply(s, e).requests[id].phase == if s.requests[e.id].phase.stage.ok then Called else Settled(false)
  {
    StepMoves(s, e, id);
    if e.FinishRefresh? { FinishChanges(s, e.id, id); }
  }

  /** Nobody is left waiting when the leader is done, and a failed refresh ends the client session. */
  lemma FinishEmptiesQueue(s: State, id: RequestId)
    requires Inv(s) && Enabled(s, FinishRefresh(id))
    ensures var s' := Apply(s, FinishRefresh(id));
            && s'.failedQueue == [] && !s'.isRefreshing
            && (forall i | i in s'.requests :: !s'.requests[i].phase.Queued? && !s'.requests[i].phase.Leading?)
            && (!s.requests[id].phase.stage.ok ==> s'.ctl.activeCompanyId == None && s'.csrfToken == None)
  {
    FinishKeepsInv(s, id);
  }

  // ---------------------------------------------------------------- termination

  function OwnSteps(s: State, events: seq<Event>, id: RequestId): nat
    decreases |events|
  {
    if events == [] then 0
    else if Enabled(s, events[0])
    then (if OwnStep(events[0], id) then 1 else 0) + OwnSteps(Apply(s, events[0]), events[1..], id)
    else OwnSteps(s, events[1..], id)
  }

  /** No request goes round for ever: in any run it takes at most as many steps as its measure. */
  lemma {:induction false} RequestsTerminate(s: State, events: seq<Event>, id: RequestId)
    requires Inv(s) && id in s.requests
    ensures OwnSteps(s, events, id) <= Measure(s.requests[id]) <= 52
    decreases |events|
  {
    assert RequestOk(s.ctl, s.requests[id]);
    if events != [] {
      if Enabled(s, events[0]) {
        StepKeepsInv(s, events[0]);
        StepMoves(s, events[0], id);
        RequestsTerminate(Apply(s, events[0]), events[1..], id);
      } else {
        RequestsTerminate(s, events[1..], id);
      }
    }
  }

  predicate Answerable(e: Event) {
    !e.Call? && !e.CallerAbort? && !e.SwitchCompany?
  }

  /** A step that brings an unsettled request on, without waiting for callers or users. */
  lemma NextOwnStep(s: State, id: RequestId) returns (e: Event)
    requires Inv(s) && id in s.requests && !s.requests[id].phase.Settled? && !s.requests[id].phase.Queued?
    ensures Answerable(e) && Enabled(s, e)
    ensures OwnStep(e, id) || (WaitsOnBootstrap(s.requests[id].phase) && (e.BootstrapAnswered? || e.BootstrapFinally?))
  {
    assert RequestOk(s.ctl, s.requests[id]);
    if WaitsOnBootstrap(s.requests[id].phase) {
      return if s.bootstrap == Fetching then BootstrapAnswered(Err(false)) else BootstrapFinally;
    }
    match s.requests[id].phase
    case Called => e := RunInterceptor(id);
    case AwaitHeader(_) => e := HeaderReady(id);
    case Assembled => e := Dispatch(id);
    case InFlight => e := Respond(id, OtherError);
    case AwaitCsrfRetry(_) => e := CsrfRetryReady(id);
    case Leading(stage) =>
      e := if stage.FirstCsrf? || stage.SecondCsrf? then RefreshCsrfReady(id)
           else if stage.RefreshDone? then FinishRefresh(id)
           else RefreshAnswered(id, OtherError);
  }

  /** No request is forgotten: while one is unsettled, it, its bootstrap or its leader can move. */
  lemma NoRequestIsStuck(s: State, id: RequestId)
    requires Inv(s) && id in s.requests && !s.requests[id].phase.Settled?
    ensures exists e ::
              && Answerable(e) && Enabled(s, e)
              && (OwnStep(e, id) || e.BootstrapAnswered? || e.BootstrapFinally?
                  || (s.requests[id].phase.Queued? && exists l :: l in s.requests && s.requests[l].phase.Leading? && OwnStep(e, l)))
  {
    if s.requests[id].phase.Queued? {
      assert id in s.failedQueue;
      var l :| l in s.requests && s.requests[l].phase.Leading?;
      var e := NextOwnStep(s, l);
    } else {
      var e := NextOwnStep(s, id);
    }
  }

  // ---------------------------------------------------------------- every request is settled

  /** The requests, each once. */
  predicate Lists(ids: seq<RequestId>, s: State) {
    && (forall id :: id in s.requests ==> id in ids)
    && (forall id :: id in ids ==> id in s.requests)
  }

  function Total(s: State, ids: seq<RequestId>): nat
    requires forall id :: id in ids ==> id in s.requests
  {
    if ids == [] then 0 else Measure(s.requests[ids[0]]) + Total(s, ids[1..])
  }

  function BootstrapRank(b: Bootstrap): nat {
    match b
    case NoBootstrap => 0
    case Fetched(_) => 1
    case Fetching => 2
  }

  /** A step of a request may begin a bootstrap, and is worth more than the two steps of one. */
  function Potential(s: State, ids: seq<RequestId>): nat
    requires forall id :: id in ids ==> id in s.requests
  {
    3 * Total(s, ids) + BootstrapRank(s.bootstrap)
  }

  lemma {:induction false} TotalFalls(s: State, s': State, ids: seq<RequestId>, own: RequestId)
    requires forall id :: id in ids ==> id in s.requests && id in s'.requests
    requires forall id :: id in ids ==> Measure(s'.requests[id]) <= Measure(s.requests[id])
    ensures Total(s', ids) <= Total(s, ids)
    ensures own in ids && Measure(s'.requests[own]) < Measure(s.requests[own]) ==> Total(s', ids) < Total(s, ids)
  {
    if ids != [] {
      assert ids == [ids[0]] + ids[1..];
      TotalFalls(s, s', ids[1..], own);
    }
  }

  lemma AnswersMoveTheBootstrap(s: State, e: Event)
    requires Enabled(s, e) && Answerable(e)
    ensures BootstrapRank(Apply(s, e).bootstrap) <= BootstrapRank(s.bootstrap) + 2
    ensures e.BootstrapAnswered? || e.BootstrapFinally? ==> BootstrapRank(Apply(s, e).bootstrap) < BootstrapRank(s.bootstrap)
  {}

  /** Answers bring no new request, and each of them lowers the potential. */
  lemma AnswerLowersPotential(s: State, e: Event, ids: seq<RequestId>)
    requires Inv(s) && Enabled(s, e) && Answerable(e) && Lists(ids, s)
    ensures Lists(ids, Apply(s, e)) && Potential(Apply(s, e), ids) < Potential(s, ids)
  {
    AnswersBringNoRequest(s, e);
    AnswersMoveTheBootstrap(s, e);
    TotalMoves(s, e, ids);
  }

  lemma TotalMoves(s: State, e: Event, ids: seq<RequestId>)
    requires QueueOk(s) && LeaderOk(s) && Enabled(s, e) && Answerable(e) && Lists(ids, s) && Lists(ids, Apply(s, e))
    ensures Total(Apply(s, e), ids) <= Total(s, ids)
    ensures !e.BootstrapAnswered? && !e.BootstrapFinally? ==> Total(Apply(s, e), ids) < Total(s, ids)
  {
    var s' := Apply(s, e);
    forall id | id in ids ensures Measure(s'.requests[id]) <= Measure(s.requests[id]) { StepMoves(s, e, id); }
    var own := Mover(e);
    if own in ids { StepMoves(s, e, own); }
    TotalFalls(s, s', ids, own);
  }

  function Mover(e: Event): RequestId
    requires Answerable(e)
  {
    if e.BootstrapAnswered? || e.BootstrapFinally? then 0 else e.id
  }

  lemma AnswersBringNoRequest(s: State, e: Event)
    requires QueueOk(s) && LeaderOk(s) && Enabled(s, e) && Answerable(e)
    ensures Apply(s, e).requests.Keys == s.requests.Keys
  {
    forall id | id in s.requests ensures id in Apply(s, e).requests { StepMoves(s, e, id); }
  }

  /** Every event of the run is an answer and can happen when its turn comes. */
  predicate OnlyAnswers(s: State, events: seq<Event>)
    decreases |events|
  {
    events != [] ==> Answerable(events[0]) && Enabled(s, events[0]) && OnlyAnswers(Apply(s, events[0]), events[1..])
  }

  ghost predicate AllSettled(s: State) {
    forall id :: id in s.requests ==> s.requests[id].phase.Settled?
  }

  /** Without new calls and switches the client comes to rest: no run of answers is longer than the potential. */
  lemma {:induction false} RunsOfAnswersEnd(s: State, events: seq<Event>, ids: seq<RequestId>)
    requires Inv(s) && Lists(ids, s) && OnlyAnswers(s, events)
    ensures |events| <= Potential(s, ids)
    decreases |events|
  {
    if events != [] {
      StepKeepsInv(s, events[0]);
      AnswerLowersPotential(s, events[0], ids);
      RunsOfAnswersEnd(Apply(s, events[0]), events[1..], ids);
    }
  }

  /** And it only comes to rest when every request has been settled. */
  lemma RestMeansSettled(s: State)
    requires Inv(s) && forall e :: Answerable(e) ==> !Enabled(s, e)
    ensures AllSettled(s)
  {
    forall id | id in s.requests ensures s.requests[id].phase.Settled? {
      if !s.requests[id].phase.Settled? { NoRequestIsStuck(s, id); }
    }
  }

  /**
   * From every reachable state, answers alone settle every request: any run of answers can be carried on
   * until nothing is enabled, it cannot be carried on for ever, and then nothing is left waiting.
   */
  lemma {:induction false} AnswersSettleEverything(s: State, ids: seq<RequestId>) returns (events: seq<Event>)
    requires Inv(s) && Lists(ids, s)
    ensures OnlyAnswers(s, events) && |events| <= Potential(s, ids)
    ensures AllSettled(Run(s, events))
    decreases Potential(s, ids)
  {
    if AllSettled(s) {
      events := [];
    } else {
      var id :| id in s.requests && !s.requests[id].phase.Settled?;
      NoRequestIsStuck(s, id);
      var e :| Answerable(e) && Enabled(s, e);
      StepKeepsInv(s, e);
      AnswerLowersPotential(s, e, ids);
      var more := AnswersSettleEverything(Apply(s, e), ids);
      events := [e] + more;
      assert events[1..] == more;
    }
  }

  // ---------------------------------------------------------------- the handlers as the program runs them

  /** The module variables of the client, with the handlers that update them. */
  class Client {
    var ctl: Controllers
    var isRefreshing: bool
    var failedQueue: seq<RequestId>
    var csrfToken: Option<string>
    var csrfBootstrap: Bootstrap
    var requests: map<RequestId, Request>
    var network: seq<Sent>

    ghost function Model(): State
      reads this
    {
      State(ctl, isRefreshing, failedQueue, csrfToken, csrfBootstrap, requests, network)
    }

    constructor ()
      ensures Model() == Initial
    {
      ctl := Controllers(None, 0, {});
      isRefreshing := false;
      failedQueue := [];
      csrfToken := None;
      csrfBootstrap := NoBootstrap;
      requests := map[];
      network := [];
    }

    /** The store's subscription: abort the old controller, make a new one. */
    method OnCompanyChange(companyId: Option<string>)
      modifies this`ctl
      ensures Model() == Apply(old(Model()), SwitchCompany(companyId))
    {
      if companyId != ctl.activeCompanyId {
        ctl := Controllers(companyId, ctl.epoch + 1, ctl.abortedCallers);
      }
    }

    method EnsureCsrfToken(force: bool) returns (wait: Wait)
      modifies this`csrfToken, this`csrfBootstrap
      ensures (Model(), wait) == Ensure(old(Model()), force)
    {
      if csrfBootstrap != NoBootstrap { return OnBootstrap; }
      if csrfToken.Some? && !force { return Ready(Ok(csrfToken.value)); }
      csrfToken := None;
      csrfBootstrap := Fetching;
      wait := OnBootstrap;
    }

    method RequestInterceptor(id: RequestId)
      requires Enabled(Model(), RunInterceptor(id))
      modifies this
      ensures Model() == Apply(old(Model()), RunInterceptor(id))
    {
      var config := requests[id].config;
      if config.companyScoped {
        config := config.(companyParam := CompanyParam(ctl.activeCompanyId),
                          signal := WithCompanyAbortSignal(config.signal, ctl.epoch));
      }
      var phase := Assembled;
      if config.unsafeMethod {
        var wait := EnsureCsrfToken(false);
        phase := AwaitHeader(wait);
      }
      requests := requests[id := requests[id].(config := config, phase := phase)];
    }

    method DispatchRequest(id: RequestId)
      requires Enabled(Model(), Dispatch(id))
      modifies this
      ensures Model() == Apply(old(Model()), Dispatch(id))
    {
      var r := requests[id];
      if r.config.signal.Aborted(ctl) {
        requests := requests[id := r.(phase := Settled(false))];
        return;
      }
      network := network + [Sent(id, r.config.companyScoped, r.config.companyParam, r.config.csrfHeader,
                                 ctl.activeCompanyId, ctl.epoch)];
      requests := requests[id := r.(phase := InFlight, sends := r.sends + 1)];
    }

    method ResponseInterceptor(id: RequestId, response: Response)
      requires Enabled(Model(), Respond(id, response))
      modifies this
      ensures Model() == Apply(old(Model()), Respond(id, response))
    {
      var config := requests[id].config;
      if response.Succeeded? {
        if config.endpoint == SessionEndpoint { csrfToken := response.csrfToken; }
        else if config.endpoint == LogoutEndpoint { csrfToken := None; }
        requests := requests[id := requests[id].(phase := Settled(true))];
        return;
      }
      if response.CsrfRejected? && config.unsafeMethod && !config.csrfRetry {
        var wait := EnsureCsrfToken(true);
        requests := requests[id := requests[id].(config := config.(csrfRetry := true), phase := AwaitCsrfRetry(wait))];
        return;
      }
      if response.Unauthorized? && !config.retry && config.endpoint != SessionEndpoint {
        config := config.(retry := true);
        if isRefreshing {
          failedQueue := failedQueue + [id];
          requests := requests[id := requests[id].(config := config, phase := Queued)];
          return;
        }
        isRefreshing := true;
        var wait := EnsureCsrfToken(false);
        requests := requests[id := requests[id].(config := config, phase := Leading(FirstCsrf(wait)))];
        return;
      }
      requests := requests[id := requests[id].(phase := Settled(false))];
    }

    /** Settle every waiting request, then empty the queue. */
    method ProcessQueue(outcome: Phase)
      requires forall id | id in failedQueue :: id in requests
      modifies this`requests, this`failedQueue
      ensures requests == SettleAll(old(requests), old(failedQueue), outcome)
      ensures failedQueue == []
    {
      for i := 0 to |failedQueue|
        invariant failedQueue == old(failedQueue)
        invariant requests == SettleAll(old(requests), old(failedQueue)[..i], outcome)
      {
        var id := failedQueue[i];
        assert old(failedQueue)[..i + 1] == old(failedQueue)[..i] + [id];
        requests := requests[id := requests[id].(phase := outcome)];
      }
      assert old(failedQueue)[..|failedQueue|] == old(failedQueue);
      failedQueue := [];
    }

    /** What follows `await refreshSession()`, in its success and in its failure branch. */
    method AfterRefresh(id: RequestId)
      requires QueueOk(Model()) && Enabled(Model(), FinishRefresh(id))
      modifies this
      ensures Model() == Apply(old(Model()), FinishRefresh(id))
    {
      var r := requests[id];
      if r.phase.stage.ok {
        ProcessQueue(Called);
        requests := requests[id := r.(phase := Called)];
      } else {
        ProcessQueue(Settled(false));
        csrfToken := None;
        OnCompanyChange(None);
        requests := requests[id := r.(phase := Settled(false))];
      }
      isRefreshing := false;
    }
  }
}
