/**
 * Which announcements are accepted, what an edit keeps, how a status moves, and who sees an announcement
 * that was created, published or edited.
 */
module AnnouncementRules {
  import opened Wrappers
  import opened AudienceJson
  import opened Announcements

  // ---------------------------------------------------------------- accepted input

  /** The list an audience is chosen by; the platform and the company need none. */
  predicate ChosenBy(a: Audience, t: Target) {
    match t
    case DepartmentIds => a == DEPARTMENT_ONLY
    case BranchIds => a == BRANCH_ONLY
    case PositionIds => a == POSITION_ONLY
    case EmployeeIds => a == EMPLOYEE_SPECIFIC
  }

  /** Only the chosen list is given, and it names somebody, all of the company. */
  ghost predicate Addressed(known: Target -> set<Id>, input: Input) {
    forall t: Target ::
      if ChosenBy(input.audience, t) then input.lists(t) != [] && forall id :: id in input.lists(t) ==> id in known(t)
      else input.lists(t) == []
  }

  /** What ends, ends after it begins. */
  predicate Ordered(input: Input) {
    input.publishFrom.Some? ==>
      && (input.publishUntil.Some? ==> input.publishFrom.value < input.publishUntil.value)
      && (input.pinnedUntil.Some? ==> input.publishFrom.value < input.pinnedUntil.value)
  }

  lemma ValidExactly(known: Target -> set<Id>, input: Input)
    ensures ValidateAudience(known, input).Ok? <==> Addressed(known, input)
  {
    forall t ensures t in TARGETS && (ChosenBy(input.audience, t) <==> TargetOf(input.audience) == Some(t)) { AllTargets(t); }
    if ValidateAudience(known, input).Ok? { AcceptedAudience(known, input); }
    forall t: Target ensures input.lists(t) != [] ==> Dedup(input.lists(t)) != [] {
      assert input.lists(t) != [] ==> input.lists(t)[0] in Dedup(input.lists(t));
    }
  }

  /** A new announcement is accepted exactly for an addressed audience of the company and ordered times. */
  lemma CreatesExactly(companyId: Id, known: Target -> set<Id>, input: Input)
    ensures Create(companyId, known, input).Ok? <==> !input.audience.ALL? && Addressed(known, input) && Ordered(input)
    ensures Create(companyId, known, input).Ok? ==>
              var row := Create(companyId, known, input).value;
              row.companyId == Some(companyId) && row.status == DRAFT && row.totalViews == 0 && AsAsked(row, input)
  {
    ValidExactly(known, input);
  }

  /** What the row says of the input, besides its lists. */
  predicate AsAsked(row: Row, input: Input) {
    && row.audience == input.audience && row.priority == (if input.priority.None? then NORMAL else input.priority.value)
    && row.publishFrom == input.publishFrom && row.publishUntil == input.publishUntil && row.pinnedUntil == input.pinnedUntil
  }

  /** An edit is accepted exactly for a row that is not archived; it keeps the company, the status and the views. */
  lemma UpdatesExactly(row: Row, known: Target -> set<Id>, input: Input)
    ensures Update(row, known, input).Ok? <==> row.status != ARCHIVED && Addressed(known, input) && Ordered(input)
    ensures Update(row, known, input) == Err(Archived) <==> row.status == ARCHIVED
    ensures Update(row, known, input).Ok? ==>
              var row' := Update(row, known, input).value;
              && row'.companyId == row.companyId && row'.status == row.status && row'.totalViews == row.totalViews
              && AsAsked(row', input)
  {
    ValidExactly(known, input);
  }

  /** Why an audience or its times are refused: the first fault in the order of the checks. */
  lemma RefusalsExactly(known: Target -> set<Id>, input: Input)
    ensures var r := ValidateAudience(known, input);
            var misplaced := exists t: Target :: !ChosenBy(input.audience, t) && input.lists(t) != [];
            && (r == Err(MisplacedTargets) <==> misplaced)
            && (r == Err(NoTargets) <==> !misplaced && exists t: Target :: ChosenBy(input.audience, t) && input.lists(t) == [])
            && (r == Err(TargetsOutsideCompany) <==>
                  !misplaced && exists t: Target, id :: ChosenBy(input.audience, t) && id in input.lists(t) && id !in known(t))
    ensures var w := CheckWindow(input);
            var closes := input.publishFrom.Some? && input.publishUntil.Some? && input.publishUntil.value <= input.publishFrom.value;
            && (w == Some(WindowEndsBeforeStart) <==> closes)
            && (w == Some(PinEndsBeforeStart) <==>
                  !closes && input.publishFrom.Some? && input.pinnedUntil.Some? && input.pinnedUntil.value <= input.publishFrom.value)
            && (w.Some? ==> w.value == WindowEndsBeforeStart || w.value == PinEndsBeforeStart)
  {
    forall t: Target ensures t in TARGETS && (ChosenBy(input.audience, t) <==> TargetOf(input.audience) == Some(t)) { AllTargets(t); }
    forall t: Target ensures input.lists(t) != [] ==> Dedup(input.lists(t)) != [] {
      assert input.lists(t) != [] ==> input.lists(t)[0] in Dedup(input.lists(t));
    }
    if TargetOf(input.audience).Some? {
      var t := TargetOf(input.audience).value;
      assert ChosenBy(input.audience, t);
      assert Dedup(input.lists(t)) != [] ==> Dedup(input.lists(t))[0] in input.lists(t);
    }
  }

  /** Creating refuses the platform first, then the audience, then the times; editing an archived row refuses it first. */
  lemma FirstFaultIsReported(companyId: Id, row: Row, known: Target -> set<Id>, input: Input)
    ensures var audience, times := ValidateAudience(known, input), CheckWindow(input);
            && (Create(companyId, known, input).Err? ==>
                  Create(companyId, known, input).error
                    == if input.audience == ALL then PlatformWideRefused else if audience.Err? then audience.error else times.value)
            && (Update(row, known, input).Err? ==>
                  Update(row, known, input).error
                    == if row.status == ARCHIVED then Archived else if audience.Err? then audience.error else times.value)
  {}

  predicate Shows(input: Input, now: int) {
    && input.priority != Some(HIDDEN)
    && (input.publishFrom.None? || input.publishFrom.value <= now)
    && (input.publishUntil.None? || now <= input.publishUntil.value)
  }

  /** An edited announcement that is published is found by exactly the newly intended readers, inside its new window. */
  lemma UpdatedIsSeenExactly(row: Row, known: Target -> set<Id>, input: Input, ctx: Context, now: int)
    requires Update(row, known, input).Ok? && row.companyId == Some(ctx.companyId) && ctx.companyId != ""
    requires UuidInput(input) && UuidUnits(ctx)
    ensures var row' := Update(row, known, input).value;
            && (Fetched(row', ctx, now) <==> row.status == PUBLISHED && Intended(input, ctx) && Shows(input, now))
            && (VisibleTo(row', ctx, now) <==> Fetched(row', ctx, now))
  {
    var row' := Update(row, known, input).value;
    UuidsReachTheIntended(known, input, row', ctx);
  }

  lemma UuidsReachTheIntended(known: Target -> set<Id>, input: Input, row: Row, ctx: Context)
    requires ValidateAudience(known, input).Ok? && UuidInput(input) && UuidUnits(ctx)
    requires row.audience == input.audience && row.columns == Columns(input, ValidateAudience(known, input).value)
    requires row.companyId == Some(ctx.companyId) && ctx.companyId != ""
    ensures (Prefilter(row, ctx) <==> Intended(input, ctx)) && (AudienceMatch(row, ctx) <==> Intended(input, ctx))
  {
    forall t | t in TARGETS && ctx.units(t).Some? ensures Plain(ctx.units(t).value) && ctx.units(t).value != "," {
      UuidsArePlain(ctx.units(t).value);
    }
    forall t, id | t in TARGETS && id in input.lists(t) ensures '"' !in id { UuidsArePlain(id); }
    ReachesExactlyTheIntended(known, input, row, ctx);
  }

  // ---------------------------------------------------------------- who is meant

  /** The intention, list by list, without the tables of the program. */
  lemma IntendedExactly(input: Input, ctx: Context)
    ensures Intended(input, ctx) <==>
              || input.audience == ALL || input.audience == COMPANY_WIDE
              || exists t :: ChosenBy(input.audience, t) && ctx.units(t).Some? && ctx.units(t).value != ""
                             && ctx.units(t).value in input.lists(t)
  {
    if TargetOf(input.audience).Some? {
      var t := TargetOf(input.audience).value;
      assert ChosenBy(input.audience, t);
      assert forall u :: ChosenBy(input.audience, u) ==> u == t;
    }
  }

  /** Nobody of another company sees an announcement of a company, whoever it names; platform-wide ones are seen by all. */
  lemma CompaniesSeeTheirOwn(row: Row, ctx: Context)
    ensures var owned := row.companyId.Some? && row.companyId != Some("");
            var own := owned && row.companyId == Some(ctx.companyId);
            && (row.audience == ALL ==> AudienceMatch(row, ctx))
            && (row.audience == COMPANY_WIDE ==> (AudienceMatch(row, ctx) <==> own || !owned))
            && (row.audience != ALL && row.audience != COMPANY_WIDE && !own ==> !AudienceMatch(row, ctx))
  {}

  /** A reading is recorded once, counted once for the row's own company, and told apart from a repeated one. */
  lemma ReadingsExactly(b: Board, id: Id, user: UserId, companyId: Option<Id>)
    ensures var (b', r) := MarkRead(b, id, user, companyId);
            if id !in b.rows then b' == b && r == Err(NotFound)
            else
              && r == Ok((id, user) in b.receipts)
              && b'.receipts == b.receipts + {(id, user)}
              && b'.rows == b.rows[id := b'.rows[id]]
              && b'.rows[id] == b.rows[id].(totalViews := b.rows[id].totalViews
                   + if (id, user) !in b.receipts && b.rows[id].companyId == companyId then 1 else 0)
  {
    if (id, user) in b.receipts { assert b.receipts + {(id, user)} == b.receipts; }
  }

  // ---------------------------------------------------------------- how a status moves

  function StatusRank(s: Status): nat {
    match s
    case DRAFT => 0
    case PUBLISHED => 1
    case ARCHIVED => 2
  }

  lemma StepAdvancesStatus(d: Desk, q: Query, id: Id)
    requires Enabled(d, q) && id in d.rows
    ensures id in Apply(d, q).rows && Apply(d, q).rows[id].companyId == d.rows[id].companyId
    ensures StatusRank(d.rows[id].status) <= StatusRank(Apply(d, q).rows[id].status)
  {}

  /** Whatever publishers, archivers and editors do, a status never goes back, and a row never changes its company. */
  lemma {:induction false} StatusOnlyAdvances(d: Desk, queries: seq<Query>, id: Id)
    requires id in d.rows
    ensures id in Run(d, queries).rows && Run(d, queries).rows[id].companyId == d.rows[id].companyId
    ensures StatusRank(d.rows[id].status) <= StatusRank(Run(d, queries).rows[id].status)
    decreases |queries|
  {
    if queries != [] {
      if Enabled(d, queries[0]) {
        StepAdvancesStatus(d, queries[0], id);
        StatusOnlyAdvances(Apply(d, queries[0]), queries[1..], id);
      } else {
        StatusOnlyAdvances(d, queries[1..], id);
      }
    }
  }

  /** The thread is a publish of the row under the row's own company. */
  predicate MayClaim(d: Desk, q: Query, id: Id) {
    && q.Claim? && q.t in d.threads && d.threads[q.t].Publishing? && d.threads[q.t].id == id
    && id in d.rows && d.rows[id].companyId == Some(q.companyId)
  }

  /** A row becomes published exactly by a claim on it while it is a draft, and archived exactly by an archiver's write. */
  lemma StatusMovesExactly(d: Desk, q: Query, id: Id)
    requires Enabled(d, q) && id in d.rows
    ensures var before, after := d.rows[id].status, Apply(d, q).rows[id].status;
            && (after == PUBLISHED && before != PUBLISHED <==> before == DRAFT && MayClaim(d, q, id))
            && (after == ARCHIVED && before != ARCHIVED <==>
                  before != ARCHIVED && q.WriteArchived? && d.threads[q.t].Archiving? && d.threads[q.t].id == id)
            && (q.Claim? && d.threads[q.t].id == id ==>
                  (Apply(d, q).threads[q.t] == Won(id) <==> before == DRAFT && MayClaim(d, q, id)))
            && (q.FindForPublish? && q.id == id ==>
                  (Apply(d, q).threads[q.t].Publishing? <==>
                     && d.rows[id].companyId == Some(q.companyId) && before == DRAFT
                     && (d.rows[id].publishUntil.Some? ==> q.now < d.rows[id].publishUntil.value)))
            && (q.FindForArchive? && q.id == id ==>
                  (Apply(d, q).threads[q.t] == Archiving(id) <==> d.rows[id].companyId == Some(q.companyId) && before != ARCHIVED))
  {}

  /** A publish nobody interrupts succeeds exactly for a draft of the company whose window is not over, and dates it. */
  lemma PublishRuns(d: Desk, t: ThreadId, companyId: Id, id: Id, now: int)
    requires t !in d.threads
    ensures var d' := Run(d, [FindForPublish(t, companyId, id, now), Claim(t, companyId)]);
            if id in d.rows && d.rows[id].companyId == Some(companyId) && d.rows[id].status == DRAFT
               && (d.rows[id].publishUntil.Some? ==> now < d.rows[id].publishUntil.value)
            then var row := d.rows[id];
                 && d'.threads == d.threads[t := Won(id)]
                 && d'.rows == d.rows[id := row.(status := PUBLISHED,
                                                 publishFrom := if row.publishFrom.None? then Some(now) else row.publishFrom)]
            else d' == d.(threads := d.threads[t := Lost])
  {
    var find, claim := FindForPublish(t, companyId, id, now), Claim(t, companyId);
    var d1 := Apply(d, find);
    assert [find, claim][1..] == [claim] && [claim][1..] == [];
    assert Run(d, [find, claim]) == Run(d1, [claim]);
    assert Run(d1, [claim]) == if Enabled(d1, claim) then Apply(d1, claim) else d1;
  }

  /** An archive nobody interrupts takes the row of its company away from every reader. */
  lemma ArchiveRuns(d: Desk, t: ThreadId, companyId: Id, id: Id)
    requires t !in d.threads && id in d.rows && d.rows[id].companyId == Some(companyId)
    ensures var rows := Run(d, [FindForArchive(t, companyId, id), WriteArchived(t)]).rows;
            && rows == d.rows[id := d.rows[id].(status := ARCHIVED)]
            && forall ctx, now :: !Fetched(rows[id], ctx, now) && !VisibleTo(rows[id], ctx, now)
  {
    var find, write := FindForArchive(t, companyId, id), WriteArchived(t);
    var d1 := Apply(d, find);
    assert [find, write][1..] == [write] && [write][1..] == [];
    assert Run(d, [find, write]) == Run(d1, [write]);
    assert Run(d1, [write]) == if Enabled(d1, write) then Apply(d1, write) else d1;
  }

  /** From the author's draft to the reader: created, then published at `now`, it is found by exactly whom it names, from then on. */
  lemma PublishedIsSeenExactly(d: Desk, t: ThreadId, companyId: Id, id: Id, known: Target -> set<Id>, input: Input, now: int,
                               ctx: Context, at: int)
    requires t !in d.threads && ctx.companyId == companyId != "" && UuidInput(input) && UuidUnits(ctx)
    requires Create(companyId, known, input).Ok? && id in d.rows && d.rows[id] == Create(companyId, known, input).value
    requires (input.publishUntil.Some? ==> now < input.publishUntil.value) && now <= at
    ensures var rows := Run(d, [FindForPublish(t, companyId, id, now), Claim(t, companyId)]).rows;
            && id in rows
            && (Fetched(rows[id], ctx, at) <==> Intended(input, ctx) && Shows(input, at))
            && (VisibleTo(rows[id], ctx, at) <==> Fetched(rows[id], ctx, at))
  {
    PublishRuns(d, t, companyId, id, now);
    var row := Run(d, [FindForPublish(t, companyId, id, now), Claim(t, companyId)]).rows[id];
    CreatesExactly(companyId, known, input);
    UuidsReachTheIntended(known, input, row, ctx);
  }
}
