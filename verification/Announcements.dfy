/**
 * Announcements: the audience an author names, the row that is stored, the database prefilter and
 * the in-memory visibility check, the view counter, and the publish claim.
 */
module Announcements {
  import opened Wrappers
  import opened AudienceJson

  type Id = string

  datatype Audience = ALL | COMPANY_WIDE | DEPARTMENT_ONLY | BRANCH_ONLY | POSITION_ONLY | EMPLOYEE_SPECIFIC
  datatype Target = DepartmentIds | BranchIds | PositionIds | EmployeeIds
  datatype Status = DRAFT | PUBLISHED | ARCHIVED
  datatype Priority = PINNED | NORMAL | HIDDEN

  const TARGETS := [DepartmentIds, BranchIds, PositionIds, EmployeeIds]

  function TargetOf(a: Audience): Option<Target> {
    match a
    case ALL => None
    case COMPANY_WIDE => None
    case DEPARTMENT_ONLY => Some(DepartmentIds)
    case BRANCH_ONLY => Some(BranchIds)
    case POSITION_ONLY => Some(PositionIds)
    case EMPLOYEE_SPECIFIC => Some(EmployeeIds)
  }

  /** What an author sends; a missing id list reads like an empty one. */
  datatype Input = Input(audience: Audience, lists: Target -> seq<Id>, priority: Option<Priority>,
                         publishFrom: Option<int>, publishUntil: Option<int>, pinnedUntil: Option<int>)

  datatype Row = Row(companyId: Option<Id>, audience: Audience, columns: Target -> Option<string>, priority: Priority,
                     status: Status, publishFrom: Option<int>, publishUntil: Option<int>, pinnedUntil: Option<int>,
                     totalViews: nat)

  /** The reader: a company and the units of the reader's employee. */
  datatype Context = Context(companyId: Id, units: Target -> Option<Id>)

  datatype Error =
    | PlatformWideRefused | MisplacedTargets | NoTargets | TargetsOutsideCompany
    | WindowEndsBeforeStart | PinEndsBeforeStart
    | NotFound | Archived | NotADraft | WindowAlreadyClosed | PublishedBySomeoneElse

  // ---------------------------------------------------------------- writing

  /** `known(target)` are the ids of that kind in the company. */
  function ValidateAudience(known: Target -> set<Id>, input: Input): Result<Option<seq<Id>>, Error> {
    var target := TargetOf(input.audience);
    if exists t | t in TARGETS :: Some(t) != target && input.lists(t) != [] then Err(MisplacedTargets)
    else if target.None? then Ok(None)
    else
      var ids := Dedup(input.lists(target.value));
      if ids == [] then Err(NoTargets)
      else if exists id | id in ids :: id !in known(target.value) then Err(TargetsOutsideCompany)
      else Ok(Some(ids))
  }

  function CheckWindow(input: Input): Option<Error> {
    if input.publishFrom.Some? && input.publishUntil.Some? && input.publishUntil.value <= input.publishFrom.value
    then Some(WindowEndsBeforeStart)
    else if input.pinnedUntil.Some? && input.publishFrom.Some? && input.pinnedUntil.value <= input.publishFrom.value
    then Some(PinEndsBeforeStart)
    else None
  }

  function Column(input: Input, ids: Option<seq<Id>>, t: Target): Option<string> {
    if TargetOf(input.audience) == Some(t) && ids.Some? && ids.value != [] then Some(Stringify(ids.value)) else None
  }

  function Columns(input: Input, ids: Option<seq<Id>>): Target -> Option<string> {
    t => Column(input, ids, t)
  }

  function Written(companyId: Option<Id>, status: Status, views: nat, input: Input, ids: Option<seq<Id>>): Row {
    Row(companyId, input.audience, Columns(input, ids), if input.priority.Some? then input.priority.value else NORMAL,
        status, input.publishFrom, input.publishUntil, input.pinnedUntil, views)
  }

  function Create(companyId: Id, known: Target -> set<Id>, input: Input): Result<Row, Error> {
    if input.audience.ALL? then Err(PlatformWideRefused)
    else match ValidateAudience(known, input)
      case Err(e) => Err(e)
      case Ok(ids) =>
        if CheckWindow(input).Some? then Err(CheckWindow(input).value)
        else Ok(Written(Some(companyId), DRAFT, 0, input, ids))
  }

  /** The platform-wide audience is not refused here; the request schema keeps it out. */
  function Update(row: Row, known: Target -> set<Id>, input: Input): Result<Row, Error> {
    if row.status == ARCHIVED then Err(Archived)
    else match ValidateAudience(known, input)
      case Err(e) => Err(e)
      case Ok(ids) =>
        if CheckWindow(input).Some? then Err(CheckWindow(input).value)
        else Ok(Written(row.companyId, row.status, row.totalViews, input, ids))
  }

  // ---------------------------------------------------------------- reading

  datatype Condition = AnyOf(audience: Audience) | Containing(audience: Audience, column: Target, text: string)

  predicate Satisfies(row: Row, c: Condition) {
    match c
    case AnyOf(a) => row.audience == a
    case Containing(a, column, text) =>
      row.audience == a && row.columns(column).Some? && Contains(row.columns(column).value, text)
  }

  function AudienceOf(t: Target): Audience {
    match t
    case DepartmentIds => DEPARTMENT_ONLY
    case BranchIds => BRANCH_ONLY
    case PositionIds => POSITION_ONLY
    case EmployeeIds => EMPLOYEE_SPECIFIC
  }

  /** The audience half of the database query. */
  predicate Prefilter(row: Row, ctx: Context) {
    || row.audience.ALL? || row.audience.COMPANY_WIDE?
    || (exists t | t in TARGETS ::
          && row.audience == AudienceOf(t) && Truthy(ctx.units(t)) && row.columns(t).Some?
          && Contains(row.columns(t).value, "\"" + ctx.units(t).value + "\""))
  }

  /** `audienceWhere`: the conditions pushed for the units the reader has. */
  method AudienceWhere(ctx: Context) returns (conditions: seq<Condition>)
    ensures forall row :: (exists c | c in conditions :: Satisfies(row, c)) <==> Prefilter(row, ctx)
  {
    conditions := [AnyOf(ALL), AnyOf(COMPANY_WIDE)];
    for i := 0 to |TARGETS|
      invariant forall c :: c in conditions <==>
                  || c == AnyOf(ALL) || c == AnyOf(COMPANY_WIDE)
                  || exists k | 0 <= k < i :: Truthy(ctx.units(TARGETS[k])) && c == UnitCondition(ctx, TARGETS[k])
    {
      if Truthy(ctx.units(TARGETS[i])) {
        conditions := conditions + [UnitCondition(ctx, TARGETS[i])];
      }
    }
    ConditionsMeanPrefilter(ctx, conditions);
  }

  function UnitCondition(ctx: Context, t: Target): Condition
    requires Truthy(ctx.units(t))
  {
    Containing(AudienceOf(t), t, "\"" + ctx.units(t).value + "\"")
  }

  lemma ConditionsMeanPrefilter(ctx: Context, conditions: seq<Condition>)
    requires forall c :: c in conditions <==>
               || c == AnyOf(ALL) || c == AnyOf(COMPANY_WIDE)
               || exists k | 0 <= k < |TARGETS| :: Truthy(ctx.units(TARGETS[k])) && c == UnitCondition(ctx, TARGETS[k])
    ensures forall row :: (exists c | c in conditions :: Satisfies(row, c)) <==> Prefilter(row, ctx)
  {
    forall row ensures (exists c | c in conditions :: Satisfies(row, c)) <==> Prefilter(row, ctx) {
      if row.audience.ALL? { assert AnyOf(ALL) in conditions && Satisfies(row, AnyOf(ALL)); }
      if row.audience.COMPANY_WIDE? { assert AnyOf(COMPANY_WIDE) in conditions && Satisfies(row, AnyOf(COMPANY_WIDE)); }
      if t :| t in TARGETS && row.audience == AudienceOf(t) && Truthy(ctx.units(t)) && row.columns(t).Some?
              && Contains(row.columns(t).value, "\"" + ctx.units(t).value + "\"") {
        assert UnitCondition(ctx, t) in conditions && Satisfies(row, UnitCondition(ctx, t));
      }
    }
  }

  predicate InWindow(row: Row, now: int) {
    (row.publishFrom.None? || row.publishFrom.value <= now) && (row.publishUntil.None? || now <= row.publishUntil.value)
  }

  /** The whole database query of the list. */
  predicate Fetched(row: Row, ctx: Context, now: int) {
    row.status.PUBLISHED? && !row.priority.HIDDEN? && InWindow(row, now) && Prefilter(row, ctx)
  }

  /** `isAudienceMatch`: parse the stored list and look the reader's unit up. */
  predicate AudienceMatch(row: Row, ctx: Context) {
    match row.audience
    case ALL => true
    case COMPANY_WIDE => !Truthy(row.companyId) || (ctx.companyId != "" && row.companyId == Some(ctx.companyId))
    case _ =>
      var t := TargetOf(row.audience).value;
      && Truthy(row.companyId) && row.companyId == Some(ctx.companyId)
      && Truthy(ctx.units(t)) && ctx.units(t).value in ParsedColumn(row.columns(t))
  }

  function ParsedColumn(column: Option<string>): seq<Id> {
    if column.None? || Parse(column.value).None? then [] else Parse(column.value).value
  }

  predicate VisibleTo(row: Row, ctx: Context, now: int) {
    row.status.PUBLISHED? && !row.priority.HIDDEN? && InWindow(row, now) && AudienceMatch(row, ctx)
  }

  // ---------------------------------------------------------------- who is meant, who is found

  /** The author's intention: the reader belongs to a unit on the list of the chosen audience. */
  predicate Intended(input: Input, ctx: Context) {
    match TargetOf(input.audience)
    case None => true
    case Some(t) => Truthy(ctx.units(t)) && ctx.units(t).value in input.lists(t)
  }

  /** Only the chosen audience has a list, and that list is neither empty nor foreign. */
  lemma AcceptedAudience(known: Target -> set<Id>, input: Input)
    requires ValidateAudience(known, input).Ok?
    ensures forall t :: Some(t) != TargetOf(input.audience) ==> input.lists(t) == []
    ensures forall t :: Some(t) == TargetOf(input.audience) ==>
              input.lists(t) != [] && forall id | id in input.lists(t) :: id in known(t)
  {
    forall t ensures t in TARGETS { AllTargets(t); }
    var target := TargetOf(input.audience);
    if target.Some? {
      var ids := Dedup(input.lists(target.value));
      assert ids[0] in input.lists(target.value);
    }
  }

  lemma AllTargets(t: Target)
    ensures t in TARGETS && TargetOf(AudienceOf(t)) == Some(t)
  {
    assert TARGETS[0] == DepartmentIds && TARGETS[1] == BranchIds && TARGETS[2] == PositionIds && TARGETS[3] == EmployeeIds;
  }

  /** A written row has the list of its own audience and no other, it is never empty, and it reads back as written. */
  lemma WrittenColumns(known: Target -> set<Id>, input: Input, ids: Option<seq<Id>>, t: Target)
    requires ValidateAudience(known, input) == Ok(ids)
    ensures var column := Columns(input, ids)(t);
            && (column.Some? <==> TargetOf(input.audience) == Some(t))
            && (column.Some? ==> Parse(column.value).Some? && ParsedColumn(column) != []
                                 && forall id :: id in ParsedColumn(column) <==> id in input.lists(t))
  {
    if ids.Some? { ParseInvertsStringify(ids.value); }
  }

  predicate PlainUnits(ctx: Context) {
    forall t | t in TARGETS && ctx.units(t).Some? :: Plain(ctx.units(t).value) && ctx.units(t).value != ","
  }

  predicate QuoteFree(input: Input) {
    forall t | t in TARGETS :: forall id | id in input.lists(t) :: '"' !in id
  }

  /**
   * From the author's input to the reader's screen: for a row written from accepted input, the
   * database prefilter and the in-memory check both select exactly the intended readers.
   */
  lemma ReachesExactlyTheIntended(known: Target -> set<Id>, input: Input, row: Row, ctx: Context)
    requires ValidateAudience(known, input).Ok?
    requires row.audience == input.audience && row.columns == Columns(input, ValidateAudience(known, input).value)
    requires row.companyId == Some(ctx.companyId) && ctx.companyId != ""
    requires PlainUnits(ctx) && QuoteFree(input)
    ensures Prefilter(row, ctx) <==> Intended(input, ctx)
    ensures AudienceMatch(row, ctx) <==> Intended(input, ctx)
  {
    var ids := ValidateAudience(known, input).value;
    var target := TargetOf(input.audience);
    if target.Some? {
      var t := target.value;
      AllTargets(t);
      WrittenColumns(known, input, ids, t);
      assert row.columns(t) == Some(Stringify(ids.value));
      assert forall u: Target :: row.audience == AudienceOf(u) ==> u == t;
      if Truthy(ctx.units(t)) {
        var unit := ctx.units(t).value;
        QueryFindsMembersExactly(ids.value, unit);
        assert unit in ids.value <==> unit in input.lists(t);
      }
    }
  }

  lemma CreatedRow(companyId: Id, known: Target -> set<Id>, input: Input)
    requires Create(companyId, known, input).Ok?
    ensures var row := Create(companyId, known, input).value;
            && ValidateAudience(known, input).Ok? && row.columns == Columns(input, ValidateAudience(known, input).value)
            && row.audience == input.audience && !row.audience.ALL?
            && row.companyId == Some(companyId) && row.status == DRAFT && row.totalViews == 0
  {}

  /** A created announcement, once published, is shown to exactly the intended readers inside its window. */
  lemma CreatedIsSeenExactly(companyId: Id, known: Target -> set<Id>, input: Input, ctx: Context, now: int)
    requires Create(companyId, known, input).Ok? && ctx.companyId == companyId != ""
    requires PlainUnits(ctx) && QuoteFree(input)
    ensures var row := Create(companyId, known, input).value.(status := PUBLISHED);
            && (Fetched(row, ctx, now) <==> VisibleTo(row, ctx, now))
            && (VisibleTo(row, ctx, now) <==>
                  Intended(input, ctx) && input.priority != Some(HIDDEN)
                  && (input.publishFrom.None? || input.publishFrom.value <= now)
                  && (input.publishUntil.None? || now <= input.publishUntil.value))
  {
    CreatedRow(companyId, known, input);
    var row := Create(companyId, known, input).value.(status := PUBLISHED);
    ReachesExactlyTheIntended(known, input, row, ctx);
  }

  /** What the request schema lets through, and what the database generates for its units. */
  predicate UuidInput(input: Input) {
    forall t | t in TARGETS :: forall id | id in input.lists(t) :: IsUuid(id)
  }

  predicate UuidUnits(ctx: Context) {
    forall t | t in TARGETS && ctx.units(t).Some? :: IsUuid(ctx.units(t).value)
  }

  /** The ids of the system meet the conditions of the query: a created row reaches exactly whom it should. */
  lemma UuidAudiencesAreExact(companyId: Id, known: Target -> set<Id>, input: Input, ctx: Context, now: int)
    requires Create(companyId, known, input).Ok? && ctx.companyId == companyId != "" && UuidInput(input) && UuidUnits(ctx)
    ensures var row := Create(companyId, known, input).value.(status := PUBLISHED);
            && (Prefilter(row, ctx) <==> Intended(input, ctx))
            && (Fetched(row, ctx, now) <==> VisibleTo(row, ctx, now))
  {
    forall t | t in TARGETS && ctx.units(t).Some? ensures Plain(ctx.units(t).value) && ctx.units(t).value != "," {
      UuidsArePlain(ctx.units(t).value);
    }
    forall t, id | t in TARGETS && id in input.lists(t) ensures '"' !in id { UuidsArePlain(id); }
    CreatedRow(companyId, known, input);
    ReachesExactlyTheIntended(known, input, Create(companyId, known, input).value.(status := PUBLISHED), ctx);
    CreatedIsSeenExactly(companyId, known, input, ctx, now);
  }

  /**
   * Beyond such ids the query is not exact: any id that JSON escapes, alone on a list, is matched in
   * memory and missed by the prefilter.
   */
  lemma EscapedIdIsMissed(row: Row, ctx: Context, t: Target, unit: Id)
    requires unit != "" && !Plain(unit) && ctx.units(t) == Some(unit)
    requires row.audience == AudienceOf(t) && row.columns(t) == Some(Stringify([unit]))
    requires row.companyId == Some(ctx.companyId) && ctx.companyId != ""
    ensures AudienceMatch(row, ctx) && !Prefilter(row, ctx)
  {
    ParseInvertsStringify([unit]);
    if Contains(Stringify([unit]), "\"" + unit + "\"") { FoundAloneIsPlain(unit); }
    assert forall u: Target | row.audience == AudienceOf(u) :: u == t;
  }

  // ---------------------------------------------------------------- read receipts and the view counter

  type UserId = string

  /** Everyone with a read receipt. */
  function Readers(receipts: set<(Id, UserId)>, id: Id): set<UserId> {
    set r | r in receipts && r.0 == id :: r.1
  }

  /** The announcement table and its read receipts. */
  datatype Board = Board(rows: map<Id, Row>, receipts: set<(Id, UserId)>)

  ghost predicate ViewsOk(b: Board) {
    && (forall r | r in b.receipts :: r.0 in b.rows)
    && (forall id | id in b.rows :: b.rows[id].totalViews == |Readers(b.receipts, id)|)
  }

  /** `markRead`: insert the receipt once and count it, for the company the caller read the row with. */
  function MarkRead(b: Board, id: Id, user: UserId, companyId: Option<Id>): (Board, Result<bool, Error>) {
    if id !in b.rows then (b, Err(NotFound))
    else if (id, user) in b.receipts then (b, Ok(true))
    else
      var row := b.rows[id];
      var counted := if row.companyId == companyId then row.(totalViews := row.totalViews + 1) else row;
      (Board(b.rows[id := counted], b.receipts + {(id, user)}), Ok(false))
  }

  lemma NewReader(receipts: set<(Id, UserId)>, id: Id, user: UserId, other: Id)
    requires (id, user) !in receipts
    ensures |Readers(receipts + {(id, user)}, other)| == |Readers(receipts, other)| + if other == id then 1 else 0
  {
    var receipts' := receipts + {(id, user)};
    forall u | u in Readers(receipts, other) ensures u in Readers(receipts', other) { assert (other, u) in receipts'; }
    if other == id {
      assert (id, user) in receipts';
      assert Readers(receipts', other) == Readers(receipts, other) + {user};
    } else {
      assert Readers(receipts', other) == Readers(receipts, other);
    }
  }

  /** Views stay equal to readers exactly when a first reading is counted against the row's own company. */
  lemma MarkReadCountsReaders(b: Board, id: Id, user: UserId, companyId: Option<Id>)
    requires ViewsOk(b)
    ensures ViewsOk(MarkRead(b, id, user, companyId).0)
            <==> id !in b.rows || (id, user) in b.receipts || b.rows[id].companyId == companyId
  {
    var b' := MarkRead(b, id, user, companyId).0;
    if id in b.rows && (id, user) !in b.receipts {
      forall other | other in b'.rows
        ensures |Readers(b'.receipts, other)| == b.rows[other].totalViews + if other == id then 1 else 0
      {
        NewReader(b.receipts, id, user, other);
      }
      assert b'.rows[id].totalViews == b.rows[id].totalViews + if b.rows[id].companyId == companyId then 1 else 0;
    }
  }

  // ---------------------------------------------------------------- the publish claim

  type ThreadId = nat

  /** A publish between its read and its conditional update, or an archive between its read and its write. */
  datatype Thread = Publishing(id: Id, publishFrom: Option<int>, now: int) | Archiving(id: Id) | Won(id: Id) | Lost

  datatype Desk = Desk(rows: map<Id, Row>, threads: map<ThreadId, Thread>)

  datatype Query =
    | FindForPublish(t: ThreadId, companyId: Id, id: Id, now: int)
    | Claim(t: ThreadId, companyId: Id)
    | FindForArchive(t: ThreadId, companyId: Id, id: Id)
    | WriteArchived(t: ThreadId)
    | Insert(id: Id, row: Row)
    | Edit(id: Id, row: Row)

  predicate Enabled(d: Desk, q: Query) {
    match q
    case FindForPublish(t, _, _, _) => t !in d.threads
    case Claim(t, _) => t in d.threads && d.threads[t].Publishing?
    case FindForArchive(t, _, _) => t !in d.threads
    case WriteArchived(t) => t in d.threads && d.threads[t].Archiving? && d.threads[t].id in d.rows
    case Insert(id, row) => id !in d.rows && row.status == DRAFT
    case Edit(id, row) => id in d.rows && row.status == d.rows[id].status && row.companyId == d.rows[id].companyId
  }

  function Apply(d: Desk, q: Query): Desk
    requires Enabled(d, q)
  {
    match q
    case FindForPublish(t, companyId, id, now) =>
      if id in d.rows && d.rows[id].companyId == Some(companyId) && d.rows[id].status == DRAFT
         && (d.rows[id].publishUntil.None? || d.rows[id].publishUntil.value > now)
      then d.(threads := d.threads[t := Publishing(id, d.rows[id].publishFrom, now)])
      else d.(threads := d.threads[t := Lost])
    case Claim(t, companyId) =>
      var p := d.threads[t];
      if p.id in d.rows && d.rows[p.id].companyId == Some(companyId) && d.rows[p.id].status == DRAFT
      then Desk(d.rows[p.id := d.rows[p.id].(status := PUBLISHED,
                                              publishFrom := if p.publishFrom.Some? then p.publishFrom else Some(p.now))],
                d.threads[t := Won(p.id)])
      else d.(threads := d.threads[t := Lost])
    case FindForArchive(t, companyId, id) =>
      if id in d.rows && d.rows[id].companyId == Some(companyId) && d.rows[id].status != ARCHIVED
      then d.(threads := d.threads[t := Archiving(id)])
      else d.(threads := d.threads[t := Lost])
    case WriteArchived(t) =>
      var id := d.threads[t].id;
      Desk(d.rows[id := d.rows[id].(status := ARCHIVED)], d.threads[t := Lost])
    case Insert(id, row) => d.(rows := d.rows[id := row])
    case Edit(id, row) => d.(rows := d.rows[id := row])
  }

  function Run(d: Desk, queries: seq<Query>): Desk
    decreases |queries|
  {
    if queries == [] then d
    else Run(if Enabled(d, queries[0]) then Apply(d, queries[0]) else d, queries[1..])
  }

  /** One winner per announcement, and only of one that has left the draft status. */
  ghost predicate ClaimsOk(d: Desk) {
    && (forall t | t in d.threads && d.threads[t].Won? :: d.threads[t].id in d.rows && d.rows[d.threads[t].id].status != DRAFT)
    && (forall t, u | t in d.threads && u in d.threads && d.threads[t].Won? && d.threads[u].Won?
                      && d.threads[t].id == d.threads[u].id :: t == u)
  }

  lemma StepKeepsClaims(d: Desk, q: Query)
    requires ClaimsOk(d) && Enabled(d, q)
    ensures ClaimsOk(Apply(d, q))
  {}

  /** Of any number of people publishing one announcement, in any interleaving, at most one succeeds. */
  lemma {:induction false} OnePublisherWins(d: Desk, queries: seq<Query>)
    requires ClaimsOk(d)
    ensures ClaimsOk(Run(d, queries))
    decreases |queries|
  {
    if queries != [] {
      if Enabled(d, queries[0]) {
        StepKeepsClaims(d, queries[0]);
        OnePublisherWins(Apply(d, queries[0]), queries[1..]);
      } else {
        OnePublisherWins(d, queries[1..]);
      }
    }
  }

  // ---------------------------------------------------------------- the services

  class AnnouncementService {
    var rows: map<Id, Row>
    var receipts: set<(Id, UserId)>

    ghost function Model(): Board
      reads this
    {
      Board(rows, receipts)
    }

    /** `validateAudience`: refuse lists of other audiences, then an empty or foreign list of this one. */
    method CheckAudience(known: Target -> set<Id>, input: Input) returns (r: Result<Option<seq<Id>>, Error>)
      ensures r == ValidateAudience(known, input)
    {
      var target := TargetOf(input.audience);
      for i := 0 to |TARGETS|
        invariant forall k | 0 <= k < i :: Some(TARGETS[k]) == target || input.lists(TARGETS[k]) == []
      {
        if Some(TARGETS[i]) != target && input.lists(TARGETS[i]) != [] { return Err(MisplacedTargets); }
      }
      if target.None? { return Ok(None); }
      var ids := Dedup(input.lists(target.value));
      if ids == [] { return Err(NoTargets); }
      if exists id | id in ids :: id !in known(target.value) { return Err(TargetsOutsideCompany); }
      r := Ok(Some(ids));
    }

    method CreateAnnouncement(companyId: Id, id: Id, known: Target -> set<Id>, input: Input) returns (r: Result<Row, Error>)
      requires ViewsOk(Model()) && id !in rows
      modifies this`rows
      ensures ViewsOk(Model()) && r == Create(companyId, known, input)
      ensures rows == if r.Ok? then old(rows)[id := r.value] else old(rows)
    {
      if input.audience.ALL? { return Err(PlatformWideRefused); }
      var audience := CheckAudience(known, input);
      if audience.Err? { return Err(audience.error); }
      var window := CheckWindow(input);
      if window.Some? { return Err(window.value); }
      r := Ok(Written(Some(companyId), DRAFT, 0, input, audience.value));
      rows := rows[id := r.value];
      assert Readers(receipts, id) == {};
    }

    method UpdateAnnouncement(companyId: Id, id: Id, known: Target -> set<Id>, input: Input) returns (r: Result<Row, Error>)
      requires ViewsOk(Model())
      modifies this`rows
      ensures ViewsOk(Model())
      ensures r == if id in old(rows) && old(rows)[id].companyId == Some(companyId)
                   then Update(old(rows)[id], known, input) else Err(NotFound)
      ensures rows == if r.Ok? then old(rows)[id := r.value] else old(rows)
    {
      if id !in rows || rows[id].companyId != Some(companyId) { return Err(NotFound); }
      var existing := rows[id];
      if existing.status == ARCHIVED { return Err(Archived); }
      var audience := CheckAudience(known, input);
      if audience.Err? { return Err(audience.error); }
      var window := CheckWindow(input);
      if window.Some? { return Err(window.value); }
      r := Ok(Written(existing.companyId, existing.status, existing.totalViews, input, audience.value));
      rows := rows[id := r.value];
    }

    /** The reader's own request: the company is the one of the row it has just been shown. */
    method MarkAsRead(id: Id, user: UserId, ctx: Context, now: int) returns (r: Result<bool, Error>)
      requires ViewsOk(Model())
      modifies this
      ensures ViewsOk(Model())
      ensures r.Ok? <==> id in old(rows) && VisibleTo(old(rows)[id], ctx, now)
      ensures r.Ok? ==> receipts == old(receipts) + {(id, user)} && (r.value <==> (id, user) in old(receipts))
      ensures r.Err? ==> Model() == old(Model())
    {
      if id !in rows || !VisibleTo(rows[id], ctx, now) { return Err(NotFound); }
      MarkReadCountsReaders(Model(), id, user, rows[id].companyId);
      if (id, user) in receipts { return Ok(true); }
      receipts := receipts + {(id, user)};
      rows := rows[id := rows[id].(totalViews := rows[id].totalViews + 1)];
      assert Model() == MarkRead(old(Model()), id, user, old(rows)[id].companyId).0;
      r := Ok(false);
    }
  }
}
