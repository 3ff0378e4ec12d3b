/**
 * Punches from attendance terminals: each is recorded once, turned into opening or closing a day, and
 * answered with its own outcome; batches may be sent again.
 */
module PunchIngest {
  import opened Wrappers
  import opened Attendance

  // ---------------------------------------------------------------- data

  datatype Direction = AUTO | IN | OUT
  datatype PunchStatus = APPLIED | DUPLICATE | UNMATCHED_EMPLOYEE | REJECTED

  datatype Device = Device(id: Id, companyId: Id, serialNumber: string)
  datatype Punch = Punch(externalId: string, employeeCode: string, punchedAt: int, direction: Direction)

  /** The employee the code resolves to in the device's company, and the context of each attempt. */
  datatype World = World(employee: Option<Id>, opening: Context, closing: Context)

  datatype PunchRow = PunchRow(deviceId: Id, externalId: string, companyId: Id, employeeCode: string, punchedAt: int,
                               direction: Direction, employeeId: Option<Id>, status: PunchStatus, attendance: Option<Key>)

  datatype Outcome = Outcome(externalId: string, employeeCode: string, status: PunchStatus, attendance: Option<Key>)

  datatype Db = Db(days: Table, punches: seq<PunchRow>)

  // ---------------------------------------------------------------- one punch

  /** `findFirst` by device and external id. */
  function Seen(punches: seq<PunchRow>, deviceId: Id, externalId: string): (r: Option<PunchRow>)
    ensures r.Some? ==> r.value in punches && r.value.deviceId == deviceId && r.value.externalId == externalId
    ensures r.None? ==> forall p :: p in punches ==> !(p.deviceId == deviceId && p.externalId == externalId)
  {
    if punches == [] then None
    else if punches[0].deviceId == deviceId && punches[0].externalId == externalId then Some(punches[0])
    else Seen(punches[1..], deviceId, externalId)
  }

  predicate HasDay(days: Table, device: Device, k: Key) {
    Live(days, k) && days[k].companyId == device.companyId
  }

  predicate WantsCheckOut(days: Table, device: Device, k: Key, direction: Direction) {
    direction == OUT || (direction == AUTO && HasDay(days, device, k) && days[k].checkIn.Some?)
  }

  /** The source column holds fifty characters. */
  function SourceOf(device: Device): string {
    var source := "DEVICE:" + device.serialNumber;
    if |source| > 50 then source[..50] else source
  }

  /** The attendance row a punch writes, or why it writes none. */
  function Applied(days: Table, device: Device, k: Key, punch: Punch, w: World): Result<Row, Error> {
    if WantsCheckOut(days, device, k, punch.direction) then
      if !HasDay(days, device, k) then Err(NoRecordToClose)
      else if days[k].checkOut.Some? then Err(AlreadyCheckedOut)
      else CheckedOut(days, k, punch.punchedAt, w.closing)
    else if HasDay(days, device, k) then Err(AlreadyExists)
    else Created(days, k, device.companyId, Some(punch.punchedAt), None, PRESENT, Some(SourceOf(device)), w.opening)
  }

  function DayOf(employee: Id, punch: Punch): Key {
    Key(employee, DateOf(punch.punchedAt))
  }

  function RowFor(device: Device, punch: Punch, employee: Option<Id>, status: PunchStatus, day: Option<Key>): PunchRow {
    PunchRow(device.id, punch.externalId, device.companyId, punch.employeeCode, punch.punchedAt, punch.direction,
             employee, status, day)
  }

  function IngestOne(db: Db, device: Device, punch: Punch, w: World): (Db, Outcome) {
    var seen := Seen(db.punches, device.id, punch.externalId);
    if seen.Some? then (db, Outcome(punch.externalId, punch.employeeCode, DUPLICATE, seen.value.attendance))
    else if w.employee.None? then
      (db.(punches := db.punches + [RowFor(device, punch, None, UNMATCHED_EMPLOYEE, None)]),
       Outcome(punch.externalId, punch.employeeCode, UNMATCHED_EMPLOYEE, None))
    else
      var k := DayOf(w.employee.value, punch);
      match Applied(db.days, device, k, punch, w)
      case Ok(row) =>
        (Db(db.days[k := row], db.punches + [RowFor(device, punch, w.employee, APPLIED, Some(k))]),
         Outcome(punch.externalId, punch.employeeCode, APPLIED, Some(k)))
      case Err(_) =>
        (db.(punches := db.punches + [RowFor(device, punch, w.employee, REJECTED, None)]),
         Outcome(punch.externalId, punch.employeeCode, REJECTED, None))
  }

  /** A punch and the world it met. */
  datatype Arrival = Arrival(punch: Punch, world: World)

  function Ingest(db: Db, device: Device, batch: seq<Arrival>): (r: (Db, seq<Outcome>))
    ensures |r.1| == |batch|
  {
    if batch == [] then (db, [])
    else
      var (before, outcomes) := Ingest(db, device, batch[..|batch| - 1]);
      var last := batch[|batch| - 1];
      var (after, outcome) := IngestOne(before, device, last.punch, last.world);
      (after, outcomes + [outcome])
  }

  // ---------------------------------------------------------------- everything that touches the table

  /** The other writers of the table, besides terminals: people, the two nightly sweeps, and deletion. */
  datatype Event =
    | Punched(device: Device, arrival: Arrival)
    | Recorded(day: Key, companyId: Id, checkIn: Option<int>, checkOut: Option<int>, status: Status, context: Context)
    | CheckedOutByHand(day: Key, at: int, context: Context)
    | MarkedAbsent(day: Key, companyId: Id, branchId: Option<Id>)
    | ClosedBySweep(day: Key, scheduledEnd: int)
    | Deleted(day: Key)

  function TableStep(days: Table, e: Event): Table
    requires !e.Punched?
  {
    match e
    case Recorded(k, companyId, checkIn, checkOut, status, c) =>
      var r := Created(days, k, companyId, checkIn, checkOut, status, None, c);
      if r.Ok? then days[k := r.value] else days
    case CheckedOutByHand(k, at, c) =>
      var r := CheckedOut(days, k, at, c);
      if r.Ok? then days[k := r.value] else days
    case MarkedAbsent(k, companyId, branchId) =>
      if k in days then days else days[k := AbsentRow(companyId, branchId)]
    case ClosedBySweep(k, end) =>
      if PhaseOf(days, k) == OpenDay && end > days[k].checkIn.value then days[k := SweepClosed(days[k], end)] else days
    case Deleted(k) =>
      if k in days then days[k := days[k].(deleted := true)] else days
  }

  function Step(db: Db, e: Event): Db {
    match e
    case Punched(device, a) => IngestOne(db, device, a.punch, a.world).0
    case _ => db.(days := TableStep(db.days, e))
  }

  function Run(db: Db, events: seq<Event>): Db {
    if events == [] then db else Step(Run(db, events[..|events| - 1]), events[|events| - 1])
  }

  // ---------------------------------------------------------------- sending again

  predicate IsSeen(db: Db, deviceId: Id, externalId: string) {
    Seen(db.punches, deviceId, externalId).Some?
  }

  predicate UniquePunches(punches: seq<PunchRow>) {
    forall i, j :: 0 <= i < j < |punches| ==>
      !(punches[i].deviceId == punches[j].deviceId && punches[i].externalId == punches[j].externalId)
  }

  lemma SeenSurvives(punches: seq<PunchRow>, more: seq<PunchRow>, deviceId: Id, externalId: string)
    requires Seen(punches, deviceId, externalId).Some?
    ensures Seen(punches + more, deviceId, externalId).Some?
  {
    var row := Seen(punches, deviceId, externalId).value;
    assert row in punches + more;
  }

  /** A new punch is recorded by exactly one new row that carries its outcome; a seen one changes nothing. */
  lemma OneRowPerPunch(db: Db, device: Device, punch: Punch, w: World)
    ensures var (after, outcome) := IngestOne(db, device, punch, w);
            && IsSeen(after, device.id, punch.externalId)
            && (outcome.status == DUPLICATE <==> IsSeen(db, device.id, punch.externalId))
            && (outcome.status == DUPLICATE ==> after == db)
            && (outcome.status != DUPLICATE ==>
                  exists row :: after.punches == db.punches + [row] && row.deviceId == device.id
                    && row.externalId == punch.externalId && row.status == outcome.status && row.attendance == outcome.attendance)
  {
    var (after, outcome) := IngestOne(db, device, punch, w);
    if outcome.status != DUPLICATE {
      var row := after.punches[|db.punches|];
      assert row in after.punches;
    }
  }

  lemma StepKeepsSeen(db: Db, e: Event, deviceId: Id, externalId: string)
    requires IsSeen(db, deviceId, externalId)
    ensures IsSeen(Step(db, e), deviceId, externalId)
  {
    if e.Punched? {
      var punches := Step(db, e).punches;
      assert punches == db.punches + punches[|db.punches|..];
      SeenSurvives(db.punches, punches[|db.punches|..], deviceId, externalId);
    }
  }

  lemma {:induction false} RunKeepsSeen(db: Db, events: seq<Event>, deviceId: Id, externalId: string)
    requires IsSeen(db, deviceId, externalId)
    ensures IsSeen(Run(db, events), deviceId, externalId)
  {
    if events != [] {
      RunKeepsSeen(db, events[..|events| - 1], deviceId, externalId);
      StepKeepsSeen(Run(db, events[..|events| - 1]), events[|events| - 1], deviceId, externalId);
    }
  }

  lemma StepKeepsUnique(db: Db, e: Event)
    requires UniquePunches(db.punches)
    ensures UniquePunches(Step(db, e).punches)
  {
    if e.Punched? && !IsSeen(db, e.device.id, e.arrival.punch.externalId) {
      assert forall i :: 0 <= i < |db.punches| ==> db.punches[i] in db.punches;
    }
  }

  /** Each device and external id is recorded at most once, in every run. */
  lemma {:induction false} RunKeepsUnique(db: Db, events: seq<Event>)
    requires UniquePunches(db.punches)
    ensures UniquePunches(Run(db, events).punches)
  {
    if events != [] {
      RunKeepsUnique(db, events[..|events| - 1]);
      StepKeepsUnique(Run(db, events[..|events| - 1]), events[|events| - 1]);
    }
  }

  /** A batch is the run of its punches. */
  function AsEvents(device: Device, batch: seq<Arrival>): seq<Event> {
    seq(|batch|, i requires 0 <= i < |batch| => Punched(device, batch[i]))
  }

  lemma {:induction false} IngestIsARun(db: Db, device: Device, batch: seq<Arrival>)
    ensures Ingest(db, device, batch).0 == Run(db, AsEvents(device, batch))
  {
    if batch != [] {
      IngestIsARun(db, device, batch[..|batch| - 1]);
      assert AsEvents(device, batch)[..|batch| - 1] == AsEvents(device, batch[..|batch| - 1]);
    }
  }

  lemma {:induction false} IngestedIsSeen(db: Db, device: Device, batch: seq<Arrival>, i: nat)
    requires i < |batch|
    ensures IsSeen(Ingest(db, device, batch).0, device.id, batch[i].punch.externalId)
  {
    var last := batch[|batch| - 1];
    var before := Ingest(db, device, batch[..|batch| - 1]).0;
    if i == |batch| - 1 {
      OneRowPerPunch(before, device, last.punch, last.world);
    } else {
      IngestedIsSeen(db, device, batch[..|batch| - 1], i);
      StepKeepsSeen(before, Punched(device, last), device.id, batch[i].punch.externalId);
    }
  }

  lemma {:induction false} SeenBatchIsInert(db: Db, device: Device, batch: seq<Arrival>)
    requires forall a :: a in batch ==> IsSeen(db, device.id, a.punch.externalId)
    ensures Ingest(db, device, batch).0 == db
    ensures forall o :: o in Ingest(db, device, batch).1 ==> o.status == DUPLICATE
  {
    if batch != [] {
      var last := batch[|batch| - 1];
      SeenBatchIsInert(db, device, batch[..|batch| - 1]);
      assert last in batch;
      OneRowPerPunch(db, device, last.punch, last.world);
    }
  }

  /**
   * Ingestion is idempotent. After a batch, and after anything else that happens to the table since,
   * sending any selection of its punches again, in any order and number and whatever the world now
   * answers, changes no row and answers DUPLICATE to each.
   */
  lemma ResendingIsInert(db: Db, device: Device, batch: seq<Arrival>, since: seq<Event>, again: seq<Arrival>)
    requires forall a :: a in again ==> exists i :: 0 <= i < |batch| && batch[i].punch.externalId == a.punch.externalId
    ensures var now := Run(Ingest(db, device, batch).0, since);
            && Ingest(now, device, again).0 == now
            && forall o :: o in Ingest(now, device, again).1 ==> o.status == DUPLICATE
  {
    var now := Run(Ingest(db, device, batch).0, since);
    forall a | a in again ensures IsSeen(now, device.id, a.punch.externalId) {
      var i :| 0 <= i < |batch| && batch[i].punch.externalId == a.punch.externalId;
      IngestedIsSeen(db, device, batch, i);
      RunKeepsSeen(Ingest(db, device, batch).0, since, device.id, a.punch.externalId);
    }
    SeenBatchIsInert(now, device, again);
  }

  // ---------------------------------------------------------------- what a lost record costs

  /** The table after a punch was applied but its own row was not written. */
  function HalfDone(db: Db, device: Device, punch: Punch, w: World): Db {
    db.(days := IngestOne(db, device, punch, w).0.days)
  }

  /**
   * The attendance row and the punch row are two writes. If the second is lost, sending the punch again
   * changes the day exactly when the punch had opened it, leaves the direction to the server, and the
   * day may be closed now: it is then closed at the instant it was opened.
   */
  lemma LostRecordAppliesTwiceExactly(db: Db, device: Device, punch: Punch, w: World, again: World)
    requires IngestOne(db, device, punch, w).1.status == APPLIED && again.employee == w.employee
    ensures var k := DayOf(w.employee.value, punch);
            var half := HalfDone(db, device, punch, w);
            var (after, outcome) := IngestOne(half, device, punch, again);
            && (outcome.status == APPLIED <==>
                  k !in db.days && punch.direction == AUTO && CheckedOut(half.days, k, punch.punchedAt, again.closing).Ok?)
            && (outcome.status == APPLIED ==>
                  after.days[k].checkIn == after.days[k].checkOut == Some(punch.punchedAt) && after.days[k].workDuration == 0)
            && (outcome.status != APPLIED ==> after.days == half.days)
  {}

  // ---------------------------------------------------------------- at most one opening and one closing

  /** The punch of this step wrote the row of that day. */
  predicate AppliesTo(db: Db, e: Event, k: Key) {
    e.Punched? && IngestOne(db, e.device, e.arrival.punch, e.arrival.world).1
                    == Outcome(e.arrival.punch.externalId, e.arrival.punch.employeeCode, APPLIED, Some(k))
  }

  predicate Opens(db: Db, e: Event, k: Key) {
    AppliesTo(db, e, k) && k !in db.days
  }

  predicate Closes(db: Db, e: Event, k: Key) {
    AppliesTo(db, e, k) && k in db.days
  }

  function CountOpens(db: Db, events: seq<Event>, k: Key): nat {
    if events == [] then 0
    else
      var front := events[..|events| - 1];
      CountOpens(db, front, k) + (if Opens(Run(db, front), events[|events| - 1], k) then 1 else 0)
  }

  function CountCloses(db: Db, events: seq<Event>, k: Key): nat {
    if events == [] then 0
    else
      var front := events[..|events| - 1];
      CountCloses(db, front, k) + (if Closes(Run(db, front), events[|events| - 1], k) then 1 else 0)
  }

  function RankOf(db: Db, k: Key): nat {
    Rank(PhaseOf(db.days, k))
  }

  lemma ApplyingMovesTheDay(db: Db, device: Device, punch: Punch, w: World)
    ensures var (after, outcome) := IngestOne(db, device, punch, w);
            && (outcome.status != APPLIED ==> after.days == db.days)
            && (outcome.status == APPLIED ==>
                  && w.employee.Some?
                  && var k := DayOf(w.employee.value, punch);
                  && outcome.attendance == Some(k)
                  && after.days == db.days[k := after.days[k]]
                  && (k !in db.days ==> RankOf(db, k) == 0 && RankOf(after, k) == 1 && after.days[k].checkIn == Some(punch.punchedAt))
                  && (k in db.days ==> RankOf(db, k) == 1 && RankOf(after, k) == 2)
                  && (k in db.days ==> after.days[k].checkOut == Some(punch.punchedAt))
                  && (k in db.days ==> after.days[k].checkIn == db.days[k].checkIn))
  {}

  lemma StepMovesOn(db: Db, e: Event, k: Key)
    ensures RankOf(Step(db, e), k) >= RankOf(db, k)
    ensures Opens(db, e, k) ==> RankOf(db, k) == 0 && RankOf(Step(db, e), k) == 1
    ensures Closes(db, e, k) ==> RankOf(db, k) == 1 && RankOf(Step(db, e), k) == 2
  {
    if e.Punched? {
      ApplyingMovesTheDay(db, e.device, e.arrival.punch, e.arrival.world);
    } else {
      TableStepMovesOn(db.days, e, k);
    }
  }

  lemma TableStepMovesOn(days: Table, e: Event, k: Key)
    requires !e.Punched?
    ensures Rank(PhaseOf(TableStep(days, e), k)) >= Rank(PhaseOf(days, k))
  {
    match e
    case Recorded(day, companyId, checkIn, checkOut, status, c) =>
      CreatingOpens(days, day, companyId, checkIn, checkOut, status, None, c);
    case CheckedOutByHand(day, at, c) =>
      CheckingOutCloses(days, day, at, c);
    case _ =>
  }

  /**
   * Whatever terminals, people, sweeps and deletion do, a day only moves from missing to open to closed;
   * at most one punch ever opens it and at most one closes it, and none once it is closed, deleted, or
   * was written without a check-in.
   */
  lemma {:induction false} DayTakesOneOpeningAndOneClosing(db: Db, events: seq<Event>, k: Key)
    ensures RankOf(Run(db, events), k) >= RankOf(db, k)
    ensures CountOpens(db, events, k) <= 1 && CountCloses(db, events, k) <= 1
    ensures RankOf(db, k) >= 1 ==> CountOpens(db, events, k) == 0
    ensures RankOf(db, k) == 2 ==> CountCloses(db, events, k) == 0
    ensures CountOpens(db, events, k) == 1 ==> RankOf(Run(db, events), k) >= 1
    ensures CountCloses(db, events, k) == 1 ==> RankOf(Run(db, events), k) == 2
  {
    if events != [] {
      var front := events[..|events| - 1];
      DayTakesOneOpeningAndOneClosing(db, front, k);
      StepMovesOn(Run(db, front), events[|events| - 1], k);
    }
  }

  // ---------------------------------------------------------------- every applied punch is in the table

  predicate Traced(days: Table, p: PunchRow) {
    p.status == APPLIED ==>
      p.attendance.Some? && p.attendance.value in days
      && (days[p.attendance.value].checkIn == Some(p.punchedAt) || days[p.attendance.value].checkOut == Some(p.punchedAt))
  }

  predicate AllTraced(db: Db) {
    forall p :: p in db.punches ==> Traced(db.days, p)
  }

  /** No writer of the table changes a check-in or a check-out that is there. */
  predicate TimesKept(before: Table, after: Table) {
    forall k :: k in before ==>
      && k in after
      && (before[k].checkIn.Some? ==> after[k].checkIn == before[k].checkIn)
      && (before[k].checkOut.Some? ==> after[k].checkOut == before[k].checkOut)
  }

  lemma StepKeepsTimes(db: Db, e: Event)
    ensures TimesKept(db.days, Step(db, e).days)
  {
    if e.Punched? {
      var w := e.arrival.world;
      ApplyingMovesTheDay(db, e.device, e.arrival.punch, w);
      if Step(db, e).days != db.days {
        var k := DayOf(w.employee.value, e.arrival.punch);
        if k in db.days { OpenHasNoCheckOut(db.days, k); }
      }
    }
  }

  lemma OpenHasNoCheckOut(days: Table, k: Key)
    requires PhaseOf(days, k) == OpenDay
    ensures days[k].checkOut.None?
  {}

  lemma StepKeepsTraced(db: Db, e: Event)
    requires AllTraced(db)
    ensures AllTraced(Step(db, e))
  {
    StepKeepsTimes(db, e);
    var after := Step(db, e);
    forall p | p in after.punches ensures Traced(after.days, p) {
      if p in db.punches {
        assert Traced(db.days, p);
      } else {
        ApplyingMovesTheDay(db, e.device, e.arrival.punch, e.arrival.world);
      }
    }
  }

  /** In every run, each punch recorded as applied names a day whose check-in or check-out is its instant. */
  lemma {:induction false} RunKeepsTraced(db: Db, events: seq<Event>)
    requires AllTraced(db)
    ensures AllTraced(Run(db, events))
  {
    if events != [] {
      RunKeepsTraced(db, events[..|events| - 1]);
      StepKeepsTraced(Run(db, events[..|events| - 1]), events[|events| - 1]);
    }
  }

  // ---------------------------------------------------------------- the answer to a batch

  function CountStatus(outcomes: seq<Outcome>, status: PunchStatus): nat {
    if outcomes == [] then 0
    else CountStatus(outcomes[..|outcomes| - 1], status) + (if outcomes[|outcomes| - 1].status == status then 1 else 0)
  }

  lemma {:induction false} CountsSumUp(outcomes: seq<Outcome>)
    ensures CountStatus(outcomes, APPLIED) + CountStatus(outcomes, DUPLICATE) + CountStatus(outcomes, UNMATCHED_EMPLOYEE)
          + CountStatus(outcomes, REJECTED) == |outcomes|
  {
    if outcomes != [] { CountsSumUp(outcomes[..|outcomes| - 1]); }
  }

  datatype Answer = Answer(received: nat, applied: nat, duplicate: nat, unmatched: nat, rejected: nat)

  function Tallied(tally: map<PunchStatus, nat>, status: PunchStatus): nat {
    if status in tally then tally[status] else 0
  }

  /** The per-status counts of the answer; together they account for every punch received. */
  method Report(outcomes: seq<Outcome>) returns (answer: Answer)
    ensures answer.received == |outcomes|
    ensures answer.applied == CountStatus(outcomes, APPLIED) && answer.duplicate == CountStatus(outcomes, DUPLICATE)
    ensures answer.unmatched == CountStatus(outcomes, UNMATCHED_EMPLOYEE) && answer.rejected == CountStatus(outcomes, REJECTED)
    ensures answer.applied + answer.duplicate + answer.unmatched + answer.rejected == answer.received
  {
    var tally: map<PunchStatus, nat> := map[];
    for i := 0 to |outcomes|
      invariant forall status: PunchStatus :: Tallied(tally, status) == CountStatus(outcomes[..i], status)
    {
      assert outcomes[..i + 1][..i] == outcomes[..i];
      var status := outcomes[i].status;
      tally := tally[status := Tallied(tally, status) + 1];
    }
    assert outcomes[..|outcomes|] == outcomes;
    CountsSumUp(outcomes);
    answer := Answer(|outcomes|, Tallied(tally, APPLIED), Tallied(tally, DUPLICATE), Tallied(tally, UNMATCHED_EMPLOYEE),
                     Tallied(tally, REJECTED));
  }

  /** A batch adds one punch row for each of its punches that was not a duplicate. */
  lemma {:induction false} RowsAdded(db: Db, device: Device, batch: seq<Arrival>)
    ensures var (after, outcomes) := Ingest(db, device, batch);
            |after.punches| + CountStatus(outcomes, DUPLICATE) == |db.punches| + |batch|
  {
    if batch != [] {
      var front := batch[..|batch| - 1];
      var last := batch[|batch| - 1];
      RowsAdded(db, device, front);
      var (before, outcomes) := Ingest(db, device, front);
      OneRowPerPunch(before, device, last.punch, last.world);
      var all := Ingest(db, device, batch).1;
      assert all[..|all| - 1] == outcomes;
    }
  }

  // ---------------------------------------------------------------- the service

  class DeviceService {
    var days: Table
    var punches: seq<PunchRow>

    ghost function Model(): Db
      reads this
    {
      Db(days, punches)
    }

    /** Opens or closes the day of a punch. */
    method ApplyPunch(device: Device, employeeId: Id, punch: Punch, w: World) returns (r: Result<Key, Error>)
      modifies this`days
      ensures var k := DayOf(employeeId, punch);
              match Applied(old(days), device, k, punch, w)
              case Ok(row) => r == Ok(k) && days == old(days)[k := row]
              case Err(e) => r == Err(e) && days == old(days)
    {
      var k := DayOf(employeeId, punch);
      var existing: Option<Row> := None;
      if k in days && !days[k].deleted && days[k].companyId == device.companyId {
        existing := Some(days[k]);
      }
      var wantsCheckOut := punch.direction == OUT || (punch.direction == AUTO && existing.Some? && existing.value.checkIn.Some?);
      if wantsCheckOut {
        if existing.None? { return Err(NoRecordToClose); }
        if existing.value.checkOut.Some? { return Err(AlreadyCheckedOut); }
        var record := CheckedOut(days, k, punch.punchedAt, w.closing);
        if record.Err? { return Err(record.error); }
        days := days[k := record.value];
        return Ok(k);
      }
      if existing.Some? { return Err(AlreadyExists); }
      var record := Created(days, k, device.companyId, Some(punch.punchedAt), None, PRESENT,
                            Some(SourceOf(device)), w.opening);
      if record.Err? { return Err(record.error); }
      days := days[k := record.value];
      return Ok(k);
    }

    method IngestOnePunch(device: Device, punch: Punch, w: World) returns (outcome: Outcome)
      modifies this
      ensures (Model(), outcome) == IngestOne(old(Model()), device, punch, w)
    {
      var seen := Seen(punches, device.id, punch.externalId);
      if seen.Some? {
        return Outcome(punch.externalId, punch.employeeCode, DUPLICATE, seen.value.attendance);
      }
      if w.employee.None? {
        punches := punches + [RowFor(device, punch, None, UNMATCHED_EMPLOYEE, None)];
        return Outcome(punch.externalId, punch.employeeCode, UNMATCHED_EMPLOYEE, None);
      }
      var r := ApplyPunch(device, w.employee.value, punch, w);
      if r.Ok? {
        punches := punches + [RowFor(device, punch, w.employee, APPLIED, Some(r.value))];
        return Outcome(punch.externalId, punch.employeeCode, APPLIED, Some(r.value));
      }
      punches := punches + [RowFor(device, punch, w.employee, REJECTED, None)];
      return Outcome(punch.externalId, punch.employeeCode, REJECTED, None);
    }

    /** Every punch of the batch in order, each with its own outcome. */
    method IngestBatch(device: Device, batch: seq<Arrival>) returns (outcomes: seq<Outcome>)
      modifies this
      ensures (Model(), outcomes) == Ingest(old(Model()), device, batch)
      ensures |punches| + CountStatus(outcomes, DUPLICATE) == |old(punches)| + |batch|
    {
      ghost var start := Model();
      outcomes := [];
      for i := 0 to |batch|
        invariant (Model(), outcomes) == Ingest(start, device, batch[..i])
      {
        assert batch[..i + 1][..i] == batch[..i];
        var outcome := IngestOnePunch(device, batch[i].punch, batch[i].world);
        outcomes := outcomes + [outcome];
      }
      assert batch[..|batch|] == batch;
      RowsAdded(start, device, batch);
    }
  }
}
