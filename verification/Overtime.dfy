/**
 * Filing overtime under a database advisory lock, one database statement per step. The lock is released
 * by the operation, before the transaction that inserted the row commits.
 */
module Overtime {
  type Id = string

  datatype Status = PENDING | APPROVED | REJECTED

  /**
   * Where a request is: waiting for the lock, holding it, having found no duplicate, having inserted
   * its row, having released the lock with the row still uncommitted; or refused with the lock still
   * held; or its row is stored; or nothing of it is left.
   */
  datatype Phase = Waiting | Holding | Checked | Inserted | Released | Refused | Stored(status: Status) | Gone

  /** `dateText` is the date as the caller wrote it. */
  datatype Request = Request(employeeId: Id, dateText: string, phase: Phase)

  /** The calendar day of a date text, and the lock name of a key (a digest), are parameters. */
  datatype Names = Names(day: string -> int, lockName: string -> string)

  type State = seq<Request>

  datatype Step =
    | GetLock(r: nat)
    | FindDuplicate(r: nat)
    | InsertRow(r: nat)
    | ReleaseLock(r: nat)
    | Commit(r: nat)
    | Abort(r: nat)
    | WorkflowFailed(r: nat)
    | Approve(r: nat)
    | Reject(r: nat)

  function LockOf(n: Names, r: Request): string {
    n.lockName(r.employeeId + ":" + r.dateText)
  }

  predicate SameDay(n: Names, a: Request, b: Request) {
    a.employeeId == b.employeeId && n.day(a.dateText) == n.day(b.dateText)
  }

  predicate HoldsLock(r: Request) {
    r.phase == Holding || r.phase == Checked || r.phase == Inserted || r.phase == Refused
  }

  predicate Live(r: Request) {
    r.phase == Stored(PENDING) || r.phase == Stored(APPROVED)
  }

  /** What the duplicate query sees: committed, pending or approved, same employee and day. */
  predicate Duplicate(n: Names, s: State, r: nat)
    requires r < |s|
  {
    exists q :: 0 <= q < |s| && Live(s[q]) && SameDay(n, s[q], s[r])
  }

  predicate LockFree(n: Names, s: State, r: nat)
    requires r < |s|
  {
    forall q :: 0 <= q < |s| && HoldsLock(s[q]) ==> LockOf(n, s[q]) != LockOf(n, s[r])
  }

  /** The phase the step leaves its request in; a step whose request is elsewhere does nothing. */
  function Next(n: Names, s: State, step: Step): Phase
    requires step.r < |s|
  {
    var phase := s[step.r].phase;
    match step
    case GetLock(r) => if phase == Waiting && LockFree(n, s, r) then Holding else phase
    case FindDuplicate(r) => if phase != Holding then phase else if Duplicate(n, s, r) then Refused else Checked
    case InsertRow(_) => if phase == Checked then Inserted else phase
    case ReleaseLock(_) => if phase == Inserted then Released else if phase == Refused then Gone else phase
    case Commit(_) => if phase == Released then Stored(PENDING) else phase
    case Abort(_) => if phase.Stored? then phase else Gone
    case WorkflowFailed(_) => if phase.Stored? then Gone else phase
    case Approve(_) => if phase.Stored? then Stored(APPROVED) else phase
    case Reject(_) => if phase.Stored? then Stored(REJECTED) else phase
  }

  function Apply(n: Names, s: State, step: Step): State {
    if step.r < |s| then s[step.r := s[step.r].(phase := Next(n, s, step))] else s
  }

  function Run(n: Names, s: State, steps: seq<Step>): State
    decreases |steps|
  {
    if steps == [] then s else Run(n, Apply(n, s, steps[0]), steps[1..])
  }

  // ---------------------------------------------------------------- at most one request a day

  /** The request found no duplicate and its row is not committed yet. */
  predicate Pending(r: Request) {
    r.phase == Checked || r.phase == Inserted || r.phase == Released
  }

  predicate Claims(r: Request) {
    Pending(r) || Live(r)
  }

  /** No employee has two requests for a day that are live or on their way to be. */
  predicate OneClaim(n: Names, s: State) {
    forall p, q :: 0 <= p < q < |s| && Claims(s[p]) && Claims(s[q]) ==> !SameDay(n, s[p], s[q])
  }

  predicate TwoLive(n: Names, s: State) {
    exists p, q :: 0 <= p < q < |s| && Live(s[p]) && Live(s[q]) && SameDay(n, s[p], s[q])
  }

  /** A request looks for duplicates while another one of the day is on its way. */
  predicate Overtakes(n: Names, s: State, step: Step) {
    step.FindDuplicate? && step.r < |s| && s[step.r].phase == Holding && !Duplicate(n, s, step.r)
    && exists q :: 0 <= q < |s| && Pending(s[q]) && SameDay(n, s[q], s[step.r])
  }

  /** A rejected request is approved while another one of the day is live or on its way. */
  predicate Revives(n: Names, s: State, step: Step) {
    step.Approve? && step.r < |s| && s[step.r].phase == Stored(REJECTED)
    && exists q :: 0 <= q < |s| && Claims(s[q]) && SameDay(n, s[q], s[step.r])
  }

  /** A step makes a second claim on a day exactly when it overtakes or revives. */
  lemma StepKeepsOneClaimExactly(n: Names, s: State, step: Step)
    requires OneClaim(n, s)
    ensures OneClaim(n, Apply(n, s, step)) <==> !Overtakes(n, s, step) && !Revives(n, s, step)
  {
    if step.r < |s| {
      var after := Apply(n, s, step);
      var r: int := step.r;
      assert forall q :: 0 <= q < |s| && q != r ==> after[q] == s[q];
      if Overtakes(n, s, step) {
        var q :| 0 <= q < |s| && Pending(s[q]) && SameDay(n, s[q], s[r]);
        assert Claims(after[q]) && Claims(after[r]) && SameDay(n, after[q], after[r]) && SameDay(n, after[r], after[q]);
      } else if Revives(n, s, step) {
        var q :| 0 <= q < |s| && Claims(s[q]) && SameDay(n, s[q], s[r]);
        assert Claims(after[q]) && Claims(after[r]) && SameDay(n, after[q], after[r]) && SameDay(n, after[r], after[q]);
      } else if Claims(after[r]) && !Claims(s[r]) {
        NewClaimIsAlone(n, s, step);
      }
    }
  }

  lemma NewClaimIsAlone(n: Names, s: State, step: Step)
    requires step.r < |s| && !Overtakes(n, s, step) && !Revives(n, s, step)
    requires !Claims(s[step.r]) && Claims(Apply(n, s, step)[step.r])
    ensures forall q :: 0 <= q < |s| && Claims(s[q]) ==> !SameDay(n, s[q], s[step.r])
  {
    forall q | 0 <= q < |s| && Claims(s[q]) ensures !SameDay(n, s[q], s[step.r]) {
      match step
      case FindDuplicate(r) =>
        assert !Duplicate(n, s, r) && s[r].phase == Holding;
        assert if Pending(s[q]) then !SameDay(n, s[q], s[r]) else !(Live(s[q]) && SameDay(n, s[q], s[r]));
      case Approve(r) =>
        var was := s[r].phase;
        assert was.Stored? && was == Stored(was.status);
        assert was.status != PENDING && was.status != APPROVED;
      case _ =>
    }
  }

  /** No step of the run, where it is taken, overtakes or revives. */
  predicate NeverDoubles(n: Names, s: State, steps: seq<Step>)
    decreases |steps|
  {
    steps != [] ==>
      !Overtakes(n, s, steps[0]) && !Revives(n, s, steps[0]) && NeverDoubles(n, Apply(n, s, steps[0]), steps[1..])
  }

  /** One claim a day in every state of the run. */
  predicate AlwaysOneClaim(n: Names, s: State, steps: seq<Step>)
    decreases |steps|
  {
    OneClaim(n, s) && (steps != [] ==> AlwaysOneClaim(n, Apply(n, s, steps[0]), steps[1..]))
  }

  /** A run has at most one claim a day throughout exactly when none of its steps overtakes or revives. */
  lemma {:induction false} RunKeepsOneClaimExactly(n: Names, s: State, steps: seq<Step>)
    requires OneClaim(n, s)
    ensures AlwaysOneClaim(n, s, steps) <==> NeverDoubles(n, s, steps)
    decreases |steps|
  {
    if steps != [] {
      StepKeepsOneClaimExactly(n, s, steps[0]);
      if OneClaim(n, Apply(n, s, steps[0])) {
        RunKeepsOneClaimExactly(n, Apply(n, s, steps[0]), steps[1..]);
      }
    }
  }

  // ---------------------------------------------------------------- what the lock gives

  /** No two requests hold one lock. */
  predicate Exclusive(n: Names, s: State) {
    forall p, q :: 0 <= p < q < |s| && HoldsLock(s[p]) && HoldsLock(s[q]) ==> LockOf(n, s[p]) != LockOf(n, s[q])
  }

  lemma StepKeepsExclusive(n: Names, s: State, step: Step)
    requires Exclusive(n, s)
    ensures Exclusive(n, Apply(n, s, step))
  {
    if step.r < |s| {
      var after := Apply(n, s, step);
      assert forall q :: 0 <= q < |s| && q != step.r ==> after[q] == s[q];
      assert LockOf(n, after[step.r]) == LockOf(n, s[step.r]);
    }
  }

  /**
   * Under the lock a request can overtake another only if the two wrote the same day differently, or the
   * other has released its lock and not committed yet.
   */
  lemma OvertakingNeedsAGap(n: Names, s: State, step: Step)
    requires Exclusive(n, s) && Overtakes(n, s, step)
    ensures exists q :: 0 <= q < |s| && SameDay(n, s[q], s[step.r]) && Pending(s[q])
              && (s[q].dateText != s[step.r].dateText || s[q].phase == Released)
  {
    var q :| 0 <= q < |s| && Pending(s[q]) && SameDay(n, s[q], s[step.r]);
    assert q != step.r;
    assert s[q].dateText == s[step.r].dateText ==> LockOf(n, s[q]) == LockOf(n, s[step.r]);
  }

  /** Equal days of one employee are written alike. */
  predicate WrittenAlike(n: Names, s: State) {
    forall p, q :: 0 <= p < |s| && 0 <= q < |s| && SameDay(n, s[p], s[q]) ==> s[p].dateText == s[q].dateText
  }

  /** Nobody looks for duplicates between another's release and its commit, for one lock. */
  predicate CommitsBeforeNextCheck(n: Names, s: State, step: Step) {
    step.FindDuplicate? && step.r < |s| ==>
      forall q :: 0 <= q < |s| && s[q].phase == Released ==>
        s[q].dateText != s[step.r].dateText || s[q].employeeId != s[step.r].employeeId
  }

  predicate ApprovesPendingOnly(s: State, step: Step) {
    step.Approve? && step.r < |s| ==> s[step.r].phase != Stored(REJECTED)
  }

  predicate WellTimed(n: Names, s: State, steps: seq<Step>)
    decreases |steps|
  {
    steps != [] ==>
      CommitsBeforeNextCheck(n, s, steps[0]) && ApprovesPendingOnly(s, steps[0]) && WellTimed(n, Apply(n, s, steps[0]), steps[1..])
  }

  lemma StepKeepsTexts(n: Names, s: State, step: Step)
    requires WrittenAlike(n, s)
    ensures WrittenAlike(n, Apply(n, s, step))
  {
    if step.r < |s| {
      var after := Apply(n, s, step);
      assert forall q :: 0 <= q < |s| ==> after[q].employeeId == s[q].employeeId && after[q].dateText == s[q].dateText;
      forall p, q | 0 <= p < |after| && 0 <= q < |after| && SameDay(n, after[p], after[q])
        ensures after[p].dateText == after[q].dateText
      {
        assert SameDay(n, s[p], s[q]);
      }
    }
  }

  lemma WellTimedStepIsSafe(n: Names, s: State, step: Step)
    requires Exclusive(n, s) && WrittenAlike(n, s)
    requires CommitsBeforeNextCheck(n, s, step) && ApprovesPendingOnly(s, step)
    ensures !Overtakes(n, s, step) && !Revives(n, s, step)
  {
    if Overtakes(n, s, step) {
      OvertakingNeedsAGap(n, s, step);
    }
  }

  /**
   * When equal days arrive as equal texts, only pending or approved requests get approved, and every
   * request commits before the next one of its lock looks for duplicates, then in any interleaving an
   * employee never has two pending or approved requests for a day.
   */
  lemma {:induction false} WellTimedRunsNeverDouble(n: Names, s: State, steps: seq<Step>)
    requires OneClaim(n, s) && Exclusive(n, s) && WrittenAlike(n, s) && WellTimed(n, s, steps)
    ensures AlwaysOneClaim(n, s, steps) && !TwoLive(n, Run(n, s, steps))
    decreases |steps|
  {
    if steps != [] {
      WellTimedStepIsSafe(n, s, steps[0]);
      StepKeepsOneClaimExactly(n, s, steps[0]);
      StepKeepsExclusive(n, s, steps[0]);
      StepKeepsTexts(n, s, steps[0]);
      WellTimedRunsNeverDouble(n, Apply(n, s, steps[0]), steps[1..]);
    }
  }

  // ---------------------------------------------------------------- each condition is needed

  const FILE_FIRST: seq<Step> := [GetLock(0), FindDuplicate(0), InsertRow(0), ReleaseLock(0)]
  const FILE_SECOND: seq<Step> := [GetLock(1), FindDuplicate(1), InsertRow(1), ReleaseLock(1), Commit(1)]

  /**
   * The release comes before the commit: a second request that takes the lock in between does not see
   * the first one's row, although both wrote the day alike, and both become live.
   */
  lemma ReleaseBeforeCommitDoubles(n: Names, employeeId: Id, dateText: string)
    ensures TwoLive(n, Run(n, [Request(employeeId, dateText, Waiting), Request(employeeId, dateText, Waiting)],
                           FILE_FIRST + FILE_SECOND + [Commit(0)]))
  {
    var w := Request(employeeId, dateText, Waiting);
    var steps := FILE_FIRST + FILE_SECOND + [Commit(0)];
    var s1 := [w.(phase := Released), w];
    assert steps == FILE_FIRST + (FILE_SECOND + [Commit(0)]);
    FiledFirst(n, w, w);
    RunConcat(n, [w, w], FILE_FIRST, FILE_SECOND + [Commit(0)]);
    FiledSecond(n, s1, w);
    RunConcat(n, s1, FILE_SECOND, [Commit(0)]);
    var s2 := [w.(phase := Released), w.(phase := Stored(PENDING))];
    assert [Commit(0)][1..] == [];
    assert Run(n, s2, [Commit(0)]) == Run(n, Apply(n, s2, Commit(0)), []);
    assert SameDay(n, Apply(n, s2, Commit(0))[0], Apply(n, s2, Commit(0))[1]);
  }

  lemma RunConcat(n: Names, s: State, a: seq<Step>, b: seq<Step>)
    ensures Run(n, s, a + b) == Run(n, Run(n, s, a), b)
    decreases |a|
  {
    if a == [] {
      assert a + b == b;
    } else {
      assert (a + b)[1..] == a[1..] + b;
      RunConcat(n, Apply(n, s, a[0]), a[1..], b);
    }
  }

  lemma FiledFirst(n: Names, a: Request, b: Request)
    requires a.phase == Waiting && b.phase == Waiting
    ensures Run(n, [a, b], FILE_FIRST) == [a.(phase := Released), b]
  {
    var s1 := Apply(n, [a, b], GetLock(0));
    assert s1 == [a.(phase := Holding), b];
    var s2 := Apply(n, s1, FindDuplicate(0));
    assert s2 == [a.(phase := Checked), b];
    var s3 := Apply(n, s2, InsertRow(0));
    assert s3 == [a.(phase := Inserted), b];
    var s4 := Apply(n, s3, ReleaseLock(0));
    assert s4 == [a.(phase := Released), b];
    assert FILE_FIRST[1..][1..][1..][1..] == [];
  }

  /** The second request goes through when its lock is free and no live row of its day is committed. */
  lemma FiledSecond(n: Names, s: State, b: Request)
    requires |s| == 2 && s[1] == b && b.phase == Waiting
    requires !(HoldsLock(s[0]) && LockOf(n, s[0]) == LockOf(n, b)) && !(Live(s[0]) && SameDay(n, s[0], b))
    ensures Run(n, s, FILE_SECOND) == [s[0], b.(phase := Stored(PENDING))]
  {
    var a := s[0];
    var s1 := Apply(n, s, GetLock(1));
    assert s1 == [a, b.(phase := Holding)];
    var s2 := Apply(n, s1, FindDuplicate(1));
    assert s2 == [a, b.(phase := Checked)];
    var s3 := Apply(n, s2, InsertRow(1));
    assert s3 == [a, b.(phase := Inserted)];
    var s4 := Apply(n, s3, ReleaseLock(1));
    assert s4 == [a, b.(phase := Released)];
    var s5 := Apply(n, s4, Commit(1));
    assert s5 == [a, b.(phase := Stored(PENDING))];
    assert FILE_SECOND[1..][1..][1..][1..][1..] == [];
  }

  /** The key holds the text of the date: one day written in two ways is two locks, and both become live. */
  lemma TwoTextsOfADayDouble(n: Names, employeeId: Id, text: string, other: string)
    requires n.day(text) == n.day(other)
    requires n.lockName(employeeId + ":" + text) != n.lockName(employeeId + ":" + other)
    ensures var a, b := Request(employeeId, text, Waiting), Request(employeeId, other, Waiting);
            TwoLive(n, Run(n, Run(n, [a.(phase := Inserted), b], FILE_SECOND), [ReleaseLock(0), Commit(0)]))
  {
    var a, b := Request(employeeId, text, Waiting), Request(employeeId, other, Waiting);
    var s := [a.(phase := Inserted), b];
    FiledSecond(n, s, b);
    var s1 := [a.(phase := Inserted), b.(phase := Stored(PENDING))];
    var s2 := Apply(n, s1, ReleaseLock(0));
    assert s2 == [a.(phase := Released), b.(phase := Stored(PENDING))];
    var s3 := Apply(n, s2, Commit(0));
    assert s3 == [a.(phase := Stored(PENDING)), b.(phase := Stored(PENDING))];
    assert [ReleaseLock(0), Commit(0)][1..][1..] == [];
    assert SameDay(n, s3[0], s3[1]);
  }

  /** Approval does not look at the status: a rejected request approved after its replacement doubles the day. */
  lemma ApprovingARejectedRequestDoubles(n: Names, employeeId: Id, dateText: string)
    ensures var w := Request(employeeId, dateText, Waiting);
            TwoLive(n, Apply(n, Run(n, [w.(phase := Stored(REJECTED)), w], FILE_SECOND), Approve(0)))
  {
    var w := Request(employeeId, dateText, Waiting);
    var s := [w.(phase := Stored(REJECTED)), w];
    FiledSecond(n, s, w);
    var s1 := [w.(phase := Stored(REJECTED)), w.(phase := Stored(PENDING))];
    var s2 := Apply(n, s1, Approve(0));
    assert s2 == [w.(phase := Stored(APPROVED)), w.(phase := Stored(PENDING))];
    assert SameDay(n, s2[0], s2[1]);
  }

  // ---------------------------------------------------------------- one filing, uninterrupted

  /** The statements of one filing, in order; a workflow that cannot start has the row deleted again. */
  function Filing(r: nat, workflowStarts: bool): seq<Step> {
    [GetLock(r), FindDuplicate(r), InsertRow(r), ReleaseLock(r), Commit(r)] + if workflowStarts then [] else [WorkflowFailed(r)]
  }

  lemma RunOfFive(n: Names, s: State, a: Step, b: Step, c: Step, d: Step, e: Step)
    ensures Run(n, s, [a, b, c, d, e]) == Apply(n, Apply(n, Apply(n, Apply(n, Apply(n, s, a), b), c), d), e)
  {
    assert [a, b, c, d, e][1..] == [b, c, d, e] && [b, c, d, e][1..] == [c, d, e];
    assert [c, d, e][1..] == [d, e] && [d, e][1..] == [e] && [e][1..] == [];
    var s2 := Apply(n, Apply(n, s, a), b);
    assert Run(n, s, [a, b, c, d, e]) == Run(n, s2, [c, d, e]);
    assert Run(n, s2, [c, d, e]) == Run(n, Apply(n, Apply(n, s2, c), d), [e]);
  }

  /** The five statements, with nobody in between, store the row unless a duplicate is found. */
  lemma StatementsInARow(n: Names, s: State, r: nat)
    requires r < |s| && s[r].phase == Waiting && LockFree(n, s, r)
    ensures Run(n, s, Filing(r, true)) == s[r := s[r].(phase := if Duplicate(n, s, r) then Gone else Stored(PENDING))]
  {
    var w := s[r];
    RunOfFive(n, s, GetLock(r), FindDuplicate(r), InsertRow(r), ReleaseLock(r), Commit(r));
    assert Filing(r, true) == [GetLock(r), FindDuplicate(r), InsertRow(r), ReleaseLock(r), Commit(r)];
    var s1 := Apply(n, s, GetLock(r));
    assert s1 == s[r := w.(phase := Holding)];
    assert Duplicate(n, s1, r) <==> Duplicate(n, s, r) by {
      assert forall q :: 0 <= q < |s| ==> Live(s1[q]) == Live(s[q]) && SameDay(n, s1[q], s1[r]) == SameDay(n, s[q], s[r]);
    }
    AfterDuplicateQuery(n, s, s1, r, Duplicate(n, s, r));
  }

  lemma AfterDuplicateQuery(n: Names, s: State, s1: State, r: nat, refused: bool)
    requires r < |s| && s1 == s[r := s[r].(phase := Holding)] && refused == Duplicate(n, s1, r)
    ensures Apply(n, Apply(n, Apply(n, Apply(n, s1, FindDuplicate(r)), InsertRow(r)), ReleaseLock(r)), Commit(r))
         == s[r := s[r].(phase := if refused then Gone else Stored(PENDING))]
  {
    var w := s[r];
    var s2 := Apply(n, s1, FindDuplicate(r));
    assert s2 == s[r := w.(phase := if refused then Refused else Checked)];
    var s3 := Apply(n, s2, InsertRow(r));
    assert s3 == s[r := w.(phase := if refused then Refused else Inserted)];
    var s4 := Apply(n, s3, ReleaseLock(r));
    assert s4 == s[r := w.(phase := if refused then Gone else Released)];
  }

  lemma FilingRuns(n: Names, s: State, r: nat, workflowStarts: bool)
    requires r < |s| && s[r].phase == Waiting && LockFree(n, s, r)
    ensures Run(n, s, Filing(r, workflowStarts))
         == s[r := s[r].(phase := if Duplicate(n, s, r) || !workflowStarts then Gone else Stored(PENDING))]
  {
    StatementsInARow(n, s, r);
    if !workflowStarts {
      var core, last := Filing(r, true), [WorkflowFailed(r)];
      assert Filing(r, false) == core + last && last[1..] == [];
      RunConcat(n, s, core, last);
      var stored := Run(n, s, core);
      assert Run(n, stored, last) == Run(n, Apply(n, stored, WorkflowFailed(r)), []);
      assert Apply(n, stored, WorkflowFailed(r)) == s[r := s[r].(phase := Gone)];
    }
  }

  class OvertimeService {
    const names: Names
    var requests: State

    constructor (names: Names, requests: State)
      ensures this.names == names && this.requests == requests
    {
      this.names, this.requests := names, requests;
    }

    /**
     * Files a request with nothing in between. It is created exactly when no pending or approved request
     * of the employee has the day and the workflow starts; otherwise nothing of it is left.
     */
    method CreateOvertime(r: nat, workflowStarts: bool) returns (created: bool)
      requires r < |requests| && requests[r].phase == Waiting
      modifies this`requests
      ensures LockFree(names, old(requests), r) ==> requests == Run(names, old(requests), Filing(r, workflowStarts))
      ensures created <==> LockFree(names, old(requests), r) && !Duplicate(names, old(requests), r) && workflowStarts
      ensures requests == old(requests)[r := old(requests)[r].(phase := if created then Stored(PENDING) else Gone)]
    {
      var request := requests[r];
      if !LockFree(names, requests, r) {
        requests := requests[r := request.(phase := Gone)];
        return false;
      }
      FilingRuns(names, requests, r, workflowStarts);
      var duplicate := exists q :: 0 <= q < |requests| && Live(requests[q]) && SameDay(names, requests[q], request);
      if duplicate {
        requests := requests[r := request.(phase := Gone)];
        return false;
      }
      requests := requests[r := request.(phase := Stored(PENDING))];
      if !workflowStarts {
        requests := requests[r := request.(phase := Gone)];
        return false;
      }
      return true;
    }
  }
}
