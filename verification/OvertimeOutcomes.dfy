/**
 * Filing overtime by its outcomes: when a request is stored, what brings about each of its phases, and
 * which two requests stand in each other's way.
 */
module OvertimeOutcomes {
  import opened Overtime

  /** The request holds the lock another one needs: by name, which employees and days may share. */
  predicate HoldsLockOf(n: Names, s: State, q: nat, r: nat)
    requires r < |s|
  {
    && q < |s| && (s[q].phase == Holding || s[q].phase == Checked || s[q].phase == Inserted || s[q].phase == Phase.Refused)
    && n.lockName(s[q].employeeId + ":" + s[q].dateText) == n.lockName(s[r].employeeId + ":" + s[r].dateText)
  }

  /** A pending or approved request of the employee has the day, however it is written. */
  predicate TakesDayOf(n: Names, s: State, q: nat, r: nat)
    requires r < |s|
  {
    && q < |s| && (s[q].phase == Stored(PENDING) || s[q].phase == Stored(APPROVED))
    && s[q].employeeId == s[r].employeeId && n.day(s[q].dateText) == n.day(s[r].dateText)
  }

  ghost predicate Free(n: Names, s: State, r: nat)
    requires r < |s|
  {
    forall q :: !HoldsLockOf(n, s, q, r)
  }

  ghost predicate Taken(n: Names, s: State, r: nat)
    requires r < |s|
  {
    exists q :: TakesDayOf(n, s, q, r)
  }

  lemma LocksAndDays(n: Names, s: State, r: nat)
    requires r < |s|
    ensures LockFree(n, s, r) <==> Free(n, s, r)
    ensures Duplicate(n, s, r) <==> Taken(n, s, r)
  {
    if LockFree(n, s, r) {
      forall q: nat ensures !HoldsLockOf(n, s, q, r) {
        if q < |s| && HoldsLock(s[q]) { assert LockOf(n, s[q]) != LockOf(n, s[r]); }
      }
    } else {
      var q: nat :| q < |s| && HoldsLock(s[q]) && LockOf(n, s[q]) == LockOf(n, s[r]);
      assert HoldsLockOf(n, s, q, r);
    }
    if Duplicate(n, s, r) {
      var q: nat :| q < |s| && Live(s[q]) && SameDay(n, s[q], s[r]);
      assert TakesDayOf(n, s, q, r);
    }
    if q: nat :| TakesDayOf(n, s, q, r) {
      assert Live(s[q]) && SameDay(n, s[q], s[r]);
    }
  }

  /** A filing nobody interrupts is stored exactly when the employee's day is not taken and the workflow starts. */
  lemma FilingStoresExactly(n: Names, s: State, r: nat, workflowStarts: bool)
    requires r < |s| && s[r].phase == Waiting && Free(n, s, r)
    ensures var after := Run(n, s, Filing(r, workflowStarts));
            && |after| == |s| && after == s[r := after[r]] && after[r] == s[r].(phase := after[r].phase)
            && (after[r].phase == Stored(PENDING) <==> !Taken(n, s, r) && workflowStarts)
            && (after[r].phase != Stored(PENDING) ==> after[r].phase == Gone)
  {
    LocksAndDays(n, s, r);
    FilingRuns(n, s, r, workflowStarts);
  }

  /** Every phase of a request, exactly by what brings it about. */
  lemma PhasesExactly(n: Names, s: State, step: Step, r: nat)
    requires r < |s|
    ensures |Apply(n, s, step)| == |s|
    ensures var p, p' := s[r].phase, Apply(n, s, step)[r].phase;
            && Apply(n, s, step)[r] == s[r].(phase := p')
            && (p' == Waiting <==> p == Waiting && !(step == GetLock(r) && Free(n, s, r)) && step != Abort(r))
            && (p' == Holding <==> || (p == Waiting && step == GetLock(r) && Free(n, s, r))
                                   || (p == Holding && step != FindDuplicate(r) && step != Abort(r)))
            && (p' == Checked <==> || (p == Holding && step == FindDuplicate(r) && !Taken(n, s, r))
                                   || (p == Checked && step != InsertRow(r) && step != Abort(r)))
            && (p' == Phase.Refused <==> || (p == Holding && step == FindDuplicate(r) && Taken(n, s, r))
                                         || (p == Phase.Refused && step != ReleaseLock(r) && step != Abort(r)))
            && (p' == Inserted <==> || (p == Checked && step == InsertRow(r))
                                    || (p == Inserted && step != ReleaseLock(r) && step != Abort(r)))
            && (p' == Released <==> (p == Inserted && step == ReleaseLock(r)) || (p == Released && step != Commit(r) && step != Abort(r)))
  {
    LocksAndDays(n, s, r);
  }

  /** The same for what is stored and what is gone. */
  lemma EndsExactly(n: Names, s: State, step: Step, r: nat)
    requires r < |s|
    ensures var p, p' := s[r].phase, Apply(n, s, step)[r].phase;
            && (p' == Stored(PENDING) <==>
                  || (p == Released && step == Commit(r))
                  || (p == Stored(PENDING) && step != WorkflowFailed(r) && step != Approve(r) && step != Reject(r)))
            && (p' == Stored(APPROVED) <==>
                  || (p.Stored? && step == Approve(r))
                  || (p == Stored(APPROVED) && step != WorkflowFailed(r) && step != Reject(r)))
            && (p' == Stored(REJECTED) <==>
                  || (p.Stored? && step == Reject(r))
                  || (p == Stored(REJECTED) && step != WorkflowFailed(r) && step != Approve(r)))
            && (p' == Gone <==>
                  || p == Gone || (step == Abort(r) && !p.Stored?) || (step == WorkflowFailed(r) && p.Stored?)
                  || (step == ReleaseLock(r) && p == Phase.Refused))
  {}

  /** Under the three conditions no employee ever has two pending or approved requests for a day. */
  lemma NeverTwoOfADay(n: Names, s: State, steps: seq<Step>, p: nat, q: nat)
    requires OneClaim(n, s) && Exclusive(n, s) && WrittenAlike(n, s) && WellTimed(n, s, steps)
    requires p != q && p < |Run(n, s, steps)| && q < |Run(n, s, steps)|
    ensures var after := Run(n, s, steps);
            (after[p].phase == Stored(PENDING) || after[p].phase == Stored(APPROVED)) ==> !TakesDayOf(n, after, q, p)
  {
    WellTimedRunsNeverDouble(n, s, steps);
    var after := Run(n, s, steps);
    var a, b := if p < q then p else q, if p < q then q else p;
    assert !(Live(after[a]) && Live(after[b]) && SameDay(n, after[a], after[b]));
  }
}
