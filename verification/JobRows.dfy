// The compute service's job rows. Each statement is a guard, evaluated on the latest
// row, and an update that happens only where the guard holds.
module JobRows {
  import opened Wrappers
  import opened Sql
  import opened Collections

  datatype Status = Queued | Running | Completed | Failed {
    // A row in one of these is never overwritten by an attempt that finished.
    predicate Terminal() {
      this == Completed || this == Failed
    }
  }

  // The columns a progress write may set; None leaves a column as it is.
  datatype Progress = Progress(step: Option<string>, stepIndex: Option<int>, totalSteps: Option<int>,
                               calculation: Option<string>, travelTimes: Option<string>) {
    function Over(before: Progress): Progress {
      Progress(Coalesce(step, before.step), Coalesce(stepIndex, before.stepIndex),
               Coalesce(totalSteps, before.totalSteps), Coalesce(calculation, before.calculation),
               Coalesce(travelTimes, before.travelTimes))
    }
  }

  // The texts the service writes for people, by what they say.
  datatype Details =
    | QueuedForWorker
    | WorkerStarted
    | Reported(message: string)
    | RetryingAfter(errorName: string)
    | PipelineFailed
    | ReconciledFromQueue
    | CompletedSuccessfully

  // An error a client is shown: an exception's class and a step, never its message.
  datatype ErrorText =
    | FailedAt(step: string, errorName: string)
    | FailedIn(errorName: string)
    | StoppedSilently(reason: Reason)

  // Why the queue says it gave up: an exception's class, or else the row's state.
  datatype Reason = ErrorType(name: string) | ByState(state: QueueState)

  datatype Outcome = Outcome(calculation: string, travelTimes: string, outputs: seq<string>, location: string)

  datatype Row = Row(simulation: string, input: string, status: Status, details: Details, progress: Progress,
                     owner: Option<int>, error: Option<ErrorText>, startedAt: Option<int>, finishedAt: Option<int>,
                     outputs: seq<string>, location: Option<string>, expiredAt: Option<int>)

  // One queue row as a reconciliation pass reads it.
  datatype QueueState = Pending | Leased | Succeeded | GaveUp | Cancelled

  datatype QueueRow = QueueRow(state: QueueState, attempt: nat, finishedAt: Option<int>, errorType: Option<string>) {
    // The queue gave up on the job, before `cutoff`.
    predicate Abandoned(cutoff: int) {
      (state == GaveUp || state == Cancelled) && finishedAt.Some? && finishedAt.value < cutoff
    }

    function WhyGivenUp(): Reason {
      if errorType.Some? then ErrorType(errorType.value) else ByState(state)
    }
  }

  // ---------- What each statement does to a row ----------

  function Inserted(simulation: string, input: string): Row {
    Row(simulation, input, Queued, QueuedForWorker, Progress(None, None, None, None, None),
        None, None, None, None, [], None, None)
  }

  // `mark_started`: an attempt claims a row that no newer attempt owns and that is
  // not completed; a failed row only if it is strictly newer than the row's owner.
  predicate Claimable(row: Row, attempt: nat) {
    && (row.owner.None? || row.owner.value <= attempt)
    && row.status != Completed
    && (row.status != Failed || row.owner.None? || row.owner.value < attempt)
  }

  function Claimed(row: Row, attempt: nat, now: int): Row {
    row.(status := Running, details := WorkerStarted, owner := Some(attempt),
         error := None, finishedAt := None, startedAt := Coalesce(row.startedAt, Some(now)))
  }

  // The fence of every other write an attempt makes.
  predicate Writable(row: Row, attempt: nat) {
    row.owner == Some(attempt) && !row.status.Terminal()
  }

  function Progressed(row: Row, message: string, progress: Progress): Row {
    row.(status := Running, details := Reported(message), progress := progress.Over(row.progress))
  }

  function Retrying(row: Row, errorName: string): Row {
    row.(details := RetryingAfter(errorName))
  }

  function PublicError(errorName: string, step: Option<string>): ErrorText {
    if step.Some? && step.value != [] then FailedAt(step.value, errorName) else FailedIn(errorName)
  }

  function FailedWith(row: Row, errorName: string, step: Option<string>, now: int): Row {
    row.(status := Failed, details := PipelineFailed,
         error := Some(PublicError(errorName, step)), finishedAt := Some(now))
  }

  function CompletedWith(row: Row, outcome: Outcome, now: int): Row {
    row.(status := Completed, details := CompletedSuccessfully,
         progress := row.progress.(calculation := Some(outcome.calculation), travelTimes := Some(outcome.travelTimes)),
         outputs := outcome.outputs, location := Some(outcome.location), error := None, finishedAt := Some(now))
  }

  // `reconcile_terminal_jobs` on one row, with the queue row it read earlier.
  predicate Reconcilable(row: Row, q: QueueRow) {
    !row.status.Terminal() && (row.owner.None? || row.owner.value <= q.attempt)
  }

  function Reconciled(row: Row, q: QueueRow, now: int): Row {
    var owned := if row.owner.Some? then row.owner.value else 0;
    row.(status := Failed, details := ReconciledFromQueue,
         error := Some(StoppedSilently(q.WhyGivenUp())),
         finishedAt := Coalesce(Coalesce(row.finishedAt, q.finishedAt), Some(now)),
         owner := Some(if owned < q.attempt then q.attempt else owned))
  }

  predicate Expirable(row: Row) {
    row.status == Completed && row.expiredAt.None?
  }

  function Expired(row: Row, now: int): Row {
    row.(outputs := [], expiredAt := Some(now))
  }

  // ---------- Coherence ----------

  // What a client may rely on when it reads a row.
  predicate Coherent(row: Row) {
    && (row.status.Terminal() <==> row.finishedAt.Some?)
    && (row.status == Failed <==> row.error.Some?)
    && (row.outputs != [] ==> row.status == Completed && row.expiredAt.None?)
    && (row.expiredAt.Some? ==> row.status == Completed)
    && (row.status == Queued <==> row.owner.None?)
    && (row.status == Running || row.status == Completed ==> row.startedAt.Some?)
    && (row.status == Completed <==> row.location.Some?)
  }

  // ---------- The table ----------

  // A pass over the whole table: every row whose queue row was given up before
  // `cutoff` and that its guard admits.
  function ReconciledTable(rows: map<int, Row>, queue: map<int, QueueRow>, cutoff: int, now: int): map<int, Row> {
    map id | id in rows ::
      if id in queue && queue[id].Abandoned(cutoff) && Reconcilable(rows[id], queue[id])
      then Reconciled(rows[id], queue[id], now) else rows[id]
  }

  function ReconciledIds(rows: map<int, Row>, queue: map<int, QueueRow>, cutoff: int): set<int> {
    set id | id in rows && id in queue && queue[id].Abandoned(cutoff) && Reconcilable(rows[id], queue[id])
  }

  datatype Submission = Created(row: Row) | Existing(row: Row) | DifferentInput

  // Just row `id` is rewritten.
  ghost predicate Rewrites(before: map<int, Row>, after: map<int, Row>, id: int) {
    id in before && after.Keys == before.Keys && forall k :: k in before && k != id ==> after[k] == before[k]
  }

  // The columns every write of an attempt leaves alone.
  predicate SameIdentity(j: Row, r: Row) {
    r.simulation == j.simulation && r.input == j.input && r.startedAt == j.startedAt && r.owner == j.owner
    && r.expiredAt == j.expiredAt
  }

  predicate SameResult(j: Row, r: Row) {
    r.outputs == j.outputs && r.location == j.location
  }

  // ---------- Column by column ----------

  // A row nobody has worked on, holding what was asked for.
  predicate IsNew(r: Row, simulation: string, input: string) {
    && r.simulation == simulation && r.input == input && r.status == Queued && r.details == QueuedForWorker
    && r.progress.step.None? && r.progress.stepIndex.None? && r.progress.totalSteps.None?
    && r.progress.calculation.None? && r.progress.travelTimes.None?
    && r.owner.None? && r.error.None? && r.startedAt.None? && r.finishedAt.None? && r.outputs == []
    && r.location.None? && r.expiredAt.None?
  }

  predicate IsClaim(j: Row, r: Row, attempt: nat, now: int) {
    && r.status == Running && r.details == WorkerStarted && r.owner == Some(attempt)
    && r.error.None? && r.finishedAt.None?
    && r.startedAt.Some? && (if j.startedAt.Some? then r.startedAt == j.startedAt else r.startedAt.value == now)
    && r.simulation == j.simulation && r.input == j.input && r.progress == j.progress && r.expiredAt == j.expiredAt
    && SameResult(j, r)
  }

  // A column is the new value where there is one, and stays otherwise.
  predicate Kept<T(==)>(before: Option<T>, given: Option<T>, after: Option<T>) {
    (given.Some? ==> after == given) && (given.None? ==> after == before)
  }

  predicate IsReport(j: Row, r: Row, message: string, given: Progress) {
    && r.status == Running && r.details == Reported(message)
    && Kept(j.progress.step, given.step, r.progress.step)
    && Kept(j.progress.stepIndex, given.stepIndex, r.progress.stepIndex)
    && Kept(j.progress.totalSteps, given.totalSteps, r.progress.totalSteps)
    && Kept(j.progress.calculation, given.calculation, r.progress.calculation)
    && Kept(j.progress.travelTimes, given.travelTimes, r.progress.travelTimes)
    && SameIdentity(j, r) && SameResult(j, r) && r.error == j.error && r.finishedAt == j.finishedAt
  }

  predicate IsFailure(j: Row, r: Row, errorName: string, step: Option<string>, willRetry: bool, now: int) {
    && SameIdentity(j, r) && SameResult(j, r) && r.progress == j.progress
    && if willRetry then
         r.status == j.status && r.details == RetryingAfter(errorName) && r.error == j.error && r.finishedAt == j.finishedAt
       else
         && r.status == Failed && r.details == PipelineFailed && r.finishedAt == Some(now)
         && r.error == Some(if step.Some? && step.value != [] then FailedAt(step.value, errorName) else FailedIn(errorName))
  }

  predicate IsCompletion(j: Row, r: Row, outcome: Outcome, now: int) {
    && r.status == Completed && r.details == CompletedSuccessfully && r.error.None? && r.finishedAt == Some(now)
    && r.outputs == outcome.outputs && r.location == Some(outcome.location)
    && r.progress.calculation == Some(outcome.calculation) && r.progress.travelTimes == Some(outcome.travelTimes)
    && r.progress.step == j.progress.step && r.progress.stepIndex == j.progress.stepIndex
    && r.progress.totalSteps == j.progress.totalSteps && SameIdentity(j, r)
  }

  // Owned by nobody, or by no attempt newer than this.
  predicate Outdated(owner: Option<int>, attempt: nat) {
    owner.None? || owner.value <= attempt
  }

  predicate IsReconciled(j: Row, r: Row, q: QueueRow, now: int) {
    && r.status == Failed && r.details == ReconciledFromQueue
    && r.error == Some(StoppedSilently(if q.errorType.Some? then ErrorType(q.errorType.value) else ByState(q.state)))
    && r.finishedAt.Some? && (j.finishedAt.Some? ==> r.finishedAt == j.finishedAt)
    && (j.finishedAt.None? && q.finishedAt.Some? ==> r.finishedAt == q.finishedAt)
    && (j.finishedAt.None? && q.finishedAt.None? ==> r.finishedAt.value == now)
    && r.owner.Some? && q.attempt <= r.owner.value && (j.owner.Some? ==> j.owner.value <= r.owner.value)
    && (r.owner == Some(q.attempt) || r.owner == j.owner)
    && r.simulation == j.simulation && r.input == j.input && r.progress == j.progress && r.startedAt == j.startedAt
    && r.expiredAt == j.expiredAt && SameResult(j, r)
  }

  predicate IsExpiry(j: Row, r: Row, now: int) {
    && r.outputs == [] && r.expiredAt == Some(now)
    && r.simulation == j.simulation && r.input == j.input && r.status == j.status && r.details == j.details
    && r.progress == j.progress && r.owner == j.owner && r.error == j.error && r.startedAt == j.startedAt
    && r.finishedAt == j.finishedAt && r.location == j.location
  }

  lemma FactsMakeExpired(before: map<int, Row>, after: map<int, Row>, id: int, now: int)
    requires Rewrites(before, after, id) && IsExpiry(before[id], after[id], now)
    ensures after == before[id := Expired(before[id], now)]
  {
    RewriteIsUpdate(before, after, id, Expired(before[id], now));
  }

  lemma RewriteIsUpdate(before: map<int, Row>, after: map<int, Row>, id: int, r: Row)
    requires Rewrites(before, after, id) && after[id] == r
    ensures after == before[id := r]
  {
    assert before[id := r].Keys == before.Keys;
    assert forall k :: k in after ==> after[k] == before[id := r][k];
  }

  predicate Known(rows: map<int, Row>, simulation: string) {
    exists a :: a in rows && rows[a].simulation == simulation
  }

  ghost predicate OneRowEach(rows: map<int, Row>) {
    forall a, b :: a in rows && b in rows && rows[a].simulation == rows[b].simulation ==> a == b
  }

  // A pass has dealt with every row but those of `left`, and failed those of `ids`.
  ghost predicate Passing(before: map<int, Row>, rows: map<int, Row>, queue: map<int, QueueRow>, cutoff: int, now: int,
                          left: set<int>, ids: set<int>)
  {
    && rows.Keys == before.Keys && left <= before.Keys && ids <= before.Keys - left
    && (forall id :: id in before - left ==> (id in ids <==> Fails(before[id], queue, id, cutoff)))
    && (forall id :: id in ids ==> IsReconciled(before[id], rows[id], queue[id], now))
    && (forall id :: id in before && id !in ids ==> rows[id] == before[id])
  }

  // Unfinished, under a queue row that gave up, and owned by no newer attempt.
  predicate Fails(j: Row, queue: map<int, QueueRow>, id: int, cutoff: int) {
    id in queue && queue[id].Abandoned(cutoff) && j.finishedAt.None? && Outdated(j.owner, queue[id].attempt)
  }

  lemma PassingMoves(before: map<int, Row>, rows: map<int, Row>, queue: map<int, QueueRow>, cutoff: int, now: int,
                     left: set<int>, ids: set<int>, id: int, after: map<int, Row>)
    requires Passing(before, rows, queue, cutoff, now, left, ids) && id in left
    requires Fails(before[id], queue, id, cutoff) ==>
               Rewrites(rows, after, id) && IsReconciled(before[id], after[id], queue[id], now)
    requires !Fails(before[id], queue, id, cutoff) ==> after == rows
    ensures Passing(before, after, queue, cutoff, now, left - {id},
                    if Fails(before[id], queue, id, cutoff) then ids + {id} else ids)
  {
  }

  // The column facts of a pass determine the table it leaves.
  lemma FactsMakeTable(before: map<int, Row>, rows: map<int, Row>, queue: map<int, QueueRow>, cutoff: int, now: int,
                       ids: set<int>)
    requires Passing(before, rows, queue, cutoff, now, {}, ids) && forall id :: id in before ==> Coherent(before[id])
    ensures rows == ReconciledTable(before, queue, cutoff, now) && ids == ReconciledIds(before, queue, cutoff)
  {
    forall id | id in before
      ensures id in ids <==> id in ReconciledIds(before, queue, cutoff)
      ensures rows[id] == ReconciledTable(before, queue, cutoff, now)[id]
    {
      assert id in before - {};
      if id in ids {
        FactsMakeReconciled(before[id], rows[id], queue[id], now);
      }
    }
    assert forall id :: id in ids ==> id in before;
  }

  lemma FactsMakeReconciled(j: Row, r: Row, q: QueueRow, now: int)
    requires IsReconciled(j, r, q, now) && Outdated(j.owner, q.attempt)
    ensures r == Reconciled(j, q, now)
  {
  }

  class JobTable {
    var rows: map<int, Row>

    // Rows of different jobs are of different simulations, and every row reads well.
    ghost predicate Valid()
      reads this
    {
      OneRowEach(rows) && forall id :: id in rows ==> Coherent(rows[id])
    }

    constructor ()
      ensures Valid() && rows == map[]
    {
      rows := map[];
    }

    // A simulation has one row: a repeated request finds it, and a request with
    // different input is refused.
    method CreateOrGet(simulation: string, input: string, id: int) returns (r: Submission)
      requires Valid() && id !in rows
      modifies this
      ensures Valid()
      ensures r.Created? <==> !Known(old(rows), simulation)
      ensures r.Created? ==> rows == old(rows)[id := r.row] && r.row == Inserted(simulation, input)
                             && IsNew(r.row, simulation, input)
      ensures !r.Created? ==> rows == old(rows)
      ensures r.Existing? ==> r.row.simulation == simulation && r.row.input == input && exists a :: a in rows && rows[a] == r.row
      ensures r.Existing? <==> exists a :: a in old(rows) && old(rows)[a].simulation == simulation && old(rows)[a].input == input
      ensures r.DifferentInput? <==> exists a :: a in old(rows) && old(rows)[a].simulation == simulation && old(rows)[a].input != input
    {
      if a :| a in rows && rows[a].simulation == simulation {
        if rows[a].input != input {
          return DifferentInput;
        }
        return Existing(rows[a]);
      }
      rows := rows[id := Inserted(simulation, input)];
      r := Created(rows[id]);
    }

    // The claim is won on a row that is not completed and that nobody owns, an older
    // attempt owns, or this attempt owns and has not failed.
    method MarkStarted(id: int, attempt: nat, now: int) returns (claimed: bool)
      requires Valid()
      modifies this
      ensures Valid()
      ensures claimed <==> id in old(rows) && old(rows)[id].status != Completed && (
                             old(rows)[id].owner.None? || old(rows)[id].owner.value < attempt
                             || (old(rows)[id].owner.value == attempt && old(rows)[id].status != Failed))
      ensures !claimed ==> rows == old(rows)
      ensures claimed ==> Rewrites(old(rows), rows, id) && IsClaim(old(rows)[id], rows[id], attempt, now)
    {
      claimed := false;
      if id in rows {
        var j := rows[id];
        var where := And(And(Or(IsNull(j.owner), AtMost(j.owner, Some(attempt))), NotAmong(j.status, [Completed])),
                         Or(Or(NotAmong(j.status, [Failed]), IsNull(j.owner)), Below(j.owner, Some(attempt))));
        if where == True {
          rows := rows[id := j.(status := Running, details := WorkerStarted, owner := Some(attempt), error := None,
                                finishedAt := None, startedAt := Coalesce(j.startedAt, Some(now)))];
          claimed := true;
        }
      }
    }

    // Progress lands exactly for the owner of an unfinished row, and keeps the columns
    // it says nothing about.
    method RecordProgress(id: int, message: string, progress: Progress, attempt: nat) returns (written: bool)
      requires Valid()
      modifies this
      ensures Valid()
      ensures written <==> id in old(rows) && old(rows)[id].owner == Some(attempt) && old(rows)[id].finishedAt.None?
      ensures !written ==> rows == old(rows)
      ensures written ==> Rewrites(old(rows), rows, id) && IsReport(old(rows)[id], rows[id], message, progress)
    {
      written := false;
      if id in rows {
        var j := rows[id];
        if And(Equal(j.owner, Some(attempt)), NotAmong(j.status, [Completed, Failed])) == True {
          rows := rows[id := j.(status := Running, details := Reported(message),
                                progress := Progress(Coalesce(progress.step, j.progress.step),
                                                     Coalesce(progress.stepIndex, j.progress.stepIndex),
                                                     Coalesce(progress.totalSteps, j.progress.totalSteps),
                                                     Coalesce(progress.calculation, j.progress.calculation),
                                                     Coalesce(progress.travelTimes, j.progress.travelTimes)))];
          written := true;
        }
      }
    }

    // A failure that will be retried only says so: the row stays unfinished.
    method RecordFailure(id: int, errorName: string, step: Option<string>, willRetry: bool, attempt: nat, now: int)
      requires Valid()
      modifies this
      ensures Valid()
      ensures id in old(rows) && old(rows)[id].owner == Some(attempt) && old(rows)[id].finishedAt.None? ==>
                Rewrites(old(rows), rows, id) && IsFailure(old(rows)[id], rows[id], errorName, step, willRetry, now)
      ensures !(id in old(rows) && old(rows)[id].owner == Some(attempt) && old(rows)[id].finishedAt.None?) ==>
                rows == old(rows)
    {
      if id in rows {
        var j := rows[id];
        if And(Equal(j.owner, Some(attempt)), NotAmong(j.status, [Completed, Failed])) == True {
          if willRetry {
            rows := rows[id := j.(details := RetryingAfter(errorName))];
          } else {
            rows := rows[id := j.(status := Failed, details := PipelineFailed,
                                  error := Some(PublicError(errorName, step)), finishedAt := Some(now))];
          }
        }
      }
    }

    method CompleteJob(id: int, outcome: Outcome, attempt: nat, now: int) returns (written: bool)
      requires Valid()
      modifies this
      ensures Valid()
      ensures written <==> id in old(rows) && old(rows)[id].owner == Some(attempt) && old(rows)[id].finishedAt.None?
      ensures !written ==> rows == old(rows)
      ensures written ==> Rewrites(old(rows), rows, id) && IsCompletion(old(rows)[id], rows[id], outcome, now)
    {
      written := false;
      if id in rows {
        var j := rows[id];
        if And(Equal(j.owner, Some(attempt)), NotAmong(j.status, [Completed, Failed])) == True {
          rows := rows[id := j.(status := Completed, details := CompletedSuccessfully,
                                progress := j.progress.(calculation := Some(outcome.calculation),
                                                        travelTimes := Some(outcome.travelTimes)),
                                outputs := outcome.outputs, location := Some(outcome.location), error := None,
                                finishedAt := Some(now))];
          written := true;
        }
      }
    }

    // One row of a reconciliation pass, joined with the queue row the pass read.
    method ReconcileRow(id: int, q: QueueRow, cutoff: int, now: int) returns (failed: bool)
      requires Valid() && id in rows
      modifies this
      ensures Valid()
      ensures failed <==> (q.state == GaveUp || q.state == Cancelled) && q.finishedAt.Some? && q.finishedAt.value < cutoff
                          && old(rows)[id].finishedAt.None?
                          && (old(rows)[id].owner.None? || old(rows)[id].owner.value <= q.attempt)
      ensures !failed ==> rows == old(rows)
      ensures failed ==> Rewrites(old(rows), rows, id) && IsReconciled(old(rows)[id], rows[id], q, now)
    {
      var j := rows[id];
      var gaveUp := And(Among(q.state, [GaveUp, Cancelled]), Below(q.finishedAt, Some(cutoff)));
      var where := And(NotAmong(j.status, [Completed, Failed]), Or(IsNull(j.owner), AtMost(j.owner, Some(q.attempt))));
      failed := And(gaveUp, where) == True;
      if failed {
        var owned := Coalesce(j.owner, Some(0));
        rows := rows[id := j.(status := Failed, details := ReconciledFromQueue,
                              error := Some(StoppedSilently(q.WhyGivenUp())),
                              finishedAt := Coalesce(Coalesce(j.finishedAt, q.finishedAt), Some(now)),
                              owner := Some(Greatest(owned.value, q.attempt)))];
      }
    }

    // A pass with nothing running beside it, over the rows in any order, fails exactly the
    // rows it should and leaves the others alone.
    method ReconcileTerminalJobs(queue: map<int, QueueRow>, cutoff: int, now: int) returns (ids: set<int>)
      requires Valid()
      modifies this
      ensures Valid() && Passing(old(rows), rows, queue, cutoff, now, {}, ids)
      ensures rows == ReconciledTable(old(rows), queue, cutoff, now) && ids == ReconciledIds(old(rows), queue, cutoff)
    {
      ids := {};
      var left := rows.Keys;
      ghost var before := rows;
      while left != {}
        invariant Valid() && Passing(before, rows, queue, cutoff, now, left, ids)
        decreases left
      {
        ghost var was := rows;
        ghost var any := Member(left);
        var id :| id in left;
        assert id !in ids && rows[id] == before[id];
        if id in queue {
          var failed := ReconcileRow(id, queue[id], cutoff, now);
          ids := if failed then ids + {id} else ids;
        }
        PassingMoves(before, was, queue, cutoff, now, left, ids - {id}, id, rows);
        left := left - {id};
      }
      FactsMakeTable(before, rows, queue, cutoff, now, ids);
    }

    method MarkOutputsExpired(id: int, now: int) returns (stamped: bool)
      requires Valid()
      modifies this
      ensures Valid()
      ensures stamped <==> id in old(rows) && old(rows)[id].status == Completed && old(rows)[id].expiredAt.None?
      ensures !stamped ==> rows == old(rows)
      ensures stamped ==> Rewrites(old(rows), rows, id) && IsExpiry(old(rows)[id], rows[id], now)
    {
      stamped := false;
      if id in rows {
        var j := rows[id];
        if And(Among(j.status, [Completed]), IsNull(j.expiredAt)) == True {
          rows := rows[id := j.(outputs := [], expiredAt := Some(now))];
          stamped := true;
        }
      }
    }
  }

  // Asking again for the same simulation with the same input finds the row just made, and
  // with another input is refused; neither adds a row.
  method SubmitTwice(table: JobTable, simulation: string, input: string, other: string, id: int, next: int)
    returns (first: Submission, again: Submission)
    requires table.Valid() && id !in table.rows && next !in table.rows && id != next
    requires !Known(table.rows, simulation)
    modifies table
    ensures first.Created? && table.rows == old(table.rows)[id := first.row]
    ensures other == input ==> again == Existing(first.row)
    ensures other != input ==> again == DifferentInput
  {
    first := table.CreateOrGet(simulation, input, id);
    assert id in table.rows && table.rows[id].simulation == simulation;
    again := table.CreateOrGet(simulation, other, next);
    if again.Existing? {
      ghost var b :| b in table.rows && table.rows[b] == again.row;
      assert b == id;
    }
  }

  // ---------- A pass converges ----------

  // With every owner at most its queue row's attempt, a pass leaves no unfinished row
  // under a queue row that gave up before the cutoff, and touches nothing else.
  lemma PassConverges(rows: map<int, Row>, queue: map<int, QueueRow>, cutoff: int, now: int)
    requires forall id :: id in rows && id in queue && rows[id].owner.Some? ==> rows[id].owner.value <= queue[id].attempt
    ensures var after := ReconciledTable(rows, queue, cutoff, now);
            && after.Keys == rows.Keys
            && (forall id :: id in after && id in queue && queue[id].Abandoned(cutoff) ==> after[id].status.Terminal())
            && (forall id :: id in rows && (id !in queue || !queue[id].Abandoned(cutoff) || rows[id].status.Terminal()) ==>
                  after[id] == rows[id])
  {
  }

  // Repeating a pass, at no later a cutoff and whatever the clock, changes nothing.
  lemma SecondPassIsIdle(rows: map<int, Row>, queue: map<int, QueueRow>, cutoff: int, now: int,
                         cutoff': int, now': int)
    requires cutoff' <= cutoff
    ensures ReconciledTable(ReconciledTable(rows, queue, cutoff, now), queue, cutoff', now')
            == ReconciledTable(rows, queue, cutoff, now)
    ensures ReconciledIds(ReconciledTable(rows, queue, cutoff, now), queue, cutoff') == {}
  {
    var after := ReconciledTable(rows, queue, cutoff, now);
    forall id | id in after && id in queue && queue[id].Abandoned(cutoff')
      ensures !Reconcilable(after[id], queue[id])
    {
      assert queue[id].Abandoned(cutoff);
    }
    assert ReconciledTable(after, queue, cutoff', now') == after;
  }
}
