// The job protocol as a state machine: attempts, operator retries, redelivery and
// reconciliation passes interleave freely over the job rows and the queue rows.
// The queue is an environment: it may do anything but lower an attempt counter.
module JobProtocol {
  import opened Wrappers
  import opened JobRows

  // What a pass in flight read of one queue row.
  datatype Snapshot = Snapshot(id: int, q: QueueRow)

  datatype World = World(rows: map<int, Row>, queue: map<int, QueueRow>, snapshots: set<Snapshot>)

  datatype Event =
    | Submit(id: int, simulation: string, input: string)
    | QueueMoves(id: int, to: QueueRow)
    | Claim(id: int, attempt: nat, now: int)
    | Report(id: int, attempt: nat, message: string, progress: Progress)
    | Retry(id: int, attempt: nat, errorName: string)
    | Fail(id: int, attempt: nat, errorName: string, step: Option<string>, now: int)
    | Complete(id: int, attempt: nat, outcome: Outcome, now: int)
    | PassReads(id: int, cutoff: int)
    | PassUpdates(s: Snapshot, now: int)
    | Expire(id: int, now: int)

  // An attempt acts only after the queue handed it out; it may act at any later time,
  // however stale. A pass may apply what it read at any later time.
  predicate Enabled(w: World, e: Event) {
    match e
    case Submit(id, _, _) => id !in w.rows && id !in w.queue
    case QueueMoves(id, to) => id in w.queue && w.queue[id].attempt <= to.attempt
    case Claim(id, a, _) => HandedOut(w, id, a)
    case Report(id, a, _, _) => HandedOut(w, id, a)
    case Retry(id, a, _) => HandedOut(w, id, a)
    case Fail(id, a, _, _, _) => HandedOut(w, id, a)
    case Complete(id, a, _, _) => HandedOut(w, id, a)
    case PassReads(id, cutoff) => id in w.queue && w.queue[id].Abandoned(cutoff)
    case PassUpdates(s, _) => s in w.snapshots
    case Expire(id, _) => id in w.rows
  }

  predicate HandedOut(w: World, id: int, attempt: nat) {
    id in w.rows && id in w.queue && 1 <= attempt <= w.queue[id].attempt
  }

  function Apply(w: World, e: Event): World
    requires Enabled(w, e)
  {
    match e
    case Submit(id, simulation, input) =>
      if Known(w.rows, simulation) then w
      else w.(rows := w.rows[id := Inserted(simulation, input)], queue := w.queue[id := QueueRow(Pending, 0, None, None)])
    case QueueMoves(id, to) => w.(queue := w.queue[id := to])
    case PassReads(id, _) => w.(snapshots := w.snapshots + {Snapshot(id, w.queue[id])})
    case _ => var id := Target(e); if id in w.rows then w.(rows := w.rows[id := RowAfter(w.rows[id], e)]) else w
  }

  function Target(e: Event): int {
    if e.PassUpdates? then e.s.id else e.id
  }

  // What an event leaves of the row it is aimed at.
  function RowAfter(row: Row, e: Event): Row {
    match e
    case Claim(_, a, now) => if Claimable(row, a) then Claimed(row, a, now) else row
    case Report(_, a, message, progress) => if Writable(row, a) then Progressed(row, message, progress) else row
    case Retry(_, a, name) => if Writable(row, a) then Retrying(row, name) else row
    case Fail(_, a, name, step, now) => if Writable(row, a) then FailedWith(row, name, step, now) else row
    case Complete(_, a, outcome, now) => if Writable(row, a) then CompletedWith(row, outcome, now) else row
    case PassUpdates(s, now) => if Reconcilable(row, s.q) then Reconciled(row, s.q, now) else row
    case Expire(_, now) => if Expirable(row) then Expired(row, now) else row
    case _ => row
  }

  // ---------- Runs ----------

  const EMPTY: World := World(map[], map[], {})

  ghost predicate IsRun(ws: seq<World>, es: seq<Event>) {
    && |ws| == |es| + 1
    && forall i {:trigger es[i]} :: 0 <= i < |es| ==> Enabled(ws[i], es[i]) && ws[i + 1] == Apply(ws[i], es[i])
  }

  ghost predicate IsHistory(ws: seq<World>, es: seq<Event>) {
    IsRun(ws, es) && ws[0] == EMPTY
  }

  // What holds of every world a run can reach.
  ghost predicate Sound(w: World) {
    && w.rows.Keys == w.queue.Keys
    && (forall id :: id in w.rows ==> Coherent(w.rows[id]))
    && (forall id :: id in w.rows && w.rows[id].owner.Some? ==> w.rows[id].owner.value <= w.queue[id].attempt)
    && (forall s :: s in w.snapshots ==> s.id in w.queue && s.q.attempt <= w.queue[s.id].attempt)
  }

  lemma RowStaysSound(row: Row, e: Event, bound: nat)
    requires Coherent(row) && (row.owner.Some? ==> row.owner.value <= bound)
    requires (e.Claim? ==> e.attempt <= bound) && (e.PassUpdates? ==> e.s.q.attempt <= bound)
    ensures Coherent(RowAfter(row, e))
    ensures RowAfter(row, e).owner.Some? ==> RowAfter(row, e).owner.value <= bound
  {
  }

  lemma StepStaysSound(w: World, e: Event)
    requires Sound(w) && Enabled(w, e)
    ensures Sound(Apply(w, e))
  {
    if !e.Submit? && !e.QueueMoves? && !e.PassReads? {
      var id := Target(e);
      if id in w.rows {
        RowStaysSound(w.rows[id], e, w.queue[id].attempt);
      }
    }
  }

  lemma StepKeepsOneRowEach(w: World, e: Event)
    requires Enabled(w, e) && OneRowEach(w.rows)
    ensures OneRowEach(Apply(w, e).rows)
  {
    forall id | id in w.rows
      ensures id in Apply(w, e).rows && Apply(w, e).rows[id].simulation == w.rows[id].simulation
    {
    }
  }

  // Row coherence, the owner's bound and one row per simulation, in every reachable world.
  lemma {:induction false} HistoryIsSound(ws: seq<World>, es: seq<Event>, i: nat)
    requires IsHistory(ws, es) && i < |ws|
    ensures Sound(ws[i]) && OneRowEach(ws[i].rows)
  {
    if i == 0 {
    } else {
      HistoryIsSound(ws, es, i - 1);
      StepStaysSound(ws[i - 1], es[i - 1]);
      StepKeepsOneRowEach(ws[i - 1], es[i - 1]);
    }
  }

  // ---------- Fencing ----------

  predicate OwnerAtMost(a: Option<int>, b: Option<int>) {
    a.None? || (b.Some? && a.value <= b.value)
  }

  // What any stretch of a run keeps of a row: its owner never goes back, and completed
  // it keeps all but its outputs.
  predicate RowLater(before: Row, after: Row) {
    OwnerAtMost(before.owner, after.owner) && (before.status == Completed ==> Kept(before, after))
  }

  // The completed row itself, or that row with its outputs expired.
  predicate Kept(before: Row, after: Row) {
    after.(outputs := before.outputs, expiredAt := before.expiredAt) == before
    && (after.outputs == before.outputs || after.outputs == [])
  }

  ghost predicate RowsLater(before: map<int, Row>, after: map<int, Row>) {
    before.Keys <= after.Keys && forall id :: id in before ==> RowLater(before[id], after[id])
  }

  ghost predicate QueueLater(before: map<int, QueueRow>, after: map<int, QueueRow>) {
    before.Keys <= after.Keys && forall id :: id in before ==> before[id].attempt <= after[id].attempt
  }

  // No row goes, no attempt counter falls, and what a pass read it has read.
  ghost predicate Later(before: World, after: World) {
    && RowsLater(before.rows, after.rows) && QueueLater(before.queue, after.queue)
    && before.snapshots <= after.snapshots
  }

  lemma RowMovesOn(row: Row, e: Event)
    requires Coherent(row)
    ensures RowLater(row, RowAfter(row, e))
  {
  }

  lemma StepIsLater(w: World, e: Event)
    requires Sound(w) && Enabled(w, e)
    ensures Later(w, Apply(w, e))
  {
    var id := Target(e);
    if id in w.rows {
      RowMovesOn(w.rows[id], e);
    }
    RowsFollow(w, e);
    assert RowsLater(w.rows, RowsAfter(w.rows, e));
  }

  lemma RowsLaterJoin(a: map<int, Row>, b: map<int, Row>, c: map<int, Row>)
    requires RowsLater(a, b) && RowsLater(b, c)
    ensures RowsLater(a, c)
  {
    forall id | id in a
      ensures RowLater(a[id], c[id])
    {
      assert RowLater(a[id], b[id]) && RowLater(b[id], c[id]);
    }
  }

  lemma LaterJoins(a: World, b: World, c: World)
    requires Later(a, b) && Later(b, c)
    ensures Later(a, c)
  {
    RowsLaterJoin(a.rows, b.rows, c.rows);
    forall id | id in a.queue
      ensures a.queue[id].attempt <= c.queue[id].attempt
    {
      assert id in b.queue;
    }
  }

  // Over any stretch of any run, owners never go back and `completed` is never left.
  lemma {:induction false} RunOnlyMovesOn(ws: seq<World>, es: seq<Event>, i: nat, j: nat)
    requires IsHistory(ws, es) && i <= j < |ws|
    ensures Later(ws[i], ws[j])
    decreases j - i
  {
    if i == j {
    } else {
      RunOnlyMovesOn(ws, es, i, j - 1);
      HistoryIsSound(ws, es, j - 1);
      StepIsLater(ws[j - 1], es[j - 1]);
      LaterJoins(ws[i], ws[j - 1], ws[j]);
    }
  }

  // A failed row becomes anything else only by the claim of an attempt strictly newer
  // than the one that owned it.
  lemma FailedIsLeftByANewerClaim(ws: seq<World>, es: seq<Event>, i: nat, id: int)
    requires IsHistory(ws, es) && i < |es| && id in ws[i].rows
    requires ws[i].rows[id].status == Failed && id in ws[i + 1].rows && ws[i + 1].rows[id].status != Failed
    ensures es[i].Claim? && es[i].id == id && ws[i].rows[id].owner.Some? && ws[i].rows[id].owner.value < es[i].attempt
    ensures ws[i + 1].rows[id] == Claimed(ws[i].rows[id], es[i].attempt, es[i].now)
  {
    HistoryIsSound(ws, es, i);
    assert Coherent(ws[i].rows[id]);
  }

  // The attempt that makes a write, for the events that are an attempt's.
  function Writer(e: Event): Option<int> {
    match e
    case Report(_, a, _, _) => Some(a)
    case Retry(_, a, _) => Some(a)
    case Fail(_, a, _, _, _) => Some(a)
    case Complete(_, a, _, _) => Some(a)
    case _ => None
  }

  lemma StrangerWritesNothing(w: World, e: Event)
    requires Enabled(w, e) && Writer(e).Some? && e.id in w.rows
    requires w.rows[e.id].owner != Writer(e) || w.rows[e.id].status.Terminal()
    ensures Apply(w, e) == w
  {
    assert w.rows[e.id := w.rows[e.id]] == w.rows;
  }

  // Once an attempt newer than `most` owned a row, or the row was completed, no claim or
  // write by an attempt up to `most` changes anything, ever after.
  lemma SupersededWritesNothing(ws: seq<World>, es: seq<Event>, i: nat, j: nat, id: int, most: nat)
    requires IsHistory(ws, es) && i <= j < |es| && id in ws[i].rows && ActsOn(es[j], id, most)
    requires ws[i].rows[id].status == Completed || (ws[i].rows[id].owner.Some? && most < ws[i].rows[id].owner.value)
    ensures ws[j + 1] == ws[j]
  {
    RunOnlyMovesOn(ws, es, i, j);
    assert RowLater(ws[i].rows[id], ws[j].rows[id]);
    if es[j].Claim? {
      assert !Claimable(ws[j].rows[id], es[j].attempt);
      assert ws[j].rows[id := ws[j].rows[id]] == ws[j].rows;
    } else {
      StrangerWritesNothing(ws[j], es[j]);
    }
  }

  // ---------- The reconciliation race ----------

  // A pass that read the queue at an older attempt than one that has owned the row since
  // leaves the whole table alone, however late it comes to its update.
  lemma NewerOwnerIsSpared(ws: seq<World>, es: seq<Event>, i: nat, j: nat)
    requires IsHistory(ws, es) && i <= j < |es| && es[j].PassUpdates? && es[j].s.id in ws[i].rows
    requires ws[i].rows[es[j].s.id].owner.Some? && es[j].s.q.attempt < ws[i].rows[es[j].s.id].owner.value
    ensures ws[j + 1] == ws[j]
  {
    var id := es[j].s.id;
    RunOnlyMovesOn(ws, es, i, j);
    assert RowLater(ws[i].rows[id], ws[j].rows[id]);
    assert ws[j].rows[id := ws[j].rows[id]] == ws[j].rows;
  }

  ghost predicate Owns(w: World, id: int, a: nat) {
    id in w.rows && w.rows[id].status == Running && w.rows[id].owner == Some(a)
  }

  // No pass has read the queue giving up on attempt a, or on a later one.
  ghost predicate Unread(w: World, id: int, a: nat) {
    forall s :: s in w.snapshots && s.id == id ==> s.q.attempt < a
  }

  predicate EndsItself(e: Event, id: int, a: nat) {
    (e.Fail? || e.Complete?) && e.id == id && e.attempt == a
  }

  lemma OwnershipHolds(w: World, e: Event, id: int, a: nat)
    requires Sound(w) && Enabled(w, e) && Owns(w, id, a)
    requires w.queue[id].attempt == a && Unread(w, id, a) && !EndsItself(e, id, a)
    ensures Owns(Apply(w, e), id, a)
  {
    if !e.Submit? && !e.QueueMoves? && !e.PassReads? && Target(e) == id {
      assert Apply(w, e).rows[id] == RowAfter(w.rows[id], e);
    }
  }

  // While no newer attempt was leased and no pass read the queue giving up on attempt
  // a itself, nothing but a's own outcome ends its ownership: whatever passes that read
  // earlier attempts, stale threads and redeliveries do meanwhile, a's result lands.
  lemma {:induction false} LiveAttemptLands(ws: seq<World>, es: seq<Event>, i: nat, j: nat, id: int, a: nat,
                                           outcome: Outcome, now: int)
    requires IsHistory(ws, es) && i <= j < |ws| && 1 <= a && Owns(ws[i], id, a)
    requires id in ws[j].queue && ws[j].queue[id].attempt == a && Unread(ws[j], id, a)
    requires forall k :: i <= k < j ==> !EndsItself(es[k], id, a)
    ensures Owns(ws[j], id, a) && Enabled(ws[j], Complete(id, a, outcome, now))
    ensures Apply(ws[j], Complete(id, a, outcome, now)).rows[id] == CompletedWith(ws[j].rows[id], outcome, now)
    decreases j - i
  {
    HistoryIsSound(ws, es, j);
    if i == j {
    } else {
      StillUnread(ws, es, i, j, id, a);
      LiveAttemptLands(ws, es, i, j - 1, id, a, outcome, now);
      HistoryIsSound(ws, es, j - 1);
      OwnershipHolds(ws[j - 1], es[j - 1], id, a);
    }
  }

  // Looking back from such a world, the same held one step earlier.
  lemma StillUnread(ws: seq<World>, es: seq<Event>, i: nat, j: nat, id: int, a: nat)
    requires IsHistory(ws, es) && i < j < |ws| && Owns(ws[i], id, a)
    requires id in ws[j].queue && ws[j].queue[id].attempt == a && Unread(ws[j], id, a)
    ensures id in ws[j - 1].queue && ws[j - 1].queue[id].attempt == a && Unread(ws[j - 1], id, a)
  {
    HistoryIsSound(ws, es, i);
    RunOnlyMovesOn(ws, es, i, j - 1);
    RunOnlyMovesOn(ws, es, j - 1, j);
    UnreadBefore(ws[i], ws[j - 1], ws[j], id, a);
  }

  lemma UnreadBefore(first: World, w: World, last: World, id: int, a: nat)
    requires Sound(first) && Owns(first, id, a) && Later(first, w) && Later(w, last)
    requires id in last.queue && last.queue[id].attempt == a && Unread(last, id, a)
    ensures id in w.queue && w.queue[id].attempt == a && Unread(w, id, a)
  {
    assert id in first.queue && a <= first.queue[id].attempt;
  }

  // The row was failed under attempt `stamp` or has since been taken by a newer one.
  ghost predicate Stamped(w: World, id: int, stamp: nat) {
    && id in w.rows && w.rows[id].owner.Some? && stamp <= w.rows[id].owner.value
    && (w.rows[id].owner.value == stamp ==> w.rows[id].status.Terminal())
  }

  lemma PassStamps(w: World, s: Snapshot, now: int)
    requires Sound(w) && s in w.snapshots && s.id in w.rows && Reconcilable(w.rows[s.id], s.q)
    ensures Stamped(Apply(w, PassUpdates(s, now)), s.id, s.q.attempt)
    ensures Apply(w, PassUpdates(s, now)).rows[s.id].status == Failed
  {
  }

  lemma StampHolds(w: World, e: Event, id: int, stamp: nat)
    requires Sound(w) && Enabled(w, e) && Stamped(w, id, stamp)
    ensures Stamped(Apply(w, e), id, stamp)
  {
  }

  predicate ActsOn(e: Event, id: int, most: nat) {
    match e
    case Claim(i, a, _) => i == id && a <= most
    case Report(i, a, _, _) => i == id && a <= most
    case Retry(i, a, _) => i == id && a <= most
    case Fail(i, a, _, _, _) => i == id && a <= most
    case Complete(i, a, _, _) => i == id && a <= most
    case _ => false
  }

  lemma StampedRefuses(w: World, e: Event, id: int, stamp: nat)
    requires Enabled(w, e) && Stamped(w, id, stamp) && ActsOn(e, id, stamp)
    ensures Apply(w, e) == w
  {
    assert RowAfter(w.rows[id], e) == w.rows[id];
    NothingRewritten(w.rows, id);
  }

  lemma {:induction false} StampStays(ws: seq<World>, es: seq<Event>, i: nat, j: nat)
    requires IsHistory(ws, es) && i < j < |ws|
    requires es[i].PassUpdates? && es[i].s.id in ws[i].rows && Reconcilable(ws[i].rows[es[i].s.id], es[i].s.q)
    ensures Stamped(ws[j], es[i].s.id, es[i].s.q.attempt)
    decreases j
  {
    HistoryIsSound(ws, es, j - 1);
    if j == i + 1 {
      PassStamps(ws[i], es[i].s, es[i].now);
    } else {
      StampStays(ws, es, i, j - 1);
      StampHolds(ws[j - 1], es[j - 1], es[i].s.id, es[i].s.q.attempt);
    }
  }

  // Once a pass failed a row, every later claim, report, failure or completion by an
  // attempt not newer than the stamped one is refused, whatever else happens.
  lemma StampedAttemptsAreRefused(ws: seq<World>, es: seq<Event>, i: nat, j: nat)
    requires IsHistory(ws, es) && i < j < |es|
    requires es[i].PassUpdates? && es[i].s.id in ws[i].rows && Reconcilable(ws[i].rows[es[i].s.id], es[i].s.q)
    requires ActsOn(es[j], es[i].s.id, es[i].s.q.attempt)
    ensures ws[j + 1] == ws[j]
  {
    StampStays(ws, es, i, j);
    StampedRefuses(ws[j], es[j], es[i].s.id, es[i].s.q.attempt);
  }

  // An operator retry can take a failed row: the queue's next attempt is newer than
  // the row's owner, so its claim is admitted.
  lemma RetryReclaims(w: World, id: int, now: int)
    requires Sound(w) && id in w.rows && w.rows[id].status == Failed
    ensures var leased := w.(queue := w.queue[id := w.queue[id].(state := Leased, attempt := w.queue[id].attempt + 1)]);
            && Enabled(w, QueueMoves(id, leased.queue[id]))
            && Owns(Apply(leased, Claim(id, leased.queue[id].attempt, now)), id, leased.queue[id].attempt)
  {
  }

  // ---------- A pass in the machine ----------

  // In a reachable world a pass with nothing beside it leaves no unfinished row under
  // a queue row that gave up before the cutoff.
  lemma ReachablePassConverges(ws: seq<World>, es: seq<Event>, i: nat, cutoff: int, now: int)
    requires IsHistory(ws, es) && i < |ws|
    ensures forall id :: id in ws[i].rows && id in ws[i].queue && ws[i].queue[id].Abandoned(cutoff) ==>
              ReconciledTable(ws[i].rows, ws[i].queue, cutoff, now)[id].status.Terminal()
  {
    HistoryIsSound(ws, es, i);
    PassConverges(ws[i].rows, ws[i].queue, cutoff, now);
  }

  // ---------- The table takes the machine's steps ----------

  // The events that are one statement on the table.
  predicate IsStatement(rows: map<int, Row>, e: Event) {
    && !e.QueueMoves? && !e.PassReads? && (e.Submit? ==> e.id !in rows)
    && (e.PassUpdates? ==> (e.s.q.state == GaveUp || e.s.q.state == Cancelled) && e.s.q.finishedAt.Some?)
  }

  function RowsAfter(rows: map<int, Row>, e: Event): map<int, Row> {
    if e.Submit? then
      if Known(rows, e.simulation) then rows else rows[e.id := Inserted(e.simulation, e.input)]
    else if Target(e) in rows then rows[Target(e) := RowAfter(rows[Target(e)], e)] else rows
  }

  lemma RowsFollow(w: World, e: Event)
    requires Enabled(w, e)
    ensures Apply(w, e).rows == RowsAfter(w.rows, e)
  {
    if e.QueueMoves? || e.PassReads? {
      assert Target(e) in w.rows ==> w.rows[Target(e) := w.rows[Target(e)]] == w.rows;
    }
  }

  lemma NothingRewritten(rows: map<int, Row>, id: int)
    requires id in rows
    ensures rows[id := rows[id]] == rows
  {
  }

  // Each statement, as its SQL reads, does to the table what its event does to the
  // machine's rows. A pass updates from the queue row it read, whatever the queue holds
  // by then.
  method Perform(table: JobTable, e: Event)
    requires table.Valid() && IsStatement(table.rows, e)
    modifies table
    ensures table.Valid() && table.rows == RowsAfter(old(table.rows), e)
  {
    ghost var rows := table.rows;
    match e {
      case Submit(id, simulation, input) => var _ := table.CreateOrGet(simulation, input, id);
      case Claim(id, a, now) => PerformClaim(table, e);
      case Report(id, a, message, progress) => PerformReport(table, e);
      case Retry(id, a, name) => PerformFailure(table, e);
      case Fail(id, a, name, step, now) => PerformFailure(table, e);
      case Complete(id, a, outcome, now) => PerformCompletion(table, e);
      case Expire(id, now) => PerformExpiry(table, e);
      case PassUpdates(s, now) => PerformPass(table, e);
    }
  }

  method PerformClaim(table: JobTable, e: Event)
    requires table.Valid() && e.Claim?
    modifies table
    ensures table.Valid() && table.rows == RowsAfter(old(table.rows), e)
  {
    ghost var rows := table.rows;
    var claimed := table.MarkStarted(e.id, e.attempt, e.now);
    if e.id in rows {
      NothingRewritten(rows, e.id);
      if claimed {
        RewriteIsUpdate(rows, table.rows, e.id, RowAfter(rows[e.id], e));
      }
    }
  }

  method PerformReport(table: JobTable, e: Event)
    requires table.Valid() && e.Report?
    modifies table
    ensures table.Valid() && table.rows == RowsAfter(old(table.rows), e)
  {
    ghost var rows := table.rows;
    var written := table.RecordProgress(e.id, e.message, e.progress, e.attempt);
    if e.id in rows {
      NothingRewritten(rows, e.id);
      if written {
        RewriteIsUpdate(rows, table.rows, e.id, RowAfter(rows[e.id], e));
      }
    }
  }

  method PerformFailure(table: JobTable, e: Event)
    requires table.Valid() && (e.Retry? || e.Fail?)
    modifies table
    ensures table.Valid() && table.rows == RowsAfter(old(table.rows), e)
  {
    ghost var rows := table.rows;
    if e.Retry? {
      table.RecordFailure(e.id, e.errorName, None, true, e.attempt, 0);
    } else {
      table.RecordFailure(e.id, e.errorName, e.step, false, e.attempt, e.now);
    }
    if e.id in rows {
      NothingRewritten(rows, e.id);
      if Writable(rows[e.id], e.attempt) {
        RewriteIsUpdate(rows, table.rows, e.id, RowAfter(rows[e.id], e));
      }
    }
  }

  method PerformCompletion(table: JobTable, e: Event)
    requires table.Valid() && e.Complete?
    modifies table
    ensures table.Valid() && table.rows == RowsAfter(old(table.rows), e)
  {
    ghost var rows := table.rows;
    var written := table.CompleteJob(e.id, e.outcome, e.attempt, e.now);
    if e.id in rows {
      NothingRewritten(rows, e.id);
      if written {
        RewriteIsUpdate(rows, table.rows, e.id, RowAfter(rows[e.id], e));
      }
    }
  }

  method PerformExpiry(table: JobTable, e: Event)
    requires table.Valid() && e.Expire?
    modifies table
    ensures table.Valid() && table.rows == RowsAfter(old(table.rows), e)
  {
    ghost var rows := table.rows;
    var stamped := table.MarkOutputsExpired(e.id, e.now);
    if e.id in rows {
      NothingRewritten(rows, e.id);
      if stamped {
        RewriteIsUpdate(rows, table.rows, e.id, RowAfter(rows[e.id], e));
      }
    }
  }

  lemma PassOfOne(rows: map<int, Row>, id: int, q: QueueRow, cutoff: int, now: int)
    requires q.Abandoned(cutoff)
    ensures ReconciledTable(rows, map[id := q], cutoff, now) == RowsAfter(rows, PassUpdates(Snapshot(id, q), now))
  {
    if id in rows {
      NothingRewritten(rows, id);
    }
  }

  method PerformPass(table: JobTable, e: Event)
    requires table.Valid() && e.PassUpdates? && IsStatement(table.rows, e)
    modifies table
    ensures table.Valid() && table.rows == RowsAfter(old(table.rows), e)
  {
    ghost var rows := table.rows;
    var cutoff, queue := e.s.q.finishedAt.value + 1, map[e.s.id := e.s.q];
    var _ := table.ReconcileTerminalJobs(queue, cutoff, e.now);
    PassOfOne(rows, e.s.id, e.s.q, cutoff, e.now);
  }
}
