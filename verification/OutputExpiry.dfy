// Deleting the stored files of old completed jobs: files first, then the row is
// stamped. A pass may die between any two of its steps, and passes may overlap.
module OutputExpiry {
  import opened Wrappers
  import opened Collections
  import opened JobRows

  // Completed before the cutoff and not stamped yet.
  predicate Due(rows: map<int, Row>, id: int, cutoff: int) {
    id in rows && Expirable(rows[id]) && rows[id].finishedAt.Some? && rows[id].finishedAt.value < cutoff
  }

  // In the table's own columns.
  predicate IsOld(rows: map<int, Row>, id: int, cutoff: int) {
    && id in rows && rows[id].status == Completed && rows[id].expiredAt.None?
    && rows[id].finishedAt.Some? && rows[id].finishedAt.value < cutoff
  }

  function AllDue(rows: map<int, Row>, cutoff: int): set<int> {
    set id | id in rows && Due(rows, id, cutoff)
  }

  // The rows before, with just `ids` stamped.
  function Stamped(before: map<int, Row>, ids: set<int>, now: int): map<int, Row> {
    map id | id in before :: if id in ids then Expired(before[id], now) else before[id]
  }

  // No stamped row has stored files.
  ghost predicate NothingOrphaned(rows: map<int, Row>, stored: set<int>) {
    forall id :: id in rows && rows[id].expiredAt.Some? ==> id !in stored
  }

  // The object store, by the jobs it holds files of.
  class OutputStore {
    var stored: set<int>

    constructor (stored: set<int>)
      ensures this.stored == stored
    {
      this.stored := stored;
    }

    // Deleting nothing is not an error.
    method DeleteOutputs(id: int)
      modifies this
      ensures stored == old(stored) - {id}
    {
      stored := stored - {id};
    }
  }

  // ---------- Listing ----------

  function FinishTime(rows: map<int, Row>, id: int): int {
    if id in rows && rows[id].finishedAt.Some? then rows[id].finishedAt.value else 0
  }

  predicate FinishedBy(rows: map<int, Row>, a: int, b: int) {
    FinishTime(rows, a) <= FinishTime(rows, b)
  }

  lemma {:induction false} EarliestExists(rows: map<int, Row>, ids: set<int>) returns (first: int)
    requires ids != {}
    ensures first in ids && forall id :: id in ids ==> FinishedBy(rows, first, id)
    decreases ids
  {
    assert (forall id :: id !in ids) ==> ids == {};
    var one :| one in ids;
    first := one;
    if ids != {one} {
      var next := EarliestExists(rows, ids - {one});
      if FinishedBy(rows, next, one) {
        first := next;
      }
      assert forall id :: id in ids ==> id == one || id in ids - {one};
    }
  }

  // The oldest `limit` due jobs in the order they finished.
  method ListDue(rows: map<int, Row>, cutoff: int, limit: nat) returns (ids: seq<int>)
    ensures forall i :: 0 <= i < |ids| ==> Due(rows, ids[i], cutoff) && IsOld(rows, ids[i], cutoff)
    ensures forall i, j :: 0 <= i < j < |ids| ==>
              ids[i] != ids[j] && IsOld(rows, ids[i], cutoff) && IsOld(rows, ids[j], cutoff)
              && rows[ids[i]].finishedAt.value <= rows[ids[j]].finishedAt.value
    ensures |ids| < limit ==> forall id :: IsOld(rows, id, cutoff) ==> id in ids
    ensures |ids| <= limit
    ensures |ids| < limit ==> forall id :: Due(rows, id, cutoff) ==> id in ids
    ensures forall i, id :: 0 <= i < |ids| && Due(rows, id, cutoff) && id !in ids ==> FinishedBy(rows, ids[i], id)
  {
    ids := [];
    var left := AllDue(rows, cutoff);
    while left != {} && |ids| < limit
      invariant |ids| <= limit
      invariant forall id :: id in left <==> Due(rows, id, cutoff) && id !in ids
      invariant forall i :: 0 <= i < |ids| ==> Due(rows, ids[i], cutoff)
      invariant forall i, j :: 0 <= i < j < |ids| ==> ids[i] != ids[j] && FinishedBy(rows, ids[i], ids[j])
      invariant forall i, id :: 0 <= i < |ids| && id in left ==> FinishedBy(rows, ids[i], id)
      decreases left
    {
      ghost var earliest := EarliestExists(rows, left);
      var next :| next in left && forall id :: id in left ==> FinishedBy(rows, next, id);
      ids := ids + [next];
      left := left - {next};
    }
  }

  // ---------- One pass ----------

  // How far a pass has come: exactly `ids` were stamped, all of them due at its start,
  // and files are missing only of jobs that were due.
  ghost predicate PassSoFar(rows0: map<int, Row>, stored0: set<int>, rows: map<int, Row>, stored: set<int>,
                            cutoff: int, now: int, ids: set<int>) {
    && ids <= AllDue(rows0, cutoff) && rows == Stamped(rows0, ids, now)
    && stored <= stored0 && stored0 - stored <= AllDue(rows0, cutoff)
    && NothingOrphaned(rows, stored)
  }

  lemma StampMoves(rows0: map<int, Row>, stored0: set<int>, rows: map<int, Row>, stored: set<int>,
                   cutoff: int, now: int, ids: set<int>, id: int)
    requires PassSoFar(rows0, stored0, rows, stored, cutoff, now, ids) && Due(rows0, id, cutoff) && id !in ids
    ensures Due(rows, id, cutoff)
    ensures PassSoFar(rows0, stored0, rows, stored - {id}, cutoff, now, ids)
    ensures PassSoFar(rows0, stored0, rows[id := Expired(rows[id], now)], stored - {id}, cutoff, now, ids + {id})
  {
  }

  // What is still due is what was due and is not stamped.
  lemma DueShrinks(rows0: map<int, Row>, rows: map<int, Row>, cutoff: int, now: int, ids: set<int>)
    requires ids <= AllDue(rows0, cutoff) && rows == Stamped(rows0, ids, now)
    ensures AllDue(rows, cutoff) == AllDue(rows0, cutoff) - ids
  {
  }

  // In the table's columns: what a pass stamped was old, is stamped at its time and has no
  // files, and once nothing is due nothing is old.
  lemma PassIsSeen(rows0: map<int, Row>, stored0: set<int>, rows: map<int, Row>, stored: set<int>, cutoff: int, now: int,
                   ids: set<int>)
    requires PassSoFar(rows0, stored0, rows, stored, cutoff, now, ids)
    ensures forall id :: id in ids ==> IsOld(rows0, id, cutoff) && IsStamped(rows, stored, id, now)
    ensures AllDue(rows, cutoff) == {} ==> forall id :: !IsOld(rows, id, cutoff)
  {
    if AllDue(rows, cutoff) == {} {
      forall id
        ensures !IsOld(rows, id, cutoff)
      {
        assert id !in AllDue(rows, cutoff);
      }
    }
  }

  predicate IsStamped(rows: map<int, Row>, stored: set<int>, id: int, now: int) {
    id in rows && rows[id].expiredAt == Some(now) && rows[id].outputs == [] && id !in stored
  }

  // The steps a pass still has before it dies.
  datatype Life = Life(left: nat) {
    predicate Over() {
      left == 0
    }

    function Spent(): Life
      requires !Over()
    {
      Life(left - 1)
    }
  }

  // Deletes one job's files and stamps it, as far as the pass lives.
  method ExpireOne(table: JobTable, store: OutputStore, id: int, now: int, life: Life, ghost cutoff: int,
                   ghost rows0: map<int, Row>, ghost stored0: set<int>, ghost ids: set<int>)
    returns (stamped: bool, rest: Life, alive: bool)
    requires table.Valid() && PassSoFar(rows0, stored0, table.rows, store.stored, cutoff, now, ids)
    requires Due(rows0, id, cutoff) && id !in ids
    modifies table, store
    ensures table.Valid() && (alive <==> stamped) && (alive <==> 2 <= life.left)
    ensures alive ==> rest.left == life.left - 2
    ensures PassSoFar(rows0, stored0, table.rows, store.stored, cutoff, now, if alive then ids + {id} else ids)
  {
    StampMoves(rows0, stored0, table.rows, store.stored, cutoff, now, ids, id);
    stamped, rest, alive := false, life, false;
    if rest.Over() {
      return;
    }
    store.DeleteOutputs(id);
    rest := rest.Spent();
    if rest.Over() {
      return;
    }
    rest := rest.Spent();
    ghost var was := table.rows;
    stamped := table.MarkOutputsExpired(id, now);
    FactsMakeExpired(was, table.rows, id, now);
    alive := true;
  }

  // Distinct jobs that were due when the pass began and are not stamped.
  ghost predicate Fits(rows0: map<int, Row>, cutoff: int, before: set<int>, listed: seq<int>) {
    && (forall i :: 0 <= i < |listed| ==> Due(rows0, listed[i], cutoff) && listed[i] !in before)
    && (forall i, j :: 0 <= i < j < |listed| ==> listed[i] != listed[j])
  }

  // The jobs stamped once the first `i` of the list are.
  ghost function Upto(before: set<int>, listed: seq<int>, i: nat): set<int>
    requires i <= |listed|
  {
    if i == 0 then before else Upto(before, listed, i - 1) + {listed[i - 1]}
  }

  lemma {:induction false} UptoHas(before: set<int>, listed: seq<int>, i: nat, id: int)
    requires i <= |listed|
    ensures id in Upto(before, listed, i) <==> id in before || exists k :: 0 <= k < i && listed[k] == id
  {
    if i == 0 {
    } else {
      UptoHas(before, listed, i - 1, id);
    }
  }

  lemma {:induction false} UptoGrows(rows0: map<int, Row>, cutoff: int, before: set<int>, listed: seq<int>, i: nat)
    requires Fits(rows0, cutoff, before, listed) && i <= |listed|
    ensures |Upto(before, listed, i)| == |before| + i
    ensures i < |listed| ==> Due(rows0, listed[i], cutoff) && listed[i] !in Upto(before, listed, i)
  {
    if i == 0 {
    } else {
      UptoGrows(rows0, cutoff, before, listed, i - 1);
    }
    if i < |listed| {
      UptoHas(before, listed, i, listed[i]);
    }
  }

  // Deletes the files of the jobs listed, each followed by its stamp, as far as the
  // pass lives: two steps for each job.
  method ExpireListed(table: JobTable, store: OutputStore, listed: seq<int>, now: int, life: Life, ghost cutoff: int,
                      ghost rows0: map<int, Row>, ghost stored0: set<int>, ghost before: set<int>)
    returns (expired: nat, rest: Life, alive: bool)
    requires table.Valid() && PassSoFar(rows0, stored0, table.rows, store.stored, cutoff, now, before)
    requires Fits(rows0, cutoff, before, listed)
    modifies table, store
    ensures expired <= |listed| && table.Valid()
    ensures PassSoFar(rows0, stored0, table.rows, store.stored, cutoff, now, Upto(before, listed, expired))
    ensures alive <==> 2 * |listed| <= life.left
    ensures alive ==> expired == |listed| && rest.left == life.left - 2 * |listed|
    ensures !alive ==> expired == life.left / 2
  {
    expired, rest, alive := 0, life, true;
    for i := 0 to |listed|
      invariant table.Valid()
      invariant PassSoFar(rows0, stored0, table.rows, store.stored, cutoff, now, Upto(before, listed, i))
      invariant alive && expired == i && rest.left == life.left - 2 * i
    {
      UptoGrows(rows0, cutoff, before, listed, i);
      var stamped;
      stamped, rest, alive := ExpireOne(table, store, listed[i], now, rest, cutoff, rows0, stored0,
                                        Upto(before, listed, i));
      if !alive {
        return;
      }
      if stamped {
        expired := expired + 1;
      }
    }
  }

  // Distinct due jobs, none of them stamped, are no more than the due jobs not stamped.
  lemma {:induction false} ListedFit(rows0: map<int, Row>, cutoff: int, before: set<int>, listed: seq<int>, i: nat)
    requires Fits(rows0, cutoff, before, listed) && before <= AllDue(rows0, cutoff) && i <= |listed|
    ensures Upto(before, listed, i) <= AllDue(rows0, cutoff)
    ensures |Upto(before, listed, i)| == |before| + i <= |AllDue(rows0, cutoff)|
  {
    UptoGrows(rows0, cutoff, before, listed, i);
    if i == 0 {
    } else {
      ListedFit(rows0, cutoff, before, listed, i - 1);
    }
    SubsetIsNoLarger(Upto(before, listed, i), AllDue(rows0, cutoff));
  }

  // A list of what is due now fits, and with all of a short list stamped nothing is due.
  lemma ListFits(rows0: map<int, Row>, rows: map<int, Row>, cutoff: int, now: int, ids: set<int>, listed: seq<int>)
    requires ids <= AllDue(rows0, cutoff) && rows == Stamped(rows0, ids, now)
    requires forall i :: 0 <= i < |listed| ==> Due(rows, listed[i], cutoff)
    requires forall i, j :: 0 <= i < j < |listed| ==> listed[i] != listed[j]
    ensures Fits(rows0, cutoff, ids, listed)
    ensures (forall id :: Due(rows, id, cutoff) ==> id in listed) ==>
              AllDue(rows0, cutoff) <= Upto(ids, listed, |listed|)
  {
    DueShrinks(rows0, rows, cutoff, now, ids);
    forall i | 0 <= i < |listed|
      ensures Due(rows0, listed[i], cutoff) && listed[i] !in ids
    {
      assert listed[i] in AllDue(rows, cutoff);
    }
    if forall id :: Due(rows, id, cutoff) ==> id in listed {
      forall id | id in AllDue(rows0, cutoff)
        ensures id in Upto(ids, listed, |listed|)
      {
        UptoHas(ids, listed, |listed|, id);
        assert id in ids || id in AllDue(rows, cutoff);
      }
    }
  }

  // Lists a batch and expires it until a batch comes short.
  method ExpireBatches(table: JobTable, store: OutputStore, cutoff: int, batch: nat, now: int, life: Life)
    returns (expired: nat, done: bool, ghost ids: set<int>)
    requires 1 <= batch && table.Valid() && NothingOrphaned(table.rows, store.stored)
    modifies table, store
    ensures table.Valid()
    ensures PassSoFar(old(table.rows), old(store.stored), table.rows, store.stored, cutoff, now, ids)
    ensures expired == |ids|
    ensures done ==> ids == AllDue(old(table.rows), cutoff) && AllDue(table.rows, cutoff) == {}
    ensures done <==> 2 * |AllDue(old(table.rows), cutoff)| <= life.left
    ensures !done ==> expired == life.left / 2
  {
    expired, done, ids := 0, false, {};
    var rest := life;
    ghost var rows0, stored0 := table.rows, store.stored;
    while true
      invariant table.Valid() && PassSoFar(rows0, stored0, table.rows, store.stored, cutoff, now, ids)
      invariant expired == |ids| && rest.left == life.left - 2 * expired
      decreases |AllDue(rows0, cutoff)| - expired
    {
      var listed := ListDue(table.rows, cutoff, batch);
      ListFits(rows0, table.rows, cutoff, now, ids, listed);
      ListedFit(rows0, cutoff, ids, listed, |listed|);
      var more, alive;
      more, rest, alive := ExpireListed(table, store, listed, now, rest, cutoff, rows0, stored0, ids);
      ListedFit(rows0, cutoff, ids, listed, more);
      ids := Upto(ids, listed, more);
      expired := expired + more;
      if !alive {
        return;
      }
      if |listed| < batch {
        DueShrinks(rows0, table.rows, cutoff, now, ids);
        done := true;
        return;
      }
    }
  }

  // One pass: lists a batch and expires it until a batch comes short. Each job costs two
  // steps, so a pass ends exactly when it lives for two steps a due job, and one that
  // dies earlier has stamped one job for every two steps it lived.
  method ExpireOldOutputs(table: JobTable, store: OutputStore, cutoff: int, batch: nat, now: int, life: Life)
    returns (expired: nat, done: bool, ghost ids: set<int>)
    requires 1 <= batch && table.Valid() && NothingOrphaned(table.rows, store.stored)
    modifies table, store
    ensures table.Valid()
    ensures PassSoFar(old(table.rows), old(store.stored), table.rows, store.stored, cutoff, now, ids)
    ensures expired == |ids|
    ensures done ==> ids == AllDue(old(table.rows), cutoff) && AllDue(table.rows, cutoff) == {}
    ensures done ==> forall id :: !IsOld(table.rows, id, cutoff)
    ensures forall id :: id in ids ==> IsOld(old(table.rows), id, cutoff) && IsStamped(table.rows, store.stored, id, now)
    ensures done <==> 2 * |AllDue(old(table.rows), cutoff)| <= life.left
    ensures !done ==> expired == life.left / 2
  {
    ghost var rows0, stored0 := table.rows, store.stored;
    expired, done, ids := ExpireBatches(table, store, cutoff, batch, now, life);
    PassIsSeen(rows0, stored0, table.rows, store.stored, cutoff, now, ids);
  }

  // A second pass at the same cutoff stamps nothing and changes no row.
  lemma RepeatIsIdle(rows0: map<int, Row>, stored0: set<int>, rows: map<int, Row>, stored: set<int>,
                     cutoff: int, now: int, ids: set<int>)
    requires AllDue(rows0, cutoff) == {} && PassSoFar(rows0, stored0, rows, stored, cutoff, now, ids)
    ensures ids == {} && rows == rows0 && stored == stored0
  {
    assert ids == {};
    assert forall id :: id in rows0 ==> rows[id] == rows0[id];
    assert rows == rows0;
    assert forall id :: id in stored0 ==> id in stored || id in stored0 - stored;
  }

  // ---------- Overlapping passes ----------

  // Any number of passes, each having listed and deleted what it has so far; an attempt
  // uploads before it completes its row.
  datatype Store = Store(rows: map<int, Row>, stored: set<int>, listed: set<int>, deleted: set<int>)

  datatype Move =
    | Upload(id: int)
    | RowBecomes(id: int, row: Row)
    | List(id: int, cutoff: int)
    | Delete(id: int)
    | Stamp(id: int, now: int)

  // No upload comes for a completed row; a row moves as its attempts and passes may
  // move it, which never leaves `completed`, never stamps, and never unstamps.
  predicate Possible(s: Store, m: Move) {
    match m
    case Upload(id) => id in s.rows && s.rows[id].status != Completed
    case RowBecomes(id, row) =>
      && (id in s.rows ==> s.rows[id].status != Completed)
      && row.expiredAt.None?
    case List(id, cutoff) => Due(s.rows, id, cutoff)
    case Delete(id) => id in s.listed
    case Stamp(id, _) => id in s.deleted
  }

  function After(s: Store, m: Move): Store
    requires Possible(s, m)
  {
    match m
    case Upload(id) => s.(stored := s.stored + {id})
    case RowBecomes(id, row) => s.(rows := s.rows[id := row])
    case List(id, _) => s.(listed := s.listed + {id})
    case Delete(id) => s.(stored := s.stored - {id}, deleted := s.deleted + {id})
    case Stamp(id, now) =>
      if id in s.rows && Expirable(s.rows[id]) then s.(rows := s.rows[id := Expired(s.rows[id], now)]) else s
  }

  ghost predicate Consistent(s: Store) {
    && NothingOrphaned(s.rows, s.stored)
    && (forall id :: id in s.listed ==> id in s.rows && s.rows[id].status == Completed)
    && (forall id :: id in s.deleted ==> id in s.listed && id !in s.stored)
    && (forall id :: id in s.rows && s.rows[id].expiredAt.Some? ==> s.rows[id].status == Completed)
  }

  ghost predicate IsStoreRun(ss: seq<Store>, ms: seq<Move>) {
    && |ss| == |ms| + 1
    && forall i {:trigger ms[i]} :: 0 <= i < |ms| ==> Possible(ss[i], ms[i]) && ss[i + 1] == After(ss[i], ms[i])
  }

  lemma StepStaysConsistent(s: Store, m: Move)
    requires Consistent(s) && Possible(s, m)
    ensures Consistent(After(s, m))
  {
  }

  // Wherever overlapping passes stop, a stamped row has no files left, and a completed
  // row that still has files is found by a pass that comes later.
  lemma {:induction false} FilesAreNeverOrphaned(ss: seq<Store>, ms: seq<Move>, i: nat, id: int, cutoff: int)
    requires IsStoreRun(ss, ms) && i < |ss| && Consistent(ss[0])
    ensures Consistent(ss[i])
    ensures id in ss[i].rows && id in ss[i].stored && ss[i].rows[id].status == Completed
            && ss[i].rows[id].finishedAt.Some? && ss[i].rows[id].finishedAt.value < cutoff ==>
              id in AllDue(ss[i].rows, cutoff)
  {
    if i == 0 {
    } else {
      FilesAreNeverOrphaned(ss, ms, i - 1, id, cutoff);
      StepStaysConsistent(ss[i - 1], ms[i - 1]);
    }
  }
}
