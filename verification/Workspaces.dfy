// Attempts and removers sharing one workspace through its lock file. The file is
// locked by inode, a remover unlinks it, and an open after that makes a new inode.
module Workspaces {
  import opened Wrappers
  import opened AttemptShares

  datatype Process = Attempting(id: int) | Removing(id: int)

  // A remover opens and locks the file as a claimant does; then it removes the tree,
  // unlinks the lock file and closes it.
  datatype Remover = Remover(file: File, unlinked: bool)

  // `path` is the inode the lock file's name leads to; `holders` are the flocks;
  // `next` is an inode number not used yet.
  datatype World = World(attempts: map<int, Attempt>, removers: map<int, Remover>, path: Option<nat>,
                         holders: map<nat, Process>, next: nat)

  datatype Event =
    | Begin(id: int)
    | Acts(id: int, act: Act)
    | BeginRemoval(id: int)
    | RemoverOpens(id: int)
    | RemoverLocks(id: int)
    | RemoverRefused(id: int)
    | RemoverUnlinks(id: int)
    | RemoverCloses(id: int)

  // The inode an open of the path gives.
  function Inode(w: World): nat {
    if w.path.Some? then w.path.value else w.next
  }

  function FileOf(w: World, p: Process): File {
    match p
    case Attempting(id) => if id in w.attempts then w.attempts[id].file else Shut
    case Removing(id) => if id in w.removers then w.removers[id].file else Shut
  }

  predicate Enabled(w: World, e: Event) {
    match e
    case Begin(id) => id !in w.attempts
    case Acts(id, act) =>
      && id in w.attempts && Can(w.attempts[id], act)
      && (act.Opens? ==> act.i == Inode(w))
      && (act.Locks? ==> w.attempts[id].file.i !in w.holders)
      && (act.LockRefused? ==> w.attempts[id].file.i in w.holders)
    case BeginRemoval(id) => id !in w.removers
    case RemoverOpens(id) => id in w.removers && w.removers[id].file.Unopened?
    case RemoverLocks(id) => id in w.removers && w.removers[id].file.Opened? && w.removers[id].file.i !in w.holders
    case RemoverRefused(id) => id in w.removers && w.removers[id].file.Opened? && w.removers[id].file.i in w.holders
    case RemoverUnlinks(id) => id in w.removers && w.removers[id].file.Holding? && !w.removers[id].unlinked
    case RemoverCloses(id) => id in w.removers && w.removers[id].file.Holding? && w.removers[id].unlinked
  }

  function Opening(w: World): World {
    w.(path := Some(Inode(w)), next := if w.path.Some? then w.next else w.next + 1)
  }

  function Dropped(w: World, file: File): World {
    if file.Holding? then w.(holders := w.holders - {file.i}) else w
  }

  function Apply(w: World, e: Event): World
    requires Enabled(w, e)
  {
    match e
    case Begin(id) => w.(attempts := w.attempts[id := FRESH])
    case Acts(id, act) =>
      var a := w.attempts[id];
      var moved := w.(attempts := w.attempts[id := Do(a, act)]);
      if act.Opens? then Opening(moved)
      else if act.Locks? then moved.(holders := w.holders[a.file.i := Attempting(id)])
      else if act.ClaimRaises? || act.Closes? then Dropped(moved, a.file)
      else moved
    case BeginRemoval(id) => w.(removers := w.removers[id := Remover(Unopened, false)])
    case RemoverOpens(id) => Opening(w.(removers := w.removers[id := Remover(Opened(Inode(w)), false)]))
    case RemoverLocks(id) =>
      var i := w.removers[id].file.i;
      w.(removers := w.removers[id := Remover(Holding(i), false)], holders := w.holders[i := Removing(id)])
    case RemoverRefused(id) => w.(removers := w.removers[id := Remover(Shut, false)])
    case RemoverUnlinks(id) => w.(removers := w.removers[id := w.removers[id].(unlinked := true)], path := None)
    case RemoverCloses(id) =>
      Dropped(w.(removers := w.removers[id := w.removers[id].(file := Shut)]), w.removers[id].file)
  }

  // ---------- What every step keeps ----------

  ghost predicate Sound(w: World) {
    && (forall id :: id in w.attempts ==> Accounted(w.attempts[id]))
    && TableSound(w)
  }

  // The lock table names exactly the processes that hold a lock.
  ghost predicate TableSound(w: World) {
    && (forall p :: FileOf(w, p).Holding? ==> FileOf(w, p).i in w.holders && w.holders[FileOf(w, p).i] == p)
    && (forall i :: i in w.holders ==> FileOf(w, w.holders[i]) == Holding(i))
    && (forall p :: FileOf(w, p).Opened? || FileOf(w, p).Holding? ==> FileOf(w, p).i < w.next)
    && (w.path.Some? ==> w.path.value < w.next)
  }

  // p is using the workspace or removing it.
  predicate InWorkspace(w: World, p: Process) {
    FileOf(w, p).Holding? && (p.Removing? ==> !w.removers[p.id].unlinked)
  }

  // Every file open for the workspace is the one the path leads to.
  ghost predicate Linked(w: World) {
    && (forall p :: FileOf(w, p).Opened? ==> w.path == Some(FileOf(w, p).i))
    && (forall p :: InWorkspace(w, p) ==> w.path == Some(FileOf(w, p).i))
  }

  ghost predicate Exclusive(w: World) {
    forall p, q :: InWorkspace(w, p) && InWorkspace(w, q) ==> p == q
  }

  // The hypothesis: no unlink falls between anyone's open of the file and its flock.
  ghost predicate Calm(w: World, e: Event) {
    e.RemoverUnlinks? ==> forall p :: !FileOf(w, p).Opened?
  }

  function Actor(e: Event): Process {
    match e
    case Begin(id) => Attempting(id)
    case Acts(id, _) => Attempting(id)
    case BeginRemoval(id) => Removing(id)
    case RemoverOpens(id) => Removing(id)
    case RemoverLocks(id) => Removing(id)
    case RemoverRefused(id) => Removing(id)
    case RemoverUnlinks(id) => Removing(id)
    case RemoverCloses(id) => Removing(id)
  }

  // What a step does to its actor's lock file.
  datatype Move = NoMove | OpensFile | LocksFile | GivesUp | ClosesFile | Unlinks

  function MoveOf(e: Event): Move {
    match e
    case Acts(_, act) =>
      if act.Opens? then OpensFile else if act.Locks? then LocksFile else if act.LockRefused? then GivesUp
      else if act.ClaimRaises? || act.Closes? then ClosesFile else NoMove
    case RemoverOpens(_) => OpensFile
    case RemoverLocks(_) => LocksFile
    case RemoverRefused(_) => GivesUp
    case RemoverUnlinks(_) => Unlinks
    case RemoverCloses(_) => ClosesFile
    case _ => NoMove
  }

  // The move as a relation between two worlds, whoever made it.
  ghost predicate Moved(w: World, w': World, p: Process, move: Move) {
    var before, after := FileOf(w, p), FileOf(w', p);
    && (forall q :: q != p ==> FileOf(w', q) == FileOf(w, q))
    && (forall q :: q != p ==> (InWorkspace(w', q) <==> InWorkspace(w, q)))
    && (move != LocksFile ==> InWorkspace(w', p) ==> InWorkspace(w, p))
    && (move == Unlinks ==> InWorkspace(w, p) && !InWorkspace(w', p))
    && w.next <= w'.next
    && match move
       case NoMove =>
         (after == before || (before.Shut? && after.Unopened?)) && w'.holders == w.holders && w'.path == w.path
       case OpensFile =>
         && before.Unopened? && after == Opened(Inode(w)) && Inode(w) < w'.next
         && w'.holders == w.holders && w'.path == Some(Inode(w))
       case LocksFile =>
         && before.Opened? && after == Holding(before.i) && before.i !in w.holders
         && w'.holders == w.holders[before.i := p] && w'.path == w.path
       case GivesUp => before.Opened? && after.Shut? && w'.holders == w.holders && w'.path == w.path
       case ClosesFile =>
         before.Holding? && after.Shut? && w'.holders == w.holders - {before.i} && w'.path == w.path
       case Unlinks => before.Holding? && after == before && w'.holders == w.holders && w'.path == None
  }

  // An act moves the attempt's file as its move says.
  lemma ActMovesFile(a: Attempt, act: Act)
    requires Accounted(a) && Can(a, act)
    ensures act.Opens? ==> a.file.Unopened?
    ensures act.Locks? || act.LockRefused? ==> a.file.Opened?
    ensures act.ClaimRaises? || act.Closes? ==> a.file.Holding?
    ensures Do(a, act).file ==
            if act.Opens? then Opened(act.i) else if act.Locks? then Holding(a.file.i)
            else if act.LockRefused? || act.ClaimRaises? || act.Closes? then Shut else a.file
  {
  }

  // The world once attempt `id` is in state `a`, having made a move.
  function WithAttempt(w: World, id: int, a: Attempt, move: Move): World
    requires id in w.attempts && (move.LocksFile? ==> w.attempts[id].file.Opened?)
  {
    var moved := w.(attempts := w.attempts[id := a]);
    match move
    case OpensFile => Opening(moved)
    case LocksFile => moved.(holders := w.holders[w.attempts[id].file.i := Attempting(id)])
    case ClosesFile => Dropped(moved, w.attempts[id].file)
    case _ => moved
  }

  lemma FileMoves(w: World, id: int, a: Attempt, move: Move)
    requires TableSound(w) && id in w.attempts && !move.Unlinks?
    requires move.OpensFile? ==> w.attempts[id].file.Unopened? && a.file == Opened(Inode(w))
    requires move.LocksFile? ==> w.attempts[id].file.Opened? && a.file == Holding(w.attempts[id].file.i)
    requires move.LocksFile? ==> w.attempts[id].file.i !in w.holders
    requires move.GivesUp? ==> w.attempts[id].file.Opened? && a.file.Shut?
    requires move.ClosesFile? ==> w.attempts[id].file.Holding? && a.file.Shut?
    requires move.NoMove? ==> a.file == w.attempts[id].file
    ensures Moved(w, WithAttempt(w, id, a, move), Attempting(id), move)
  {
  }

  lemma AttemptMoves(w: World, id: int, act: Act)
    requires Sound(w) && Enabled(w, Acts(id, act))
    ensures Moved(w, Apply(w, Acts(id, act)), Attempting(id), MoveOf(Acts(id, act)))
  {
    ActMovesFile(w.attempts[id], act);
    FileMoves(w, id, Do(w.attempts[id], act), MoveOf(Acts(id, act)));
    assert Apply(w, Acts(id, act)) == WithAttempt(w, id, Do(w.attempts[id], act), MoveOf(Acts(id, act)));
  }

  lemma StepMoves(w: World, e: Event)
    requires Sound(w) && Enabled(w, e)
    ensures Moved(w, Apply(w, e), Actor(e), MoveOf(e))
  {
    if e.Acts? {
      AttemptMoves(w, e.id, e.act);
    }
  }

  lemma MoveKeepsTable(w: World, w': World, p: Process, move: Move)
    requires TableSound(w) && Moved(w, w', p, move)
    ensures TableSound(w')
  {
  }

  lemma AttemptsStayAccounted(w: World, e: Event)
    requires Sound(w) && Enabled(w, e)
    ensures forall id :: id in Apply(w, e).attempts ==> Accounted(Apply(w, e).attempts[id])
  {
    var w' := Apply(w, e);
    forall id | id in w'.attempts
      ensures Accounted(w'.attempts[id])
    {
      if e.Acts? && e.id == id {
        ActKeepsAccount(w.attempts[id], e.act);
        assert w'.attempts[id] == Do(w.attempts[id], e.act);
      } else {
        assert w'.attempts[id] == (if e.Begin? && e.id == id then FRESH else w.attempts[id]);
      }
    }
  }

  lemma StepStaysSound(w: World, e: Event)
    requires Sound(w) && Enabled(w, e)
    ensures Sound(Apply(w, e))
  {
    StepMoves(w, e);
    MoveKeepsTable(w, Apply(w, e), Actor(e), MoveOf(e));
    AttemptsStayAccounted(w, e);
  }

  lemma MoveStaysLinked(w: World, w': World, p: Process, move: Move)
    requires TableSound(w) && Linked(w) && Moved(w, w', p, move)
    requires move == Unlinks ==> forall q :: !FileOf(w, q).Opened?
    ensures Linked(w')
  {
  }

  lemma StepStaysLinked(w: World, e: Event)
    requires Sound(w) && Linked(w) && Enabled(w, e) && Calm(w, e)
    ensures Sound(Apply(w, e)) && Linked(Apply(w, e))
  {
    StepMoves(w, e);
    StepStaysSound(w, e);
    MoveStaysLinked(w, Apply(w, e), Actor(e), MoveOf(e));
  }

  lemma LinkedIsExclusive(w: World)
    requires Sound(w) && Linked(w)
    ensures Exclusive(w)
  {
  }

  // ---------- Exclusion over runs ----------

  ghost predicate IsRun(ws: seq<World>, es: seq<Event>) {
    && |ws| == |es| + 1
    && forall n :: 0 <= n < |es| ==> Enabled(ws[n], es[n]) && ws[n + 1] == Apply(ws[n], es[n])
  }

  ghost predicate CalmRun(ws: seq<World>, es: seq<Event>) {
    IsRun(ws, es) && forall n :: 0 <= n < |es| ==> Calm(ws[n], es[n])
  }

  const UNTOUCHED: World := World(map[], map[], None, map[], 0)

  lemma {:induction false} CalmRunStaysLinked(ws: seq<World>, es: seq<Event>, n: nat)
    requires CalmRun(ws, es) && n < |ws| && Sound(ws[0]) && Linked(ws[0])
    ensures Sound(ws[n]) && Linked(ws[n])
  {
    if n == 0 {
    } else {
      CalmRunStaysLinked(ws, es, n - 1);
      StepStaysLinked(ws[n - 1], es[n - 1]);
    }
  }

  // At most one kernel runs, and while one does, no remover is removing the workspace or
  // unlinking its lock.
  lemma OneKernelRuns(ws: seq<World>, es: seq<Event>, n: nat, a: int, p: Process)
    requires CalmRun(ws, es) && n < |ws| && ws[0] == UNTOUCHED
    requires a in ws[n].attempts && ws[n].attempts[a].kernel.Running?
    ensures p.Attempting? && p.id in ws[n].attempts && ws[n].attempts[p.id].kernel.Running? ==> p.id == a
    ensures p.Removing? ==> !InWorkspace(ws[n], p) && !Enabled(ws[n], RemoverUnlinks(p.id))
  {
    CalmRunStaysLinked(ws, es, n);
    LinkedIsExclusive(ws[n]);
    assert Accounted(ws[n].attempts[a]) && InWorkspace(ws[n], Attempting(a));
    if p.Attempting? && p.id in ws[n].attempts && ws[n].attempts[p.id].kernel.Running? {
      assert Accounted(ws[n].attempts[p.id]) && InWorkspace(ws[n], Attempting(p.id));
    }
  }

  // ---------- Uploads ----------

  // The second hypothesis: no cancellation falls into an upload.
  ghost predicate Patient(w: World, e: Event) {
    e.Acts? && e.id in w.attempts ==> Gentle(w.attempts[e.id], e.act)
  }

  ghost predicate PatientRun(ws: seq<World>, es: seq<Event>) {
    CalmRun(ws, es) && forall n :: 0 <= n < |es| ==> Patient(ws[n], es[n])
  }

  ghost predicate AllGuarded(w: World) {
    forall id :: id in w.attempts ==> Guarded(w.attempts[id])
  }

  ghost predicate OneActive(w: World) {
    forall a, b :: a in w.attempts && b in w.attempts && Active(w.attempts[a]) && Active(w.attempts[b]) ==> a == b
  }

  lemma StepStaysGuarded(w: World, e: Event)
    requires Sound(w) && AllGuarded(w) && Enabled(w, e) && Patient(w, e)
    ensures AllGuarded(Apply(w, e))
  {
    forall id | id in Apply(w, e).attempts
      ensures Guarded(Apply(w, e).attempts[id])
    {
      if e.Acts? && e.id == id {
        GentleActKeepsGuard(w.attempts[id], e.act);
        assert Apply(w, e).attempts[id] == Do(w.attempts[id], e.act);
      } else {
        assert Apply(w, e).attempts[id] == (if e.Begin? && e.id == id then FRESH else w.attempts[id]);
      }
    }
  }

  lemma {:induction false} PatientRunStaysGuarded(ws: seq<World>, es: seq<Event>, n: nat)
    requires PatientRun(ws, es) && n < |ws| && Sound(ws[0]) && Linked(ws[0]) && AllGuarded(ws[0])
    ensures Sound(ws[n]) && Linked(ws[n]) && AllGuarded(ws[n])
    decreases n
  {
    CalmRunStaysLinked(ws, es, n);
    if n == 0 {
    } else {
      PatientRunStaysGuarded(ws, es, n - 1);
      StepStaysGuarded(ws[n - 1], es[n - 1]);
    }
  }

  lemma GuardedIsOneActive(w: World)
    requires Sound(w) && Linked(w) && AllGuarded(w)
    ensures OneActive(w)
    ensures forall a, r :: a in w.attempts && Active(w.attempts[a]) ==> !InWorkspace(w, Removing(r))
  {
    LinkedIsExclusive(w);
    forall a | a in w.attempts && Active(w.attempts[a])
      ensures InWorkspace(w, Attempting(a))
    {
      GuardedIsCovered(w.attempts[a]);
    }
  }

  // With both hypotheses at most one attempt's kernel or upload is active, and while one
  // is, no remover is removing the workspace or unlinking its lock.
  lemma OneAttemptIsActive(ws: seq<World>, es: seq<Event>, n: nat, a: int, r: int)
    requires PatientRun(ws, es) && n < |ws| && ws[0] == UNTOUCHED
    ensures OneActive(ws[n])
    ensures a in ws[n].attempts && Active(ws[n].attempts[a]) ==>
              !InWorkspace(ws[n], Removing(r)) && !Enabled(ws[n], RemoverUnlinks(r))
  {
    PatientRunStaysGuarded(ws, es, n);
    GuardedIsOneActive(ws[n]);
  }

  // Whatever patiently follows, at most one attempt is ever active.
  ghost predicate StaysSolitary(w: World) {
    forall ws, es :: PatientRun(ws, es) && ws[0] == w ==> OneActive(ws[|es|])
  }

  // An attempt that has locked inode i, and one whose kernel runs.
  function Entered(i: nat): Attempt {
    Attempt(Holding(i), Pending, Waiting, Idle, NoUpload, NoDrain, false, false, 0, false, 0)
  }

  function RunningKernel(i: nat): Attempt {
    Attempt(Holding(i), Given, AwaitingKernel, Running, NoUpload, NoDrain, false, true, 2, false, 0)
  }

  lemma NewcomerClaims(w: World, b: int, i: nat) returns (ws: seq<World>, es: seq<Event>)
    requires w.path == Some(i) && i !in w.holders && b !in w.attempts
    ensures PatientRun(ws, es) && ws[0] == w
    ensures ws[|es|] == w.(attempts := w.attempts[b := Entered(i)], holders := w.holders[i := Attempting(b)])
  {
    var w1 := Apply(w, Begin(b));
    var w2 := Apply(w1, Acts(b, Opens(i)));
    assert w2 == w.(attempts := w.attempts[b := FRESH.(file := Opened(i))]);
    var w3 := Apply(w2, Acts(b, Locks));
    ws, es := [w, w1, w2, w3], [Begin(b), Acts(b, Opens(i)), Acts(b, Locks)];
  }

  lemma ClaimantRuns(w: World, b: int, i: nat) returns (ws: seq<World>, es: seq<Event>)
    requires b in w.attempts && w.attempts[b] == Entered(i)
    ensures PatientRun(ws, es) && ws[0] == w
    ensures ws[|es|].attempts.Keys == w.attempts.Keys && ws[|es|].attempts[b] == RunningKernel(i)
    ensures forall id :: id in w.attempts && id != b ==> ws[|es|].attempts[id] == w.attempts[id]
  {
    var w1 := Apply(w, Acts(b, ClaimReturns));
    var w2 := Apply(w1, Acts(b, Receives));
    var w3 := Apply(w2, Acts(b, KernelStarts));
    ws, es := [w, w1, w2, w3], [Acts(b, ClaimReturns), Acts(b, Receives), Acts(b, KernelStarts)];
  }

  // The coroutine of an upload that was cancelled gives its lock back.
  lemma CancelledGivesUp(w: World, a: int) returns (ws: seq<World>, es: seq<Event>)
    requires Sound(w) && Linked(w) && a in w.attempts && w.attempts[a].upload.Reading? && w.attempts[a].co == Owing(1)
    requires w.attempts[a].shares == 1
    ensures PatientRun(ws, es) && ws[0] == w
    ensures a in ws[|es|].attempts && ws[|es|].attempts[a].upload.Reading? && ws[|es|].attempts.Keys == w.attempts.Keys
    ensures ws[|es|].path.Some? && ws[|es|].path.value !in ws[|es|].holders
  {
    assert Accounted(w.attempts[a]) && InWorkspace(w, Attempting(a));
    var w1 := Apply(w, Acts(a, Releases));
    var w2 := Apply(w1, Acts(a, Closes));
    ws, es := [w, w1, w2], [Acts(a, Releases), Acts(a, Closes)];
  }

  lemma PatientRunsJoin(ws: seq<World>, es: seq<Event>, ws': seq<World>, es': seq<Event>)
    requires PatientRun(ws, es) && PatientRun(ws', es') && ws[|es|] == ws'[0]
    ensures PatientRun(ws + ws'[1..], es + es') && (ws + ws'[1..])[|es + es'|] == ws'[|es'|]
  {
    var all, events := ws + ws'[1..], es + es';
    forall n | 0 <= n < |events|
      ensures Enabled(all[n], events[n]) && all[n + 1] == Apply(all[n], events[n])
      ensures Calm(all[n], events[n]) && Patient(all[n], events[n])
    {
      if n < |es| {
        assert Enabled(ws[n], es[n]);
      } else {
        assert all[n] == ws'[n - |es|] && Enabled(ws'[n - |es|], es'[n - |es|]);
      }
    }
  }

  // A replacement attempt runs its kernel while the cancelled upload still reads.
  lemma CancelledUploadOverlaps(w: World, a: int) returns (ws: seq<World>, es: seq<Event>)
    requires Sound(w) && Linked(w) && a in w.attempts && w.attempts[a].upload.Reading? && w.attempts[a].co == Owing(1)
    requires w.attempts[a].shares == 1
    ensures PatientRun(ws, es) && ws[0] == w && !OneActive(ws[|es|])
  {
    ws, es := CancelledGivesUp(w, a);
    var shut := ws[|es|];
    var b := FreshId(shut.attempts.Keys);
    var ws', es' := NewcomerClaims(shut, b, shut.path.value);
    PatientRunsJoin(ws, es, ws', es');
    ws, es := ws + ws'[1..], es + es';
    ws', es' := ClaimantRuns(ws[|es|], b, shut.path.value);
    PatientRunsJoin(ws, es, ws', es');
    ws, es := ws + ws'[1..], es + es';
    assert ws[|es|].attempts[a].upload.Reading? && ws[|es|].attempts[b].kernel.Running?;
  }

  // A calm step keeps the workspace to one attempt, whatever patiently follows, exactly
  // when it is not a cancellation inside an upload.
  lemma StepIsSafeIffPatient(w: World, e: Event)
    requires Sound(w) && Linked(w) && AllGuarded(w) && Enabled(w, e) && Calm(w, e)
    ensures StaysSolitary(Apply(w, e)) <==> Patient(w, e)
  {
    StepStaysLinked(w, e);
    if Patient(w, e) {
      StepStaysGuarded(w, e);
      forall ws, es | PatientRun(ws, es) && ws[0] == Apply(w, e)
        ensures OneActive(ws[|es|])
      {
        PatientRunStaysGuarded(ws, es, |es|);
        GuardedIsOneActive(ws[|es|]);
      }
    } else {
      assert Accounted(w.attempts[e.id]) && Guarded(w.attempts[e.id]);
      var ws, es := CancelledUploadOverlaps(Apply(w, e), e.id);
    }
  }

  // ---------- Unlinks ----------

  lemma FreshId(used: set<int>) returns (id: int)
    ensures id !in used
  {
    id := Above(used);
  }

  lemma {:induction false} Above(used: set<int>) returns (top: int)
    ensures forall id :: id in used ==> id < top
    decreases used
  {
    assert (forall id :: id !in used) ==> used == {};
    if used == {} {
      top := 0;
    } else {
      var one :| one in used;
      var rest := Above(used - {one});
      top := if one < rest then rest else one + 1;
      assert forall id :: id in used ==> id == one || id in used - {one};
    }
  }

  // Whatever calmly follows, at most one process is ever in the workspace.
  ghost predicate StaysExclusive(w: World) {
    forall ws, es :: CalmRun(ws, es) && ws[0] == w ==> Exclusive(ws[|es|])
  }

  // A new attempt opens and locks a new inode, beside whoever is in the workspace.
  lemma NewcomerEnters(w: World, p: Process, b: int) returns (ws: seq<World>, es: seq<Event>)
    requires Sound(w) && w.path.None? && InWorkspace(w, p) && b !in w.attempts
    ensures CalmRun(ws, es) && ws[0] == w && !Exclusive(ws[|es|])
  {
    var w3 := Apply(w, Begin(b));
    var w4 := Apply(w3, Acts(b, Opens(w.next)));
    assert w.next !in w4.holders;
    var w5 := Apply(w4, Acts(b, Locks));
    assert InWorkspace(w5, p) && InWorkspace(w5, Attempting(b));
    ws, es := [w, w3, w4, w5], [Begin(b), Acts(b, Opens(w.next)), Acts(b, Locks)];
  }

  lemma RunsExtend(w: World, e: Event, ws: seq<World>, es: seq<Event>)
    requires Enabled(w, e) && Calm(w, e) && CalmRun(ws, es) && ws[0] == Apply(w, e)
    ensures CalmRun([w] + ws, [e] + es) && ([w] + ws)[|es| + 1] == ws[|es|]
  {
  }

  // The remover leaves after its unlink, and p locks the inode it had opened.
  lemma LatecomerLocks(w: World, r: int, p: Process, lock: Event) returns (w1: World, w2: World)
    requires Sound(w) && Linked(w) && Enabled(w, RemoverUnlinks(r)) && FileOf(w, p).Opened?
    requires lock == if p.Attempting? then Acts(p.id, Locks) else RemoverLocks(p.id)
    ensures Enabled(Apply(w, RemoverUnlinks(r)), RemoverCloses(r))
    ensures w1 == Apply(Apply(w, RemoverUnlinks(r)), RemoverCloses(r))
    ensures Enabled(w1, lock) && w2 == Apply(w1, lock)
    ensures w2.path.None? && InWorkspace(w2, p) && w2.attempts.Keys == w.attempts.Keys && Sound(w2)
  {
    var u := Apply(w, RemoverUnlinks(r));
    assert InWorkspace(w, Removing(r));
    var i := FileOf(w, p).i;
    assert w.path == Some(i) && FileOf(w, Removing(r)) == Holding(i) && p != Removing(r);
    w1 := Apply(u, RemoverCloses(r));
    assert i !in w1.holders;
    w2 := Apply(w1, lock);
    StepStaysSound(w, RemoverUnlinks(r));
    StepStaysSound(u, RemoverCloses(r));
    StepStaysSound(w1, lock);
  }

  // After an unlink that caught p between its open and its flock: the remover leaves,
  // p locks the unlinked inode, and a new attempt opens and locks a new one.
  lemma UnlinkRaceAdmitsTwo(w: World, r: int, p: Process, b: int) returns (ws: seq<World>, es: seq<Event>)
    requires Sound(w) && Linked(w) && Enabled(w, RemoverUnlinks(r))
    requires FileOf(w, p).Opened? && b !in w.attempts
    ensures CalmRun(ws, es) && ws[0] == Apply(w, RemoverUnlinks(r)) && !Exclusive(ws[|es|])
  {
    var u := Apply(w, RemoverUnlinks(r));
    var lock := if p.Attempting? then Acts(p.id, Locks) else RemoverLocks(p.id);
    var w1, w2 := LatecomerLocks(w, r, p, lock);
    ws, es := NewcomerEnters(w2, p, b);
    RunsExtend(w1, lock, ws, es);
    RunsExtend(u, RemoverCloses(r), [w1] + ws, [lock] + es);
    ws, es := [u] + ([w1] + ws), [RemoverCloses(r)] + ([lock] + es);
  }

  // An unlink keeps the workspace exclusive, whatever calmly follows, exactly when it
  // falls between nobody's open and flock.
  lemma UnlinkIsSafeIffCalm(w: World, r: int)
    requires Sound(w) && Linked(w) && Enabled(w, RemoverUnlinks(r))
    ensures StaysExclusive(Apply(w, RemoverUnlinks(r))) <==> Calm(w, RemoverUnlinks(r))
  {
    var u := Apply(w, RemoverUnlinks(r));
    if Calm(w, RemoverUnlinks(r)) {
      StepStaysLinked(w, RemoverUnlinks(r));
      forall ws, es | CalmRun(ws, es) && ws[0] == u
        ensures Exclusive(ws[|es|])
      {
        CalmRunStaysLinked(ws, es, |es|);
        LinkedIsExclusive(ws[|es|]);
      }
    } else {
      var p :| FileOf(w, p).Opened?;
      var b := FreshId(w.attempts.Keys);
      var ws, es := UnlinkRaceAdmitsTwo(w, r, p, b);
    }
  }

  lemma RunsJoin(ws: seq<World>, es: seq<Event>, ws': seq<World>, es': seq<Event>)
    requires IsRun(ws, es) && IsRun(ws', es') && ws[|es|] == ws'[0]
    ensures IsRun(ws + ws'[1..], es + es') && (ws + ws'[1..])[|es + es'|] == ws'[|es'|]
  {
    var all, events := ws + ws'[1..], es + es';
    forall n | 0 <= n < |events|
      ensures Enabled(all[n], events[n]) && all[n + 1] == Apply(all[n], events[n])
    {
      if n < |es| {
        assert Enabled(ws[n], es[n]);
      } else {
        assert all[n] == ws'[n - |es|] && Enabled(ws'[n - |es|], es'[n - |es|]);
      }
    }
  }

  // A remover holds the lock while an attempt has opened the file and not locked it yet.
  lemma ReachesTheRace() returns (ws: seq<World>, es: seq<Event>)
    ensures CalmRun(ws, es) && ws[0] == UNTOUCHED
    ensures ws[|es|] == World(map[0 := FRESH.(file := Opened(0))], map[0 := Remover(Holding(0), false)], Some(0),
                              map[0 := Removing(0)], 1)
  {
    var w1 := Apply(UNTOUCHED, Begin(0));
    var w2 := Apply(w1, BeginRemoval(0));
    var w3 := Apply(w2, RemoverOpens(0));
    var w4 := Apply(w3, RemoverLocks(0));
    var w5 := Apply(w4, Acts(0, Opens(0)));
    ws := [UNTOUCHED, w1, w2, w3, w4, w5];
    es := [Begin(0), BeginRemoval(0), RemoverOpens(0), RemoverLocks(0), Acts(0, Opens(0))];
  }

  // From an untouched workspace a run admits two processes at once.
  lemma RaceIsReachable() returns (ws: seq<World>, es: seq<Event>)
    ensures IsRun(ws, es) && ws[0] == UNTOUCHED && !Exclusive(ws[|es|])
  {
    ws, es := ReachesTheRace();
    var w := ws[|es|];
    CalmRunStaysLinked(ws, es, |es|);
    assert FileOf(w, Attempting(0)) == Opened(0);
    var ws', es' := UnlinkRaceAdmitsTwo(w, 0, Attempting(0), 1);
    RunsJoin(ws, es, [w, Apply(w, RemoverUnlinks(0))], [RemoverUnlinks(0)]);
    ws, es := ws + [w, Apply(w, RemoverUnlinks(0))][1..], es + [RemoverUnlinks(0)];
    RunsJoin(ws, es, ws', es');
    ws, es := ws + ws'[1..], es + es';
  }

  function AboutToUpload(i: nat): Attempt {
    Attempt(Holding(i), Given, Completing, Finished, NoUpload, NoDrain, false, true, 1, false, 0)
  }

  lemma KernelEnds(w: World, a: int, i: nat) returns (ws: seq<World>, es: seq<Event>)
    requires a in w.attempts && w.attempts[a] == RunningKernel(i)
    ensures CalmRun(ws, es) && ws[0] == w && a in ws[|es|].attempts && ws[|es|].attempts[a] == AboutToUpload(i)
  {
    var w1 := Apply(w, Acts(a, KernelStops));
    var w2 := Apply(w1, Acts(a, KernelReleases));
    var w3 := Apply(w2, Acts(a, KernelSucceeded));
    ws, es := [w, w1, w2, w3], [Acts(a, KernelStops), Acts(a, KernelReleases), Acts(a, KernelSucceeded)];
  }

  // The upload starts, and the coroutine is cancelled.
  lemma UploadIsCancelled(w: World, a: int, i: nat) returns (ws: seq<World>, es: seq<Event>)
    requires a in w.attempts && w.attempts[a] == AboutToUpload(i)
    ensures CalmRun(ws, es) && ws[0] == w
    ensures a in ws[|es|].attempts && ws[|es|].attempts[a].upload.Reading?
    ensures ws[|es|].attempts[a].co == Owing(1) && ws[|es|].attempts[a].shares == 1
  {
    var w1 := Apply(w, Acts(a, UploadStarts));
    var w2 := Apply(w1, Acts(a, CancelledElsewhere));
    ws, es := [w, w1, w2], [Acts(a, UploadStarts), Acts(a, CancelledElsewhere)];
  }

  lemma FirstClaim() returns (ws: seq<World>, es: seq<Event>)
    ensures CalmRun(ws, es) && ws[0] == UNTOUCHED
    ensures ws[|es|] == World(map[0 := Entered(0)], map[], Some(0), map[0 := Attempting(0)], 1)
  {
    var w1 := Apply(UNTOUCHED, Begin(0));
    var w2 := Apply(w1, Acts(0, Opens(0)));
    var w3 := Apply(w2, Acts(0, Locks));
    ws, es := [UNTOUCHED, w1, w2, w3], [Begin(0), Acts(0, Opens(0)), Acts(0, Locks)];
  }

  lemma CalmRunsJoin(ws: seq<World>, es: seq<Event>, ws': seq<World>, es': seq<Event>)
    requires CalmRun(ws, es) && CalmRun(ws', es') && ws[|es|] == ws'[0]
    ensures CalmRun(ws + ws'[1..], es + es') && (ws + ws'[1..])[|es + es'|] == ws'[|es'|]
  {
    RunsJoin(ws, es, ws', es');
    var all, events := ws + ws'[1..], es + es';
    forall n | 0 <= n < |events|
      ensures Calm(all[n], events[n])
    {
      if n < |es| {
        assert Calm(ws[n], es[n]);
      } else {
        assert all[n] == ws'[n - |es|] && Calm(ws'[n - |es|], es'[n - |es|]);
      }
    }
  }

  // From an untouched workspace a calm run, with one cancellation inside an upload, has
  // two attempts active at once.
  lemma OverlapIsReachable() returns (ws: seq<World>, es: seq<Event>)
    ensures CalmRun(ws, es) && ws[0] == UNTOUCHED && !OneActive(ws[|es|])
  {
    ws, es := FirstClaim();
    var ws', es' := ClaimantRuns(ws[|es|], 0, 0);
    CalmRunsJoin(ws, es, ws', es');
    ws, es := ws + ws'[1..], es + es';
    ws', es' := KernelEnds(ws[|es|], 0, 0);
    CalmRunsJoin(ws, es, ws', es');
    ws, es := ws + ws'[1..], es + es';
    ws', es' := UploadIsCancelled(ws[|es|], 0, 0);
    CalmRunsJoin(ws, es, ws', es');
    ws, es := ws + ws'[1..], es + es';
    CalmRunStaysLinked(ws, es, |es|);
    ws', es' := CancelledUploadOverlaps(ws[|es|], 0);
    CalmRunsJoin(ws, es, ws', es');
    ws, es := ws + ws'[1..], es + es';
  }
}
