// One attempt's hold on its workspace. The lock's descriptor is owned in two shares,
// and a coroutine, a kernel thread and a drain task give them back in whatever order
// they end, with cancellation arriving at any await. The upload reads the workspace on
// a thread of its own, which cancellation does not end and which holds no share.
module AttemptShares {

  // ---------- The claim object ----------

  class WorkspaceClaim {
    var fd: int
    var shares: int

    constructor (fd: int)
      requires 0 <= fd
      ensures this.fd == fd && shares == 2
    {
      this.fd, shares := fd, 2;
    }

    // Give back one share. The last releaser is told the descriptor to close; no
    // other release closes anything.
    method Release() returns (toClose: int)
      modifies this
      ensures shares == old(shares) - 1
      ensures old(shares) > 1 ==> toClose == -1 && fd == old(fd)
      ensures old(shares) <= 1 ==> toClose == old(fd) && fd == -1
    {
      shares := shares - 1;
      if shares > 0 {
        return -1;
      }
      toClose := fd;
      fd := -1;
    }
  }

  // Of two releases in either thread order exactly the second closes, and any release
  // after that closes nothing.
  method ReleaseTwice(claim: WorkspaceClaim) returns (first: int, second: int, third: int)
    requires claim.shares == 2 && 0 <= claim.fd
    modifies claim
    ensures first == -1 && second == old(claim.fd) && third == -1
  {
    first := claim.Release();
    second := claim.Release();
    third := claim.Release();
  }

  // ---------- The attempt ----------

  // The claim thread's lock file: inode i is open, then locked, then closed.
  datatype File = Unopened | Opened(i: nat) | Holding(i: nat) | Shut

  // What the claim thread has told its waiter.
  datatype Answer = Pending | Given | Raised

  datatype Coroutine = Waiting | AwaitingKernel | Completing | Failing | Owing(n: nat) | Gone

  datatype Kernel = Idle | Submitted | Running | Stopped | Finished | Skipped

  datatype Upload = NoUpload | Reading | Read

  // A drain cancelled while it waits gives nothing back.
  datatype Drain = NoDrain | Draining | DrainOwing(n: nat) | DrainLost

  // `cancelled` and `started` are the flags the coroutine and the work item exchange
  // under their guard; `closes` counts closes of the descriptor.
  datatype Attempt = Attempt(file: File, answer: Answer, co: Coroutine, kernel: Kernel, upload: Upload,
                             drain: Drain, cancelled: bool, started: bool, shares: int, closing: bool, closes: nat)

  const FRESH: Attempt := Attempt(Unopened, Pending, Waiting, Idle, NoUpload, NoDrain, false, false, 0, false, 0)

  datatype Act =
    | Opens(i: nat)
    | Locks
    | LockRefused
    | ClaimReturns
    | ClaimRaises
    | Receives
    | HearsRefusal
    | CancelledWaiting
    | DrainTakes
    | DrainHearsRefusal
    | DrainReleases
    | DrainCancelled
    | KernelStarts
    | KernelSkips
    | KernelStops
    | KernelReleases
    | KernelSucceeded
    | KernelFailed
    | UploadStarts
    | UploadStops
    | Completes
    | CompletionFails
    | FailureRecorded
    | CancelledElsewhere
    | Releases
    | Closes

  predicate Can(a: Attempt, act: Act) {
    match act
    case Opens(_) => a.file.Unopened?
    case Locks => a.file.Opened?
    case LockRefused => a.file.Opened?
    case ClaimReturns => a.file.Holding? && a.answer.Pending?
    case ClaimRaises => a.file.Holding? && a.answer.Pending?
    case Receives => a.co.Waiting? && a.answer.Given?
    case HearsRefusal => a.co.Waiting? && a.answer.Raised?
    case CancelledWaiting => a.co.Waiting?
    case DrainTakes => a.drain.Draining? && a.answer.Given?
    case DrainHearsRefusal => a.drain.Draining? && a.answer.Raised?
    case DrainReleases => a.drain.DrainOwing? && 0 < a.drain.n
    case DrainCancelled => a.drain.Draining?
    case KernelStarts => a.kernel.Submitted? && !a.cancelled
    case KernelSkips => a.kernel.Submitted? && a.cancelled
    case KernelStops => a.kernel.Running?
    case KernelReleases => a.kernel.Stopped?
    case KernelSucceeded => a.co.AwaitingKernel? && a.kernel.Finished?
    case KernelFailed => a.co.AwaitingKernel? && a.kernel.Finished?
    case UploadStarts => a.co.Completing? && a.upload.NoUpload?
    case UploadStops => a.upload.Reading?
    case Completes => a.co.Completing? && a.upload.Read?
    case CompletionFails => a.co.Completing? && !a.upload.Reading?
    case FailureRecorded => a.co.Failing?
    case CancelledElsewhere => a.co.AwaitingKernel? || a.co.Completing? || a.co.Failing?
    case Releases => a.co.Owing? && 0 < a.co.n
    case Closes => a.closing
  }

  // Whether the coroutine holds the claim it would release in its `finally`.
  predicate HasClaim(a: Attempt) {
    !a.kernel.Idle?
  }

  function Ended(a: Attempt): Coroutine {
    if HasClaim(a) then Owing(1) else Gone
  }

  // One share back; the last one leaves the descriptor to be closed.
  function Released(a: Attempt): Attempt {
    a.(shares := a.shares - 1, closing := a.closing || a.shares == 1)
  }

  function Do(a: Attempt, act: Act): Attempt
    requires Can(a, act)
  {
    match act
    case Opens(i) => a.(file := Opened(i))
    case Locks => a.(file := Holding(a.file.i))
    case LockRefused => a.(file := Shut, answer := Raised, closes := a.closes + 1)
    case ClaimReturns => a.(answer := Given, shares := 2)
    case ClaimRaises => a.(file := Shut, answer := Raised, closes := a.closes + 1)
    case Receives => a.(co := AwaitingKernel, kernel := Submitted)
    case HearsRefusal => a.(co := Failing)
    case CancelledWaiting => a.(co := Gone, cancelled := true, drain := Draining)
    case DrainTakes => a.(drain := DrainOwing(2))
    case DrainHearsRefusal => a.(drain := DrainOwing(0))
    case DrainReleases => Released(a).(drain := DrainOwing(a.drain.n - 1))
    case DrainCancelled => a.(drain := DrainLost)
    case KernelStarts => a.(kernel := Running, started := true)
    case KernelSkips => a.(kernel := Skipped)
    case KernelStops => a.(kernel := Stopped)
    case KernelReleases => Released(a).(kernel := Finished)
    case KernelSucceeded => a.(co := Completing)
    case KernelFailed => a.(co := Failing)
    case UploadStarts => a.(upload := Reading)
    case UploadStops => a.(upload := Read)
    case Completes => a.(co := Owing(1))
    case CompletionFails => a.(co := Failing)
    case FailureRecorded => a.(co := Ended(a))
    case CancelledElsewhere =>
      // Cancellation while a failure is being recorded does not reach the handler. It
      // ends the wait for the upload and leaves the upload's thread running.
      if a.co.Failing? then a.(co := Ended(a))
      else a.(cancelled := true, co := Owing(if a.started then 1 else 2))
    case Releases => Released(a).(co := if a.co.n == 1 then Gone else Owing(a.co.n - 1))
    case Closes => a.(closing := false, file := Shut, closes := a.closes + 1)
  }

  // ---------- Share accounting ----------

  // The shares each party still has to give back.
  function CoOwes(a: Attempt): nat {
    match a.co
    case Waiting => 2
    case AwaitingKernel => 1
    case Completing => 1
    case Failing => if HasClaim(a) then 1 else 0
    case Owing(n) => n
    case Gone => 0
  }

  function KernelOwes(a: Attempt): nat {
    if a.kernel.Running? || a.kernel.Stopped? || (a.kernel.Submitted? && !a.cancelled) then 1 else 0
  }

  function DrainOwes(a: Attempt): nat {
    match a.drain
    case NoDrain => 0
    case Draining => 2
    case DrainOwing(n) => n
    case DrainLost => 2
  }

  ghost predicate Accounted(a: Attempt) {
    // The descriptor.
    && (a.answer.Pending? ==> !a.file.Shut? && a.shares == 0 && !a.closing)
    && (a.answer.Raised? ==> a.file.Shut? && a.shares == 0 && !a.closing)
    && (a.answer.Given? ==> (a.file.Holding? && (0 < a.shares || a.closing)) || (a.file.Shut? && a.shares == 0))
    && (a.closing ==> a.answer.Given? && a.shares == 0 && a.file.Holding?)
    && a.closes == (if a.file.Shut? then 1 else 0)
    // The shares.
    && (a.answer.Given? ==> a.shares == CoOwes(a) + KernelOwes(a) + DrainOwes(a))
    // Who may be where.
    && (a.co.Waiting? ==> a.kernel.Idle? && a.drain.NoDrain? && !a.cancelled)
    && (!a.drain.NoDrain? ==> a.co.Gone? && a.kernel.Idle?)
    && (a.drain.DrainOwing? && !a.answer.Given? ==> a.drain.n == 0)
    && (a.drain.DrainOwing? ==> !a.answer.Pending?)
    && (!a.kernel.Idle? ==> a.answer.Given?)
    && (a.co.AwaitingKernel? || a.co.Completing? || a.co.Owing? ==> HasClaim(a))
    && (a.co.Owing? ==> 1 <= a.co.n <= 2)
    && (a.co.Failing? && !HasClaim(a) ==> a.answer.Raised?)
    && (a.co.Gone? && a.kernel.Idle? && a.drain.NoDrain? ==> a.answer.Raised?)
    && (a.started <==> a.kernel.Running? || a.kernel.Stopped? || a.kernel.Finished?)
    && (a.co.Completing? || !a.upload.NoUpload? || (a.co.Failing? && HasClaim(a)) ==> a.kernel.Finished?)
    && (a.kernel.Submitted? && !a.cancelled ==> a.co.AwaitingKernel?)
    && (a.kernel.Skipped? ==> a.cancelled)
    && (a.co.AwaitingKernel? ==> !a.cancelled)
  }

  lemma ActKeepsAccount(a: Attempt, act: Act)
    requires Accounted(a) && Can(a, act)
    ensures Accounted(Do(a, act))
  {
  }

  // ---------- Whole lives ----------

  ghost predicate IsStretch(life: seq<Attempt>, acts: seq<Act>) {
    && |life| == |acts| + 1
    && forall n {:trigger acts[n]} :: 0 <= n < |acts| ==> Can(life[n], acts[n]) && life[n + 1] == Do(life[n], acts[n])
  }

  ghost predicate IsLife(life: seq<Attempt>, acts: seq<Act>) {
    IsStretch(life, acts) && life[0] == FRESH
  }

  predicate GivesBack(act: Act) {
    act.DrainReleases? || act.KernelReleases? || act.Releases?
  }

  function GivenBack(acts: seq<Act>): nat {
    if acts == [] then 0 else GivenBack(acts[..|acts| - 1]) + if GivesBack(acts[|acts| - 1]) then 1 else 0
  }

  lemma LifePrefix(life: seq<Attempt>, acts: seq<Act>, n: nat)
    requires IsLife(life, acts) && n <= |acts|
    ensures IsLife(life[..n + 1], acts[..n]) && life[..n + 1][n] == life[n]
  {
  }

  lemma {:induction false} LifeIsAccounted(life: seq<Attempt>, acts: seq<Act>)
    requires IsLife(life, acts)
    ensures Accounted(life[|acts|])
    ensures life[|acts|].answer.Given? ==> life[|acts|].shares + GivenBack(acts) == 2
    ensures !life[|acts|].answer.Given? ==> GivenBack(acts) == 0
    decreases |acts|
  {
    if acts == [] {
    } else {
      var n := |acts| - 1;
      LifePrefix(life, acts, n);
      LifeIsAccounted(life[..n + 1], acts[..n]);
      ActKeepsAccount(life[n], acts[n]);
      OnlyReleasesCount(life[n], acts[n]);
    }
  }

  lemma OnlyReleasesCount(a: Attempt, act: Act)
    requires Accounted(a) && Can(a, act)
    ensures GivesBack(act) ==> a.answer.Given? && Do(a, act).answer.Given? && Do(a, act).shares == a.shares - 1
    ensures !GivesBack(act) ==> Do(a, act).shares == if act.ClaimReturns? then 2 else a.shares
    ensures act.ClaimReturns? <==> !a.answer.Given? && Do(a, act).answer.Given?
    ensures a.answer.Given? ==> Do(a, act).answer.Given?
  {
  }

  // ---------- Who uses the workspace ----------

  // The kernel thread may write in the workspace, or the upload's thread may read it.
  predicate Active(a: Attempt) {
    a.kernel.Running? || a.upload.Reading?
  }

  ghost predicate Covered(a: Attempt) {
    Active(a) ==> a.file.Holding? && a.closes == 0
  }

  // The upload's thread is still waited for.
  predicate Guarded(a: Attempt) {
    a.upload.Reading? ==> a.co.Completing?
  }

  // The hypothesis: cancellation does not fall between the start and the end of the
  // upload's thread.
  predicate Gentle(a: Attempt, act: Act) {
    act.CancelledElsewhere? ==> !a.upload.Reading?
  }

  ghost predicate GentleStretch(life: seq<Attempt>, acts: seq<Act>) {
    IsStretch(life, acts) && forall n :: 0 <= n < |acts| ==> Gentle(life[n], acts[n])
  }

  lemma GentleActKeepsGuard(a: Attempt, act: Act)
    requires Accounted(a) && Guarded(a) && Can(a, act) && Gentle(a, act)
    ensures Guarded(Do(a, act))
  {
  }

  lemma GuardedIsCovered(a: Attempt)
    requires Accounted(a) && Guarded(a)
    ensures Covered(a)
  {
  }

  lemma {:induction false} GentleStretchIsCovered(life: seq<Attempt>, acts: seq<Act>, n: nat)
    requires GentleStretch(life, acts) && n < |life| && Accounted(life[0]) && Guarded(life[0])
    ensures Accounted(life[n]) && Guarded(life[n]) && Covered(life[n])
    decreases n
  {
    if n == 0 {
      GuardedIsCovered(life[0]);
    } else {
      GentleStretchIsCovered(life, acts, n - 1);
      ActKeepsAccount(life[n - 1], acts[n - 1]);
      GentleActKeepsGuard(life[n - 1], acts[n - 1]);
      GuardedIsCovered(life[n]);
    }
  }

  // The kernel runs only while the lock is held, whatever happens; so does the upload
  // when no cancellation falls into it. The descriptor is closed at most once, and after
  // the hand-over only when coroutine and kernel are done.
  lemma UsedOnlyWhileHeld(life: seq<Attempt>, acts: seq<Act>)
    requires IsLife(life, acts)
    ensures life[|acts|].kernel.Running? ==> life[|acts|].file.Holding? && life[|acts|].closes == 0
    ensures GentleStretch(life, acts) ==> Covered(life[|acts|])
    ensures life[|acts|].closes <= 1
    ensures life[|acts|].closes == 1 && life[|acts|].answer.Given? ==>
              life[|acts|].co.Gone? && KernelOwes(life[|acts|]) == 0 && GivenBack(acts) == 2
  {
    LifeIsAccounted(life, acts);
    if GentleStretch(life, acts) {
      GentleStretchIsCovered(life, acts, |acts|);
    }
  }

  // Whatever gently follows, the lock covers every use of the workspace.
  ghost predicate StaysCovered(a: Attempt) {
    forall life, acts :: GentleStretch(life, acts) && life[0] == a ==> Covered(life[|acts|])
  }

  // After a cancellation inside the upload, the coroutine gives back the last share.
  lemma CancelledUploadLosesItsLock(a: Attempt) returns (life: seq<Attempt>, acts: seq<Act>)
    requires Accounted(a) && a.co.Completing? && a.upload.Reading?
    ensures Can(a, CancelledElsewhere) && GentleStretch(life, acts) && life[0] == Do(a, CancelledElsewhere)
    ensures acts == [Releases, Closes] && life[2].upload.Reading? && life[2].file.Shut?
  {
    var b := Do(a, CancelledElsewhere);
    var c := Do(b, Releases);
    life, acts := [b, c, Do(c, Closes)], [Releases, Closes];
  }

  // An act leaves the lock covering every later use exactly when it is not a
  // cancellation between the start and the end of the upload's thread.
  lemma CoveredIffGentle(a: Attempt, act: Act)
    requires Accounted(a) && Guarded(a) && Can(a, act)
    ensures StaysCovered(Do(a, act)) <==> Gentle(a, act)
  {
    if Gentle(a, act) {
      ActKeepsAccount(a, act);
      GentleActKeepsGuard(a, act);
      forall life, acts | GentleStretch(life, acts) && life[0] == Do(a, act)
        ensures Covered(life[|acts|])
      {
        GentleStretchIsCovered(life, acts, |acts|);
      }
    } else {
      var life, acts := CancelledUploadLosesItsLock(a);
      assert !Covered(life[|acts|]);
    }
  }

  // One more act at the end.
  lemma StretchGrows(life: seq<Attempt>, acts: seq<Act>, act: Act, last: Attempt)
    requires IsLife(life, acts) && last == life[|acts|] && Can(last, act)
    ensures IsLife(life + [Do(last, act)], acts + [act])
  {
  }

  // An attempt that has its claim and has submitted its kernel.
  lemma ReachesKernel() returns (life: seq<Attempt>, acts: seq<Act>)
    ensures IsLife(life, acts)
    ensures life[|acts|] == Attempt(Holding(0), Given, AwaitingKernel, Submitted, NoUpload, NoDrain, false, false, 2, false, 0)
  {
    life, acts := [FRESH], [];
    var a := FRESH;
    a, life, acts := Lived(a, life, acts, Opens(0));
    a, life, acts := Lived(a, life, acts, Locks);
    a, life, acts := Lived(a, life, acts, ClaimReturns);
    a, life, acts := Lived(a, life, acts, Receives);
  }

  // An attempt whose kernel has ended and whose upload is about to start.
  lemma ReachesCompletion() returns (life: seq<Attempt>, acts: seq<Act>)
    ensures IsLife(life, acts)
    ensures life[|acts|] == Attempt(Holding(0), Given, Completing, Finished, NoUpload, NoDrain, false, true, 1, false, 0)
  {
    life, acts := ReachesKernel();
    var a := life[|acts|];
    a, life, acts := Lived(a, life, acts, KernelStarts);
    a, life, acts := Lived(a, life, acts, KernelStops);
    a, life, acts := Lived(a, life, acts, KernelReleases);
    a, life, acts := Lived(a, life, acts, KernelSucceeded);
  }

  lemma Lived(a: Attempt, life: seq<Attempt>, acts: seq<Act>, act: Act)
    returns (b: Attempt, life': seq<Attempt>, acts': seq<Act>)
    requires IsLife(life, acts) && a == life[|acts|] && Can(a, act)
    ensures IsLife(life', acts') && |acts'| == |acts| + 1 && b == life'[|acts'|] == Do(a, act)
  {
    StretchGrows(life, acts, act, a);
    b, life', acts' := Do(a, act), life + [Do(a, act)], acts + [act];
  }

  // A life in which the upload goes on reading after the lock is gone.
  lemma UploadOutlivesItsLock() returns (life: seq<Attempt>, acts: seq<Act>)
    ensures IsLife(life, acts) && life[|acts|].upload.Reading? && life[|acts|].file.Shut?
  {
    life, acts := ReachesCompletion();
    var a := life[|acts|];
    a, life, acts := Lived(a, life, acts, UploadStarts);
    a, life, acts := Lived(a, life, acts, CancelledElsewhere);
    a, life, acts := Lived(a, life, acts, Releases);
    a, life, acts := Lived(a, life, acts, Closes);
  }

  // ---------- How lives end ----------

  // Nothing is left to happen to an attempt that has begun.
  ghost predicate Quiet(a: Attempt) {
    forall act :: !Can(a, act)
  }

  // The claim came after its drain was cancelled: nobody is left to give it back.
  predicate Lost(a: Attempt) {
    a.drain.DrainLost? && a.answer.Given?
  }

  // However the threads interleave and wherever cancellation comes, an attempt that is
  // left with nothing to do has closed its descriptor exactly once, and has given back
  // exactly two shares if it ever had the claim: unless, and only unless, the drain of
  // a claim still to come was itself cancelled.
  lemma QuietIsSettled(life: seq<Attempt>, acts: seq<Act>)
    requires IsLife(life, acts) && Quiet(life[|acts|])
    ensures life[|acts|].closes == 1 && life[|acts|].file.Shut? <==> !Lost(life[|acts|])
    ensures GivenBack(acts) == if life[|acts|].answer.Given? && !Lost(life[|acts|]) then 2 else 0
    ensures !life[|acts|].upload.Reading?
  {
    LifeIsAccounted(life, acts);
    QuietIsShut(life[|acts|]);
  }

  lemma QuietIsShut(a: Attempt)
    requires Accounted(a) && Quiet(a)
    ensures a.file.Shut? && a.shares == 0 <==> !Lost(a)
    ensures Lost(a) ==> a.shares == 2
    ensures !a.upload.Reading?
  {
    assert !Can(a, UploadStops);
    assert !a.answer.Pending? by {
      assert !Can(a, Opens(0)) && !Can(a, Locks) && !Can(a, ClaimReturns);
    }
    if a.answer.Given? {
      assert KernelOwes(a) == 0 && a.kernel != Submitted by {
        assert !Can(a, KernelStarts) && !Can(a, KernelSkips) && !Can(a, KernelStops) && !Can(a, KernelReleases);
      }
      assert CoOwes(a) == 0 by {
        assert !Can(a, Receives) && !Can(a, CancelledElsewhere) && !Can(a, Releases);
      }
      assert DrainOwes(a) == 0 || Lost(a) by {
        assert !Can(a, DrainTakes) && !Can(a, DrainReleases);
      }
      assert !Can(a, Closes);
    }
  }

  // Every life ends: each act uses up part of a fixed budget.
  function Budget(a: Attempt): nat {
    FileBudget(a.file) + (if a.answer.Pending? then 1 else 0) + CoBudget(a.co) + KernelBudget(a.kernel)
    + UploadBudget(a.upload) + DrainBudget(a.drain)
  }

  function FileBudget(file: File): nat {
    match file case Unopened => 3 case Opened(_) => 2 case Holding(_) => 1 case Shut => 0
  }

  function CoBudget(co: Coroutine): nat {
    match co
    case Waiting => 8
    case AwaitingKernel => 5
    case Completing => 4
    case Failing => 3
    case Owing(n) => n
    case Gone => 0
  }

  function KernelBudget(kernel: Kernel): nat {
    match kernel
    case Idle => 4
    case Submitted => 3
    case Running => 2
    case Stopped => 1
    case Finished => 0
    case Skipped => 0
  }

  function UploadBudget(upload: Upload): nat {
    match upload case NoUpload => 2 case Reading => 1 case Read => 0
  }

  function DrainBudget(drain: Drain): nat {
    match drain case NoDrain => 4 case Draining => 3 case DrainOwing(n) => n case DrainLost => 0
  }

  lemma ActSpends(a: Attempt, act: Act)
    requires Can(a, act) && (a.co.Waiting? ==> a.kernel.Idle?) && (a.closing ==> a.file.Holding?)
    ensures Budget(Do(a, act)) < Budget(a)
  {
    if OfClaim(act) {
      ClaimActSpends(a, act);
    } else if OfThreads(act) {
      ThreadActSpends(a, act);
    } else {
      CoroutineActSpends(a, act);
    }
  }

  // Acts of the claim and its hand-off.
  predicate OfClaim(act: Act) {
    act.Opens? || act.Locks? || act.LockRefused? || act.ClaimReturns? || act.ClaimRaises? || act.Receives?
    || act.HearsRefusal? || act.CancelledWaiting? || act.DrainTakes? || act.DrainHearsRefusal? || act.DrainReleases?
    || act.DrainCancelled?
  }

  // Acts of the kernel's and the upload's threads.
  predicate OfThreads(act: Act) {
    act.KernelStarts? || act.KernelSkips? || act.KernelStops? || act.KernelReleases? || act.UploadStarts?
    || act.UploadStops?
  }

  lemma ClaimActSpends(a: Attempt, act: Act)
    requires Can(a, act) && OfClaim(act) && (a.co.Waiting? ==> a.kernel.Idle?)
    ensures Budget(Do(a, act)) < Budget(a)
  {
  }

  lemma ThreadActSpends(a: Attempt, act: Act)
    requires Can(a, act) && OfThreads(act)
    ensures Budget(Do(a, act)) < Budget(a)
  {
  }

  lemma CoroutineActSpends(a: Attempt, act: Act)
    requires Can(a, act) && !OfClaim(act) && !OfThreads(act) && (a.closing ==> a.file.Holding?)
    ensures Budget(Do(a, act)) < Budget(a)
  {
  }

  lemma {:induction false} LivesAreShort(life: seq<Attempt>, acts: seq<Act>)
    requires IsLife(life, acts)
    ensures |acts| + Budget(life[|acts|]) <= Budget(FRESH) == 22
    decreases |acts|
  {
    if acts == [] {
    } else {
      var n := |acts| - 1;
      LivesAreShort(life[..n + 1], acts[..n]);
      LifeIsAccounted(life[..n + 1], acts[..n]);
      ActSpends(life[n], acts[n]);
    }
  }
}
