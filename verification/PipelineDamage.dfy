// Which workspaces may be resumed: runs over a found disk, in whatever state a killed
// removal or another program left it.
module PipelineDamage {
  import opened Wrappers
  import opened Collections
  import opened PipelineResume

  // ---------- What a found disk is worth ----------

  // A pipeline whose fresh run succeeds, every step of it leaving something.
  ghost predicate Works(p: Pipeline) {
    p.Valid() && p.Fresh(|p.steps|).Some? && forall i :: 0 <= i < |p.steps| ==> p.steps[i].outputs != {}
  }

  ghost function Goal(p: Pipeline): Files
    requires Works(p)
  {
    p.Fresh(|p.steps|).value
  }

  // Step i's outputs are all there, as a fresh run leaves them.
  ghost predicate FreshAt(p: Pipeline, files: Files, i: nat)
    requires Works(p) && i < |p.steps|
  {
    forall o :: o in p.steps[i].outputs ==> o in Goal(p) && o in files && files[o] == Goal(p)[o]
  }

  ghost predicate FreshBefore(p: Pipeline, files: Files, i: nat)
    requires Works(p) && i <= |p.steps|
  {
    forall j :: 0 <= j < i ==> FreshAt(p, files, j)
  }

  // No input was changed; some may be missing.
  ghost predicate Intact(p: Pipeline, files: Files) {
    forall q :: q in p.inputs && q in files ==> files[q] == p.inputs[q]
  }

  // Every marked step has all its outputs, as a fresh run leaves them.
  ghost predicate Trusted(p: Pipeline, disk: Disk)
    requires Works(p)
  {
    forall i :: 0 <= i < |p.steps| && p.Marked(disk, i) ==> FreshAt(p, disk.files, i)
  }

  // Inputs in place and earlier outputs fresh: step i will see a fresh run's files.
  ghost predicate Settled(p: Pipeline, files: Files, i: nat)
    requires Works(p) && i <= |p.steps|
  {
    Holds(files, p.inputs) && FreshBefore(p, files, i)
  }

  // What a fresh run holds before step i is there.
  lemma SettledHoldsFresh(p: Pipeline, files: Files, i: nat)
    requires Works(p) && i <= |p.steps| && Settled(p, files, i)
    ensures p.Fresh(i).Some? && Holds(files, p.Fresh(i).value)
  {
    FreshKeepsEarlier(p, i, |p.steps|);
    forall path | path in p.Fresh(i).value
      ensures path in files && files[path] == p.Fresh(i).value[path]
    {
      FreshPaths(p, i, path);
      if path in p.inputs {
        FreshKeepsEarlier(p, 0, i);
        assert files[path] == p.inputs[path];
      } else {
        var j :| 0 <= j < i && path in p.steps[j].outputs;
        assert FreshAt(p, files, j);
      }
    }
  }

  lemma StepOfFresh(p: Pipeline, i: nat)
    requires p.Valid() && i < |p.steps| && p.Fresh(i + 1).Some?
    ensures p.Fresh(i).Some? && Made(p, i).Some? && Made(p, i).value.Keys == p.steps[i].outputs
    ensures p.Fresh(i + 1).value == p.Fresh(i).value + Made(p, i).value
  {
  }

  lemma MergedHolds(files: Files, before: Files, made: Files)
    requires Holds(files, before + made)
    ensures Holds(files, made)
  {
    forall o | o in made
      ensures o in files && files[o] == made[o]
    {
      assert o in before + made && (before + made)[o] == made[o];
    }
  }

  lemma GoalHolds(p: Pipeline, i: nat)
    requires Works(p) && i <= |p.steps|
    ensures p.Fresh(i).Some? && Holds(Goal(p), p.Fresh(i).value)
  {
    FreshKeepsEarlier(p, i, |p.steps|);
  }

  // In a fresh run step i makes exactly its outputs, and they stay.
  lemma MadeStays(p: Pipeline, i: nat, goal: Files)
    requires p.Valid() && i < |p.steps| && p.Fresh(i + 1).Some? && Holds(goal, p.Fresh(i + 1).value)
    ensures p.Fresh(i).Some? && Made(p, i).Some? && Made(p, i).value.Keys == p.steps[i].outputs
    ensures Holds(goal, Made(p, i).value)
  {
    StepOfFresh(p, i);
    MergedHolds(goal, p.Fresh(i).value, Made(p, i).value);
  }

  // The runner of step i makes exactly a fresh run's outputs.
  lemma SettledMakesFresh(p: Pipeline, files: Files, i: nat)
    requires Works(p) && i < |p.steps| && Settled(p, files, i)
    ensures p.Fresh(i).Some? && p.steps[i].run(View(files, p.steps[i].needs)) == Made(p, i)
    ensures Made(p, i).Some? && Made(p, i).value.Keys == p.steps[i].outputs && Holds(Goal(p), Made(p, i).value)
  {
    SettledHoldsFresh(p, files, i);
    SameView(p, i, files);
    GoalHolds(p, i + 1);
    MadeStays(p, i, Goal(p));
  }

  // Writing step k's outputs leaves every other step's, and the inputs, as they were.
  lemma OthersStay(p: Pipeline, files: Files, after: Files, k: nat, i: nat)
    requires Works(p) && k < |p.steps| && i < |p.steps| && i != k && SameElsewhere(p, files, after, k)
    ensures FreshAt(p, files, i) <==> FreshAt(p, after, i)
    ensures Holds(files, p.inputs) ==> Holds(after, p.inputs)
    ensures Intact(p, files) ==> Intact(p, after)
  {
    assert forall o :: o in p.steps[i].outputs ==> o !in p.steps[k].outputs;
  }

  lemma SettledStays(p: Pipeline, files: Files, after: Files, k: nat)
    requires Works(p) && k < |p.steps| && SameElsewhere(p, files, after, k) && Settled(p, files, k)
    ensures Settled(p, after, k)
    ensures FreshAt(p, after, k) ==> Settled(p, after, k + 1)
  {
    forall j | 0 <= j < k
      ensures FreshAt(p, after, j)
    {
      assert FreshAt(p, files, j);
      OthersStay(p, files, after, k, j);
    }
    assert Holds(after, p.inputs);
  }

  // ---------- Runs from a trusted disk ----------

  // Steps the process is past are fresh, and it runs no marked step.
  ghost predicate OnTrack(p: Pipeline, w: World)
    requires Works(p)
  {
    && Trusted(p, w.disk) && Intact(p, w.disk.files) && InPipeline(p, w.process)
    && match w.process
       case Dead => true
       case Finished => FreshBefore(p, w.disk.files, |p.steps|)
       case At(i) => Settled(p, w.disk.files, i) && (w.resume || UnmarkedFrom(p, w.disk, i))
       case Running(i) => Settled(p, w.disk.files, i) && !p.Marked(w.disk, i) && (w.resume || UnmarkedFrom(p, w.disk, i))
       case Ran(i) => Settled(p, w.disk.files, i + 1) && !p.Marked(w.disk, i) && (w.resume || UnmarkedFrom(p, w.disk, i))
  }

  ghost predicate UnmarkedFrom(p: Pipeline, disk: Disk, i: nat)
    requires p.Valid()
  {
    forall j :: i <= j < |p.steps| ==> !p.Marked(disk, j)
  }

  lemma UntrustedOnlyWhereMarked(p: Pipeline, disk: Disk, after: Disk, k: nat)
    requires Works(p) && k < |p.steps| && Trusted(p, disk) && !p.Marked(disk, k)
    requires SameElsewhere(p, disk.files, after.files, k) && after.markers == disk.markers
    ensures Trusted(p, after)
  {
    forall i | 0 <= i < |p.steps| && p.Marked(after, i)
      ensures FreshAt(p, after.files, i)
    {
      assert p.Marked(disk, i);
      OthersStay(p, disk.files, after.files, k, i);
    }
  }

  lemma IntactElsewhere(p: Pipeline, files: Files, after: Files, k: nat)
    requires p.Valid() && k < |p.steps| && SameElsewhere(p, files, after, k) && Intact(p, files)
    ensures Intact(p, after)
  {
  }

  lemma CrashStaysOnTrack(p: Pipeline, w: World, gone: set<Path>, left: Files)
    requires Works(p) && OnTrack(p, w)
    ensures OnTrack(p, Next(p, w, Crash(gone, left)))
  {
    if w.process.Running? {
      var after := Next(p, w, Crash(gone, left)).disk;
      UntrustedOnlyWhereMarked(p, w.disk, after, w.process.i);
      IntactElsewhere(p, w.disk.files, after.files, w.process.i);
    }
  }

  lemma RunnerStaysOnTrack(p: Pipeline, w: World, i: nat)
    requires Works(p) && OnTrack(p, w) && w.process == Running(i)
    ensures OnTrack(p, Proceeded(p, w))
  {
    SettledMakesFresh(p, w.disk.files, i);
    var after := Proceeded(p, w).disk;
    UntrustedOnlyWhereMarked(p, w.disk, after, i);
    IntactElsewhere(p, w.disk.files, after.files, i);
    SettledStays(p, w.disk.files, after.files, i);
    assert UnmarkedFrom(p, w.disk, i) ==> UnmarkedFrom(p, after, i) by {
      assert forall j: nat :: j < |p.steps| ==> (p.Marked(after, j) <==> p.Marked(w.disk, j));
    }
  }

  lemma MarkStaysOnTrack(p: Pipeline, w: World, i: nat)
    requires Works(p) && OnTrack(p, w) && w.process == Ran(i)
    ensures OnTrack(p, Proceeded(p, w)) && Proceeded(p, w).process == At(i + 1)
  {
    assert FreshAt(p, w.disk.files, i);
    var after := Proceeded(p, w).disk;
    forall j: nat | j < |p.steps|
      ensures p.Marked(after, j) <==> p.Marked(w.disk, j) || j == i
    {
    }
  }

  lemma LookStaysOnTrack(p: Pipeline, w: World, i: nat)
    requires Works(p) && OnTrack(p, w) && w.process == At(i)
    ensures OnTrack(p, Proceeded(p, w))
  {
    if i < |p.steps| && p.Marked(w.disk, i) {
      assert FreshAt(p, w.disk.files, i);
    }
  }

  lemma BeginStaysOnTrack(p: Pipeline, w: World, resume: bool)
    requires Works(p) && OnTrack(p, w)
    ensures OnTrack(p, Next(p, w, Begin(resume)))
  {
    if w.process.Dead? || w.process.Finished? {
      var after := Next(p, w, Begin(resume)).disk;
      if resume {
        RestoringAddsOnly(p, w.disk);
      }
    }
  }

  lemma RestoringAddsOnly(p: Pipeline, disk: Disk)
    requires Works(p) && Intact(p, disk.files)
    ensures Holds(p.inputs + disk.files, p.inputs) && Intact(p, p.inputs + disk.files)
    ensures forall i :: 0 <= i < |p.steps| ==> (FreshAt(p, disk.files, i) <==> FreshAt(p, p.inputs + disk.files, i))
    ensures forall i :: 0 <= i < |p.steps| ==>
              (p.Marked(disk, i) <==> p.Marked(disk.(files := p.inputs + disk.files), i))
  {
  }

  lemma EventStaysOnTrack(p: Pipeline, w: World, e: Event)
    requires Works(p) && OnTrack(p, w) && !e.Removed?
    ensures OnTrack(p, Next(p, w, e))
  {
    match e
    case Begin(resume) => BeginStaysOnTrack(p, w, resume);
    case Crash(gone, left) => CrashStaysOnTrack(p, w, gone, left);
    case Proceed =>
      match w.process {
        case Running(i) => RunnerStaysOnTrack(p, w, i);
        case Ran(i) => MarkStaysOnTrack(p, w, i);
        case At(i) => LookStaysOnTrack(p, w, i);
        case _ =>
      }
  }

  lemma {:induction false} HistoryStaysOnTrack(p: Pipeline, w: World, events: seq<Event>)
    requires Works(p) && OnTrack(p, w) && Untouched(events)
    ensures OnTrack(p, After(p, w, events))
    decreases |events|
  {
    if events == [] {
    } else {
      var front := events[..|events| - 1];
      HistoryStaysOnTrack(p, w, front);
      EventStaysOnTrack(p, After(p, w, front), events[|events| - 1]);
    }
  }

  // ---------- Safety, exactly ----------

  // Every step the run is past has a fresh run's outputs.
  ghost predicate PassesFresh(p: Pipeline, w: World)
    requires Works(p) && InPipeline(p, w.process)
  {
    match w.process
    case Dead => true
    case Finished => FreshBefore(p, w.disk.files, |p.steps|)
    case At(i) => FreshBefore(p, w.disk.files, i)
    case Running(i) => FreshBefore(p, w.disk.files, i)
    case Ran(i) => FreshBefore(p, w.disk.files, i)
  }

  function Found(disk: Disk): World {
    World(disk, Dead, true)
  }

  // No history of runs and crashes from the disk ever gets past a step whose outputs are
  // not a fresh run's.
  ghost predicate SafeToResume(p: Pipeline, disk: Disk)
    requires Works(p)
  {
    forall events :: Untouched(events) ==> PassesFresh(p, After(p, Found(disk), events))
  }

  lemma TrustedIsSafe(p: Pipeline, disk: Disk)
    requires Works(p) && Intact(p, disk.files) && Trusted(p, disk)
    ensures SafeToResume(p, disk)
  {
    forall events | Untouched(events)
      ensures PassesFresh(p, After(p, Found(disk), events))
    {
      HistoryStaysOnTrack(p, Found(disk), events);
    }
  }

  // Step i is the first whose marker is not to be trusted.
  ghost predicate FirstBad(p: Pipeline, disk: Disk, i: nat)
    requires Works(p) && i < |p.steps|
  {
    && p.Marked(disk, i) && !FreshAt(p, disk.files, i)
    && forall j :: 0 <= j < i && p.Marked(disk, j) ==> FreshAt(p, disk.files, j)
  }

  lemma {:induction false} FirstBadExists(p: Pipeline, disk: Disk, n: nat) returns (i: nat)
    requires Works(p) && n <= |p.steps|
    requires exists j :: 0 <= j < n && p.Marked(disk, j) && !FreshAt(p, disk.files, j)
    ensures i < n && FirstBad(p, disk, i)
    decreases n
  {
    if exists j :: 0 <= j < n - 1 && p.Marked(disk, j) && !FreshAt(p, disk.files, j) {
      i := FirstBadExists(p, disk, n - 1);
    } else {
      i := n - 1;
    }
  }

  lemma {:induction false} HistoriesJoin(p: Pipeline, w: World, first: seq<Event>, second: seq<Event>)
    requires |p.fingerprints| == |p.steps| && InPipeline(p, w.process)
    ensures After(p, w, first + second) == After(p, After(p, w, first), second)
    decreases |second|
  {
    if second == [] {
      assert first + second == first;
    } else {
      var front := second[..|second| - 1];
      HistoriesJoin(p, w, first, front);
      assert (first + second)[..|first + second| - 1] == first + front;
    }
  }

  lemma OneEvent(p: Pipeline, w: World, e: Event)
    requires |p.fingerprints| == |p.steps| && InPipeline(p, w.process)
    ensures After(p, w, [e]) == Next(p, w, e)
  {
    assert [e][..0] == [];
  }

  // The loop about to look at step k of a disk whose first bad step is i.
  ghost predicate Approaching(p: Pipeline, w: World, k: nat, i: nat, present: set<Path>)
    requires Works(p) && k <= i < |p.steps|
  {
    && w.process == At(k) && w.resume && Settled(p, w.disk.files, k) && FirstBad(p, w.disk, i)
    && p.steps[i].outputs * w.disk.files.Keys == present
  }

  // One step before the bad one is got past, and the bad one stays as it is.
  lemma PassesStep(p: Pipeline, w: World, k: nat, i: nat, present: set<Path>) returns (events: seq<Event>)
    requires Works(p) && k < i < |p.steps| && Approaching(p, w, k, i, present)
    ensures Untouched(events) && Approaching(p, After(p, w, events), k + 1, i, present)
  {
    if p.Complete(w.disk, k) {
      events := [Proceed];
      OneEvent(p, w, Proceed);
      assert FreshAt(p, w.disk.files, k);
    } else {
      events := [Proceed, Proceed, Proceed];
      var w1 := Proceeded(p, w);
      assert w1 == w.(process := Running(k));
      SettledMakesFresh(p, w.disk.files, k);
      var w2 := Proceeded(p, w1);
      MarkedAnew(p, w, k, i, w2.disk.files, Proceeded(p, w2));
      ThreeEvents(p, w, Proceed, Proceed, Proceed, w1, w2);
    }
  }

  lemma MarkedAnew(p: Pipeline, w: World, k: nat, i: nat, files: Files, after: World)
    requires Works(p) && k < i < |p.steps| && Settled(p, w.disk.files, k) && FirstBad(p, w.disk, i)
    requires SameElsewhere(p, w.disk.files, files, k) && FreshAt(p, files, k)
    requires after.disk == Disk(files, w.disk.markers[k := p.fingerprints[k]])
    ensures Settled(p, after.disk.files, k + 1) && FirstBad(p, after.disk, i)
    ensures p.steps[i].outputs * files.Keys == p.steps[i].outputs * w.disk.files.Keys
  {
    SettledStays(p, w.disk.files, files, k);
    OthersStay(p, w.disk.files, files, k, i);
    forall j | 0 <= j < i && p.Marked(after.disk, j)
      ensures FreshAt(p, files, j)
    {
      if j != k {
        assert p.Marked(w.disk, j);
        OthersStay(p, w.disk.files, files, k, j);
      }
    }
    assert forall o :: o in p.steps[i].outputs ==> o !in p.steps[k].outputs;
  }

  lemma {:induction false} ReachesBadStep(p: Pipeline, w: World, k: nat, i: nat, present: set<Path>)
    returns (events: seq<Event>)
    requires Works(p) && k <= i < |p.steps| && Approaching(p, w, k, i, present)
    ensures Untouched(events) && Approaching(p, After(p, w, events), i, i, present)
    decreases i - k
  {
    if k == i {
      events := [];
    } else {
      var first := PassesStep(p, w, k, i, present);
      var rest := ReachesBadStep(p, After(p, w, first), k + 1, i, present);
      HistoriesJoin(p, w, first, rest);
      events := first + rest;
    }
  }

  // Contents no fresh run has.
  ghost function Wrong(p: Pipeline, i: nat): Files
    requires Works(p) && i < |p.steps|
  {
    map o | o in p.steps[i].outputs :: (if o in Goal(p) then Goal(p)[o] else []) + ['!']
  }

  lemma WrongIsNotFresh(p: Pipeline, files: Files, i: nat)
    requires Works(p) && i < |p.steps| && Holds(files, Wrong(p, i))
    ensures !FreshAt(p, files, i) && p.steps[i].outputs <= files.Keys
  {
    var o := Member(p.steps[i].outputs);
    assert o in Wrong(p, i);
    assert o in Goal(p) ==> files[o] != Goal(p)[o];
  }

  // Where all its outputs are there, the bad step is skipped.
  lemma SkipsBadStep(p: Pipeline, w: World, i: nat) returns (events: seq<Event>)
    requires Works(p) && i < |p.steps| && Approaching(p, w, i, i, p.steps[i].outputs)
    ensures Untouched(events) && After(p, w, events) == w.(process := At(i + 1))
    ensures !PassesFresh(p, After(p, w, events))
  {
    events := [Proceed];
    OneEvent(p, w, Proceed);
    assert p.Complete(w.disk, i);
  }

  // Where some are missing, the step runs again under its marker; a crash that leaves
  // wrong contents is the first case once more.
  lemma SpoilsBadStep(p: Pipeline, w: World, i: nat, present: set<Path>) returns (events: seq<Event>)
    requires Works(p) && i < |p.steps| && Approaching(p, w, i, i, present) && present != p.steps[i].outputs
    ensures Untouched(events) && Approaching(p, After(p, w, events), 0, i, p.steps[i].outputs)
  {
    var crash := Crash({}, Wrong(p, i));
    events := [Proceed, crash, Begin(true)];
    RunsBadStep(p, w, i, present);
    var w1 := w.(process := Running(i));
    var w2 := Next(p, w1, crash);
    CrashSpoils(p, w1, i, w2);
    SpoiledIsBad(p, w, i, w2);
    ThreeEvents(p, w, Proceed, crash, Begin(true), w1, w2);
    var w3 := Next(p, w2, Begin(true));
    assert p.inputs + w2.disk.files == w2.disk.files;
    assert w3 == World(w2.disk, At(0), true);
  }

  lemma SubsetMeets<T>(a: set<T>, b: set<T>)
    ensures a <= b ==> a * b == a
  {
  }

  lemma RunsBadStep(p: Pipeline, w: World, i: nat, present: set<Path>)
    requires Works(p) && i < |p.steps| && Approaching(p, w, i, i, present) && present != p.steps[i].outputs
    ensures Proceeded(p, w) == w.(process := Running(i))
  {
    SubsetMeets(p.steps[i].outputs, w.disk.files.Keys);
  }

  lemma CrashSpoils(p: Pipeline, w: World, i: nat, after: World)
    requires Works(p) && i < |p.steps| && w.process == Running(i) && Settled(p, w.disk.files, i)
    requires after == Next(p, w, Crash({}, Wrong(p, i)))
    ensures after == World(Disk(Disturbed(w.disk.files, p.steps[i].outputs, {}, Wrong(p, i)), w.disk.markers), Dead, w.resume)
  {
    SettledMakesFresh(p, w.disk.files, i);
  }

  lemma ThreeEvents(p: Pipeline, w: World, a: Event, b: Event, c: Event, w1: World, w2: World)
    requires |p.fingerprints| == |p.steps| && InPipeline(p, w.process) && InPipeline(p, w1.process)
    requires w1 == Next(p, w, a) && w2 == Next(p, w1, b)
    ensures After(p, w, [a, b, c]) == Next(p, w2, c)
  {
    OneEvent(p, w, a);
    assert [a, b][..1] == [a] && [a, b, c][..2] == [a, b];
  }

  lemma SpoiledIsBad(p: Pipeline, w: World, i: nat, after: World)
    requires Works(p) && i < |p.steps| && Settled(p, w.disk.files, i) && FirstBad(p, w.disk, i)
    requires after.disk.markers == w.disk.markers
    requires after.disk.files == Disturbed(w.disk.files, p.steps[i].outputs, {}, Wrong(p, i))
    ensures Holds(after.disk.files, p.inputs) && FirstBad(p, after.disk, i) && p.steps[i].outputs <= after.disk.files.Keys
  {
    assert SameElsewhere(p, w.disk.files, after.disk.files, i);
    SettledStays(p, w.disk.files, after.disk.files, i);
    WrongIsNotFresh(p, after.disk.files, i);
    forall j | 0 <= j < i && p.Marked(after.disk, j)
      ensures FreshAt(p, after.disk.files, j)
    {
      assert p.Marked(w.disk, j);
      OthersStay(p, w.disk.files, after.disk.files, i, j);
    }
  }

  // With all outputs of the bad step there, a run gets past it.
  lemma GetsPastPresent(p: Pipeline, w: World, i: nat) returns (events: seq<Event>)
    requires Works(p) && i < |p.steps| && Approaching(p, w, 0, i, p.steps[i].outputs)
    ensures Untouched(events) && PastBad(p, After(p, w, events), i)
  {
    var first := ReachesBadStep(p, w, 0, i, p.steps[i].outputs);
    var last := SkipsBadStep(p, After(p, w, first), i);
    HistoriesJoin(p, w, first, last);
    events := first + last;
  }

  // Otherwise one crash makes it so.
  lemma GetsPastBad(p: Pipeline, w: World, i: nat, present: set<Path>) returns (events: seq<Event>)
    requires Works(p) && i < |p.steps| && Approaching(p, w, 0, i, present)
    ensures Untouched(events) && PastBad(p, After(p, w, events), i)
  {
    if present == p.steps[i].outputs {
      events := GetsPastPresent(p, w, i);
    } else {
      var first := ReachesBadStep(p, w, 0, i, present);
      var reached := After(p, w, first);
      var spoil := SpoilsBadStep(p, reached, i, present);
      var last := GetsPastPresent(p, After(p, reached, spoil), i);
      HistoriesJoin(p, reached, spoil, last);
      HistoriesJoin(p, w, first, spoil + last);
      events := first + (spoil + last);
    }
  }

  // A run that goes on although step i's outputs are not a fresh run's.
  ghost predicate PastBad(p: Pipeline, w: World, i: nat)
    requires Works(p) && i < |p.steps|
  {
    w.process == At(i + 1) && w.resume && !FreshAt(p, w.disk.files, i)
  }

  // From a disk with a bad marker some history gets past the bad step.
  lemma UntrustedIsUnsafe(p: Pipeline, disk: Disk) returns (i: nat, events: seq<Event>)
    requires Works(p) && Intact(p, disk.files) && !Trusted(p, disk)
    ensures i < |p.steps| && Untouched(events) && PastBad(p, After(p, Found(disk), events), i)
  {
    i := FirstBadExists(p, disk, |p.steps|);
    RestoringAddsOnly(p, disk);
    OneEvent(p, Found(disk), Begin(true));
    var w := Next(p, Found(disk), Begin(true));
    var more := GetsPastBad(p, w, i, p.steps[i].outputs * w.disk.files.Keys);
    HistoriesJoin(p, Found(disk), [Begin(true)], more);
    events := [Begin(true)] + more;
  }

  // A found disk may be resumed exactly when every marked step has all its outputs, as a
  // fresh run leaves them.
  lemma SafeIffTrusted(p: Pipeline, disk: Disk)
    requires Works(p) && Intact(p, disk.files)
    ensures SafeToResume(p, disk) <==> Trusted(p, disk)
  {
    if Trusted(p, disk) {
      TrustedIsSafe(p, disk);
    } else {
      var i, events := UntrustedIsUnsafe(p, disk);
      assert !PassesFresh(p, After(p, Found(disk), events));
    }
  }

  // ---------- Removals ----------

  // A removal killed on the way leaves a disk that may be resumed exactly when it took
  // the marker of every step it took an output of.
  lemma RemovalIsSafeIffTidy(p: Pipeline, disk: Disk, taken: set<Path>, unmarked: set<nat>, after: Disk)
    requires Works(p) && Intact(p, disk.files) && Trusted(p, disk)
    requires after == Next(p, Found(disk), Removed(taken, unmarked)).disk
    ensures SafeToResume(p, after) <==>
            forall i :: 0 <= i < |p.steps| && p.Marked(disk, i) && p.steps[i].outputs * taken != {} ==> i in unmarked
  {
    SafeIffTrusted(p, after);
    forall i: nat | i < |p.steps|
      ensures p.Marked(after, i) <==> p.Marked(disk, i) && i !in unmarked
      ensures FreshAt(p, disk.files, i) ==> (FreshAt(p, after.files, i) <==> p.steps[i].outputs * taken == {})
    {
      LosesOutputs(p, disk.files, taken, i);
    }
  }

  lemma LosesOutputs(p: Pipeline, files: Files, taken: set<Path>, i: nat)
    requires Works(p) && i < |p.steps|
    ensures FreshAt(p, files, i) ==> (FreshAt(p, files - taken, i) <==> p.steps[i].outputs * taken == {})
  {
    if p.steps[i].outputs * taken != {} {
      var o := Member(p.steps[i].outputs * taken);
      assert o !in files - taken;
    } else {
      assert forall o :: o in p.steps[i].outputs ==> o !in p.steps[i].outputs * taken;
    }
  }

  // ---------- What finished runs leave ----------

  // Runners that never raise and always leave all their outputs.
  ghost predicate Steady(p: Pipeline) {
    forall i, v :: 0 <= i < |p.steps| ==> p.steps[i].run(v).Some? && p.steps[i].outputs <= p.steps[i].run(v).value.Keys
  }

  // Every run that finishes leaves a fresh run's outputs.
  ghost predicate FinishesFresh(p: Pipeline, disk: Disk)
    requires Works(p)
  {
    forall events :: Untouched(events) && After(p, Found(disk), events).process.Finished? ==>
      FreshBefore(p, After(p, Found(disk), events).disk.files, |p.steps|)
  }

  // A wrong output left behind stays to the end.
  ghost predicate WrongSince(p: Pipeline, w: World, k: nat, i: nat)
    requires Works(p) && i < |p.steps|
  {
    i < k <= |p.steps| && w.process == At(k) && !FreshAt(p, w.disk.files, i)
  }

  lemma SteadyStep(p: Pipeline, w: World, k: nat, i: nat) returns (events: seq<Event>)
    requires Works(p) && Steady(p) && i < k < |p.steps| && WrongSince(p, w, k, i)
    ensures Untouched(events) && WrongSince(p, After(p, w, events), k + 1, i)
  {
    if w.resume && p.Complete(w.disk, k) {
      events := [Proceed];
      OneEvent(p, w, Proceed);
    } else {
      events := [Proceed, Proceed, Proceed];
      var w1 := w.(process := Running(k));
      var w2 := Proceeded(p, w1);
      assert SameElsewhere(p, w.disk.files, w2.disk.files, k);
      OthersStay(p, w.disk.files, w2.disk.files, k, i);
      ThreeEvents(p, w, Proceed, Proceed, Proceed, w1, w2);
    }
  }

  lemma {:induction false} SteadyRunFinishes(p: Pipeline, w: World, k: nat, i: nat) returns (events: seq<Event>)
    requires Works(p) && Steady(p) && i < |p.steps| && WrongSince(p, w, k, i)
    ensures Untouched(events) && After(p, w, events).process.Finished?
    ensures !FreshAt(p, After(p, w, events).disk.files, i)
    decreases |p.steps| - k
  {
    if k == |p.steps| {
      events := [Proceed];
      OneEvent(p, w, Proceed);
    } else {
      var first := SteadyStep(p, w, k, i);
      var rest := SteadyRunFinishes(p, After(p, w, first), k + 1, i);
      HistoriesJoin(p, w, first, rest);
      events := first + rest;
    }
  }

  // What a safe disk finishes with is right; and with runners that never raise, a disk
  // finishes only with right outputs exactly when its markers can be trusted.
  lemma FinishesFreshIffTrusted(p: Pipeline, disk: Disk)
    requires Works(p) && Intact(p, disk.files)
    ensures Trusted(p, disk) ==> FinishesFresh(p, disk)
    ensures Steady(p) ==> (FinishesFresh(p, disk) <==> Trusted(p, disk))
  {
    if Trusted(p, disk) {
      TrustedIsSafe(p, disk);
      assert forall events :: Untouched(events) ==> PassesFresh(p, After(p, Found(disk), events));
    } else if Steady(p) {
      var i, first := UntrustedIsUnsafe(p, disk);
      var rest := SteadyRunFinishes(p, After(p, Found(disk), first), i + 1, i);
      HistoriesJoin(p, Found(disk), first, rest);
      assert !FreshBefore(p, After(p, Found(disk), first + rest).disk.files, |p.steps|);
    }
  }

  // A runner that raises can hide a bad marker: where step 1 raises on step 0's bad
  // output, no run finishes, although runs get past step 0.
  ghost predicate Raises(p: Pipeline, o: Path, bad: string)
    requires Works(p)
  {
    && |p.steps| == 2 && p.steps[0].outputs == {o} && o in p.steps[1].needs && o in Goal(p) && bad != Goal(p)[o]
    && forall v :: o in v && v[o] == bad ==> p.steps[1].run(v).None?
  }

  ghost predicate Blocked(p: Pipeline, w: World, o: Path, bad: string)
    requires Works(p) && Raises(p, o, bad)
  {
    && o in w.disk.files && w.disk.files[o] == bad && p.Marked(w.disk, 0) && !p.Marked(w.disk, 1) && w.resume
    && (w.process.Dead? || w.process == At(0) || w.process == At(1) || w.process == Running(1))
  }

  lemma WipedIsOnTrack(p: Pipeline)
    requires Works(p)
    ensures OnTrack(p, World(Disk(p.inputs, map[]), At(0), false))
  {
  }

  lemma BlockedStays(p: Pipeline, w: World, e: Event, o: Path, bad: string)
    requires Works(p) && Raises(p, o, bad) && Blocked(p, w, o, bad) && !e.Removed?
    ensures Blocked(p, Next(p, w, e), o, bad) || OnTrack(p, Next(p, w, e))
  {
    assert o in p.steps[0].outputs && o !in p.steps[1].outputs && o !in p.inputs;
    if e.Begin? && !e.resume {
      WipedIsOnTrack(p);
    }
    if w.process == Running(1) {
      assert View(w.disk.files, p.steps[1].needs)[o] == bad;
    }
  }

  lemma {:induction false} BlockedHistory(p: Pipeline, disk: Disk, o: Path, bad: string, events: seq<Event>)
    requires Works(p) && Raises(p, o, bad) && Blocked(p, Found(disk), o, bad) && Untouched(events)
    ensures Blocked(p, After(p, Found(disk), events), o, bad) || OnTrack(p, After(p, Found(disk), events))
    decreases |events|
  {
    if events == [] {
    } else {
      var front := events[..|events| - 1];
      BlockedHistory(p, disk, o, bad, front);
      var w := After(p, Found(disk), front);
      if Blocked(p, w, o, bad) {
        BlockedStays(p, w, events[|events| - 1], o, bad);
      } else {
        EventStaysOnTrack(p, w, events[|events| - 1]);
      }
    }
  }

  lemma RaisingHidesBadMarker(p: Pipeline, disk: Disk, o: Path, bad: string)
    requires Works(p) && Raises(p, o, bad) && Blocked(p, Found(disk), o, bad)
    ensures FinishesFresh(p, disk) && !Trusted(p, disk)
  {
    forall events | Untouched(events) && After(p, Found(disk), events).process.Finished?
      ensures FreshBefore(p, After(p, Found(disk), events).disk.files, |p.steps|)
    {
      BlockedHistory(p, disk, o, bad, events);
    }
    assert o in p.steps[0].outputs && !FreshAt(p, disk.files, 0);
  }

  // Such a pipeline and disk: step 1 raises on anything but what step 0 makes.
  lemma RaisingHides() returns (p: Pipeline, disk: Disk)
    ensures Works(p) && Intact(p, disk.files) && FinishesFresh(p, disk) && !Trusted(p, disk)
  {
    var first := Step({"a"}, {}, v => Some(map["a" := "made"]));
    var second := Step({"b"}, {"a"}, v => if "a" in v && v["a"] == "made" then Some(map["b" := "made"]) else None);
    p := Pipeline([first, second], ["1", "2"], map[]);
    disk := Disk(map["a" := "lost"], map[0 := "1"]);
    assert "made"[0] != "lost"[0];
    RaisingPipelineWorks(p, first, second);
    RaisingHidesBadMarker(p, disk, "a", "lost");
  }

  lemma RaisingPipelineWorks(p: Pipeline, first: Step, second: Step)
    requires p == Pipeline([first, second], ["1", "2"], map[])
    requires first == Step({"a"}, {}, first.run) && forall v :: first.run(v) == Some(map["a" := "made"])
    requires second == Step({"b"}, {"a"}, second.run)
    requires forall v :: second.run(v) == if "a" in v && v["a"] == "made" then Some(map["b" := "made"]) else None
    ensures Works(p) && Goal(p) == map["a" := "made", "b" := "made"]
  {
    assert "a"[0] != "b"[0];
    assert p.Valid() by {
      assert "a" in p.steps[0].outputs && p.MadeBefore("a", 1);
    }
    var none: Files, one: Files, other: Files := map[], map["a" := "made"], map["b" := "made"];
    assert none + one == one && one + other == map["a" := "made", "b" := "made"];
    assert View(one, {"a"}) == one;
    assert Stepped(first, none) == Some(one) && Stepped(second, one) == Some(one + other);
    assert p.Fresh(0) == Some(none);
    assert p.Fresh(1) == Stepped(first, none);
    assert p.Fresh(2) == Stepped(second, one);
  }
}
