// The simulation pipeline: steps that declare their outputs, a marker written once a
// step's outputs exist, and runs that skip marked steps after a crash.
module PipelineResume {
  import opened Wrappers

  type Path = string
  type Files = map<Path, string>

  // A step's runner is a function of the files it reads: what it leaves in its declared
  // outputs, or None when it raises.
  datatype Step = Step(outputs: set<Path>, needs: set<Path>, run: Files -> Option<Files>)

  function View(files: Files, paths: set<Path>): Files {
    map p | p in paths && p in files :: files[p]
  }

  // Every path of `part` is in `files` with the same contents.
  predicate Holds(files: Files, part: Files) {
    forall p :: p in part ==> p in files && files[p] == part[p]
  }

  datatype Pipeline = Pipeline(steps: seq<Step>, fingerprints: seq<string>, inputs: Files) {

    // Steps read inputs and the outputs of earlier steps, and write only their own outputs.
    ghost predicate Valid() {
      && |fingerprints| == |steps|
      && (forall i, o :: 0 <= i < |steps| && o in steps[i].outputs ==> o !in inputs)
      && (forall i, j, o :: 0 <= i < j < |steps| && o in steps[i].outputs ==> o !in steps[j].outputs)
      && (forall i, r :: 0 <= i < |steps| && r in steps[i].needs ==> r in inputs || MadeBefore(r, i))
      && (forall i, v :: 0 <= i < |steps| && steps[i].run(v).Some? ==> steps[i].run(v).value.Keys <= steps[i].outputs)
    }

    ghost predicate MadeBefore(path: Path, i: nat)
      requires i <= |steps|
    {
      exists j :: 0 <= j < i && path in steps[j].outputs
    }

    // What the files of a fresh run hold after its first i steps, or None when one of
    // them raises or leaves a declared output out.
    function Fresh(i: nat): Option<Files>
      requires i <= |steps|
      decreases i
    {
      if i == 0 then Some(inputs)
      else
        var before := Fresh(i - 1);
        if before.None? then None else Stepped(steps[i - 1], before.value)
    }

    predicate Marked(disk: Disk, i: nat)
      requires i < |fingerprints|
    {
      i in disk.markers && disk.markers[i] == fingerprints[i]
    }

    // A resumed run may skip the step.
    predicate Complete(disk: Disk, i: nat)
      requires i < |steps| == |fingerprints|
    {
      Marked(disk, i) && steps[i].outputs <= disk.files.Keys
    }
  }

  // One step of a fresh run.
  function Stepped(step: Step, files: Files): Option<Files> {
    var made := step.run(View(files, step.needs));
    if made.Some? && step.outputs <= made.value.Keys then Some(files + made.value) else None
  }

  datatype Disk = Disk(files: Files, markers: map<nat, string>)

  // ---------- Facts about fresh runs ----------

  // After i steps there are the inputs and the outputs of those steps, and nothing else.
  lemma {:induction false} FreshPaths(p: Pipeline, i: nat, path: Path)
    requires p.Valid() && i <= |p.steps| && p.Fresh(i).Some?
    ensures path in p.Fresh(i).value <==> path in p.inputs || p.MadeBefore(path, i)
    decreases i
  {
    if i == 0 {
    } else {
      FreshPaths(p, i - 1, path);
      assert p.MadeBefore(path, i) <==> p.MadeBefore(path, i - 1) || path in p.steps[i - 1].outputs;
    }
  }

  // Later steps leave earlier files as they are.
  lemma FreshGrows(p: Pipeline, i: nat)
    requires p.Valid() && i < |p.steps| && p.Fresh(i + 1).Some?
    ensures p.Fresh(i).Some? && Holds(p.Fresh(i + 1).value, p.Fresh(i).value)
  {
    forall path | path in p.Fresh(i).value
      ensures path in p.Fresh(i + 1).value && p.Fresh(i + 1).value[path] == p.Fresh(i).value[path]
    {
      FreshPaths(p, i, path);
    }
  }

  lemma {:induction false} FreshKeepsEarlier(p: Pipeline, i: nat, n: nat)
    requires p.Valid() && i <= n <= |p.steps| && p.Fresh(n).Some?
    ensures p.Fresh(i).Some? && Holds(p.Fresh(n).value, p.Fresh(i).value)
    decreases n
  {
    if i == n {
    } else {
      FreshGrows(p, n - 1);
      FreshKeepsEarlier(p, i, n - 1);
    }
  }

  // A step sees the same files whatever else lies in the workspace.
  lemma SameView(p: Pipeline, i: nat, files: Files)
    requires p.Valid() && i < |p.steps| && p.Fresh(i).Some? && Holds(files, p.Fresh(i).value)
    ensures View(files, p.steps[i].needs) == View(p.Fresh(i).value, p.steps[i].needs)
  {
    forall r | r in p.steps[i].needs
      ensures r in p.Fresh(i).value
    {
      FreshPaths(p, i, r);
    }
  }

  // ---------- The workspace between actions ----------

  // What the runner of step i makes of a fresh run's files.
  function Made(p: Pipeline, i: nat): Option<Files>
    requires i < |p.steps| && p.Fresh(i).Some?
  {
    p.steps[i].run(View(p.Fresh(i).value, p.steps[i].needs))
  }

  // Step i's outputs are there only as far as its runner makes them.
  ghost predicate OnlyMade(p: Pipeline, files: Files, i: nat)
    requires i < |p.steps| && p.Fresh(i).Some?
  {
    Made(p, i).Some? ==> forall o :: o in p.steps[i].outputs && o in files ==> o in Made(p, i).value
  }

  // The first d steps are marked, their outputs are a fresh run's, and no later step has
  // left anything.
  ghost predicate Through(p: Pipeline, disk: Disk, d: nat)
    requires p.Valid()
  {
    && d <= |p.steps| && p.Fresh(d).Some? && Holds(disk.files, p.Fresh(d).value)
    && (forall i: nat :: i in disk.markers <==> i < d)
    && (forall i: nat :: i < d ==> p.Marked(disk, i))
    && (d < |p.steps| ==> OnlyMade(p, disk.files, d))
    && (forall i, o :: d < i < |p.steps| && o in p.steps[i].outputs ==> o !in disk.files)
  }

  // A marked step is complete.
  lemma MarkedIsComplete(p: Pipeline, disk: Disk, d: nat, i: nat)
    requires p.Valid() && Through(p, disk, d) && i < d
    ensures p.Complete(disk, i)
  {
    forall o | o in p.steps[i].outputs
      ensures o in disk.files
    {
      assert p.MadeBefore(o, d);
      FreshPaths(p, d, o);
    }
  }

  // Before its marker, a step's outputs are as its runner left them.
  ghost predicate JustRan(p: Pipeline, disk: Disk, i: nat)
    requires p.Valid() && i < |p.steps| && p.Fresh(i).Some?
  {
    Made(p, i).Some? && Holds(disk.files, Made(p, i).value)
  }

  // A finished runner has left every declared output exactly when a fresh run gets past
  // the step, and then the files are a fresh run's.
  lemma RanIsFresh(p: Pipeline, disk: Disk, d: nat)
    requires p.Valid() && Through(p, disk, d) && d < |p.steps| && JustRan(p, disk, d)
    ensures p.steps[d].outputs <= disk.files.Keys <==> p.Fresh(d + 1).Some?
    ensures p.Fresh(d + 1).Some? ==> Holds(disk.files, p.Fresh(d + 1).value)
  {
  }

  lemma MarkExtends(p: Pipeline, disk: Disk, d: nat, after: Disk)
    requires p.Valid() && Through(p, disk, d) && d < |p.steps| && JustRan(p, disk, d)
    requires after == disk.(markers := disk.markers[d := p.fingerprints[d]])
    requires p.steps[d].outputs <= disk.files.Keys
    ensures Through(p, after, d + 1)
  {
    RanIsFresh(p, disk, d);
    forall i: nat | i < d + 1
      ensures p.Marked(after, i)
    {
      assert i < d ==> p.Marked(disk, i);
    }
  }

  // Only the outputs of step d differ.
  ghost predicate SameElsewhere(p: Pipeline, files: Files, after: Files, d: nat)
    requires d < |p.steps|
  {
    forall path :: path !in p.steps[d].outputs ==>
      (path in files <==> path in after) && (path in files && path in after ==> files[path] == after[path])
  }

  // What happens to the outputs of the next step disturbs nothing else.
  lemma TouchKeeps(p: Pipeline, disk: Disk, d: nat, after: Disk)
    requires p.Valid() && Through(p, disk, d) && d < |p.steps| && after.markers == disk.markers
    requires SameElsewhere(p, disk.files, after.files, d) && OnlyMade(p, after.files, d)
    ensures Through(p, after, d)
  {
    forall path | path in p.Fresh(d).value
      ensures path in after.files && after.files[path] == p.Fresh(d).value[path]
    {
      FreshPaths(p, d, path);
    }
    forall i: nat | i < d
      ensures p.Marked(after, i)
    {
      assert p.Marked(disk, i);
    }
  }

  // ---------- Runs and crashes ----------

  // Where the attempt is: about to look at step i, inside its runner, past it, or ended.
  datatype Process = Dead | At(i: nat) | Running(i: nat) | Ran(i: nat) | Finished

  datatype World = World(disk: Disk, process: Process, resume: bool)

  // A crash inside a runner leaves its outputs in any state: some paths gone, some with
  // any contents. A removal of the workspace that was killed takes some files and markers.
  datatype Event =
    | Begin(resume: bool)
    | Proceed
    | Crash(gone: set<Path>, left: Files)
    | Removed(taken: set<Path>, unmarked: set<nat>)

  // The paths the runner of step i may have touched so far: what it makes, or any of its
  // outputs when it is going to raise.
  function Touched(p: Pipeline, files: Files, i: nat): set<Path>
    requires i < |p.steps|
  {
    var made := p.steps[i].run(View(files, p.steps[i].needs));
    if made.Some? then made.value.Keys else p.steps[i].outputs
  }

  function Disturbed(files: Files, touched: set<Path>, gone: set<Path>, left: Files): Files {
    (files - (gone * touched)) + (map q | q in left && q in touched :: left[q])
  }

  predicate InPipeline(p: Pipeline, process: Process) {
    && (process.At? ==> process.i <= |p.steps|)
    && (process.Running? || process.Ran? ==> process.i < |p.steps|)
  }

  // Preparing a workspace to resume restores the inputs that are missing from it.
  function Next(p: Pipeline, w: World, e: Event): (next: World)
    requires |p.fingerprints| == |p.steps| && InPipeline(p, w.process)
    ensures InPipeline(p, next.process)
  {
    match e
    case Begin(resume) =>
      if !w.process.Dead? && !w.process.Finished? then w
      else if resume then World(w.disk.(files := p.inputs + w.disk.files), At(0), true)
      else World(Disk(p.inputs, map[]), At(0), false)
    case Removed(taken, unmarked) =>
      if !w.process.Dead? && !w.process.Finished? then w
      else World(Disk(w.disk.files - taken, w.disk.markers - unmarked), Dead, w.resume)
    case Crash(gone, left) =>
      if w.process.Running? then
        var touched := Touched(p, w.disk.files, w.process.i);
        World(w.disk.(files := Disturbed(w.disk.files, touched, gone, left)), Dead, w.resume)
      else w.(process := Dead)
    case Proceed => Proceeded(p, w)
  }

  // The attempt's own next action. An exception ends it.
  function Proceeded(p: Pipeline, w: World): (next: World)
    requires |p.fingerprints| == |p.steps| && InPipeline(p, w.process)
    ensures InPipeline(p, next.process)
  {
    match w.process
    case Dead => w
    case Finished => w
    case At(i) =>
      if i == |p.steps| then w.(process := Finished)
      else if w.resume && p.Complete(w.disk, i) then w.(process := At(i + 1))
      else w.(process := Running(i))
    case Running(i) =>
      var made := p.steps[i].run(View(w.disk.files, p.steps[i].needs));
      if made.None? then w.(process := Dead)
      else w.(disk := w.disk.(files := w.disk.files + made.value), process := Ran(i))
    case Ran(i) =>
      if p.steps[i].outputs <= w.disk.files.Keys
      then w.(disk := w.disk.(markers := w.disk.markers[i := p.fingerprints[i]]), process := At(i + 1))
      else w.(process := Dead)
  }

  ghost predicate Sound(p: Pipeline, w: World, d: nat)
    requires p.Valid()
  {
    && Through(p, w.disk, d)
    && (w.process.At? ==> w.process.i <= d && (w.resume || w.process.i == d))
    && (w.process.Running? ==> w.process.i == d < |p.steps|)
    && (w.process.Ran? ==> w.process.i == d < |p.steps| && JustRan(p, w.disk, d))
    && (w.process.Finished? ==> d == |p.steps|)
  }

  lemma RunnerKeepsSound(p: Pipeline, w: World, d: nat)
    requires p.Valid() && Sound(p, w, d) && w.process.Running?
    ensures Sound(p, Proceeded(p, w), d)
  {
    SameView(p, d, w.disk.files);
    var made := Made(p, d);
    if made.Some? {
      var after := w.disk.(files := w.disk.files + made.value);
      TouchKeeps(p, w.disk, d, after);
    }
  }

  lemma CrashKeepsSound(p: Pipeline, w: World, d: nat, gone: set<Path>, left: Files)
    requires p.Valid() && Sound(p, w, d)
    ensures Sound(p, Next(p, w, Crash(gone, left)), d)
  {
    if w.process.Running? {
      SameView(p, d, w.disk.files);
      TouchKeeps(p, w.disk, d, Next(p, w, Crash(gone, left)).disk);
    }
  }

  lemma ProceedKeepsSound(p: Pipeline, w: World, d: nat) returns (after: nat)
    requires p.Valid() && Sound(p, w, d)
    ensures Sound(p, Proceeded(p, w), after) && d <= after
  {
    after := d;
    match w.process
    case Running(i) => RunnerKeepsSound(p, w, d);
    case Ran(i) =>
      if p.steps[i].outputs <= w.disk.files.Keys {
        MarkExtends(p, w.disk, d, Proceeded(p, w).disk);
        after := d + 1;
      }
    case At(i) =>
      if i < d {
        MarkedIsComplete(p, w.disk, d, i);
      }
    case _ =>
  }

  lemma WipedIsThrough(p: Pipeline)
    requires p.Valid()
    ensures Through(p, Disk(p.inputs, map[]), 0)
  {
  }

  // Nothing is missing from a workspace that holds a fresh run's files.
  lemma NothingToRestore(p: Pipeline, disk: Disk, d: nat)
    requires p.Valid() && Through(p, disk, d)
    ensures p.inputs + disk.files == disk.files
  {
    FreshKeepsEarlier(p, 0, d);
  }

  lemma EventKeepsSound(p: Pipeline, w: World, d: nat, e: Event) returns (after: nat)
    requires p.Valid() && Sound(p, w, d) && !e.Removed?
    ensures Sound(p, Next(p, w, e), after)
  {
    match e
    case Proceed => after := ProceedKeepsSound(p, w, d);
    case Crash(gone, left) =>
      after := d;
      CrashKeepsSound(p, w, d, gone, left);
    case Begin(resume) =>
      NothingToRestore(p, w.disk, d);
      WipedIsThrough(p);
      after := if (w.process.Dead? || w.process.Finished?) && !resume then 0 else d;
  }

  // The world after a sequence of events.
  function After(p: Pipeline, w: World, events: seq<Event>): (after: World)
    requires |p.fingerprints| == |p.steps| && InPipeline(p, w.process)
    ensures InPipeline(p, after.process)
    decreases |events|
  {
    if events == [] then w
    else Next(p, After(p, w, events[..|events| - 1]), events[|events| - 1])
  }

  // Only runs and crashes: nobody removes anything.
  predicate Untouched(events: seq<Event>) {
    forall n :: 0 <= n < |events| ==> !events[n].Removed?
  }

  function Wiped(p: Pipeline): World {
    World(Disk(p.inputs, map[]), Dead, false)
  }

  lemma {:induction false} HistoryIsSound(p: Pipeline, events: seq<Event>) returns (d: nat)
    requires p.Valid() && Untouched(events)
    ensures Sound(p, After(p, Wiped(p), events), d)
    decreases |events|
  {
    if events == [] {
      WipedIsThrough(p);
      d := 0;
    } else {
      var before := HistoryIsSound(p, events[..|events| - 1]);
      d := EventKeepsSound(p, After(p, Wiped(p), events[..|events| - 1]), before, events[|events| - 1]);
    }
  }

  // ---------- Theorems ----------

  // At every point of every history the markers cover the first d steps, the files hold
  // what a fresh run has after them, and no marked step is being run again.
  lemma MarkersCoverAPrefix(p: Pipeline, events: seq<Event>, w: World) returns (d: nat)
    requires p.Valid() && Untouched(events) && w == After(p, Wiped(p), events)
    ensures d <= |p.steps| && forall i: nat :: i in w.disk.markers <==> i < d
    ensures p.Fresh(d).Some? && Holds(w.disk.files, p.Fresh(d).value)
    ensures w.process.Running? ==> w.process.i == d
    ensures w.process.Finished? ==> d == |p.steps|
  {
    d := HistoryIsSound(p, events);
  }

  // A step a resumed run skips has a fresh run's outputs.
  lemma SkippedIsFresh(p: Pipeline, events: seq<Event>, w: World, i: nat, o: Path)
    requires p.Valid() && Untouched(events) && w == After(p, Wiped(p), events) && w.process == At(i) && i < |p.steps|
    requires w.resume && p.Complete(w.disk, i) && o in p.steps[i].outputs
    ensures p.Fresh(i + 1).Some? && o in p.Fresh(i + 1).value
    ensures o in w.disk.files && w.disk.files[o] == p.Fresh(i + 1).value[o]
  {
    var d := HistoryIsSound(p, events);
    MarkedOutputIsFresh(p, w.disk, d, i, o);
  }

  lemma MarkedOutputIsFresh(p: Pipeline, disk: Disk, d: nat, i: nat, o: Path)
    requires p.Valid() && Through(p, disk, d) && i < d && o in p.steps[i].outputs
    ensures p.Fresh(i + 1).Some? && o in p.Fresh(i + 1).value
    ensures o in disk.files && disk.files[o] == p.Fresh(i + 1).value[o]
  {
    FreshKeepsEarlier(p, i + 1, d);
    assert p.MadeBefore(o, i + 1);
    FreshPaths(p, i + 1, o);
  }

  function Left(p: Pipeline, process: Process): nat
    requires InPipeline(p, process)
  {
    match process
    case Dead => 0
    case Finished => 0
    case At(i) => 3 * (|p.steps| - i) + 1
    case Running(i) => 3 * (|p.steps| - i)
    case Ran(i) => 3 * (|p.steps| - i) - 1
  }

  // The attempt left alone until it ends.
  function Completed(p: Pipeline, w: World): World
    requires |p.fingerprints| == |p.steps| && InPipeline(p, w.process)
    decreases Left(p, w.process)
  {
    if w.process.Dead? || w.process.Finished? then w else Completed(p, Proceeded(p, w))
  }

  // It dies only where a fresh run would.
  lemma DiesAsFresh(p: Pipeline, w: World, d: nat)
    requires p.Valid() && Sound(p, w, d) && !w.process.Dead? && Proceeded(p, w).process.Dead?
    ensures p.Fresh(|p.steps|).None?
  {
    SameView(p, d, w.disk.files);
    if w.process.Ran? {
      RanIsFresh(p, w.disk, d);
    }
    if p.Fresh(|p.steps|).Some? {
      FreshKeepsEarlier(p, d + 1, |p.steps|);
    }
  }

  lemma {:induction false} CompletedEndsAsFresh(p: Pipeline, w: World, d: nat)
    requires p.Valid() && Sound(p, w, d) && !w.process.Dead?
    ensures Completed(p, w).process.Finished? <==> p.Fresh(|p.steps|).Some?
    ensures Completed(p, w).process.Finished? ==> Holds(Completed(p, w).disk.files, p.Fresh(|p.steps|).value)
    decreases Left(p, w.process)
  {
    if !w.process.Finished? {
      var after := ProceedKeepsSound(p, w, d);
      if Proceeded(p, w).process.Dead? {
        DiesAsFresh(p, w, d);
      } else {
        CompletedEndsAsFresh(p, Proceeded(p, w), after);
      }
    }
  }

  // After any history, a resumed run ends exactly when a fresh run does, with its outputs.
  lemma ResumedRunEndsAsFresh(p: Pipeline, events: seq<Event>, crash: Event, again: World)
    requires p.Valid() && Untouched(events) && crash.Crash?
    requires again == After(p, Wiped(p), events + [crash, Begin(true)])
    ensures Completed(p, again).process.Finished? <==> p.Fresh(|p.steps|).Some?
    ensures Completed(p, again).process.Finished? ==> Holds(Completed(p, again).disk.files, p.Fresh(|p.steps|).value)
  {
    var all := events + [crash, Begin(true)];
    assert all[..|all| - 1] == events + [crash];
    assert (events + [crash])[..|events|] == events;
    var d := HistoryIsSound(p, all);
    CompletedEndsAsFresh(p, again, d);
  }

  // ---------- The loop ----------

  // Runs the steps in order, skipping complete ones when resuming. It succeeds exactly
  // when a fresh run would, and then leaves a fresh run's outputs and every marker.
  method Run(p: Pipeline, found: Disk, resume: bool, ghost marked: nat) returns (disk: Disk, ok: bool, ghost through: nat)
    requires p.Valid() && Through(p, found, marked)
    ensures Through(p, disk, through)
    ensures ok <==> p.Fresh(|p.steps|).Some?
    ensures ok ==> through == |p.steps| && Holds(disk.files, p.Fresh(|p.steps|).value)
  {
    disk, through := found, marked;
    if resume {
      NothingToRestore(p, found, marked);
      disk := disk.(files := p.inputs + disk.files);
    } else {
      WipedIsThrough(p);
      disk, through := Disk(p.inputs, map[]), 0;
    }
    for i := 0 to |p.steps|
      invariant Through(p, disk, through) && i <= through && (resume || i == through)
    {
      if i < through {
        MarkedIsComplete(p, disk, through, i);
      }
      if !(resume && p.Complete(disk, i)) {
        ghost var w := World(disk, Running(i), resume);
        assert Sound(p, w, through);
        disk, ok := ProcessStep(p, disk, i);
        if !ok {
          return;
        }
        through := through + 1;
      }
    }
    ok := true;
  }

  // Runs one step, checks its outputs and writes its marker.
  method ProcessStep(p: Pipeline, found: Disk, i: nat) returns (disk: Disk, ok: bool)
    requires p.Valid() && Through(p, found, i) && i < |p.steps|
    ensures ok ==> Through(p, disk, i + 1)
    ensures !ok ==> Through(p, disk, i) && p.Fresh(|p.steps|).None?
  {
    disk := found;
    ghost var w := World(disk, Running(i), true);
    RunnerKeepsSound(p, w, i);
    var made := p.steps[i].run(View(disk.files, p.steps[i].needs));
    if made.None? {
      DiesAsFresh(p, w, i);
      return disk, false;
    }
    disk := disk.(files := disk.files + made.value);
    ghost var ran := Proceeded(p, w);
    if !(p.steps[i].outputs <= disk.files.Keys) {
      DiesAsFresh(p, ran, i);
      return disk, false;
    }
    MarkExtends(p, disk, i, disk.(markers := disk.markers[i := p.fingerprints[i]]));
    return disk.(markers := disk.markers[i := p.fingerprints[i]]), true;
  }
}
