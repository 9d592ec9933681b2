// Crash and resume of a tsunami run: the stepping process over arrays, the disk it
// checkpoints to, and every schedule of crashes between and inside its attempts.
module TsunamiResume {
  import opened Wrappers
  import opened ShallowWater
  import opened Conservation
  import opened TsunamiRun

  const INTERVAL: nat := 2000

  // The checkpoint file: missing, unreadable, or the levels after step k.
  datatype Checkpoint = Absent | Unusable | Saved(version: int, k: int, s: Levels)

  datatype Disk = Disk(checkpoint: Checkpoint, gauges: Option<seq<Sample>>, zmax: Option<Grid>)

  // One deployment: inputs, the pipeline version it accepts and its last step.
  datatype Job = Job(x: Setup, version: int, last: nat) {

    predicate Usable(c: Checkpoint) {
      c.Saved? && c.version == version && x.Fit(c.s) && 0 <= c.k <= last
    }

    // Where an attempt starts.
    function ResumeStep(c: Checkpoint): nat {
      if Usable(c) then c.k else 0
    }

    function ResumeLevels(c: Checkpoint): (s: Levels)
      ensures x.Fit(s)
    {
      if Usable(c) then c.s else x.Start()
    }

    // A checkpoint that will be accepted holds what an uninterrupted run holds there.
    ghost predicate Faithful(c: Checkpoint)
      requires x.Valid()
    {
      Usable(c) ==> c.s == x.After(c.k) && c.k % INTERVAL == 0
    }

    // The outputs of an uninterrupted run.
    function Outputs(): Disk
      requires x.Valid()
    {
      Disk(Absent, Some(x.After(last).gauges), Some(x.After(last).zmax))
    }
  }

  // ---------- Stepping over arrays ----------

  // The order each parallel loop takes in one step.
  datatype Orders = Orders(mass: seq<int>, south: seq<int>, north: seq<int>, west: seq<int>, east: seq<int>,
                           mRows: seq<int>, nRows: seq<int>) {
    predicate Valid(b: Basin) {
      && Schedule(mass, 1, b.ia) && Schedule(south, 1, b.ia - 1) && Schedule(north, 1, b.ia - 1)
      && Schedule(west, 1, b.ja - 1) && Schedule(east, 1, b.ja - 1)
      && Schedule(mRows, 1, b.ia - 1) && Schedule(nRows, 1, b.ia)
    }
  }

  // Any order at every step.
  ghost predicate Ordered(b: Basin, orders: nat -> Orders) {
    forall k :: orders(k).Valid(b)
  }

  // Elevations: continuity, then radiation.
  method NewSurface(b: Basin, z1: array2<real>, z2: array2<real>, m1: array2<real>, n1: array2<real>, o: Orders)
    requires b.Valid() && b.RingHasDepth() && o.Valid(b) && Fits(b, z1) && Fits(b, z2) && Fits(b, m1) && Fits(b, n1)
    requires z2 != z1 && z2 != m1 && z2 != n1
    modifies z2
    ensures GridOf(z2) == BoutGrid(b, MassGrid(b, GridOf(z1), old(GridOf(z2)), GridOf(m1), GridOf(n1)),
                                   GridOf(m1), GridOf(n1))
  {
    ghost var mass := MassGrid(b, GridOf(z1), GridOf(z2), GridOf(m1), GridOf(n1));
    Mass(b, z1, z2, m1, n1, o.mass);
    SameCells(b, GridOf(z2), mass);
    Bout(b, z2, m1, n1, o.south, o.north, o.west, o.east);
    SameCells(b, GridOf(z2), BoutGrid(b, mass, GridOf(m1), GridOf(n1)));
  }

  method NewMomentum(b: Basin, z: array2<real>, m1: array2<real>, m2: array2<real>, n1: array2<real>, n2: array2<real>,
                     o: Orders)
    requires b.Valid() && o.Valid(b) && Fits(b, z) && Fits(b, m1) && Fits(b, m2) && Fits(b, n1) && Fits(b, n2)
    requires m2 !in {z, m1, n1, n2} && n2 !in {z, m1, n1}
    modifies m2, n2
    ensures GridOf(m2) == MomentumMGrid(b, GridOf(z), GridOf(m1), old(GridOf(m2)))
    ensures GridOf(n2) == MomentumNGrid(b, GridOf(z), GridOf(n1), old(GridOf(n2)))
  {
    ghost var m := MomentumMGrid(b, GridOf(z), GridOf(m1), GridOf(m2));
    ghost var n := MomentumNGrid(b, GridOf(z), GridOf(n1), GridOf(n2));
    Momentum(b, z, m1, m2, n1, n2, o.mRows, o.nRows);
    SameCells(b, GridOf(m2), m);
    SameCells(b, GridOf(n2), n);
  }

  // Raises every cell of `top` to the surface where the surface is higher.
  method Raise(b: Basin, top: array2<real>, z: array2<real>)
    requires b.Valid() && Fits(b, top) && Fits(b, z) && top != z
    modifies top
    ensures GridOf(top) == Highest(b, old(GridOf(top)), GridOf(z))
  {
    ghost var was := GridOf(top);
    forall i, j | 0 <= i < b.ia && 0 <= j < b.ja {
      top[i, j] := Larger(top[i, j], z[i, j]);
    }
    SameCells(b, GridOf(top), Highest(b, was, GridOf(z)));
  }

  method Load(b: Basin, g: Grid) returns (a: array2<real>)
    requires b.Shaped(g)
    ensures fresh(a) && Fits(b, a) && GridOf(a) == g
  {
    a := new real[b.ia, b.ja]((i, j) requires 0 <= i < b.ia && 0 <= j < b.ja => g[i][j]);
    SameCells(b, GridOf(a), g);
  }

  method LoadPair(b: Basin, g: Grid, k: Grid) returns (a: array2<real>, c: array2<real>)
    requires b.Shaped(g) && b.Shaped(k)
    ensures fresh(a) && fresh(c) && a != c && Fits(b, a) && Fits(b, c) && GridOf(a) == g && GridOf(c) == k
  {
    a := Load(b, g);
    c := Load(b, k);
  }

  class Tsunami {
    const x: Setup
    ghost const buffers: set<object>
    var z1: array2<real>
    var z2: array2<real>
    var m1: array2<real>
    var m2: array2<real>
    var n1: array2<real>
    var n2: array2<real>
    var zmax: array2<real>
    var gauges: seq<Sample>

    ghost predicate Valid()
      reads this
    {
      && x.Valid() && z1 in buffers && z2 in buffers && m1 in buffers && m2 in buffers && n1 in buffers && n2 in buffers
      && zmax in buffers
      && Fits(x.b, z1) && Fits(x.b, z2) && Fits(x.b, m1) && Fits(x.b, m2) && Fits(x.b, n1) && Fits(x.b, n2)
      && Fits(x.b, zmax)
      && z1 !in {z2, m1, m2, n1, n2, zmax} && z2 !in {m1, m2, n1, n2, zmax} && m1 !in {m2, n1, n2, zmax}
      && m2 !in {n1, n2, zmax} && n1 !in {n2, zmax} && n2 != zmax
    }

    function Now(): Levels
      reads this, z1, z2, m1, m2, n1, n2, zmax
    {
      Levels(GridOf(z1), GridOf(z2), GridOf(m1), GridOf(m2), GridOf(n1), GridOf(n2), GridOf(zmax), gauges)
    }

    constructor (x: Setup, s: Levels)
      requires x.Valid() && x.Fit(s)
      ensures this.x == x && Valid() && Now() == s && fresh(buffers)
    {
      this.x := x;
      var z1Copy, z2Copy := LoadPair(x.b, s.z1, s.z2);
      var m1Copy, m2Copy := LoadPair(x.b, s.m1, s.m2);
      var n1Copy, n2Copy := LoadPair(x.b, s.n1, s.n2);
      var zmaxCopy := Load(x.b, s.zmax);
      z1, z2, m1, m2, n1, n2, zmax := z1Copy, z2Copy, m1Copy, m2Copy, n1Copy, n2Copy, zmaxCopy;
      gauges := s.gauges;
      buffers := {z1Copy, z2Copy, m1Copy, m2Copy, n1Copy, n2Copy, zmaxCopy};
    }

    // Samples the new surface when step k is due.
    method TakeSample(k: nat)
      requires Valid() && 1 <= k
      modifies this`gauges, zmax
      ensures gauges == if (k - 1) % KD == 0 then old(gauges) + [x.Taken(k - 1, GridOf(z2))] else old(gauges)
      ensures (k - 1) % KD == 0 ==>
                |gauges| == |old(gauges)| + 1 && gauges[|old(gauges)|].minutes * 60.0 == (k - 1) as real * 3.0
                && |gauges[|old(gauges)|].heights| == |x.points|
                && forall g :: 0 <= g < |x.points| ==> gauges[|old(gauges)|].heights[g] == z2[x.points[g].0, x.points[g].1]
      ensures GridOf(zmax) == if (k - 1) % KD == 0 then Highest(x.b, old(GridOf(zmax)), GridOf(z2)) else old(GridOf(zmax))
    {
      var kk := k - 1;
      if kk % KD == 0 {
        gauges := gauges + [x.Taken(kk, GridOf(z2))];
        Raise(x.b, zmax, z2);
      }
    }

    // One step in place: the kernels write the spare buffers, which then swap roles.
    method Advance(k: nat, o: Orders)
      requires Valid() && 1 <= k && o.Valid(x.b) && x.Fit(Now())
      modifies this, buffers
      ensures Valid() && Now() == x.Step(k, old(Now()))
    {
      NewSurface(x.b, z1, z2, m1, n1, o);
      NewMomentum(x.b, z2, m1, m2, n1, n2, o);
      TakeSample(k);
      Swap();
    }

    // The buffers trade places; nothing is copied.
    method Swap()
      requires Valid()
      modifies this`z1, this`z2, this`m1, this`m2, this`n1, this`n2
      ensures z1 == old(z2) && z2 == old(z1) && m1 == old(m2) && m2 == old(m1) && n1 == old(n2) && n2 == old(n1)
      ensures Valid()
    {
      z1, z2 := z2, z1;
      m1, m2 := m2, m1;
      n1, n2 := n2, n1;
    }
  }

  // The attempt picks up the levels it accepts.
  method Resume(job: Job, c: Checkpoint) returns (sea: Tsunami)
    requires job.x.Valid() && job.Faithful(c)
    ensures fresh(sea) && fresh(sea.buffers) && sea.x == job.x && sea.Valid()
    ensures job.ResumeStep(c) <= job.last && sea.Now() == job.x.After(job.ResumeStep(c))
  {
    sea := new Tsunami(job.x, job.ResumeLevels(c));
  }

  // One turn of the loop along a run: step k + 1, and a checkpoint when one is due.
  method Turn(job: Job, sea: Tsunami, k: nat, c: Checkpoint, orders: nat -> Orders, ghost run: seq<Levels>)
    returns (saved: Checkpoint)
    requires sea.Valid() && sea.x == job.x && Ordered(job.x.b, orders)
    requires IsRun(job.x, run) && k + 1 < |run| && sea.Now() == run[k]
    modifies sea, sea.buffers
    ensures sea.Valid() && sea.Now() == run[k + 1]
    ensures saved == if (k + 1) % INTERVAL == 0 then Saved(job.version, k + 1, run[k + 1]) else c
  {
    RunStep(job.x, run, k);
    sea.Advance(k + 1, orders(k + 1));
    saved := if (k + 1) % INTERVAL == 0 then Saved(job.version, k + 1, sea.Now()) else c;
  }

  // The steps left, from `start` to the last, along the uninterrupted run.
  method TakeSteps(job: Job, sea: Tsunami, start: nat, c: Checkpoint, orders: nat -> Orders, ghost run: seq<Levels>)
    returns (saved: Checkpoint)
    requires sea.Valid() && sea.x == job.x && Ordered(job.x.b, orders) && start <= job.last
    requires |run| == job.last + 1 && IsRun(job.x, run) && sea.Now() == run[start]
    modifies sea, sea.buffers
    ensures sea.Valid() && sea.Now() == run[job.last]
  {
    saved := c;
    for k := start to job.last
      invariant sea.Valid() && sea.Now() == run[k]
    {
      saved := Turn(job, sea, k, saved, orders, run);
    }
  }

  // One attempt, from the checkpoint it accepts to the outputs, whatever order the
  // parallel loops take.
  method RunTsunami(job: Job, found: Disk, orders: nat -> Orders) returns (disk: Disk)
    requires job.x.Valid() && job.Faithful(found.checkpoint) && Ordered(job.x.b, orders)
    ensures disk == job.Outputs()
  {
    var start := job.ResumeStep(found.checkpoint);
    var sea := Resume(job, found.checkpoint);
    ghost var run := RunOf(job.x, job.last);
    RunsAgree(job.x, run, start);
    RunsAgree(job.x, run, job.last);
    var saved := TakeSteps(job, sea, start, found.checkpoint, orders, run);
    var levels := sea.Now();
    disk := Disk(saved, Some(levels.gauges), found.zmax);
    disk := disk.(zmax := Some(levels.zmax));
    disk := disk.(checkpoint := Absent);
  }

  // ---------- Crashes ----------

  // The process between two disk operations.
  datatype Process =
    | Dead
    | Stepping(k: nat, s: Levels, due: bool)
    | WroteGauges(s: Levels)
    | WroteBoth(s: Levels)
    | Finished

  // `intact` says the checkpoint has not been spoiled since it was last read or written.
  datatype World = World(disk: Disk, process: Process, intact: bool)

  // Crash stops the process anywhere; Spoil makes the checkpoint unreadable.
  datatype Event = Begin | Proceed | Crash | Spoil

  function Next(job: Job, w: World, e: Event): World
    requires job.x.Valid() && InStride(job, w.process)
  {
    match e
    case Begin =>
      if w.process.Dead? || w.process.Finished?
      then World(w.disk, Stepping(job.ResumeStep(w.disk.checkpoint), job.ResumeLevels(w.disk.checkpoint), false), true)
      else w
    case Crash => w.(process := Dead)
    case Spoil => World(w.disk.(checkpoint := Unusable), w.process, false)
    case Proceed => Proceeded(job, w)
  }

  predicate InStride(job: Job, p: Process) {
    p.Stepping? ==> p.k <= job.last && job.x.Fit(p.s)
  }

  // The attempt's own next action: a step, a checkpoint, an output or the clean-up.
  function Proceeded(job: Job, w: World): World
    requires job.x.Valid() && InStride(job, w.process)
  {
    match w.process
    case Dead => w
    case Finished => w
    case Stepping(k, s, due) =>
      if due then World(w.disk.(checkpoint := Saved(job.version, k, s)), Stepping(k, s, false), true)
      else if k < job.last then w.(process := Stepping(k + 1, job.x.Step(k + 1, s), (k + 1) % INTERVAL == 0))
      else w.(disk := w.disk.(gauges := Some(s.gauges)), process := WroteGauges(s))
    case WroteGauges(s) => w.(disk := w.disk.(zmax := Some(s.zmax)), process := WroteBoth(s))
    case WroteBoth(s) => w.(disk := w.disk.(checkpoint := Absent), process := Finished)
  }

  // The last step a checkpoint is due for once step k is past, or reached and saved.
  function LastDue(k: nat, due: bool): nat {
    if due && k > 0 then (k - 1) / INTERVAL * INTERVAL else k / INTERVAL * INTERVAL
  }

  // A process of this job holds levels of the right shape, at a step within the run.
  ghost predicate Paced(job: Job, p: Process)
    requires job.x.Valid()
  {
    p.Stepping? ==> p.k <= job.last && job.x.Fit(p.s) && (p.due ==> p.k % INTERVAL == 0 && 0 < p.k)
  }

  // It holds what an uninterrupted run holds at that step.
  ghost predicate OnCourse(job: Job, p: Process)
    requires job.x.Valid()
  {
    match p
    case Dead => true
    case Finished => true
    case Stepping(k, s, due) => s == job.x.After(k)
    case WroteGauges(s) => s == job.x.After(job.last)
    case WroteBoth(s) => s == job.x.After(job.last)
  }

  // Whatever output is on disk is that of the final levels `goal`, and each stage of
  // the process has left its outputs there.
  ghost predicate Written(goal: Levels, w: World) {
    && w.disk.gauges in {None, Some(goal.gauges)} && w.disk.zmax in {None, Some(goal.zmax)}
    && (w.process.WroteGauges? || w.process.WroteBoth? || w.process.Finished? ==> w.disk.gauges.Some?)
    && (w.process.WroteBoth? || w.process.Finished? ==> w.disk.zmax.Some?)
  }

  // Unless spoiled, the checkpoint is the latest one due.
  ghost predicate Recent(job: Job, w: World)
    requires job.x.Valid()
  {
    w.intact && w.process.Stepping? && 0 < LastDue(w.process.k, w.process.due) ==>
      job.Usable(w.disk.checkpoint) && w.disk.checkpoint.k == LastDue(w.process.k, w.process.due)
  }

  ghost predicate Sound(job: Job, w: World)
    requires job.x.Valid()
  {
    && Paced(job, w.process) && OnCourse(job, w.process) && job.Faithful(w.disk.checkpoint)
    && Written(job.x.After(job.last), w) && Recent(job, w)
  }

  lemma BeginIsSound(job: Job, w: World)
    requires job.x.Valid() && Sound(job, w)
    ensures Sound(job, Next(job, w, Begin))
  {
  }

  lemma StepOnCourse(job: Job, k: nat, s: Levels, t: Levels, due: bool)
    requires job.x.Valid() && s == job.x.After(k) && t == job.x.Step(k + 1, s)
    ensures OnCourse(job, Stepping(k + 1, t, due))
  {
  }

  lemma LastStepOnCourse(job: Job, k: nat, s: Levels)
    requires job.x.Valid() && k == job.last && OnCourse(job, Stepping(k, s, false))
    ensures OnCourse(job, WroteGauges(s))
  {
  }

  lemma ProceedOnCourse(job: Job, w: World)
    requires job.x.Valid() && Paced(job, w.process) && OnCourse(job, w.process)
    ensures OnCourse(job, Proceeded(job, w).process)
  {
    if w.process.Stepping? && !w.process.due {
      if w.process.k < job.last {
        NextStepOnCourse(job, w);
      } else {
        LastStepOnCourse(job, w.process.k, w.process.s);
      }
    }
  }

  lemma NextStepOnCourse(job: Job, w: World)
    requires job.x.Valid() && Paced(job, w.process) && OnCourse(job, w.process)
    requires w.process.Stepping? && !w.process.due && w.process.k < job.last
    ensures OnCourse(job, Proceeded(job, w).process)
  {
    var k, s := w.process.k, w.process.s;
    StepOnCourse(job, k, s, job.x.Step(k + 1, s), (k + 1) % INTERVAL == 0);
  }

  lemma ProceedFaithful(job: Job, w: World)
    requires job.x.Valid() && Paced(job, w.process) && OnCourse(job, w.process) && job.Faithful(w.disk.checkpoint)
    ensures job.Faithful(Proceeded(job, w).disk.checkpoint)
  {
  }

  lemma ProceedWritten(job: Job, w: World, goal: Levels)
    requires job.x.Valid() && Paced(job, w.process) && Written(goal, w)
    requires w.process.Stepping? && w.process.k == job.last ==> w.process.s == goal
    requires w.process.WroteGauges? || w.process.WroteBoth? ==> w.process.s == goal
    ensures Written(goal, Proceeded(job, w))
  {
  }

  lemma ProceedRecent(job: Job, w: World)
    requires job.x.Valid() && Paced(job, w.process) && Recent(job, w)
    ensures Paced(job, Proceeded(job, w).process) && Recent(job, Proceeded(job, w))
  {
  }

  lemma EventKeepsSound(job: Job, w: World, e: Event)
    requires job.x.Valid() && Sound(job, w)
    ensures Sound(job, Next(job, w, e))
  {
    match e
    case Begin => BeginIsSound(job, w);
    case Crash =>
    case Spoil =>
    case Proceed =>
      ProceedOnCourse(job, w);
      ProceedFaithful(job, w);
      ProceedWritten(job, w, job.x.After(job.last));
      ProceedRecent(job, w);
  }

  // Where a job starts: no outputs yet, and no checkpoint it would wrongly accept.
  ghost predicate Fresh(job: Job, disk: Disk)
    requires job.x.Valid()
  {
    disk.gauges.None? && disk.zmax.None? && job.Faithful(disk.checkpoint)
  }

  // Whatever a checkpoint of another version holds, or one of other shapes or of a step
  // outside the run: a job may start from it, and starts from the beginning.
  lemma ForeignCheckpointIsHarmless(job: Job, disk: Disk)
    requires job.x.Valid() && disk.gauges.None? && disk.zmax.None?
    requires disk.checkpoint.Saved? ==>
               disk.checkpoint.version != job.version || !job.x.Fit(disk.checkpoint.s)
               || disk.checkpoint.k < 0 || job.last < disk.checkpoint.k
    ensures Fresh(job, disk) && job.ResumeStep(disk.checkpoint) == 0 && job.ResumeLevels(disk.checkpoint) == job.x.Start()
  {
  }

  // A checkpoint the job wrote itself is picked up where it was written.
  lemma OwnCheckpointIsResumed(job: Job, k: nat)
    requires job.x.Valid() && k <= job.last
    ensures job.ResumeStep(Saved(job.version, k, job.x.After(k))) == k
    ensures job.ResumeLevels(Saved(job.version, k, job.x.After(k))) == job.x.After(k)
  {
  }

  // The world after a history of attempts, crashes and spoiled checkpoints.
  ghost function History(job: Job, disk: Disk, events: seq<Event>): (w: World)
    requires job.x.Valid() && Fresh(job, disk)
    ensures Sound(job, w)
    decreases |events|
  {
    if events == [] then World(disk, Dead, true)
    else
      var last := |events| - 1;
      var w := History(job, disk, events[..last]);
      EventKeepsSound(job, w, events[last]);
      Next(job, w, events[last])
  }

  // ---------- Theorems ----------

  // Actions the attempt still has to take.
  function Left(job: Job, p: Process): nat
    requires InStride(job, p)
  {
    match p
    case Dead => 0
    case Finished => 0
    case Stepping(k, s, due) => 2 * (job.last - k) + (if due then 1 else 0) + 3
    case WroteGauges(s) => 2
    case WroteBoth(s) => 1
  }

  lemma ProceedLeavesLess(job: Job, w: World)
    requires job.x.Valid() && Paced(job, w.process) && !w.process.Dead? && !w.process.Finished?
    ensures InStride(job, Proceeded(job, w).process) && !Proceeded(job, w).process.Dead?
    ensures Left(job, Proceeded(job, w).process) < Left(job, w.process)
  {
  }

  // The attempt left alone until it ends.
  ghost function Completed(job: Job, w: World): (r: World)
    requires job.x.Valid() && Sound(job, w) && !w.process.Dead?
    ensures Sound(job, r) && r.process.Finished?
    decreases Left(job, w.process)
  {
    if w.process.Finished? then w
    else
      EventKeepsSound(job, w, Proceed);
      ProceedLeavesLess(job, w);
      Completed(job, Proceeded(job, w))
  }

  // The clean-up removes the checkpoint.
  lemma {:induction false} CompletedIsTidy(job: Job, w: World)
    requires job.x.Valid() && Sound(job, w) && !w.process.Dead? && !w.process.Finished?
    ensures Completed(job, w).disk.checkpoint.Absent?
    decreases Left(job, w.process)
  {
    EventKeepsSound(job, w, Proceed);
    ProceedLeavesLess(job, w);
    if !Proceeded(job, w).process.Finished? {
      CompletedIsTidy(job, Proceeded(job, w));
    }
  }

  // At every crash point, whatever output exists is an uninterrupted run's.
  lemma OutputsAreNeverPartial(job: Job, disk: Disk, events: seq<Event>)
    requires job.x.Valid() && Fresh(job, disk)
    ensures History(job, disk, events).disk.gauges in {None, job.Outputs().gauges}
    ensures History(job, disk, events).disk.zmax in {None, job.Outputs().zmax}
    ensures History(job, disk, events).process.Finished? ==>
              History(job, disk, events).disk.gauges.Some? && History(job, disk, events).disk.zmax.Some?
  {
  }

  // After any history, killing the process and running it again leaves exactly what one
  // uninterrupted run leaves.
  lemma ResumeEqualsUninterrupted(job: Job, disk: Disk, events: seq<Event>, again: World)
    requires job.x.Valid() && Fresh(job, disk)
    requires again == Next(job, Next(job, History(job, disk, events), Crash), Begin)
    ensures Sound(job, again) && !again.process.Dead?
    ensures Completed(job, again).disk == job.Outputs()
  {
    EventKeepsSound(job, History(job, disk, events), Crash);
    EventKeepsSound(job, Next(job, History(job, disk, events), Crash), Begin);
    CompletedIsTidy(job, again);
  }

  lemma {:induction false} UnspoiledIsIntact(job: Job, disk: Disk, events: seq<Event>)
    requires job.x.Valid() && Fresh(job, disk) && forall i :: 0 <= i < |events| ==> events[i] != Spoil
    ensures History(job, disk, events).intact
    decreases |events|
  {
    if events == [] {
    } else {
      UnspoiledIsIntact(job, disk, events[..|events| - 1]);
    }
  }

  // Unless its checkpoint was spoiled since it was last read or written, and so in every
  // history without spoiling, a crash costs at most one interval of steps.
  lemma CrashLosesLittle(job: Job, disk: Disk, events: seq<Event>, w: World)
    requires job.x.Valid() && Fresh(job, disk) && w == History(job, disk, events) && w.process.Stepping?
    requires w.intact || forall i :: 0 <= i < |events| ==> events[i] != Spoil
    ensures w.process.k <= job.ResumeStep(w.disk.checkpoint) + INTERVAL
  {
    if !w.intact {
      UnspoiledIsIntact(job, disk, events);
    }
    assert Recent(job, w) && Paced(job, w.process);
  }
}
