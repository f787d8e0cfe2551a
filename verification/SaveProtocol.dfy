/**
Battery saves of several processes, interleaved at the granularity of single file operations.
Every operation may fail, every clean-up may fail, and a process may die anywhere.
*/
module SaveProtocol {
  import Iteration
  import MachineWords
  import opened Options

  type Bytes = seq<MachineWords.Byte>

  /** The save, its lock file, its backup, and the temporaries both are written through. */
  datatype Disk = Disk(
    lock: bool, target: Option<Bytes>, targetTmp: Option<Bytes>, bak: Option<Bytes>,
    bakTmp: Option<Bytes>)

  /** A replacement under way; only a session's flush updates the session's baselines. */
  datatype Job = Job(bytes: Bytes, expected: Option<Bytes>, isFlush: bool)

  datatype Phase =
    | Idle
    | Starting(job: Job)
    | Locked(job: Job)
    | Creating(job: Job, backup: bool)
    | Filling(job: Job, backup: bool, written: nat)
    | Renaming(job: Job, backup: bool)
    | Removing(job: Job, backup: bool)
    | Unlocking(job: Job, ok: bool)
    | Crashed

  /** The disk contents a session last saw or wrote, and the RAM it last saved or loaded. */
  datatype Session = Session(disk: Option<Bytes>, lastRam: Bytes)

  datatype Process = Process(phase: Phase, session: Session)

  datatype Action =
    | Open(ram: Bytes)
    | Flush(ram: Bytes)
    | Export(ram: Bytes)
    | Proceed
    | WriteSome(count: nat)
    | Fail
    | Crash

  /** What an atomic write puts in place: the old contents as backup, or the new ones. */
  function Content(job: Job, backup: bool): Bytes {
    if backup then (if job.expected.Some? then job.expected.value else []) else job.bytes
  }

  function Tmp(d: Disk, backup: bool): Option<Bytes> {
    if backup then d.bakTmp else d.targetTmp
  }

  function WithTmp(d: Disk, backup: bool, tmp: Option<Bytes>): Disk {
    if backup then d.(bakTmp := tmp) else d.(targetTmp := tmp)
  }

  /** The temporary moves over the file it was made for. */
  function Renamed(d: Disk, backup: bool): Disk {
    if backup then d.(bak := d.bakTmp, bakTmp := None) else d.(target := d.targetTmp, targetTmp := None)
  }

  /** Under the lock the target is compared with what the caller last observed. */
  function Compared(d: Disk, job: Job): Phase {
    if d.target != job.expected then Unlocking(job, false)
    else if d.target == Some(job.bytes) then Unlocking(job, true)
    else Creating(job, d.target.Some?)
  }

  function Finished(session: Session, job: Job, ok: bool): Process {
    Process(Idle, if ok && job.isFlush then Session(Some(job.bytes), job.bytes) else session)
  }

  /** One file operation that succeeds. */
  function Succeed(p: Process, d: Disk): (Process, Disk) {
    match p.phase
    case Starting(job) =>
      if d.lock then (p.(phase := Idle), d) else (p.(phase := Locked(job)), d.(lock := true))
    case Locked(job) => (p.(phase := Compared(d, job)), d)
    case Creating(job, backup) =>
      if Tmp(d, backup).Some? then (p.(phase := Unlocking(job, false)), d)
      else (p.(phase := Filling(job, backup, 0)), WithTmp(d, backup, Some([])))
    case Filling(job, backup, written) =>
      if written == |Content(job, backup)| then (p.(phase := Renaming(job, backup)), d) else (p, d)
    case Renaming(job, backup) =>
      (p.(phase := if backup then Creating(job, false) else Unlocking(job, true)), Renamed(d, backup))
    case Removing(job, backup) => (p.(phase := Unlocking(job, false)), WithTmp(d, backup, None))
    case Unlocking(job, ok) => (Finished(p.session, job, ok), d.(lock := false))
    case _ => (p, d)
  }

  /** One file operation that fails; a clean-up that fails leaves its file behind. */
  function Failed(p: Process): Process {
    match p.phase
    case Starting(_) => p.(phase := Idle)
    case Locked(job) => p.(phase := Unlocking(job, false))
    case Creating(job, _) => p.(phase := Unlocking(job, false))
    case Filling(job, backup, _) => p.(phase := Removing(job, backup))
    case Renaming(job, backup) => p.(phase := Removing(job, backup))
    case Removing(job, _) => p.(phase := Unlocking(job, false))
    case Unlocking(job, ok) => Finished(p.session, job, ok)
    case _ => p
  }

  function Min(a: nat, b: nat): nat {
    if a < b then a else b
  }

  function Act(p: Process, d: Disk, a: Action): (Process, Disk) {
    match a
    case Open(ram) =>
      if p.phase.Idle? then
        (p.(session := Session(d.target, if d.target.Some? then d.target.value else ram)), d)
      else (p, d)
    case Flush(ram) =>
      if p.phase.Idle? && ram != p.session.lastRam then
        (p.(phase := Starting(Job(ram, p.session.disk, true))), d)
      else (p, d)
    case Export(ram) =>
      if p.phase.Idle? then (p.(phase := Starting(Job(ram, d.target, false))), d) else (p, d)
    case Proceed => Succeed(p, d)
    case WriteSome(count) =>
      if p.phase.Filling? then
        var f := p.phase;
        var content := Content(f.job, f.backup);
        var written := Min(f.written + count, |content|);
        (p.(phase := f.(written := written)), WithTmp(d, f.backup, Some(content[..written])))
      else (p, d)
    case Fail => (Failed(p), d)
    case Crash => (p.(phase := Crashed), d)
  }

  // ----- one process by itself

  /** A process with the disk, and one action of it. */
  function SoloStep(x: (Process, Disk), a: Action): (Process, Disk) {
    Act(x.0, x.1, a)
  }

  function Solo(p: Process, d: Disk, actions: seq<Action>): (Process, Disk) {
    Iteration.FoldLeft(SoloStep, (p, d), actions)
  }

  lemma SoloAppend(p: Process, d: Disk, a: seq<Action>, b: seq<Action>)
    ensures Solo(p, d, a + b) == Solo(Solo(p, d, a).0, Solo(p, d, a).1, b)
  {
    Iteration.FoldLeftAppend(SoloStep, (p, d), a, b);
  }

  lemma SoloOne(p: Process, d: Disk, a: Action)
    ensures Solo(p, d, [a]) == Act(p, d, a)
  {
    assert Iteration.FoldLeft(SoloStep, (p, d), [a])
        == Iteration.FoldLeft(SoloStep, SoloStep((p, d), a), [a][1..]);
  }

  lemma SoloNext(p: Process, d: Disk, actions: seq<Action>, a: Action)
    ensures Solo(p, d, actions + [a]) == Act(Solo(p, d, actions).0, Solo(p, d, actions).1, a)
  {
    SoloAppend(p, d, actions, [a]);
    SoloOne(Solo(p, d, actions).0, Solo(p, d, actions).1, a);
  }

  // ----- what one process keeps

  predicate Holds(phase: Phase) {
    !phase.Idle? && !phase.Starting? && !phase.Crashed?
  }

  /** Past the comparison: the target is still what was expected, and its backup is made. */
  predicate Compares(d: Disk, job: Job, backup: bool) {
    d.target == job.expected && job.expected != Some(job.bytes) && (backup ==> job.expected.Some?) &&
    (!backup && job.expected.Some? ==> d.bak == job.expected)
  }

  /** What the holder of the lock may rely on. */
  predicate PhaseOk(d: Disk, phase: Phase) {
    match phase
    case Creating(job, backup) => Compares(d, job, backup)
    case Filling(job, backup, written) =>
      Compares(d, job, backup) && written <= |Content(job, backup)| &&
      Tmp(d, backup) == Some(Content(job, backup)[..written])
    case Renaming(job, backup) => Compares(d, job, backup) && Tmp(d, backup) == Some(Content(job, backup))
    case Removing(job, backup) => Compares(d, job, backup)
    case Unlocking(job, ok) => ok ==> d.target == Some(job.bytes)
    case _ => true
  }

  lemma OutsiderActs(p: Process, d: Disk, a: Action)
    requires !Holds(p.phase)
    ensures var (q, e) := Act(p, d, a);
      if Holds(q.phase) then !d.lock && e == d.(lock := true) && PhaseOk(e, q.phase) else e == d
  {
  }

  lemma HolderSucceeds(p: Process, d: Disk)
    requires Holds(p.phase) && d.lock && PhaseOk(d, p.phase)
    ensures var r := Succeed(p, d); Holds(r.0.phase) ==> r.1.lock && PhaseOk(r.1, r.0.phase)
  {
    if p.phase.Filling? {
      var content := Content(p.phase.job, p.phase.backup);
      assert content[..|content|] == content;
    }
  }

  lemma HolderActs(p: Process, d: Disk, a: Action)
    requires Holds(p.phase) && d.lock && PhaseOk(d, p.phase)
    ensures var r := Act(p, d, a); Holds(r.0.phase) ==> r.1.lock && PhaseOk(r.1, r.0.phase)
  {
    HolderSucceeds(p, d);
  }

  /** A process that is about to put new contents in place. */
  predicate Commits(p: Process, a: Action) {
    p.phase.Renaming? && !p.phase.backup && a.Proceed?
  }

  /** The target changes only by such a step, whole, from exactly the expected contents. */
  lemma TargetChanges(p: Process, d: Disk, a: Action)
    requires Holds(p.phase) ==> PhaseOk(d, p.phase)
    ensures var (q, e) := Act(p, d, a);
      if Commits(p, a) then
        d.target == p.phase.job.expected && e.target == Some(p.phase.job.bytes) &&
        (d.target.Some? ==> e.bak == d.target)
      else e.target == d.target
  {
  }

  // ----- all processes

  /** One change of the target. */
  datatype Commit = Commit(who: nat, expected: Option<Bytes>, bytes: Bytes)

  datatype State = State(disk: Disk, procs: seq<Process>, log: seq<Commit>)

  datatype Event = Event(who: nat, action: Action)

  function Step(s: State, e: Event): State {
    if e.who >= |s.procs| then s
    else
      var p := s.procs[e.who];
      var (q, disk) := Act(p, s.disk, e.action);
      State(disk, s.procs[e.who := q],
            if Commits(p, e.action) then
              s.log + [Commit(e.who, p.phase.job.expected, p.phase.job.bytes)]
            else s.log)
  }

  function Run(s: State, events: seq<Event>): State {
    Iteration.FoldLeft(Step, s, events)
  }

  /** The target after the commits of a log, if each finds what it expects; the log is a chain. */
  predicate IsChain(initial: Option<Bytes>, log: seq<Commit>, target: Option<Bytes>)
    decreases |log|
  {
    if log == [] then target == initial
    else
      var last := log[|log| - 1];
      target == Some(last.bytes) && IsChain(initial, log[..|log| - 1], last.expected)
  }

  ghost predicate AtMostOneHolds(s: State) {
    forall i, j :: 0 <= i < |s.procs| && 0 <= j < |s.procs| ==>
      (Holds(s.procs[i].phase) && Holds(s.procs[j].phase) ==> i == j)
  }

  ghost predicate HolderOk(s: State) {
    forall i :: 0 <= i < |s.procs| && Holds(s.procs[i].phase) ==>
      s.disk.lock && PhaseOk(s.disk, s.procs[i].phase)
  }

  /** A session's own replacement expects the session's baseline. */
  ghost predicate FlushesOwnBaseline(s: State) {
    forall i :: 0 <= i < |s.procs| ==> ExpectsBaseline(s.procs[i])
  }

  predicate ExpectsBaseline(p: Process) {
    !p.phase.Idle? && !p.phase.Crashed? && p.phase.job.isFlush ==> p.phase.job.expected == p.session.disk
  }

  ghost predicate Inv(initial: Option<Bytes>, s: State) {
    AtMostOneHolds(s) && HolderOk(s) && FlushesOwnBaseline(s) && IsChain(initial, s.log, s.disk.target)
  }

  lemma ActKeepsBaseline(p: Process, d: Disk, a: Action)
    requires ExpectsBaseline(p)
    ensures ExpectsBaseline(Act(p, d, a).0)
  {
  }

  lemma NobodyHolds(s: State)
    requires HolderOk(s) && !s.disk.lock
    ensures forall i :: 0 <= i < |s.procs| ==> !Holds(s.procs[i].phase)
  {
  }

  lemma StepKeepsHolder(s: State, e: Event)
    requires AtMostOneHolds(s) && HolderOk(s) && e.who < |s.procs|
    ensures AtMostOneHolds(Step(s, e)) && HolderOk(Step(s, e))
  {
    var p := s.procs[e.who];
    if Holds(p.phase) {
      HolderActs(p, s.disk, e.action);
    } else {
      OutsiderActs(p, s.disk, e.action);
      if !s.disk.lock {
        NobodyHolds(s);
      }
    }
  }

  lemma StepKeepsChain(initial: Option<Bytes>, s: State, e: Event)
    requires HolderOk(s) && IsChain(initial, s.log, s.disk.target) && e.who < |s.procs|
    ensures IsChain(initial, Step(s, e).log, Step(s, e).disk.target)
  {
    var p := s.procs[e.who];
    TargetChanges(p, s.disk, e.action);
    if Commits(p, e.action) {
      var log := Step(s, e).log;
      assert log[..|log| - 1] == s.log;
    }
  }

  lemma StepKeeps(initial: Option<Bytes>, s: State, e: Event)
    requires Inv(initial, s)
    ensures Inv(initial, Step(s, e))
  {
    if e.who < |s.procs| {
      StepKeepsHolder(s, e);
      StepKeepsChain(initial, s, e);
      ActKeepsBaseline(s.procs[e.who], s.disk, e.action);
    }
  }

  lemma {:induction false} RunKeeps(initial: Option<Bytes>, s: State, events: seq<Event>)
    requires Inv(initial, s)
    ensures Inv(initial, Run(s, events))
    decreases |events|
  {
    if events == [] {
    } else {
      StepKeeps(initial, s, events[0]);
      RunKeeps(initial, Step(s, events[0]), events[1..]);
    }
  }

  /** Any disk without a lock file, and any processes that have not started a replacement. */
  predicate IsStart(s: State) {
    !s.disk.lock && s.log == [] && forall i :: 0 <= i < |s.procs| ==> s.procs[i].phase.Idle?
  }

  /** In every interleaving at most one process holds the lock, and its lock file exists. */
  lemma MutualExclusion(s: State, events: seq<Event>, i: nat, j: nat)
    requires IsStart(s)
    ensures var t := Run(s, events);
      i < |t.procs| && j < |t.procs| && Holds(t.procs[i].phase) && Holds(t.procs[j].phase) ==>
      i == j && t.disk.lock
  {
    RunKeeps(s.disk.target, s, events);
  }

  /**
  In every interleaving each step leaves the target alone or swaps it, whole, from exactly the
  contents the acting process last observed to its new ones, with the replaced contents in the
  backup.
  */
  lemma EveryChangeIsCompareAndSwap(s: State, events: seq<Event>, e: Event)
    requires IsStart(s)
    ensures var t := Run(s, events);
      var u := Step(t, e);
      u.disk.target == t.disk.target ||
      (e.who < |t.procs| && t.procs[e.who].phase.Renaming? &&
       var p := t.procs[e.who];
       t.disk.target == p.phase.job.expected && u.disk.target == Some(p.phase.job.bytes) &&
       (p.phase.job.isFlush ==> t.disk.target == p.session.disk) &&
       (t.disk.target.Some? ==> u.disk.bak == t.disk.target))
  {
    RunKeeps(s.disk.target, s, events);
    var t := Run(s, events);
    if e.who < |t.procs| {
      TargetChanges(t.procs[e.who], t.disk, e.action);
    }
  }

  /** No write is lost: the changes form one chain in which each replaced what its writer expected. */
  lemma ChangesFormAChain(s: State, events: seq<Event>)
    requires IsStart(s)
    ensures var t := Run(s, events); IsChain(s.disk.target, t.log, t.disk.target)
  {
    RunKeeps(s.disk.target, s, events);
  }

  lemma {:induction false} ChainLinks(initial: Option<Bytes>, log: seq<Commit>, target: Option<Bytes>, k: nat)
    requires IsChain(initial, log, target) && k < |log|
    ensures log[k].expected == if k == 0 then initial else Some(log[k - 1].bytes)
    decreases |log|
  {
    if k >= |log| - 1 {
    } else {
      ChainLinks(initial, log[..|log| - 1], log[|log| - 1].expected, k);
    }
  }

  /** A replacement that reports success has its bytes on disk while it still holds the lock. */
  lemma SuccessIsOnDisk(s: State, events: seq<Event>, i: nat)
    requires IsStart(s)
    ensures var t := Run(s, events);
      i < |t.procs| && t.procs[i].phase.Unlocking? && t.procs[i].phase.ok ==>
      t.disk.target == Some(t.procs[i].phase.job.bytes)
  {
    RunKeeps(s.disk.target, s, events);
  }

  // ----- a lock file left behind

  ghost predicate IsStale(s: State, target: Option<Bytes>) {
    s.disk.lock && s.disk.target == target &&
    forall i :: 0 <= i < |s.procs| ==> !Holds(s.procs[i].phase)
  }

  /** Once a process died holding the lock, no run of cooperating processes saves again. */
  lemma {:induction false} StaleLockBlocks(s: State, target: Option<Bytes>, events: seq<Event>)
    requires IsStale(s, target)
    ensures IsStale(Run(s, events), target)
    decreases |events|
  {
    if events == [] {
    } else {
      var e := events[0];
      if e.who < |s.procs| {
        OutsiderActs(s.procs[e.who], s.disk, e.action);
      }
      StaleLockBlocks(Step(s, e), target, events[1..]);
    }
  }

  lemma CrashLeavesStaleLock(s: State, events: seq<Event>, i: nat)
    requires IsStart(s) && i < |Run(s, events).procs| && Holds(Run(s, events).procs[i].phase)
    ensures var t := Run(s, events); IsStale(Step(t, Event(i, Crash)), t.disk.target)
  {
    RunKeeps(s.disk.target, s, events);
  }
}
