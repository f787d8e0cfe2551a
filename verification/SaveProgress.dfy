/** When a save can still change: exactly what has to be out of the way, and what blocks it for good. */
module SaveProgress {
  import opened Options
  import opened SaveProtocol

  /** Some continuation, of any processes in any order, changes the target. */
  ghost predicate CanChange(s: State) {
    exists events :: Run(s, events).disk.target != s.disk.target
  }

  /** `p` is working on this temporary, so that its next operations move or remove it. */
  predicate Owns(p: Process, backup: bool) {
    (p.phase.Filling? || p.phase.Renaming? || p.phase.Removing?) && p.phase.backup == backup
  }

  /** This temporary is not in the way of `p`. */
  predicate Clears(p: Process, d: Disk, backup: bool) {
    Tmp(d, backup).None? || Owns(p, backup)
  }

  /** The replacement under way has its backup and needs only its own file operations. */
  predicate WillCommit(p: Process, d: Disk) {
    ((p.phase.Filling? || p.phase.Renaming?) && !p.phase.backup) ||
    (p.phase.Creating? && !p.phase.backup && d.targetTmp.None?)
  }

  /** `p` is alive, and neither a lock of another nor a left-over temporary is in its way. */
  predicate IsAble(p: Process, d: Disk) {
    !p.phase.Crashed? &&
    (WillCommit(p, d) ||
     ((d.lock ==> Holds(p.phase)) && Clears(p, d, false) && (d.target.Some? ==> Clears(p, d, true))))
  }

  ghost predicate SomeoneIsAble(s: State) {
    exists i :: 0 <= i < |s.procs| && IsAble(s.procs[i], s.disk)
  }

  // ----- nobody is able: nothing changes, ever

  ghost predicate IsBlocked(s: State, target: Option<Bytes>) {
    AtMostOneHolds(s) && HolderOk(s) && s.disk.target == target && !SomeoneIsAble(s)
  }

  lemma HolderStaysUnable(p: Process, d: Disk, a: Action)
    requires Holds(p.phase) && d.lock && PhaseOk(d, p.phase) && !IsAble(p, d)
    ensures var (q, e) := Act(p, d, a);
      e.target == d.target && !IsAble(q, e) &&
      (!e.lock ==> e.targetTmp.Some? || (e.target.Some? && e.bakTmp.Some?))
  {
  }

  lemma OutsiderStaysUnable(p: Process, d: Disk, a: Action)
    requires !Holds(p.phase) && !IsAble(p, d)
    ensures var (q, e) := Act(p, d, a); !IsAble(q, e) && e == d.(lock := e.lock) && (d.lock ==> e.lock)
  {
  }

  lemma StepStaysBlocked(s: State, target: Option<Bytes>, e: Event)
    requires IsBlocked(s, target)
    ensures IsBlocked(Step(s, e), target)
  {
    if e.who < |s.procs| {
      var p, t := s.procs[e.who], Step(s, e);
      StepKeepsHolder(s, e);
      if Holds(p.phase) {
        HolderStaysUnable(p, s.disk, e.action);
      } else {
        OutsiderStaysUnable(p, s.disk, e.action);
      }
      forall i | 0 <= i < |t.procs|
        ensures !IsAble(t.procs[i], t.disk)
      {
        assert !IsAble(s.procs[i], s.disk);
      }
    }
  }

  lemma {:induction false} BlockedForever(s: State, target: Option<Bytes>, events: seq<Event>)
    requires IsBlocked(s, target)
    ensures IsBlocked(Run(s, events), target)
    decreases |events|
  {
    if events == [] {
    } else {
      StepStaysBlocked(s, target, events[0]);
      BlockedForever(Step(s, events[0]), target, events[1..]);
    }
  }

  // ----- someone is able: alone it changes the target

  /** By itself, `p` can make the target something else than `target`. */
  ghost predicate CanReplace(p: Process, d: Disk, target: Option<Bytes>) {
    exists actions :: Solo(p, d, actions).1.target != target
  }

  lemma FirstAct(p: Process, d: Disk, a: Action, target: Option<Bytes>)
    requires var (q, e) := Act(p, d, a); CanReplace(q, e, target)
    ensures CanReplace(p, d, target)
  {
    var (q, e) := Act(p, d, a);
    var actions :| Solo(q, e, actions).1.target != target;
    SoloAppend(p, d, [a], actions);
    SoloOne(p, d, a);
  }

  lemma RenamingReplaces(p: Process, d: Disk)
    requires p.phase.Renaming? && !p.phase.backup && PhaseOk(d, p.phase)
    ensures CanReplace(p, d, d.target)
  {
    SoloOne(p, d, Proceed);
    assert Solo(p, d, [Proceed]).1.target != d.target;
  }

  /** A write under way gets to its renaming. */
  lemma FillingReplaces(p: Process, d: Disk, content: Bytes, target: Option<Bytes>)
    requires p.phase.Filling? && content == Content(p.phase.job, p.phase.backup)
    requires CanReplace(p.(phase := Renaming(p.phase.job, p.phase.backup)),
                        WithTmp(d, p.phase.backup, Some(content)), target)
    requires p.phase.written <= |content|
    ensures CanReplace(p, d, target)
  {
    var left := |content| - p.phase.written;
    assert content[..|content|] == content;
    var (q, e) := Act(p, d, WriteSome(left));
    FirstAct(q, e, Proceed, target);
    FirstAct(p, d, WriteSome(left), target);
  }

  lemma CommitReplaces(p: Process, d: Disk)
    requires PhaseOk(d, p.phase) && WillCommit(p, d)
    ensures CanReplace(p, d, d.target)
    decreases p.phase.Creating?
  {
    if p.phase.Renaming? {
      RenamingReplaces(p, d);
    } else if p.phase.Filling? {
      var content := Content(p.phase.job, false);
      RenamingReplaces(p.(phase := Renaming(p.phase.job, false)), WithTmp(d, false, Some(content)));
      FillingReplaces(p, d, content, d.target);
    } else {
      var (q, e) := Act(p, d, Proceed);
      CommitReplaces(q, e);
      FirstAct(p, d, Proceed, d.target);
    }
  }

  predicate NothingInTheWay(d: Disk) {
    d.targetTmp.None? && (d.target.Some? ==> d.bakTmp.None?)
  }

  /** The backup goes through, and then the replacement. */
  lemma BackupReplaces(p: Process, d: Disk)
    requires Holds(p.phase) && d.lock && PhaseOk(d, p.phase) && d.targetTmp.None?
    requires (p.phase.Filling? || p.phase.Renaming? || (p.phase.Creating? && d.bakTmp.None?))
    requires p.phase.backup
    ensures CanReplace(p, d, d.target)
    decreases if p.phase.Creating? then 2 else if p.phase.Filling? then 1 else 0
  {
    if p.phase.Filling? {
      var content := Content(p.phase.job, true);
      BackupReplaces(p.(phase := Renaming(p.phase.job, true)), WithTmp(d, true, Some(content)));
      FillingReplaces(p, d, content, d.target);
    } else {
      var (q, e) := Act(p, d, Proceed);
      HolderActs(p, d, Proceed);
      if p.phase.Renaming? {
        CommitReplaces(q, e);
      } else {
        BackupReplaces(q, e);
      }
      FirstAct(p, d, Proceed, d.target);
    }
  }

  /** Contents other than these. */
  function Other(target: Option<Bytes>): (bytes: Bytes)
    ensures target != Some(bytes)
  {
    if target.Some? then
      var longer := target.value + [0];
      assert |longer| > |target.value|;
      longer
    else []
  }

  /** An export of other contents, from the start. */
  lemma IdleReplaces(p: Process, d: Disk)
    requires p.phase.Idle? && !d.lock && NothingInTheWay(d)
    ensures CanReplace(p, d, d.target)
  {
    var job := Job(Other(d.target), d.target, false);
    var locked := d.(lock := true);
    var q := p.(phase := Creating(job, d.target.Some?));
    if d.target.Some? {
      BackupReplaces(q, locked);
    } else {
      CommitReplaces(q, locked);
    }
    FirstAct(p.(phase := Locked(job)), locked, Proceed, d.target);
    FirstAct(p.(phase := Starting(job)), d, Proceed, d.target);
    FirstAct(p, d, Export(job.bytes), d.target);
  }

  /** The replacement under way is given up, and another one begun. */
  lemma GivingUpReplaces(p: Process, d: Disk)
    requires !p.phase.Idle? && !p.phase.Crashed? && !p.phase.Filling? && !p.phase.Renaming?
    requires d.lock ==> Holds(p.phase)
    requires Clears(p, d, false) && (d.target.Some? ==> Clears(p, d, true))
    ensures CanReplace(p, d, d.target)
    decreases !p.phase.Starting? && !p.phase.Unlocking?, !p.phase.Starting?
  {
    var a := if p.phase.Unlocking? || p.phase.Removing? then Proceed else Fail;
    var (q, e) := Act(p, d, a);
    if q.phase.Idle? {
      IdleReplaces(q, e);
    } else {
      GivingUpReplaces(q, e);
    }
    FirstAct(p, d, a, d.target);
  }

  lemma AbleReplaces(p: Process, d: Disk)
    requires IsAble(p, d) && (Holds(p.phase) ==> d.lock && PhaseOk(d, p.phase))
    ensures CanReplace(p, d, d.target)
  {
    if WillCommit(p, d) {
      CommitReplaces(p, d);
    } else if p.phase.Idle? {
      IdleReplaces(p, d);
    } else if p.phase.Filling? || p.phase.Renaming? {
      BackupReplaces(p, d);
    } else {
      GivingUpReplaces(p, d);
    }
  }

  // ----- among the other processes

  function Alone(who: nat, actions: seq<Action>): seq<Event> {
    seq(|actions|, i requires 0 <= i < |actions| => Event(who, actions[i]))
  }

  /** While only one process acts, the others stand still. */
  lemma {:induction false} RunAlone(s: State, who: nat, actions: seq<Action>)
    requires who < |s.procs|
    ensures var t := Run(s, Alone(who, actions));
      t.disk == Solo(s.procs[who], s.disk, actions).1 &&
      t.procs == s.procs[who := Solo(s.procs[who], s.disk, actions).0]
    decreases |actions|
  {
    if actions == [] {
      assert s.procs[who := s.procs[who]] == s.procs;
    } else {
      var t := Step(s, Event(who, actions[0]));
      RunAlone(t, who, actions[1..]);
      assert Alone(who, actions)[1..] == Alone(who, actions[1..]);
    }
  }

  /**
  From every reachable state the save can still be changed if and only if some live process has
  neither another's lock nor a left-over temporary in its way.
  */
  lemma CanChangeIff(s: State, events: seq<Event>)
    requires IsStart(s)
    ensures var t := Run(s, events); CanChange(t) <==> SomeoneIsAble(t)
  {
    RunKeeps(s.disk.target, s, events);
    var t := Run(s, events);
    if SomeoneIsAble(t) {
      var i :| 0 <= i < |t.procs| && IsAble(t.procs[i], t.disk);
      AbleReplaces(t.procs[i], t.disk);
      var actions :| Solo(t.procs[i], t.disk, actions).1.target != t.disk.target;
      RunAlone(t, i, actions);
    } else {
      forall more
        ensures Run(t, more).disk.target == t.disk.target
      {
        BlockedForever(t, t.disk.target, more);
      }
    }
  }

  /**
  With no replacement under way, that is: no lock file, no temporary of the save, and no temporary
  of the backup if there is something to back up.
  */
  lemma QuietCanChangeIff(s: State, events: seq<Event>, live: nat)
    requires IsStart(s)
    requires var t := Run(s, events);
      live < |t.procs| && t.procs[live].phase.Idle? &&
      forall i :: 0 <= i < |t.procs| ==> t.procs[i].phase.Idle? || t.procs[i].phase.Crashed?
    ensures var t := Run(s, events); CanChange(t) <==> !t.disk.lock && NothingInTheWay(t.disk)
  {
    CanChangeIff(s, events);
    var t := Run(s, events);
    assert IsAble(t.procs[live], t.disk) <==> !t.disk.lock && NothingInTheWay(t.disk);
  }

  // ----- a temporary left behind

  /** A write that fails, and a clean-up that fails as well; the lock is released. */
  function LeaveTemporary(who: nat, ram: Bytes): seq<Event> {
    Alone(who, [Flush(ram), Proceed, Proceed, Proceed, Fail, Fail, Proceed])
  }

  lemma SoloFirst(p: Process, d: Disk, a: Action, rest: seq<Action>)
    ensures Solo(p, d, [a] + rest) == Solo(Act(p, d, a).0, Act(p, d, a).1, rest)
  {
    SoloAppend(p, d, [a], rest);
    SoloOne(p, d, a);
  }

  lemma StartsWriting(p: Process, d: Disk, ram: Bytes)
    requires p.phase.Idle? && p.session.disk == d.target && ram != p.session.lastRam
    requires !d.lock && d.target != Some(ram) && Tmp(d, d.target.Some?).None?
    ensures Solo(p, d, [Flush(ram)] + ([Proceed] + ([Proceed] + [Proceed])))
         == (p.(phase := Filling(Job(ram, d.target, true), d.target.Some?, 0)),
             WithTmp(d.(lock := true), d.target.Some?, Some([])))
  {
    var job, locked := Job(ram, d.target, true), d.(lock := true);
    SoloOne(p.(phase := Creating(job, d.target.Some?)), locked, Proceed);
    SoloFirst(p.(phase := Locked(job)), locked, Proceed, [Proceed]);
    SoloFirst(p.(phase := Starting(job)), d, Proceed, [Proceed] + [Proceed]);
    SoloFirst(p, d, Flush(ram), [Proceed] + ([Proceed] + [Proceed]));
  }

  lemma GivesUp(p: Process, d: Disk)
    requires p.phase.Filling?
    ensures Solo(p, d, [Fail] + ([Fail] + [Proceed])) == (p.(phase := Idle), d.(lock := false))
  {
    var f := p.phase;
    SoloOne(p.(phase := Unlocking(f.job, false)), d, Proceed);
    SoloFirst(p.(phase := Removing(f.job, f.backup)), d, Fail, [Proceed]);
    SoloFirst(p, d, Fail, [Fail] + [Proceed]);
  }

  lemma TemporaryStays(p: Process, d: Disk, ram: Bytes)
    requires p.phase.Idle? && p.session.disk == d.target && ram != p.session.lastRam
    requires !d.lock && d.target != Some(ram) && Tmp(d, d.target.Some?).None?
    ensures Solo(p, d, [Flush(ram), Proceed, Proceed, Proceed, Fail, Fail, Proceed])
         == (p, WithTmp(d, d.target.Some?, Some([])))
  {
    var writing := p.(phase := Filling(Job(ram, d.target, true), d.target.Some?, 0));
    var start, rest := [Flush(ram)] + ([Proceed] + ([Proceed] + [Proceed])), [Fail] + ([Fail] + [Proceed]);
    assert [Flush(ram), Proceed, Proceed, Proceed, Fail, Fail, Proceed] == start + rest;
    StartsWriting(p, d, ram);
    GivesUp(writing, WithTmp(d.(lock := true), d.target.Some?, Some([])));
    SoloAppend(p, d, start, rest);
  }

  /** No crash is needed to block a save for good: a failed clean-up does it, the lock released. */
  lemma LeftoverBlocks(s: State, who: nat, ram: Bytes, events: seq<Event>)
    requires IsStart(s) && who < |s.procs|
    requires var p := s.procs[who]; p.session.disk == s.disk.target && ram != p.session.lastRam
    requires s.disk.target != Some(ram) && Tmp(s.disk, s.disk.target.Some?).None?
    ensures var t := Run(s, LeaveTemporary(who, ram));
      !t.disk.lock && t.procs == s.procs && Run(t, events).disk.target == s.disk.target
  {
    var t := Run(s, LeaveTemporary(who, ram));
    TemporaryStays(s.procs[who], s.disk, ram);
    RunAlone(s, who, [Flush(ram), Proceed, Proceed, Proceed, Fail, Fail, Proceed]);
    assert t.procs == s.procs;
    BlockedForever(t, s.disk.target, events);
  }
}
