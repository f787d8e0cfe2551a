/**
What a session gets: its flush passes the comparison exactly when the save is what the session saw,
and a process that acts alone, with nothing in its way, saves every change.
*/
module SaveRuns {
  import opened Options
  import opened SaveProtocol
  import opened SaveProgress

  // ----- the comparison, whatever the other processes do

  ghost predicate NoneBy(who: nat, events: seq<Event>) {
    forall i :: 0 <= i < |events| ==> events[i].who != who
  }

  /** The others leave the registers of `who` alone. */
  lemma {:induction false} OthersKeep(s: State, who: nat, events: seq<Event>)
    requires who < |s.procs| && NoneBy(who, events)
    ensures |Run(s, events).procs| == |s.procs| && Run(s, events).procs[who] == s.procs[who]
    decreases |events|
  {
    if events == [] {
    } else {
      OthersKeep(Step(s, events[0]), who, events[1..]);
    }
  }

  /** The RAM a session starts from: the save, or what the emulator has. */
  function LoadedRam(target: Option<Bytes>, ram: Bytes): Bytes {
    if target.Some? then target.value else ram
  }

  /** Others act, and then `who` does. */
  function After(s: State, others: seq<Event>, who: nat, a: Action): State {
    Step(Run(s, others), Event(who, a))
  }

  /** A session is opened, RAM has changed when it is flushed, and the lock file is made. */
  lemma FlushGetsLock(s: State, who: nat, ram0: Bytes, ram: Bytes, others: seq<seq<Event>>)
    requires who < |s.procs| && s.procs[who].phase.Idle?
    requires |others| == 2 && NoneBy(who, others[0]) && NoneBy(who, others[1])
    requires ram != LoadedRam(s.disk.target, ram0)
    ensures var begun := Step(s, Event(who, Open(ram0)));
      var flushing := After(begun, others[0], who, Flush(ram));
      !Run(flushing, others[1]).disk.lock ==>
      var locked := After(flushing, others[1], who, Proceed);
      |locked.procs| == |s.procs| && locked.disk.lock &&
      locked.procs[who]
        == Process(Locked(Job(ram, s.disk.target, true)), Session(s.disk.target, LoadedRam(s.disk.target, ram0)))
  {
    var begun := Step(s, Event(who, Open(ram0)));
    OthersKeep(begun, who, others[0]);
    var flushing := After(begun, others[0], who, Flush(ram));
    OthersKeep(flushing, who, others[1]);
  }

  /**
  However the others act in between, a session that was opened, found changed RAM and got the lock goes
  on to write if the save is what it was when the session was opened, and gives up if it is not.
  */
  lemma ComparisonPassesIff(
    s: State, who: nat, ram0: Bytes, ram: Bytes, others: seq<seq<Event>>, last: seq<Event>)
    requires who < |s.procs| && s.procs[who].phase.Idle?
    requires |others| == 2 && NoneBy(who, others[0]) && NoneBy(who, others[1]) && NoneBy(who, last)
    requires ram != LoadedRam(s.disk.target, ram0) && s.disk.target != Some(ram)
    requires var flushing := After(Step(s, Event(who, Open(ram0))), others[0], who, Flush(ram));
      !Run(flushing, others[1]).disk.lock
    ensures var flushing := After(Step(s, Event(who, Open(ram0))), others[0], who, Flush(ram));
      var locked := After(flushing, others[1], who, Proceed);
      var compared := After(locked, last, who, Proceed);
      var job := Job(ram, s.disk.target, true);
      |compared.procs| == |s.procs| &&
      compared.procs[who].phase ==
        if Run(locked, last).disk.target == s.disk.target then Creating(job, s.disk.target.Some?)
        else Unlocking(job, false)
  {
    FlushGetsLock(s, who, ram0, ram, others);
    var flushing := After(Step(s, Event(who, Open(ram0))), others[0], who, Flush(ram));
    var locked := After(flushing, others[1], who, Proceed);
    OthersKeep(locked, who, last);
  }

  /**
  What a session remembers moves only when it is opened, and when its own flush, not an export, has been
  reported as saved: then to exactly the bytes it saved.
  */
  lemma SessionMovesOnly(p: Process, d: Disk, a: Action)
    ensures var q := Act(p, d, a).0;
      q.session == p.session || (a.Open? && p.phase.Idle?) ||
      (p.phase.Unlocking? && p.phase.ok && p.phase.job.isFlush &&
       q.session == Session(Some(p.phase.job.bytes), p.phase.job.bytes))
  {
  }

  // ----- a process alone

  function Writing(bytes: Bytes): seq<Action> {
    [Proceed] + ([WriteSome(|bytes|)] + ([Proceed] + [Proceed]))
  }

  /** The file operations of one save: lock, compare, back up what is there, replace it, unlock. */
  function Saving(target: Option<Bytes>, ram: Bytes): seq<Action> {
    ([Flush(ram)] + ([Proceed] + [Proceed])) +
    ((if target.Some? then Writing(target.value) else []) + (Writing(ram) + [Proceed]))
  }

  /** The disk after a save. */
  function Saved(d: Disk, ram: Bytes): Disk {
    d.(target := Some(ram), bak := if d.target.Some? then d.target else d.bak)
  }

  lemma WritesOne(p: Process, d: Disk, backup: bool, content: Bytes)
    requires p.phase.Creating? && p.phase.backup == backup && Tmp(d, backup).None?
    requires content == Content(p.phase.job, backup)
    ensures Solo(p, d, Writing(content))
         == (p.(phase := if backup then Creating(p.phase.job, false) else Unlocking(p.phase.job, true)),
             if backup then d.(bak := Some(content)) else d.(target := Some(content)))
  {
    var job := p.phase.job;
    assert content[..|content|] == content;
    var filled := WithTmp(d, backup, Some(content));
    SoloOne(p.(phase := Renaming(job, backup)), filled, Proceed);
    SoloFirst(p.(phase := Filling(job, backup, |content|)), filled, Proceed, [Proceed]);
    SoloFirst(p.(phase := Filling(job, backup, 0)), WithTmp(d, backup, Some([])), WriteSome(|content|),
              [Proceed] + [Proceed]);
    SoloFirst(p, d, Proceed, [WriteSome(|content|)] + ([Proceed] + [Proceed]));
  }

  lemma Begins(p: Process, d: Disk, ram: Bytes)
    requires p.phase.Idle? && p.session.disk == d.target && ram != p.session.lastRam
    requires !d.lock && d.target != Some(ram)
    ensures Solo(p, d, [Flush(ram)] + ([Proceed] + [Proceed]))
         == (p.(phase := Creating(Job(ram, d.target, true), d.target.Some?)), d.(lock := true))
  {
    var job, locked := Job(ram, d.target, true), d.(lock := true);
    SoloOne(p.(phase := Locked(job)), locked, Proceed);
    SoloFirst(p.(phase := Starting(job)), d, Proceed, [Proceed]);
    SoloFirst(p, d, Flush(ram), [Proceed] + [Proceed]);
  }

  lemma Replaces(p: Process, d: Disk, job: Job)
    requires p.phase == Creating(job, false) && job.isFlush && d.targetTmp.None?
    ensures Solo(p, d, Writing(job.bytes) + [Proceed])
         == (Process(Idle, Session(Some(job.bytes), job.bytes)), d.(target := Some(job.bytes), lock := false))
  {
    WritesOne(p, d, false, job.bytes);
    var written := d.(target := Some(job.bytes));
    SoloAppend(p, d, Writing(job.bytes), [Proceed]);
    SoloOne(p.(phase := Unlocking(job, true)), written, Proceed);
  }

  lemma BacksUpAndReplaces(p: Process, d: Disk, job: Job)
    requires p.phase == Creating(job, d.target.Some?) && job.isFlush && job.expected == d.target
    requires NothingInTheWay(d)
    ensures Solo(p, d, (if d.target.Some? then Writing(d.target.value) else []) + (Writing(job.bytes) + [Proceed]))
         == (Process(Idle, Session(Some(job.bytes), job.bytes)), Saved(d, job.bytes).(lock := false))
  {
    if d.target.Some? {
      var before, rest := d.target.value, Writing(job.bytes) + [Proceed];
      WritesOne(p, d, true, before);
      SoloAppend(p, d, Writing(before), rest);
      Replaces(p.(phase := Creating(job, false)), d.(bak := Some(before)), job);
    } else {
      Replaces(p, d, job);
      var none: seq<Action> := [];
      assert none + (Writing(job.bytes) + [Proceed]) == Writing(job.bytes) + [Proceed];
    }
  }

  /**
  Alone, with changed RAM, no lock, no temporary in the way and the save as last seen, a session saves:
  the new bytes are in place, the old ones are the backup, and the session is ready for the next change.
  */
  lemma SavesAlone(p: Process, d: Disk, ram: Bytes)
    requires p.phase.Idle? && p.session.disk == d.target && ram != p.session.lastRam
    requires !d.lock && NothingInTheWay(d) && d.target != Some(ram)
    ensures Solo(p, d, Saving(d.target, ram)) == (Process(Idle, Session(Some(ram), ram)), Saved(d, ram))
  {
    Begins(p, d, ram);
    var job, locked := Job(ram, d.target, true), d.(lock := true);
    BacksUpAndReplaces(p.(phase := Creating(job, d.target.Some?)), locked, job);
    SoloAppend(p, d, [Flush(ram)] + ([Proceed] + [Proceed]),
      (if d.target.Some? then Writing(d.target.value) else []) + (Writing(ram) + [Proceed]));
    assert Saved(locked, ram).(lock := false) == Saved(d, ram);
  }

  // ----- a whole session

  /** Save one change after the other. */
  function SavingAll(target: Option<Bytes>, rams: seq<Bytes>): seq<Action>
    decreases |rams|
  {
    if rams == [] then [] else Saving(target, rams[0]) + SavingAll(Some(rams[0]), rams[1..])
  }

  /** Each of the contents differs from the ones before it. */
  predicate Changing(before: Bytes, rams: seq<Bytes>)
    decreases |rams|
  {
    rams == [] || (rams[0] != before && Changing(rams[0], rams[1..]))
  }

  /** The save and its backup after all of them: the last two contents. */
  function SavedAll(d: Disk, rams: seq<Bytes>): Disk {
    var n := |rams|;
    if n == 0 then d
    else if n == 1 then Saved(d, rams[0])
    else d.(target := Some(rams[n - 1]), bak := Some(rams[n - 2]))
  }

  lemma SavedNext(d: Disk, rams: seq<Bytes>)
    requires rams != []
    ensures SavedAll(Saved(d, rams[0]), rams[1..]) == SavedAll(d, rams)
  {
    if |rams| == 2 {
      assert rams[1..] == [rams[1]];
    }
  }

  lemma {:induction false} SavesAllAlone(p: Process, d: Disk, rams: seq<Bytes>)
    requires p.phase.Idle? && p.session.disk == d.target && !d.lock && NothingInTheWay(d) && d.bakTmp.None?
    requires d.target.Some? ==> d.target == Some(p.session.lastRam)
    requires Changing(p.session.lastRam, rams)
    ensures var (q, e) := Solo(p, d, SavingAll(d.target, rams));
      q.phase.Idle? && q.session.disk == e.target && e == SavedAll(d, rams)
    decreases |rams|
  {
    if rams == [] {
    } else {
      SavesAlone(p, d, rams[0]);
      SavesAllAlone(Process(Idle, Session(Some(rams[0]), rams[0])), Saved(d, rams[0]), rams[1..]);
      SoloAppend(p, d, Saving(d.target, rams[0]), SavingAll(Some(rams[0]), rams[1..]));
      SavedNext(d, rams);
    }
  }

  /**
  A process that opens a session on a save nobody else touches, and then flushes contents that differ
  from one flush to the next, saves them all: the save ends as the last of them, its backup as the one
  before, and no lock or temporary stays.
  */
  lemma OpenedSavesAll(s: State, who: nat, ram: Bytes, rams: seq<Bytes>)
    requires who < |s.procs| && s.procs[who].phase.Idle?
    requires !s.disk.lock && s.disk.targetTmp.None? && s.disk.bakTmp.None?
    requires Changing(LoadedRam(s.disk.target, ram), rams)
    ensures var t := Run(s, Alone(who, [Open(ram)] + SavingAll(s.disk.target, rams)));
      |t.procs| == |s.procs| && t.procs[who].phase.Idle? && t.disk == SavedAll(s.disk, rams)
  {
    var p, actions := s.procs[who], SavingAll(s.disk.target, rams);
    var begun := Act(p, s.disk, Open(ram)).0;
    SavesAllAlone(begun, s.disk, rams);
    SoloFirst(p, s.disk, Open(ram), actions);
    RunAlone(s, who, [Open(ram)] + actions);
  }
}
