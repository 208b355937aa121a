/** What publishers leave behind: in runs without crashes and failed clean-up, neither a lock nor a staging directory; and the one
    fault after which a live publisher leaves its lock. */
module Leftovers {
  import opened Basics
  import opened Bundles
  import opened Publication

  // The points between creating the lock and unlinking it.
  predicate HoldsLock(pc: Pc) {
    pc.Opened? || pc.Locked? || pc.Checked? || pc.Renamed? || (pc.Cleaning? && pc.locked) || pc.Releasing?
  }

  // The points between making the staging directory and renaming or removing it.
  predicate HoldsStaging(pc: Pc) {
    pc.Writing? || pc.Staged? || pc.Opened? || pc.Locked? || pc.Checked? || pc.Cleaning?
  }

  // Nobody dies, clean-up works, and nothing is raised between the lock's creation and the flag that remembers it.
  predicate GentleStep(w: World, s: Step) {
    !s.Crash? && (s.RemoveStaging? ==> s.ok) && (s.Unlink? ==> s.ok) && !(s.Fault? && s.p in w.pcs && w.pcs[s.p].Opened?)
  }

  predicate Gentle(files: Callers, start: World, steps: seq<Step>)
    decreases |steps|
  {
    steps == [] ||
    (Gentle(files, start, steps[..|steps| - 1]) && GentleStep(Exec(files, start, steps[..|steps| - 1]), steps[|steps| - 1]))
  }

  // Whatever is left belongs to a publisher that is still at it.
  predicate Owned(w: World) {
    (w.lock.HeldBy? ==> w.lock.owner in w.pcs && HoldsLock(w.pcs[w.lock.owner])) &&
    (forall p :: p in w.staging ==> p in w.pcs && HoldsStaging(w.pcs[p]))
  }

  // A step that moves one publisher and touches no lock or staging directory.
  lemma MoveOwned(w: World, p: Pid, pc: Pc)
    requires Owned(w) && p in w.pcs && (HoldsLock(w.pcs[p]) ==> HoldsLock(pc)) && (HoldsStaging(w.pcs[p]) ==> HoldsStaging(pc))
    ensures Owned(Move(w, p, pc))
  {
    hide HoldsLock, HoldsStaging;
  }

  lemma ReadingKeeps(files: seq<File>, w: World, s: Step, pc: Pc)
    requires OnlyReads(s) && s.p in w.pcs && w.pcs[s.p] == pc && GentleStep(w, s)
    ensures var next := NextPc(files, w, s, pc); (HoldsLock(pc) ==> HoldsLock(next)) && (HoldsStaging(pc) ==> HoldsStaging(next))
  {
    hide Bundle, Manifest, MANIFEST, Hash;
  }

  lemma MakeStagingOwned(w: World, p: Pid)
    requires Owned(w) && p in w.pcs && w.pcs[p].Making?
    ensures Owned(DoMakeStaging(w, p))
  {
  }

  lemma WriteOwned(files: seq<File>, w: World, p: Pid)
    requires Owned(w) && p in w.pcs && w.pcs[p].Writing? && p in w.staging
    ensures Owned(DoWrite(files, w, p, w.pcs[p].done))
  {
    hide Manifest, MANIFEST;
  }

  lemma TryLockOwned(w: World, p: Pid, deadline: bool)
    requires Owned(w) && p in w.pcs && w.pcs[p].Staged?
    ensures Owned(DoTryLock(w, p, deadline))
  {
  }

  lemma RenameOwned(w: World, p: Pid)
    requires Owned(w) && p in w.pcs && w.pcs[p].Checked? && p in w.staging
    ensures Owned(DoRename(w, p))
  {
  }

  lemma RemoveStagingOwned(w: World, p: Pid)
    requires Owned(w) && p in w.pcs && w.pcs[p].Cleaning?
    ensures Owned(DoRemoveStaging(w, p, w.pcs[p], true))
  {
  }

  lemma UnlinkOwned(w: World, p: Pid)
    requires Owned(w) && p in w.pcs && w.pcs[p].Releasing? && p !in w.staging
    ensures Owned(DoUnlink(w, p, w.pcs[p].outcome, true))
  {
  }

  lemma StepOwned(files: seq<File>, w: World, s: Step, pc: Pc)
    requires Owned(w) && s.p in w.pcs && w.pcs[s.p] == pc && GentleStep(w, s)
    ensures Owned(ApplyTo(files, w, s, pc))
  {
    hide Owned, NextPc, HoldsLock, HoldsStaging;
    var p := s.p;
    if OnlyReads(s) {
      ReadingKeeps(files, w, s, pc);
      ReadingApply(files, w, s, pc);
      MoveOwned(w, p, NextPc(files, w, s, pc));
    } else {
      match s
      case MakeStaging(_) => if pc.Making? { MakeStagingOwned(w, p); }
      case Write(_) => if pc.Writing? && p in w.staging { WriteOwned(files, w, p); }
      case TryLock(_, deadline) => if pc.Staged? { TryLockOwned(w, p, deadline); }
      case Rename(_) => if pc.Checked? && p in w.staging { RenameOwned(w, p); }
      case RemoveStaging(_, _) => if pc.Cleaning? { RemoveStagingOwned(w, p); }
      case Unlink(_, _) =>
        if pc.Releasing? {
          ReleasedHasNone(w, p);
          UnlinkOwned(w, p);
        }
    }
  }

  lemma ReleasedHasNone(w: World, p: Pid)
    requires Owned(w) && p in w.pcs && w.pcs[p].Releasing?
    ensures p !in w.staging
  {
  }

  lemma {:induction false} ExecOwned(files: Callers, start: World, steps: seq<Step>)
    requires Begins(start) && Gentle(files, start, steps)
    ensures Owned(Exec(files, start, steps))
    decreases |steps|
  {
    hide ApplyTo, Owned, GentleStep;
    if steps == [] {
      StartOwned(start);
    } else {
      ExecOwned(files, start, steps[..|steps| - 1]);
      var w, s := Exec(files, start, steps[..|steps| - 1]), steps[|steps| - 1];
      if s.p in w.pcs { StepOwned(files(s.p), w, s, w.pcs[s.p]); }
    }
  }

  lemma StartOwned(start: World)
    requires Begins(start)
    ensures Owned(start)
  {
  }

  /** In a run without crashes, failed clean-up, or a fault between the lock's creation and its flag, a publisher that has finished
      leaves neither a lock nor a staging directory; once all have finished nothing is left but the target and what was found. */
  lemma NothingLeft(files: Callers, start: World, steps: seq<Step>)
    requires Begins(start) && Gentle(files, start, steps)
    ensures var w := Exec(files, start, steps);
            (forall p :: p in w.pcs && w.pcs[p].Finished? ==> w.lock != HeldBy(p) && p !in w.staging) &&
            ((forall p :: p in w.pcs ==> w.pcs[p].Finished?) ==> w.staging == map[] && !w.lock.HeldBy?)
  {
    hide Begins, Gentle, Exec;
    ExecOwned(files, start, steps);
  }

  // A publisher alone, up to the lock.
  lemma Opens(files: Callers, w: World, p: Pid)
    requires p in w.pcs && w.pcs[p].Opened? && w.lock == HeldBy(p)
    ensures var d := Apply(files, Apply(files, w, Fault(p)), RemoveStaging(p, true));
            d.pcs == w.pcs[p := Finished(Rejected)] && d.lock == HeldBy(p)
  {
    var faulted := Apply(files, w, Fault(p));
    assert faulted.pcs == w.pcs[p := Cleaning(false, Broken)] && faulted.lock == w.lock;
  }

  /** The gap is real: wherever a publisher has just created the lock, a fault before the flag is set ends it, alive, with the lock
      still there; nothing and nobody removes it again, and no target appears past it. */
  lemma FaultBeforeFlagLeavesLock(files: Callers, start: World, steps: seq<Step>, p: Pid, more: seq<Step>)
    requires Begins(start)
    requires var w := Exec(files, start, steps); p in w.pcs && w.pcs[p].Opened?
    ensures var gone := steps + [Fault(p)] + [RemoveStaging(p, true)]; var d := Exec(files, start, gone + more);
            p in Exec(files, start, gone).pcs && Exec(files, start, gone).pcs[p] == Finished(Rejected) && d.lock == HeldBy(p) && d.target == Exec(files, start, gone).target
    decreases |more|
  {
    hide Apply, Begins, Local;
    var w := Exec(files, start, steps);
    var gone := steps + [Fault(p)] + [RemoveStaging(p, true)];
    ExecInvariant(files, start, steps);
    assert Local(files(p), w, p, w.pcs[p]);
    OpenedHolds(files(p), w, p);
    Opens(files, w, p);
    ExecOneMore(files, start, steps, Fault(p));
    ExecOneMore(files, start, steps + [Fault(p)], RemoveStaging(p, true));
    StuckAfter(files, start, gone, p, more);
  }

  lemma OpenedHolds(files: seq<File>, w: World, p: Pid)
    requires p in w.pcs && Local(files, w, p, w.pcs[p]) && w.pcs[p].Opened?
    ensures w.lock == HeldBy(p)
  {
  }

  lemma {:induction false} StuckAfter(files: Callers, start: World, steps: seq<Step>, p: Pid, more: seq<Step>)
    requires Begins(start)
    requires var w := Exec(files, start, steps); p in w.pcs && w.pcs[p].Finished? && w.lock == HeldBy(p)
    ensures var w, d := Exec(files, start, steps), Exec(files, start, steps + more);
            d.lock == HeldBy(p) && d.target == w.target && p in d.pcs && d.pcs[p] == w.pcs[p]
    decreases |more|
  {
    hide Apply, Begins, Exec, Invariant;
    if more == [] {
      assert steps + more == steps;
    } else {
      var shorter, s := more[..|more| - 1], more[|more| - 1];
      StuckAfter(files, start, steps, p, shorter);
      assert steps + more == steps + shorter + [s];
      ExecOneMore(files, start, steps + shorter, s);
      ExecInvariant(files, start, steps + shorter);
      StuckStep(files, start, Exec(files, start, steps + shorter), p, s);
    }
  }

  lemma StuckStep(files: Callers, start: World, w: World, p: Pid, s: Step)
    requires Invariant(files, start, w) && p in w.pcs && w.pcs[p].Finished? && w.lock == HeldBy(p)
    ensures var d := Apply(files, w, s); d.lock == HeldBy(p) && d.target == w.target && p in d.pcs && d.pcs[p] == w.pcs[p]
  {
    hide ApplyTo, TargetWhole, Bundle, Contents, MANIFEST, Manifest, Hash;
    if s.p in w.pcs {
      var pc := w.pcs[s.p];
      assert Local(files(s.p), w, s.p, pc);
      LockChange(files(s.p), w, s, pc);
      TargetKept(files(s.p), w, s, pc);
      OtherStays(files(s.p), w, p, s, pc);
    }
  }

  lemma OtherStays(files: seq<File>, w: World, p: Pid, s: Step, pc: Pc)
    requires p in w.pcs && w.pcs[p].Finished? && s.p in w.pcs && w.pcs[s.p] == pc
    ensures var d := ApplyTo(files, w, s, pc); p in d.pcs && d.pcs[p] == w.pcs[p]
  {
    hide Bundle, Contents, MANIFEST, Manifest, Hash;
  }
}
