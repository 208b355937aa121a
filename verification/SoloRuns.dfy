/** What each participant of the concurrent models achieves when nobody gets in its way: a publisher publishes or reuses, a
    runner is charged one unit and calls once, a connection is answered and its slot given back, a claim is completed. */
module SoloRuns {
  import opened Basics
  import Protocol
  import Bundles
  import P = Publication
  import Budget
  import B = BudgetRuns
  import Transport
  import S = Server
  import Ledger
  import L = LedgerRuns

  /* ---------- a publisher ---------- */

  // The publisher's own steps, none of them a fault or a crash.
  predicate Own(steps: seq<P.Step>, p: P.Pid) {
    forall i :: 0 <= i < |steps| ==> steps[i].p == p && !steps[i].Fault? && !steps[i].Crash?
  }

  lemma OwnMore(steps: seq<P.Step>, s: P.Step, p: P.Pid)
    requires Own(steps, p) && s.p == p && !s.Fault? && !s.Crash?
    ensures Own(steps + [s], p)
  {
  }

  // `w` with publisher p at this point, holding this staging directory.
  function Staging(w: P.World, p: P.Pid, pc: P.Pc, lock: P.Lock, staged: Bundles.Dir): P.World {
    w.(pcs := w.pcs[p := pc], lock := lock, staging := w.staging[p := staged])
  }

  // `w` once publisher p's rename is done.
  function After(w: P.World, p: P.Pid, pc: P.Pc, lock: P.Lock, dir: Bundles.Dir): P.World {
    w.(pcs := w.pcs[p := pc], lock := lock, staging := w.staging - {p}, target := Some(dir), winners := w.winners + [p])
  }

  lemma WriteOne(files: P.Callers, w: P.World, p: P.Pid, k: nat)
    requires k < |files(p)|
    ensures P.Apply(files, Staging(w, p, P.Writing(k), w.lock, Bundles.Contents(files(p)[..k])), P.Write(p)) ==
            Staging(w, p, P.Writing(k + 1), w.lock, Bundles.Contents(files(p)[..k + 1]))
  {
    P.ContentsNext(files(p), k);
    hide Bundles.Contents, Bundles.Manifest, Bundles.MANIFEST, P.NextPc, P.DoTryLock, P.DoRename, P.DoRemoveStaging, P.DoUnlink, P.DoMakeStaging,
         P.After, P.Faulted;
  }

  lemma {:induction false} WriteAll(files: P.Callers, w: P.World, p: P.Pid, k: nat) returns (steps: seq<P.Step>)
    requires k <= |files(p)|
    ensures Own(steps, p)
    ensures P.Exec(files, Staging(w, p, P.Writing(0), w.lock, map[]), steps) ==
            Staging(w, p, P.Writing(k), w.lock, Bundles.Contents(files(p)[..k]))
  {
    hide P.Apply, Bundles.Contents, Staging;
    if k == 0 {
      steps := [];
      P.ContentsEmpty(files(p)[..0]);
    } else {
      steps := WriteAll(files, w, p, k - 1);
      WriteOne(files, w, p, k - 1);
      P.ExecOneMore(files, Staging(w, p, P.Writing(0), w.lock, map[]), steps, P.Write(p));
      OwnMore(steps, P.Write(p), p);
      steps := steps + [P.Write(p)];
    }
  }

  lemma StartWriting(files: P.Callers, w: P.World, p: P.Pid)
    requires p in w.pcs && w.pcs[p].Start? && w.target.None?
    ensures P.Apply(files, P.Apply(files, w, P.Probe(p)), P.MakeStaging(p)) == Staging(w, p, P.Writing(0), w.lock, map[])
  {
  }

  lemma WriteManifest(files: P.Callers, w: P.World, p: P.Pid)
    ensures P.Apply(files, Staging(w, p, P.Writing(|files(p)|), w.lock, Bundles.Contents(files(p))), P.Write(p)) ==
            Staging(w, p, P.Staged, w.lock, Bundles.Bundle(files(p)))
  {
    hide Bundles.Contents, Bundles.Manifest, Bundles.MANIFEST;
  }

  lemma LockUp(files: P.Callers, w: P.World, p: P.Pid, dir: Bundles.Dir)
    requires w.lock.Free? && w.target.None?
    ensures var locked := P.Apply(files, Staging(w, p, P.Staged, w.lock, dir), P.TryLock(p, false));
            var flagged := P.Apply(files, locked, P.SetFlag(p));
            P.Apply(files, flagged, P.Check(p)) == Staging(w, p, P.Checked, P.HeldBy(p), dir)
  {
  }

  lemma RenameUp(files: P.Callers, w: P.World, p: P.Pid, dir: Bundles.Dir)
    ensures P.Apply(files, Staging(w, p, P.Checked, P.HeldBy(p), dir), P.Rename(p)) == After(w, p, P.Renamed, P.HeldBy(p), dir)
  {
    hide P.NextPc, P.DoWrite, P.DoTryLock, P.DoRemoveStaging, P.DoUnlink, P.DoMakeStaging;
    assert w.staging[p := dir] - {p} == w.staging - {p};
  }

  lemma SyncAndUnlink(files: P.Callers, w: P.World, p: P.Pid, dir: Bundles.Dir)
    ensures P.Apply(files, P.Apply(files, After(w, p, P.Renamed, P.HeldBy(p), dir), P.SyncParent(p)), P.Unlink(p, true)) ==
            After(w, p, P.ReadingManifest, P.Free, dir)
  {
    var synced := P.Apply(files, After(w, p, P.Renamed, P.HeldBy(p), dir), P.SyncParent(p));
    assert synced == After(w, p, P.Releasing(P.Won), P.HeldBy(p), dir);
  }

  lemma ReadItBack(files: P.Callers, w: P.World, p: P.Pid)
    ensures P.Apply(files, After(w, p, P.ReadingManifest, P.Free, Bundles.Bundle(files(p))), P.ReadBack(p)) ==
            After(w, p, P.Finished(P.Published(Bundles.Hash(Bundles.Manifest(files(p))))), P.Free, Bundles.Bundle(files(p)))
  {
    Bundles.BundleHasManifest(files(p));
    hide Bundles.Bundle, Bundles.Manifest, Bundles.MANIFEST, Bundles.Hash;
  }

  // Writing everything, up to the manifest.
  lemma StageAll(files: P.Callers, w: P.World, p: P.Pid) returns (steps: seq<P.Step>)
    requires p in w.pcs && w.pcs[p].Start? && w.target.None?
    ensures Own(steps, p) && P.Exec(files, w, steps) == Staging(w, p, P.Staged, w.lock, Bundles.Bundle(files(p)))
  {
    hide P.Apply, Staging, Bundles.Contents, Bundles.Bundle;
    StartWriting(files, w, p);
    P.ExecOneMore(files, w, [], P.Probe(p));
    P.ExecOneMore(files, w, [] + [P.Probe(p)], P.MakeStaging(p));
    var first := [] + [P.Probe(p)] + [P.MakeStaging(p)];
    var writes := WriteAll(files, w, p, |files(p)|);
    assert files(p)[..|files(p)|] == files(p);
    ExecConcat(files, w, first, writes);
    OwnConcat(first, writes, p);
    WriteManifest(files, w, p);
    P.ExecOneMore(files, w, first + writes, P.Write(p));
    OwnMore(first + writes, P.Write(p), p);
    steps := first + writes + [P.Write(p)];
  }

  lemma OwnConcat(a: seq<P.Step>, b: seq<P.Step>, p: P.Pid)
    requires Own(a, p) && Own(b, p)
    ensures Own(a + b, p)
  {
  }

  lemma {:induction false} ExecConcat(files: P.Callers, w: P.World, a: seq<P.Step>, b: seq<P.Step>)
    ensures P.Exec(files, w, a + b) == P.Exec(files, P.Exec(files, w, a), b)
    decreases |b|
  {
    hide P.Apply;
    if b == [] {
      assert a + b == a;
    } else {
      assert (a + b)[..|a + b| - 1] == a + b[..|b| - 1];
      ExecConcat(files, w, a, b[..|b| - 1]);
    }
  }

  // From a staged bundle to the answer, in eight steps.
  lemma Finish(files: P.Callers, w: P.World, p: P.Pid, staged: P.World) returns (steps: seq<P.Step>)
    requires w.lock.Free? && w.target.None? && staged == Staging(w, p, P.Staged, w.lock, Bundles.Bundle(files(p)))
    ensures Own(steps, p)
    ensures P.Exec(files, staged, steps) ==
            After(w, p, P.Finished(P.Published(Bundles.Hash(Bundles.Manifest(files(p))))), P.Free, Bundles.Bundle(files(p)))
  {
    hide P.Apply, Staging, After, Bundles.Contents, Bundles.Bundle, Bundles.Manifest, Bundles.Hash;
    LockUp(files, w, p, Bundles.Bundle(files(p)));
    RenameUp(files, w, p, Bundles.Bundle(files(p)));
    SyncAndUnlink(files, w, p, Bundles.Bundle(files(p)));
    ReadItBack(files, w, p);
    var s1 := [] + [P.TryLock(p, false)];
    var s2 := s1 + [P.SetFlag(p)];
    var s3 := s2 + [P.Check(p)];
    var s4 := s3 + [P.Rename(p)];
    var s5 := s4 + [P.SyncParent(p)];
    var s6 := s5 + [P.Unlink(p, true)];
    P.ExecOneMore(files, staged, [], P.TryLock(p, false));
    P.ExecOneMore(files, staged, s1, P.SetFlag(p));
    P.ExecOneMore(files, staged, s2, P.Check(p));
    P.ExecOneMore(files, staged, s3, P.Rename(p));
    P.ExecOneMore(files, staged, s4, P.SyncParent(p));
    P.ExecOneMore(files, staged, s5, P.Unlink(p, true));
    P.ExecOneMore(files, staged, s6, P.ReadBack(p));
    steps := s6 + [P.ReadBack(p)];
  }

  /** A publisher that finds no target and no lock, and is neither disturbed nor hit by a fault, publishes: the target is its
      bundle, the lock and its staging directory are gone, and the answer is PUBLISHED with its manifest's hash. */
  lemma SoloPublishes(files: P.Callers, w: P.World, p: P.Pid) returns (steps: seq<P.Step>)
    requires p in w.pcs && w.pcs[p].Start? && w.target.None? && w.lock.Free?
    ensures Own(steps, p)
    ensures var d := P.Exec(files, w, steps);
            d.target == Some(Bundles.Bundle(files(p))) && d.lock.Free? && d.staging == w.staging - {p} &&
            d.pcs == w.pcs[p := P.Finished(P.Published(Bundles.Hash(Bundles.Manifest(files(p)))))]
  {
    hide P.Apply, P.Exec, Staging, Bundles.Bundle, Bundles.Manifest, Bundles.Hash;
    var stage := StageAll(files, w, p);
    var rest := Finish(files, w, p, P.Exec(files, w, stage));
    ExecConcat(files, w, stage, rest);
    OwnConcat(stage, rest, p);
    steps := stage + rest;
  }

  /* ---------- a publisher that finds a target ---------- */

  function Verifying(w: P.World, p: P.Pid, pc: P.Pc): P.World { w.(pcs := w.pcs[p := pc]) }

  lemma {:induction false} ReadAll(files: P.Callers, w: P.World, p: P.Pid, dir: Bundles.Dir, names: set<Bundles.Name>) returns (steps: seq<P.Step>, read: Bundles.Dir)
    requires w.target == Some(dir) && names <= dir.Keys
    ensures Own(steps, p) && read.Keys == names && P.Agrees(read, dir)
    ensures P.Exec(files, Verifying(w, p, P.Reading(map[])), steps) == Verifying(w, p, P.Reading(read))
    decreases |names|
  {
    hide P.Apply;
    if names == {} {
      steps, read := [], map[];
    } else {
      var n :| n in names;
      steps, read := ReadAll(files, w, p, dir, names - {n});
      ReadNext(files, w, p, dir, n, read);
      P.ExecOneMore(files, Verifying(w, p, P.Reading(map[])), steps, P.ReadFile(p, n));
      OwnMore(steps, P.ReadFile(p, n), p);
      steps, read := steps + [P.ReadFile(p, n)], read[n := dir[n]];
    }
  }

  lemma ReadNext(files: P.Callers, w: P.World, p: P.Pid, dir: Bundles.Dir, n: Bundles.Name, read: Bundles.Dir)
    requires w.target == Some(dir) && n in dir
    ensures P.Apply(files, Verifying(w, p, P.Reading(read)), P.ReadFile(p, n)) == Verifying(w, p, P.Reading(read[n := dir[n]]))
  {
  }

  lemma ListNames(files: P.Callers, w: P.World, p: P.Pid, dir: Bundles.Dir)
    requires w.target == Some(dir)
    ensures P.Apply(files, P.Apply(files, Verifying(w, p, P.ToVerify), P.List(p)), P.CompareNames(p)) ==
            Verifying(w, p, if dir.Keys == Bundles.Bundle(files(p)).Keys then P.Reading(map[]) else P.Finished(P.Rejected))
  {
    hide Bundles.Bundle;
    var listed := P.Apply(files, Verifying(w, p, P.ToVerify), P.List(p));
    assert listed == Verifying(w, p, P.Listed(dir.Keys));
  }

  lemma CompareAll(files: P.Callers, w: P.World, p: P.Pid, dir: Bundles.Dir)
    requires w.target == Some(dir) && dir.Keys == Bundles.Bundle(files(p)).Keys
    ensures P.Apply(files, Verifying(w, p, P.Reading(dir)), P.Compare(p)) ==
            Verifying(w, p, P.Finished(Verdict(files(p), dir)))
  {
    hide Bundles.Bundle, Bundles.Manifest, Bundles.Hash;
  }

  // What a publisher with these files answers to this directory.
  function Verdict(files: seq<Bundles.File>, dir: Bundles.Dir): P.Answer {
    if dir == Bundles.Bundle(files) then P.Reused(Bundles.Hash(Bundles.Manifest(files))) else P.Rejected
  }

  lemma VerifyAnswers(files: P.Callers, w: P.World, p: P.Pid, dir: Bundles.Dir) returns (steps: seq<P.Step>)
    requires w.target == Some(dir)
    ensures Own(steps, p)
    ensures P.Exec(files, Verifying(w, p, P.ToVerify), steps) == Verifying(w, p, P.Finished(Verdict(files(p), dir)))
  {
    hide P.Apply, Bundles.Bundle, Bundles.Manifest, Bundles.Hash, P.Agrees;
    var start := Verifying(w, p, P.ToVerify);
    ListNames(files, w, p, dir);
    P.ExecOneMore(files, start, [], P.List(p));
    P.ExecOneMore(files, start, [] + [P.List(p)], P.CompareNames(p));
    steps := [] + [P.List(p)] + [P.CompareNames(p)];
    assert Own(steps, p);
    if dir.Keys == Bundles.Bundle(files(p)).Keys {
      var looks, read := ReadAll(files, w, p, dir, dir.Keys);
      P.SameDir(read, dir);
      CompareAll(files, w, p, dir);
      ExecConcat(files, start, steps, looks);
      OwnConcat(steps, looks, p);
      P.ExecOneMore(files, start, steps + looks, P.Compare(p));
      OwnMore(steps + looks, P.Compare(p), p);
      steps := steps + looks + [P.Compare(p)];
    }
  }

  lemma ProbeFinds(files: P.Callers, w: P.World, p: P.Pid)
    requires p in w.pcs && w.pcs[p].Start? && w.target.Some?
    ensures P.Apply(files, w, P.Probe(p)) == Verifying(w, p, P.ToVerify)
  {
  }

  /** A publisher that finds a target and is neither disturbed nor hit by a fault answers REUSED with its manifest's hash if the
      target is exactly its own bundle, and refuses otherwise; it changes nothing. */
  lemma SoloVerifies(files: P.Callers, w: P.World, p: P.Pid, dir: Bundles.Dir) returns (steps: seq<P.Step>)
    requires p in w.pcs && w.pcs[p].Start? && w.target == Some(dir)
    ensures Own(steps, p)
    ensures P.Exec(files, w, steps) == Verifying(w, p, P.Finished(Verdict(files(p), dir)))
  {
    hide P.Apply, Verdict;
    ProbeFinds(files, w, p);
    P.ExecOneMore(files, w, [], P.Probe(p));
    var probe := [] + [P.Probe(p)];
    var rest := VerifyAnswers(files, w, p, dir);
    ExecConcat(files, w, probe, rest);
    OwnConcat(probe, rest, p);
    steps := probe + rest;
  }

  /* ---------- a publisher that loses the race ---------- */

  // `w` without publisher p's staging directory, p at this point.
  function Cleaned(w: P.World, p: P.Pid, pc: P.Pc): P.World { w.(pcs := w.pcs[p := pc], staging := w.staging - {p}) }

  lemma GiveUp(files: P.Callers, w: P.World, p: P.Pid, deadline: bool)
    requires p in w.pcs && w.pcs[p].Staged? && !w.lock.Free? && (w.target.Some? || deadline)
    ensures P.Apply(files, P.Apply(files, w, P.TryLock(p, deadline)), P.RemoveStaging(p, true)) == Cleaned(w, p, P.ToVerify)
  {
    var given := P.Apply(files, w, P.TryLock(p, deadline));
    assert given == w.(pcs := w.pcs[p := P.Cleaning(false, P.Exists)]);
  }

  function Locked(w: P.World, p: P.Pid, pc: P.Pc): P.World { w.(pcs := w.pcs[p := pc], lock := P.HeldBy(p)) }

  lemma LockAndCheck(files: P.Callers, w: P.World, p: P.Pid)
    requires p in w.pcs && w.pcs[p].Staged? && w.lock.Free? && w.target.Some?
    ensures P.Apply(files, P.Apply(files, P.Apply(files, w, P.TryLock(p, false)), P.SetFlag(p)), P.Check(p)) ==
            Locked(w, p, P.Cleaning(true, P.Exists))
  {
    var took := P.Apply(files, w, P.TryLock(p, false));
    assert took == Locked(w, p, P.Opened);
    assert P.Apply(files, took, P.SetFlag(p)) == Locked(w, p, P.Locked);
  }

  lemma CleanAndUnlock(files: P.Callers, w: P.World, p: P.Pid)
    requires p in w.pcs && w.lock.Free?
    ensures P.Apply(files, P.Apply(files, Locked(w, p, P.Cleaning(true, P.Exists)), P.RemoveStaging(p, true)), P.Unlink(p, true)) ==
            Cleaned(w, p, P.ToVerify)
  {
    var removed := P.Apply(files, Locked(w, p, P.Cleaning(true, P.Exists)), P.RemoveStaging(p, true));
    assert removed == Locked(w, p, P.Releasing(P.Exists)).(staging := w.staging - {p});
  }

  // Up to the verification, whether the lock is free or somebody else's.
  lemma LetGo(files: P.Callers, w: P.World, p: P.Pid) returns (steps: seq<P.Step>)
    requires p in w.pcs && w.pcs[p].Staged? && w.target.Some?
    ensures Own(steps, p) && P.Exec(files, w, steps) == Cleaned(w, p, P.ToVerify)
  {
    hide P.Apply, Cleaned, Locked;
    var s1 := [] + [P.TryLock(p, false)];
    P.ExecOneMore(files, w, [], P.TryLock(p, false));
    if w.lock.Free? {
      LockAndCheck(files, w, p);
      CleanAndUnlock(files, w, p);
      var s2 := s1 + [P.SetFlag(p)];
      var s3 := s2 + [P.Check(p)];
      var s4 := s3 + [P.RemoveStaging(p, true)];
      P.ExecOneMore(files, w, s1, P.SetFlag(p));
      P.ExecOneMore(files, w, s2, P.Check(p));
      P.ExecOneMore(files, w, s3, P.RemoveStaging(p, true));
      P.ExecOneMore(files, w, s4, P.Unlink(p, true));
      steps := s4 + [P.Unlink(p, true)];
    } else {
      GiveUp(files, w, p, false);
      P.ExecOneMore(files, w, s1, P.RemoveStaging(p, true));
      steps := s1 + [P.RemoveStaging(p, true)];
    }
  }

  /** A publisher that has staged its bundle and then finds a target, before or after taking the lock, cleans up and answers as if
      it had found it at once: REUSED exactly for its own bundle; lock and target stay as they are. */
  lemma SoloLoses(files: P.Callers, w: P.World, p: P.Pid, dir: Bundles.Dir) returns (steps: seq<P.Step>)
    requires p in w.pcs && w.pcs[p].Staged? && w.target == Some(dir)
    ensures Own(steps, p) && P.Exec(files, w, steps) == Cleaned(w, p, P.Finished(Verdict(files(p), dir)))
  {
    hide P.Apply, Verdict, P.Exec;
    var go := LetGo(files, w, p);
    var cleaned := w.(staging := w.staging - {p});
    var rest := VerifyAnswers(files, cleaned, p, dir);
    assert Verifying(cleaned, p, P.ToVerify) == Cleaned(w, p, P.ToVerify);
    ExecConcat(files, w, go, rest);
    OwnConcat(go, rest, p);
    steps := go + rest;
  }

  /** A publisher that waits for a lock until its deadline, no target having appeared, refuses, cleans up, and leaves the lock. */
  lemma SoloTimesOut(files: P.Callers, w: P.World, p: P.Pid)
    requires p in w.pcs && w.pcs[p].Staged? && w.target.None? && !w.lock.Free?
    ensures P.Apply(files, w, P.TryLock(p, false)) == w
    ensures P.Exec(files, w, [] + [P.TryLock(p, true)] + [P.RemoveStaging(p, true)] + [P.List(p)]) == Cleaned(w, p, P.Finished(P.Rejected))
  {
    GiveUp(files, w, p, true);
    ListNothing(files, w, p);
    Waits(files, w, p);
    hide P.Apply, Cleaned;
    P.ExecOneMore(files, w, [], P.TryLock(p, true));
    P.ExecOneMore(files, w, [] + [P.TryLock(p, true)], P.RemoveStaging(p, true));
    P.ExecOneMore(files, w, [] + [P.TryLock(p, true)] + [P.RemoveStaging(p, true)], P.List(p));
  }

  lemma Waits(files: P.Callers, w: P.World, p: P.Pid)
    requires p in w.pcs && w.pcs[p].Staged? && w.target.None? && !w.lock.Free?
    ensures P.Apply(files, w, P.TryLock(p, false)) == w
  {
  }

  lemma ListNothing(files: P.Callers, w: P.World, p: P.Pid)
    requires w.target.None?
    ensures P.Apply(files, Cleaned(w, p, P.ToVerify), P.List(p)) == Cleaned(w, p, P.Finished(P.Rejected))
  {
  }

  /* ---------- a runner on the budget ---------- */

  lemma Five(a: B.Assignment, c: B.Config, p: B.Pid, again: bool)
    ensures B.Exec(a, c, [B.Begin(p), B.Select(p), B.Update(p)]) ==
            B.Apply(a, B.Apply(a, B.Apply(a, c, B.Begin(p)), B.Select(p)), B.Update(p))
    ensures B.Exec(a, c, [B.Begin(p), B.Select(p), B.Update(p), B.Commit(p), B.Call(p, again)]) ==
            B.Apply(a, B.Apply(a, B.Exec(a, c, [B.Begin(p), B.Select(p), B.Update(p)]), B.Commit(p)), B.Call(p, again))
  {
    hide B.Apply;
    var s5 := [B.Begin(p), B.Select(p), B.Update(p), B.Commit(p), B.Call(p, again)];
    var s4 := [B.Begin(p), B.Select(p), B.Update(p), B.Commit(p)];
    var s3 := [B.Begin(p), B.Select(p), B.Update(p)];
    assert s5[..4] == s4 && s4[..3] == s3 && s3[..2] == [B.Begin(p), B.Select(p)] && [B.Begin(p), B.Select(p)][..1] == [B.Begin(p)];
    assert [B.Begin(p)][..0] == [];
    assert B.Exec(a, c, [B.Begin(p)]) == B.Apply(a, c, B.Begin(p));
    assert B.Exec(a, c, [B.Begin(p), B.Select(p)]) == B.Apply(a, B.Exec(a, c, [B.Begin(p)]), B.Select(p));
    assert B.Exec(a, c, s3) == B.Apply(a, B.Exec(a, c, [B.Begin(p), B.Select(p)]), B.Update(p));
    assert B.Exec(a, c, s4) == B.Apply(a, B.Exec(a, c, s3), B.Commit(p));
  }

  function Running(c: B.Config, p: B.Pid, pc: B.Pc, writer: Option<B.Pid>): B.Config { c.(pcs := c.pcs[p := pc], writer := writer) }

  lemma BeginAndSelect(a: B.Assignment, c: B.Config, p: B.Pid)
    requires p in c.pcs && c.pcs[p].Idle? && c.writer.None? && Budget.ValidWindow(a(p)) && a(p) in c.rows
    ensures B.Apply(a, B.Apply(a, c, B.Begin(p)), B.Select(p)) == Running(c, p, B.Selected(Some(c.rows[a(p)])), Some(p))
  {
    hide Budget.ValidWindow, Budget.Consumed;
    assert B.Apply(a, c, B.Begin(p)) == Running(c, p, B.Begun, Some(p));
  }

  lemma UpdateOne(a: B.Assignment, c: B.Config, p: B.Pid)
    requires c.writer.None? && a(p) in c.rows && Budget.Sound(c.rows[a(p)])
    ensures var row := c.rows[a(p)];
            B.Apply(a, Running(c, p, B.Selected(Some(row)), Some(p)), B.Update(p)) ==
            if row.consumed < row.allowance
            then Running(c, p, B.Updated(c.rows[a(p) := Budget.Row(row.allowance, row.consumed + 1)]), Some(p))
            else Running(c, p, B.Stopped, None)
  {
    hide Budget.ValidWindow;
  }

  lemma CommitAndCall(a: B.Assignment, c: B.Config, p: B.Pid, rows: Budget.Table, again: bool)
    requires c.writer.None?
    ensures B.Apply(a, B.Apply(a, Running(c, p, B.Updated(rows), Some(p)), B.Commit(p)), B.Call(p, again)) ==
            B.Config(rows, None, c.pcs[p := if again then B.Idle else B.Stopped], c.calls[a(p) := B.Calls(c, a(p)) + 1])
  {
    hide Budget.ValidWindow, Budget.Consumed;
    var admitted := B.Apply(a, Running(c, p, B.Updated(rows), Some(p)), B.Commit(p));
    assert admitted == Running(c, p, B.Admitted, None).(rows := rows);
    assert B.Calls(admitted, a(p)) == B.Calls(c, a(p));
  }

  lemma StoppedStays(a: B.Assignment, c: B.Config, p: B.Pid, again: bool)
    ensures B.Apply(a, B.Apply(a, Running(c, p, B.Stopped, None), B.Commit(p)), B.Call(p, again)) == Running(c, p, B.Stopped, None)
  {
    hide Budget.ValidWindow, Budget.Consumed;
    assert B.Apply(a, Running(c, p, B.Stopped, None), B.Commit(p)) == Running(c, p, B.Stopped, None);
  }

  /** An undisturbed runner on a window with allowance left is charged one unit and then calls the broker once; with none left
      it stops without a charge or a call.  Either way the write lock is free again. */
  lemma SoloAdmission(a: B.Assignment, c: B.Config, p: B.Pid, again: bool)
    requires p in c.pcs && c.pcs[p].Idle? && c.writer.None? && Budget.ValidWindow(a(p))
    requires a(p) in c.rows && Budget.Sound(c.rows[a(p)])
    ensures var row := c.rows[a(p)];
            B.Exec(a, c, [B.Begin(p), B.Select(p), B.Update(p), B.Commit(p), B.Call(p, again)]) ==
            if row.consumed < row.allowance then
              B.Config(c.rows[a(p) := Budget.Row(row.allowance, row.consumed + 1)], None,
                       c.pcs[p := if again then B.Idle else B.Stopped], c.calls[a(p) := B.Calls(c, a(p)) + 1])
            else c.(pcs := c.pcs[p := B.Stopped])
  {
    hide Budget.ValidWindow, Budget.Consumed, B.Exec, B.Apply;
    Five(a, c, p, again);
    BeginAndSelect(a, c, p);
    UpdateOne(a, c, p);
    CommitAndCall(a, c, p, c.rows[a(p) := Budget.Row(c.rows[a(p)].allowance, c.rows[a(p)].consumed + 1)], again);
    StoppedStays(a, c, p, again);
  }

  /* ---------- a connection ---------- */

  lemma ServerOneMore(clients: S.Clients, w: S.World, steps: seq<S.Step>, s: S.Step)
    ensures S.Exec(clients, w, steps + [s]) == S.Apply(clients, S.Exec(clients, w, steps), s)
  {
    hide S.Apply;
    assert (steps + [s])[..|steps|] == steps;
  }

  function Serving(w: S.World, c: S.Conn, state: S.Worker, free: int, calls: map<S.Conn, seq<Protocol.CandleRequest>>): S.World {
    w.(workers := w.workers[c := state], free := free, calls := calls)
  }

  lemma Admit(clients: S.Clients, w: S.World, c: S.Conn)
    requires w.acceptor.Listening? && !w.stopped && w.free > 0 && c !in w.workers
    ensures S.Exec(clients, w, [] + [S.Accept(c)] + [S.Gate] + [S.Launch(true)]) == Serving(w, c, S.Receiving, w.free - 1, w.calls)
  {
    hide S.Work, S.Exec;
    ServerOneMore(clients, w, [], S.Accept(c));
    ServerOneMore(clients, w, [] + [S.Accept(c)], S.Gate);
    ServerOneMore(clients, w, [] + [S.Accept(c)] + [S.Gate], S.Launch(true));
    assert S.Exec(clients, w, []) == w by { ServerNothing(clients, w); }
  }

  lemma ServerNothing(clients: S.Clients, w: S.World)
    ensures S.Exec(clients, w, []) == w
  {
  }

  lemma Serve(clients: S.Clients, w: S.World, c: S.Conn, q: Protocol.CandleRequest, raises: bool)
    requires Transport.BrokerCall(clients(c)) == Some(q)
    ensures var received := S.Apply(clients, Serving(w, c, S.Receiving, w.free - 1, w.calls), S.Receive(c, false));
            var called := S.Apply(clients, received, S.Call(c));
            var calls := w.calls[c := S.Calls(w, c) + [q]];
            called == Serving(w, c, S.InBroker(q), w.free - 1, calls) &&
            S.Apply(clients, called, S.Return(c, raises)) == Serving(w, c, if raises then S.Leaving else S.Replying, w.free - 1, calls)
  {
    hide Transport.BrokerCall;
    var received := S.Apply(clients, Serving(w, c, S.Receiving, w.free - 1, w.calls), S.Receive(c, false));
    assert received == Serving(w, c, S.Calling(q), w.free - 1, w.calls);
    var called := S.Apply(clients, received, S.Call(c));
    assert S.Calls(received, c) == S.Calls(w, c);
    assert called == Serving(w, c, S.InBroker(q), w.free - 1, w.calls[c := S.Calls(w, c) + [q]]);
  }

  lemma Leave(clients: S.Clients, w: S.World, c: S.Conn, calls: map<S.Conn, seq<Protocol.CandleRequest>>)
    ensures S.Apply(clients, S.Apply(clients, Serving(w, c, S.Leaving, w.free - 1, calls), S.Release(c)), S.Discard(c)) ==
            Serving(w, c, S.Gone, w.free, calls)
  {
    hide Transport.BrokerCall;
  }

  // Reading, calling the broker and returning, up to the reply.
  lemma CallOnce(clients: S.Clients, w: S.World, c: S.Conn, q: Protocol.CandleRequest, raises: bool) returns (steps: seq<S.Step>)
    requires w.acceptor.Listening? && !w.stopped && w.free > 0 && c !in w.workers && S.Calls(w, c) == []
    requires Transport.BrokerCall(clients(c)) == Some(q)
    ensures S.Exec(clients, w, steps) == Serving(w, c, if raises then S.Leaving else S.Replying, w.free - 1, w.calls[c := [q]])
  {
    hide S.Apply, S.Exec, Transport.BrokerCall, S.Calls;
    Admit(clients, w, c);
    Serve(clients, w, c, q, raises);
    var s3 := [] + [S.Accept(c)] + [S.Gate] + [S.Launch(true)];
    var s4 := s3 + [S.Receive(c, false)];
    var s5 := s4 + [S.Call(c)];
    ServerOneMore(clients, w, s3, S.Receive(c, false));
    ServerOneMore(clients, w, s4, S.Call(c));
    ServerOneMore(clients, w, s5, S.Return(c, raises));
    steps := s5 + [S.Return(c, raises)];
    assert S.Calls(w, c) + [q] == [q];
  }

  // Out through `finally`.
  lemma Finally(clients: S.Clients, w: S.World, c: S.Conn, leaving: S.World, steps: seq<S.Step>, calls: map<S.Conn, seq<Protocol.CandleRequest>>)
    requires leaving == Serving(w, c, S.Leaving, w.free - 1, calls) && S.Exec(clients, w, steps) == leaving
    ensures S.Exec(clients, w, steps + [S.Release(c)] + [S.Discard(c)]) == w.(workers := w.workers[c := S.Gone], calls := calls)
  {
    hide *;
    TwoMore(clients, w, steps, S.Release(c), S.Discard(c));
    Leave(clients, w, c, calls);
    GoneIs(w, c, calls);
  }

  lemma TwoMore(clients: S.Clients, w: S.World, steps: seq<S.Step>, s: S.Step, t: S.Step)
    ensures S.Exec(clients, w, steps + [s] + [t]) == S.Apply(clients, S.Apply(clients, S.Exec(clients, w, steps), s), t)
  {
    hide S.Apply, S.Exec;
    ServerOneMore(clients, w, steps, s);
    ServerOneMore(clients, w, steps + [s], t);
  }

  lemma GoneIs(w: S.World, c: S.Conn, calls: map<S.Conn, seq<Protocol.CandleRequest>>)
    ensures Serving(w, c, S.Gone, w.free, calls) == w.(workers := w.workers[c := S.Gone], calls := calls)
  {
  }

  lemma ReplyLeaves(clients: S.Clients, w: S.World, c: S.Conn, calls: map<S.Conn, seq<Protocol.CandleRequest>>)
    ensures S.Apply(clients, Serving(w, c, S.Replying, w.free - 1, calls), S.Reply(c)) == Serving(w, c, S.Leaving, w.free - 1, calls)
  {
    hide Transport.BrokerCall;
  }

  /** An undisturbed connection with a well-formed request, accepted while a slot is free, has its request put to the broker once,
      comes to its reply, and leaves the server with the slots it had; a worker whose call raises leaves the same way, unanswered. */
  lemma SoloConnection(clients: S.Clients, w: S.World, c: S.Conn, q: Protocol.CandleRequest, raises: bool)
    returns (steps: seq<S.Step>, rest: seq<S.Step>)
    requires w.acceptor.Listening? && !w.stopped && w.free > 0 && c !in w.workers && S.Calls(w, c) == []
    requires Transport.BrokerCall(clients(c)) == Some(q)
    ensures var called := S.Exec(clients, w, steps);
            c in called.workers && called.workers[c] == (if raises then S.Leaving else S.Replying) && S.Calls(called, c) == [q]
    ensures S.Exec(clients, w, steps + rest) == w.(workers := w.workers[c := S.Gone], calls := w.calls[c := [q]])
    ensures rest == (if raises then [] else [S.Reply(c)]) + [S.Release(c)] + [S.Discard(c)]
  {
    hide S.Apply, S.Exec, Transport.BrokerCall;
    steps := CallOnce(clients, w, c, q, raises);
    var calls := w.calls[c := [q]];
    rest := (if raises then [] else [S.Reply(c)]) + [S.Release(c)] + [S.Discard(c)];
    if raises {
      Finally(clients, w, c, S.Exec(clients, w, steps), steps, calls);
      assert steps + rest == steps + [S.Release(c)] + [S.Discard(c)];
    } else {
      ServerOneMore(clients, w, steps, S.Reply(c));
      ReplyLeaves(clients, w, c, calls);
      Finally(clients, w, c, S.Exec(clients, w, steps + [S.Reply(c)]), steps + [S.Reply(c)], calls);
      assert steps + rest == steps + [S.Reply(c)] + [S.Release(c)] + [S.Discard(c)];
    }
  }

  /** A connection whose bytes are no request, or break off, is closed without a call, and its slot given back. */
  lemma SoloMalformed(clients: S.Clients, w: S.World, c: S.Conn, fails: bool)
    requires w.acceptor.Listening? && !w.stopped && w.free > 0 && c !in w.workers
    requires fails || Transport.BrokerCall(clients(c)).None?
    ensures S.Exec(clients, w, [] + [S.Accept(c)] + [S.Gate] + [S.Launch(true)] + [S.Receive(c, fails)] + [S.Release(c)] + [S.Discard(c)]) ==
            w.(workers := w.workers[c := S.Gone])
  {
    hide S.Exec, Transport.BrokerCall;
    Admit(clients, w, c);
    var s3 := [] + [S.Accept(c)] + [S.Gate] + [S.Launch(true)];
    ServerOneMore(clients, w, s3, S.Receive(c, fails));
    assert S.Apply(clients, Serving(w, c, S.Receiving, w.free - 1, w.calls), S.Receive(c, fails)) == Serving(w, c, S.Leaving, w.free - 1, w.calls);
    hide S.Apply;
    Finally(clients, w, c, S.Exec(clients, w, s3 + [S.Receive(c, fails)]), s3 + [S.Receive(c, fails)], w.calls);
  }

  /* ---------- a ledger process ---------- */

  lemma LedgerOneMore(w: L.World, steps: seq<L.Step>, s: L.Step)
    ensures L.Exec(w, steps + [s]) == L.Apply(L.Exec(w, steps), s)
  {
    hide L.Apply;
    assert (steps + [s])[..|steps|] == steps;
  }

  // What an ending writes.
  function AttemptState(e: Ledger.Ending): Ledger.AttemptState {
    match e
    case Success => Ledger.AttemptSucceeded
    case Failure => Ledger.AttemptFailed
    case Interruption => Ledger.AttemptInterrupted
  }

  lemma ClaimAndIngest(w: L.World, p: L.Pid, key: Ledger.Key, owner: Text, id: Ledger.AttemptId, e: Ledger.Ending)
    requires p in w.pcs && w.pcs[p].Free? && id !in w.t.attempts && Ledger.OneAttemptEach(w.t)
    requires key in w.t.items && w.t.items[key].state.Planned?
    ensures var claimed := Ledger.Tables(w.t.items[key := w.t.items[key].(state := Ledger.Claimed)],
                                         w.t.attempts[id := Ledger.Attempt(key, 1, owner, Ledger.InProgress)]);
            L.Apply(L.Apply(L.Apply(w, L.Claim(p, key, owner, id)), L.Ingest(p, e)), L.SelectAttempt(p)) ==
            L.World(claimed, w.pcs[p := L.Selected(key, id, e)], w.ingests[key := L.Ingests(w, key) + 1])
  {
    Ledger.ClaimMeans(w.t, key, owner, id);
    hide Ledger.OneAttemptEach, Ledger.ClaimCommit;
    var claimed := Ledger.Tables(w.t.items[key := w.t.items[key].(state := Ledger.Claimed)],
                                 w.t.attempts[id := Ledger.Attempt(key, 1, owner, Ledger.InProgress)]);
    var held := L.Apply(w, L.Claim(p, key, owner, id));
    assert held == L.World(claimed, w.pcs[p := L.Holding(key, id)], w.ingests);
    assert L.Ingests(held, key) == L.Ingests(w, key);
    var ingested := L.Apply(held, L.Ingest(p, e));
    assert ingested == L.World(claimed, w.pcs[p := L.Ingested(key, id, e)], w.ingests[key := L.Ingests(w, key) + 1]);
  }

  lemma WriteBoth(w: L.World, p: L.Pid, key: Ledger.Key, id: Ledger.AttemptId, e: Ledger.Ending)
    requires p in w.pcs && w.pcs[p] == L.Selected(key, id, e) && key in w.t.items && id in w.t.attempts
    ensures L.Apply(L.Apply(w, L.WriteAttempt(p)), L.WriteItem(p)) ==
            w.(t := Ledger.Tables(w.t.items[key := w.t.items[key].(state := if e.Success? then Ledger.Succeeded else Ledger.ReviewRequired)],
                                  w.t.attempts[id := w.t.attempts[id].(state := AttemptState(e))]),
               pcs := w.pcs[p := L.Free])
  {
    var half := L.Apply(w, L.WriteAttempt(p));
    assert half.t == Ledger.Tables(w.t.items, w.t.attempts[id := w.t.attempts[id].(state := AttemptState(e))]);
    assert half.pcs == w.pcs[p := L.HalfDone(key, id, e)];
  }

  /** An undisturbed process that claims a planned item ingests it once and leaves it, and its one attempt, as the ingestion
      ended: SUCCEEDED with SUCCEEDED, or REVIEW_REQUIRED with FAILED or INTERRUPTED; it is then free for the next. */
  lemma SoloItem(w: L.World, p: L.Pid, key: Ledger.Key, owner: Text, id: Ledger.AttemptId, e: Ledger.Ending)
    requires p in w.pcs && w.pcs[p].Free? && id !in w.t.attempts && Ledger.OneAttemptEach(w.t)
    requires key in w.t.items && w.t.items[key].state.Planned?
    ensures var d := L.Exec(w, [] + [L.Claim(p, key, owner, id)] + [L.Ingest(p, e)] + [L.SelectAttempt(p)] + [L.WriteAttempt(p)] + [L.WriteItem(p)]);
            d.t.items == w.t.items[key := w.t.items[key].(state := if e.Success? then Ledger.Succeeded else Ledger.ReviewRequired)] &&
            d.t.attempts == w.t.attempts[id := Ledger.Attempt(key, 1, owner, AttemptState(e))] &&
            d.pcs == w.pcs && L.Ingests(d, key) == L.Ingests(w, key) + 1
  {
    hide L.Apply, L.Exec, Ledger.OneAttemptEach;
    ClaimAndIngest(w, p, key, owner, id, e);
    var s1: seq<L.Step> := [] + [L.Claim(p, key, owner, id)];
    var s2 := s1 + [L.Ingest(p, e)];
    var s3 := s2 + [L.SelectAttempt(p)];
    var s4 := s3 + [L.WriteAttempt(p)];
    LedgerOneMore(w, [], L.Claim(p, key, owner, id));
    LedgerNothing(w);
    LedgerOneMore(w, s1, L.Ingest(p, e));
    LedgerOneMore(w, s2, L.SelectAttempt(p));
    LedgerOneMore(w, s3, L.WriteAttempt(p));
    LedgerOneMore(w, s4, L.WriteItem(p));
    WriteBoth(L.Exec(w, s3), p, key, id, e);
  }

  lemma LedgerNothing(w: L.World)
    ensures L.Exec(w, []) == w
  {
  }
}
