/**
 Write-once publication: any number of publishers of one target directory on one file system,
 each running `publish_attempt_artifact` over `write_immutable_bundle`, interleaved at every file
 operation, with faults and crashes anywhere.  The rename here overwrites its target.
 */
module Publication {
  import opened Basics
  import opened Bundles

  type Pid = nat

  // The lock file: absent, left by somebody before this run, or created by a publisher of it.
  datatype Lock = Free | Leftover | HeldBy(owner: Pid)

  datatype Outcome = Won | Exists | Broken

  datatype Answer = Published(manifestSha256: Checksum) | Reused(manifestSha256: Checksum) | Rejected

  datatype Pc =
    | Start                        // before directory.exists()
    | Making                       // before staging.mkdir()
    | Writing(done: nat)           // payloads written and read back
    | Staged                       // manifest written too
    | Opened                       // lock file created, lock_created not yet set
    | Locked                       // lock_created set
    | Checked                      // target_dir.exists() was false
    | Renamed                      // os.rename returned
    | Cleaning(locked: bool, outcome: Outcome)  // except: rmtree of the staging directory
    | Releasing(outcome: Outcome)               // finally: lock.unlink()
    | ReadingManifest              // the winner reads its manifest back
    | ToVerify                     // before directory.iterdir()
    | Listed(names: set<Name>)     // after it
    | Reading(read: Dir)           // files read so far
    | Finished(answer: Answer)
    | Dead

  // One parent directory: the target in it, its lock, and each publisher's staging sibling.
  datatype World = World(target: Option<Dir>, lock: Lock, staging: map<Pid, Dir>, pcs: map<Pid, Pc>, winners: seq<Pid>)

  // The files each publisher brings.
  type Callers = Pid -> seq<File>

  datatype Step =
    | Probe(p: Pid)
    | MakeStaging(p: Pid)
    | Write(p: Pid)                    // next payload, or the manifest after the last
    | TryLock(p: Pid, deadline: bool)
    | SetFlag(p: Pid)
    | Check(p: Pid)
    | Rename(p: Pid)
    | SyncParent(p: Pid)
    | RemoveStaging(p: Pid, ok: bool)
    | Unlink(p: Pid, ok: bool)
    | ReadBack(p: Pid)
    | List(p: Pid)
    | CompareNames(p: Pid)
    | ReadFile(p: Pid, name: Name)
    | Compare(p: Pid)
    | Fault(p: Pid)                    // an operation raises
    | Crash(p: Pid)

  function Move(w: World, p: Pid, pc: Pc): World { w.(pcs := w.pcs[p := pc]) }

  // Where a publisher goes once the writer has finished with `outcome`.
  function After(outcome: Outcome): Pc {
    match outcome
    case Won => ReadingManifest
    case Exists => ToVerify
    case Broken => Finished(Rejected)
  }

  // Where an exception in the current operation leads.
  function Faulted(pc: Pc): Pc {
    match pc
    case Making => Cleaning(false, Broken)
    case Writing(_) => Cleaning(false, Broken)
    case Staged => Cleaning(false, Broken)
    case Opened => Cleaning(false, Broken)
    case Locked => Cleaning(true, Broken)
    case Checked => Cleaning(true, Broken)
    case Renamed => Releasing(Broken)
    case ReadingManifest => Finished(Rejected)
    case ToVerify => Finished(Rejected)
    case Listed(_) => Finished(Rejected)
    case Reading(_) => Finished(Rejected)
    case _ => pc
  }

  /** One step; a step that is not enabled changes nothing. */
  function Apply(files: Callers, w: World, s: Step): World {
    if s.p !in w.pcs then w else ApplyTo(files(s.p), w, s, w.pcs[s.p])
  }

  function ApplyTo(files: seq<File>, w: World, s: Step, pc: Pc): World {
    match s
    case MakeStaging(p) => if pc.Making? then DoMakeStaging(w, p) else w
    case Write(p) => if pc.Writing? && p in w.staging then DoWrite(files, w, p, pc.done) else w
    case TryLock(p, deadline) => if pc.Staged? then DoTryLock(w, p, deadline) else w
    case Rename(p) => if pc.Checked? && p in w.staging then DoRename(w, p) else w
    case RemoveStaging(p, ok) => if pc.Cleaning? then DoRemoveStaging(w, p, pc, ok) else w
    case Unlink(p, ok) => if pc.Releasing? then DoUnlink(w, p, pc.outcome, ok) else w
    case _ => Move(w, s.p, NextPc(files, w, s, pc))
  }

  // The steps that only read the file system.
  function NextPc(files: seq<File>, w: World, s: Step, pc: Pc): Pc {
    match s
    case Probe(_) => if pc.Start? then (if w.target.Some? then ToVerify else Making) else pc
    case SetFlag(_) => if pc.Opened? then Locked else pc
    case Check(_) => if pc.Locked? then (if w.target.Some? then Cleaning(true, Exists) else Checked) else pc
    case SyncParent(_) => if pc.Renamed? then Releasing(Won) else pc
    case ReadBack(_) =>
      if pc.ReadingManifest? then
        Finished(if w.target.Some? && MANIFEST in w.target.value then Published(Hash(w.target.value[MANIFEST])) else Rejected)
      else pc
    case List(_) => if pc.ToVerify? then (if w.target.Some? then Listed(w.target.value.Keys) else Finished(Rejected)) else pc
    case CompareNames(_) =>
      if pc.Listed? then (if pc.names == Bundle(files).Keys then Reading(map[]) else Finished(Rejected)) else pc
    case ReadFile(_, name) => if pc.Reading? then ReadOne(w, name, pc.read) else pc
    case Compare(_) =>
      if pc.Reading? && pc.read.Keys == Bundle(files).Keys then
        Finished(if pc.read == Bundle(files) then Reused(Hash(Manifest(files))) else Rejected)
      else pc
    case Fault(_) => Faulted(pc)
    case Crash(_) => if pc.Finished? then pc else Dead
    case _ => pc
  }

  function ReadOne(w: World, name: Name, read: Dir): Pc {
    if w.target.Some? && name in w.target.value then Reading(read[name := w.target.value[name]]) else Finished(Rejected)
  }

  function DoMakeStaging(w: World, p: Pid): World { Move(w, p, Writing(0)).(staging := w.staging[p := map[]]) }

  function DoWrite(files: seq<File>, w: World, p: Pid, done: nat): World
    requires p in w.staging
  {
    if done < |files| then
      Move(w, p, Writing(done + 1)).(staging := w.staging[p := w.staging[p][files[done].name := files[done].content]])
    else Move(w, p, Staged).(staging := w.staging[p := w.staging[p][MANIFEST := Manifest(files)]])
  }

  // O_CREAT | O_EXCL, in the loop that gives up when the target appears or the deadline passes.
  function DoTryLock(w: World, p: Pid, deadline: bool): World {
    if w.lock.Free? then Move(w, p, Opened).(lock := HeldBy(p))
    else if w.target.Some? || deadline then Move(w, p, Cleaning(false, Exists))
    else w
  }

  // os.rename(staging, target), taken to overwrite whatever is there.
  function DoRename(w: World, p: Pid): World
    requires p in w.staging
  {
    Move(w, p, Renamed).(target := Some(w.staging[p]), staging := w.staging - {p}, winners := w.winners + [p])
  }

  function DoRemoveStaging(w: World, p: Pid, pc: Pc, ok: bool): World
    requires pc.Cleaning?
  {
    Move(w, p, if pc.locked then Releasing(pc.outcome) else After(pc.outcome)).(staging := if ok then w.staging - {p} else w.staging)
  }

  // Removes the lock path, whoever created it.
  function DoUnlink(w: World, p: Pid, outcome: Outcome, ok: bool): World {
    Move(w, p, After(outcome)).(lock := if ok then Free else w.lock)
  }

  function Exec(files: Callers, w: World, steps: seq<Step>): World
    decreases |steps|
  {
    if steps == [] then w else Apply(files, Exec(files, w, steps[..|steps| - 1]), steps[|steps| - 1])
  }

  // Publishers about to start; the target and a lock may be there already.
  predicate Begins(w: World) {
    w.staging == map[] && w.winners == [] && !w.lock.HeldBy? && forall p :: p in w.pcs ==> w.pcs[p].Start?
  }

  /* ---------- the invariant ---------- */

  predicate HasStaged(files: seq<File>, w: World, p: Pid) { p in w.staging && w.staging[p] == Bundle(files) }

  // The files read so far are those of the target.
  predicate Agrees(read: Dir, target: Dir) { forall n :: n in read ==> n in target && read[n] == target[n] }

  // What is true of a publisher at each point: the lock it holds, what it staged, won or read.
  predicate Local(files: seq<File>, w: World, p: Pid, pc: Pc) {
    match pc
    case Writing(done) => done <= |files| && p in w.staging && w.staging[p] == Contents(files[..done])
    case Staged => HasStaged(files, w, p)
    case Opened => w.lock == HeldBy(p) && HasStaged(files, w, p)
    case Locked => w.lock == HeldBy(p) && HasStaged(files, w, p)
    case Checked => w.lock == HeldBy(p) && HasStaged(files, w, p) && w.target.None?
    case Renamed => w.lock == HeldBy(p) && w.winners == [p]
    case Cleaning(locked, outcome) => (locked ==> w.lock == HeldBy(p)) && !outcome.Won?
    case Releasing(outcome) => w.lock == HeldBy(p) && (outcome.Won? ==> w.winners == [p])
    case ReadingManifest => w.winners == [p]
    case Listed(names) => w.target.Some? && names == w.target.value.Keys
    case Reading(read) => w.target.Some? && w.target.value.Keys == Bundle(files).Keys && Agrees(read, w.target.value)
    case Finished(Published(hash)) => w.winners == [p] && hash == Hash(Manifest(files))
    case Finished(Reused(hash)) => w.target == Some(Bundle(files)) && hash == Hash(Manifest(files))
    case _ => true
  }

  // The target is what it was, or the one winner's complete bundle.
  predicate TargetWhole(files: Callers, start: World, w: World) {
    if w.winners == [] then w.target == start.target
    else start.target.None? && |w.winners| == 1 && w.target == Some(Bundle(files(w.winners[0])))
  }

  ghost predicate Invariant(files: Callers, start: World, w: World) {
    TargetWhole(files, start, w) && forall p :: p in w.pcs ==> Local(files(p), w, p, w.pcs[p])
  }

  /* ---------- one step keeps it ---------- */

  // What a step by `p` leaves alone for the others.
  predicate LeavesOthers(w: World, d: World, p: Pid) {
    d.pcs.Keys == w.pcs.Keys && (forall q :: q in w.pcs && q != p ==> d.pcs[q] == w.pcs[q]) &&
    (forall q :: q != p && q in w.staging ==> q in d.staging && d.staging[q] == w.staging[q]) &&
    (d.lock == w.lock || w.lock.Free? || w.lock == HeldBy(p)) &&
    ((d.target == w.target && d.winners == w.winners) || (w.target.None? && w.lock == HeldBy(p) && w.winners == []))
  }

  lemma OtherLocal(files: seq<File>, w: World, d: World, p: Pid, q: Pid)
    requires LeavesOthers(w, d, p) && p != q && q in w.pcs && Local(files, w, q, w.pcs[q])
    ensures Local(files, d, q, d.pcs[q])
  {
    hide Hash, Bundle, Contents, MANIFEST;
  }

  lemma ContentsEmpty(files: seq<File>)
    requires files == []
    ensures Contents(files) == map[]
  {
  }

  lemma ContentsNext(files: seq<File>, k: nat)
    requires k < |files|
    ensures Contents(files[..k + 1]) == Contents(files[..k])[files[k].name := files[k].content]
  {
    assert files[..k + 1][..k] == files[..k];
  }

  // A step that only moves its own publisher.
  lemma MovedLocal(files: seq<File>, w: World, p: Pid, pc: Pc)
    requires p in w.pcs && Local(files, w, p, pc)
    ensures LeavesOthers(w, Move(w, p, pc), p) && Local(files, Move(w, p, pc), p, pc)
  {
    hide Hash, Bundle, Contents, Agrees, MANIFEST;
  }

  lemma LockPhase(files: seq<File>, w: World, s: Step, p: Pid, pc: Pc)
    requires Local(files, w, p, pc) && (s.Probe? || s.SetFlag? || s.Check? || s.SyncParent?)
    ensures Local(files, w, p, NextPc(files, w, s, pc))
  {
    hide Hash, Bundle, Contents, MANIFEST;
    match s
    case Probe(_) =>
    case SetFlag(_) =>
    case Check(_) =>
    case SyncParent(_) =>
  }

  lemma FaultPhase(files: seq<File>, w: World, s: Step, p: Pid, pc: Pc)
    requires Local(files, w, p, pc) && (s.Fault? || s.Crash?)
    ensures Local(files, w, p, NextPc(files, w, s, pc))
  {
    hide Hash, Bundle, Contents, MANIFEST;
    match s
    case Fault(_) =>
    case Crash(_) =>
  }

  lemma VerifyPhase(files: seq<File>, w: World, s: Step, p: Pid, pc: Pc)
    requires Local(files, w, p, pc) && (s.List? || s.CompareNames? || s.ReadFile?)
    ensures Local(files, w, p, NextPc(files, w, s, pc))
  {
    hide Hash, Bundle, Contents, Manifest, MANIFEST;
    match s
    case List(_) =>
    case CompareNames(_) =>
    case ReadFile(_, name) => if pc.Reading? { hide ReadOne; ReadOneLocal(files, w, p, name, pc.read); }
  }

  lemma ReadOneLocal(files: seq<File>, w: World, p: Pid, name: Name, read: Dir)
    requires Local(files, w, p, Reading(read))
    ensures Local(files, w, p, ReadOne(w, name, read))
  {
    hide Hash, Bundle, Contents, Manifest, Agrees, MANIFEST;
    if name in w.target.value { AgreesOneMore(read, w.target.value, name); }
  }

  lemma AgreesOneMore(read: Dir, target: Dir, name: Name)
    requires Agrees(read, target) && name in target
    ensures Agrees(read[name := target[name]], target)
  {
  }

  lemma SameDir(x: Dir, y: Dir)
    requires x.Keys == y.Keys && Agrees(x, y)
    ensures x == y
  {
  }

  lemma ComparePhase(files: seq<File>, w: World, s: Step, p: Pid, pc: Pc)
    requires Local(files, w, p, pc) && s.Compare?
    ensures Local(files, w, p, NextPc(files, w, s, pc))
  {
    hide Hash, Bundle, Contents, Manifest, MANIFEST;
    if pc.Reading? && pc.read.Keys == Bundle(files).Keys {
      SameDir(pc.read, w.target.value);
    }
  }

  lemma ReadBackPhase(files: Callers, start: World, w: World, s: Step, pc: Pc)
    requires Local(files(s.p), w, s.p, pc) && TargetWhole(files, start, w) && s.ReadBack?
    ensures Local(files(s.p), w, s.p, NextPc(files(s.p), w, s, pc))
  {
    hide Hash, Bundle, Contents, Manifest, MANIFEST;
    if pc.ReadingManifest? {
      assert w.target == Some(Bundle(files(s.p)));
      BundleHasManifest(files(s.p));
    }
  }

  lemma StagingOthers(w: World, p: Pid, pc: Pc, staging: map<Pid, Dir>)
    requires forall q :: q != p && q in w.staging ==> q in staging && staging[q] == w.staging[q]
    requires p in w.pcs
    ensures LeavesOthers(w, Move(w, p, pc).(staging := staging), p)
  {
  }

  lemma MakeStagingLocal(files: seq<File>, w: World, p: Pid)
    requires p in w.pcs && Local(files, w, p, Making)
    ensures LeavesOthers(w, DoMakeStaging(w, p), p) && Local(files, DoMakeStaging(w, p), p, Writing(0))
  {
    hide Hash, Bundle, Contents, LeavesOthers, MANIFEST;
    StagingOthers(w, p, Writing(0), w.staging[p := map[]]);
    ContentsEmpty(files[..0]);
  }

  lemma WriteLocal(files: seq<File>, w: World, p: Pid, done: nat)
    requires p in w.pcs && Local(files, w, p, Writing(done))
    ensures var d := DoWrite(files, w, p, done); LeavesOthers(w, d, p) && Local(files, d, p, d.pcs[p])
  {
    hide Hash, Contents, Manifest, MANIFEST, LeavesOthers;
    var was := w.staging[p];
    if done < |files| {
      ContentsNext(files, done);
      StagingOthers(w, p, Writing(done + 1), w.staging[p := was[files[done].name := files[done].content]]);
    } else {
      assert files[..done] == files;
      StagingOthers(w, p, Staged, w.staging[p := was[MANIFEST := Manifest(files)]]);
    }
  }

  lemma TryLockLocal(files: seq<File>, w: World, p: Pid, deadline: bool)
    requires p in w.pcs && w.pcs[p].Staged? && Local(files, w, p, Staged)
    ensures var d := DoTryLock(w, p, deadline); LeavesOthers(w, d, p) && Local(files, d, p, d.pcs[p])
  {
    hide Hash, Bundle, Contents, LeavesOthers, MANIFEST;
    TryLockOthers(w, p, deadline);
  }

  lemma TryLockOthers(w: World, p: Pid, deadline: bool)
    requires p in w.pcs
    ensures LeavesOthers(w, DoTryLock(w, p, deadline), p)
  {
  }

  lemma RenameLocal(files: Callers, start: World, w: World, p: Pid)
    requires p in w.pcs && Local(files(p), w, p, Checked) && TargetWhole(files, start, w)
    ensures var d := DoRename(w, p);
            LeavesOthers(w, d, p) && Local(files(p), d, p, Renamed) && TargetWhole(files, start, d)
  {
    hide Hash, Bundle, Contents, LeavesOthers, MANIFEST;
    RenameFacts(files, start, w, p);
    RenameOthers(w, p);
  }

  lemma RenameFacts(files: Callers, start: World, w: World, p: Pid)
    requires Local(files(p), w, p, Checked) && TargetWhole(files, start, w)
    ensures w.target.None? && w.winners == [] && w.lock == HeldBy(p) && start.target.None?
    ensures p in w.staging && w.staging[p] == Bundle(files(p))
  {
    hide Hash, Bundle, Contents, MANIFEST;
  }

  lemma RenameOthers(w: World, p: Pid)
    requires p in w.pcs && p in w.staging && w.target.None? && w.lock == HeldBy(p) && w.winners == []
    ensures LeavesOthers(w, DoRename(w, p), p)
  {
  }

  lemma RemoveStagingLocal(files: seq<File>, w: World, p: Pid, pc: Pc, ok: bool)
    requires p in w.pcs && pc.Cleaning? && Local(files, w, p, pc)
    ensures var d := DoRemoveStaging(w, p, pc, ok); LeavesOthers(w, d, p) && Local(files, d, p, d.pcs[p])
  {
    hide Hash, Bundle, Contents, LeavesOthers, MANIFEST;
    StagingOthers(w, p, DoRemoveStaging(w, p, pc, ok).pcs[p], if ok then w.staging - {p} else w.staging);
  }

  lemma UnlinkLocal(files: seq<File>, w: World, p: Pid, outcome: Outcome, ok: bool)
    requires p in w.pcs && Local(files, w, p, Releasing(outcome))
    ensures var d := DoUnlink(w, p, outcome, ok); LeavesOthers(w, d, p) && Local(files, d, p, d.pcs[p])
  {
    hide Hash, Bundle, Contents, LeavesOthers, MANIFEST;
    assert w.lock == HeldBy(p);
    UnlinkOthers(w, p, outcome, ok);
  }

  lemma UnlinkOthers(w: World, p: Pid, outcome: Outcome, ok: bool)
    requires p in w.pcs && w.lock == HeldBy(p)
    ensures LeavesOthers(w, DoUnlink(w, p, outcome, ok), p)
  {
  }

  lemma Idle(w: World, p: Pid)
    ensures LeavesOthers(w, w, p)
  {
  }

  predicate OnlyReads(s: Step) {
    !s.MakeStaging? && !s.Write? && !s.TryLock? && !s.Rename? && !s.RemoveStaging? && !s.Unlink?
  }

  lemma ReadingStepLocal(files: Callers, start: World, w: World, s: Step, pc: Pc)
    requires TargetWhole(files, start, w) && s.p in w.pcs && w.pcs[s.p] == pc && Local(files(s.p), w, s.p, pc) && OnlyReads(s)
    ensures var d := Move(w, s.p, NextPc(files(s.p), w, s, pc));
            LeavesOthers(w, d, s.p) && Local(files(s.p), d, s.p, d.pcs[s.p]) && TargetWhole(files, start, d)
  {
    hide Local, LeavesOthers, NextPc, Bundle, MANIFEST;
    match s {
      case List(_) => VerifyPhase(files(s.p), w, s, s.p, pc);
      case CompareNames(_) => VerifyPhase(files(s.p), w, s, s.p, pc);
      case ReadFile(_, _) => VerifyPhase(files(s.p), w, s, s.p, pc);
      case Compare(_) => ComparePhase(files(s.p), w, s, s.p, pc);
      case ReadBack(_) => ReadBackPhase(files, start, w, s, pc);
      case Fault(_) => FaultPhase(files(s.p), w, s, s.p, pc);
      case Crash(_) => FaultPhase(files(s.p), w, s, s.p, pc);
      case _ => LockPhase(files(s.p), w, s, s.p, pc);
    }
    MovedLocal(files(s.p), w, s.p, NextPc(files(s.p), w, s, pc));
  }

  lemma WritingStepLocal(files: Callers, start: World, w: World, s: Step, pc: Pc)
    requires TargetWhole(files, start, w) && s.p in w.pcs && w.pcs[s.p] == pc && Local(files(s.p), w, s.p, pc) && !OnlyReads(s)
    ensures var d := ApplyTo(files(s.p), w, s, pc);
            LeavesOthers(w, d, s.p) && Local(files(s.p), d, s.p, d.pcs[s.p]) && TargetWhole(files, start, d)
  {
    hide Local, LeavesOthers, NextPc, Bundle, After, MANIFEST;
    var p := s.p;
    Idle(w, p);
    TargetKept(files(p), w, s, pc);
    match s
    case MakeStaging(_) => if pc.Making? { MakeStagingLocal(files(p), w, p); }
    case Write(_) => if pc.Writing? && p in w.staging { hide DoWrite; WriteLocal(files(p), w, p, pc.done); }
    case TryLock(_, deadline) => if pc.Staged? { hide DoTryLock; TryLockLocal(files(p), w, p, deadline); }
    case Rename(_) => if pc.Checked? && p in w.staging { RenameLocal(files, start, w, p); }
    case RemoveStaging(_, ok) => if pc.Cleaning? { hide DoRemoveStaging; RemoveStagingLocal(files(p), w, p, pc, ok); }
    case Unlink(_, ok) => if pc.Releasing? { hide DoUnlink; UnlinkLocal(files(p), w, p, pc.outcome, ok); }
  }

  lemma StepLocal(files: Callers, start: World, w: World, s: Step)
    requires Invariant(files, start, w) && s.p in w.pcs
    ensures var d := Apply(files, w, s);
            LeavesOthers(w, d, s.p) && Local(files(s.p), d, s.p, d.pcs[s.p]) && TargetWhole(files, start, d)
  {
    hide Local, LeavesOthers, TargetWhole, MANIFEST;
    if OnlyReads(s) {
      ReadingStepLocal(files, start, w, s, w.pcs[s.p]);
      ReadingApply(files(s.p), w, s, w.pcs[s.p]);
    } else {
      WritingStepLocal(files, start, w, s, w.pcs[s.p]);
    }
  }

  lemma ReadingApply(files: seq<File>, w: World, s: Step, pc: Pc)
    requires OnlyReads(s)
    ensures ApplyTo(files, w, s, pc) == Move(w, s.p, NextPc(files, w, s, pc))
  {
    hide NextPc, MANIFEST;
  }

  // Only a rename touches the target.
  lemma TargetKept(files: seq<File>, w: World, s: Step, pc: Pc)
    ensures var d := ApplyTo(files, w, s, pc);
            (d.target == w.target && d.winners == w.winners) || (s.Rename? && pc.Checked?)
  {
    hide NextPc, Manifest, MANIFEST;
  }

  lemma StepInvariant(files: Callers, start: World, w: World, s: Step)
    requires Invariant(files, start, w)
    ensures Invariant(files, start, Apply(files, w, s))
  {
    hide ApplyTo, Local, TargetWhole, LeavesOthers, MANIFEST;
    if s.p in w.pcs {
      var d := Apply(files, w, s);
      StepLocal(files, start, w, s);
      assert d.pcs.Keys == w.pcs.Keys by { SameKeys(w, d, s.p); }
      forall q | q in d.pcs ensures Local(files(q), d, q, d.pcs[q]) {
        if q != s.p { OtherLocal(files(q), w, d, s.p, q); }
      }
    }
  }

  lemma SameKeys(w: World, d: World, p: Pid)
    requires LeavesOthers(w, d, p)
    ensures d.pcs.Keys == w.pcs.Keys
  {
  }

  lemma {:induction false} ExecInvariant(files: Callers, start: World, steps: seq<Step>)
    requires Begins(start)
    ensures Invariant(files, start, Exec(files, start, steps))
    decreases |steps|
  {
    hide Apply, Local, TargetWhole, MANIFEST;
    if steps == [] {
      BeginInvariant(files, start);
    } else {
      ExecInvariant(files, start, steps[..|steps| - 1]);
      StepInvariant(files, start, Exec(files, start, steps[..|steps| - 1]), steps[|steps| - 1]);
    }
  }

  lemma BeginInvariant(files: Callers, start: World)
    requires Begins(start)
    ensures Invariant(files, start, start)
  {
    hide Hash, Bundle, Contents, MANIFEST;
  }

  /* ---------- the theorems ---------- */

  /** At every moment the target is as it was found, or exactly one publisher's complete bundle. */
  lemma TargetIsWhole(files: Callers, start: World, steps: seq<Step>)
    requires Begins(start)
    ensures var w := Exec(files, start, steps);
            w.target == start.target ||
            (start.target.None? && |w.winners| == 1 && w.target == Some(Bundle(files(w.winners[0]))))
  {
    hide Exec, Local, Bundle, MANIFEST;
    ExecInvariant(files, start, steps);
  }

  // A step from a reachable world leaves a present target alone.
  lemma StepKeepsTarget(files: Callers, start: World, w: World, s: Step)
    requires Invariant(files, start, w) && w.target.Some?
    ensures Apply(files, w, s).target == w.target
  {
    hide ApplyTo, TargetWhole, Bundle, Contents, MANIFEST, Manifest, Hash;
    if s.p in w.pcs {
      TargetKept(files(s.p), w, s, w.pcs[s.p]);
      assert Local(files(s.p), w, s.p, w.pcs[s.p]);
    }
  }

  /** Once present, the target never changes again, whatever happens later. */
  lemma {:induction false} TargetWriteOnce(files: Callers, start: World, steps: seq<Step>, more: seq<Step>)
    requires Begins(start) && Exec(files, start, steps).target.Some?
    ensures Exec(files, start, steps + more).target == Exec(files, start, steps).target
    decreases |more|
  {
    hide Begins, Apply, Invariant, Exec;
    if more == [] {
      assert steps + more == steps;
    } else {
      var shorter, s := more[..|more| - 1], more[|more| - 1];
      TargetWriteOnce(files, start, steps, shorter);
      assert steps + more == steps + shorter + [s];
      ExecOneMore(files, start, steps + shorter, s);
      ExecInvariant(files, start, steps + shorter);
      StepKeepsTarget(files, start, Exec(files, start, steps + shorter), s);
    }
  }

  lemma ExecOneMore(files: Callers, start: World, steps: seq<Step>, s: Step)
    ensures Exec(files, start, steps + [s]) == Apply(files, Exec(files, start, steps), s)
  {
    hide Apply;
    assert (steps + [s])[..|steps|] == steps;
  }

  function AnswerOf(w: World, p: Pid): Option<Checksum> {
    if p in w.pcs && w.pcs[p].Finished? && !w.pcs[p].answer.Rejected? then Some(w.pcs[p].answer.manifestSha256) else None
  }

  /** A write-once register: an answer means the directory holds that caller's bytes, and its hash is the
      caller's manifest hash; so all answers agree and a caller with other bytes never gets one. */
  lemma AnswersMeanMyBytes(files: Callers, start: World, steps: seq<Step>, p: Pid, q: Pid)
    requires Begins(start)
    ensures var w := Exec(files, start, steps);
            (AnswerOf(w, p).Some? ==>
              w.target == Some(Bundle(files(p))) && AnswerOf(w, p) == Some(Hash(Manifest(files(p))))) &&
            (AnswerOf(w, p).Some? && AnswerOf(w, q).Some? ==>
              Bundle(files(p)) == Bundle(files(q)) && AnswerOf(w, p) == AnswerOf(w, q))
  {
    hide *;
    ExecInvariant(files, start, steps);
    var w := Exec(files, start, steps);
    if AnswerOf(w, p).Some? { AnswerLocal(files, start, w, p); }
    if AnswerOf(w, q).Some? { AnswerLocal(files, start, w, q); }
    BundleHasManifest(files(p));
    BundleHasManifest(files(q));
  }

  lemma AnswerLocal(files: Callers, start: World, w: World, p: Pid)
    requires Invariant(files, start, w) && AnswerOf(w, p).Some?
    ensures w.target == Some(Bundle(files(p))) && AnswerOf(w, p) == Some(Hash(Manifest(files(p))))
  {
    hide Bundle, Manifest, Contents, MANIFEST, Hash;
    assert Local(files(p), w, p, w.pcs[p]);
  }

  predicate HasPublished(w: World, p: Pid) { p in w.pcs && w.pcs[p].Finished? && w.pcs[p].answer.Published? }

  lemma PublishedWon(files: Callers, start: World, w: World, p: Pid)
    requires Invariant(files, start, w) && HasPublished(w, p)
    ensures w.winners == [p] && start.target.None?
  {
    hide Bundle, Contents, Hash, MANIFEST, Manifest;
    assert Local(files(p), w, p, w.pcs[p]);
  }

  /** At most one publisher ever publishes, and only where nothing was before. */
  lemma AtMostOnePublishes(files: Callers, start: World, steps: seq<Step>, p: Pid, q: Pid)
    requires Begins(start)
    ensures var w := Exec(files, start, steps);
            (HasPublished(w, p) ==> start.target.None?) && (HasPublished(w, p) && HasPublished(w, q) ==> p == q)
  {
    hide *;
    ExecInvariant(files, start, steps);
    var w := Exec(files, start, steps);
    if HasPublished(w, p) { PublishedWon(files, start, w, p); }
    if HasPublished(w, q) { PublishedWon(files, start, w, q); }
  }

  // Only TryLock and Unlink touch the lock.
  lemma LockChange(files: seq<File>, w: World, s: Step, pc: Pc)
    ensures var d := ApplyTo(files, w, s, pc);
            d.lock == w.lock || (w.lock.Free? && d.lock == HeldBy(s.p)) || (s.Unlink? && pc.Releasing? && d.lock.Free?)
  {
    hide NextPc, Manifest, MANIFEST, After;
  }

  /** A lock file goes away only by the hand that created it. */
  lemma LockRemovedByItsCreator(files: Callers, start: World, steps: seq<Step>, s: Step)
    requires Begins(start)
    ensures var w := Exec(files, start, steps); var d := Apply(files, w, s);
            d.lock != w.lock ==> (w.lock.Free? && d.lock == HeldBy(s.p)) || (w.lock == HeldBy(s.p) && d.lock.Free?)
  {
    hide Exec, ApplyTo, Begins, TargetWhole, MANIFEST;
    ExecInvariant(files, start, steps);
    var w := Exec(files, start, steps);
    if s.p in w.pcs {
      assert Local(files(s.p), w, s.p, w.pcs[s.p]);
      LockChange(files(s.p), w, s, w.pcs[s.p]);
    }
  }

  /** A lock left behind by an earlier crash is never taken away, and nothing is published past it:
      the directory is safe but stuck. */
  lemma LeftoverLockBlocks(files: Callers, start: World, steps: seq<Step>)
    requires Begins(start) && start.lock.Leftover?
    ensures Exec(files, start, steps).lock.Leftover? && Exec(files, start, steps).target == start.target
    decreases |steps|
  {
    hide Hash, Bundle, Contents, Begins, MANIFEST;
    if steps != [] {
      var front, s := steps[..|steps| - 1], steps[|steps| - 1];
      LeftoverLockBlocks(files, start, front);
      LockRemovedByItsCreator(files, start, front, s);
      ExecInvariant(files, start, front);
      var w := Exec(files, start, front);
      if s.p in w.pcs {
        assert Local(files(s.p), w, s.p, w.pcs[s.p]);
        TargetKept(files(s.p), w, s, w.pcs[s.p]);
      }
      hide ApplyTo;
    }
  }

  /** An error after the rename is no proof of absence: the directory sync may fail when the bundle is already there. */
  lemma SyncFailureAfterRename(files: Callers, start: World, steps: seq<Step>, p: Pid)
    requires Begins(start)
    requires var w := Exec(files, start, steps); p in w.pcs && w.pcs[p].Renamed?
    ensures var d := Exec(files, start, steps + [Fault(p)] + [Unlink(p, true)]);
            p in d.pcs && d.pcs[p] == Finished(Rejected) && d.target == Some(Bundle(files(p)))
  {
    hide Exec, Bundle, Contents, Begins;
    var w := Exec(files, start, steps);
    ExecInvariant(files, start, steps);
    assert Local(files(p), w, p, w.pcs[p]);
    ExecOneMore(files, start, steps, Fault(p));
    ExecOneMore(files, start, steps + [Fault(p)], Unlink(p, true));
  }
}
