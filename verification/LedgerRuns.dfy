/**
 Many processes on one ledger, statement by statement.  A claim is one transaction; a completion is a
 SELECT and two separately committed UPDATEs; a registration is a SELECT and an INSERT; a process can
 die between any two statements.
 */
module LedgerRuns {
  import opened Basics
  import opened Ledger

  type Pid = nat

  datatype Pc =
    | Free
    | Registering(key: Key, item: Item)               // its SELECT found no row
    | Holding(key: Key, id: AttemptId)                // claim committed, ingest not called yet
    | Ingested(key: Key, id: AttemptId, e: Ending)    // ingest returned, _complete not begun
    | Selected(key: Key, id: AttemptId, e: Ending)    // _complete read the row as CLAIMED
    | HalfDone(key: Key, id: AttemptId, e: Ending)    // attempts updated, work_items not yet
    | Gone

  // The tables, the processes, and how often `ingest` was called for each key.
  datatype World = World(t: Tables, pcs: map<Pid, Pc>, ingests: map<Key, nat>)

  datatype Step =
    | StartRegister(p: Pid, key: Key, item: Item)
    | Insert(p: Pid)
    | Claim(p: Pid, key: Key, owner: Text, id: AttemptId)
    | Ingest(p: Pid, e: Ending)
    | SelectAttempt(p: Pid)
    | WriteAttempt(p: Pid)
    | WriteItem(p: Pid)
    | Foreign(p: Pid, id: AttemptId, e: Ending)   // somebody else starts completing an attempt
    | Crash(p: Pid)

  function Move(w: World, p: Pid, pc: Pc): World { w.(pcs := w.pcs[p := pc]) }

  function Ingests(w: World, key: Key): nat { if key in w.ingests then w.ingests[key] else 0 }

  /** One statement; a step that is not enabled changes nothing. */
  function Apply(w: World, s: Step): World { if s.p in w.pcs then ApplyTo(w, s, w.pcs[s.p]) else w }

  function ApplyTo(w: World, s: Step, pc: Pc): World {
    match s
    case StartRegister(p, key, item) => if pc.Free? && key !in w.t.items then Move(w, p, Registering(key, item)) else w
    case Insert(p) => if pc.Registering? then DoInsert(w, p, pc.key, pc.item) else w
    case Claim(p, key, owner, id) => if pc.Free? && id !in w.t.attempts then DoClaim(w, p, key, owner, id) else w
    case Ingest(p, e) =>
      if pc.Holding? then Move(w, p, Ingested(pc.key, pc.id, e)).(ingests := w.ingests[pc.key := Ingests(w, pc.key) + 1]) else w
    case SelectAttempt(p) => if pc.Ingested? then DoSelect(w, p, pc.key, pc.id, pc.e) else w
    case WriteAttempt(p) =>
      if pc.Selected? then Move(w, p, HalfDone(pc.key, pc.id, pc.e)).(t := UpdateAttempt(w.t, pc.id, pc.e)) else w
    case WriteItem(p) => if pc.HalfDone? then Move(w, p, Free).(t := UpdateItem(w.t, pc.key, pc.e)) else w
    case Foreign(p, id, e) => if pc.Free? && id in w.t.attempts then DoSelect(w, p, w.t.attempts[id].key, id, e) else w
    case Crash(p) => Move(w, p, Gone)
  }

  // INSERT with the registered state PLANNED; a key taken meanwhile is an IntegrityError.
  function DoInsert(w: World, p: Pid, key: Key, item: Item): World {
    if key in w.t.items then Move(w, p, Free)
    else Move(w, p, Free).(t := w.t.(items := w.t.items[key := item.(state := Planned)]))
  }

  function DoClaim(w: World, p: Pid, key: Key, owner: Text, id: AttemptId): World {
    if ClaimStatusOf(w.t, key).ClaimGranted? then Move(w, p, Holding(key, id)).(t := ClaimCommit(w.t, key, owner, id)) else w
  }

  // _complete goes on only if it reads the attempt as CLAIMED; otherwise it raises.
  function DoSelect(w: World, p: Pid, key: Key, id: AttemptId, e: Ending): World {
    if id in w.t.attempts && w.t.attempts[id].state.InProgress? then Move(w, p, Selected(key, id, e)) else Move(w, p, Free)
  }

  function Exec(w: World, steps: seq<Step>): World
    decreases |steps|
  {
    if steps == [] then w else Apply(Exec(w, steps[..|steps| - 1]), steps[|steps| - 1])
  }

  // An empty ledger and any number of processes.
  predicate Begins(w: World) { w.t == Tables(map[], map[]) && w.ingests == map[] && forall p :: p in w.pcs ==> w.pcs[p].Free? }

  /* ---------- one attempt per key, one ingest per key ---------- */

  predicate Completing(pc: Pc) { pc.Ingested? || pc.Selected? || pc.HalfDone? }

  // A process's own view of the attempt it works on.
  predicate Refers(t: Tables, pc: Pc) {
    (pc.Holding? || Completing(pc)) ==> pc.id in t.attempts && t.attempts[pc.id].key == pc.key
  }

  predicate AllRefer(w: World) { forall p :: p in w.pcs ==> Refers(w.t, w.pcs[p]) }

  // Nobody holds a key that was ingested, and no two processes hold the same key.
  predicate HoldersApart(w: World) {
    (forall p :: p in w.pcs && w.pcs[p].Holding? ==> Ingests(w, w.pcs[p].key) == 0) &&
    (forall p, q :: p in w.pcs && q in w.pcs && p != q && w.pcs[p].Holding? && w.pcs[q].Holding? ==> w.pcs[p].key != w.pcs[q].key)
  }

  ghost predicate IngestedAtMostOnce(w: World) {
    forall k :: Ingests(w, k) <= 1 && (Ingests(w, k) == 1 ==> k in w.t.items && !w.t.items[k].state.Planned?)
  }

  ghost predicate Counted(w: World) {
    OneAttemptEach(w.t) && AllRefer(w) && HoldersApart(w) && IngestedAtMostOnce(w)
  }

  // The tables after a step still carry every attempt, under the same key, and nothing goes back to PLANNED.
  predicate Grows(t: Tables, u: Tables) {
    (forall a :: a in t.attempts ==> a in u.attempts && u.attempts[a].key == t.attempts[a].key) &&
    (forall k :: k in t.items && !t.items[k].state.Planned? ==> k in u.items && !u.items[k].state.Planned?)
  }

  // A step that changes tables and one process, and calls no ingest.
  lemma QuietStepCounted(w: World, p: Pid, pc: Pc, u: Tables)
    requires Counted(w) && p in w.pcs && Grows(w.t, u) && OneAttemptEach(u) && Refers(u, pc)
    requires !pc.Holding?
    ensures Counted(Move(w, p, pc).(t := u))
  {
    hide OneAttemptEach;
    var d := Move(w, p, pc).(t := u);
    forall k ensures Ingests(d, k) == Ingests(w, k) { }
    forall q | q in d.pcs ensures Refers(u, d.pcs[q]) { if q != p { assert Refers(w.t, w.pcs[q]); } }
  }

  // A holder's key has left PLANNED.
  lemma HolderClaimed(w: World, q: Pid)
    requires OneAttemptEach(w.t) && AllRefer(w) && q in w.pcs && w.pcs[q].Holding?
    ensures w.pcs[q].key in w.t.items && !w.t.items[w.pcs[q].key].state.Planned?
  {
    assert Refers(w.t, w.pcs[q]);
  }

  lemma ClaimCounted(w: World, p: Pid, key: Key, owner: Text, id: AttemptId)
    requires Counted(w) && p in w.pcs && id !in w.t.attempts && ClaimStatusOf(w.t, key).ClaimGranted?
    ensures Counted(DoClaim(w, p, key, owner, id))
  {
    hide OneAttemptEach, Grows, ClaimCommit;
    var u, pc := ClaimCommit(w.t, key, owner, id), Holding(key, id);
    var d := Move(w, p, pc).(t := u);
    ClaimKeeps(w.t, key, owner, id);
    ClaimGrows(w.t, key, owner, id);
    GrowsFacts(w, u);
    forall k ensures Ingests(d, k) == Ingests(w, k) { }
    forall q | q in d.pcs ensures Refers(u, d.pcs[q]) { if q != p { assert Refers(w.t, w.pcs[q]); } }
    forall q | q in w.pcs && w.pcs[q].Holding? ensures w.pcs[q].key != key { HolderClaimed(w, q); }
  }

  lemma GrowsFacts(w: World, u: Tables)
    requires Grows(w.t, u) && AllRefer(w) && IngestedAtMostOnce(w)
    ensures forall q :: q in w.pcs ==> Refers(u, w.pcs[q])
    ensures forall k :: Ingests(w, k) == 1 ==> k in u.items && !u.items[k].state.Planned?
  {
    forall q | q in w.pcs ensures Refers(u, w.pcs[q]) { assert Refers(w.t, w.pcs[q]); }
  }

  lemma ClaimGrows(t: Tables, key: Key, owner: Text, id: AttemptId)
    requires id !in t.attempts
    ensures Grows(t, ClaimCommit(t, key, owner, id))
    ensures Refers(ClaimCommit(t, key, owner, id), Holding(key, id))
  {
  }

  lemma InsertCounted(w: World, p: Pid, key: Key, item: Item)
    requires Counted(w) && p in w.pcs
    ensures Counted(DoInsert(w, p, key, item))
  {
    if key !in w.t.items {
      InsertKeeps(w.t, key, item);
      QuietStepCounted(w, p, Free, w.t.(items := w.t.items[key := item.(state := Planned)]));
    } else {
      QuietStepCounted(w, p, Free, w.t);
    }
  }

  lemma InsertKeeps(t: Tables, key: Key, item: Item)
    requires OneAttemptEach(t) && key !in t.items
    ensures var u := t.(items := t.items[key := item.(state := Planned)]); OneAttemptEach(u) && Grows(t, u)
  {
    var u := t.(items := t.items[key := item.(state := Planned)]);
    forall k | k in u.items && !u.items[k].state.Planned? ensures exists a :: a in u.attempts && u.attempts[a].key == k {
      var a :| a in t.attempts && t.attempts[a].key == k;
    }
  }

  lemma IngestCounted(w: World, p: Pid, e: Ending)
    requires Counted(w) && p in w.pcs && w.pcs[p].Holding?
    ensures Counted(ApplyTo(w, Ingest(p, e), w.pcs[p]))
  {
    HolderClaimed(w, p);
    hide OneAttemptEach;
    var key := w.pcs[p].key;
    var d := ApplyTo(w, Ingest(p, e), w.pcs[p]);
    forall k ensures Ingests(d, k) == if k == key then 1 else Ingests(w, k) { }
    forall q | q in d.pcs ensures Refers(d.t, d.pcs[q]) { assert Refers(w.t, w.pcs[q]); }
  }

  lemma WriteAttemptCounted(w: World, p: Pid)
    requires Counted(w) && p in w.pcs && w.pcs[p].Selected?
    ensures Counted(ApplyTo(w, WriteAttempt(p), w.pcs[p]))
  {
    hide OneAttemptEach;
    var pc := w.pcs[p];
    assert Refers(w.t, pc);
    UpdateAttemptKeeps(w.t, pc.id, pc.e);
    QuietStepCounted(w, p, HalfDone(pc.key, pc.id, pc.e), UpdateAttempt(w.t, pc.id, pc.e));
  }

  lemma WriteItemCounted(w: World, p: Pid)
    requires Counted(w) && p in w.pcs && w.pcs[p].HalfDone?
    ensures Counted(ApplyTo(w, WriteItem(p), w.pcs[p]))
  {
    hide OneAttemptEach;
    var pc := w.pcs[p];
    assert Refers(w.t, pc);
    UpdateItemKeeps(w.t, pc.id, pc.e);
    QuietStepCounted(w, p, Free, UpdateItem(w.t, pc.key, pc.e));
  }

  lemma StepCounted(w: World, s: Step)
    requires Counted(w)
    ensures Counted(Apply(w, s))
  {
    hide Counted, ClaimStatusOf;
    if s.p in w.pcs {
      var p, pc := s.p, w.pcs[s.p];
      assert w.(t := w.t) == w;
      match s
      case StartRegister(_, key, item) => if pc.Free? && key !in w.t.items { MoveCounted(w, p, Registering(key, item)); }
      case Insert(_) => if pc.Registering? { hide DoInsert; InsertCounted(w, p, pc.key, pc.item); }
      case Claim(_, key, owner, id) =>
        if pc.Free? && id !in w.t.attempts && ClaimStatusOf(w.t, key).ClaimGranted? { ClaimCounted(w, p, key, owner, id); }
      case Ingest(_, e) => if pc.Holding? { IngestCounted(w, p, e); }
      case SelectAttempt(_) => if pc.Ingested? { RefersHere(w, p); SelectCounted(w, p, pc.key, pc.id, pc.e); }
      case Foreign(_, id, e) => if pc.Free? && id in w.t.attempts { SelectCounted(w, p, w.t.attempts[id].key, id, e); }
      case Crash(_) => MoveCounted(w, p, Gone);
      case WriteAttempt(_) => if pc.Selected? { WriteAttemptCounted(w, p); }
      case WriteItem(_) => if pc.HalfDone? { WriteItemCounted(w, p); }
    }
  }

  lemma RefersHere(w: World, p: Pid)
    requires Counted(w) && p in w.pcs
    ensures Refers(w.t, w.pcs[p])
  {
    hide OneAttemptEach;
  }

  lemma MoveCounted(w: World, p: Pid, pc: Pc)
    requires Counted(w) && p in w.pcs && Refers(w.t, pc) && !pc.Holding?
    ensures Counted(Move(w, p, pc))
  {
    QuietStepCounted(w, p, pc, w.t);
    hide OneAttemptEach;
  }

  lemma SelectCounted(w: World, p: Pid, key: Key, id: AttemptId, e: Ending)
    requires Counted(w) && p in w.pcs && id in w.t.attempts && w.t.attempts[id].key == key
    ensures Counted(DoSelect(w, p, key, id, e))
  {
    MoveCounted(w, p, if w.t.attempts[id].state.InProgress? then Selected(key, id, e) else Free);
    hide Counted;
  }

  lemma {:induction false} ExecCounted(start: World, steps: seq<Step>)
    requires Begins(start)
    ensures Counted(Exec(start, steps))
    decreases |steps|
  {
    hide Apply, Counted;
    if steps == [] {
      BeginCounted(start);
    } else {
      ExecCounted(start, steps[..|steps| - 1]);
      StepCounted(Exec(start, steps[..|steps| - 1]), steps[|steps| - 1]);
    }
  }

  lemma BeginCounted(w: World)
    requires Begins(w)
    ensures Counted(w)
  {
  }

  /** Under any interleaving, any crashes and even foreign completions: a key has one attempt exactly when it has
      left PLANNED and none before, its number is 1, and `ingest` is called at most once for it. */
  lemma OneAttemptOneIngest(start: World, steps: seq<Step>, key: Key)
    requires Begins(start)
    ensures var w := Exec(start, steps);
            |AttemptsOf(w.t, key)| == (if key in w.t.items && !w.t.items[key].state.Planned? then 1 else 0) &&
            Ingests(w, key) <= |AttemptsOf(w.t, key)| &&
            (forall a :: a in w.t.attempts ==> w.t.attempts[a].number == 1)
  {
    hide Exec, AttemptsOf;
    ExecCounted(start, steps);
    AttemptCount(Exec(start, steps).t, key);
  }

  /** A claimed item can always be loaded, so the executor's not-found branch is dead. */
  lemma ClaimedItemLoads(start: World, steps: seq<Step>, p: Pid)
    requires Begins(start)
    requires var w := Exec(start, steps); p in w.pcs && w.pcs[p].Holding?
    ensures Exec(start, steps).pcs[p].key in Exec(start, steps).t.items
  {
    hide Exec;
    ExecCounted(start, steps);
    RefersHere(Exec(start, steps), p);
  }

  /* ---------- SUCCEEDED items and their attempts ---------- */

  predicate PastSelect(pc: Pc) { pc.Selected? || pc.HalfDone? }

  // `p` is completing the attempt as a success, and `q`, past its own SELECT, will still write it as something else.
  predicate Clash(w: World, p: Pid, q: Pid) {
    p in w.pcs && q in w.pcs && PastSelect(w.pcs[p]) && w.pcs[q].Selected? && w.pcs[p].id == w.pcs[q].id &&
    w.pcs[p].e.Success? && !w.pcs[q].e.Success?
  }

  ghost predicate Clashes(w: World) { exists p, q :: Clash(w, p, q) }

  ghost predicate NeverClashes(start: World, steps: seq<Step>) {
    forall k :: 0 <= k <= |steps| ==> !Clashes(Exec(start, steps[..k]))
  }

  predicate SucceededTogether(t: Tables) {
    forall a :: a in t.attempts && t.attempts[a].key in t.items && t.items[t.attempts[a].key].state.Succeeded? ==>
      t.attempts[a].state.AttemptSucceeded?
  }

  // What a completer finds in its attempt's row: still CLAIMED, or an ending that agrees with its own.
  predicate Matches(t: Tables, pc: Pc) {
    PastSelect(pc) ==>
      pc.id in t.attempts &&
      (if t.attempts[pc.id].state.InProgress? then pc.Selected? else t.attempts[pc.id].state.AttemptSucceeded? <==> pc.e.Success?)
  }

  ghost predicate Faultless(w: World) {
    SucceededTogether(w.t) && forall p :: p in w.pcs ==> Matches(w.t, w.pcs[p])
  }

  lemma MoveFaultless(w: World, p: Pid, pc: Pc, u: Tables)
    requires Faultless(w) && p in w.pcs && Matches(u, pc) && SucceededTogether(u)
    requires forall a :: a in w.t.attempts ==> a in u.attempts && u.attempts[a].state == w.t.attempts[a].state
    ensures Faultless(Move(w, p, pc).(t := u))
  {
    hide SucceededTogether;
    forall q | q in w.pcs && q != p ensures Matches(u, w.pcs[q]) { assert Matches(w.t, w.pcs[q]); }
  }

  lemma StayFaultless(w: World, p: Pid, pc: Pc)
    requires Faultless(w) && p in w.pcs && Matches(w.t, pc)
    ensures Faultless(Move(w, p, pc))
  {
    MoveFaultless(w, p, pc, w.t);
    assert Move(w, p, pc).(t := w.t) == Move(w, p, pc);
    hide Faultless;
  }

  lemma InsertFaultless(w: World, p: Pid, key: Key, item: Item)
    requires Faultless(w) && OneAttemptEach(w.t) && p in w.pcs
    ensures Faultless(DoInsert(w, p, key, item))
  {
    if key in w.t.items {
      StayFaultless(w, p, Free);
    } else {
      MoveFaultless(w, p, Free, w.t.(items := w.t.items[key := item.(state := Planned)]));
    }
    hide Faultless;
  }

  lemma ClaimFaultless(w: World, p: Pid, key: Key, owner: Text, id: AttemptId)
    requires Faultless(w) && OneAttemptEach(w.t) && p in w.pcs && id !in w.t.attempts && ClaimStatusOf(w.t, key).ClaimGranted?
    ensures Faultless(DoClaim(w, p, key, owner, id))
  {
    ClaimSucceeded(w.t, key, owner, id);
    hide OneAttemptEach, SucceededTogether;
    MoveFaultless(w, p, Holding(key, id), ClaimCommit(w.t, key, owner, id));
  }

  lemma ClaimSucceeded(t: Tables, key: Key, owner: Text, id: AttemptId)
    requires OneAttemptEach(t) && SucceededTogether(t) && id !in t.attempts
    ensures SucceededTogether(ClaimCommit(t, key, owner, id))
  {
  }

  lemma WriteAttemptFaultless(w: World, p: Pid)
    requires Faultless(w) && !Clashes(w) && p in w.pcs && w.pcs[p].Selected?
    ensures Faultless(ApplyTo(w, WriteAttempt(p), w.pcs[p]))
  {
    var pc := w.pcs[p];
    assert Matches(w.t, pc);
    var u := UpdateAttempt(w.t, pc.id, pc.e);
    assert SucceededTogether(u);
    hide SucceededTogether;
    forall q | q in w.pcs && q != p ensures Matches(u, w.pcs[q]) {
      assert Matches(w.t, w.pcs[q]) && !Clash(w, p, q) && !Clash(w, q, p);
    }
  }

  lemma WriteItemFaultless(w: World, p: Pid)
    requires Faultless(w) && OneAttemptEach(w.t) && p in w.pcs && w.pcs[p].HalfDone? && Refers(w.t, w.pcs[p])
    ensures Faultless(ApplyTo(w, WriteItem(p), w.pcs[p]))
  {
    var pc := w.pcs[p];
    assert Matches(w.t, pc);
    var u := UpdateItem(w.t, pc.key, pc.e);
    assert SucceededTogether(u);
    hide OneAttemptEach, SucceededTogether;
    MoveFaultless(w, p, Free, u);
  }

  lemma IngestsIrrelevant(w: World, ingests: map<Key, nat>)
    requires Faultless(w)
    ensures Faultless(w.(ingests := ingests))
  {
  }

  lemma SelectFaultless(w: World, p: Pid, key: Key, id: AttemptId, e: Ending)
    requires Faultless(w) && p in w.pcs
    ensures Faultless(DoSelect(w, p, key, id, e))
  {
    StayFaultless(w, p, if id in w.t.attempts && w.t.attempts[id].state.InProgress? then Selected(key, id, e) else Free);
    hide Faultless;
  }

  lemma StepFaultless(w: World, s: Step)
    requires Faultless(w) && Counted(w) && !Clashes(w)
    ensures Faultless(Apply(w, s))
  {
    hide Faultless, OneAttemptEach, ClaimStatusOf, DoSelect, Clashes;
    if s.p in w.pcs {
      var p, pc := s.p, w.pcs[s.p];
      match s
      case StartRegister(_, key, item) => if pc.Free? && key !in w.t.items { StayFaultless(w, p, Registering(key, item)); }
      case Insert(_) => if pc.Registering? { hide DoInsert; InsertFaultless(w, p, pc.key, pc.item); }
      case Claim(_, key, owner, id) =>
        if pc.Free? && id !in w.t.attempts && ClaimStatusOf(w.t, key).ClaimGranted? { ClaimFaultless(w, p, key, owner, id); }
      case Ingest(_, e) =>
        if pc.Holding? {
          StayFaultless(w, p, Ingested(pc.key, pc.id, e));
          IngestsIrrelevant(Move(w, p, Ingested(pc.key, pc.id, e)), w.ingests[pc.key := Ingests(w, pc.key) + 1]);
        }
      case SelectAttempt(_) => if pc.Ingested? { SelectFaultless(w, p, pc.key, pc.id, pc.e); }
      case Foreign(_, id, e) => if pc.Free? && id in w.t.attempts { SelectFaultless(w, p, w.t.attempts[id].key, id, e); }
      case WriteAttempt(_) => if pc.Selected? { WriteAttemptFaultless(w, p); }
      case WriteItem(_) => if pc.HalfDone? { RefersHere(w, p); WriteItemFaultless(w, p); }
      case Crash(_) => StayFaultless(w, p, Gone);
    }
  }

  lemma {:induction false} ExecFaultless(start: World, steps: seq<Step>)
    requires Begins(start) && NeverClashes(start, steps)
    ensures Faultless(Exec(start, steps))
    decreases |steps|
  {
    hide Apply, Faultless, Clashes;
    if steps == [] {
      BeginFaultless(start);
    } else {
      var front := steps[..|steps| - 1];
      assert NeverClashes(start, front) by {
        forall k | 0 <= k <= |front| ensures !Clashes(Exec(start, front[..k])) { assert front[..k] == steps[..k]; }
      }
      ExecFaultless(start, front);
      ExecCounted(start, front);
      assert steps[..|front|] == front;
      StepFaultless(Exec(start, front), steps[|steps| - 1]);
    }
  }

  lemma BeginFaultless(w: World)
    requires Begins(w)
    ensures Faultless(w)
  {
  }

  // The item is SUCCEEDED and no attempt of it is.
  predicate Broken(t: Tables, key: Key) {
    key in t.items && t.items[key].state.Succeeded? &&
    forall a :: a in t.attempts && t.attempts[a].key == key ==> !t.attempts[a].state.AttemptSucceeded?
  }

  /** Unless a success and another ending of one attempt ever clash, a SUCCEEDED item has a SUCCEEDED attempt at every
      moment: over every interleaving, crashes between the two updates and foreign completions included. */
  lemma SucceededItemHasSucceededAttempt(start: World, steps: seq<Step>, key: Key)
    requires Begins(start) && NeverClashes(start, steps)
    ensures !Broken(Exec(start, steps).t, key)
  {
    hide Exec, NeverClashes;
    ExecCounted(start, steps);
    ExecFaultless(start, steps);
    var t := Exec(start, steps).t;
    if key in t.items && t.items[key].state.Succeeded? {
      var a :| a in t.attempts && t.attempts[a].key == key;
      assert t.attempts[a].state.AttemptSucceeded?;
    }
  }

  // What the clashing processes still have to do.
  function Breaking(w: World, p: Pid, q: Pid): seq<Step>
    requires Clash(w, p, q)
  {
    if w.pcs[p].Selected? then [WriteAttempt(p), WriteAttempt(q), WriteItem(p)] else [WriteAttempt(q), WriteItem(p)]
  }

  lemma BreakHalf(w: World, p: Pid, q: Pid)
    requires Counted(w) && Clash(w, p, q) && w.pcs[p].HalfDone?
    ensures Broken(ExecAll(w, [WriteAttempt(q), WriteItem(p)]).t, w.pcs[p].key)
  {
    RefersHere(w, p);
    assert OneAttemptEach(w.t);
    var x := Apply(w, WriteAttempt(q));
    var y := Apply(x, WriteItem(p));
    assert x.pcs[p] == w.pcs[p] && x.t == UpdateAttempt(w.t, w.pcs[q].id, w.pcs[q].e);
    assert y.t == UpdateItem(x.t, w.pcs[p].key, Success);
    assert [WriteAttempt(q), WriteItem(p)][1..] == [WriteItem(p)] && [WriteItem(p)][1..] == [];
    hide Apply, Counted, Clash, Refers;
    assert ExecAll(w, [WriteAttempt(q), WriteItem(p)]) == y by {
      assert ExecAll(w, [WriteAttempt(q), WriteItem(p)]) == ExecAll(x, [WriteItem(p)]);
      assert ExecAll(x, [WriteItem(p)]) == ExecAll(y, []);
    }
  }

  lemma BreakFull(w: World, p: Pid, q: Pid)
    requires Counted(w) && Clash(w, p, q) && w.pcs[p].Selected?
    ensures Broken(ExecAll(w, [WriteAttempt(p), WriteAttempt(q), WriteItem(p)]).t, w.pcs[p].key)
  {
    var x := Apply(w, WriteAttempt(p));
    StepCounted(w, WriteAttempt(p));
    assert x.pcs == w.pcs[p := HalfDone(w.pcs[p].key, w.pcs[p].id, w.pcs[p].e)];
    hide Counted, Apply;
    BreakHalf(x, p, q);
    assert [WriteAttempt(p), WriteAttempt(q), WriteItem(p)][1..] == [WriteAttempt(q), WriteItem(p)];
  }

  /** From every reachable clash some continuation ends with the item SUCCEEDED and its attempt not. */
  lemma ClashCanBreak(start: World, steps: seq<Step>, p: Pid, q: Pid)
    requires Begins(start) && Clash(Exec(start, steps), p, q)
    ensures var w := Exec(start, steps); Broken(Exec(start, steps + Breaking(w, p, q)).t, w.pcs[p].key)
  {
    var w := Exec(start, steps);
    var more := Breaking(w, p, q);
    ExecCounted(start, steps);
    ExecJoin(start, steps, more);
    ExecAllIsExec(w, more);
    hide Exec, ExecAll, Broken, Counted;
    if w.pcs[p].Selected? { BreakFull(w, p, q); } else { BreakHalf(w, p, q); }
  }

  lemma {:induction false} ExecJoin(w: World, a: seq<Step>, b: seq<Step>)
    ensures Exec(w, a + b) == Exec(Exec(w, a), b)
    decreases |b|
  {
    hide Apply;
    if b == [] {
      assert a + b == a;
    } else {
      assert (a + b)[..|a + b| - 1] == a + b[..|b| - 1];
      ExecJoin(w, a, b[..|b| - 1]);
    }
  }

  /* ---------- only claimants complete ---------- */

  predicate NoForeign(steps: seq<Step>) { forall i :: 0 <= i < |steps| ==> !steps[i].Foreign? }

  predicate Busy(pc: Pc) { pc.Holding? || Completing(pc) }

  // No two processes work on one attempt.
  ghost predicate Apart(w: World) {
    forall p, q :: p in w.pcs && q in w.pcs && p != q && Busy(w.pcs[p]) && Busy(w.pcs[q]) ==> w.pcs[p].id != w.pcs[q].id
  }

  lemma StepApart(w: World, s: Step)
    requires Apart(w) && AllRefer(w) && !s.Foreign?
    ensures Apart(Apply(w, s))
  {
    hide ClaimStatusOf, ClaimCommit, UpdateAttempt, UpdateItem;
    if s.p in w.pcs {
      forall q | q in w.pcs && Busy(w.pcs[q]) ensures w.pcs[q].id in w.t.attempts { assert Refers(w.t, w.pcs[q]); }
      hide Refers;
    }
  }

  lemma {:induction false} ExecApart(start: World, steps: seq<Step>)
    requires Begins(start) && NoForeign(steps)
    ensures Apart(Exec(start, steps)) && !Clashes(Exec(start, steps))
    decreases |steps|
  {
    hide Apply;
    if steps != [] {
      ExecApart(start, steps[..|steps| - 1]);
      ExecCounted(start, steps[..|steps| - 1]);
      CountedRefers(Exec(start, steps[..|steps| - 1]));
      StepApart(Exec(start, steps[..|steps| - 1]), steps[|steps| - 1]);
    }
    ApartNoClash(Exec(start, steps));
  }

  lemma CountedRefers(w: World)
    requires Counted(w)
    ensures AllRefer(w)
  {
    hide OneAttemptEach, AllRefer;
  }

  lemma ApartNoClash(w: World)
    requires Apart(w)
    ensures !Clashes(w)
  {
  }

  /** If only claimants complete, nothing ever clashes. */
  lemma ClaimantsNeverClash(start: World, steps: seq<Step>)
    requires Begins(start) && NoForeign(steps)
    ensures NeverClashes(start, steps)
  {
    hide Exec;
    forall k | 0 <= k <= |steps| ensures !Clashes(Exec(start, steps[..k])) { ExecApart(start, steps[..k]); }
  }

  // Two processes: 0 claims and succeeds; 1 marks the same attempt failed, between 0's SELECT and its updates.
  function RaceSteps(key: Key, item: Item): seq<Step> {
    [StartRegister(0, key, item), Insert(0), Claim(0, key, [], 7), Ingest(0, Success), SelectAttempt(0), Foreign(1, 7, Failure),
     WriteAttempt(0), WriteAttempt(1), WriteItem(1), WriteItem(0)]
  }

  function ExecAll(w: World, steps: seq<Step>): World
    decreases |steps|
  {
    if steps == [] then w else ExecAll(Apply(w, steps[0]), steps[1..])
  }

  lemma {:induction false} ExecAllIsExec(w: World, steps: seq<Step>)
    ensures ExecAll(w, steps) == Exec(w, steps)
    decreases |steps|
  {
    hide Apply;
    if steps != [] {
      ExecAllIsExec(Apply(w, steps[0]), steps[1..]);
      ExecCons(w, steps);
    }
  }

  lemma {:induction false} ExecCons(w: World, steps: seq<Step>)
    requires steps != []
    ensures Exec(w, steps) == Exec(Apply(w, steps[0]), steps[1..])
    decreases |steps|
  {
    hide Apply;
    var front := steps[..|steps| - 1];
    if |steps| > 1 {
      ExecCons(w, front);
      assert steps[1..][..|steps| - 2] == front[1..];
    }
  }

  /** With a foreign completer it fails: the item ends SUCCEEDED over a FAILED attempt. */
  lemma ForeignCompletionBreaksIt(key: Key, item: Item)
    ensures var start := World(Tables(map[], map[]), map[0 := Free, 1 := Free], map[]);
            var t := Exec(start, RaceSteps(key, item)).t;
            Begins(start) && key in t.items && t.items[key].state.Succeeded? &&
            t.attempts.Keys == {7} && t.attempts[7].state.AttemptFailed?
  {
    var start := World(Tables(map[], map[]), map[0 := Free, 1 := Free], map[]);
    var s := RaceSteps(key, item);
    var mine := item.(state := Planned);
    var claimed := World(Tables(map[key := mine.(state := Claimed)], map[7 := Attempt(key, 1, [], InProgress)]),
                         map[0 := Holding(key, 7), 1 := Free], map[]);
    RaceClaim(key, item, start, claimed);
    RaceComplete(key, claimed);
    ExecAllIsExec(start, s);
    assert s == s[..3] + s[3..];
    ExecAllSplit(start, s[..3], s[3..]);
  }

  lemma {:induction false} ExecAllSplit(w: World, a: seq<Step>, b: seq<Step>)
    ensures ExecAll(w, a + b) == ExecAll(ExecAll(w, a), b)
    decreases |a|
  {
    hide Apply;
    if a == [] {
      assert a + b == b;
    } else {
      assert (a + b)[1..] == a[1..] + b;
      ExecAllSplit(Apply(w, a[0]), a[1..], b);
    }
  }

  lemma RaceClaim(key: Key, item: Item, start: World, claimed: World)
    requires start == World(Tables(map[], map[]), map[0 := Free, 1 := Free], map[])
    requires claimed == World(Tables(map[key := item.(state := Claimed)], map[7 := Attempt(key, 1, [], InProgress)]),
                              map[0 := Holding(key, 7), 1 := Free], map[])
    ensures ExecAll(start, RaceSteps(key, item)[..3]) == claimed
  {
    var s := RaceSteps(key, item)[..3];
    var w1 := Apply(start, s[0]);
    var w2 := Apply(w1, s[1]);
    var w3 := Apply(w2, s[2]);
    assert w2.t.items == map[key := item.(state := Planned)];
    assert AttemptsOf(w2.t, key) == {};
    assert w3.pcs == claimed.pcs && w3.t.items == claimed.t.items && w3.t.attempts == claimed.t.attempts;
    hide Apply;
    assert s == [s[0], s[1], s[2]];
    Unfold3(start, s[0], s[1], s[2]);
  }

  lemma RaceComplete(key: Key, claimed: World)
    requires claimed.pcs == map[0 := Holding(key, 7), 1 := Free] && claimed.t.attempts == map[7 := Attempt(key, 1, [], InProgress)]
    requires key in claimed.t.items
    ensures forall item :: var t := ExecAll(claimed, RaceSteps(key, item)[3..]).t;
              key in t.items && t.items[key].state.Succeeded? && t.attempts.Keys == {7} && t.attempts[7].state.AttemptFailed?
  {
    forall item
      ensures var t := ExecAll(claimed, RaceSteps(key, item)[3..]).t;
              key in t.items && t.items[key].state.Succeeded? && t.attempts.Keys == {7} && t.attempts[7].state.AttemptFailed?
    {
      var s := RaceSteps(key, item)[3..];
      assert s == [Ingest(0, Success), SelectAttempt(0), Foreign(1, 7, Failure)] + [WriteAttempt(0), WriteAttempt(1), WriteItem(1), WriteItem(0)];
      ExecAllSplit(claimed, [Ingest(0, Success), SelectAttempt(0), Foreign(1, 7, Failure)],
                   [WriteAttempt(0), WriteAttempt(1), WriteItem(1), WriteItem(0)]);
      var both := ExecAll(claimed, [Ingest(0, Success), SelectAttempt(0), Foreign(1, 7, Failure)]);
      RaceSelects(key, claimed);
      RaceWrites(key, both);
    }
  }

  lemma RaceSelects(key: Key, claimed: World)
    requires claimed.pcs == map[0 := Holding(key, 7), 1 := Free] && claimed.t.attempts == map[7 := Attempt(key, 1, [], InProgress)]
    ensures var both := ExecAll(claimed, [Ingest(0, Success), SelectAttempt(0), Foreign(1, 7, Failure)]);
            both.t == claimed.t && both.pcs == map[0 := Selected(key, 7, Success), 1 := Selected(key, 7, Failure)]
  {
    hide DoClaim, DoInsert;
    var w1 := Apply(claimed, Ingest(0, Success));
    assert w1.t == claimed.t && w1.pcs == map[0 := Ingested(key, 7, Success), 1 := Free];
    var w2 := Apply(w1, SelectAttempt(0));
    assert w2.t == claimed.t && w2.pcs == map[0 := Selected(key, 7, Success), 1 := Free];
    var w3 := Apply(w2, Foreign(1, 7, Failure));
    assert w3.pcs == map[0 := Selected(key, 7, Success), 1 := Selected(key, 7, Failure)] && w3.t == claimed.t;
    hide Apply;
    Unfold3(claimed, Ingest(0, Success), SelectAttempt(0), Foreign(1, 7, Failure));
  }

  lemma Unfold3(w: World, a: Step, b: Step, c: Step)
    ensures ExecAll(w, [a, b, c]) == Apply(Apply(Apply(w, a), b), c)
  {
    hide Apply;
    assert [a, b, c][1..] == [b, c] && [b, c][1..] == [c] && [c][1..] == [];
    var x := Apply(w, a);
    assert ExecAll(w, [a, b, c]) == ExecAll(x, [b, c]);
    assert ExecAll(x, [b, c]) == ExecAll(Apply(x, b), [c]);
    assert ExecAll(Apply(x, b), [c]) == ExecAll(Apply(Apply(x, b), c), []);
  }

  lemma RaceWriteAttempts(key: Key, both: World)
    requires both.pcs == map[0 := Selected(key, 7, Success), 1 := Selected(key, 7, Failure)]
    requires both.t.attempts == map[7 := Attempt(key, 1, [], InProgress)]
    ensures var w := Apply(Apply(both, WriteAttempt(0)), WriteAttempt(1));
            w.pcs == map[0 := HalfDone(key, 7, Success), 1 := HalfDone(key, 7, Failure)] &&
            w.t == Tables(both.t.items, map[7 := Attempt(key, 1, [], AttemptFailed)])
  {
    hide DoClaim, DoInsert, DoSelect;
    var x := Apply(both, WriteAttempt(0));
    assert x.pcs == map[0 := HalfDone(key, 7, Success), 1 := Selected(key, 7, Failure)];
    assert x.t == Tables(both.t.items, map[7 := Attempt(key, 1, [], AttemptSucceeded)]);
  }

  lemma RaceWriteItems(key: Key, w: World)
    requires w.pcs == map[0 := HalfDone(key, 7, Success), 1 := HalfDone(key, 7, Failure)] && key in w.t.items
    ensures var t := Apply(Apply(w, WriteItem(1)), WriteItem(0)).t;
            key in t.items && t.items[key].state.Succeeded? && t.attempts == w.t.attempts
  {
    hide DoClaim, DoInsert, DoSelect;
    var x := Apply(w, WriteItem(1));
    assert x.pcs[0] == HalfDone(key, 7, Success) && key in x.t.items && x.t.attempts == w.t.attempts;
  }

  lemma RaceWrites(key: Key, both: World)
    requires both.pcs == map[0 := Selected(key, 7, Success), 1 := Selected(key, 7, Failure)]
    requires both.t.attempts == map[7 := Attempt(key, 1, [], InProgress)] && key in both.t.items
    ensures var t := ExecAll(both, [WriteAttempt(0), WriteAttempt(1), WriteItem(1), WriteItem(0)]).t;
            key in t.items && t.items[key].state.Succeeded? && t.attempts.Keys == {7} && t.attempts[7].state.AttemptFailed?
  {
    hide Apply;
    RaceWriteAttempts(key, both);
    var x := Apply(both, WriteAttempt(0));
    RaceWriteItems(key, Apply(x, WriteAttempt(1)));
    assert [WriteAttempt(0), WriteAttempt(1), WriteItem(1), WriteItem(0)][1..] == [WriteAttempt(1), WriteItem(1), WriteItem(0)];
    Unfold3(x, WriteAttempt(1), WriteItem(1), WriteItem(0));
  }
}
