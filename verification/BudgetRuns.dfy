/**
 Many runners and configurers on one budget database, at the granularity of BEGIN, SELECT,
 guarded UPDATE, COMMIT and the broker call, with a crash possible between any two.
 */
module BudgetRuns {
  import opened Basics
  import opened Budget

  type Pid = nat

  // Where a runner stands.  A dead runner remembers whether it had been admitted without calling.
  datatype Pc =
    | Idle                          // before BEGIN IMMEDIATE
    | Begun                         // holds the write lock
    | Selected(found: Option<Row>)  // has read its row
    | Updated(pending: Table)       // its uncommitted version of the table
    | Admitted                      // COMMIT returned, broker not called yet
    | Stopped                       // returned or raised
    | Dead(owed: bool)

  // Committed rows, the one writer SQLite allows, the runners, and the broker calls made so far.
  datatype Config = Config(rows: Table, writer: Option<Pid>, pcs: map<Pid, Pc>, calls: map<Window, nat>)

  // The window each runner was started for.
  type Assignment = Pid -> Window

  datatype Step =
    | Begin(p: Pid)
    | Select(p: Pid)
    | Update(p: Pid)
    | Commit(p: Pid)
    | Call(p: Pid, again: bool)
    | Fault(p: Pid)                           // any sqlite error: roll back and raise
    | Crash(p: Pid)
    | Configure(w: Window, allowance: nat)    // a whole configure transaction

  predicate InTransaction(pc: Pc) { pc.Begun? || pc.Selected? || pc.Updated? }

  function Calls(c: Config, w: Window): nat { if w in c.calls then c.calls[w] else 0 }

  function Move(c: Config, p: Pid, pc: Pc): Config { c.(pcs := c.pcs[p := pc]) }

  // ROLLBACK, explicit or by the connection dying: nothing pending is written, the lock is free.
  function Rollback(c: Config, p: Pid, pc: Pc): Config { Move(c, p, pc).(writer := None) }

  // UPDATE ... WHERE consumed = ?: the number of rows it changes in the transaction's view.
  function RowCount(rows: Table, w: Window, seen: int): nat { if w in rows && rows[w].consumed == seen then 1 else 0 }

  /** One step of the system; a step that is not enabled changes nothing. */
  function Apply(a: Assignment, c: Config, s: Step): Config {
    match s
    case Configure(w, allowance) =>
      if c.writer.Some? || !ValidWindow(w) then c else
        (match Configured(Look(c.rows, w), allowance)
         case Err(_) => c
         case Ok(row) => c.(rows := c.rows[w := row]))
    case _ => if s.p in c.pcs then ApplyTo(a, c, s, c.pcs[s.p]) else c
  }

  function ApplyTo(a: Assignment, c: Config, s: Step, pc: Pc): Config
    requires !s.Configure?
  {
    match (s, pc)
    case (Begin(p), Idle) => if c.writer.None? && ValidWindow(a(p)) then Move(c, p, Begun).(writer := Some(p)) else c
    case (Select(p), Begun) => Move(c, p, Selected(Look(c.rows, a(p))))
    case (Update(p), Selected(found)) =>
      (match Consumed(found, 1)
       case Err(_) => Rollback(c, p, Stopped)
       case Ok(row) =>
         if RowCount(c.rows, a(p), found.value.consumed) != 1 then Rollback(c, p, Stopped)
         else Move(c, p, Updated(c.rows[a(p) := Row(c.rows[a(p)].allowance, row.consumed)])))
    case (Commit(p), Updated(pending)) => Rollback(c, p, Admitted).(rows := pending)
    case (Call(p, again), Admitted) =>
      Move(c, p, if again then Idle else Stopped).(calls := c.calls[a(p) := Calls(c, a(p)) + 1])
    case (Fault(p), _) => if pc.Idle? then Move(c, p, Stopped) else if InTransaction(pc) then Rollback(c, p, Stopped) else c
    case (Crash(p), _) =>
      if pc.Dead? then c
      else if InTransaction(pc) then Rollback(c, p, Dead(false))
      else Move(c, p, Dead(pc.Admitted?))
    case _ => c
  }

  function Exec(a: Assignment, c: Config, steps: seq<Step>): Config
    decreases |steps|
  {
    if steps == [] then c else Apply(a, Exec(a, c, steps[..|steps| - 1]), steps[|steps| - 1])
  }

  // Any number of runners about to start, on any sound table.
  predicate Start(c: Config) {
    SoundTable(c.rows) && c.writer.None? && c.calls == map[] && forall p :: p in c.pcs ==> c.pcs[p].Idle?
  }

  function Spent(c: Config, w: Window): int { if w in c.rows then c.rows[w].consumed else 0 }

  predicate Owing(pc: Pc) { pc.Admitted? || (pc.Dead? && pc.owed) }

  // Runners on window `w` stopped, or standing, between admission and call.
  function Between(a: Assignment, c: Config, w: Window): set<Pid> {
    set p | p in c.pcs && a(p) == w && Owing(c.pcs[p])
  }

  /* ---------- the invariant ---------- */

  // Only the writer is inside a transaction, and what it holds is current.
  predicate Isolated(a: Assignment, c: Config) {
    (forall p :: p in c.pcs && InTransaction(c.pcs[p]) ==> c.writer == Some(p)) &&
    (c.writer.Some? ==> c.writer.value in c.pcs && InTransaction(c.pcs[c.writer.value])) &&
    (forall p :: p in c.pcs && c.pcs[p].Selected? ==> c.pcs[p].found == Look(c.rows, a(p))) &&
    (forall p :: p in c.pcs && c.pcs[p].Updated? ==>
      Consumed(Look(c.rows, a(p)), 1).Ok? && c.pcs[p].pending == c.rows[a(p) := Consumed(Look(c.rows, a(p)), 1).value])
  }

  ghost predicate Balanced(a: Assignment, start: Config, c: Config) {
    forall w :: Spent(c, w) == Spent(start, w) + Calls(c, w) + |Between(a, c, w)|
  }

  ghost predicate Invariant(a: Assignment, start: Config, c: Config) {
    SoundTable(c.rows) && Isolated(a, c) && Balanced(a, start, c)
  }

  // What no step ever does to a window.
  predicate Preserves(before: Config, after: Config, w: Window) {
    (w in before.rows ==> w in after.rows && after.rows[w].allowance == before.rows[w].allowance) &&
    Spent(before, w) <= Spent(after, w) && Calls(before, w) <= Calls(after, w)
  }

  /** Under the write lock the guarded UPDATE always finds the row it read. */
  lemma GuardAlwaysMatches(a: Assignment, c: Config, p: Pid)
    requires Isolated(a, c) && p in c.pcs && c.pcs[p].Selected? && Consumed(c.pcs[p].found, 1).Ok?
    ensures RowCount(c.rows, a(p), c.pcs[p].found.value.consumed) == 1
  {
  }

  lemma SetsDifferAt(x: set<Pid>, y: set<Pid>, p: Pid)
    requires forall q :: q != p ==> (q in x <==> q in y)
    ensures |x| - (if p in x then 1 else 0) == |y| - (if p in y then 1 else 0)
  {
    assert x - {p} == y - {p};
    if p !in x { assert x - {p} == x; }
    if p !in y { assert y - {p} == y; }
  }

  lemma BetweenMoves(a: Assignment, c: Config, d: Config, p: Pid, pc: Pc, w: Window)
    requires p in c.pcs && d.pcs == c.pcs[p := pc]
    ensures |Between(a, d, w)| == |Between(a, c, w)|
              + (if a(p) == w && Owing(pc) then 1 else 0) - (if a(p) == w && Owing(c.pcs[p]) then 1 else 0)
  {
    hide Owing;
    SetsDifferAt(Between(a, c, w), Between(a, d, w), p);
  }

  lemma BetweenSame(a: Assignment, c: Config, d: Config, w: Window)
    requires c.pcs == d.pcs
    ensures Between(a, c, w) == Between(a, d, w)
  {
    hide Owing;
  }

  // A runner outside any transaction moves to another such place.
  lemma MoveIsolated(a: Assignment, c: Config, p: Pid, pc: Pc)
    requires Isolated(a, c) && p in c.pcs && !InTransaction(c.pcs[p]) && !InTransaction(pc)
    ensures Isolated(a, Move(c, p, pc))
  {
    hide Consumed;
  }

  lemma RollbackIsolated(a: Assignment, c: Config, p: Pid, pc: Pc)
    requires Isolated(a, c) && p in c.pcs && InTransaction(c.pcs[p]) && !InTransaction(pc)
    ensures Isolated(a, Rollback(c, p, pc))
  {
    hide Consumed;
  }

  lemma CommitIsolated(a: Assignment, c: Config, p: Pid)
    requires Isolated(a, c) && SoundTable(c.rows) && p in c.pcs && c.pcs[p].Updated?
    ensures var d := ApplyTo(a, c, Commit(p), c.pcs[p]); Isolated(a, d) && SoundTable(d.rows)
  {
    var row := Consumed(Look(c.rows, a(p)), 1);
    assert c.pcs[p].pending == c.rows[a(p) := row.value] && Sound(row.value);
    assert forall q :: q in c.pcs && q != p ==> !InTransaction(c.pcs[q]);
    hide Consumed, Sound;
  }

  lemma AdvanceIsolated(a: Assignment, c: Config, s: Step)
    requires Isolated(a, c) && (s.Begin? || s.Select? || s.Update?) && s.p in c.pcs
    ensures Isolated(a, ApplyTo(a, c, s, c.pcs[s.p])) && ApplyTo(a, c, s, c.pcs[s.p]).rows == c.rows
  {
    hide ValidWindow;
    match (s, c.pcs[s.p])
    case (Update(p), Selected(found)) => if Consumed(found, 1).Ok? { GuardAlwaysMatches(a, c, p); }
    case _ =>
  }

  lemma StepIsolated(a: Assignment, c: Config, s: Step)
    requires Isolated(a, c) && SoundTable(c.rows)
    ensures Isolated(a, Apply(a, c, s)) && SoundTable(Apply(a, c, s).rows)
  {
    if s.Configure? {
      ConfigureIsolated(a, c, s.w, s.allowance);
    } else if s.p in c.pcs {
      var pc := c.pcs[s.p];
      hide ValidWindow, Isolated, SoundTable;
      match s
      case Commit(p) => if pc.Updated? { CommitIsolated(a, c, p); }
      case Call(p, again) => if pc.Admitted? { CallIsolated(a, c, p, again); }
      case Fault(p) =>
        if pc.Idle? { MoveIsolated(a, c, p, Stopped); }
        if InTransaction(pc) { RollbackIsolated(a, c, p, Stopped); }
      case Crash(p) =>
        if InTransaction(pc) { RollbackIsolated(a, c, p, Dead(false)); } else { MoveIsolated(a, c, p, Dead(pc.Admitted?)); }
      case _ => AdvanceIsolated(a, c, s);
    }
  }

  lemma CallIsolated(a: Assignment, c: Config, p: Pid, again: bool)
    requires Isolated(a, c) && p in c.pcs && c.pcs[p].Admitted?
    ensures var d := ApplyTo(a, c, Call(p, again), c.pcs[p]); Isolated(a, d) && d.rows == c.rows
  {
    MoveIsolated(a, c, p, if again then Idle else Stopped);
    hide Consumed;
  }

  lemma ConfigureIsolated(a: Assignment, c: Config, w: Window, allowance: nat)
    requires Isolated(a, c) && SoundTable(c.rows)
    ensures Isolated(a, Apply(a, c, Configure(w, allowance))) && SoundTable(Apply(a, c, Configure(w, allowance)).rows)
  {
    hide ValidWindow;
  }

  // What a runner's step does to the three terms of the balance, on window `w`.
  predicate TermsMoved(a: Assignment, c: Config, s: Step, w: Window, d: Config)
    requires !s.Configure? && s.p in c.pcs
  {
    s.p in d.pcs && d.pcs == c.pcs[s.p := d.pcs[s.p]] && Preserves(c, d, w) &&
    Spent(d, w) == Spent(c, w) + (if s.Commit? && c.pcs[s.p].Updated? && a(s.p) == w then 1 else 0) &&
    Calls(d, w) == Calls(c, w) + (if s.Call? && c.pcs[s.p].Admitted? && a(s.p) == w then 1 else 0) &&
    (Owing(d.pcs[s.p]) <==> (s.Commit? && c.pcs[s.p].Updated?) || (!(s.Call? && c.pcs[s.p].Admitted?) && Owing(c.pcs[s.p])))
  }

  lemma CommitTerms(a: Assignment, c: Config, p: Pid, w: Window)
    requires Isolated(a, c) && p in c.pcs && c.pcs[p].Updated?
    ensures TermsMoved(a, c, Commit(p), w, ApplyTo(a, c, Commit(p), c.pcs[p]))
  {
    var row := Consumed(Look(c.rows, a(p)), 1).value;
    assert c.pcs[p].pending == c.rows[a(p) := row];
    hide Isolated;
  }

  lemma StepTerms(a: Assignment, c: Config, s: Step, w: Window)
    requires Isolated(a, c) && !s.Configure? && s.p in c.pcs
    ensures TermsMoved(a, c, s, w, ApplyTo(a, c, s, c.pcs[s.p]))
  {
    if s.Commit? && c.pcs[s.p].Updated? {
      hide ApplyTo, TermsMoved, Isolated;
      CommitTerms(a, c, s.p, w);
    } else {
      hide ValidWindow, Isolated, RowCount, Consumed;
    }
  }

  lemma StepBalanced(a: Assignment, c: Config, s: Step, w: Window)
    requires Isolated(a, c) && SoundTable(c.rows)
    ensures var d := Apply(a, c, s);
            Spent(d, w) - Calls(d, w) - |Between(a, d, w)| == Spent(c, w) - Calls(c, w) - |Between(a, c, w)| &&
            Preserves(c, d, w)
  {
    var d := Apply(a, c, s);
    if s.Configure? {
      hide ValidWindow;
      BetweenSame(a, c, d, w);
    } else if s.p in c.pcs {
      hide ApplyTo, Between, Isolated, Preserves, Owing, Spent, Calls;
      StepTerms(a, c, s, w);
      BetweenMoves(a, c, d, s.p, d.pcs[s.p], w);
      OwingOnce(c.pcs[s.p]);
    }
  }

  lemma OwingOnce(pc: Pc)
    ensures pc.Updated? ==> !Owing(pc)
    ensures pc.Admitted? ==> Owing(pc)
  {
  }

  lemma {:induction false} ExecInvariant(a: Assignment, start: Config, steps: seq<Step>)
    requires Start(start)
    ensures Invariant(a, start, Exec(a, start, steps))
  {
    hide Apply, Isolated;
    if steps == [] {
      StartInvariant(a, start);
    } else {
      var c := Exec(a, start, steps[..|steps| - 1]);
      var s := steps[|steps| - 1];
      ExecInvariant(a, start, steps[..|steps| - 1]);
      StepIsolated(a, c, s);
      forall w ensures Spent(Apply(a, c, s), w) == Spent(start, w) + Calls(Apply(a, c, s), w) + |Between(a, Apply(a, c, s), w)| {
        StepBalanced(a, c, s, w);
      }
    }
  }

  lemma StartInvariant(a: Assignment, c: Config)
    requires Start(c)
    ensures Invariant(a, c, c)
  {
    forall w ensures Between(a, c, w) == {} { }
  }

  /** In every interleaving with any crashes: calls never exceed what was consumed, consumption never exceeds
      the allowance, and the difference is exactly the runners standing between admission and call. */
  lemma BudgetNeverOverspent(a: Assignment, start: Config, steps: seq<Step>, w: Window)
    requires Start(start) && w in Exec(a, start, steps).rows
    ensures var c := Exec(a, start, steps);
            Spent(start, w) + Calls(c, w) <= c.rows[w].consumed <= c.rows[w].allowance &&
            c.rows[w].consumed - Spent(start, w) - Calls(c, w) == |Between(a, c, w)|
  {
    hide Exec, Isolated, Between;
    ExecInvariant(a, start, steps);
    var c := Exec(a, start, steps);
    assert Spent(c, w) == Spent(start, w) + Calls(c, w) + |Between(a, c, w)|;
  }

  /** From any point of a run to any later one, consumption only grows and an allowance never changes. */
  lemma {:induction false} ConsumptionOnlyGrows(a: Assignment, start: Config, steps: seq<Step>, more: seq<Step>, w: Window)
    requires Start(start)
    ensures Preserves(Exec(a, start, steps), Exec(a, start, steps + more), w)
    decreases |more|
  {
    hide Apply, Isolated, Between, Start, Preserves;
    if more == [] {
      assert steps + more == steps;
      PreservesReflexive(Exec(a, start, steps), w);
    } else {
      var shorter, last := more[..|more| - 1], more[|more| - 1];
      ConsumptionOnlyGrows(a, start, steps, shorter, w);
      ExecInvariant(a, start, steps + shorter);
      assert (steps + more)[..|steps + more| - 1] == steps + shorter;
      StepBalanced(a, Exec(a, start, steps + shorter), last, w);
      PreservesTransitive(Exec(a, start, steps), Exec(a, start, steps + shorter), Exec(a, start, steps + more), w);
    }
  }

  lemma PreservesReflexive(c: Config, w: Window)
    ensures Preserves(c, c, w)
  {
  }

  lemma PreservesTransitive(b: Config, c: Config, d: Config, w: Window)
    requires Preserves(b, c, w) && Preserves(c, d, w)
    ensures Preserves(b, d, w)
  {
  }

  /** A runner's step leaves the rows and call counts of every other window as they were. */
  lemma OtherWindowsUntouched(a: Assignment, c: Config, s: Step, w: Window)
    requires Isolated(a, c) && (if s.Configure? then s.w != w else a(s.p) != w)
    ensures Look(Apply(a, c, s).rows, w) == Look(c.rows, w)
    ensures Calls(Apply(a, c, s), w) == Calls(c, w)
  {
    hide ValidWindow;
  }
}
