/** The loop of `run_planned_request` on a live budget, proved to compute `Retry.Run`. */
module RetryLoop {
  import opened Basics
  import opened Protocol
  import opened Budget
  import opened RetryDelay
  import opened Retry

  // How a budget nobody else touches answers the n-th attempt of one run.
  function OwnAdmission(w: Window, found: Option<Row>, n: int): Admission {
    if !ValidWindow(w) || found.None? || !Sound(found.value) then Unavailable
    else if found.value.allowance - found.value.consumed < n then Refused
    else Admitted
  }

  // The same surroundings with the budget's answers filled in.
  function Alone(e: Surroundings, w: Window, found: Option<Row>): Surroundings {
    e.(admission := n => OwnAdmission(w, found, n))
  }

  function Charge(rows: Table, w: Window, units: int): Table {
    if units == 0 || w !in rows then rows else rows[w := Row(rows[w].allowance, rows[w].consumed + units)]
  }

  lemma ConsumeOne(rows: Table, w: Window, n: int)
    requires n >= 1 && (n == 1 || (w in rows && ValidWindow(w) && Sound(rows[w]) && rows[w].consumed + n - 1 <= rows[w].allowance))
    ensures var found := Look(Charge(rows, w, n - 1), w);
            match OwnAdmission(w, Look(rows, w), n)
            case Admitted =>
              ValidWindow(w) && Consumed(found, 1).Ok? &&
              Charge(rows, w, n - 1)[w := Consumed(found, 1).value] == Charge(rows, w, n) &&
              w in rows && Sound(rows[w]) && rows[w].consumed + n <= rows[w].allowance
            case Refused => ValidWindow(w) && Consumed(found, 1) == Err(Exceeded)
            case Unavailable => ValidWindow(w) ==> Consumed(found, 1) == Err(StateError)
  {
    hide ValidWindow;
  }

  /** `run_planned_request`: its result is `Run` with the budget's own answers, and the budget
      is charged one unit for each broker call made, on this window alone. */
  method RunPlannedRequest(planned: Planned, e: Surroundings, budget: RequestBudget, p: RetryPolicy)
    returns (o: RunOutcome, calls: nat)
    modifies budget
    ensures o == Run(planned, p, Alone(e, (p.budgetScope, p.budgetWindowId),
                                       Look(old(budget.rows), (p.budgetScope, p.budgetWindowId))))
    ensures budget.rows == Charge(old(budget.rows), (p.budgetScope, p.budgetWindowId), calls)
    ensures o.Returned? ==> calls == o.result.unitsConsumed
  {
    hide MakeRequest, CanonicalUuid, ResultAccepted, Call, Charge, Consumed, ValidWindow, Sound, Run, RunFrom, Carry, Look, OwnAdmission, Affordable;
    ghost var w := (p.budgetScope, p.budgetWindowId);
    ghost var rows := budget.rows;
    ghost var env := Alone(e, w, Look(rows, w));
    var s := START;
    var number := 1;
    calls := 0;
    ChargeNothing(rows, w);
    RunStarts(planned, p, env);
    assert Affordable(rows, w, 1) by { AffordableStart(rows, w); }
    while number <= p.maximumAttempts
      invariant 1 <= number && (number <= p.maximumAttempts + 1 || number == 1)
      invariant RunFrom(planned, p, env, number, s) == Run(planned, p, env)
      invariant calls == number - 1 == s.used && budget.rows == Charge(rows, w, calls)
      invariant Affordable(rows, w, number)
    {
      AffordableStep(rows, w, number);
      RunSteps(planned, p, env, number, s);
      var id := e.ids(number);
      if !CanonicalUuid(id) { return Raised(InvalidRequestId), calls; }
      if id in s.seen { return Raised(DuplicateRequestId), calls; }
      var made := BrokerRequest(planned, id);
      if made.Err? {
        return Raised(if made.error.Typed? then NoBrokerRequest else if made.error.DateOverflow? then DateOutOfRange else TokenTooLong), calls;
      }
      var admitted := budget.Consume(p.budgetScope, p.budgetWindowId, 1);
      if admitted == Err(Exceeded) {
        var record := RefusedRecord(number, id, planned.fingerprint);
        return Finish(BudgetedResult(s.history + [record], BudgetExhausted, None, planned.fingerprint, s.used,
                                     true, false, false, false, s.nextDelay), s.observed), calls;
      }
      if admitted.Err? { return Raised(BudgetConfiguration), calls; }
      calls := calls + 1;
      var a := Call(p, e, number, id, planned.fingerprint, made.value);
      CallIgnoresAdmission(p, e, env, number, id, planned.fingerprint, made.value);
      if !a.Again? { return Ended(planned, s, a), calls; }
      s := Carry(s, a);
      number := number + 1;
    }
    RunEnds(planned, p, env, number, s);
    return FellThrough, calls;
  }

  lemma RunStarts(planned: Planned, p: RetryPolicy, e: Surroundings)
    ensures Run(planned, p, e) == RunFrom(planned, p, e, 1, START)
  {
  }

  lemma RunSteps(planned: Planned, p: RetryPolicy, e: Surroundings, n: int, s: LoopState)
    requires n <= p.maximumAttempts
    ensures var a := AttemptOnce(planned, p, e, n, s.seen);
            RunFrom(planned, p, e, n, s) == if a.Again? then RunFrom(planned, p, e, n + 1, Carry(s, a)) else Ended(planned, s, a)
    ensures AttemptOnce(planned, p, e, n, s.seen).Again? ==> Carry(s, AttemptOnce(planned, p, e, n, s.seen)).used == s.used + 1
  {
    hide AttemptOnce, Ended;
  }

  lemma RunEnds(planned: Planned, p: RetryPolicy, e: Surroundings, n: int, s: LoopState)
    requires n > p.maximumAttempts
    ensures RunFrom(planned, p, e, n, s) == FellThrough
  {
  }

  lemma AffordableStart(rows: Table, w: Window)
    ensures Affordable(rows, w, 1)
  {
  }

  // The allowance covers the attempts made so far.
  ghost predicate Affordable(rows: Table, w: Window, n: int) {
    n == 1 || (w in rows && ValidWindow(w) && Sound(rows[w]) && rows[w].consumed + n - 1 <= rows[w].allowance)
  }

  lemma AffordableStep(rows: Table, w: Window, n: int)
    requires n >= 1 && Affordable(rows, w, n)
    ensures var found := Look(Charge(rows, w, n - 1), w);
            match OwnAdmission(w, Look(rows, w), n)
            case Admitted =>
              ValidWindow(w) && Consumed(found, 1).Ok? &&
              Charge(rows, w, n - 1)[w := Consumed(found, 1).value] == Charge(rows, w, n) && Affordable(rows, w, n + 1)
            case Refused => ValidWindow(w) && Consumed(found, 1) == Err(Exceeded)
            case Unavailable => ValidWindow(w) ==> Consumed(found, 1) == Err(StateError)
  {
    hide ValidWindow;
    ConsumeOne(rows, w, n);
  }

  lemma ChargeNothing(rows: Table, w: Window)
    ensures Charge(rows, w, 0) == rows
  {
  }

  lemma CallIgnoresAdmission(p: RetryPolicy, e: Surroundings, env: Surroundings, n: int, id: Text, fingerprint: Text, q: CandleRequest)
    requires env == e.(admission := env.admission)
    ensures Call(p, e, n, id, fingerprint, q) == Call(p, env, n, id, fingerprint, q)
    ensures !Call(p, e, n, id, fingerprint, q).OutOfBudget?
  {
    hide Delay;
  }
}
