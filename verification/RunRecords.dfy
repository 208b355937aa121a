/** What a run leaves behind against what its broker answered: every record tells its own broker step, every delay is the
    policy's, and every end has its cause. */
module RunRecords {
  import opened Basics
  import opened Protocol
  import opened RetryDelay
  import opened Retry
  import opened RemoteRuns

  // The record, and the response shown to the observer, tell what the broker did.
  predicate Tells(t: Taken, r: AttemptRecord, response: Option<BrokerResponse>) {
    r.attemptNumber == t.attempt && r.requestId == t.request.requestId && r.budgetConsumed &&
    (r.reauthenticationRequired <==> r.errorCode.Some? && Policy(r.errorCode.value).reauthenticationRequired) &&
    match t.step
    case Crash => false
    case Fail(code) =>
      response.None? && r.errorCode == Some(code) && r.providerHttpStatus.None? && r.brokerRequestId.None? &&
      r.transportStatus.None? && r.sessionState.None? && r.bodyLength.None? && r.bodySha256.None?
    case Respond(b) =>
      response == Some(b) && b.requestId == t.request.requestId && r.errorCode == b.errorCode &&
      r.providerHttpStatus == b.providerHttpStatus && r.brokerRequestId == Some(b.brokerRequestId) &&
      r.transportStatus == Some(b.transportStatus) && r.sessionState == Some(b.sessionState) &&
      r.bodyLength == Some(b.bodyLength) && r.bodySha256 == Some(b.bodySha256)
  }

  // The Retry-After a step carries.
  function RetryAfterOf(step: BrokerStep): Option<int> { if step.Respond? then step.response.retryAfterSeconds else None }

  function CodeOf(step: BrokerStep): Option<BrokerErrorCode> {
    match step
    case Crash => None
    case Fail(code) => Some(code)
    case Respond(r) => r.errorCode
  }

  // A step after which the loop goes on: an approved code before the last attempt, and a delay.
  predicate Retried(p: RetryPolicy, e: Surroundings, t: Taken, r: AttemptRecord) {
    CodeOf(t.step).Some? && Approved(CodeOf(t.step).value) && t.attempt < p.maximumAttempts && e.observerAccepts(t.attempt) &&
    r.retryPermitted && r.nextDelay.Some? && r.nextDelay == Delay(p, t.attempt, RetryAfterOf(t.step), e.jitter)
  }

  // A step that ends the run.
  predicate Last(p: RetryPolicy, e: Surroundings, t: Taken, r: AttemptRecord, outcome: Outcome) {
    e.observerAccepts(t.attempt) && !r.retryPermitted && r.nextDelay.None? &&
    (match CodeOf(t.step)
     case Some(code) => outcome == Failed(code) && (Approved(code) ==> t.attempt >= p.maximumAttempts)
     case None => outcome == if Success2xx(r.providerHttpStatus) then Succeeded else InconsistentResponse)
  }

  // What is wrong at attempt n when the run raises there.
  predicate Cause(planned: Planned, p: RetryPolicy, e: Surroundings, n: int, seen: set<Text>, fault: RunFault) {
    var id := e.ids(n);
    match fault
    case InvalidRequestId => !CanonicalUuid(id)
    case DuplicateRequestId => CanonicalUuid(id) && id in seen
    case NoBrokerRequest => CanonicalUuid(id) && id !in seen && BrokerRequest(planned, id).Err? && BrokerRequest(planned, id).error.Typed?
    case DateOutOfRange => CanonicalUuid(id) && id !in seen && BrokerRequest(planned, id) == Err(DateOverflow)
    case TokenTooLong => CanonicalUuid(id) && id !in seen && BrokerRequest(planned, id) == Err(TooManyDigits)
    case BudgetConfiguration => CanonicalUuid(id) && id !in seen && BrokerRequest(planned, id).Ok? && e.admission(n).Unavailable?
    case UnexpectedBrokerException => Asks(planned, e, n, seen) && StepAt(planned, e, n).Crash?
    case InconsistentBrokerResponse =>
      Asks(planned, e, n, seen) && StepAt(planned, e, n).Respond? && StepAt(planned, e, n).response.requestId != id
    case InvalidPolicy =>
      Asks(planned, e, n, seen) && CodeOf(StepAt(planned, e, n)).Some? && Approved(CodeOf(StepAt(planned, e, n)).value) &&
      n < p.maximumAttempts && Delay(p, n, RetryAfterOf(StepAt(planned, e, n)), e.jitter).None?
    case ObserverFailed => Asks(planned, e, n, seen) && !e.observerAccepts(n)
    case ResultRejected => false
  }

  // The record of an attempt that the budget refused: nothing was charged, nothing came back.
  predicate RefusedSays(r: AttemptRecord, n: int, id: Text) {
    r.attemptNumber == n && r.requestId == id && !r.budgetConsumed && !r.retryPermitted && !r.reauthenticationRequired &&
    r.brokerRequestId.None? && r.transportStatus.None? && r.providerHttpStatus.None? && r.sessionState.None? && r.errorCode.None? &&
    r.bodyLength.None? && r.bodySha256.None? && r.nextDelay.None?
  }

  // The budget refused attempt n, whose id and request were fine; this is its record.
  predicate RefusedAt(planned: Planned, e: Surroundings, n: int, r: AttemptRecord) {
    e.admission(n).Refused? && CanonicalUuid(e.ids(n)) && BrokerRequest(planned, e.ids(n)).Ok? && RefusedSays(r, n, e.ids(n))
  }

  // One attempt, told by its step.
  predicate Explained(planned: Planned, p: RetryPolicy, e: Surroundings, n: int, seen: set<Text>, a: Attempt) {
    match a
    case Abort(fault) => Cause(planned, p, e, n, seen, fault)
    case OutOfBudget(r) =>
      CanonicalUuid(e.ids(n)) && e.ids(n) !in seen && BrokerRequest(planned, e.ids(n)).Ok? && e.admission(n).Refused? &&
      RefusedSays(r, n, e.ids(n))
    case Stop(r, response, outcome, _, _) =>
      var t := AskedAt(planned, e, n, seen);
      t.Some? && Tells(t.value, r, response) && Last(p, e, t.value, r, outcome)
    case Again(r, response, delay) =>
      var t := AskedAt(planned, e, n, seen);
      t.Some? && Tells(t.value, r, response) && Retried(p, e, t.value, r) && r.nextDelay == Some(delay)
  }

  lemma CallTells(p: RetryPolicy, e: Surroundings, n: int, id: Text, fingerprint: Text, q: CandleRequest)
    requires q.requestId == id && (e.broker(n, q).Respond? ==> ValidResponse(e.broker(n, q).response))
    ensures var a := Call(p, e, n, id, fingerprint, q); var t := Taken(n, q, e.broker(n, q));
            (a.Stop? ==> Tells(t, a.record, a.response) && Last(p, e, t, a.record, a.outcome)) &&
            (a.Again? ==> Tells(t, a.record, a.response) && Retried(p, e, t, a.record) && a.record.nextDelay == Some(a.delay))
  {
    hide Delay, ValidResponse;
    match e.broker(n, q)
    case Crash =>
    case Fail(code) => AllowlistMatchesPolicy(code);
    case Respond(r) =>
      if r.errorCode.Some? { AllowlistMatchesPolicy(r.errorCode.value); }
      if Success2xx(r.providerHttpStatus) { Success2xxHasNoCode(r); }
      hide Policy, Approved;
  }

  lemma CallRaises(p: RetryPolicy, e: Surroundings, n: int, id: Text, fingerprint: Text, q: CandleRequest)
    requires Call(p, e, n, id, fingerprint, q).Abort?
    ensures var step := e.broker(n, q);
            match Call(p, e, n, id, fingerprint, q).fault
            case UnexpectedBrokerException => step.Crash?
            case InconsistentBrokerResponse => step.Respond? && step.response.requestId != id
            case InvalidPolicy =>
              CodeOf(step).Some? && Approved(CodeOf(step).value) && n < p.maximumAttempts && Delay(p, n, RetryAfterOf(step), e.jitter).None?
            case ObserverFailed => !e.observerAccepts(n)
            case _ => false
  {
    hide Delay, Policy;
  }

  lemma AttemptExplained(planned: Planned, p: RetryPolicy, e: Surroundings, n: int, seen: set<Text>)
    requires WellTypedBroker(e)
    ensures Explained(planned, p, e, n, seen, AttemptOnce(planned, p, e, n, seen))
  {
    hide BrokerRequest, CanonicalUuid, Call, WellTypedBroker, Tells, Last, Retried, Approved, CodeOf, RetryAfterOf, Delay, RefusedSays,
         RefusedRecord;
    if Asks(planned, e, n, seen) {
      var q := BrokerRequest(planned, e.ids(n)).value;
      BrokerRequestValid(planned, e.ids(n));
      WellTypedAt(e, n, q);
      CallTells(p, e, n, e.ids(n), planned.fingerprint, q);
      CallNeverRefused(p, e, n, e.ids(n), planned.fingerprint, q);
      if Call(p, e, n, e.ids(n), planned.fingerprint, q).Abort? { CallRaises(p, e, n, e.ids(n), planned.fingerprint, q); }
    } else {
      RefusedRecordSays(n, e.ids(n), planned.fingerprint);
    }
  }

  lemma RefusedRecordSays(n: int, id: Text, fingerprint: Text)
    ensures RefusedSays(RefusedRecord(n, id, fingerprint), n, id)
  {
  }

  lemma WellTypedAt(e: Surroundings, n: int, q: CandleRequest)
    requires WellTypedBroker(e)
    ensures e.broker(n, q).Respond? ==> ValidResponse(e.broker(n, q).response)
  {
    hide ValidResponse;
    assert WellTyped(e.broker(n, q));
  }

  lemma CallNeverRefused(p: RetryPolicy, e: Surroundings, n: int, id: Text, fingerprint: Text, q: CandleRequest)
    ensures !Call(p, e, n, id, fingerprint, q).OutOfBudget?
  {
    hide Delay, Policy, Approved;
  }

  /* ---------- the whole run ---------- */

  type Shown = (AttemptRecord, Option<BrokerResponse>)

  // Record i tells this step; it was retried unless the run ends there.
  predicate RecordAt(p: RetryPolicy, e: Surroundings, i: nat, t: Taken, b: BudgetedResult, observed: seq<Shown>) {
    i < |b.history| && i < |observed| && observed[i].0 == b.history[i] && Tells(t, b.history[i], observed[i].1) &&
    (if i < |b.history| - 1 then Retried(p, e, t, b.history[i]) else Last(p, e, t, b.history[i], b.outcome))
  }

  // Everything from attempt n on.
  predicate Recorded(planned: Planned, p: RetryPolicy, e: Surroundings, n: int, s: LoopState, steps: seq<Taken>, o: RunOutcome)
    requires o.Returned?
  {
    s.history <= o.result.history && s.observed <= o.observed && |o.observed| == |s.history| + |steps| &&
    (forall k :: 0 <= k < |steps| ==> RecordAt(p, e, |s.history| + k, steps[k], o.result, o.observed)) &&
    (if o.result.outcome.BudgetExhausted? then
       |o.result.history| == |s.history| + |steps| + 1 && RefusedAt(planned, e, n + |steps|, o.result.history[|s.history| + |steps|])
     else |o.result.history| == |s.history| + |steps|)
  }

  lemma EndsRecorded(planned: Planned, p: RetryPolicy, e: Surroundings, n: int, s: LoopState, a: Attempt)
    requires !a.Again? && Explained(planned, p, e, n, s.seen, a) && Ended(planned, s, a).Returned? && |s.history| == |s.observed|
    ensures var asked := AskedAt(planned, e, n, s.seen);
            Recorded(planned, p, e, n, s, if asked.Some? then [asked.value] else [], Ended(planned, s, a))
  {
    hide Tells, Retried, AskedAt, ResultAccepted, CodeOf, Approved, RefusedSays, CanonicalUuid, BrokerRequest;
    if a.Stop? {
      LastOutcome(p, e, AskedAt(planned, e, n, s.seen).value, a.record, a.outcome);
    } else {
      RefusedNotAsked(planned, e, n, s.seen);
    }
    hide Last;
  }

  lemma RefusedNotAsked(planned: Planned, e: Surroundings, n: int, seen: set<Text>)
    requires e.admission(n).Refused?
    ensures AskedAt(planned, e, n, seen).None?
  {
    hide CanonicalUuid, BrokerRequest;
  }

  lemma LastOutcome(p: RetryPolicy, e: Surroundings, t: Taken, r: AttemptRecord, outcome: Outcome)
    requires Last(p, e, t, r, outcome)
    ensures !outcome.BudgetExhausted?
  {
  }

  lemma MoreRecorded(planned: Planned, p: RetryPolicy, e: Surroundings, n: int, s: LoopState, a: Attempt, t: Taken, steps: seq<Taken>, o: RunOutcome)
    requires o.Returned? && a.Again? && |s.history| == |s.observed| && Tells(t, a.record, a.response) && Retried(p, e, t, a.record)
    requires Recorded(planned, p, e, n + 1, Carry(s, a), steps, o) && (steps == [] ==> o.result.outcome.BudgetExhausted?)
    ensures Recorded(planned, p, e, n, s, [t] + steps, o)
  {
    hide Tells, Retried, Last;
    var all := [t] + steps;
    var here := |s.history|;
    CarryAppends(s, a);
    assert here + 1 == |Carry(s, a).history|;
    PrefixAt(Carry(s, a).history, o.result.history, here);
    PrefixAt(Carry(s, a).observed, o.observed, here);
    assert RecordAt(p, e, here, t, o.result, o.observed);
    hide RecordAt;
    forall k | 0 <= k < |all| ensures RecordAt(p, e, here + k, all[k], o.result, o.observed) {
      if k > 0 {
        assert all[k] == steps[k - 1];
        assert RecordAt(p, e, here + 1 + (k - 1), steps[k - 1], o.result, o.observed);
        assert here + 1 + (k - 1) == here + k;
      }
    }
    assert s.history <= o.result.history by { assert Carry(s, a).history[..here] == s.history; }
    assert s.observed <= o.observed by { assert Carry(s, a).observed[..here] == s.observed; }
  }

  lemma CarryAppends(s: LoopState, a: Attempt)
    requires a.Again?
    ensures Carry(s, a).history == s.history + [a.record] && Carry(s, a).observed == s.observed + [(a.record, a.response)]
  {
  }

  lemma PrefixAt<T>(a: seq<T>, b: seq<T>, i: nat)
    requires a <= b && i < |a|
    ensures b[i] == a[i]
  {
  }

  lemma {:induction false} RecordedFrom(planned: Planned, p: RetryPolicy, e: Surroundings, n: int, s: LoopState)
    requires WellTypedBroker(e) && |s.history| == |s.observed|
    ensures var o := RunFrom(planned, p, e, n, s); var steps := TakenFrom(planned, p, e, n, s);
            o.Returned? ==> Recorded(planned, p, e, n, s, steps, o) && (steps == [] ==> o.result.outcome.BudgetExhausted?)
    decreases p.maximumAttempts - n
  {
    hide Recorded, AttemptOnce, Explained, Ended, WellTypedBroker, Tells, Retried, Last;
    if n <= p.maximumAttempts && RunFrom(planned, p, e, n, s).Returned? {
      var a := AttemptOnce(planned, p, e, n, s.seen);
      AttemptExplained(planned, p, e, n, s.seen);
      StepHead(planned, p, e, n, s);
      if a.Again? {
        RecordedFrom(planned, p, e, n + 1, Carry(s, a));
        AgainAsked(planned, p, e, n, s.seen, a);
        MoreRecorded(planned, p, e, n, s, a, AskedAt(planned, e, n, s.seen).value, TakenFrom(planned, p, e, n + 1, Carry(s, a)),
                     RunFrom(planned, p, e, n, s));
      } else {
        EndsRecorded(planned, p, e, n, s, a);
        var head := if AskedAt(planned, e, n, s.seen).Some? then [AskedAt(planned, e, n, s.seen).value] else [];
        assert TakenFrom(planned, p, e, n, s) == head;
        if AskedAt(planned, e, n, s.seen).None? { EndOutcome(planned, p, e, n, s, a); }
      }
    }
  }

  lemma AgainAsked(planned: Planned, p: RetryPolicy, e: Surroundings, n: int, seen: set<Text>, a: Attempt)
    requires a.Again? && Explained(planned, p, e, n, seen, a)
    ensures var t := AskedAt(planned, e, n, seen);
            t.Some? && t.value.attempt == n && Tells(t.value, a.record, a.response) && Retried(p, e, t.value, a.record)
  {
    hide Tells, Retried, BrokerRequest, CanonicalUuid;
  }

  lemma EndOutcome(planned: Planned, p: RetryPolicy, e: Surroundings, n: int, s: LoopState, a: Attempt)
    requires !a.Again? && Explained(planned, p, e, n, s.seen, a) && Ended(planned, s, a).Returned? && AskedAt(planned, e, n, s.seen).None?
    ensures Ended(planned, s, a).result.outcome.BudgetExhausted?
  {
    hide Tells, Retried, Last, ResultAccepted, AskedAt;
  }

  lemma StepHead(planned: Planned, p: RetryPolicy, e: Surroundings, n: int, s: LoopState)
    requires n <= p.maximumAttempts
    ensures var a := AttemptOnce(planned, p, e, n, s.seen); var asked := AskedAt(planned, e, n, s.seen);
            TakenFrom(planned, p, e, n, s) == (if asked.Some? then [asked.value] else []) +
                                              (if a.Again? then TakenFrom(planned, p, e, n + 1, Carry(s, a)) else [])
    ensures var a := AttemptOnce(planned, p, e, n, s.seen);
            RunFrom(planned, p, e, n, s) == if a.Again? then RunFrom(planned, p, e, n + 1, Carry(s, a)) else Ended(planned, s, a)
  {
    hide AttemptOnce, AskedAt, Ended, Carry;
  }

  /** A run that returns has called the broker once per observed record; each record tells its step, every call but the last
      was answered with an approved code and recommends exactly `Delay` of that answer's Retry-After, and the outcome is
      what the last answer says, or that the budget refused the next call. */
  lemma RunRecords(planned: Planned, p: RetryPolicy, e: Surroundings)
    requires WellTypedBroker(e) && Run(planned, p, e).Returned?
    ensures var o := Run(planned, p, e); var b := o.result; var steps := StepsTaken(planned, p, e);
            |steps| == |o.observed| && (forall k :: 0 <= k < |steps| ==> RecordAt(p, e, k, steps[k], b, o.observed)) &&
            (if b.outcome.BudgetExhausted? then
               |b.history| == |steps| + 1 && RefusedAt(planned, e, |steps| + 1, b.history[|steps|])
             else |b.history| == |steps|)
  {
    hide RunFrom, TakenFrom, WellTypedBroker, Tells, Retried, Last;
    RecordedFrom(planned, p, e, 1, START);
    RecordedAll(planned, p, e, StepsTaken(planned, p, e), Run(planned, p, e));
  }

  lemma RecordedAll(planned: Planned, p: RetryPolicy, e: Surroundings, steps: seq<Taken>, o: RunOutcome)
    requires o.Returned? && Recorded(planned, p, e, 1, START, steps, o)
    ensures |steps| == |o.observed| && forall k :: 0 <= k < |steps| ==> RecordAt(p, e, k, steps[k], o.result, o.observed)
    ensures if o.result.outcome.BudgetExhausted?
            then |o.result.history| == |steps| + 1 && RefusedAt(planned, e, |steps| + 1, o.result.history[|steps|])
            else |o.result.history| == |steps|
  {
    hide RecordAt;
    forall k | 0 <= k < |steps| ensures RecordAt(p, e, k, steps[k], o.result, o.observed) {
      assert RecordAt(p, e, |START.history| + k, steps[k], o.result, o.observed);
      assert |START.history| + k == k;
    }
  }

  /* ---------- why a run raises ---------- */

  // The ids of the first n - 1 attempts.
  predicate SeenBefore(e: Surroundings, n: int, seen: set<Text>) {
    (forall k :: 1 <= k < n ==> e.ids(k) in seen) && forall id :: id in seen ==> exists k :: 1 <= k < n && e.ids(k) == id
  }

  ghost predicate RaisedAt(planned: Planned, p: RetryPolicy, e: Surroundings, n: int, fault: RunFault) {
    exists seen :: SeenBefore(e, n, seen) && Cause(planned, p, e, n, seen, fault)
  }

  lemma SeenOneMore(e: Surroundings, n: int, seen: set<Text>)
    requires SeenBefore(e, n, seen) && n >= 1
    ensures SeenBefore(e, n + 1, seen + {e.ids(n)})
  {
    forall id | id in seen + {e.ids(n)} ensures exists k :: 1 <= k < n + 1 && e.ids(k) == id {
      if id in seen { var k :| 1 <= k < n && e.ids(k) == id; assert 1 <= k < n + 1; } else { assert 1 <= n < n + 1; }
    }
  }

  lemma {:induction false} RaisedFrom(planned: Planned, p: RetryPolicy, e: Surroundings, n: int, s: LoopState)
    requires WellTypedBroker(e) && n >= 1 && SeenBefore(e, n, s.seen)
    ensures var o := RunFrom(planned, p, e, n, s);
            o.Raised? && !o.fault.ResultRejected? ==> exists k :: n <= k <= p.maximumAttempts && RaisedAt(planned, p, e, k, o.fault)
    decreases p.maximumAttempts - n
  {
    hide AttemptOnce, Explained, WellTypedBroker, Cause, SeenBefore, TakenFrom, AskedAt;
    var o := RunFrom(planned, p, e, n, s);
    if n <= p.maximumAttempts && o.Raised? && !o.fault.ResultRejected? {
      var a := AttemptOnce(planned, p, e, n, s.seen);
      AttemptExplained(planned, p, e, n, s.seen);
      if a.Again? {
        AgainNamed(planned, p, e, n, s.seen, a);
        SeenOneMore(e, n, s.seen);
        RaisedFrom(planned, p, e, n + 1, Carry(s, a));
        var k :| n + 1 <= k <= p.maximumAttempts && RaisedAt(planned, p, e, k, o.fault);
        assert n <= k;
      } else {
        AbortCause(planned, p, e, n, s, a);
        assert RaisedAt(planned, p, e, n, o.fault);
      }
    }
  }

  lemma AgainNamed(planned: Planned, p: RetryPolicy, e: Surroundings, n: int, seen: set<Text>, a: Attempt)
    requires a.Again? && Explained(planned, p, e, n, seen, a)
    ensures a.record.requestId == e.ids(n)
  {
    hide CanonicalUuid, Retried;
    if Asks(planned, e, n, seen) { BrokerRequestValid(planned, e.ids(n)); }
    hide BrokerRequest;
  }

  lemma AbortCause(planned: Planned, p: RetryPolicy, e: Surroundings, n: int, s: LoopState, a: Attempt)
    requires !a.Again? && Explained(planned, p, e, n, s.seen, a) && Ended(planned, s, a).Raised? && !Ended(planned, s, a).fault.ResultRejected?
    ensures Cause(planned, p, e, n, s.seen, Ended(planned, s, a).fault)
  {
    hide Cause, ResultAccepted;
  }

  /** A run that raises does so for a cause of that very kind, at one of its attempts. */
  lemma RaisedForCause(planned: Planned, p: RetryPolicy, e: Surroundings)
    requires WellTypedBroker(e) && ValidPolicy(p) && Run(planned, p, e).Raised?
    ensures exists n :: 1 <= n <= p.maximumAttempts && RaisedAt(planned, p, e, n, Run(planned, p, e).fault)
  {
    hide RunFrom, WellTypedBroker, RaisedAt, Cause, SeenBefore, GoodOutcome, ValidPolicy;
    RunIsGood(planned, p, e);
    assert !Run(planned, p, e).fault.ResultRejected? by { NeverRejected(p, planned, Run(planned, p, e)); }
    assert SeenBefore(e, 1, START.seen) by { NothingSeen(e); }
    RaisedFrom(planned, p, e, 1, START);
  }

  lemma NeverRejected(p: RetryPolicy, planned: Planned, o: RunOutcome)
    requires GoodOutcome(p, planned, o) && o.Raised?
    ensures !o.fault.ResultRejected?
  {
  }

  lemma NothingSeen(e: Surroundings)
    ensures SeenBefore(e, 1, {})
  {
  }
}
