/** `run_planned_request`: admit, call, record, decide; and the history of every run that returns. */
module Retry {
  import opened Basics
  import opened Protocol
  import opened RetryDelay

  // What the loop uses of a planned request.
  datatype Planned = Planned(fingerprint: Text, instrumentId: Text, request: CandleRequest)

  datatype AttemptRecord = AttemptRecord(
    attemptNumber: int, requestId: Text, plannedFingerprint: Text, budgetConsumed: bool,
    brokerRequestId: Option<Text>, transportStatus: Option<TransportStatus>, providerHttpStatus: Option<int>,
    sessionState: Option<SessionState>, errorCode: Option<BrokerErrorCode>,
    bodyLength: Option<int>, bodySha256: Option<Text>,
    retryPermitted: bool, nextDelay: Option<int>, reauthenticationRequired: bool)

  datatype Outcome = Succeeded | BudgetExhausted | Failed(code: BrokerErrorCode) | InconsistentResponse

  datatype BudgetedResult = BudgetedResult(
    history: seq<AttemptRecord>, outcome: Outcome, finalResponse: Option<BrokerResponse>, fingerprint: Text,
    unitsConsumed: int, budgetExhausted: bool, attemptLimitExhausted: bool, reauthenticationRequired: bool,
    succeeded: bool, nextDelay: Option<int>)

  datatype RunFault =
    | InvalidRequestId | DuplicateRequestId | NoBrokerRequest | DateOutOfRange | TokenTooLong | BudgetConfiguration
    | UnexpectedBrokerException | InconsistentBrokerResponse | InvalidPolicy | ObserverFailed | ResultRejected

  datatype RunOutcome =
    | Returned(result: BudgetedResult, observed: seq<(AttemptRecord, Option<BrokerResponse>)>)
    | Raised(fault: RunFault)
    | FellThrough  // the loop ended without a return statement

  // How the shared budget answers one attempt.
  datatype Admission = Admitted | Refused | Unavailable

  // Everything a run meets, by attempt number.
  datatype Surroundings = Surroundings(
    ids: int -> Text, admission: int -> Admission, broker: (int, CandleRequest) -> BrokerStep,
    jitter: Jitter, observerAccepts: int -> bool)

  ghost predicate WellTypedBroker(e: Surroundings) {
    forall n, q :: WellTyped(e.broker(n, q))
  }

  /* ---------- records ---------- */

  function RefusedRecord(n: int, id: Text, fingerprint: Text): AttemptRecord {
    AttemptRecord(n, id, fingerprint, false, None, None, None, None, None, None, None, false, None, false)
  }

  function ErrorRecord(n: int, id: Text, fingerprint: Text, code: BrokerErrorCode, permitted: bool, delay: Option<int>): AttemptRecord {
    AttemptRecord(n, id, fingerprint, true, None, None, None, None, Some(code), None, None, permitted, delay,
                  Policy(code).reauthenticationRequired)
  }

  function ResponseRecord(n: int, id: Text, fingerprint: Text, r: BrokerResponse, permitted: bool, delay: Option<int>): AttemptRecord {
    AttemptRecord(n, id, fingerprint, true, Some(r.brokerRequestId), Some(r.transportStatus), r.providerHttpStatus,
                  Some(r.sessionState), r.errorCode, Some(r.bodyLength), Some(r.bodySha256), permitted, delay,
                  r.errorCode.Some? && Policy(r.errorCode.value).reauthenticationRequired)
  }

  // Lines 23-30: the approved list, which must equal the policy's retryable codes.
  predicate Approved(c: BrokerErrorCode) {
    c.BrokerUnavailable? || c.BrokerTimeout? || c.Provider429? || c.Provider5xx? ||
    c.NetworkTimeout? || c.DnsTlsConnectionFailure?
  }

  predicate Retryable(code: Option<BrokerErrorCode>) {
    code.Some? && Policy(code.value).retryable && Approved(code.value)
  }

  /** The import-time guard never fires; the codes that ask for reauthentication are those of a session, and 403; none of them
      is retryable. */
  lemma AllowlistMatchesPolicy(c: BrokerErrorCode)
    ensures Policy(c).retryable <==> Approved(c)
    ensures Policy(c).retryable ==> !Policy(c).reauthenticationRequired
    ensures Policy(c).retryable <==> c in {BrokerUnavailable, BrokerTimeout, Provider429, Provider5xx, NetworkTimeout, DnsTlsConnectionFailure}
    ensures Policy(c).reauthenticationRequired <==>
            c in {SessionFileMissing, SessionFileUnreadable, MalformedSessionFile, SessionExpiredError, SessionInvalidated, Provider403}
  {
  }

  // `BudgetedBrokerResult.__post_init__` raises nothing.
  predicate ResultAccepted(b: BudgetedResult) {
    b.unitsConsumed >= 0 &&
    !(b.succeeded && (b.budgetExhausted || b.attemptLimitExhausted || b.reauthenticationRequired)) &&
    !(b.budgetExhausted && b.attemptLimitExhausted) &&
    (b.attemptLimitExhausted ==> b.history != []) &&
    (b.attemptLimitExhausted ==> b.outcome.Failed? && Retryable(Some(b.outcome.code))) &&
    !(b.attemptLimitExhausted && b.reauthenticationRequired) &&
    !(b.budgetExhausted && b.reauthenticationRequired)
  }

  /* ---------- one attempt ---------- */

  datatype Attempt =
    | Abort(fault: RunFault)
    | OutOfBudget(record: AttemptRecord)
    | Stop(record: AttemptRecord, response: Option<BrokerResponse>, outcome: Outcome, limit: bool, reauthentication: bool)
    | Again(record: AttemptRecord, response: Option<BrokerResponse>, delay: int)

  // What the loop decides after a broker call, given the error code it saw.
  function Decide(p: RetryPolicy, e: Surroundings, n: int, code: Option<BrokerErrorCode>, retryAfter: Option<int>): Option<Option<int>> {
    if Retryable(code) && n < p.maximumAttempts then
      match Delay(p, n, retryAfter, e.jitter)
      case None => None
      case Some(delay) => Some(Some(delay))
    else Some(None)
  }

  function AfterError(p: RetryPolicy, e: Surroundings, n: int, id: Text, fingerprint: Text, code: BrokerErrorCode): Attempt {
    match Decide(p, e, n, Some(code), None)
    case None => Abort(InvalidPolicy)
    case Some(delay) =>
      var record := ErrorRecord(n, id, fingerprint, code, delay.Some?, delay);
      if !e.observerAccepts(n) then Abort(ObserverFailed)
      else if delay.Some? then Again(record, None, delay.value)
      else Stop(record, None, Failed(code), Retryable(Some(code)), Policy(code).reauthenticationRequired)
  }

  function AfterResponse(p: RetryPolicy, e: Surroundings, n: int, id: Text, fingerprint: Text, r: BrokerResponse): Attempt {
    match Decide(p, e, n, r.errorCode, r.retryAfterSeconds)
    case None => Abort(InvalidPolicy)
    case Some(delay) =>
      var record := ResponseRecord(n, id, fingerprint, r, delay.Some?, delay);
      if !e.observerAccepts(n) then Abort(ObserverFailed)
      else if r.errorCode.None? && Success2xx(r.providerHttpStatus) then Stop(record, Some(r), Succeeded, false, false)
      else if delay.Some? then Again(record, Some(r), delay.value)
      else Stop(record, Some(r), if r.errorCode.Some? then Failed(r.errorCode.value) else InconsistentResponse,
                Retryable(r.errorCode), r.errorCode.Some? && Policy(r.errorCode.value).reauthenticationRequired)
  }

  function BrokerRequest(planned: Planned, id: Text): Result<CandleRequest, RequestFault> {
    var q := planned.request;
    MakeRequest(CandleRequest(1, id, planned.instrumentId, q.interval, q.fromTimestamp, q.toTimestamp, q.continuous, q.oi))
  }

  function Call(p: RetryPolicy, e: Surroundings, n: int, id: Text, fingerprint: Text, q: CandleRequest): Attempt {
    match e.broker(n, q)
    case Crash => Abort(UnexpectedBrokerException)
    case Fail(code) => AfterError(p, e, n, id, fingerprint, code)
    case Respond(r) =>
      if r.requestId != id then Abort(InconsistentBrokerResponse) else AfterResponse(p, e, n, id, fingerprint, r)
  }

  function AttemptOnce(planned: Planned, p: RetryPolicy, e: Surroundings, n: int, seen: set<Text>): Attempt {
    var id := e.ids(n);
    if !CanonicalUuid(id) then Abort(InvalidRequestId)
    else if id in seen then Abort(DuplicateRequestId)
    else
      match BrokerRequest(planned, id)
      case Err(Typed(_)) => Abort(NoBrokerRequest)
      case Err(DateOverflow) => Abort(DateOutOfRange)
      case Err(TooManyDigits) => Abort(TokenTooLong)
      case Ok(q) =>
        match e.admission(n)
        case Refused => OutOfBudget(RefusedRecord(n, id, planned.fingerprint))
        case Unavailable => Abort(BudgetConfiguration)
        case Admitted => Call(p, e, n, id, planned.fingerprint, q)
  }

  /* ---------- the run ---------- */

  // The loop's variables.
  datatype LoopState = LoopState(
    history: seq<AttemptRecord>, observed: seq<(AttemptRecord, Option<BrokerResponse>)>,
    used: int, seen: set<Text>, nextDelay: Option<int>)

  const START := LoopState([], [], 0, {}, None)

  function Finish(b: BudgetedResult, observed: seq<(AttemptRecord, Option<BrokerResponse>)>): RunOutcome {
    if ResultAccepted(b) then Returned(b, observed) else Raised(ResultRejected)
  }

  function Ended(planned: Planned, s: LoopState, a: Attempt): RunOutcome
    requires !a.Again?
  {
    match a
    case Abort(fault) => Raised(fault)
    case OutOfBudget(record) =>
      Finish(BudgetedResult(s.history + [record], BudgetExhausted, None, planned.fingerprint, s.used,
                            true, false, false, false, s.nextDelay), s.observed)
    case Stop(record, response, outcome, limit, reauthentication) =>
      Finish(BudgetedResult(s.history + [record], outcome, response, planned.fingerprint, s.used + 1,
                            false, limit, reauthentication, outcome.Succeeded?, None), s.observed + [(record, response)])
  }

  function Carry(s: LoopState, a: Attempt): LoopState
    requires a.Again?
  {
    LoopState(s.history + [a.record], s.observed + [(a.record, a.response)], s.used + 1,
              s.seen + {a.record.requestId}, Some(a.delay))
  }

  function RunFrom(planned: Planned, p: RetryPolicy, e: Surroundings, n: int, s: LoopState): RunOutcome
    decreases p.maximumAttempts - n
  {
    if n > p.maximumAttempts then FellThrough
    else
      var a := AttemptOnce(planned, p, e, n, s.seen);
      if a.Again? then RunFrom(planned, p, e, n + 1, Carry(s, a)) else Ended(planned, s, a)
  }

  function Run(planned: Planned, p: RetryPolicy, e: Surroundings): RunOutcome { RunFrom(planned, p, e, 1, START) }

  /* ---------- what every state of the loop satisfies ---------- */

  predicate GoodRecord(p: RetryPolicy, r: AttemptRecord) {
    r.budgetConsumed && r.retryPermitted && Retryable(r.errorCode) && r.nextDelay.Some? &&
    0 <= r.nextDelay.value <= DelayLimit(p) && !Success2xx(r.providerHttpStatus) && !r.reauthenticationRequired
  }

  predicate LoopInvariant(p: RetryPolicy, n: int, s: LoopState) {
    |s.history| == n - 1 && s.used == n - 1 && |s.observed| == n - 1 &&
    (forall i :: 0 <= i < |s.history| ==>
      s.history[i].attemptNumber == i + 1 && s.history[i].requestId in s.seen &&
      s.observed[i].0 == s.history[i] && GoodRecord(p, s.history[i])) &&
    (forall i, j :: 0 <= i < j < |s.history| ==> s.history[i].requestId != s.history[j].requestId) &&
    s.nextDelay == (if s.history == [] then None else s.history[|s.history| - 1].nextDelay)
  }

  lemma DecideBounds(p: RetryPolicy, e: Surroundings, n: int, code: Option<BrokerErrorCode>, retryAfter: Option<int>)
    requires ValidPolicy(p) && n >= 1
    ensures var d := Decide(p, e, n, code, retryAfter);
            d.Some? ==> (d.value.Some? <==> Retryable(code) && n < p.maximumAttempts) &&
                        (d.value.Some? ==> 0 <= d.value.value <= DelayLimit(p))
  {
    if Retryable(code) && n < p.maximumAttempts && Delay(p, n, retryAfter, e.jitter).Some? {
      DelayBounds(p, n, retryAfter, e.jitter);
      ExponentialMonotone(p, n, n);
    }
  }

  // What one attempt can produce.
  predicate Shape(p: RetryPolicy, n: int, id: Text, seen: set<Text>, a: Attempt) {
    match a
    case Abort(fault) => !fault.ResultRejected?
    case OutOfBudget(r) => r == RefusedRecord(n, id, r.plannedFingerprint) && id !in seen
    case Again(r, _, d) =>
      r.attemptNumber == n && r.requestId == id && id !in seen && n < p.maximumAttempts &&
      GoodRecord(p, r) && r.nextDelay == Some(d)
    case Stop(r, response, outcome, limit, reauthentication) =>
      r.attemptNumber == n && r.requestId == id && id !in seen &&
      r.budgetConsumed && !r.retryPermitted && r.nextDelay.None? && StopShape(p, n, a)
  }

  predicate StopShape(p: RetryPolicy, n: int, a: Attempt)
    requires a.Stop?
  {
    var code, status := a.record.errorCode, a.record.providerHttpStatus;
    !a.outcome.BudgetExhausted? &&
    (a.limit <==> Retryable(code)) && (a.limit ==> n >= p.maximumAttempts) &&
    (a.outcome.Failed? <==> code.Some?) && (a.outcome.Failed? ==> code == Some(a.outcome.code)) &&
    (a.reauthentication <==> code.Some? && Policy(code.value).reauthenticationRequired) &&
    (a.limit ==> !a.reauthentication) &&
    (a.outcome.Succeeded? <==> Success2xx(status)) && (Success2xx(status) ==> code.None? && a.response.Some?)
  }

  lemma AttemptShape(planned: Planned, p: RetryPolicy, e: Surroundings, n: int, seen: set<Text>)
    requires ValidPolicy(p) && n >= 1 && WellTypedBroker(e)
    ensures Shape(p, n, e.ids(n), seen, AttemptOnce(planned, p, e, n, seen))
  {
    hide Exponential, Delay, ResponseFault, BrokerRequest, CanonicalUuid, ValidPolicy, DelayLimit, Decide;
    var id := e.ids(n);
    if CanonicalUuid(id) && id !in seen && BrokerRequest(planned, id).Ok? && e.admission(n).Admitted? {
      var q := BrokerRequest(planned, id).value;
      assert WellTyped(e.broker(n, q));
      match e.broker(n, q)
      case Crash =>
      case Fail(code) =>
        DecideBounds(p, e, n, Some(code), None);
        AllowlistMatchesPolicy(code);
      case Respond(r) =>
        DecideBounds(p, e, n, r.errorCode, r.retryAfterSeconds);
        if Success2xx(r.providerHttpStatus) { Success2xxHasNoCode(r); }
        if r.errorCode.Some? { AllowlistMatchesPolicy(r.errorCode.value); }
    }
  }

  lemma CarryKeepsInvariant(planned: Planned, p: RetryPolicy, e: Surroundings, n: int, s: LoopState)
    requires ValidPolicy(p) && n >= 1 && WellTypedBroker(e) && LoopInvariant(p, n, s)
    requires AttemptOnce(planned, p, e, n, s.seen).Again?
    ensures LoopInvariant(p, n + 1, Carry(s, AttemptOnce(planned, p, e, n, s.seen)))
    ensures n < p.maximumAttempts
  {
    AttemptShape(planned, p, e, n, s.seen);
    hide AttemptOnce, GoodRecord, ValidPolicy, WellTypedBroker;
  }

  /* ---------- the history of a run that returns ---------- */

  // Units charged by a history.
  function Charged(h: seq<AttemptRecord>): int {
    if h == [] then 0 else Charged(h[..|h| - 1]) + (if h[|h| - 1].budgetConsumed then 1 else 0)
  }

  function TotalDelay(h: seq<AttemptRecord>): int {
    if h == [] then 0
    else TotalDelay(h[..|h| - 1]) + (if h[|h| - 1].nextDelay.Some? then h[|h| - 1].nextDelay.value else 0)
  }

  predicate WellFormedHistory(p: RetryPolicy, h: seq<AttemptRecord>) {
    1 <= |h| <= p.maximumAttempts &&
    (forall i :: 0 <= i < |h| ==> h[i].attemptNumber == i + 1) &&
    (forall i, j :: 0 <= i < j < |h| ==> h[i].requestId != h[j].requestId) &&
    (forall i :: 0 <= i < |h| - 1 ==> GoodRecord(p, h[i]))
  }

  // The last record explains the result's flags, at most one of which is set.
  predicate LastExplains(p: RetryPolicy, b: BudgetedResult)
    requires b.history != []
  {
    var last := b.history[|b.history| - 1];
    !last.retryPermitted && last.nextDelay.None? &&
    (b.budgetExhausted <==> !last.budgetConsumed) &&
    (b.budgetExhausted <==> b.outcome.BudgetExhausted?) &&
    (b.succeeded <==> Success2xx(last.providerHttpStatus)) && (b.succeeded <==> b.outcome.Succeeded?) &&
    (b.attemptLimitExhausted <==> Retryable(last.errorCode)) &&
    (b.attemptLimitExhausted ==> |b.history| == p.maximumAttempts) &&
    (b.reauthenticationRequired <==> last.errorCode.Some? && Policy(last.errorCode.value).reauthenticationRequired) &&
    !(b.budgetExhausted && b.attemptLimitExhausted) && !(b.budgetExhausted && b.reauthenticationRequired) &&
    !(b.attemptLimitExhausted && b.reauthenticationRequired) &&
    (b.succeeded ==> !b.budgetExhausted && !b.attemptLimitExhausted && !b.reauthenticationRequired)
  }

  // The observer saw every charged record, in order, each with its response.
  predicate Observed(b: BudgetedResult, observed: seq<(AttemptRecord, Option<BrokerResponse>)>) {
    b.history != [] && |observed| == b.unitsConsumed <= |b.history| &&
    (forall i :: 0 <= i < |observed| ==> observed[i].0 == b.history[i]) &&
    (!b.budgetExhausted ==> |observed| == |b.history| && observed[|observed| - 1].1 == b.finalResponse) &&
    (b.budgetExhausted ==> |observed| == |b.history| - 1 && b.finalResponse.None?) &&
    (b.succeeded ==> b.finalResponse.Some?)
  }

  predicate GoodOutcome(p: RetryPolicy, planned: Planned, o: RunOutcome) {
    match o
    case FellThrough => false
    case Raised(fault) => !fault.ResultRejected?
    case Returned(b, observed) =>
      WellFormedHistory(p, b.history) && LastExplains(p, b) && Observed(b, observed) &&
      b.unitsConsumed == Charged(b.history) && b.fingerprint == planned.fingerprint &&
      b.nextDelay == (if b.budgetExhausted && |b.history| > 1 then b.history[|b.history| - 2].nextDelay else None)
  }

  lemma {:induction false} ChargedAll(h: seq<AttemptRecord>)
    requires forall i :: 0 <= i < |h| ==> h[i].budgetConsumed
    ensures Charged(h) == |h|
  {
    if h != [] { ChargedAll(h[..|h| - 1]); }
  }

  lemma ChargedAppend(h: seq<AttemptRecord>, r: AttemptRecord)
    requires forall i :: 0 <= i < |h| ==> h[i].budgetConsumed
    ensures Charged(h + [r]) == |h| + (if r.budgetConsumed then 1 else 0)
  {
    ChargedAll(h);
    assert (h + [r])[..|h|] == h;
  }

  lemma EndedHistory(p: RetryPolicy, n: int, s: LoopState, r: AttemptRecord)
    requires 1 <= n <= p.maximumAttempts && LoopInvariant(p, n, s)
    requires r.attemptNumber == n && r.requestId !in s.seen
    ensures WellFormedHistory(p, s.history + [r])
  {
    hide GoodRecord;
  }

  lemma OutOfBudgetIsGood(planned: Planned, p: RetryPolicy, n: int, id: Text, s: LoopState, a: Attempt)
    requires 1 <= n <= p.maximumAttempts && LoopInvariant(p, n, s)
    requires a.OutOfBudget? && Shape(p, n, id, s.seen, a)
    ensures GoodOutcome(p, planned, Ended(planned, s, a))
  {
    EndedHistory(p, n, s, a.record);
    ChargedAppend(s.history, a.record);
    hide GoodRecord, WellFormedHistory, Charged;
  }

  lemma StopIsGood(planned: Planned, p: RetryPolicy, n: int, id: Text, s: LoopState, a: Attempt)
    requires 1 <= n <= p.maximumAttempts && LoopInvariant(p, n, s)
    requires a.Stop? && Shape(p, n, id, s.seen, a)
    ensures GoodOutcome(p, planned, Ended(planned, s, a))
  {
    EndedHistory(p, n, s, a.record);
    ChargedAppend(s.history, a.record);
    hide GoodRecord, WellFormedHistory, Charged, Policy, Approved;
  }

  lemma EndedIsGood(planned: Planned, p: RetryPolicy, e: Surroundings, n: int, s: LoopState)
    requires ValidPolicy(p) && 1 <= n <= p.maximumAttempts && WellTypedBroker(e) && LoopInvariant(p, n, s)
    requires !AttemptOnce(planned, p, e, n, s.seen).Again?
    ensures GoodOutcome(p, planned, Ended(planned, s, AttemptOnce(planned, p, e, n, s.seen)))
  {
    AttemptShape(planned, p, e, n, s.seen);
    var a := AttemptOnce(planned, p, e, n, s.seen);
    hide AttemptOnce, ValidPolicy, WellTypedBroker, LoopInvariant;
    match a
    case Abort(_) => hide LastExplains, WellFormedHistory;
    case OutOfBudget(_) =>
      hide Shape, GoodOutcome, Ended;
      OutOfBudgetIsGood(planned, p, n, e.ids(n), s, a);
    case Stop(_, _, _, _, _) =>
      hide Shape, GoodOutcome, Ended;
      StopIsGood(planned, p, n, e.ids(n), s, a);
  }

  lemma {:induction false} RunFromGood(planned: Planned, p: RetryPolicy, e: Surroundings, n: int, s: LoopState)
    requires ValidPolicy(p) && 1 <= n <= p.maximumAttempts && WellTypedBroker(e) && LoopInvariant(p, n, s)
    ensures GoodOutcome(p, planned, RunFrom(planned, p, e, n, s))
    decreases p.maximumAttempts - n
  {
    hide AttemptOnce, GoodOutcome, LoopInvariant, ValidPolicy, Carry, Ended, WellTypedBroker;
    if AttemptOnce(planned, p, e, n, s.seen).Again? {
      CarryKeepsInvariant(planned, p, e, n, s);
      RunFromGood(planned, p, e, n + 1, Carry(s, AttemptOnce(planned, p, e, n, s.seen)));
    } else {
      EndedIsGood(planned, p, e, n, s);
    }
  }

  /** Every run that returns has a well-formed history; none falls through or has its result rejected. */
  lemma RunIsGood(planned: Planned, p: RetryPolicy, e: Surroundings)
    requires ValidPolicy(p) && WellTypedBroker(e)
    ensures GoodOutcome(p, planned, Run(planned, p, e))
  {
    RunFromGood(planned, p, e, 1, START);
  }

  lemma {:induction false} DelaysBounded(p: RetryPolicy, h: seq<AttemptRecord>)
    requires forall i :: 0 <= i < |h| ==> GoodRecord(p, h[i])
    ensures 0 <= TotalDelay(h) <= |h| * DelayLimit(p)
  {
    hide DelayLimit;
    if h != [] {
      DelaysBounded(p, h[..|h| - 1]);
      assert GoodRecord(p, h[|h| - 1]);
    }
  }

  // The most `k` delays can add up to.
  function DelaySumLimit(p: RetryPolicy, k: int): int { k * DelayLimit(p) }

  lemma LastDelayAbsent(p: RetryPolicy, h: seq<AttemptRecord>)
    requires WellFormedHistory(p, h) && h[|h| - 1].nextDelay.None?
    ensures 0 <= TotalDelay(h) <= DelaySumLimit(p, |h| - 1)
  {
    DelaysBounded(p, h[..|h| - 1]);
    hide DelayLimit, GoodRecord;
  }

  lemma DelaySumMonotone(p: RetryPolicy, a: int, b: int)
    requires ValidPolicy(p) && a <= b
    ensures DelaySumLimit(p, a) <= DelaySumLimit(p, b)
  {
    assert DelayLimit(p) >= 0;
  }

  /** The delays a run recommends add up to at most (attempts - 1) times the single-delay limit. */
  lemma TotalDelayBounded(planned: Planned, p: RetryPolicy, e: Surroundings)
    requires ValidPolicy(p) && WellTypedBroker(e) && Run(planned, p, e).Returned?
    ensures 0 <= TotalDelay(Run(planned, p, e).result.history) <= DelaySumLimit(p, p.maximumAttempts - 1)
  {
    hide *;
    RunIsGood(planned, p, e);
    GoodHistory(p, planned, Run(planned, p, e));
    LastDelayAbsent(p, Run(planned, p, e).result.history);
    DelaySumMonotone(p, |Run(planned, p, e).result.history| - 1, p.maximumAttempts - 1);
  }

  lemma GoodHistory(p: RetryPolicy, planned: Planned, o: RunOutcome)
    requires GoodOutcome(p, planned, o) && o.Returned?
    ensures WellFormedHistory(p, o.result.history) && 1 <= |o.result.history| <= p.maximumAttempts
    ensures o.result.history[|o.result.history| - 1].nextDelay.None?
  {
    hide GoodRecord, Observed, Charged;
  }
}
