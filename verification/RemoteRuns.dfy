/** The retry loop over the Unix sockets against the retry loop in process. */
module RemoteRuns {
  import opened Basics
  import opened Calendar
  import opened Protocol
  import opened RetryDelay
  import opened Retry
  import opened Wire
  import opened WireResponse
  import opened Transport
  import WireSize

  /* ---------- what the loop can tell about one broker call ---------- */

  datatype View = Seen(code: Option<BrokerErrorCode>, retryAfter: Option<int>, success: bool) | Fatal(fault: RunFault)

  function ViewOf(step: BrokerStep, id: Text): View {
    match step
    case Crash => Fatal(UnexpectedBrokerException)
    case Fail(code) => Seen(Some(code), None, false)
    case Respond(r) =>
      if r.requestId != id then Fatal(InconsistentBrokerResponse)
      else Seen(r.errorCode, r.retryAfterSeconds, r.errorCode.None? && Success2xx(r.providerHttpStatus))
  }

  // The steps that come through the sockets unchanged to the loop's eyes.
  predicate Faithful(q: CandleRequest, step: BrokerStep) {
    match step
    case Respond(r) =>
      r.requestId == q.requestId &&
      ((ValidStamp(r.capturedAt) && EncodeResponse(r).Ok?) || r.errorCode == Some(MalformedProviderResponse))
    case Fail(code) => !ProviderErrorCode(code)
    case Crash => false
  }

  /** The sockets preserve what the loop sees exactly for the faithful steps. */
  lemma ViewPreservedIff(q: CandleRequest, step: BrokerStep, d: Draw)
    requires ValidRequest(q) && GoodDraw(d) && WellTyped(step)
    ensures ViewOf(RemoteResult(q, step, d), q.requestId) == ViewOf(step, q.requestId) <==> Faithful(q, step)
  {
    hide ValidRequest, GoodDraw, EncodeResponse, LocalFailure, ValidResponse, JoinAudit, ValidStamp;
    LocalFailureIff(q, InternalBrokerFailure, d);
    match step
    case Respond(r) => ValidResponseFacts(r);
    case Fail(code) => LocalFailureIff(q, code, d);
    case Crash =>
  }

  lemma ValidResponseFacts(r: BrokerResponse)
    requires ValidResponse(r)
    ensures r.errorCode == Some(MalformedProviderResponse) ==> r.retryAfterSeconds.None? && !Success2xx(r.providerHttpStatus)
  {
  }

  /* ---------- what a run leaves to compare ---------- */

  datatype RecordView = RecordView(
    attemptNumber: int, requestId: Text, budgetConsumed: bool, errorCode: Option<BrokerErrorCode>,
    retryPermitted: bool, nextDelay: Option<int>, reauthenticationRequired: bool)

  function RecordViewOf(r: AttemptRecord): RecordView {
    RecordView(r.attemptNumber, r.requestId, r.budgetConsumed, r.errorCode, r.retryPermitted, r.nextDelay, r.reauthenticationRequired)
  }

  function HistoryView(h: seq<AttemptRecord>): (v: seq<RecordView>)
    ensures |v| == |h| && forall i :: 0 <= i < |h| ==> v[i] == RecordViewOf(h[i])
  {
    seq(|h|, i requires 0 <= i < |h| => RecordViewOf(h[i]))
  }

  datatype RunView =
    | Result(history: seq<RecordView>, outcome: Outcome, units: int, budgetExhausted: bool, limit: bool,
             reauthentication: bool, succeeded: bool, nextDelay: Option<int>)
    | Exception(fault: RunFault)
    | Nothing

  function RunViewOf(o: RunOutcome): RunView {
    match o
    case Returned(b, _) =>
      Result(HistoryView(b.history), b.outcome, b.unitsConsumed, b.budgetExhausted, b.attemptLimitExhausted,
             b.reauthenticationRequired, b.succeeded, b.nextDelay)
    case Raised(fault) => Exception(fault)
    case FellThrough => Nothing
  }

  /* ---------- runs with equal views ---------- */

  predicate SameAttempt(a: Attempt, b: Attempt) {
    match (a, b)
    case (Abort(f), Abort(g)) => f == g
    case (OutOfBudget(r), OutOfBudget(s)) => r == s
    case (Stop(r, _, o, l, x), Stop(s, _, o', l', x')) =>
      RecordViewOf(r) == RecordViewOf(s) && o == o' && l == l' && x == x'
    case (Again(r, _, d), Again(s, _, d')) => RecordViewOf(r) == RecordViewOf(s) && d == d'
    case _ => false
  }

  predicate SameState(s: LoopState, t: LoopState) {
    HistoryView(s.history) == HistoryView(t.history) && s.used == t.used && s.seen == t.seen && s.nextDelay == t.nextDelay
  }

  // Attempt n gets as far as the broker.
  predicate Asks(planned: Planned, e: Surroundings, n: int, seen: set<Text>) {
    CanonicalUuid(e.ids(n)) && e.ids(n) !in seen && BrokerRequest(planned, e.ids(n)).Ok? && e.admission(n).Admitted?
  }

  // The broker's answer to attempt n.
  function StepAt(planned: Planned, e: Surroundings, n: int): BrokerStep
    requires BrokerRequest(planned, e.ids(n)).Ok?
  {
    e.broker(n, BrokerRequest(planned, e.ids(n)).value)
  }

  // `e` and `f` differ only in their brokers.
  ghost predicate SameBut(e: Surroundings, f: Surroundings) { f == e.(broker := f.broker) }

  lemma SameCall(p: RetryPolicy, e: Surroundings, f: Surroundings, n: int, id: Text, fingerprint: Text, q: CandleRequest)
    requires f == e.(broker := f.broker) && ViewOf(e.broker(n, q), id) == ViewOf(f.broker(n, q), id)
    ensures SameAttempt(Call(p, e, n, id, fingerprint, q), Call(p, f, n, id, fingerprint, q))
  {
    hide Delay, Success2xx, Approved, Policy;
  }

  lemma SameAttempts(planned: Planned, p: RetryPolicy, e: Surroundings, f: Surroundings, n: int, seen: set<Text>)
    requires SameBut(e, f)
    requires Asks(planned, e, n, seen) ==> ViewOf(StepAt(planned, e, n), e.ids(n)) == ViewOf(StepAt(planned, f, n), e.ids(n))
    ensures SameAttempt(AttemptOnce(planned, p, e, n, seen), AttemptOnce(planned, p, f, n, seen))
  {
    hide Call, BrokerRequest, CanonicalUuid, ViewOf;
    var id := e.ids(n);
    if Asks(planned, e, n, seen) {
      SameCall(p, e, f, n, id, planned.fingerprint, BrokerRequest(planned, id).value);
    }
  }

  lemma AppendView(g: seq<AttemptRecord>, h: seq<AttemptRecord>, r: AttemptRecord, s: AttemptRecord)
    requires HistoryView(g) == HistoryView(h) && RecordViewOf(r) == RecordViewOf(s)
    ensures HistoryView(g + [r]) == HistoryView(h + [s])
  {
    assert |g| == |HistoryView(g)| == |h|;
    forall i | 0 <= i <= |g| ensures HistoryView(g + [r])[i] == HistoryView(h + [s])[i] {
      if i < |g| { assert HistoryView(g)[i] == HistoryView(h)[i]; }
    }
  }

  lemma SameEnd(planned: Planned, s: LoopState, t: LoopState, a: Attempt, b: Attempt)
    requires SameState(s, t) && SameAttempt(a, b) && !a.Again?
    ensures !b.Again? && RunViewOf(Ended(planned, s, a)) == RunViewOf(Ended(planned, t, b))
  {
    if !a.Abort? { AppendView(s.history, t.history, a.record, b.record); }
    hide HistoryView, Approved, Policy;
  }

  lemma SameCarry(s: LoopState, t: LoopState, a: Attempt, b: Attempt)
    requires SameState(s, t) && SameAttempt(a, b) && a.Again?
    ensures b.Again? && SameState(Carry(s, a), Carry(t, b))
  {
    AppendView(s.history, t.history, a.record, b.record);
    hide HistoryView;
  }

  /* ---------- over the sockets ---------- */

  // The same surroundings with every broker call made through client and server.
  function Networked(e: Surroundings, draws: int -> Draw): Surroundings {
    e.(broker := (n, q) => if ValidRequest(q) then Remote(q, x => e.broker(n, x), draws(n)) else Crash)
  }

  // A broker step of a run, with the attempt and the request it answers.
  datatype Taken = Taken(attempt: int, request: CandleRequest, step: BrokerStep)

  function AskedAt(planned: Planned, e: Surroundings, n: int, seen: set<Text>): Option<Taken> {
    if Asks(planned, e, n, seen) then Some(Taken(n, BrokerRequest(planned, e.ids(n)).value, StepAt(planned, e, n))) else None
  }

  predicate FaithfulStep(o: Option<Taken>) { o.Some? ==> Faithful(o.value.request, o.value.step) }

  // The broker steps a run takes, in order.
  function TakenFrom(planned: Planned, p: RetryPolicy, e: Surroundings, n: int, s: LoopState): seq<Taken>
    decreases p.maximumAttempts - n
  {
    if n > p.maximumAttempts then []
    else
      var a := AttemptOnce(planned, p, e, n, s.seen);
      var asked := AskedAt(planned, e, n, s.seen);
      (if asked.Some? then [asked.value] else []) +
      (if a.Again? then TakenFrom(planned, p, e, n + 1, Carry(s, a)) else [])
  }

  function StepsTaken(planned: Planned, p: RetryPolicy, e: Surroundings): seq<Taken> { TakenFrom(planned, p, e, 1, START) }

  predicate AllFaithful(steps: seq<Taken>) { forall i :: 0 <= i < |steps| ==> Faithful(steps[i].request, steps[i].step) }

  lemma BrokerRequestValid(planned: Planned, id: Text)
    requires BrokerRequest(planned, id).Ok?
    ensures var q := BrokerRequest(planned, id).value;
            ValidRequest(q) && q.requestId == id && EncodeRequest(q).Ok?
  {
    var q := planned.request;
    var made := CandleRequest(1, id, planned.instrumentId, q.interval, q.fromTimestamp, q.toTimestamp, q.continuous, q.oi);
    MakeRequestValid(made);
    MakeRequestKeeps(made);
    hide ValidRequest, MakeRequest, EncodeRequest;
    WireSize.RequestFits(MakeRequest(made).value);
  }

  lemma MakeRequestKeeps(q: CandleRequest)
    requires MakeRequest(q).Ok?
    ensures MakeRequest(q).value.requestId == q.requestId && MakeRequest(q).value.instrumentToken == q.instrumentToken
  {
  }

  lemma NetworkedStep(planned: Planned, e: Surroundings, draws: int -> Draw, n: int)
    requires WellTypedBroker(e) && GoodDraw(draws(n))
    requires BrokerRequest(planned, e.ids(n)).Ok?
    ensures var q := BrokerRequest(planned, e.ids(n)).value;
            ValidRequest(q) && q.requestId == e.ids(n) &&
            Networked(e, draws).broker(n, q) == RemoteResult(q, e.broker(n, q), draws(n))
  {
    hide BrokerRequest, GoodDraw, Remote, RemoteResult, ValidRequest, EncodeRequest;
    BrokerRequestValid(planned, e.ids(n));
    var q := BrokerRequest(planned, e.ids(n)).value;
    var broker := x => e.broker(n, x);
    assert WellTyped(e.broker(n, q));
    RemoteExact(q, broker, draws(n));
  }

  // The two brokers' answers to attempt n.
  lemma NetworkedViews(planned: Planned, e: Surroundings, draws: int -> Draw, n: int)
    requires WellTypedBroker(e) && GoodDraw(draws(n)) && BrokerRequest(planned, e.ids(n)).Ok?
    ensures var q := BrokerRequest(planned, e.ids(n)).value;
            ValidRequest(q) && WellTyped(StepAt(planned, e, n)) &&
            StepAt(planned, Networked(e, draws), n) == RemoteResult(q, StepAt(planned, e, n), draws(n)) &&
            (Faithful(q, StepAt(planned, e, n)) <==>
             ViewOf(StepAt(planned, Networked(e, draws), n), e.ids(n)) == ViewOf(StepAt(planned, e, n), e.ids(n)))
  {
    hide BrokerRequest, GoodDraw, RemoteResult, Faithful, ViewOf, ValidRequest, Remote;
    var q := BrokerRequest(planned, e.ids(n)).value;
    NetworkedStep(planned, e, draws, n);
    assert WellTyped(e.broker(n, q));
    ViewPreservedIff(q, e.broker(n, q), draws(n));
  }

  lemma NetworkedKeeps(e: Surroundings, draws: int -> Draw)
    ensures SameBut(e, Networked(e, draws))
  {
    hide Remote, ValidRequest;
  }

  lemma FaithfulHead(planned: Planned, p: RetryPolicy, e: Surroundings, n: int, s: LoopState)
    requires n <= p.maximumAttempts
    ensures var a := AttemptOnce(planned, p, e, n, s.seen);
            AllFaithful(TakenFrom(planned, p, e, n, s)) <==>
            FaithfulStep(AskedAt(planned, e, n, s.seen)) && (a.Again? ==> AllFaithful(TakenFrom(planned, p, e, n + 1, Carry(s, a))))
  {
    hide Faithful, AttemptOnce, AskedAt, Carry;
    var a := AttemptOnce(planned, p, e, n, s.seen);
    var asked := AskedAt(planned, e, n, s.seen);
    var head := if asked.Some? then [asked.value] else [];
    var tail := if a.Again? then TakenFrom(planned, p, e, n + 1, Carry(s, a)) else [];
    assert TakenFrom(planned, p, e, n, s) == head + tail;
    hide TakenFrom;
    FaithfulConcat(head, tail);
    assert head != [] ==> head[0] == asked.value;
  }

  lemma FaithfulConcat(a: seq<Taken>, b: seq<Taken>)
    ensures AllFaithful(a + b) <==> AllFaithful(a) && AllFaithful(b)
  {
    hide Faithful;
    if AllFaithful(a + b) {
      forall i | 0 <= i < |a| ensures Faithful(a[i].request, a[i].step) { assert (a + b)[i] == a[i]; }
      forall i | 0 <= i < |b| ensures Faithful(b[i].request, b[i].step) { assert (a + b)[|a| + i] == b[i]; }
    }
  }

  lemma FaithfulAttempts(planned: Planned, p: RetryPolicy, e: Surroundings, draws: int -> Draw, n: int, seen: set<Text>)
    requires WellTypedBroker(e) && GoodDraw(draws(n)) && FaithfulStep(AskedAt(planned, e, n, seen))
    ensures SameAttempt(AttemptOnce(planned, p, e, n, seen), AttemptOnce(planned, p, Networked(e, draws), n, seen))
  {
    hide AttemptOnce, Faithful, BrokerRequest, StepAt, ViewOf, GoodDraw, WellTypedBroker, Networked, SameBut;
    NetworkedKeeps(e, draws);
    if Asks(planned, e, n, seen) { NetworkedViews(planned, e, draws, n); }
    SameAttempts(planned, p, e, Networked(e, draws), n, seen);
  }

  lemma {:induction false} AgreeFrom(planned: Planned, p: RetryPolicy, e: Surroundings, draws: int -> Draw, n: int, s: LoopState, t: LoopState)
    requires WellTypedBroker(e) && (forall k :: GoodDraw(draws(k))) && SameState(s, t)
    requires AllFaithful(TakenFrom(planned, p, e, n, s))
    ensures RunViewOf(RunFrom(planned, p, Networked(e, draws), n, t)) == RunViewOf(RunFrom(planned, p, e, n, s))
    decreases p.maximumAttempts - n
  {
    hide AttemptOnce, RunViewOf, Ended, Carry, HistoryView, Faithful, BrokerRequest, StepAt, ViewOf, GoodDraw, WellTypedBroker,
         TakenFrom, AllFaithful, Networked, AskedAt, FaithfulStep, SameAttempt;
    var f := Networked(e, draws);
    if n <= p.maximumAttempts {
      FaithfulHead(planned, p, e, n, s);
      FaithfulAttempts(planned, p, e, draws, n, s.seen);
      var a, b := AttemptOnce(planned, p, e, n, s.seen), AttemptOnce(planned, p, f, n, t.seen);
      if a.Again? {
        SameCarry(s, t, a, b);
        AgreeFrom(planned, p, e, draws, n + 1, Carry(s, a), Carry(t, b));
      } else {
        SameEnd(planned, s, t, a, b);
      }
    }
  }

  /** When every broker step the in-process run takes is faithful, the run over the sockets agrees with it on attempt
      numbers, error codes, retry decisions, delays, flags, outcome and budget use. */
  lemma NetworkedRunAgrees(planned: Planned, p: RetryPolicy, e: Surroundings, draws: int -> Draw)
    requires WellTypedBroker(e) && forall n :: GoodDraw(draws(n))
    requires AllFaithful(StepsTaken(planned, p, e))
    ensures RunViewOf(Run(planned, p, Networked(e, draws))) == RunViewOf(Run(planned, p, e))
  {
    hide GoodDraw, WellTypedBroker, AllFaithful, TakenFrom, RunFrom, RunViewOf, Networked;
    assert SameState(START, START);
    AgreeFrom(planned, p, e, draws, 1, START, START);
  }

  /* ---------- an unfaithful step ends the networked run ---------- */

  // What the networked run records for an unfaithful step.
  function FarCode(q: CandleRequest, step: BrokerStep): BrokerErrorCode {
    match step
    case Respond(r) => if r.requestId != q.requestId then InternalBrokerFailure else MalformedProviderResponse
    case Fail(_) => MalformedProviderResponse
    case Crash => InternalBrokerFailure
  }

  function StepCode(o: Option<Taken>): BrokerErrorCode {
    if o.Some? then FarCode(o.value.request, o.value.step) else InternalBrokerFailure
  }

  lemma UnfaithfulViews(q: CandleRequest, step: BrokerStep, d: Draw)
    requires ValidRequest(q) && GoodDraw(d) && WellTyped(step) && !Faithful(q, step)
    ensures ViewOf(RemoteResult(q, step, d), q.requestId) == Seen(Some(FarCode(q, step)), None, false)
    ensures !Retryable(Some(FarCode(q, step)))
    ensures ViewOf(step, q.requestId).Seen? ==> ViewOf(step, q.requestId).code != Some(FarCode(q, step))
  {
    LocalFailureIff(q, InternalBrokerFailure, d);
    hide ValidRequest, GoodDraw, LocalFailure, ValidStamp, EncodeRequest, EncodeResponse, ResponseFault;
  }

  // The record of a call carries the code the loop saw; a code that is not retryable ends the run there.
  lemma CallRecords(p: RetryPolicy, e: Surroundings, n: int, id: Text, fingerprint: Text, q: CandleRequest)
    requires ViewOf(e.broker(n, q), id).Seen?
    ensures var a := Call(p, e, n, id, fingerprint, q); var view := ViewOf(e.broker(n, q), id);
            !a.OutOfBudget? &&
            (!a.Abort? ==> a.record.errorCode == view.code && a.record.attemptNumber == n) &&
            (!Retryable(view.code) && e.observerAccepts(n) ==> a.Stop?) &&
            (!Retryable(view.code) && e.observerAccepts(n) && view.code.Some? ==>
              a.outcome == Failed(view.code.value) && !a.limit && a.reauthentication == Policy(view.code.value).reauthenticationRequired)
  {
    hide Delay, Approved, Policy, Retryable;
  }

  lemma CallCrashes(p: RetryPolicy, e: Surroundings, n: int, id: Text, fingerprint: Text, q: CandleRequest)
    requires ViewOf(e.broker(n, q), id).Fatal?
    ensures Call(p, e, n, id, fingerprint, q).Abort?
  {
    hide AfterError, AfterResponse;
  }

  lemma {:induction false} HistoryGrows(planned: Planned, p: RetryPolicy, e: Surroundings, n: int, s: LoopState)
    ensures var o := RunFrom(planned, p, e, n, s); o.Returned? ==> s.history <= o.result.history
    decreases p.maximumAttempts - n
  {
    hide AttemptOnce, ResultAccepted;
    if n <= p.maximumAttempts {
      var a := AttemptOnce(planned, p, e, n, s.seen);
      if a.Again? { HistoryGrows(planned, p, e, n + 1, Carry(s, a)); }
    }
  }

  // The far run stops at this attempt with another code than the near one records, if it records any.
  predicate Parted(n: int, a: Attempt, b: Attempt, code: BrokerErrorCode) {
    b.Stop? && b.outcome == Failed(code) && !b.limit && !b.reauthentication &&
    b.record.errorCode == Some(code) && b.record.attemptNumber == n &&
    !a.OutOfBudget? && (!a.Abort? ==> a.record.errorCode != Some(code))
  }

  lemma UnfaithfulParts(planned: Planned, p: RetryPolicy, e: Surroundings, draws: int -> Draw, n: int, seen: set<Text>)
    requires WellTypedBroker(e) && GoodDraw(draws(n)) && e.observerAccepts(n) && !FaithfulStep(AskedAt(planned, e, n, seen))
    ensures Parted(n, AttemptOnce(planned, p, e, n, seen), AttemptOnce(planned, p, Networked(e, draws), n, seen),
                   StepCode(AskedAt(planned, e, n, seen)))
  {
    NetworkedKeeps(e, draws);
    hide BrokerRequest, GoodDraw, Faithful, ViewOf, ValidRequest, Networked, Call, CanonicalUuid, FarCode, WellTypedBroker, Parted, RemoteResult;
    var q := BrokerRequest(planned, e.ids(n)).value;
    NetworkedViews(planned, e, draws, n);
    BrokerRequestValid(planned, e.ids(n));
    PartedCalls(planned, p, e, Networked(e, draws), n, q, draws(n));
  }

  lemma PartedCalls(planned: Planned, p: RetryPolicy, e: Surroundings, f: Surroundings, n: int, q: CandleRequest, d: Draw)
    requires ValidRequest(q) && GoodDraw(d) && WellTyped(e.broker(n, q)) && !Faithful(q, e.broker(n, q)) && q.requestId == e.ids(n)
    requires SameBut(e, f) && f.broker(n, q) == RemoteResult(q, e.broker(n, q), d) && e.observerAccepts(n)
    ensures Parted(n, Call(p, e, n, e.ids(n), planned.fingerprint, q), Call(p, f, n, e.ids(n), planned.fingerprint, q),
                   FarCode(q, e.broker(n, q)))
  {
    hide *;
    var code := FarCode(q, e.broker(n, q));
    UnfaithfulViews(q, e.broker(n, q), d);
    FarCodeQuiet(q, e.broker(n, q));
    SameObserver(e, f, n);
    FarCall(p, f, n, e.ids(n), planned.fingerprint, q, code);
    NearCall(p, e, n, e.ids(n), planned.fingerprint, q, code);
    PartedIs(n, Call(p, e, n, e.ids(n), planned.fingerprint, q), Call(p, f, n, e.ids(n), planned.fingerprint, q), code);
  }

  lemma FarCodeQuiet(q: CandleRequest, step: BrokerStep)
    ensures !Policy(FarCode(q, step)).reauthenticationRequired
  {
  }

  lemma SameObserver(e: Surroundings, f: Surroundings, n: int)
    requires SameBut(e, f)
    ensures f.observerAccepts(n) == e.observerAccepts(n)
  {
  }

  lemma FarCall(p: RetryPolicy, f: Surroundings, n: int, id: Text, fingerprint: Text, q: CandleRequest, code: BrokerErrorCode)
    requires ViewOf(f.broker(n, q), id) == Seen(Some(code), None, false) && f.observerAccepts(n)
    requires !Retryable(Some(code)) && !Policy(code).reauthenticationRequired
    ensures var b := Call(p, f, n, id, fingerprint, q);
            b.Stop? && b.outcome == Failed(code) && !b.limit && !b.reauthentication &&
            b.record.errorCode == Some(code) && b.record.attemptNumber == n
  {
    hide ViewOf, Call, Policy, Retryable;
    CallRecords(p, f, n, id, fingerprint, q);
  }

  lemma NearCall(p: RetryPolicy, e: Surroundings, n: int, id: Text, fingerprint: Text, q: CandleRequest, code: BrokerErrorCode)
    requires ViewOf(e.broker(n, q), id).Seen? ==> ViewOf(e.broker(n, q), id).code != Some(code)
    ensures var a := Call(p, e, n, id, fingerprint, q); !a.OutOfBudget? && (!a.Abort? ==> a.record.errorCode != Some(code))
  {
    hide ViewOf, Call, Policy, Retryable;
    if ViewOf(e.broker(n, q), id).Seen? { CallRecords(p, e, n, id, fingerprint, q); } else { CallCrashes(p, e, n, id, fingerprint, q); }
  }

  lemma PartedIs(n: int, a: Attempt, b: Attempt, code: BrokerErrorCode)
    requires b.Stop? && b.outcome == Failed(code) && !b.limit && !b.reauthentication &&
             b.record.errorCode == Some(code) && b.record.attemptNumber == n
    requires !a.OutOfBudget? && (!a.Abort? ==> a.record.errorCode != Some(code))
    ensures Parted(n, a, b, code)
  {
  }

  lemma PartedEnds(planned: Planned, p: RetryPolicy, e: Surroundings, n: int, s: LoopState, t: LoopState, a: Attempt, b: Attempt, code: BrokerErrorCode)
    requires n <= p.maximumAttempts && a == AttemptOnce(planned, p, e, n, s.seen) && SameState(s, t) && Parted(n, a, b, code)
    requires t.used >= 0
    ensures var far := Ended(planned, t, b);
            far.Returned? && far.result.outcome == Failed(code) && |far.result.history| == |t.history| + 1 &&
            RunViewOf(far) != RunViewOf(RunFrom(planned, p, e, n, s))
  {
    var near, far := RunFrom(planned, p, e, n, s), Ended(planned, t, b);
    assert |s.history| == |HistoryView(s.history)| == |t.history|;
    assert far.Returned? && far.result.history == t.history + [b.record];
    if a.Again? { HistoryGrows(planned, p, e, n + 1, Carry(s, a)); }
    hide AttemptOnce, ResultAccepted, HistoryView, RunFrom;
    NearHistory(planned, p, e, n, s);
    if near.Returned? {
      var k := |s.history|;
      assert HistoryView(near.result.history)[k].errorCode == a.record.errorCode;
      assert HistoryView(far.result.history)[k].errorCode == Some(code);
    }
  }

  // The record of attempt n in a run that returns.
  lemma NearHistory(planned: Planned, p: RetryPolicy, e: Surroundings, n: int, s: LoopState)
    requires n <= p.maximumAttempts
    ensures var o := RunFrom(planned, p, e, n, s); var a := AttemptOnce(planned, p, e, n, s.seen);
            o.Returned? ==> !a.Abort? && |o.result.history| > |s.history| && o.result.history[|s.history|] == a.record
  {
    hide AttemptOnce, ResultAccepted;
    var a := AttemptOnce(planned, p, e, n, s.seen);
    if a.Again? { HistoryGrows(planned, p, e, n + 1, Carry(s, a)); }
  }

  lemma {:induction false} PartFrom(planned: Planned, p: RetryPolicy, e: Surroundings, draws: int -> Draw, n: int, s: LoopState, t: LoopState)
    requires WellTypedBroker(e) && (forall k :: GoodDraw(draws(k)) && e.observerAccepts(k)) && SameState(s, t) && t.used >= 0
    requires !AllFaithful(TakenFrom(planned, p, e, n, s))
    ensures RunViewOf(RunFrom(planned, p, Networked(e, draws), n, t)) != RunViewOf(RunFrom(planned, p, e, n, s))
    decreases p.maximumAttempts - n
  {
    hide AttemptOnce, RunViewOf, Ended, HistoryView, Faithful, BrokerRequest, StepAt, ViewOf, GoodDraw, WellTypedBroker,
         TakenFrom, AllFaithful, Networked, Parted, AskedAt, StepCode, FaithfulStep, SameAttempt;
    var f := Networked(e, draws);
    assert n <= p.maximumAttempts by { if n > p.maximumAttempts { NothingTaken(planned, p, e, n, s); } }
    FaithfulHead(planned, p, e, n, s);
    var a, b := AttemptOnce(planned, p, e, n, s.seen), AttemptOnce(planned, p, f, n, t.seen);
    assert t.seen == s.seen;
    if !FaithfulStep(AskedAt(planned, e, n, s.seen)) {
      UnfaithfulParts(planned, p, e, draws, n, s.seen);
      var code := StepCode(AskedAt(planned, e, n, s.seen));
      PartedStops(n, a, b, code);
      PartedEnds(planned, p, e, n, s, t, a, b, code);
    } else {
      FaithfulAttempts(planned, p, e, draws, n, s.seen);
      SameCarry(s, t, a, b);
      CarryUsed(t, b);
      hide Carry;
      PartFrom(planned, p, e, draws, n + 1, Carry(s, a), Carry(t, b));
    }
  }

  lemma NothingTaken(planned: Planned, p: RetryPolicy, e: Surroundings, n: int, s: LoopState)
    requires n > p.maximumAttempts
    ensures AllFaithful(TakenFrom(planned, p, e, n, s))
  {
  }

  lemma PartedStops(n: int, a: Attempt, b: Attempt, code: BrokerErrorCode)
    requires Parted(n, a, b, code)
    ensures b.Stop?
  {
  }

  lemma CarryUsed(s: LoopState, a: Attempt)
    requires a.Again?
    ensures Carry(s, a).used == s.used + 1
  {
  }

  /** The run over the sockets and the run in process have the same view if and only if every broker step the in-process
      run takes is faithful: a matching response that fits (or already carries MALFORMED_PROVIDER_RESPONSE), or a typed
      error outside the provider's own codes. */
  lemma NetworkedRunAgreesIff(planned: Planned, p: RetryPolicy, e: Surroundings, draws: int -> Draw)
    requires WellTypedBroker(e) && forall n :: GoodDraw(draws(n)) && e.observerAccepts(n)
    ensures RunViewOf(Run(planned, p, Networked(e, draws))) == RunViewOf(Run(planned, p, e)) <==>
            AllFaithful(StepsTaken(planned, p, e))
  {
    hide GoodDraw, WellTypedBroker, AllFaithful, TakenFrom, RunFrom, RunViewOf, Networked;
    if AllFaithful(StepsTaken(planned, p, e)) {
      NetworkedRunAgrees(planned, p, e, draws);
    } else {
      assert SameState(START, START);
      PartFrom(planned, p, e, draws, 1, START, START);
    }
  }

  /** Whatever the policy, an unfaithful first step ends the networked run there, unretried, with INTERNAL_BROKER_FAILURE for
      a crash or a mismatched response and MALFORMED_PROVIDER_RESPONSE for a provider code or an oversized response. */
  lemma UnfaithfulStepEnds(planned: Planned, p: RetryPolicy, e: Surroundings, draws: int -> Draw)
    requires WellTypedBroker(e) && GoodDraw(draws(1)) && e.observerAccepts(1) && ValidPolicy(p)
    requires !FaithfulStep(AskedAt(planned, e, 1, {}))
    ensures var near, far := Run(planned, p, e), Run(planned, p, Networked(e, draws));
            far.Returned? && |far.result.history| == 1 && RunViewOf(far) != RunViewOf(near) &&
            far.result.outcome == Failed(StepCode(AskedAt(planned, e, 1, {})))
  {
    hide AttemptOnce, RunViewOf, Ended, HistoryView, GoodDraw, WellTypedBroker, Networked, Parted, AskedAt, StepCode, FaithfulStep;
    UnfaithfulParts(planned, p, e, draws, 1, {});
    var a, b := AttemptOnce(planned, p, e, 1, {}), AttemptOnce(planned, p, Networked(e, draws), 1, {});
    var code := StepCode(AskedAt(planned, e, 1, {}));
    PartedStops(1, a, b, code);
    PartedEnds(planned, p, e, 1, START, START, a, b, code);
  }

  /** A provider code raised by the broker is retried or recorded in process; over the sockets the run always ends at once,
      as a malformed provider response. */
  lemma ProviderErrorDiverges(planned: Planned, p: RetryPolicy, e: Surroundings, draws: int -> Draw, code: BrokerErrorCode)
    requires WellTypedBroker(e) && GoodDraw(draws(1)) && e.observerAccepts(1) && ValidPolicy(p)
    requires Asks(planned, e, 1, {}) && StepAt(planned, e, 1) == Fail(code) && ProviderErrorCode(code)
    ensures var near, far := Run(planned, p, e), Run(planned, p, Networked(e, draws));
            far.Returned? && |far.result.history| == 1 && far.result.outcome == Failed(MalformedProviderResponse) &&
            (near.Returned? ==> near.result.history != [] && near.result.history[0].errorCode == Some(code)) &&
            RunViewOf(far) != RunViewOf(near)
  {
    hide AttemptOnce, RunViewOf, GoodDraw, WellTypedBroker, Networked, RunFrom, CanonicalUuid, BrokerRequest;
    UnfaithfulStepEnds(planned, p, e, draws);
    NearHistory(planned, p, e, 1, START);
    FirstRecord(planned, p, e, code);
  }

  lemma FirstRecord(planned: Planned, p: RetryPolicy, e: Surroundings, code: BrokerErrorCode)
    requires Asks(planned, e, 1, {}) && StepAt(planned, e, 1) == Fail(code)
    ensures var a := AttemptOnce(planned, p, e, 1, {}); !a.Abort? ==> a.record.errorCode == Some(code)
  {
    hide BrokerRequest, CanonicalUuid, Call;
    CallRecords(p, e, 1, e.ids(1), planned.fingerprint, BrokerRequest(planned, e.ids(1)).value);
  }
}
