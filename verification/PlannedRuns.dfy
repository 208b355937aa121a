/** The run of a planned request: what every one of its broker calls asks for. */
module PlannedRuns {
  import opened Basics
  import opened Protocol
  import opened RetryDelay
  import opened Retry
  import opened RemoteRuns
  import Planning
  import RunRecords

  // A broker call asking for the plan under its attempt's own id, and its answer.
  predicate CallSays(p: Planning.Plan, e: Surroundings, t: Taken) {
    Planning.SaysPlan(p, t.request) && t.request.requestId == e.ids(t.attempt) && t.step == e.broker(t.attempt, t.request)
  }

  /** A request rebuilt for a retry still asks for exactly the plan, under the retry's id. */
  lemma RebuiltRequestSays(p: Planning.Plan, first: Option<Text>, id: Text)
    requires Planning.WellFormed(p) && Planning.PlanHistoricalCandles(p, first).Ok?
    requires BrokerRequest(Planning.PlanHistoricalCandles(p, first).value, id).Ok?
    ensures var q := BrokerRequest(Planning.PlanHistoricalCandles(p, first).value, id).value;
            Planning.SaysPlan(p, q) && q.requestId == id
  {
    Planning.PlannedRequestSays(p, first);
    var planned := Planning.PlanHistoricalCandles(p, first).value;
    hide Planning.PlanHistoricalCandles, Planning.WellFormed, Planning.SaysPlan, MakeRequest, ValidRequest, CanonicalUuid;
    Renamed(p, planned.request, id);
    Planning.MadeSaysPlan(p, planned.request.(protocolVersion := 1, requestId := id));
  }

  lemma Renamed(p: Planning.Plan, q: CandleRequest, id: Text)
    requires Planning.SaysPlan(p, q)
    ensures Planning.SaysPlan(p, q.(protocolVersion := 1, requestId := id))
  {
  }

  // These are the calls from attempt n on.
  predicate CallsSay(p: Planning.Plan, e: Surroundings, n: int, steps: seq<Taken>) {
    forall k :: 0 <= k < |steps| ==> steps[k].attempt == n + k && CallSays(p, e, steps[k])
  }

  lemma {:induction false} CallsFromSay(p: Planning.Plan, planned: Planned, policy: RetryPolicy, e: Surroundings, n: int, s: LoopState)
    requires n >= 1 && forall id :: BrokerRequest(planned, id).Ok? ==>
               Planning.SaysPlan(p, BrokerRequest(planned, id).value) && BrokerRequest(planned, id).value.requestId == id
    ensures CallsSay(p, e, n, TakenFrom(planned, policy, e, n, s))
    decreases policy.maximumAttempts - n
  {
    hide BrokerRequest, AttemptOnce, CanonicalUuid, Planning.SaysPlan, CallSays, TakenFrom, CallsSay;
    if n <= policy.maximumAttempts {
      AskedSays(p, planned, e, n, s.seen);
      RunRecords.StepHead(planned, policy, e, n, s);
      var a := AttemptOnce(planned, policy, e, n, s.seen);
      var asked := AskedAt(planned, e, n, s.seen);
      if a.Again? {
        AgainAsks(planned, policy, e, n, s.seen);
        CallsFromSay(p, planned, policy, e, n + 1, Carry(s, a));
        StepsCons(p, e, n, asked.value, TakenFrom(planned, policy, e, n + 1, Carry(s, a)));
      } else {
        StepsEnd(p, e, n, asked);
        assert TakenFrom(planned, policy, e, n, s) == if asked.Some? then [asked.value] else [];
      }
    } else {
      StepsEnd(p, e, n, None);
      NothingTakenAfter(planned, policy, e, n, s);
    }
  }

  lemma StepsCons(p: Planning.Plan, e: Surroundings, n: int, t: Taken, more: seq<Taken>)
    requires t.attempt == n && CallSays(p, e, t) && CallsSay(p, e, n + 1, more)
    ensures CallsSay(p, e, n, [t] + more)
  {
    hide CallSays;
  }

  lemma StepsEnd(p: Planning.Plan, e: Surroundings, n: int, t: Option<Taken>)
    requires t.Some? ==> t.value.attempt == n && CallSays(p, e, t.value)
    ensures CallsSay(p, e, n, if t.Some? then [t.value] else [])
  {
    hide CallSays;
  }

  lemma NothingTakenAfter(planned: Planned, policy: RetryPolicy, e: Surroundings, n: int, s: LoopState)
    requires n > policy.maximumAttempts
    ensures TakenFrom(planned, policy, e, n, s) == []
  {
  }

  lemma AskedSays(p: Planning.Plan, planned: Planned, e: Surroundings, n: int, seen: set<Text>)
    requires n >= 1 && forall id :: BrokerRequest(planned, id).Ok? ==>
               Planning.SaysPlan(p, BrokerRequest(planned, id).value) && BrokerRequest(planned, id).value.requestId == id
    ensures AskedAt(planned, e, n, seen).Some? ==> AskedAt(planned, e, n, seen).value.attempt == n
    ensures AskedAt(planned, e, n, seen).Some? ==> CallSays(p, e, AskedAt(planned, e, n, seen).value)
  {
    hide BrokerRequest, CanonicalUuid, Planning.SaysPlan;
  }

  lemma AgainAsks(planned: Planned, policy: RetryPolicy, e: Surroundings, n: int, seen: set<Text>)
    requires AttemptOnce(planned, policy, e, n, seen).Again?
    ensures AskedAt(planned, e, n, seen).Some?
  {
    hide BrokerRequest, CanonicalUuid, Call;
  }

  /** Every broker call of a run, the first and every retry, asks for exactly the plan under that attempt's id. */
  lemma EveryCallSaysPlan(p: Planning.Plan, first: Option<Text>, policy: RetryPolicy, e: Surroundings)
    requires Planning.WellFormed(p) && Planning.PlanHistoricalCandles(p, first).Ok?
    ensures var steps := StepsTaken(Planning.PlanHistoricalCandles(p, first).value, policy, e);
            forall k :: 0 <= k < |steps| ==> steps[k].attempt == k + 1 && CallSays(p, e, steps[k])
  {
    hide Planning.PlanHistoricalCandles, Planning.WellFormed, BrokerRequest, TakenFrom, CallSays, Planning.SaysPlan;
    var planned := Planning.PlanHistoricalCandles(p, first).value;
    forall id | BrokerRequest(planned, id).Ok?
      ensures Planning.SaysPlan(p, BrokerRequest(planned, id).value) && BrokerRequest(planned, id).value.requestId == id
    {
      RebuiltRequestSays(p, first, id);
    }
    CallsFromSay(p, planned, policy, e, 1, START);
    var steps := StepsTaken(planned, policy, e);
    assert steps == TakenFrom(planned, policy, e, 1, START);
    forall k | 0 <= k < |steps| ensures steps[k].attempt == k + 1 && CallSays(p, e, steps[k]) {
      assert steps[k].attempt == 1 + k;
    }
  }

  /* ---------- nothing else is ever asked ---------- */

  // The two brokers answer alike whatever asks for the plan.
  ghost predicate AlikeOnPlan(p: Planning.Plan, e: Surroundings, f: Surroundings) {
    SameBut(e, f) && forall n, q :: Planning.SaysPlan(p, q) && q.requestId == e.ids(n) ==> e.broker(n, q) == f.broker(n, q)
  }

  lemma SameAttemptOnPlan(p: Planning.Plan, planned: Planned, policy: RetryPolicy, e: Surroundings, f: Surroundings, n: int, seen: set<Text>)
    requires AlikeOnPlan(p, e, f)
    requires BrokerRequest(planned, e.ids(n)).Ok? ==>
               Planning.SaysPlan(p, BrokerRequest(planned, e.ids(n)).value) && BrokerRequest(planned, e.ids(n)).value.requestId == e.ids(n)
    ensures AttemptOnce(planned, policy, e, n, seen) == AttemptOnce(planned, policy, f, n, seen)
  {
    hide BrokerRequest, CanonicalUuid, Planning.SaysPlan, Delay, Retryable, Policy;
  }

  lemma {:induction false} SameRunOnPlan(p: Planning.Plan, planned: Planned, policy: RetryPolicy, e: Surroundings, f: Surroundings, n: int, s: LoopState)
    requires AlikeOnPlan(p, e, f) && forall id :: BrokerRequest(planned, id).Ok? ==>
               Planning.SaysPlan(p, BrokerRequest(planned, id).value) && BrokerRequest(planned, id).value.requestId == id
    ensures RunFrom(planned, policy, e, n, s) == RunFrom(planned, policy, f, n, s)
    decreases policy.maximumAttempts - n
  {
    hide AttemptOnce, AlikeOnPlan, BrokerRequest, Planning.SaysPlan, Ended;
    if n <= policy.maximumAttempts {
      SameAttemptOnPlan(p, planned, policy, e, f, n, s.seen);
      var a := AttemptOnce(planned, policy, e, n, s.seen);
      if a.Again? { SameRunOnPlan(p, planned, policy, e, f, n + 1, Carry(s, a)); }
    }
  }

  /** A run depends on the broker only through its answers to requests for exactly the plan: change the answer to any other
      request, and every run of the plan stays as it is. */
  lemma RunAsksOnlyForPlan(p: Planning.Plan, first: Option<Text>, policy: RetryPolicy, e: Surroundings, f: Surroundings)
    requires Planning.WellFormed(p) && Planning.PlanHistoricalCandles(p, first).Ok? && AlikeOnPlan(p, e, f)
    ensures var planned := Planning.PlanHistoricalCandles(p, first).value; Run(planned, policy, e) == Run(planned, policy, f)
  {
    hide Planning.PlanHistoricalCandles, Planning.WellFormed, BrokerRequest, RunFrom, AlikeOnPlan, Planning.SaysPlan;
    var planned := Planning.PlanHistoricalCandles(p, first).value;
    forall id | BrokerRequest(planned, id).Ok?
      ensures Planning.SaysPlan(p, BrokerRequest(planned, id).value) && BrokerRequest(planned, id).value.requestId == id
    {
      RebuiltRequestSays(p, first, id);
    }
    SameRunOnPlan(p, planned, policy, e, f, 1, START);
  }
}
