/** Which status the adapter answers, and with what, said on the run, its publication and the body of its last response. */
module AdapterStatus {
  import opened Basics
  import opened Calendar
  import opened Protocol
  import opened Retry
  import opened RetryDelay
  import opened Adapter
  import Bars
  import Candles
  import Validator
  import Planning

  /* ---------- the run and its publication ---------- */

  function LastRecord(b: BudgetedResult): AttemptRecord
    requires b.history != []
  {
    b.history[|b.history| - 1]
  }

  // The run of this plan returned and all of its attempts were published.
  predicate AllPublished(reader: Reader, symbol: Text, planned: Planned, p: RetryPolicy, e: Surroundings, storage: int -> Answer) {
    AdapterRun(planned, p, e).Returned? && AdapterRun(planned, p, e).result.history != [] && Publications(reader, symbol, planned, p, e, storage).Ok?
  }

  function Publications(reader: Reader, symbol: Text, planned: Planned, p: RetryPolicy, e: Surroundings, storage: int -> Answer)
    : Result<seq<Publication>, PublicationFault>
    requires AdapterRun(planned, p, e).Returned?
  {
    Published(reader, symbol, planned.fingerprint, storage, AdapterRun(planned, p, e).result, ObservedMap(AdapterRun(planned, p, e).observed))
  }

  predicate Reauthenticates(c: BrokerErrorCode) {
    c in {SessionFileMissing, SessionFileUnreadable, MalformedSessionFile, SessionExpiredError, SessionInvalidated, Provider403}
  }

  // How the last attempt ended.
  datatype End = Unfunded | OutOfAttempts | NeedsLogin | Answered | Broke

  function EndOf(last: AttemptRecord): End {
    if !last.budgetConsumed then Unfunded
    else if last.errorCode.Some? && Approved(last.errorCode.value) then OutOfAttempts
    else if last.errorCode.Some? && Reauthenticates(last.errorCode.value) then NeedsLogin
    else if Success2xx(last.providerHttpStatus) then Answered
    else Broke
  }

  // Bars a second apart or more.
  predicate Spaced(bars: seq<Bars.Bar>) { forall i :: 0 < i < |bars| ==> Bars.Gap(bars, i) >= MICROS }

  /* ---------- the final status ---------- */

  // What the status says of the body of the run's last response.
  predicate StatusSays(status: Status, parsed: Result<Candles.Parsed, Candles.ParseFault>) {
    (status.MalformedProvider? <==> parsed.Err?) &&
    (status.EmptyResponse? <==> parsed.Ok? && parsed.value.bars == []) &&
    (status.ValidationFailure? <==> parsed.Ok? && parsed.value.bars != [] && !Spaced(parsed.value.bars)) &&
    (status.Success? <==> parsed.Ok? && parsed.value.bars != [] && Spaced(parsed.value.bars))
  }

  // What the result carries of it.
  predicate ResultCarries(r: AdapterResult, parsed: Result<Candles.Parsed, Candles.ParseFault>) {
    r.parsed == (if parsed.Ok? then Some(parsed.value) else None) &&
    r.bars == (if r.status.Success? && parsed.Ok? then parsed.value.bars else []) &&
    r.validation == (if parsed.Err? then None
                     else Some(if parsed.value.bars == [] then Some(Validator.EmptyBars)
                               else if Spaced(parsed.value.bars) then None else Some(Validator.NonMonotonicTimestamps)))
  }

  lemma VerdictIs(parsed: Candles.Parsed)
    requires Candles.ParserBars(parsed.bars)
    ensures Verdict(parsed).None? <==> parsed.bars != [] && Spaced(parsed.bars)
    ensures Verdict(parsed) == Some(Validator.EmptyBars) <==> parsed.bars == []
  {
    hide Validator.CodeOf, Candles.ParserBars;
    Validator.ParsedVerdict(parsed.bars);
  }

  lemma AnsweredShape(reader: Reader, symbol: Text, b: BudgetedResult, ps: seq<Publication>)
    requires !b.budgetExhausted && !b.attemptLimitExhausted && !b.reauthenticationRequired && b.succeeded && b.finalResponse.Some?
    requires var parsed := ParseBody(reader, symbol, b.finalResponse.value); parsed.Err? ==> Candles.ParseError(parsed.error)
    ensures var r := Finished(reader, symbol, b, ps);
            r.Some? && r.value.publications == ps &&
            match ParseBody(reader, symbol, b.finalResponse.value)
            case Err(_) => r.value.status.MalformedProvider? && r.value.parsed.None? && r.value.bars == [] && r.value.validation.None?
            case Ok(parsed) =>
              r.value.parsed == Some(parsed) && r.value.validation == Some(Verdict(parsed)) &&
              match Verdict(parsed)
              case None => r.value.status.Success? && r.value.bars == parsed.bars
              case Some(code) => r.value.bars == [] && r.value.status == if code.EmptyBars? then EmptyResponse else ValidationFailure
  {
    hide ParseBody, Verdict, AnyReview, Candles.ParseError;
  }

  lemma AnsweredFinish(reader: Reader, symbol: Text, b: BudgetedResult, ps: seq<Publication>)
    requires !b.budgetExhausted && !b.attemptLimitExhausted && !b.reauthenticationRequired && b.succeeded && b.finalResponse.Some?
    requires var parsed := ParseBody(reader, symbol, b.finalResponse.value); parsed.Err? ==> Candles.ParseError(parsed.error)
    ensures var r := Finished(reader, symbol, b, ps); var parsed := ParseBody(reader, symbol, b.finalResponse.value);
            r.Some? && r.value.publications == ps && StatusSays(r.value.status, parsed) && ResultCarries(r.value, parsed)
  {
    hide Finished, ParseBody, Verdict, Candles.ParseError, Spaced, Candles.ParserBars;
    AnsweredShape(reader, symbol, b, ps);
    var parsed := ParseBody(reader, symbol, b.finalResponse.value);
    if parsed.Ok? {
      BodyBars(reader, symbol, b.finalResponse.value);
      VerdictIs(parsed.value);
      VerdictCodes(parsed.value);
    }
  }

  lemma OtherFinish(reader: Reader, symbol: Text, b: BudgetedResult, ps: seq<Publication>)
    requires b.budgetExhausted || b.attemptLimitExhausted || b.reauthenticationRequired || !b.succeeded
    ensures var r := Finished(reader, symbol, b, ps);
            r.Some? && r.value.publications == ps && r.value.bars == [] && r.value.parsed.None? &&
            r.value.status == if b.budgetExhausted then BudgetGone else if b.attemptLimitExhausted then RetryLimitExhausted
                              else if b.reauthenticationRequired then ReauthenticationRequired else ProviderFailure
  {
    hide ParseBody, Verdict, AnyReview, Candles.ParseError;
  }

  // The flags are those of the last record.
  lemma FlagsAre(planned: Planned, p: RetryPolicy, b: BudgetedResult, observed: seq<(AttemptRecord, Option<BrokerResponse>)>)
    requires RunFacts(planned, p, b, observed) && b.history != []
    ensures b.budgetExhausted <==> EndOf(LastRecord(b)).Unfunded?
    ensures b.attemptLimitExhausted <==> EndOf(LastRecord(b)).OutOfAttempts?
    ensures b.reauthenticationRequired <==> EndOf(LastRecord(b)).NeedsLogin?
    ensures b.succeeded <==> EndOf(LastRecord(b)).Answered?
  {
    var code := LastRecord(b).errorCode;
    if code.Some? { AllowlistMatchesPolicy(code.value); }
    hide RunSupported, WellFormedHistory, Observed, Policy, Approved, Reauthenticates;
    assert code.Some? ==> (Policy(code.value).reauthenticationRequired <==> Reauthenticates(code.value)) by {
      if code.Some? { ReauthenticatesIs(code.value); }
    }
  }

  lemma ReauthenticatesIs(c: BrokerErrorCode)
    ensures Policy(c).reauthenticationRequired <==> Reauthenticates(c)
  {
    AllowlistMatchesPolicy(c);
    hide Policy;
  }

  // The status of a run whose attempts were all published, by how its last attempt ended.
  predicate StatusFits(reader: Reader, symbol: Text, b: BudgetedResult, r: AdapterResult)
    requires b.history != []
  {
    var end := EndOf(LastRecord(b));
    (r.status.BudgetGone? <==> end.Unfunded?) && (r.status.RetryLimitExhausted? <==> end.OutOfAttempts?) &&
    (r.status.ReauthenticationRequired? <==> end.NeedsLogin?) && (r.status.ProviderFailure? <==> end.Broke?) &&
    (end.Answered? ==>
      b.finalResponse.Some? && StatusSays(r.status, ParseBody(reader, symbol, b.finalResponse.value)) &&
      ResultCarries(r, ParseBody(reader, symbol, b.finalResponse.value))) &&
    (!end.Answered? ==>
      r.bars == [] && r.parsed.None? &&
      !r.status.Success? && !r.status.EmptyResponse? && !r.status.ValidationFailure? && !r.status.MalformedProvider?)
  }

  lemma FitsWhenAnswered(reader: Reader, symbol: Text, b: BudgetedResult, r: AdapterResult)
    requires b.history != [] && EndOf(LastRecord(b)).Answered? && b.finalResponse.Some?
    requires StatusSays(r.status, ParseBody(reader, symbol, b.finalResponse.value))
    requires ResultCarries(r, ParseBody(reader, symbol, b.finalResponse.value))
    ensures StatusFits(reader, symbol, b, r)
  {
    hide ParseBody, EndOf, ResultCarries, Spaced;
  }

  lemma FitsOtherwise(reader: Reader, symbol: Text, b: BudgetedResult, r: AdapterResult)
    requires b.history != [] && !EndOf(LastRecord(b)).Answered? && r.bars == [] && r.parsed.None?
    requires r.status == match EndOf(LastRecord(b))
                         case Unfunded => BudgetGone
                         case OutOfAttempts => RetryLimitExhausted
                         case NeedsLogin => ReauthenticationRequired
                         case _ => ProviderFailure
    ensures StatusFits(reader, symbol, b, r)
  {
    hide ParseBody, EndOf, ResultCarries, StatusSays;
  }

  lemma FinishedFits(reader: Reader, symbol: Text, planned: Planned, p: RetryPolicy, storage: int -> Answer, b: BudgetedResult,
                     observed: seq<(AttemptRecord, Option<BrokerResponse>)>, ps: seq<Publication>)
    requires RunFacts(planned, p, b, observed) && |ps| == |b.history|
    requires forall i :: 0 <= i < |ps| ==> PublicationAt(reader, symbol, planned, storage, b, observed, i) == Ok(ps[i])
    ensures var r := Finished(reader, symbol, b, ps);
            b.history != [] && r.Some? && r.value.publications == ps && StatusFits(reader, symbol, b, r.value)
  {
    hide *;
    FactsFingerprint(planned, p, b, observed);
    FlagsAre(planned, p, b, observed);
    if b.succeeded {
      LastReview(reader, symbol, planned, p, storage, b, observed);
      AnsweredFinish(reader, symbol, b, ps);
      FitsWhenAnswered(reader, symbol, b, Finished(reader, symbol, b, ps).value);
    } else {
      OtherFinish(reader, symbol, b, ps);
      FitsOtherwise(reader, symbol, b, Finished(reader, symbol, b, ps).value);
    }
  }

  lemma ExecuteCases(reader: Reader, symbol: Text, planned: Planned, p: RetryPolicy, e: Surroundings, storage: int -> Answer)
    ensures var r := Execute(reader, symbol, planned, p, e, storage);
            if !AdapterRun(planned, p, e).Returned? then r == Some(Bare(BrokerExecutionFailed))
            else if Publications(reader, symbol, planned, p, e, storage).Err? then r == Some(Bare(ArtifactPublicationFailure))
            else r == Finished(reader, symbol, AdapterRun(planned, p, e).result, Publications(reader, symbol, planned, p, e, storage).value)
  {
    hide AdapterRun, Published, Finished, ObservedMap;
  }

  /** The final status, exactly.  A run that does not return is BROKER_EXECUTION_FAILED, and one that cannot be published
      ARTIFACT_PUBLICATION_FAILURE.  Otherwise the last record decides: a refused unit is BUDGET_EXHAUSTED, an approved code
      RETRY_LIMIT_EXHAUSTED, a code of the session or 403 REAUTHENTICATION_REQUIRED, a 2xx one of the four below, anything else
      PROVIDER_FAILURE.  A 2xx body that does not parse is MALFORMED_PROVIDER_RESPONSE, one without bars EMPTY_RESPONSE, one with
      two bars less than a second apart VALIDATION_FAILURE, and every other one SUCCESS with exactly its bars. */
  lemma StatusIs(reader: Reader, symbol: Text, planned: Planned, p: RetryPolicy, e: Surroundings, storage: int -> Answer)
    requires ValidPolicy(p) && WellTypedBroker(e)
    ensures var run := AdapterRun(planned, p, e); var r := Execute(reader, symbol, planned, p, e, storage);
            r.Some? && (r.value.status.BrokerExecutionFailed? <==> !run.Returned?) &&
            (r.value.status.ArtifactPublicationFailure? <==> run.Returned? && Publications(reader, symbol, planned, p, e, storage).Err?) &&
            (AllPublished(reader, symbol, planned, p, e, storage) <==> run.Returned? && Publications(reader, symbol, planned, p, e, storage).Ok?) &&
            (AllPublished(reader, symbol, planned, p, e, storage) ==>
              r.value.publications == Publications(reader, symbol, planned, p, e, storage).value &&
              StatusFits(reader, symbol, run.result, r.value))
  {
    hide *;
    ExecuteCases(reader, symbol, planned, p, e, storage);
    var run := AdapterRun(planned, p, e);
    if run.Returned? {
      AdapterRunFacts(planned, p, e);
      KnownNumbersHold(planned, p, run.result, run.observed);
      KeptMeans(reader, symbol, planned, p, e, storage);
      if Publications(reader, symbol, planned, p, e, storage).Ok? {
        PublicationsEach(reader, symbol, planned, p, e, storage);
        FinishedFits(reader, symbol, planned, p, storage, run.result, run.observed, Publications(reader, symbol, planned, p, e, storage).value);
        FitsNever(reader, symbol, run.result, Finished(reader, symbol, run.result, Publications(reader, symbol, planned, p, e, storage).value).value);
      }
    } else {
      NeverKept(reader, symbol, planned, p, e, storage);
    }
    BareStatus();
  }

  lemma BareStatus()
    ensures forall s :: Bare(s).status == s
  {
  }

  lemma NeverKept(reader: Reader, symbol: Text, planned: Planned, p: RetryPolicy, e: Surroundings, storage: int -> Answer)
    requires !AdapterRun(planned, p, e).Returned?
    ensures !AllPublished(reader, symbol, planned, p, e, storage)
  {
    hide AdapterRun;
  }

  lemma KeptMeans(reader: Reader, symbol: Text, planned: Planned, p: RetryPolicy, e: Surroundings, storage: int -> Answer)
    requires AdapterRun(planned, p, e).Returned? && AdapterRun(planned, p, e).result.history != []
    ensures AllPublished(reader, symbol, planned, p, e, storage) <==> Publications(reader, symbol, planned, p, e, storage).Ok?
  {
    hide AdapterRun, Publications;
  }

  // A published run never ends with one of the two other statuses.
  lemma FitsNever(reader: Reader, symbol: Text, b: BudgetedResult, r: AdapterResult)
    requires b.history != [] && StatusFits(reader, symbol, b, r)
    ensures !r.status.BrokerExecutionFailed? && !r.status.ArtifactPublicationFailure?
  {
    hide ParseBody, ResultCarries, Spaced, Approved, Reauthenticates;
  }

  /* ---------- each publication ---------- */

  lemma PublicationsEach(reader: Reader, symbol: Text, planned: Planned, p: RetryPolicy, e: Surroundings, storage: int -> Answer)
    requires AdapterRun(planned, p, e).Returned? && RunFacts(planned, p, AdapterRun(planned, p, e).result, AdapterRun(planned, p, e).observed)
    ensures var run := AdapterRun(planned, p, e); var r := Publications(reader, symbol, planned, p, e, storage);
            (r.Ok? ==> |r.value| == |run.result.history| &&
                       forall i :: 0 <= i < |r.value| ==> PublicationAt(reader, symbol, planned, storage, run.result, run.observed, i) == Ok(r.value[i])) &&
            (r.Err? ==> exists i :: 0 <= i < |run.result.history| && PublicationAt(reader, symbol, planned, storage, run.result, run.observed, i) == Err(r.error))
  {
    hide AdapterRun, PublishAttempt, ObservedMap, RunFacts, KnownNumbers, PublicationAt, PublishFirst;
    var run := AdapterRun(planned, p, e);
    KnownNumbersHold(planned, p, run.result, run.observed);
    FactsFingerprint(planned, p, run.result, run.observed);
    PublishedEach(reader, symbol, planned, storage, run.result, run.observed, |run.result.history|);
  }

  // What is published with attempt i of a run: nothing is parsed but the body of the last, 2xx, response.
  predicate PublicationSays(reader: Reader, symbol: Text, storage: int -> Answer, b: BudgetedResult, i: int, q: Publication)
    requires 0 <= i < |b.history|
  {
    q.attemptNumber == i + 1 && storage(i).Kept? && q.stored == storage(i).publication &&
    if i < |b.history| - 1 || !b.succeeded then
      q.parser.NotAttempted? && q.validation.ValidationNotAttempted? && !q.reviewRequired
    else
      b.finalResponse.Some? && match ParseBody(reader, symbol, b.finalResponse.value)
      case Err(_) => q.parser.ParseFailure? && q.validation.NotRun? && q.reviewRequired
      case Ok(parsed) =>
        q.parser.ParseSuccess? && (q.reviewRequired <==> !q.validation.Valid?) &&
        (q.validation.Valid? <==> parsed.bars != [] && Spaced(parsed.bars)) &&
        (q.validation == Invalid(Validator.EmptyBars) <==> parsed.bars == []) &&
        (q.validation == Invalid(Validator.NonMonotonicTimestamps) <==> parsed.bars != [] && !Spaced(parsed.bars))
  }

  // Why attempt i cannot be published.
  predicate Unpublished(reader: Reader, symbol: Text, storage: int -> Answer, b: BudgetedResult, i: int)
    requires 0 <= i < |b.history|
  {
    storage(i).NotKept? ||
    (i == |b.history| - 1 && b.succeeded && b.finalResponse.Some? && ParseBody(reader, symbol, b.finalResponse.value).Err? &&
     !Candles.ParseError(ParseBody(reader, symbol, b.finalResponse.value).error))
  }

  lemma QuietPublication(reader: Reader, symbol: Text, fingerprint: Text, stored: Answer, a: AttemptRecord, response: Option<BrokerResponse>)
    requires a.plannedFingerprint == fingerprint && a.attemptNumber > 0 && EvidenceFault(a, response).None?
    requires response.None? || !Success2xx(response.value.providerHttpStatus)
    ensures var r := PublishAttempt(reader, symbol, fingerprint, stored, a, response);
            (r.Ok? <==> stored.Kept?) &&
            (r.Ok? ==> r.value == Publication(a.attemptNumber, NotAttempted, ValidationNotAttempted, stored.publication, false))
  {
    hide EvidenceFault, ParseBody, Verdict, Success2xx;
  }

  lemma ParsedPublication(reader: Reader, symbol: Text, fingerprint: Text, stored: Answer, a: AttemptRecord, response: BrokerResponse)
    requires a.plannedFingerprint == fingerprint && a.attemptNumber > 0 && EvidenceFault(a, Some(response)).None?
    requires Success2xx(response.providerHttpStatus)
    ensures var r := PublishAttempt(reader, symbol, fingerprint, stored, a, Some(response)); var parsed := ParseBody(reader, symbol, response);
            (r.Ok? <==> stored.Kept? && (parsed.Err? ==> Candles.ParseError(parsed.error))) &&
            (r.Ok? ==>
              r.value.attemptNumber == a.attemptNumber && r.value.stored == stored.publication &&
              if parsed.Err? then r.value.parser.ParseFailure? && r.value.validation.NotRun? && r.value.reviewRequired
              else
                r.value.parser.ParseSuccess? && (r.value.reviewRequired <==> !r.value.validation.Valid?) &&
                r.value.validation == if Verdict(parsed.value).None? then Valid else Invalid(Verdict(parsed.value).value))
  {
    hide EvidenceFault, ParseBody, Verdict, Success2xx, Candles.ParseError;
  }

  lemma PublicationIs(reader: Reader, symbol: Text, planned: Planned, p: RetryPolicy, storage: int -> Answer, b: BudgetedResult,
                      observed: seq<(AttemptRecord, Option<BrokerResponse>)>, i: int)
    requires RunFacts(planned, p, b, observed) && 0 <= i < |b.history|
    ensures var r := PublicationAt(reader, symbol, planned, storage, b, observed, i);
            (r.Ok? ==> PublicationSays(reader, symbol, storage, b, i, r.value)) && (r.Err? <==> Unpublished(reader, symbol, storage, b, i))
  {
    ResponseIs(planned, p, b, observed, i);
    AttemptFacts(planned, p, b, observed, i);
    var response := ResponseAt(b, observed, i);
    if i == |b.history| - 1 && b.succeeded {
      FinalResponse2xx(planned, p, b, observed);
      LastPublicationIs(reader, symbol, planned, storage, b, observed, i);
    } else {
      hide RunFacts, ResponseAt, EvidenceFault, Success2xx, ParseBody;
      QuietPublication(reader, symbol, planned.fingerprint, storage(i), b.history[i], response);
      hide PublishAttempt;
    }
  }

  lemma LastPublicationIs(reader: Reader, symbol: Text, planned: Planned, storage: int -> Answer, b: BudgetedResult,
                          observed: seq<(AttemptRecord, Option<BrokerResponse>)>, i: int)
    requires 0 <= i == |b.history| - 1 && b.succeeded && b.finalResponse.Some? && ResponseAt(b, observed, i) == b.finalResponse
    requires Success2xx(b.finalResponse.value.providerHttpStatus) && b.history[i].attemptNumber == i + 1
    requires b.history[i].plannedFingerprint == planned.fingerprint && EvidenceFault(b.history[i], b.finalResponse).None?
    ensures var r := PublicationAt(reader, symbol, planned, storage, b, observed, i);
            (r.Ok? ==> PublicationSays(reader, symbol, storage, b, i, r.value)) && (r.Err? <==> Unpublished(reader, symbol, storage, b, i))
  {
    hide ResponseAt, EvidenceFault, Success2xx, ParseBody, PublishAttempt, Verdict, Candles.ParseError, Spaced, Candles.ParserBars;
    ParsedPublication(reader, symbol, planned.fingerprint, storage(i), b.history[i], b.finalResponse.value);
    var parsed := ParseBody(reader, symbol, b.finalResponse.value);
    if parsed.Ok? {
      BodyBars(reader, symbol, b.finalResponse.value);
      VerdictIs(parsed.value);
      VerdictCodes(parsed.value);
    }
  }

  lemma VerdictCodes(parsed: Candles.Parsed)
    requires Candles.ParserBars(parsed.bars)
    ensures Verdict(parsed) in {None, Some(Validator.EmptyBars), Some(Validator.NonMonotonicTimestamps)}
  {
    hide Validator.CodeOf, Candles.ParserBars;
    Validator.ParsedVerdict(parsed.bars);
  }

  /** Publication of a run succeeds exactly when storage keeps every attempt and a 2xx body does not escape the parser; each
      publication then says its own attempt's outcome, and nothing but the body of a succeeded run is ever parsed. */
  lemma PublicationsAre(reader: Reader, symbol: Text, planned: Planned, p: RetryPolicy, e: Surroundings, storage: int -> Answer)
    requires ValidPolicy(p) && WellTypedBroker(e) && AdapterRun(planned, p, e).Returned?
    ensures var b := AdapterRun(planned, p, e).result; var r := Publications(reader, symbol, planned, p, e, storage);
            (r.Err? <==> exists i :: 0 <= i < |b.history| && Unpublished(reader, symbol, storage, b, i)) &&
            (r.Ok? ==> |r.value| == |b.history| && forall i :: 0 <= i < |b.history| ==> PublicationSays(reader, symbol, storage, b, i, r.value[i]))
  {
    hide ValidPolicy, WellTypedBroker, AdapterRun, RunFacts, PublicationAt, Publications, PublicationSays, Unpublished;
    AdapterRunFacts(planned, p, e);
    PublicationsEach(reader, symbol, planned, p, e, storage);
    var run := AdapterRun(planned, p, e);
    forall i | 0 <= i < |run.result.history|
      ensures var r := PublicationAt(reader, symbol, planned, storage, run.result, run.observed, i);
              (r.Ok? ==> PublicationSays(reader, symbol, storage, run.result, i, r.value)) && (r.Err? <==> Unpublished(reader, symbol, storage, run.result, i))
    {
      PublicationIs(reader, symbol, planned, p, storage, run.result, run.observed, i);
    }
  }

  /* ---------- evidence ---------- */

  /** The evidence is accepted exactly when an attempt without a response claims none, and one with a response carries that
      response's ids, transport, status, length and hash, which are those of its body; a body whose length or hash is wrong is
      what a hash mismatch means. */
  lemma EvidenceIff(a: AttemptRecord, response: Option<BrokerResponse>)
    ensures EvidenceFault(a, response).None? <==>
            match response
            case None => a.bodyLength.None? && a.bodySha256.None?
            case Some(r) =>
              r.bodyLength == |r.body| && r.bodySha256 == Sha256(r.body) && a.requestId == r.requestId &&
              a.brokerRequestId == Some(r.brokerRequestId) && a.transportStatus == Some(r.transportStatus) &&
              a.providerHttpStatus == r.providerHttpStatus && a.bodyLength == Some(r.bodyLength) && a.bodySha256 == Some(r.bodySha256)
    ensures EvidenceFault(a, response) == Some(HashMismatch) <==>
            response.Some? && (response.value.bodyLength != |response.value.body| || response.value.bodySha256 != Sha256(response.value.body))
    ensures EvidenceFault(a, response).Some? ==> EvidenceFault(a, response).value in {HashMismatch, InvalidInput}
  {
  }

  /** One attempt is published exactly when it is this plan's, has a positive number and sound evidence, storage keeps it, and a
      2xx body does not escape the parser. */
  lemma PublishIff(reader: Reader, symbol: Text, fingerprint: Text, stored: Answer, a: AttemptRecord, response: Option<BrokerResponse>)
    ensures PublishAttempt(reader, symbol, fingerprint, stored, a, response).Ok? <==>
            a.plannedFingerprint == fingerprint && a.attemptNumber > 0 && EvidenceFault(a, response).None? && stored.Kept? &&
            (response.Some? && Success2xx(response.value.providerHttpStatus) && ParseBody(reader, symbol, response.value).Err? ==>
              Candles.ParseError(ParseBody(reader, symbol, response.value).error))
    ensures PublishAttempt(reader, symbol, fingerprint, stored, a, response) == Err(StorageFailed) ==> stored.NotKept?
    ensures PublishAttempt(reader, symbol, fingerprint, stored, a, response) == Err(ParseEscaped) ==>
              response.Some? && Success2xx(response.value.providerHttpStatus) && ParseBody(reader, symbol, response.value).Err? &&
              !Candles.ParseError(ParseBody(reader, symbol, response.value).error)
  {
    EvidenceIff(a, response);
    hide EvidenceFault, ParseBody, Verdict, Success2xx, Candles.ParseError;
  }

  /** A result of another plan, or one with responses for attempts that were never made, is refused as invalid input. */
  lemma ForeignResultRefused(reader: Reader, symbol: Text, fingerprint: Text, storage: int -> Answer, b: BudgetedResult,
                             responses: map<int, Option<BrokerResponse>>)
    requires b.fingerprint != fingerprint || exists n :: n in responses && forall i :: 0 <= i < |b.history| ==> b.history[i].attemptNumber != n
    ensures Published(reader, symbol, fingerprint, storage, b, responses) == Err(InvalidInput)
  {
    hide PublishFirst;
  }

  /* ---------- from resolution on ---------- */

  /** Before the run: no instrument is RESOLUTION_FAILURE, a plan refused with planning's own error PLANNING_FAILURE, a missing
      budget, policy or broker MISSING_EXECUTION_DEPENDENCY, each of them exactly; and everything else is the run's status. */
  lemma RunStatusIs(reader: Reader, plan: Option<Planning.Plan>, planningId: Option<Text>, ready: bool,
                    p: RetryPolicy, e: Surroundings, storage: int -> Answer)
    requires plan.Some? ==> Planning.WellFormed(plan.value)
    requires ValidPolicy(p) && WellTypedBroker(e)
    ensures var r := RunAdapter(reader, plan, planningId, ready, p, e, storage);
            (r.Some? && r.value.status.ResolutionFailure? <==> plan.None?) &&
            (r.Some? && r.value.status.PlanningFailure? <==>
              plan.Some? && Planning.PlanHistoricalCandles(plan.value, planningId).Err? && !Planning.Escapes(plan.value)) &&
            (r.Some? && r.value.status.MissingExecutionDependency? <==>
              plan.Some? && Planning.PlanHistoricalCandles(plan.value, planningId).Ok? && !ready) &&
            (plan.Some? && Planning.PlanHistoricalCandles(plan.value, planningId).Ok? && ready ==>
              r == Execute(reader, plan.value.workItem.symbol, Planning.PlanHistoricalCandles(plan.value, planningId).value, p, e, storage))
  {
    hide Planning.PlanHistoricalCandles, Execute, ValidPolicy, WellTypedBroker, Planning.WellFormed, Planning.Escapes, Planning.Uncaught;
    if plan.Some? { Planning.EscapesIff(plan.value, planningId); }
    if plan.Some? && ready {
      match Planning.PlanHistoricalCandles(plan.value, planningId)
      case Ok(planned) => ExecuteStatus(reader, plan.value.workItem.symbol, planned, p, e, storage);
      case Err(_) =>
    }
  }

  lemma ExecuteStatus(reader: Reader, symbol: Text, planned: Planned, p: RetryPolicy, e: Surroundings, storage: int -> Answer)
    requires ValidPolicy(p) && WellTypedBroker(e)
    ensures var r := Execute(reader, symbol, planned, p, e, storage);
            r.Some? && !r.value.status.ResolutionFailure? && !r.value.status.PlanningFailure? && !r.value.status.MissingExecutionDependency?
  {
    hide AdapterRun, Publications, Finished, ValidPolicy, WellTypedBroker, Published;
    StatusIs(reader, symbol, planned, p, e, storage);
    ExecuteCases(reader, symbol, planned, p, e, storage);
    if AllPublished(reader, symbol, planned, p, e, storage) { FitsLate(reader, symbol, AdapterRun(planned, p, e).result, Execute(reader, symbol, planned, p, e, storage).value); }
    hide Execute, StatusFits;
  }

  lemma FitsLate(reader: Reader, symbol: Text, b: BudgetedResult, r: AdapterResult)
    requires b.history != [] && StatusFits(reader, symbol, b, r)
    ensures !r.status.ResolutionFailure? && !r.status.PlanningFailure? && !r.status.MissingExecutionDependency?
  {
    hide ParseBody, ResultCarries, Spaced, Approved, Reauthenticates;
  }
}
