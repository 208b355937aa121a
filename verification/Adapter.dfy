/** The adapter above the retry loop: publication of every observed attempt, the final status, and the review flag. */
module Adapter {
  import opened Basics
  import opened Calendar
  import opened Protocol
  import opened Retry
  import opened RetryDelay
  import Bars
  import Candles
  import Validator
  import Planning
  import Bundles
  import Storage

  /* ---------- publishing one attempt ---------- */

  // How bodies are decoded and read; any `json.loads`, number and timestamp reader.
  datatype Reader = Reader(payloadOf: Bytes -> Candles.Payload, lex: Candles.Lexicon)

  datatype ParserOutcome = NotAttempted | ParseSuccess | ParseFailure

  datatype ValidationOutcome = ValidationNotAttempted | NotRun | Valid | Invalid(code: Validator.ErrorCode)

  datatype Publication = Publication(
    attemptNumber: int, parser: ParserOutcome, validation: ValidationOutcome, stored: Storage.Publication, reviewRequired: bool)

  // What the storage writer answers for one attempt.
  datatype Answer = Kept(publication: Storage.Publication) | NotKept

  datatype PublicationFault = InvalidInput | HashMismatch | ParseEscaped | StorageFailed

  function ParseBody(reader: Reader, symbol: Text, r: BrokerResponse): Result<Candles.Parsed, Candles.ParseFault> {
    Candles.Parse(reader.lex, reader.payloadOf(r.body), symbol)
  }

  function Verdict(parsed: Candles.Parsed): Option<Validator.ErrorCode> { Validator.CodeOf(Validator.Elements(parsed.bars)) }

  // `_expected_files`: the two outcomes recorded for an attempt.
  function Outcomes(reader: Reader, symbol: Text, response: Option<BrokerResponse>): Result<(ParserOutcome, ValidationOutcome), PublicationFault> {
    if response.None? || !Success2xx(response.value.providerHttpStatus) then Ok((NotAttempted, ValidationNotAttempted))
    else
      match ParseBody(reader, symbol, response.value)
      case Err(f) => if Candles.ParseError(f) then Ok((ParseFailure, NotRun)) else Err(ParseEscaped)
      case Ok(parsed) =>
        (match Verdict(parsed)
         case None => Ok((ParseSuccess, Valid))
         case Some(code) => Ok((ParseSuccess, Invalid(code))))
  }

  // `_validate_response_evidence`.
  function EvidenceFault(a: AttemptRecord, response: Option<BrokerResponse>): Option<PublicationFault> {
    var claims := a.bodyLength.Some? || a.bodySha256.Some?;
    match response
    case None => if claims then Some(InvalidInput) else None
    case Some(r) =>
      if r.bodyLength != |r.body| || r.bodySha256 != Sha256(r.body) then Some(HashMismatch)
      else if r.requestId != a.requestId || !claims then Some(InvalidInput)
      else if Some(r.brokerRequestId) != a.brokerRequestId || Some(r.bodyLength) != a.bodyLength ||
              Some(r.bodySha256) != a.bodySha256 || r.providerHttpStatus != a.providerHttpStatus ||
              Some(r.transportStatus) != a.transportStatus then Some(InvalidInput)
      else None
  }

  // What `publish_attempt_artifact` does before it touches storage: the input checks, then the files.
  function CheckAttempt(reader: Reader, symbol: Text, fingerprint: Text, a: AttemptRecord, response: Option<BrokerResponse>)
    : Result<(ParserOutcome, ValidationOutcome), PublicationFault> {
    if a.plannedFingerprint != fingerprint || a.attemptNumber <= 0 then Err(InvalidInput)
    else if EvidenceFault(a, response).Some? then Err(EvidenceFault(a, response).value)
    else Outcomes(reader, symbol, response)
  }

  function PublicationOf(a: AttemptRecord, outcomes: (ParserOutcome, ValidationOutcome), stored: Storage.Publication): Publication {
    Publication(a.attemptNumber, outcomes.0, outcomes.1, stored,
                outcomes.0.ParseFailure? || !(outcomes.1.Valid? || outcomes.1.ValidationNotAttempted?))
  }

  // `publish_attempt_artifact`, given what storage answers.
  function PublishAttempt(reader: Reader, symbol: Text, fingerprint: Text, stored: Answer,
                          a: AttemptRecord, response: Option<BrokerResponse>): Result<Publication, PublicationFault> {
    match CheckAttempt(reader, symbol, fingerprint, a, response)
    case Err(f) => Err(f)
    case Ok(outcomes) => if stored.NotKept? then Err(StorageFailed) else Ok(PublicationOf(a, outcomes, stored.publication))
  }

  /* ---------- publishing a run ---------- */

  // The observer's dict.
  function ObservedMap(observed: seq<(AttemptRecord, Option<BrokerResponse>)>): map<int, Option<BrokerResponse>> {
    if observed == [] then map[]
    else ObservedMap(observed[..|observed| - 1])[observed[|observed| - 1].0.attemptNumber := observed[|observed| - 1].1]
  }

  function Response(responses: map<int, Option<BrokerResponse>>, a: AttemptRecord): Option<BrokerResponse> {
    if a.attemptNumber in responses then responses[a.attemptNumber] else None
  }

  // The first n attempts, in order, or the first error among them.
  function PublishFirst(reader: Reader, symbol: Text, fingerprint: Text, storage: int -> Answer,
                        history: seq<AttemptRecord>, responses: map<int, Option<BrokerResponse>>, n: int): Result<seq<Publication>, PublicationFault>
    requires 0 <= n <= |history|
  {
    if n == 0 then Ok([])
    else
      match PublishFirst(reader, symbol, fingerprint, storage, history, responses, n - 1)
      case Err(f) => Err(f)
      case Ok(done) =>
        (match PublishAttempt(reader, symbol, fingerprint, storage(n - 1), history[n - 1], Response(responses, history[n - 1]))
         case Err(f) => Err(f)
         case Ok(p) => Ok(done + [p]))
  }

  predicate KnownNumbers(history: seq<AttemptRecord>, responses: map<int, Option<BrokerResponse>>) {
    forall n :: n in responses ==> exists i :: 0 <= i < |history| && history[i].attemptNumber == n
  }

  function Published(reader: Reader, symbol: Text, fingerprint: Text, storage: int -> Answer,
                     b: BudgetedResult, responses: map<int, Option<BrokerResponse>>): Result<seq<Publication>, PublicationFault> {
    if b.fingerprint != fingerprint || !KnownNumbers(b.history, responses) then Err(InvalidInput)
    else PublishFirst(reader, symbol, fingerprint, storage, b.history, responses, |b.history|)
  }

  /* ---------- the attempts' directories ---------- */

  // The files `_expected_files` makes for an attempt: names and bytes, whatever they are.
  type Bundler = (AttemptRecord, Option<BrokerResponse>) -> seq<Bundles.File>

  ghost predicate GoodBundler(filesOf: Bundler) {
    forall a, r :: filesOf(a, r) != [] && Bundles.ValidFiles(filesOf(a, r))
  }

  // One attempt's directory before publication.
  datatype Place = Place(target: Option<Bundles.Dir>, lock: bool)

  function FilesAt(filesOf: Bundler, b: BudgetedResult, responses: map<int, Option<BrokerResponse>>, i: int): seq<Bundles.File>
    requires 0 <= i < |b.history|
  {
    filesOf(b.history[i], Response(responses, b.history[i]))
  }

  function AnswerOf(files: seq<Bundles.File>, place: Place, fails: Storage.Stage -> bool): Answer {
    match Storage.PublishOutcome(files, fails, place.target, place.lock)
    case Ok(p) => Kept(p)
    case Err(_) => NotKept
  }

  // Storage as it answers over those directories, by position in the history.
  function StorageOver(filesOf: Bundler, b: BudgetedResult, responses: map<int, Option<BrokerResponse>>,
                       places: seq<Place>, fails: int -> (Storage.Stage -> bool)): int -> Answer {
    i => if 0 <= i < |b.history| && i < |places| then AnswerOf(FilesAt(filesOf, b, responses, i), places[i], fails(i)) else NotKept
  }

  // A directory after publication: the attempt's own bundle, or untouched.
  predicate DirectoryOf(place: Place, target: Option<Bundles.Dir>, files: seq<Bundles.File>) {
    target == place.target || (place.target.None? && target == Some(Bundles.Bundle(files)))
  }

  // One directory and its publication, once both exist.
  predicate Settled(place: Place, target: Option<Bundles.Dir>, p: Publication, files: seq<Bundles.File>) {
    DirectoryOf(place, target, files) && target == Some(Bundles.Bundle(files)) &&
    p.stored.manifestSha256 == Bundles.Hash(Bundles.Manifest(files))
  }

  /** `publish_attempt_artifact` on one directory. */
  method PublishOne(reader: Reader, symbol: Text, fingerprint: Text, a: AttemptRecord, response: Option<BrokerResponse>,
                    files: seq<Bundles.File>, dir: Storage.Parent, ghost place: Place, fails: Storage.Stage -> bool)
    returns (r: Result<Publication, PublicationFault>)
    requires files != [] && Bundles.ValidFiles(files) && dir.staging == None && place == Place(dir.target, dir.lock)
    modifies dir
    ensures dir.staging == None && dir.lock == place.lock && DirectoryOf(place, dir.target, files)
    ensures r == PublishAttempt(reader, symbol, fingerprint, AnswerOf(files, place, fails), a, response)
    ensures r.Ok? ==> Settled(place, dir.target, r.value, files)
  {
    hide CheckAttempt, Storage.PublishOutcome, Bundles.Bundle, Bundles.Manifest, Bundles.Hash, Bundles.ValidFiles, Storage.WriteOutcome;
    var checked := CheckAttempt(reader, symbol, fingerprint, a, response);
    if checked.Err? { return Err(checked.error); }
    var stored := dir.PublishAttempt(files, fails);
    if stored.Err? { return Err(StorageFailed); }
    return Ok(PublicationOf(a, checked.value, stored.value));
  }

  /** `publish_budgeted_result` over the attempts' directories: the loop computes `Published`; a result means that every
      attempt's directory is that attempt's complete bundle, and every publication carries its manifest's hash; whatever
      happens, no directory holds anything but what it held or its own attempt's bundle. */
  method PublishBudgetedResult(reader: Reader, symbol: Text, fingerprint: Text, filesOf: Bundler, b: BudgetedResult,
                               responses: map<int, Option<BrokerResponse>>, dirs: seq<Storage.Parent>,
                               ghost places: seq<Place>, fails: int -> (Storage.Stage -> bool))
    returns (r: Result<seq<Publication>, PublicationFault>)
    requires GoodBundler(filesOf) && |dirs| == |places| == |b.history|
    requires forall i, j :: 0 <= i < j < |dirs| ==> dirs[i] != dirs[j]
    requires forall i :: 0 <= i < |dirs| ==> dirs[i].staging == None && places[i] == Place(dirs[i].target, dirs[i].lock)
    modifies dirs
    ensures r == Published(reader, symbol, fingerprint, StorageOver(filesOf, b, responses, places, fails), b, responses)
    ensures forall i :: 0 <= i < |dirs| ==>
              dirs[i].staging == None && dirs[i].lock == places[i].lock &&
              DirectoryOf(places[i], dirs[i].target, FilesAt(filesOf, b, responses, i))
    ensures r.Ok? ==> |r.value| == |dirs|
    ensures r.Ok? ==> forall i :: 0 <= i < |dirs| ==>
                dirs[i].target == Some(Bundles.Bundle(FilesAt(filesOf, b, responses, i))) &&
                r.value[i].stored.manifestSha256 == Bundles.Hash(Bundles.Manifest(FilesAt(filesOf, b, responses, i)))
  {
    hide *;
    ghost var storage := StorageOver(filesOf, b, responses, places, fails);
    forall i | 0 <= i < |dirs| ensures DirectoryOf(places[i], dirs[i].target, FilesAt(filesOf, b, responses, i)) {
      Untouched(places[i], FilesAt(filesOf, b, responses, i));
    }
    PublishedStarts(reader, symbol, fingerprint, storage, b, responses);
    if b.fingerprint != fingerprint || !KnownNumbers(b.history, responses) { return Err(InvalidInput); }
    var results: seq<Publication> := [];
    for i := 0 to |b.history|
      invariant PublishFirst(reader, symbol, fingerprint, storage, b.history, responses, i) == Ok(results) && |results| == i
      invariant forall j :: 0 <= j < |dirs| ==> dirs[j].staging == None && dirs[j].lock == places[j].lock
      invariant forall j :: i <= j < |dirs| ==> dirs[j].target == places[j].target
      invariant forall j :: 0 <= j < |dirs| ==> DirectoryOf(places[j], dirs[j].target, FilesAt(filesOf, b, responses, j))
      invariant forall j :: 0 <= j < i ==> Settled(places[j], dirs[j].target, results[j], FilesAt(filesOf, b, responses, j))
    {
      var a := b.history[i];
      var response := Response(responses, a);
      var files := FilesAt(filesOf, b, responses, i);
      BundlerGood(filesOf, b, responses, i);
      var one := PublishOne(reader, symbol, fingerprint, a, response, files, dirs[i], places[i], fails(i));
      NextPublication(reader, symbol, fingerprint, filesOf, b, responses, places, fails, results, i);
      if one.Err? { return Err(one.error); }
      results := results + [one.value];
    }
    SettledMeans(dirs, places, results, filesOf, b, responses);
    return Ok(results);
  }

  lemma Untouched(place: Place, files: seq<Bundles.File>)
    ensures DirectoryOf(place, place.target, files)
  {
  }

  lemma SettledMeans(dirs: seq<Storage.Parent>, places: seq<Place>, results: seq<Publication>, filesOf: Bundler, b: BudgetedResult,
                     responses: map<int, Option<BrokerResponse>>)
    requires |dirs| == |places| == |b.history| == |results|
    requires forall j :: 0 <= j < |dirs| ==> Settled(places[j], dirs[j].target, results[j], FilesAt(filesOf, b, responses, j))
    ensures forall j :: 0 <= j < |dirs| ==>
              dirs[j].target == Some(Bundles.Bundle(FilesAt(filesOf, b, responses, j))) &&
              results[j].stored.manifestSha256 == Bundles.Hash(Bundles.Manifest(FilesAt(filesOf, b, responses, j)))
  {
    hide Bundles.Bundle, Bundles.Manifest, Bundles.Hash, FilesAt, DirectoryOf;
  }

  lemma BundlerGood(filesOf: Bundler, b: BudgetedResult, responses: map<int, Option<BrokerResponse>>, i: int)
    requires GoodBundler(filesOf) && 0 <= i < |b.history|
    ensures FilesAt(filesOf, b, responses, i) != [] && Bundles.ValidFiles(FilesAt(filesOf, b, responses, i))
  {
  }

  lemma PublishedStarts(reader: Reader, symbol: Text, fingerprint: Text, storage: int -> Answer, b: BudgetedResult,
                        responses: map<int, Option<BrokerResponse>>)
    ensures Published(reader, symbol, fingerprint, storage, b, responses) ==
            if b.fingerprint != fingerprint || !KnownNumbers(b.history, responses) then Err(InvalidInput)
            else PublishFirst(reader, symbol, fingerprint, storage, b.history, responses, |b.history|)
    ensures PublishFirst(reader, symbol, fingerprint, storage, b.history, responses, 0) == Ok([])
  {
    hide KnownNumbers, PublishAttempt;
  }

  // One more round of the loop.
  lemma NextPublication(reader: Reader, symbol: Text, fingerprint: Text, filesOf: Bundler, b: BudgetedResult,
                        responses: map<int, Option<BrokerResponse>>, places: seq<Place>, fails: int -> (Storage.Stage -> bool),
                        results: seq<Publication>, i: int)
    requires 0 <= i < |b.history| == |places|
    requires PublishFirst(reader, symbol, fingerprint, StorageOver(filesOf, b, responses, places, fails), b.history, responses, i) == Ok(results)
    ensures var storage := StorageOver(filesOf, b, responses, places, fails);
            match PublishAttempt(reader, symbol, fingerprint, AnswerOf(FilesAt(filesOf, b, responses, i), places[i], fails(i)),
                                 b.history[i], Response(responses, b.history[i]))
            case Ok(p) => PublishFirst(reader, symbol, fingerprint, storage, b.history, responses, i + 1) == Ok(results + [p])
            case Err(f) => PublishFirst(reader, symbol, fingerprint, storage, b.history, responses, |b.history|) == Err(f)
  {
    hide PublishAttempt, AnswerOf, FilesAt, Response;
    var storage := StorageOver(filesOf, b, responses, places, fails);
    assert storage(i) == AnswerOf(FilesAt(filesOf, b, responses, i), places[i], fails(i));
    if PublishFirst(reader, symbol, fingerprint, storage, b.history, responses, i + 1).Err? {
      ErrorStays(reader, symbol, fingerprint, storage, b.history, responses, i + 1, |b.history|);
    }
  }

  lemma {:induction false} ErrorStays(reader: Reader, symbol: Text, fingerprint: Text, storage: int -> Answer,
                                      history: seq<AttemptRecord>, responses: map<int, Option<BrokerResponse>>, n: int, m: int)
    requires 0 <= n <= m <= |history| && PublishFirst(reader, symbol, fingerprint, storage, history, responses, n).Err?
    ensures PublishFirst(reader, symbol, fingerprint, storage, history, responses, m)
         == PublishFirst(reader, symbol, fingerprint, storage, history, responses, n)
    decreases m
  {
    hide PublishAttempt;
    if n < m { ErrorStays(reader, symbol, fingerprint, storage, history, responses, n, m - 1); }
  }

  /* ---------- the adapter ---------- */

  datatype Status =
    | Success | ResolutionFailure | PlanningFailure | BudgetGone | ProviderFailure | RetryLimitExhausted
    | ReauthenticationRequired | MalformedProvider | EmptyResponse | ValidationFailure | ArtifactPublicationFailure
    | BrokerExecutionFailed | MissingFinalResponse | MissingExecutionDependency // the three LOCAL_FAILURE cases

  datatype AdapterResult = AdapterResult(
    status: Status, publications: seq<Publication>, bars: seq<Bars.Bar>, parsed: Option<Candles.Parsed>,
    validation: Option<Option<Validator.ErrorCode>>, reviewRequired: bool)

  function Bare(status: Status): AdapterResult { AdapterResult(status, [], [], None, None, false) }

  predicate AnyReview(publications: seq<Publication>) {
    exists i :: 0 <= i < |publications| && publications[i].reviewRequired
  }

  // `__post_init__` raises nothing.
  predicate Accepted(r: AdapterResult) {
    (r.status.Success? ==> r.bars != [] && r.validation == Some(None)) &&
    (!r.status.Success? ==> r.bars == []) && (r.parsed.None? ==> r.validation.None?)
  }

  // Lines 191-224, after publication.
  function Finished(reader: Reader, symbol: Text, b: BudgetedResult, ps: seq<Publication>): Option<AdapterResult> {
    var base := AdapterResult(Success, ps, [], None, None, AnyReview(ps));
    if b.budgetExhausted then Some(base.(status := BudgetGone))
    else if b.attemptLimitExhausted then Some(base.(status := RetryLimitExhausted))
    else if b.reauthenticationRequired then Some(base.(status := ReauthenticationRequired))
    else if !b.succeeded then Some(base.(status := ProviderFailure))
    else if b.finalResponse.None? then Some(base.(status := MissingFinalResponse))
    else
      match ParseBody(reader, symbol, b.finalResponse.value)
      case Err(f) => if Candles.ParseError(f) then Some(base.(status := MalformedProvider)) else None
      case Ok(parsed) =>
        var done := base.(parsed := Some(parsed), validation := Some(Verdict(parsed)));
        (match Verdict(parsed)
         case None => Some(done.(bars := parsed.bars))
         case Some(code) => Some(done.(status := if code.EmptyBars? then EmptyResponse else ValidationFailure)))
  }

  // The run with the adapter's own observer, which never raises.
  function AdapterRun(planned: Planned, policy: RetryPolicy, e: Surroundings): RunOutcome {
    Run(planned, policy, e.(observerAccepts := n => true))
  }

  function Execute(reader: Reader, symbol: Text, planned: Planned, policy: RetryPolicy, e: Surroundings, storage: int -> Answer): Option<AdapterResult> {
    match AdapterRun(planned, policy, e)
    case Returned(b, observed) =>
      (match Published(reader, symbol, planned.fingerprint, storage, b, ObservedMap(observed))
       case Err(_) => Some(Bare(ArtifactPublicationFailure))
       case Ok(ps) => Finished(reader, symbol, b, ps))
    case _ => Some(Bare(BrokerExecutionFailed))
  }

  /** `ZerodhaHistoricalAdapter.run`; None is an exception that leaves `run`.  `plan` is None when the instrument does
      not resolve, and `ready` says whether budget, policy and broker were given. */
  function RunAdapter(reader: Reader, plan: Option<Planning.Plan>, planningId: Option<Text>, ready: bool,
                      policy: RetryPolicy, e: Surroundings, storage: int -> Answer): Option<AdapterResult>
    requires plan.Some? ==> Planning.WellFormed(plan.value)
  {
    if plan.None? then Some(Bare(ResolutionFailure))
    else
      match Planning.PlanHistoricalCandles(plan.value, planningId)
      case Err(e) => if Planning.Uncaught(e) then None else Some(Bare(PlanningFailure))
      case Ok(planned) =>
        if !ready then Some(Bare(MissingExecutionDependency))
        else Execute(reader, plan.value.workItem.symbol, planned, policy, e, storage)
  }

  /* ---------- what the observer holds ---------- */

  predicate Supported(planned: Planned, o: (AttemptRecord, Option<BrokerResponse>)) {
    o.0.plannedFingerprint == planned.fingerprint && EvidenceFault(o.0, o.1).None? &&
    (o.1.Some? ==> o.1.value.providerHttpStatus == o.0.providerHttpStatus) &&
    (Success2xx(o.0.providerHttpStatus) ==> o.1.Some?)
  }

  predicate AllSupported(planned: Planned, observed: seq<(AttemptRecord, Option<BrokerResponse>)>) {
    forall i :: 0 <= i < |observed| ==> Supported(planned, observed[i])
  }

  lemma ResponseSupported(planned: Planned, n: int, r: BrokerResponse, permitted: bool, delay: Option<int>)
    requires ValidResponse(r)
    ensures Supported(planned, (ResponseRecord(n, r.requestId, planned.fingerprint, r, permitted, delay), Some(r)))
  {
    hide TransportAgrees, CodeAgrees, SessionAgrees, CanonicalUuid, Policy;
  }

  lemma ErrorSupported(planned: Planned, n: int, id: Text, code: BrokerErrorCode, permitted: bool, delay: Option<int>)
    ensures Supported(planned, (ErrorRecord(n, id, planned.fingerprint, code, permitted, delay), None))
  {
  }

  predicate AttemptSupported(planned: Planned, a: Attempt) {
    match a
    case Abort(_) => true
    case OutOfBudget(r) => r.plannedFingerprint == planned.fingerprint && EvidenceFault(r, None).None?
    case Stop(r, response, _, _, _) => Supported(planned, (r, response))
    case Again(r, response, _) => Supported(planned, (r, response))
  }

  lemma EveryAttemptSupported(planned: Planned, p: RetryPolicy, e: Surroundings, n: int, seen: set<Text>)
    requires WellTypedBroker(e)
    ensures AttemptSupported(planned, AttemptOnce(planned, p, e, n, seen))
  {
    hide Supported, BrokerRequest, CanonicalUuid, Decide, Retryable, Policy, ValidResponse, ErrorRecord, ResponseRecord;
    var id := e.ids(n);
    if CanonicalUuid(id) && id !in seen && BrokerRequest(planned, id).Ok? && e.admission(n).Admitted? {
      var q := BrokerRequest(planned, id).value;
      assert WellTyped(e.broker(n, q));
      match e.broker(n, q)
      case Crash =>
      case Fail(code) =>
        var d := Decide(p, e, n, Some(code), None);
        if d.Some? { ErrorSupported(planned, n, id, code, d.value.Some?, d.value); }
      case Respond(r) =>
        var d := Decide(p, e, n, r.errorCode, r.retryAfterSeconds);
        if d.Some? { ResponseSupported(planned, n, r, d.value.Some?, d.value); }
    } else {
      RefusedSupported(planned, n, id);
    }
  }

  lemma RefusedSupported(planned: Planned, n: int, id: Text)
    ensures AttemptSupported(planned, OutOfBudget(RefusedRecord(n, id, planned.fingerprint)))
  {
  }

  // Everything a returned run recorded, observed or refused.
  predicate RunSupported(planned: Planned, o: RunOutcome) {
    o.Returned? ==>
      AllSupported(planned, o.observed) &&
      (o.result.budgetExhausted && o.result.history != [] ==>
        var last := o.result.history[|o.result.history| - 1];
        last.plannedFingerprint == planned.fingerprint && EvidenceFault(last, None).None?)
  }

  lemma EndedSupported(planned: Planned, s: LoopState, a: Attempt)
    requires !a.Again? && AllSupported(planned, s.observed) && AttemptSupported(planned, a)
    ensures RunSupported(planned, Ended(planned, s, a))
  {
    hide Supported, EvidenceFault, ResultAccepted;
  }

  lemma {:induction false} RunFromSupported(planned: Planned, p: RetryPolicy, e: Surroundings, n: int, s: LoopState)
    requires WellTypedBroker(e) && AllSupported(planned, s.observed)
    ensures RunSupported(planned, RunFrom(planned, p, e, n, s))
    decreases p.maximumAttempts - n
  {
    hide Supported, AttemptOnce, WellTypedBroker, Ended, RunSupported;
    if n <= p.maximumAttempts {
      EveryAttemptSupported(planned, p, e, n, s.seen);
      var a := AttemptOnce(planned, p, e, n, s.seen);
      if a.Again? { RunFromSupported(planned, p, e, n + 1, Carry(s, a)); } else { EndedSupported(planned, s, a); }
    } else {
      assert RunSupported(planned, FellThrough) by { NothingRecorded(planned); }
    }
  }

  lemma NothingRecorded(planned: Planned)
    ensures RunSupported(planned, FellThrough)
  {
  }

  lemma {:induction false} ObservedMapHas(observed: seq<(AttemptRecord, Option<BrokerResponse>)>, k: int)
    requires forall i :: 0 <= i < |observed| ==> observed[i].0.attemptNumber == i + 1
    ensures k in ObservedMap(observed) <==> 1 <= k <= |observed|
    ensures 1 <= k <= |observed| ==> ObservedMap(observed)[k] == observed[k - 1].1
  {
    if observed != [] { ObservedMapHas(observed[..|observed| - 1], k); }
  }

  // What the publisher needs to know about a run that returned.
  predicate RunFacts(planned: Planned, p: RetryPolicy, b: BudgetedResult, observed: seq<(AttemptRecord, Option<BrokerResponse>)>) {
    WellFormedHistory(p, b.history) && LastExplains(p, b) && Observed(b, observed) && b.fingerprint == planned.fingerprint &&
    RunSupported(planned, Returned(b, observed))
  }

  lemma AdapterRunFacts(planned: Planned, p: RetryPolicy, e: Surroundings)
    requires ValidPolicy(p) && WellTypedBroker(e) && AdapterRun(planned, p, e).Returned?
    ensures RunFacts(planned, p, AdapterRun(planned, p, e).result, AdapterRun(planned, p, e).observed)
  {
    var f := e.(observerAccepts := n => true);
    assert WellTypedBroker(f) by { assert f.broker == e.broker; hide WellTyped; }
    hide ValidPolicy, WellTypedBroker, RunFrom, RunSupported, WellFormedHistory, LastExplains, Observed;
    RunIsGood(planned, p, f);
    RunFromSupported(planned, p, f, 1, START);
  }

  // The response published with attempt i.
  function ResponseAt(b: BudgetedResult, observed: seq<(AttemptRecord, Option<BrokerResponse>)>, i: int): Option<BrokerResponse>
    requires 0 <= i < |b.history|
  {
    Response(ObservedMap(observed), b.history[i])
  }

  lemma ResponseIs(planned: Planned, p: RetryPolicy, b: BudgetedResult, observed: seq<(AttemptRecord, Option<BrokerResponse>)>, i: int)
    requires RunFacts(planned, p, b, observed) && 0 <= i < |b.history|
    ensures b.history[i].attemptNumber == i + 1
    ensures ResponseAt(b, observed, i) == if i < |observed| then observed[i].1 else None
    ensures i >= |observed| ==> i == |b.history| - 1 && b.budgetExhausted
  {
    hide GoodRecord, LastExplains, RunSupported;
    ObservedMapHas(observed, i + 1);
    hide ObservedMap;
  }

  // The input checks pass for every attempt, and only the last attempt of a succeeded run has a 2xx response.
  lemma AttemptFacts(planned: Planned, p: RetryPolicy, b: BudgetedResult, observed: seq<(AttemptRecord, Option<BrokerResponse>)>, i: int)
    requires RunFacts(planned, p, b, observed) && 0 <= i < |b.history|
    ensures b.history[i].plannedFingerprint == planned.fingerprint && EvidenceFault(b.history[i], ResponseAt(b, observed, i)).None?
    ensures var r := ResponseAt(b, observed, i);
            r.Some? && Success2xx(r.value.providerHttpStatus) ==> i == |b.history| - 1 && b.succeeded && r == b.finalResponse
  {
    ResponseIs(planned, p, b, observed, i);
    hide EvidenceFault, ObservedMap, Policy, Approved, ResponseAt;
    if i < |observed| {
      assert Supported(planned, observed[i]);
      if i < |b.history| - 1 { assert GoodRecord(p, b.history[i]); }
    }
  }

  lemma FinalResponse2xx(planned: Planned, p: RetryPolicy, b: BudgetedResult, observed: seq<(AttemptRecord, Option<BrokerResponse>)>)
    requires RunFacts(planned, p, b, observed) && b.succeeded
    ensures b.finalResponse.Some? && Success2xx(b.finalResponse.value.providerHttpStatus)
    ensures ResponseAt(b, observed, |b.history| - 1) == b.finalResponse
  {
    ResponseIs(planned, p, b, observed, |b.history| - 1);
    hide EvidenceFault, ObservedMap, Policy, Approved, GoodRecord, WellFormedHistory, ResponseAt;
    assert Supported(planned, observed[|observed| - 1]);
  }

  // One attempt, published.
  function PublicationAt(reader: Reader, symbol: Text, planned: Planned, storage: int -> Answer, b: BudgetedResult,
                         observed: seq<(AttemptRecord, Option<BrokerResponse>)>, i: int): Result<Publication, PublicationFault>
    requires 0 <= i < |b.history|
  {
    PublishAttempt(reader, symbol, planned.fingerprint, storage(i), b.history[i], ResponseAt(b, observed, i))
  }

  lemma {:induction false} PublishedEach(reader: Reader, symbol: Text, planned: Planned, storage: int -> Answer, b: BudgetedResult,
                                         observed: seq<(AttemptRecord, Option<BrokerResponse>)>, n: int)
    requires 0 <= n <= |b.history|
    ensures var r := PublishFirst(reader, symbol, planned.fingerprint, storage, b.history, ObservedMap(observed), n);
            (r.Ok? ==> |r.value| == n && forall i :: 0 <= i < n ==> PublicationAt(reader, symbol, planned, storage, b, observed, i) == Ok(r.value[i])) &&
            (r.Err? ==> exists i :: 0 <= i < n && PublicationAt(reader, symbol, planned, storage, b, observed, i) == Err(r.error))
  {
    hide PublishAttempt, ObservedMap, Response;
    if n > 0 {
      PublishedEach(reader, symbol, planned, storage, b, observed, n - 1);
      var last := PublicationAt(reader, symbol, planned, storage, b, observed, n - 1);
      if last.Err? { assert 0 <= n - 1 < n && last == Err(last.error); }
    }
  }

  // Which attempts are flagged for review.
  lemma ReviewAt(reader: Reader, symbol: Text, planned: Planned, p: RetryPolicy, storage: int -> Answer, b: BudgetedResult,
                 observed: seq<(AttemptRecord, Option<BrokerResponse>)>, i: int)
    requires RunFacts(planned, p, b, observed) && 0 <= i < |b.history|
    ensures var r := PublicationAt(reader, symbol, planned, storage, b, observed, i);
            (r.Err? ==> r.error.ParseEscaped? || r.error.StorageFailed?) &&
            (r.Ok? && r.value.reviewRequired ==> i == |b.history| - 1 && b.succeeded)
  {
    ResponseIs(planned, p, b, observed, i);
    AttemptFacts(planned, p, b, observed, i);
    hide RunFacts, ResponseAt, EvidenceFault, ParseBody, Verdict, Success2xx;
  }

  lemma LastReview(reader: Reader, symbol: Text, planned: Planned, p: RetryPolicy, storage: int -> Answer, b: BudgetedResult,
                   observed: seq<(AttemptRecord, Option<BrokerResponse>)>)
    requires RunFacts(planned, p, b, observed) && b.succeeded && b.history != []
    ensures var r := PublicationAt(reader, symbol, planned, storage, b, observed, |b.history| - 1);
            b.finalResponse.Some? &&
            (r.Ok? ==>
              var parsed := ParseBody(reader, symbol, b.finalResponse.value);
              (parsed.Err? ==> Candles.ParseError(parsed.error)) &&
              (r.value.reviewRequired <==> parsed.Err? || Verdict(parsed.value).Some?))
  {
    FinalResponse2xx(planned, p, b, observed);
    hide RunFacts, ResponseAt, EvidenceFault, ParseBody, Verdict, Success2xx, Candles.ParseError;
  }

  lemma KnownNumbersHold(planned: Planned, p: RetryPolicy, b: BudgetedResult, observed: seq<(AttemptRecord, Option<BrokerResponse>)>)
    requires RunFacts(planned, p, b, observed)
    ensures KnownNumbers(b.history, ObservedMap(observed)) && b.history != []
  {
    hide GoodRecord, LastExplains, RunSupported;
    forall n | n in ObservedMap(observed) ensures exists i :: 0 <= i < |b.history| && b.history[i].attemptNumber == n {
      ObservedMapHas(observed, n);
      assert b.history[n - 1].attemptNumber == n;
    }
  }

  /** The evidence a run leaves behind always passes the publisher's input checks: publication of a run can fail only in
      storage, or by an exception of the parser that is not a parse error. */
  lemma EvidenceAlwaysPasses(reader: Reader, symbol: Text, planned: Planned, p: RetryPolicy, e: Surroundings, storage: int -> Answer)
    requires ValidPolicy(p) && WellTypedBroker(e) && AdapterRun(planned, p, e).Returned?
    ensures var o := AdapterRun(planned, p, e);
            var r := Published(reader, symbol, planned.fingerprint, storage, o.result, ObservedMap(o.observed));
            r.Err? ==> r.error.ParseEscaped? || r.error.StorageFailed?
  {
    hide ValidPolicy, WellTypedBroker, AdapterRun, PublishAttempt, ObservedMap, RunFacts, KnownNumbers, PublicationAt, PublishFirst;
    AdapterRunFacts(planned, p, e);
    var b, observed := AdapterRun(planned, p, e).result, AdapterRun(planned, p, e).observed;
    KnownNumbersHold(planned, p, b, observed);
    PublishedEach(reader, symbol, planned, storage, b, observed, |b.history|);
    forall i | 0 <= i < |b.history|
      ensures var r := PublicationAt(reader, symbol, planned, storage, b, observed, i);
              r.Err? ==> r.error.ParseEscaped? || r.error.StorageFailed?
    {
      ReviewAt(reader, symbol, planned, p, storage, b, observed, i);
    }
    FactsFingerprint(planned, p, b, observed);
  }

  lemma FactsFingerprint(planned: Planned, p: RetryPolicy, b: BudgetedResult, observed: seq<(AttemptRecord, Option<BrokerResponse>)>)
    requires RunFacts(planned, p, b, observed)
    ensures b.fingerprint == planned.fingerprint && b.history != []
    ensures b.succeeded ==> !b.budgetExhausted && !b.attemptLimitExhausted && !b.reauthenticationRequired && b.finalResponse.Some?
  {
    hide GoodRecord, RunSupported, Policy, Approved;
  }

  predicate NeedsReview(s: Status) { s.MalformedProvider? || s.EmptyResponse? || s.ValidationFailure? }

  lemma FinishedReview(reader: Reader, symbol: Text, planned: Planned, p: RetryPolicy, storage: int -> Answer, b: BudgetedResult,
                       observed: seq<(AttemptRecord, Option<BrokerResponse>)>, ps: seq<Publication>)
    requires RunFacts(planned, p, b, observed) && |ps| == |b.history|
    requires forall i :: 0 <= i < |ps| ==> PublicationAt(reader, symbol, planned, storage, b, observed, i) == Ok(ps[i])
    ensures var r := Finished(reader, symbol, b, ps);
            r.Some? && (r.value.reviewRequired <==> NeedsReview(r.value.status)) && !r.value.status.MissingFinalResponse? &&
            Accepted(r.value)
  {
    hide *;
    FactsFingerprint(planned, p, b, observed);
    ReviewsAre(reader, symbol, planned, p, storage, b, observed, ps);
    if b.succeeded {
      LastReview(reader, symbol, planned, p, storage, b, observed);
      var parsed := ParseBody(reader, symbol, b.finalResponse.value);
      if parsed.Ok? { AcceptedHasBars(parsed.value); }
    }
    FinishedShape(reader, symbol, b, ps);
  }

  lemma FinishedShape(reader: Reader, symbol: Text, b: BudgetedResult, ps: seq<Publication>)
    requires b.succeeded ==>
               !b.budgetExhausted && !b.attemptLimitExhausted && !b.reauthenticationRequired && b.finalResponse.Some? &&
               var parsed := ParseBody(reader, symbol, b.finalResponse.value);
               (parsed.Err? ==> Candles.ParseError(parsed.error)) &&
               (parsed.Ok? && Verdict(parsed.value).None? ==> parsed.value.bars != []) &&
               (AnyReview(ps) <==> parsed.Err? || Verdict(parsed.value).Some?)
    requires !b.succeeded ==> !AnyReview(ps)
    ensures var r := Finished(reader, symbol, b, ps);
            r.Some? && (r.value.reviewRequired <==> NeedsReview(r.value.status)) && !r.value.status.MissingFinalResponse? &&
            Accepted(r.value)
  {
    hide ParseBody, Verdict, AnyReview, Candles.ParseError;
  }

  // The only publication that can be flagged is the last one of a succeeded run.
  lemma ReviewsAre(reader: Reader, symbol: Text, planned: Planned, p: RetryPolicy, storage: int -> Answer, b: BudgetedResult,
                   observed: seq<(AttemptRecord, Option<BrokerResponse>)>, ps: seq<Publication>)
    requires RunFacts(planned, p, b, observed) && |ps| == |b.history| && b.history != []
    requires forall i :: 0 <= i < |ps| ==> PublicationAt(reader, symbol, planned, storage, b, observed, i) == Ok(ps[i])
    ensures AnyReview(ps) <==> b.succeeded && ps[|ps| - 1].reviewRequired
  {
    hide RunFacts, PublicationAt;
    forall i | 0 <= i < |ps| ensures ps[i].reviewRequired ==> i == |ps| - 1 && b.succeeded {
      ReviewAt(reader, symbol, planned, p, storage, b, observed, i);
    }
  }

  lemma AcceptedHasBars(parsed: Candles.Parsed)
    ensures Verdict(parsed).None? ==> parsed.bars != []
  {
    hide Validator.Count, Validator.CountBack, Validator.Strangers, Validator.BarsIn;
  }

  /** `review_required` is true exactly for a malformed, empty or invalid success response; every result passes its own
      constructor; a succeeded run never lacks its final response; and no exception leaves the adapter after planning. */
  lemma ReviewIff(reader: Reader, symbol: Text, planned: Planned, p: RetryPolicy, e: Surroundings, storage: int -> Answer)
    requires ValidPolicy(p) && WellTypedBroker(e)
    ensures var r := Execute(reader, symbol, planned, p, e, storage);
            r.Some? && (r.value.reviewRequired <==> NeedsReview(r.value.status)) && !r.value.status.MissingFinalResponse? &&
            Accepted(r.value)
  {
    hide ValidPolicy, WellTypedBroker, AdapterRun, PublishAttempt, ObservedMap, RunFacts, KnownNumbers, PublicationAt, PublishFirst, Finished;
    if AdapterRun(planned, p, e).Returned? {
      AdapterRunFacts(planned, p, e);
      var b, observed := AdapterRun(planned, p, e).result, AdapterRun(planned, p, e).observed;
      var r := Published(reader, symbol, planned.fingerprint, storage, b, ObservedMap(observed));
      if r.Ok? {
        PublishedEach(reader, symbol, planned, storage, b, observed, |b.history|);
        FinishedReview(reader, symbol, planned, p, storage, b, observed, r.value);
      }
    }
  }

  /** A successful adapter result carries exactly the bars of its final response, at least a second apart and well priced. */
  lemma SuccessCarriesValidBars(reader: Reader, symbol: Text, planned: Planned, p: RetryPolicy, e: Surroundings, storage: int -> Answer)
    requires ValidPolicy(p) && WellTypedBroker(e)
    requires Execute(reader, symbol, planned, p, e, storage).Some? && Execute(reader, symbol, planned, p, e, storage).value.status.Success?
    ensures var r := Execute(reader, symbol, planned, p, e, storage).value;
            AdapterRun(planned, p, e).Returned? && AdapterRun(planned, p, e).result.finalResponse.Some? &&
            r.parsed.Some? && ParseBody(reader, symbol, AdapterRun(planned, p, e).result.finalResponse.value) == Ok(r.parsed.value) &&
            r.bars == r.parsed.value.bars && r.bars != [] && Candles.ParserBars(r.bars) &&
            forall i :: 0 < i < |r.bars| ==> Bars.Gap(r.bars, i) >= MICROS
  {
    hide AdapterRun, ObservedMap, Published, ParseBody, Candles.ParserBars, Verdict;
    var r := Execute(reader, symbol, planned, p, e, storage).value;
    var b := AdapterRun(planned, p, e).result;
    var parsed := ParseBody(reader, symbol, b.finalResponse.value).value;
    assert r.parsed == Some(parsed) && r.bars == parsed.bars && Verdict(parsed).None?;
    BodyBars(reader, symbol, b.finalResponse.value);
    VerdictBars(parsed);
  }

  lemma BodyBars(reader: Reader, symbol: Text, r: BrokerResponse)
    requires ParseBody(reader, symbol, r).Ok?
    ensures Candles.ParserBars(ParseBody(reader, symbol, r).value.bars)
  {
    hide Candles.ParseRows, Candles.ParserBars;
    Candles.ParsedBars(reader.lex, symbol, Candles.RowsOf(reader.payloadOf(r.body)).value);
  }

  lemma VerdictBars(parsed: Candles.Parsed)
    requires Candles.ParserBars(parsed.bars) && Verdict(parsed).None?
    ensures parsed.bars != [] && forall i :: 0 < i < |parsed.bars| ==> Bars.Gap(parsed.bars, i) >= MICROS
  {
    hide Validator.CodeOf, Candles.ParserBars;
    Validator.ParsedVerdict(parsed.bars);
  }

  /** An exception leaves `run` exactly for a plan that escapes planning's own errors: a token of more than 4300 digits, a
      window that leaves the calendar in IST, or a strike the context overflows on.  Otherwise the review flag is as above. */
  lemma AdapterReviewIff(reader: Reader, plan: Option<Planning.Plan>, planningId: Option<Text>, ready: bool,
                         p: RetryPolicy, e: Surroundings, storage: int -> Answer)
    requires plan.Some? ==> Planning.WellFormed(plan.value)
    requires ValidPolicy(p) && WellTypedBroker(e)
    ensures var r := RunAdapter(reader, plan, planningId, ready, p, e, storage);
            (r.None? <==> plan.Some? && Planning.Escapes(plan.value)) &&
            (r.Some? ==> (r.value.reviewRequired <==> NeedsReview(r.value.status)) && Accepted(r.value))
  {
    hide Planning.PlanHistoricalCandles, Execute, ValidPolicy, WellTypedBroker, Planning.WellFormed, Planning.Escapes, Planning.Uncaught;
    if plan.Some? { Planning.EscapesIff(plan.value, planningId); }
    if plan.Some? && ready {
      match Planning.PlanHistoricalCandles(plan.value, planningId)
      case Ok(planned) => ReviewIff(reader, plan.value.workItem.symbol, planned, p, e, storage);
      case Err(_) =>
    }
  }
}
