/** `execute_single_work_item` and `execute_batch` on a live ledger and a scripted downloader. */
module Batch {
  import opened Basics
  import opened Ledger

  // What `ingest` does: report success, report failure, raise, or be interrupted.
  datatype Ingestion = Reported(success: bool) | Raised | Interrupted

  /** The source adapter: an arbitrary script, and a log of the keys it was asked for. */
  class Downloader {
    const script: (Key, nat) -> Ingestion
    var calls: seq<Key>

    constructor (script: (Key, nat) -> Ingestion)
      ensures this.script == script && calls == []
    {
      this.script, calls := script, [];
    }

    method Ingest(key: Key) returns (r: Ingestion)
      modifies this
      ensures calls == old(calls) + [key] && r == script(key, |old(calls)|)
    {
      r := script(key, |calls|);
      calls := calls + [key];
    }
  }

  datatype Status = Done | Failed | WasInterrupted | Blocked

  datatype Result = Result(status: Status, key: Key, claim: ClaimStatus)

  // What one execution does to the ledger and the log, as values.
  function EndingOf(r: Ingestion): Ending {
    match r
    case Reported(success) => if success then Success else Failure
    case Raised => Failure
    case Interrupted => Interruption
  }

  function StatusOf(e: Ending): Status {
    match e
    case Success => Done
    case Failure => Failed
    case Interruption => WasInterrupted
  }

  // Every key ever ingested has left PLANNED, and none was ingested twice.
  ghost predicate IngestedOnce(t: Tables, calls: seq<Key>) {
    (forall i :: 0 <= i < |calls| ==> calls[i] in t.items && !t.items[calls[i]].state.Planned?) &&
    (forall i, j :: 0 <= i < j < |calls| ==> calls[i] != calls[j])
  }

  // Nothing but `key` changed, and it ended as `e`.
  ghost predicate Settled(before: Tables, after: Tables, key: Key, e: Ending) {
    key in before.items && before.items[key].state.Planned? &&
    after.items == before.items[key := before.items[key].(state := ItemEnd(e))] &&
    (exists a :: a !in before.attempts && a in after.attempts && after.attempts[a].key == key &&
      after.attempts[a].state == AttemptEnd(e) && after.attempts.Keys == before.attempts.Keys + {a}) &&
    (forall a :: a in before.attempts ==> a in after.attempts && after.attempts[a] == before.attempts[a])
  }

  // The attempt, its item and the answer are what this ingestion calls for.
  predicate EndsAs(t: Tables, key: Key, a: AttemptId, r: Ingestion, status: Status) {
    key in t.items && a in t.attempts && t.attempts[a].key == key &&
    match r
    case Reported(true) => status.Done? && t.items[key].state.Succeeded? && t.attempts[a].state.AttemptSucceeded?
    case Reported(false) => status.Failed? && t.items[key].state.ReviewRequired? && t.attempts[a].state.AttemptFailed?
    case Raised => status.Failed? && t.items[key].state.ReviewRequired? && t.attempts[a].state.AttemptFailed?
    case Interrupted => status.WasInterrupted? && t.items[key].state.ReviewRequired? && t.attempts[a].state.AttemptInterrupted?
  }

  // A planned item of `before` has, in `after`, ended as this ingestion calls for, with one new attempt.
  ghost predicate Told(before: Tables, after: Tables, key: Key, r: Ingestion, status: Status) {
    key in before.items && before.items[key].state.Planned? && exists a :: a !in before.attempts && EndsAs(after, key, a, r, status)
  }

  lemma SettledTold(before: Tables, after: Tables, key: Key, r: Ingestion)
    requires Settled(before, after, key, EndingOf(r))
    ensures Told(before, after, key, r, StatusOf(EndingOf(r)))
  {
    var a :| a !in before.attempts && a in after.attempts && after.attempts[a].key == key &&
             after.attempts[a].state == AttemptEnd(EndingOf(r)) && after.attempts.Keys == before.attempts.Keys + {a};
    assert EndsAs(after, key, a, r, StatusOf(EndingOf(r)));
  }

  /** Claim, ingest and complete one item; or change nothing when it cannot be claimed. */
  method ExecuteSingle(ledger: StateLedger, downloader: Downloader, key: Key, owner: Text) returns (r: Result)
    requires ledger.Valid()
    modifies ledger, downloader
    ensures ledger.Valid() && r.key == key
    ensures r.claim == ClaimStatusOf(old(ledger.State()), key)
    ensures !r.claim.ClaimGranted? ==>
              r.status.Blocked? && ledger.State() == old(ledger.State()) && downloader.calls == old(downloader.calls)
    ensures r.claim.ClaimGranted? ==>
              var e := EndingOf(downloader.script(key, |old(downloader.calls)|));
              r.status == StatusOf(e) && downloader.calls == old(downloader.calls) + [key] &&
              Settled(old(ledger.State()), ledger.State(), key, e)
    ensures r.claim.ClaimGranted? <==> key in old(ledger.items) && old(ledger.items)[key].state.Planned?
    ensures r.claim.ClaimGranted? ==>
              Told(old(ledger.State()), ledger.State(), key, downloader.script(key, |old(downloader.calls)|), r.status)
    ensures r.status.Done? <==> r.claim.ClaimGranted? && downloader.script(key, |old(downloader.calls)|) == Reported(true)
    ensures r.status.Failed? <==> r.claim.ClaimGranted? && downloader.script(key, |old(downloader.calls)|) in {Reported(false), Raised}
    ensures r.status.WasInterrupted? <==> r.claim.ClaimGranted? && downloader.script(key, |old(downloader.calls)|).Interrupted?
    ensures IngestedOnce(old(ledger.State()), old(downloader.calls)) ==> IngestedOnce(ledger.State(), downloader.calls)
  {
    hide OneAttemptEach;
    ghost var before := ledger.State();
    var claim, id := ledger.ClaimWorkItem(key, owner);
    if !claim.ClaimGranted? { return Result(Blocked, key, claim); }
    ghost var claimed := ledger.State();
    var ingestion := downloader.Ingest(key);
    var e := EndingOf(ingestion);
    var ok := ledger.Complete(id, e);
    SettledByCompletion(before, claimed, key, owner, id, e);
    SettledTold(before, ledger.State(), key, ingestion);
    return Result(StatusOf(e), key, claim);
  }

  lemma SettledByCompletion(before: Tables, claimed: Tables, key: Key, owner: Text, id: AttemptId, e: Ending)
    requires ClaimStatusOf(before, key).ClaimGranted? && id !in before.attempts && claimed == ClaimCommit(before, key, owner, id)
    ensures id in claimed.attempts && claimed.attempts[id].state.InProgress? && claimed.attempts[id].key == key
    ensures Settled(before, UpdateItem(UpdateAttempt(claimed, id, e), key, e), key, e)
  {
    var after := UpdateItem(UpdateAttempt(claimed, id, e), key, e);
    assert after.attempts[id].key == key && after.attempts.Keys == before.attempts.Keys + {id};
    assert after.items == before.items[key := before.items[key].(state := ItemEnd(e))];
  }

  datatype Summary = Summary(
    results: seq<Result>, succeeded: nat, failed: nat, interrupted: nat, blocked: nat, maxItemsReached: bool, stopped: bool)

  function Count(results: seq<Result>, status: Status): nat {
    if results == [] then 0
    else Count(results[..|results| - 1], status) + (if results[|results| - 1].status == status then 1 else 0)
  }

  predicate Stopping(r: Result) { r.status.Failed? || r.status.WasInterrupted? }

  lemma {:induction false} CountsAddUp(results: seq<Result>)
    ensures Count(results, Done) + Count(results, Failed) + Count(results, WasInterrupted) + Count(results, Blocked) == |results|
  {
    if results != [] { CountsAddUp(results[..|results| - 1]); }
  }

  // The places of the results with this status.
  function Places(results: seq<Result>, status: Status): set<int> { set k | 0 <= k < |results| && results[k].status == status }

  lemma {:induction false} CountIs(results: seq<Result>, status: Status)
    ensures Count(results, status) == |Places(results, status)|
  {
    if results != [] {
      var front := results[..|results| - 1];
      CountIs(front, status);
      var last := |results| - 1;
      if results[last].status == status {
        assert Places(results, status) == Places(front, status) + {last};
      } else {
        assert Places(results, status) == Places(front, status);
      }
    }
  }

  predicate GoodKeys(keys: seq<Key>) {
    (forall i :: 0 <= i < |keys| ==> keys[i] != []) && forall i, j :: 0 <= i < j < |keys| ==> keys[i] != keys[j]
  }

  ghost predicate SameItem(before: Tables, after: Tables, k: Key) {
    (k in after.items <==> k in before.items) && (k in after.items ==> after.items[k] == before.items[k])
  }

  // Only items of the keys attempted so far may have changed.
  ghost predicate UntouchedOutside(before: Tables, after: Tables, keys: seq<Key>) {
    forall k :: k !in keys ==> SameItem(before, after, k)
  }

  // Each result answers its key, with the claim the initial ledger called for.
  ghost predicate Answers(before: Tables, keys: seq<Key>, results: seq<Result>)
    requires |results| <= |keys|
  {
    forall i :: 0 <= i < |results| ==>
      results[i].key == keys[i] && results[i].claim == ClaimStatusOf(before, keys[i]) &&
      (results[i].status.Blocked? <==> !results[i].claim.ClaimGranted?)
  }

  // Where the batch stands: stopped at its first failure, or not yet.
  predicate StopsAtFailure(stopOnFailure: bool, results: seq<Result>, stopped: bool) {
    (stopped <==> stopOnFailure && results != [] && results[|results| - 1].status in {Failed, WasInterrupted}) &&
    (stopOnFailure ==> forall i :: 0 <= i < |results| - 1 ==> results[i].status in {Done, Blocked})
  }

  // The keys that were ingested, in order.
  function Ingested(results: seq<Result>): seq<Key> {
    if results == [] then []
    else
      var last := results[|results| - 1];
      Ingested(results[..|results| - 1]) + if last.claim.ClaimGranted? then [last.key] else []
  }

  // Result k tells its own ingestion, the one after those of the results before it; a key that was not claimed is as it was.
  ghost predicate ResultTold(script: (Key, nat) -> Ingestion, earlier: nat, before: Tables, after: Tables, results: seq<Result>, k: nat)
    requires k < |results|
  {
    if results[k].claim.ClaimGranted? then
      Told(before, after, results[k].key, script(results[k].key, earlier + |Ingested(results[..k])|), results[k].status)
    else SameItem(before, after, results[k].key)
  }

  ghost predicate AllTold(script: (Key, nat) -> Ingestion, earlier: nat, before: Tables, after: Tables, results: seq<Result>) {
    forall k :: 0 <= k < |results| ==> ResultTold(script, earlier, before, after, results, k)
  }

  // Everything but one key's item is kept, and attempts are only added.
  ghost predicate OnlyAdds(now: Tables, after: Tables, key: Key) {
    (forall k :: k != key ==> SameItem(now, after, k)) &&
    forall a :: a in now.attempts ==> a in after.attempts && after.attempts[a] == now.attempts[a]
  }

  lemma ToldLater(before: Tables, now: Tables, after: Tables, key: Key, other: Key, r: Ingestion, status: Status)
    requires Told(before, now, key, r, status) && OnlyAdds(now, after, other) && key != other
    ensures Told(before, after, key, r, status)
  {
    var a :| a !in before.attempts && EndsAs(now, key, a, r, status);
    assert SameItem(now, after, key);
    assert EndsAs(after, key, a, r, status);
  }

  lemma ToldEarlier(before: Tables, now: Tables, after: Tables, key: Key, r: Ingestion, status: Status)
    requires Told(now, after, key, r, status) && SameItem(before, now, key) && forall a :: a in before.attempts ==> a in now.attempts
    ensures Told(before, after, key, r, status)
  {
    hide EndsAs;
  }

  lemma IngestedOneMore(results: seq<Result>, r: Result)
    ensures Ingested(results + [r]) == Ingested(results) + if r.claim.ClaimGranted? then [r.key] else []
    ensures forall k :: 0 <= k <= |results| ==> (results + [r])[..k] == results[..k]
  {
    assert (results + [r])[..|results|] == results;
  }

  lemma OneMoreTold(script: (Key, nat) -> Ingestion, earlier: nat, before: Tables, now: Tables, after: Tables, keys: seq<Key>, i: nat,
                    results: seq<Result>, r: Result)
    requires GoodKeys(keys) && |results| == i < |keys| && AllTold(script, earlier, before, now, results)
    requires (forall k :: 0 <= k < i ==> results[k].key == keys[k]) && r.key == keys[i]
    requires SameItem(before, now, r.key) && (forall a :: a in before.attempts ==> a in now.attempts) && OnlyAdds(now, after, r.key)
    requires if r.claim.ClaimGranted? then Told(now, after, r.key, script(r.key, earlier + |Ingested(results)|), r.status)
             else SameItem(now, after, r.key)
    ensures AllTold(script, earlier, before, after, results + [r])
  {
    hide Told, Ingested;
    var more := results + [r];
    IngestedOneMore(results, r);
    forall k | 0 <= k < |more| ensures ResultTold(script, earlier, before, after, more, k) {
      if k < i {
        assert ResultTold(script, earlier, before, now, results, k) && more[k] == results[k] && keys[k] != keys[i];
        assert more[..k] == results[..k];
        if more[k].claim.ClaimGranted? {
          ToldLater(before, now, after, more[k].key, r.key, script(more[k].key, earlier + |Ingested(more[..k])|), more[k].status);
        } else {
          assert SameItem(before, now, more[k].key) && SameItem(now, after, more[k].key);
        }
      } else {
        assert more[..k] == results && results[..k] == results;
        if r.claim.ClaimGranted? {
          ToldEarlier(before, now, after, r.key, script(r.key, earlier + |Ingested(results)|), r.status);
        }
      }
    }
  }

  lemma OneMore(before: Tables, now: Tables, after: Tables, keys: seq<Key>, i: nat, results: seq<Result>, r: Result)
    requires GoodKeys(keys) && |results| == i < |keys|
    requires UntouchedOutside(before, now, keys[..i]) && Answers(before, keys, results)
    requires r.key == keys[i] && r.claim == ClaimStatusOf(now, keys[i])
    requires r.status.Blocked? <==> !r.claim.ClaimGranted?
    requires forall k :: k != keys[i] ==> SameItem(now, after, k)
    ensures UntouchedOutside(before, after, keys[..i + 1]) && Answers(before, keys, results + [r])
  {
    assert keys[..i + 1] == keys[..i] + [keys[i]];
    assert keys[i] !in keys[..i];
    assert SameItem(before, now, keys[i]);
    forall k | k !in keys[..i + 1] ensures SameItem(before, after, k) {
      assert SameItem(before, now, k) && SameItem(now, after, k);
    }
  }

  lemma ExecutedOne(before: Tables, after: Tables, r: Result, e: Ending)
    requires if r.claim.ClaimGranted? then r.status == StatusOf(e) && Settled(before, after, r.key, e) else r.status.Blocked? && after == before
    ensures forall k :: k != r.key ==> SameItem(before, after, k)
    ensures OnlyAdds(before, after, r.key) && (!r.claim.ClaimGranted? ==> SameItem(before, after, r.key))
    ensures r.status.Blocked? <==> !r.claim.ClaimGranted?
  {
  }

  /** `execute_batch`: the first `maxItems` keys in order, up to the first failure when told to stop there.
      No key is ever ingested twice, across this batch and every earlier one. */
  method ExecuteBatch(ledger: StateLedger, downloader: Downloader, keys: seq<Key>, maxItems: int, stopOnFailure: bool, owner: Text)
    returns (s: Option<Summary>)
    requires ledger.Valid() && IngestedOnce(ledger.State(), downloader.calls)
    modifies ledger, downloader
    ensures ledger.Valid() && IngestedOnce(ledger.State(), downloader.calls)
    ensures s.Some? <==>
            maxItems > 0 && (forall i :: 0 <= i < |keys| ==> keys[i] != []) && forall i, j :: 0 <= i < j < |keys| ==> keys[i] != keys[j]
    ensures s.None? ==> ledger.State() == old(ledger.State()) && downloader.calls == old(downloader.calls)
    ensures s.Some? ==>
              var results := s.value.results;
              |results| <= Min(|keys|, maxItems) && Answers(old(ledger.State()), keys, results) &&
              UntouchedOutside(old(ledger.State()), ledger.State(), keys[..|results|]) &&
              StopsAtFailure(stopOnFailure, results, s.value.stopped) &&
              (!s.value.stopped ==> |results| == Min(|keys|, maxItems)) &&
              s.value.maxItemsReached == (|keys| > maxItems)
    ensures s.Some? ==>
              downloader.calls == old(downloader.calls) + Ingested(s.value.results) &&
              AllTold(downloader.script, |old(downloader.calls)|, old(ledger.State()), ledger.State(), s.value.results)
    ensures s.Some? ==>
              var results := s.value.results;
              s.value.succeeded + s.value.failed + s.value.interrupted + s.value.blocked == |results| &&
              s.value.succeeded == |Places(results, Done)| && s.value.failed == |Places(results, Failed)| &&
              s.value.interrupted == |Places(results, WasInterrupted)| && s.value.blocked == |Places(results, Blocked)|
  {
    hide OneAttemptEach, IngestedOnce, StatusOf, EndingOf, Answers, UntouchedOutside, Settled, ClaimStatusOf, Count, Told, Ingested, AllTold,
         OnlyAdds, SameItem, Places;
    if maxItems <= 0 || !GoodKeys(keys) { return None; }
    var limit := Min(|keys|, maxItems);
    var results: seq<Result> := [];
    var stopped := false;
    var i := 0;
    NothingYet(ledger.State(), keys);
    while i < limit && !stopped
      invariant 0 <= i <= limit && |results| == i
      invariant ledger.Valid() && IngestedOnce(ledger.State(), downloader.calls)
      invariant StopsAtFailure(stopOnFailure, results, stopped)
      invariant Answers(old(ledger.State()), keys, results)
      invariant UntouchedOutside(old(ledger.State()), ledger.State(), keys[..i])
      invariant forall a :: a in old(ledger.attempts) ==> a in ledger.attempts
      invariant downloader.calls == old(downloader.calls) + Ingested(results)
      invariant AllTold(downloader.script, |old(downloader.calls)|, old(ledger.State()), ledger.State(), results)
    {
      ghost var now := ledger.State();
      AnswersKeys(old(ledger.State()), now, keys, i, results);
      ghost var e := EndingOf(downloader.script(keys[i], |downloader.calls|));
      var r := ExecuteSingle(ledger, downloader, keys[i], owner);
      ExecutedOne(now, ledger.State(), r, e);
      OneMore(old(ledger.State()), now, ledger.State(), keys, i, results, r);
      OneMoreTold(downloader.script, |old(downloader.calls)|, old(ledger.State()), now, ledger.State(), keys, i, results, r);
      IngestedOneMore(results, r);
      results := results + [r];
      i := i + 1;
      stopped := stopOnFailure && Stopping(r);
    }
    CountsAddUp(results);
    CountIs(results, Done);
    CountIs(results, Failed);
    CountIs(results, WasInterrupted);
    CountIs(results, Blocked);
    return Some(Summary(results, Count(results, Done), Count(results, Failed), Count(results, WasInterrupted),
                        Count(results, Blocked), |keys| > maxItems, stopped));
  }

  lemma AnswersKeys(before: Tables, now: Tables, keys: seq<Key>, i: nat, results: seq<Result>)
    requires GoodKeys(keys) && |results| == i < |keys| && Answers(before, keys, results) && UntouchedOutside(before, now, keys[..i])
    ensures (forall k :: 0 <= k < i ==> results[k].key == keys[k]) && SameItem(before, now, keys[i])
  {
    hide ClaimStatusOf, SameItem;
    assert keys[i] !in keys[..i];
  }

  lemma NothingYet(t: Tables, keys: seq<Key>)
    ensures Ingested([]) == [] && forall script, earlier :: AllTold(script, earlier, t, t, [])
    ensures Answers(t, keys, []) && UntouchedOutside(t, t, keys[..0])
  {
  }
}
