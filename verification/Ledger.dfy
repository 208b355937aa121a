/** The work-item ledger: its two tables, the claim transaction and the completion statements. */
module Ledger {
  import opened Basics

  type Key = Text

  // uuid4 strings, drawn fresh.
  type AttemptId = nat

  datatype ItemState = Planned | Claimed | Succeeded | ReviewRequired

  datatype AttemptState = InProgress | AttemptSucceeded | AttemptFailed | AttemptInterrupted

  // The columns register_work_item compares, and the window, which it does not.
  datatype Metadata = Metadata(sourceId: Text, symbol: Text, barSize: Text, day: int, output: Text)

  datatype Item = Item(metadata: Metadata, windowStart: int, windowEnd: int, state: ItemState)

  datatype Attempt = Attempt(key: Key, number: nat, owner: Text, state: AttemptState)

  // How an attempt ends, and what that writes to the two tables.
  datatype Ending = Success | Failure | Interruption

  function AttemptEnd(e: Ending): AttemptState {
    match e
    case Success => AttemptSucceeded
    case Failure => AttemptFailed
    case Interruption => AttemptInterrupted
  }

  function ItemEnd(e: Ending): ItemState { if e.Success? then Succeeded else ReviewRequired }

  datatype Tables = Tables(items: map<Key, Item>, attempts: map<AttemptId, Attempt>)

  datatype RegistrationStatus = Created | ExistingMatch

  datatype ClaimStatus = ClaimGranted | NotFound | AlreadyClaimed | AlreadySucceeded | NeedsReview

  /* ---------- the statements ---------- */

  function ClaimStatusOf(t: Tables, key: Key): ClaimStatus {
    if key !in t.items then NotFound
    else
      match t.items[key].state
      case Planned => ClaimGranted
      case Claimed => AlreadyClaimed
      case Succeeded => AlreadySucceeded
      case ReviewRequired => NeedsReview
  }

  // SELECT count(*) FROM attempts WHERE key = ?
  function AttemptsOf(t: Tables, key: Key): set<AttemptId> {
    set a | a in t.attempts && t.attempts[a].key == key
  }

  function SetState(t: Tables, key: Key, state: ItemState): Tables {
    if key in t.items then t.(items := t.items[key := t.items[key].(state := state)]) else t
  }

  // The claim transaction, committed.
  function ClaimCommit(t: Tables, key: Key, owner: Text, id: AttemptId): Tables {
    SetState(t.(attempts := t.attempts[id := Attempt(key, |AttemptsOf(t, key)| + 1, owner, InProgress)]), key, Claimed)
  }

  // The two UPDATE statements of _complete, each committed on its own.
  function UpdateAttempt(t: Tables, id: AttemptId, e: Ending): Tables {
    if id in t.attempts then t.(attempts := t.attempts[id := t.attempts[id].(state := AttemptEnd(e))]) else t
  }

  function UpdateItem(t: Tables, key: Key, e: Ending): Tables { SetState(t, key, ItemEnd(e)) }

  /* ---------- what every ledger state satisfies ---------- */

  // A key has an attempt exactly when its item is not PLANNED, and then only one, numbered 1.
  ghost predicate OneAttemptEach(t: Tables) {
    (forall a :: a in t.attempts ==>
      t.attempts[a].key in t.items && !t.items[t.attempts[a].key].state.Planned? && t.attempts[a].number == 1) &&
    (forall k :: k in t.items && !t.items[k].state.Planned? ==> exists a :: a in t.attempts && t.attempts[a].key == k) &&
    (forall a, b :: a in t.attempts && b in t.attempts && t.attempts[a].key == t.attempts[b].key ==> a == b)
  }

  /** The count of attempts per key is 0 for a planned or unknown item and 1 otherwise. */
  lemma AttemptCount(t: Tables, key: Key)
    requires OneAttemptEach(t)
    ensures |AttemptsOf(t, key)| == if key in t.items && !t.items[key].state.Planned? then 1 else 0
  {
    if key in t.items && !t.items[key].state.Planned? {
      var a :| a in t.attempts && t.attempts[a].key == key;
      assert AttemptsOf(t, key) == {a};
    } else {
      assert AttemptsOf(t, key) == {};
    }
  }

  lemma ClaimKeeps(t: Tables, key: Key, owner: Text, id: AttemptId)
    requires OneAttemptEach(t) && ClaimStatusOf(t, key).ClaimGranted? && id !in t.attempts
    ensures OneAttemptEach(ClaimCommit(t, key, owner, id))
  {
    AttemptCount(t, key);
    var d := ClaimCommit(t, key, owner, id);
    forall k | k in d.items && !d.items[k].state.Planned?
      ensures exists a :: a in d.attempts && d.attempts[a].key == k
    {
      if k == key {
        assert d.attempts[id].key == key;
      } else {
        var a :| a in t.attempts && t.attempts[a].key == k;
        assert d.attempts[a].key == k;
      }
    }
  }

  // A claim of a planned item is its first, and what it writes.
  lemma ClaimMeans(t: Tables, key: Key, owner: Text, id: AttemptId)
    requires OneAttemptEach(t)
    ensures ClaimStatusOf(t, key).ClaimGranted? ==>
              ClaimCommit(t, key, owner, id) ==
              Tables(t.items[key := t.items[key].(state := Claimed)], t.attempts[id := Attempt(key, 1, owner, InProgress)])
  {
    if ClaimStatusOf(t, key).ClaimGranted? { AttemptCount(t, key); }
    hide OneAttemptEach, AttemptsOf;
  }

  lemma AttemptHasItem(t: Tables, id: AttemptId)
    requires OneAttemptEach(t) && id in t.attempts
    ensures t.attempts[id].key in t.items
  {
  }

  lemma UpdateAttemptKeeps(t: Tables, id: AttemptId, e: Ending)
    requires OneAttemptEach(t) && id in t.attempts
    ensures OneAttemptEach(UpdateAttempt(t, id, e))
  {
    var u := UpdateAttempt(t, id, e);
    forall k | k in u.items && !u.items[k].state.Planned?
      ensures exists a :: a in u.attempts && u.attempts[a].key == k
    {
      var a :| a in t.attempts && t.attempts[a].key == k;
      assert u.attempts[a].key == k;
    }
  }

  lemma UpdateItemKeeps(t: Tables, id: AttemptId, e: Ending)
    requires OneAttemptEach(t) && id in t.attempts
    ensures OneAttemptEach(UpdateItem(t, t.attempts[id].key, e))
  {
    var v := UpdateItem(t, t.attempts[id].key, e);
    forall k | k in v.items && !v.items[k].state.Planned?
      ensures exists a :: a in v.attempts && v.attempts[a].key == k
    {
      if k == t.attempts[id].key { assert v.attempts[id].key == k; }
    }
  }

  /* ---------- the ledger object ---------- */

  /** `StateLedger`, one caller at a time. */
  class StateLedger {
    var items: map<Key, Item>
    var attempts: map<AttemptId, Attempt>
    var nextId: AttemptId

    ghost function State(): Tables
      reads this
    {
      Tables(items, attempts)
    }

    ghost predicate Valid()
      reads this
    {
      OneAttemptEach(State()) && forall a :: a in attempts ==> a < nextId
    }

    constructor ()
      ensures Valid() && State() == Tables(map[], map[])
    {
      items, attempts, nextId := map[], map[], 0;
    }

    method RegisterWorkItem(key: Key, metadata: Metadata, windowStart: int, windowEnd: int)
      returns (r: Result<RegistrationStatus, ()>)
      requires Valid()
      modifies this
      ensures Valid()
      ensures if key !in old(items) then
                r == Ok(Created) && State() == old(State()).(items := old(items)[key := Item(metadata, windowStart, windowEnd, Planned)])
              else
                State() == old(State()) && r == (if old(items)[key].metadata == metadata then Ok(ExistingMatch) else Err(()))
    {
      if key in items {
        if items[key].metadata != metadata { return Err(()); }
        return Ok(ExistingMatch);
      }
      items := items[key := Item(metadata, windowStart, windowEnd, Planned)];
      return Ok(Created);
    }

    method ClaimWorkItem(key: Key, owner: Text) returns (status: ClaimStatus, id: AttemptId)
      requires Valid()
      modifies this
      ensures Valid()
      ensures status == ClaimStatusOf(old(State()), key)
      ensures status.ClaimGranted? ==> id !in old(attempts) && State() == ClaimCommit(old(State()), key, owner, id)
      ensures !status.ClaimGranted? ==> State() == old(State())
      ensures status.NotFound? <==> key !in old(items)
      ensures status.ClaimGranted? <==> key in old(items) && old(items)[key].state.Planned?
      ensures status.AlreadyClaimed? <==> key in old(items) && old(items)[key].state.Claimed?
      ensures status.AlreadySucceeded? <==> key in old(items) && old(items)[key].state.Succeeded?
      ensures status.NeedsReview? <==> key in old(items) && old(items)[key].state.ReviewRequired?
      ensures status.ClaimGranted? ==>
                attempts == old(attempts)[id := Attempt(key, 1, owner, InProgress)] &&
                items == old(items)[key := old(items)[key].(state := Claimed)]
    {
      id := nextId;
      ClaimMeans(State(), key, owner, id);
      if key !in items { return NotFound, id; }
      status := match items[key].state
        case Planned => ClaimGranted
        case Claimed => AlreadyClaimed
        case Succeeded => AlreadySucceeded
        case ReviewRequired => NeedsReview;
      if !status.ClaimGranted? { return; }
      ClaimKeeps(State(), key, owner, id);
      hide OneAttemptEach;
      var number := |set a | a in attempts && attempts[a].key == key| + 1;
      attempts := attempts[id := Attempt(key, number, owner, InProgress)];
      items := items[key := items[key].(state := Claimed)];
      nextId := nextId + 1;
    }

    method Complete(id: AttemptId, e: Ending) returns (ok: bool)
      requires Valid()
      modifies this
      ensures Valid()
      ensures ok <==> id in old(attempts) && old(attempts)[id].state.InProgress?
      ensures ok ==> State() == UpdateItem(UpdateAttempt(old(State()), id, e), old(attempts)[id].key, e)
      ensures !ok ==> State() == old(State())
      ensures ok ==>
                attempts == old(attempts)[id := old(attempts)[id].(state :=
                  match e case Success => AttemptSucceeded case Failure => AttemptFailed case Interruption => AttemptInterrupted)] &&
                old(attempts)[id].key in old(items) &&
                items == old(items)[old(attempts)[id].key := old(items)[old(attempts)[id].key].(state :=
                  if e.Success? then Succeeded else ReviewRequired)]
    {
      if id !in attempts || attempts[id].state != InProgress { return false; }
      AttemptHasItem(State(), id);
      hide OneAttemptEach;
      ghost var before := State();
      UpdateAttemptKeeps(before, id, e);
      UpdateItemKeeps(UpdateAttempt(before, id, e), id, e);
      attempts := attempts[id := attempts[id].(state := AttemptEnd(e))];
      var key := attempts[id].key;
      items := items[key := items[key].(state := ItemEnd(e))];
      return true;
    }
  }
}
