/**
 Slot accounting of the Unix server: the accept loop, its workers, worker exceptions and stop, in any
 interleaving.  The slot is released before the worker leaves `_workers`.
 */
module Server {
  import opened Basics
  import opened Protocol
  import opened Transport

  type Conn = nat

  // The accept loop: waiting, holding a fresh connection, or holding a connection with its slot.
  datatype Acceptor = Listening | Accepted(conn: Conn) | Slotted(conn: Conn) | Halted | Leaked(conn: Conn)

  datatype Worker =
    | Receiving                       // before the frame is read and decoded
    | Calling(request: CandleRequest) // decoded, broker not called yet
    | InBroker(request: CandleRequest)
    | Replying
    | Leaving                         // in `finally`, slot still held
    | Released                        // slot released, still in _workers
    | Gone

  datatype World = World(free: int, stopped: bool, acceptor: Acceptor, workers: map<Conn, Worker>, calls: map<Conn, seq<CandleRequest>>)

  // The byte stream each client sends.
  type Clients = Conn -> Bytes

  datatype Step =
    | Accept(conn: Conn)
    | AcceptFails                     // OSError: the loop ends
    | Gate                            // stop check and non-blocking acquire
    | Launch(ok: bool)                // create, register and start the worker; it may fail to start
    | Receive(conn: Conn, fails: bool)
    | Call(conn: Conn)
    | Return(conn: Conn, raises: bool)
    | Reply(conn: Conn)
    | Release(conn: Conn)
    | Discard(conn: Conn)
    | Stop

  function Calls(w: World, c: Conn): seq<CandleRequest> { if c in w.calls then w.calls[c] else [] }

  function SetWorker(w: World, c: Conn, state: Worker): World { w.(workers := w.workers[c := state]) }

  /** One step; a step that is not enabled changes nothing. */
  function Apply(clients: Clients, w: World, s: Step): World {
    match s
    case Accept(c) => if w.acceptor.Listening? && !w.stopped && c !in w.workers then w.(acceptor := Accepted(c)) else w
    case AcceptFails => if w.acceptor.Listening? then w.(acceptor := Halted) else w
    case Gate =>
      if !w.acceptor.Accepted? then w
      else if w.stopped || w.free == 0 then w.(acceptor := Listening)
      else w.(acceptor := Slotted(w.acceptor.conn), free := w.free - 1)
    case Launch(ok) =>
      if !w.acceptor.Slotted? then w
      else if ok then SetWorker(w, w.acceptor.conn, Receiving).(acceptor := Listening)
      else w.(acceptor := Leaked(w.acceptor.conn))
    case Stop => w.(stopped := true)
    case _ => if s.conn in w.workers then Work(clients, w, s, s.conn, w.workers[s.conn]) else w
  }

  function Work(clients: Clients, w: World, s: Step, c: Conn, state: Worker): World {
    match s
    case Receive(_, fails) =>
      if !state.Receiving? then w
      else if fails then SetWorker(w, c, Leaving)
      else
        (match BrokerCall(clients(c))
         case None => SetWorker(w, c, Leaving)
         case Some(q) => SetWorker(w, c, Calling(q)))
    case Call(_) =>
      if state.Calling? then SetWorker(w, c, InBroker(state.request)).(calls := w.calls[c := Calls(w, c) + [state.request]]) else w
    case Return(_, raises) => if state.InBroker? then SetWorker(w, c, if raises then Leaving else Replying) else w
    case Reply(_) => if state.Replying? then SetWorker(w, c, Leaving) else w
    case Release(_) => if state.Leaving? then SetWorker(w, c, Released).(free := w.free + 1) else w
    case Discard(_) => if state.Released? then SetWorker(w, c, Gone) else w
    case _ => w
  }

  function Exec(clients: Clients, w: World, steps: seq<Step>): World
    decreases |steps|
  {
    if steps == [] then w else Apply(clients, Exec(clients, w, steps[..|steps| - 1]), steps[|steps| - 1])
  }

  // `__init__` and `start`.
  function Begin(maxConnections: int): World { World(maxConnections, false, Listening, map[], map[]) }

  predicate ValidMaximum(n: int) { 1 <= n <= 64 }

  /* ---------- holders of a slot ---------- */

  predicate Holds(state: Worker) { !state.Released? && !state.Gone? }

  function HoldingWorkers(w: World): set<Conn> { set c | c in w.workers && Holds(w.workers[c]) }

  function AcceptorHolds(w: World): set<Conn> {
    if w.acceptor.Slotted? || w.acceptor.Leaked? then {w.acceptor.conn} else {}
  }

  function Holders(w: World): set<Conn> { HoldingWorkers(w) + AcceptorHolds(w) }

  function InFlight(w: World): set<Conn> { set c | c in w.workers && w.workers[c].InBroker? }

  // `_workers`: registered and not yet discarded, a worker that failed to start included.
  function Registered(w: World): set<Conn> {
    (set c | c in w.workers && !w.workers[c].Gone?) + (if w.acceptor.Leaked? then {w.acceptor.conn} else {})
  }

  // Workers that have given their slot back and not yet left `_workers`.
  function Lingering(w: World): set<Conn> { set c | c in w.workers && w.workers[c].Released? }

  predicate AcceptorFresh(w: World) {
    (w.acceptor.Accepted? || w.acceptor.Slotted? || w.acceptor.Leaked?) ==> w.acceptor.conn !in w.workers
  }

  // What each worker has asked the broker so far.
  predicate AskedOnce(clients: Clients, w: World, c: Conn) {
    (c !in w.workers ==> Calls(w, c) == []) &&
    |Calls(w, c)| <= 1 &&
    (forall q :: q in Calls(w, c) ==> BrokerCall(clients(c)) == Some(q)) &&
    (c in w.workers ==>
      (w.workers[c].Receiving? || w.workers[c].Calling? ==> Calls(w, c) == []) &&
      (w.workers[c].Calling? ==> BrokerCall(clients(c)) == Some(w.workers[c].request)))
  }

  ghost predicate Invariant(clients: Clients, maximum: int, w: World) {
    w.free >= 0 && w.free + |Holders(w)| == maximum && AcceptorFresh(w) && forall c :: AskedOnce(clients, w, c)
  }

  lemma CountOne(a: set<Conn>, b: set<Conn>, c: Conn)
    requires forall x :: x != c ==> (x in a <==> x in b)
    ensures |b| == |a| + (if c in b then 1 else 0) - (if c in a then 1 else 0)
  {
    assert a - {c} == b - {c};
    assert c in a ==> a == (a - {c}) + {c};
    assert c in b ==> b == (b - {c}) + {c};
    assert c !in a ==> a == a - {c};
    assert c !in b ==> b == b - {c};
  }

  lemma HoldersAfterWork(w: World, c: Conn, state: Worker)
    requires c in w.workers && AcceptorFresh(w)
    ensures var d := SetWorker(w, c, state);
            |Holders(d)| == |Holders(w)| + (if Holds(state) then 1 else 0) - (if Holds(w.workers[c]) then 1 else 0)
  {
    hide Holds;
    var d := SetWorker(w, c, state);
    assert AcceptorHolds(d) == AcceptorHolds(w) && c !in AcceptorHolds(w);
    forall x | x != c ensures x in Holders(d) <==> x in Holders(w) { }
    assert c in Holders(d) <==> Holds(state);
    assert c in Holders(w) <==> Holds(w.workers[c]);
    CountOne(Holders(w), Holders(d), c);
  }

  lemma WorkBalance(clients: Clients, maximum: int, w: World, s: Step, c: Conn)
    requires Invariant(clients, maximum, w) && c in w.workers
    ensures var d := Work(clients, w, s, c, w.workers[c]);
            d.free >= 0 && d.free + |Holders(d)| == maximum && AcceptorFresh(d)
  {
    hide BrokerCall, Holders;
    var d := Work(clients, w, s, c, w.workers[c]);
    if d != w {
      var e := SetWorker(w, c, d.workers[c]);
      HoldersAfterWork(w, c, d.workers[c]);
      SameHolding(d, e);
    }
  }

  lemma WorkAsks(clients: Clients, w: World, s: Step, c: Conn, x: Conn)
    requires c in w.workers && AskedOnce(clients, w, c) && AskedOnce(clients, w, x)
    ensures AskedOnce(clients, Work(clients, w, s, c, w.workers[c]), x)
  {
    hide BrokerCall;
  }

  lemma AcceptorAsks(clients: Clients, w: World, s: Step, c: Conn)
    requires AskedOnce(clients, w, c) && AcceptorFresh(w)
    requires s.Accept? || s.AcceptFails? || s.Gate? || s.Launch? || s.Stop?
    ensures AskedOnce(clients, Apply(clients, w, s), c)
  {
    hide BrokerCall, Work;
  }

  lemma AcceptorBalance(clients: Clients, w: World, s: Step)
    requires AcceptorFresh(w) && (s.Accept? || s.AcceptFails? || s.Gate? || s.Launch? || s.Stop?) && w.free >= 0
    ensures var d := Apply(clients, w, s);
            AcceptorFresh(d) && d.free >= 0 && d.free + |Holders(d)| == w.free + |Holders(w)|
  {
    hide Work, HoldingWorkers, Holders;
    if s.Launch? && w.acceptor.Slotted? && s.ok {
      LaunchHolders(w);
    } else if s.Gate? && w.acceptor.Accepted? && !w.stopped && w.free > 0 {
      GateHolders(w, Apply(clients, w, s));
    } else {
      SameHolding(w, Apply(clients, w, s));
    }
  }

  lemma SameHolding(w: World, d: World)
    requires w.workers == d.workers && AcceptorHolds(w) == AcceptorHolds(d)
    ensures Holders(d) == Holders(w)
  {
    hide Holds, AcceptorHolds;
  }

  lemma GateHolders(w: World, d: World)
    requires w.acceptor.Accepted? && w.acceptor.conn !in w.workers
    requires d.workers == w.workers && d.acceptor == Slotted(w.acceptor.conn)
    ensures |Holders(d)| == |Holders(w)| + 1
  {
    hide Holds;
    CountOne(Holders(w), Holders(d), w.acceptor.conn);
  }

  lemma LaunchHolders(w: World)
    requires w.acceptor.Slotted? && AcceptorFresh(w)
    ensures Holders(SetWorker(w, w.acceptor.conn, Receiving).(acceptor := Listening)) == Holders(w)
  {
    var d := SetWorker(w, w.acceptor.conn, Receiving).(acceptor := Listening);
    assert Holds(Receiving);
    hide Holds;
    forall x ensures x in Holders(d) <==> x in Holders(w) { }
  }

  lemma StepInvariant(clients: Clients, maximum: int, w: World, s: Step)
    requires Invariant(clients, maximum, w)
    ensures Invariant(clients, maximum, Apply(clients, w, s))
  {
    hide Work, AskedOnce, Holders, AcceptorFresh;
    if s.Accept? || s.AcceptFails? || s.Gate? || s.Launch? || s.Stop? {
      hide Apply;
      AcceptorBalance(clients, w, s);
      forall x ensures AskedOnce(clients, Apply(clients, w, s), x) {
        assert AskedOnce(clients, w, x);
        AcceptorAsks(clients, w, s, x);
      }
    } else if s.conn in w.workers {
      WorkBalance(clients, maximum, w, s, s.conn);
      forall x ensures AskedOnce(clients, Work(clients, w, s, s.conn, w.workers[s.conn]), x) {
        assert AskedOnce(clients, w, s.conn);
        WorkAsks(clients, w, s, s.conn, x);
      }
    }
  }

  lemma {:induction false} ExecInvariant(clients: Clients, maximum: int, steps: seq<Step>)
    requires ValidMaximum(maximum)
    ensures Invariant(clients, maximum, Exec(clients, Begin(maximum), steps))
    decreases |steps|
  {
    hide Apply, Invariant;
    if steps == [] {
      BeginInvariant(clients, maximum);
    } else {
      ExecInvariant(clients, maximum, steps[..|steps| - 1]);
      StepInvariant(clients, maximum, Exec(clients, Begin(maximum), steps[..|steps| - 1]), steps[|steps| - 1]);
    }
  }

  lemma BeginInvariant(clients: Clients, maximum: int)
    requires ValidMaximum(maximum)
    ensures Invariant(clients, maximum, Begin(maximum))
  {
    assert Holders(Begin(maximum)) == {};
    hide BrokerCall;
  }

  /** In every interleaving, free slots and slot holders add up to the maximum, so the broker never has more
      than that many calls in flight, and a release never exceeds the bound. */
  lemma SlotsConserved(clients: Clients, maximum: int, steps: seq<Step>)
    requires ValidMaximum(maximum)
    ensures var w := Exec(clients, Begin(maximum), steps);
            0 <= w.free && w.free + |Holders(w)| == maximum && |InFlight(w)| <= |Holders(w)| <= maximum &&
            (forall c :: c in w.workers && w.workers[c].Leaving? ==> w.free < maximum)
  {
    hide Exec, AskedOnce;
    ExecInvariant(clients, maximum, steps);
    var w := Exec(clients, Begin(maximum), steps);
    assert InFlight(w) <= Holders(w);
    SubsetSize(InFlight(w), Holders(w));
    forall c | c in w.workers && w.workers[c].Leaving? ensures w.free < maximum {
      assert c in Holders(w);
      SubsetSize({c}, Holders(w));
    }
  }

  lemma SubsetSize(a: set<Conn>, b: set<Conn>)
    requires a <= b
    ensures |a| <= |b|
  {
    assert b == a + (b - a);
  }

  /** A connection causes at most one broker call, for the request its frame decodes to; a malformed frame causes none. */
  lemma OneCallPerConnection(clients: Clients, maximum: int, steps: seq<Step>, c: Conn)
    requires ValidMaximum(maximum)
    ensures var calls := Calls(Exec(clients, Begin(maximum), steps), c);
            |calls| <= 1 && (BrokerCall(clients(c)).None? ==> calls == []) &&
            (calls != [] ==> BrokerCall(clients(c)) == Some(calls[0]))
  {
    hide Exec, BrokerCall;
    ExecInvariant(clients, maximum, steps);
    assert AskedOnce(clients, Exec(clients, Begin(maximum), steps), c);
    var calls := Calls(Exec(clients, Begin(maximum), steps), c);
    if calls != [] { assert calls[0] in calls; }
  }

  lemma DisjointSize(a: set<Conn>, b: set<Conn>)
    requires a !! b
    ensures |a + b| == |a| + |b|
  {
  }

  lemma RegisteredSize(w: World)
    requires AcceptorFresh(w)
    ensures |Registered(w)| == |HoldingWorkers(w)| + |Lingering(w)| + (if w.acceptor.Leaked? then 1 else 0)
    ensures |Holders(w)| == |HoldingWorkers(w)| + (if w.acceptor.Slotted? || w.acceptor.Leaked? then 1 else 0)
  {
    var leaked := if w.acceptor.Leaked? then {w.acceptor.conn} else {};
    RegisteredParts(w);
    hide Registered, Holders, HoldingWorkers, Lingering;
    DisjointSize(HoldingWorkers(w), Lingering(w));
    DisjointSize(HoldingWorkers(w) + Lingering(w), leaked);
    DisjointSize(HoldingWorkers(w), AcceptorHolds(w));
    assert Holders(w) == HoldingWorkers(w) + AcceptorHolds(w) by { HoldersAre(w); }
  }

  lemma HoldersAre(w: World)
    ensures Holders(w) == HoldingWorkers(w) + AcceptorHolds(w)
  {
    hide HoldingWorkers, AcceptorHolds;
  }

  lemma RegisteredParts(w: World)
    requires AcceptorFresh(w)
    ensures var leaked := if w.acceptor.Leaked? then {w.acceptor.conn} else {};
            Registered(w) == HoldingWorkers(w) + Lingering(w) + leaked &&
            HoldingWorkers(w) !! Lingering(w) && HoldingWorkers(w) + Lingering(w) !! leaked
    ensures HoldingWorkers(w) !! AcceptorHolds(w)
  {
    var leaked := if w.acceptor.Leaked? then {w.acceptor.conn} else {};
    forall c ensures c in Registered(w) <==> c in HoldingWorkers(w) + Lingering(w) + leaked { }
  }

  /** `_workers` stays within the maximum exactly while the workers that have released their slot and not yet left are no
      more than the free slots (and the one slot the accept loop may hold); it never exceeds the maximum by more than them. */
  lemma WorkersWithinIff(clients: Clients, maximum: int, steps: seq<Step>)
    requires ValidMaximum(maximum)
    ensures var w := Exec(clients, Begin(maximum), steps);
            (|Registered(w)| <= maximum <==> |Lingering(w)| <= w.free + (if w.acceptor.Slotted? then 1 else 0)) &&
            |Registered(w)| <= maximum + |Lingering(w)|
  {
    hide Exec, AskedOnce, Registered, Holders, HoldingWorkers, Lingering;
    ExecInvariant(clients, maximum, steps);
    RegisteredSize(Exec(clients, Begin(maximum), steps));
  }

  // One slot, two malformed clients: the second is accepted while the first is still in `_workers`.
  const OVERLAP: seq<Step> :=
    [Accept(0), Gate, Launch(true), Receive(0, true), Release(0), Accept(1), Gate, Launch(true)]

  /** The bound is on slot holders, not on `_workers`, which can be larger than the maximum. */
  lemma WorkersCanExceedSlots(clients: Clients)
    ensures ValidMaximum(1) && |Registered(Exec(clients, Begin(1), OVERLAP))| == 2
  {
    hide Apply, Exec;
    var w3 := World(0, false, Listening, map[0 := Receiving], map[]);
    var w5 := World(1, false, Listening, map[0 := Released], map[]);
    var w8 := World(0, false, Listening, map[0 := Released, 1 := Receiving], map[]);
    FirstThree(clients, w3);
    NextTwo(clients, w3, w5);
    LastThree(clients, w5, w8);
    var a, b, c := [Accept(0), Gate, Launch(true)], [Receive(0, true), Release(0)], [Accept(1), Gate, Launch(true)];
    ExecSplit(clients, Begin(1), a, b);
    ExecSplit(clients, Begin(1), a + b, c);
    assert OVERLAP == a + b + c;
    assert Registered(w8) == {0, 1};
  }

  lemma {:induction false} ExecSplit(clients: Clients, w: World, a: seq<Step>, b: seq<Step>)
    ensures Exec(clients, w, a + b) == Exec(clients, Exec(clients, w, a), b)
    decreases |b|
  {
    hide Apply;
    if b == [] {
      assert a + b == a;
    } else {
      assert (a + b)[..|a + b| - 1] == a + b[..|b| - 1];
      ExecSplit(clients, w, a, b[..|b| - 1]);
    }
  }

  lemma ExecThree(clients: Clients, w: World, a: Step, b: Step, c: Step)
    ensures Exec(clients, w, [a, b, c]) == Apply(clients, Apply(clients, Apply(clients, w, a), b), c)
    ensures Exec(clients, w, [a, b]) == Apply(clients, Apply(clients, w, a), b)
  {
    hide Apply;
    assert [a, b, c][..2] == [a, b] && [a, b][..1] == [a] && [a][..0] == [];
    assert Exec(clients, w, [a]) == Apply(clients, w, a);
    assert Exec(clients, w, [a, b]) == Apply(clients, Exec(clients, w, [a]), b);
  }

  lemma FirstThree(clients: Clients, w3: World)
    requires w3 == World(0, false, Listening, map[0 := Receiving], map[])
    ensures Exec(clients, Begin(1), [Accept(0), Gate, Launch(true)]) == w3
  {
    ExecThree(clients, Begin(1), Accept(0), Gate, Launch(true));
    hide BrokerCall, Exec;
  }

  lemma NextTwo(clients: Clients, w3: World, w5: World)
    requires w3 == World(0, false, Listening, map[0 := Receiving], map[])
    requires w5 == World(1, false, Listening, map[0 := Released], map[])
    ensures Exec(clients, w3, [Receive(0, true), Release(0)]) == w5
  {
    ExecThree(clients, w3, Receive(0, true), Release(0), Stop);
    hide BrokerCall, Exec;
  }

  lemma LastThree(clients: Clients, w5: World, w8: World)
    requires w5 == World(1, false, Listening, map[0 := Released], map[])
    requires w8 == World(0, false, Listening, map[0 := Released, 1 := Receiving], map[])
    ensures Exec(clients, w5, [Accept(1), Gate, Launch(true)]) == w8
  {
    ExecThree(clients, w5, Accept(1), Gate, Launch(true));
    hide BrokerCall, Exec;
  }

  /* ---------- after stop ---------- */

  lemma StoppedStep(clients: Clients, w: World, s: Step)
    requires w.stopped && !w.acceptor.Slotted?
    ensures var d := Apply(clients, w, s); d.stopped && !d.acceptor.Slotted? && d.workers.Keys == w.workers.Keys
  {
    hide BrokerCall;
  }

  /** Once stopped, with no connection between its slot and its worker, the server starts no further worker, whatever happens. */
  lemma {:induction false} StoppedStartsNothing(clients: Clients, w: World, steps: seq<Step>)
    requires w.stopped && !w.acceptor.Slotted?
    ensures var d := Exec(clients, w, steps); d.stopped && !d.acceptor.Slotted? && d.workers.Keys == w.workers.Keys
    decreases |steps|
  {
    hide Apply;
    if steps != [] {
      StoppedStartsNothing(clients, w, steps[..|steps| - 1]);
      StoppedStep(clients, Exec(clients, w, steps[..|steps| - 1]), steps[|steps| - 1]);
    }
  }
}
