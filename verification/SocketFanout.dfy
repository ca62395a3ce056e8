/**
 The WebSocket fan-out of src/api_server.py: admission with a limit per address, one bounded queue
 and one writer task per connection, broadcasts that never wait, and release.  The event loop runs
 one coroutine at a time between awaits, so every stretch of code between two awaits is one event,
 and the events of different connections interleave in any order.  The token check, the first full
 state message (sent by the handler and not through the queue) and the shutdown of the server are
 left out.
 */
module SocketFanout {
  import opened Collections

  const QUEUE_LIMIT: nat := 100
  const MAX_PER_ADDRESS := 3

  type Address = string

  datatype Message = Message(kind: string, data: string)

  datatype Socket = Socket(id: nat, ip: Address)

  /** How far the handler and the writer of a socket have come. */
  datatype Stage =
    | Accepting   // counted, waiting for the handshake
    | Pending     // accepted, the writer task has been created and has not begun
    | Writing     // the writer has registered its queue
    | Silent      // the writer has ended, the handler is still connected
    | Closed      // the handler has released its slot
    | Failed      // the handshake raised: the handler ended without a release
    | Refused     // over the limit, never counted

  datatype State = State(
    active: map<Socket, seq<Message>>,
    counts: map<Address, int>,
    stages: map<Socket, Stage>)

  datatype Event =
    | Connect(ws: Socket)
    | AcceptFails(ws: Socket)
    | AcceptSucceeds(ws: Socket)
    | WriterStarts(ws: Socket)
    | Broadcast(message: Message)
    | WriterTakes(ws: Socket)
    | WriterStops(ws: Socket)
    | Disconnect(ws: Socket)

  const INITIAL := State(map[], map[], map[])

  function Counter(s: State, ip: Address): int {
    if ip in s.counts then s.counts[ip] else 0
  }

  predicate At(s: State, ws: Socket, stage: Stage) {
    ws in s.stages && s.stages[ws] == stage
  }

  /** The handler has passed the handshake and has not ended. */
  predicate Connected(s: State, ws: Socket) {
    At(s, ws, Pending) || At(s, ws, Writing) || At(s, ws, Silent)
  }

  /** put_nowait: a full queue drops the message. */
  function Put(q: seq<Message>, m: Message): seq<Message> {
    if |q| < QUEUE_LIMIT then q + [m] else q
  }

  function PutAll(active: map<Socket, seq<Message>>, m: Message): map<Socket, seq<Message>> {
    map ws | ws in active :: Put(active[ws], m)
  }

  function Released(counts: map<Address, int>, ip: Address): map<Address, int> {
    var count := if ip in counts then counts[ip] else 1;
    counts[ip := if count - 1 > 0 then count - 1 else 0]
  }

  function Step(s: State, e: Event): State {
    match e
    case Connect(ws) =>
      if ws in s.stages then s
      else if Counter(s, ws.ip) >= MAX_PER_ADDRESS then s.(stages := s.stages[ws := Refused])
      else s.(counts := s.counts[ws.ip := Counter(s, ws.ip) + 1], stages := s.stages[ws := Accepting])
    case AcceptFails(ws) =>
      if At(s, ws, Accepting) then s.(stages := s.stages[ws := Failed]) else s
    case AcceptSucceeds(ws) =>
      if At(s, ws, Accepting) then s.(stages := s.stages[ws := Pending]) else s
    case WriterStarts(ws) =>
      if At(s, ws, Pending) then s.(active := s.active[ws := []], stages := s.stages[ws := Writing]) else s
    case Broadcast(m) =>
      s.(active := PutAll(s.active, m))
    case WriterTakes(ws) =>
      if ws in s.active && s.active[ws] != [] then s.(active := s.active[ws := s.active[ws][1..]]) else s
    case WriterStops(ws) =>
      if At(s, ws, Writing) then s.(active := s.active - {ws}, stages := s.stages[ws := Silent]) else s
    case Disconnect(ws) =>
      if Connected(s, ws) then
        State(s.active - {ws}, Released(s.counts, ws.ip), s.stages[ws := Closed])
      else s
  }

  function Run(s: State, es: seq<Event>): State
    decreases |es|
  {
    if es == [] then s else Run(Step(s, es[0]), es[1..])
  }

  // Slots

  predicate HoldsSlot(stage: Stage) {
    stage.Accepting? || stage.Pending? || stage.Writing? || stage.Silent?
  }

  function Live(s: State, ip: Address): set<Socket> {
    set ws | ws in s.stages && ws.ip == ip && HoldsSlot(s.stages[ws])
  }

  function Leaked(s: State, ip: Address): set<Socket> {
    set ws | ws in s.stages && ws.ip == ip && s.stages[ws].Failed?
  }

  /** Every slot in the counter belongs to a live connection or to a failed handshake. */
  ghost predicate SlotsCounted(s: State, ip: Address) {
    Counter(s, ip) == |Live(s, ip)| + |Leaked(s, ip)| <= MAX_PER_ADDRESS
  }

  /** A socket is registered exactly while its writer runs, with a queue within its limit. */
  ghost predicate Registered(s: State, ws: Socket) {
    && (ws in s.active <==> At(s, ws, Writing))
    && (ws in s.active ==> |s.active[ws]| <= QUEUE_LIMIT)
  }

  ghost predicate Inv(s: State) {
    && (forall ip :: SlotsCounted(s, ip))
    && (forall ws :: Registered(s, ws))
  }

  lemma StageMovesSlots(s: State, t: State, ws: Socket, stage: Stage, ip: Address)
    requires t.stages == s.stages[ws := stage]
    ensures Live(t, ip) == if ws.ip == ip && HoldsSlot(stage) then Live(s, ip) + {ws} else Live(s, ip) - {ws}
    ensures Leaked(t, ip) == if ws.ip == ip && stage.Failed? then Leaked(s, ip) + {ws} else Leaked(s, ip) - {ws}
  {
  }

  function One(b: bool): int { if b then 1 else 0 }

  lemma StageMovesCounts(s: State, t: State, ws: Socket, stage: Stage, ip: Address)
    requires t.stages == s.stages[ws := stage]
    ensures |Live(t, ip)| == |Live(s, ip)| - One(ws in Live(s, ip)) + One(ws.ip == ip && HoldsSlot(stage))
    ensures |Leaked(t, ip)| == |Leaked(s, ip)| - One(ws in Leaked(s, ip)) + One(ws.ip == ip && stage.Failed?)
  {
    StageMovesSlots(s, t, ws, stage, ip);
    SizeAfter(Live(s, ip), ws);
    SizeAfter(Leaked(s, ip), ws);
  }

  lemma SizeAfter(a: set<Socket>, ws: Socket)
    ensures |a + {ws}| == |a| - One(ws in a) + 1
    ensures |a - {ws}| == |a| - One(ws in a)
  {
    if ws in a {
      assert a + {ws} == a;
    }
  }

  /** Does the socket occupy a slot of this address? */
  predicate Occupies(s: State, ws: Socket, ip: Address) {
    ws in s.stages && ws.ip == ip && (HoldsSlot(s.stages[ws]) || s.stages[ws].Failed?)
  }

  lemma CounterMoves(s: State, e: Event, ip: Address)
    requires !e.Broadcast? && 0 <= Counter(s, ip)
    requires Occupies(s, e.ws, ip) ==> Counter(s, ip) >= 1
    ensures Counter(Step(s, e), ip) == Counter(s, ip) - One(Occupies(s, e.ws, ip)) + One(Occupies(Step(s, e), e.ws, ip))
    ensures Counter(Step(s, e), ip) <= MAX_PER_ADDRESS || Counter(Step(s, e), ip) <= Counter(s, ip)
  {
  }

  lemma OccupiedMeansCounted(s: State, ws: Socket, ip: Address)
    ensures One(Occupies(s, ws, ip)) == One(ws in Live(s, ip)) + One(ws in Leaked(s, ip))
    ensures Occupies(s, ws, ip) ==> |Live(s, ip)| + |Leaked(s, ip)| >= 1
  {
    if ws in Live(s, ip) {
      assert |Live(s, ip)| >= 1;
    } else if ws in Leaked(s, ip) {
      assert |Leaked(s, ip)| >= 1;
    }
  }

  /** One event changes the slots of an address and its counter by the same amount. */
  lemma StepMovesSlots(s: State, e: Event, ip: Address)
    requires SlotsCounted(s, ip)
    ensures SlotsCounted(Step(s, e), ip)
  {
    var t := Step(s, e);
    if t.stages == s.stages {
      SameSlots(s, t, ip);
      assert t.counts == s.counts;
    } else {
      OccupiedMeansCounted(s, e.ws, ip);
      OccupiedMeansCounted(t, e.ws, ip);
      CounterMoves(s, e, ip);
      StageMovesCounts(s, t, e.ws, t.stages[e.ws], ip);
    }
  }

  lemma SameSlots(s: State, t: State, ip: Address)
    requires t.stages == s.stages
    ensures Live(t, ip) == Live(s, ip) && Leaked(t, ip) == Leaked(s, ip)
  {
  }

  lemma StepKeepsRegistered(s: State, e: Event, ws: Socket)
    requires Inv(s)
    ensures Registered(Step(s, e), ws)
  {
    assert Registered(s, ws);
  }

  lemma StepKeepsInv(s: State, e: Event)
    requires Inv(s)
    ensures Inv(Step(s, e))
  {
    forall ip ensures SlotsCounted(Step(s, e), ip) {
      assert SlotsCounted(s, ip);
      StepMovesSlots(s, e, ip);
    }
    forall ws ensures Registered(Step(s, e), ws) {
      StepKeepsRegistered(s, e, ws);
    }
  }

  lemma InitialInv()
    ensures Inv(INITIAL)
  {
    forall ip ensures SlotsCounted(INITIAL, ip) {
      assert Live(INITIAL, ip) == {} && Leaked(INITIAL, ip) == {};
    }
  }

  lemma {:induction false} RunKeepsInv(s: State, es: seq<Event>)
    requires Inv(s)
    ensures Inv(Run(s, es))
    decreases |es|
  {
    if es != [] {
      StepKeepsInv(s, es[0]);
      RunKeepsInv(Step(s, es[0]), es[1..]);
    }
  }

  /** In every interleaving: live connections never exceed the counter, which never exceeds three. */
  lemma LiveWithinCounter(es: seq<Event>, ip: Address)
    ensures |Live(Run(INITIAL, es), ip)| <= Counter(Run(INITIAL, es), ip) <= MAX_PER_ADDRESS
    ensures Counter(Run(INITIAL, es), ip) == |Live(Run(INITIAL, es), ip)| <==> Leaked(Run(INITIAL, es), ip) == {}
  {
    InitialInv();
    RunKeepsInv(INITIAL, es);
    assert SlotsCounted(Run(INITIAL, es), ip);
  }

  /** The two defensive parts of the release, the default of one and the floor of zero, never act. */
  lemma ReleaseIsExact(es: seq<Event>, ws: Socket)
    requires Connected(Run(INITIAL, es), ws)
    ensures ws.ip in Run(INITIAL, es).counts && Counter(Run(INITIAL, es), ws.ip) >= 1
    ensures Counter(Step(Run(INITIAL, es), Disconnect(ws)), ws.ip) == Counter(Run(INITIAL, es), ws.ip) - 1
  {
    var s := Run(INITIAL, es);
    InitialInv();
    RunKeepsInv(INITIAL, es);
    assert SlotsCounted(s, ws.ip);
    assert ws in Live(s, ws.ip);
  }

  lemma {:induction false} LeakedForGood(s: State, es: seq<Event>, ip: Address)
    ensures Leaked(s, ip) <= Leaked(Run(s, es), ip)
    decreases |es|
  {
    if es != [] {
      assert Leaked(s, ip) <= Leaked(Step(s, es[0]), ip);
      LeakedForGood(Step(s, es[0]), es[1..], ip);
    }
  }

  /** After three failed handshakes an address never has a live connection again. */
  lemma FailedHandshakesExclude(before: seq<Event>, after: seq<Event>, ip: Address)
    requires |Leaked(Run(INITIAL, before), ip)| >= MAX_PER_ADDRESS
    ensures Live(Run(Run(INITIAL, before), after), ip) == {}
  {
    var s := Run(INITIAL, before);
    InitialInv();
    RunKeepsInv(INITIAL, before);
    RunKeepsInv(s, after);
    LeakedForGood(s, after, ip);
    SubsetSize(Leaked(s, ip), Leaked(Run(s, after), ip));
    assert SlotsCounted(Run(s, after), ip);
  }

  lemma {:induction false} UnusedId(sockets: set<Socket>) returns (id: nat)
    ensures forall ws :: ws in sockets ==> ws.id < id
  {
    if sockets == {} {
      id := 0;
    } else {
      var some :| some in sockets;
      var other := UnusedId(sockets - {some});
      id := if some.id < other then other else some.id + 1;
    }
  }

  /** With fewer failed handshakes, some continuation has a live connection: at the latest a new one. */
  lemma FewerFailuresAdmit(before: seq<Event>, ip: Address) returns (after: seq<Event>)
    requires |Leaked(Run(INITIAL, before), ip)| < MAX_PER_ADDRESS
    ensures Live(Run(Run(INITIAL, before), after), ip) != {}
  {
    var s := Run(INITIAL, before);
    after := [];
    if Live(s, ip) == {} {
      InitialInv();
      RunKeepsInv(INITIAL, before);
      assert SlotsCounted(s, ip);
      var id := UnusedId(s.stages.Keys);
      var ws := Socket(id, ip);
      after := [Connect(ws)];
      assert after[1..] == [] && Run(s, after) == Step(s, after[0]);
      assert ws in Live(Run(s, after), ip);
    }
  }

  /** Exactly when an address is shut out for good: after three failed handshakes. */
  lemma ExcludedExactly(before: seq<Event>, ip: Address)
    ensures (forall after :: Live(Run(Run(INITIAL, before), after), ip) == {}) <==>
            |Leaked(Run(INITIAL, before), ip)| >= MAX_PER_ADDRESS
  {
    if |Leaked(Run(INITIAL, before), ip)| >= MAX_PER_ADDRESS {
      forall after ensures Live(Run(Run(INITIAL, before), after), ip) == {} {
        FailedHandshakesExclude(before, after, ip);
      }
    } else {
      var after := FewerFailuresAdmit(before, ip);
    }
  }

  function FailedHandshakes(ip: Address): seq<Event> {
    [Connect(Socket(0, ip)), AcceptFails(Socket(0, ip)), Connect(Socket(1, ip)), AcceptFails(Socket(1, ip)),
     Connect(Socket(2, ip)), AcceptFails(Socket(2, ip))]
  }

  function ThreeLeaked(ip: Address): State {
    State(map[], map[ip := 3], map[Socket(0, ip) := Failed, Socket(1, ip) := Failed, Socket(2, ip) := Failed])
  }

  lemma LeaksThree(ip: Address)
    ensures Live(ThreeLeaked(ip), ip) == {} && |Leaked(ThreeLeaked(ip), ip)| == MAX_PER_ADDRESS
  {
    assert Leaked(ThreeLeaked(ip), ip) == {Socket(0, ip), Socket(1, ip), Socket(2, ip)};
  }

  lemma RunLeaksThree(ip: Address)
    ensures Run(INITIAL, FailedHandshakes(ip)) == ThreeLeaked(ip)
  {
    var es := FailedHandshakes(ip);
    var s1 := State(map[], map[ip := 1], map[Socket(0, ip) := Failed]);
    assert es[2..] == [Connect(Socket(1, ip)), AcceptFails(Socket(1, ip)), Connect(Socket(2, ip)), AcceptFails(Socket(2, ip))];
    FailedHandshake(INITIAL, Socket(0, ip), es, s1);
    RunLeaksTwoMore(ip, s1, es[2..]);
  }

  lemma RunLeaksTwoMore(ip: Address, s: State, es: seq<Event>)
    requires s == State(map[], map[ip := 1], map[Socket(0, ip) := Failed])
    requires es == [Connect(Socket(1, ip)), AcceptFails(Socket(1, ip)), Connect(Socket(2, ip)), AcceptFails(Socket(2, ip))]
    ensures Run(s, es) == ThreeLeaked(ip)
  {
    var s' := State(map[], map[ip := 2], map[Socket(0, ip) := Failed, Socket(1, ip) := Failed]);
    var last := es[2..];
    assert last == [Connect(Socket(2, ip)), AcceptFails(Socket(2, ip))] && last[2..] == [];
    FailedHandshake(s, Socket(1, ip), es, s');
    FailedHandshake(s', Socket(2, ip), last, ThreeLeaked(ip));
  }

  /** The leak at an input: no socket is live, the counter stands at three, and a fourth socket is refused. */
  lemma FourthConnectionRefused(ip: Address)
    ensures var s := Run(INITIAL, FailedHandshakes(ip));
            && Live(s, ip) == {} && Counter(s, ip) == |Leaked(s, ip)| == MAX_PER_ADDRESS
            && At(Step(s, Connect(Socket(3, ip))), Socket(3, ip), Refused)
  {
    RunLeaksThree(ip);
    LeaksThree(ip);
  }

  lemma FailedHandshake(s: State, ws: Socket, es: seq<Event>, t: State)
    requires |es| >= 2 && es[0] == Connect(ws) && es[1] == AcceptFails(ws)
    requires ws !in s.stages && Counter(s, ws.ip) < MAX_PER_ADDRESS
    requires t == State(s.active, s.counts[ws.ip := Counter(s, ws.ip) + 1], s.stages[ws := Failed])
    ensures Run(s, es) == Run(t, es[2..])
  {
    assert es[1..][0] == es[1] && es[1..][1..] == es[2..];
    var mid := Step(s, es[0]);
    assert Step(mid, es[1]) == t;
    assert Run(s, es) == Run(mid, es[1..]);
  }

  // Delivery

  function Queue(s: State, ws: Socket): seq<Message> {
    if ws in s.active then s.active[ws] else []
  }

  /** The message an event hands to the sender of a socket, if it hands one over. */
  function Taken(s: State, e: Event, ws: Socket): seq<Message> {
    if e == WriterTakes(ws) && Queue(s, ws) != [] then [Queue(s, ws)[0]] else []
  }

  /** The message an event offers to a registered socket, and the same if its queue has room. */
  function Offer(s: State, e: Event, ws: Socket): seq<Message> {
    if e.Broadcast? && ws in s.active then [e.message] else []
  }

  function Accept(s: State, e: Event, ws: Socket): seq<Message> {
    if |Queue(s, ws)| < QUEUE_LIMIT then Offer(s, e, ws) else []
  }

  function Handed(s: State, es: seq<Event>, ws: Socket): seq<Message>
    decreases |es|
  {
    if es == [] then [] else Taken(s, es[0], ws) + Handed(Step(s, es[0]), es[1..], ws)
  }

  function Offered(s: State, es: seq<Event>, ws: Socket): seq<Message>
    decreases |es|
  {
    if es == [] then [] else Offer(s, es[0], ws) + Offered(Step(s, es[0]), es[1..], ws)
  }

  function Accepted(s: State, es: seq<Event>, ws: Socket): seq<Message>
    decreases |es|
  {
    if es == [] then [] else Accept(s, es[0], ws) + Accepted(Step(s, es[0]), es[1..], ws)
  }

  // Messages do arrive

  function Broadcasts(ms: seq<Message>): seq<Event> {
    if ms == [] then [] else [Broadcast(ms[0])] + Broadcasts(ms[1..])
  }

  function Takes(ws: Socket, n: nat): seq<Event> {
    if n == 0 then [] else [WriterTakes(ws)] + Takes(ws, n - 1)
  }

  /** A socket that is accepted and starts its writer, then ms are broadcast, then its writer takes n times. */
  function Session(ws: Socket, ms: seq<Message>, n: nat): seq<Event> {
    [Connect(ws), AcceptSucceeds(ws), WriterStarts(ws)] + (Broadcasts(ms) + Takes(ws, n))
  }

  /** At most the first n messages. */
  function First(ms: seq<Message>, n: int): seq<Message> {
    if n <= 0 then [] else if |ms| <= n then ms else ms[..n]
  }

  lemma {:induction false} HandedAppend(s: State, es: seq<Event>, more: seq<Event>, ws: Socket)
    ensures Run(s, es + more) == Run(Run(s, es), more)
    ensures Handed(s, es + more, ws) == Handed(s, es, ws) + Handed(Run(s, es), more, ws)
    decreases |es|
  {
    if es == [] {
      assert es + more == more;
    } else {
      assert (es + more)[0] == es[0] && (es + more)[1..] == es[1..] + more;
      HandedAppend(Step(s, es[0]), es[1..], more, ws);
    }
  }

  lemma {:induction false} BroadcastsFill(s: State, ms: seq<Message>, ws: Socket)
    requires ws in s.active && |s.active[ws]| <= 100
    ensures Handed(s, Broadcasts(ms), ws) == []
    ensures var t := Run(s, Broadcasts(ms)); ws in t.active && t.active[ws] == s.active[ws] + First(ms, 100 - |s.active[ws]|)
    decreases |ms|
  {
    if ms != [] {
      var es, t := Broadcasts(ms), Step(s, Broadcast(ms[0]));
      assert es[0] == Broadcast(ms[0]) && es[1..] == Broadcasts(ms[1..]);
      BroadcastsFill(t, ms[1..], ws);
      FirstOfMore(s.active[ws], ms);
    }
  }

  lemma FirstOfMore(q: seq<Message>, ms: seq<Message>)
    requires ms != [] && |q| <= 100
    ensures |q| < 100 ==> (q + [ms[0]]) + First(ms[1..], 100 - |q| - 1) == q + First(ms, 100 - |q|)
    ensures |q| == 100 ==> First(ms[1..], 0) == First(ms, 0) == []
  {}

  lemma {:induction false} TakesHandOver(s: State, ws: Socket, n: nat)
    requires ws in s.active
    ensures Handed(s, Takes(ws, n), ws) == First(s.active[ws], n)
    decreases n
  {
    if n > 0 {
      var es, t := Takes(ws, n), Step(s, WriterTakes(ws));
      assert es[0] == WriterTakes(ws) && es[1..] == Takes(ws, n - 1);
      HandedNext(s, es, ws);
      TakesHandOver(t, ws, n - 1);
      TakeOne(s, ws, n);
    }
  }

  lemma TakeOne(s: State, ws: Socket, n: nat)
    requires ws in s.active && n > 0
    ensures var t := Step(s, WriterTakes(ws));
            ws in t.active && Taken(s, WriterTakes(ws), ws) + First(t.active[ws], n - 1) == First(s.active[ws], n)
  {
    var q := s.active[ws];
    if q != [] {
      assert q == [q[0]] + q[1..];
    }
  }

  lemma OpensEmpty(s: State, ws: Socket)
    requires ws !in s.stages && ws !in s.active && Counter(s, ws.ip) < 3
    ensures var es := [Connect(ws), AcceptSucceeds(ws), WriterStarts(ws)];
            && Handed(s, es, ws) == []
            && ws in Run(s, es).active && Run(s, es).active[ws] == []
  {
    var es := [Connect(ws), AcceptSucceeds(ws), WriterStarts(ws)];
    var s1 := Step(s, es[0]);
    var s2 := Step(s1, AcceptSucceeds(ws));
    assert es[1..][0] == AcceptSucceeds(ws) && es[1..][1..][0] == WriterStarts(ws) && es[1..][1..][1..] == [];
    assert At(s1, ws, Accepting) && At(s2, ws, Pending);
    HandedNext(s, es, ws);
    HandedNext(s1, es[1..], ws);
    HandedNext(s2, es[1..][1..], ws);
  }

  lemma HandedNext(s: State, es: seq<Event>, ws: Socket)
    requires es != []
    ensures Handed(s, es, ws) == Taken(s, es[0], ws) + Handed(Step(s, es[0]), es[1..], ws)
    ensures Run(s, es) == Run(Step(s, es[0]), es[1..])
  {}

  /** Nothing was handed to a socket that is still unused. */
  lemma {:induction false} UnusedIsQuiet(s: State, es: seq<Event>, ws: Socket)
    requires Inv(s) && ws !in Run(s, es).stages
    ensures ws !in s.stages && Handed(s, es, ws) == []
    decreases |es|
  {
    assert Registered(s, ws);
    if es != [] {
      StepKeepsInv(s, es[0]);
      UnusedIsQuiet(Step(s, es[0]), es[1..], ws);
    }
  }

  /**
   Whatever happened before, a new socket of an address with a free slot is handed, in order, what
   is broadcast once its writer has started: all of it up to a hundred messages, and the first
   hundred of more.
   */
  lemma MessagesArrive(before: seq<Event>, ws: Socket, ms: seq<Message>)
    requires ws !in Run(INITIAL, before).stages && Counter(Run(INITIAL, before), ws.ip) < 3
    ensures Handed(INITIAL, before + Session(ws, ms, |ms|), ws) == First(ms, 100)
  {
    var s, entry := Run(INITIAL, before), [Connect(ws), AcceptSucceeds(ws), WriterStarts(ws)];
    InitialInv();
    RunKeepsInv(INITIAL, before);
    assert Registered(s, ws);
    UnusedIsQuiet(INITIAL, before, ws);
    OpensEmpty(s, ws);
    var t := Run(s, entry);
    BroadcastsFill(t, ms, ws);
    TakesHandOver(Run(t, Broadcasts(ms)), ws, |ms|);
    HandedAppend(t, Broadcasts(ms), Takes(ws, |ms|), ws);
    HandedAppend(s, entry, Broadcasts(ms) + Takes(ws, |ms|), ws);
    HandedAppend(INITIAL, before, Session(ws, ms, |ms|), ws);
  }

  /** The stations of a socket: registered with an empty queue, deregistered, released. */
  lemma Stations(s: State, ws: Socket)
    ensures At(s, ws, Accepting) ==> At(Step(s, AcceptSucceeds(ws)), ws, Pending) && At(Step(s, AcceptFails(ws)), ws, Failed)
    ensures var t := Step(s, WriterStarts(ws));
            At(s, ws, Pending) ==> At(t, ws, Writing) && ws in t.active && t.active[ws] == []
    ensures var t := Step(s, WriterStops(ws));
            At(s, ws, Writing) ==> At(t, ws, Silent) && ws !in t.active && t.counts == s.counts
    ensures var t := Step(s, Disconnect(ws));
            At(s, ws, Pending) || At(s, ws, Writing) || At(s, ws, Silent) ==> At(t, ws, Closed) && ws !in t.active
  {}

  ghost predicate Subsequence(a: seq<Message>, b: seq<Message>)
    decreases |b|
  {
    a == [] || (b != [] && ((a[0] == b[0] && Subsequence(a[1..], b[1..])) || Subsequence(a, b[1..])))
  }

  lemma StepQueues(s: State, e: Event, ws: Socket)
    requires Inv(s)
    ensures ws in Step(s, e).active ==>
              Queue(s, ws) + Accept(s, e, ws) == Taken(s, e, ws) + Queue(Step(s, e), ws)
    ensures ws !in Step(s, e).active ==>
              Taken(s, e, ws) == Accept(s, e, ws) == []
  {
    assert Registered(s, ws);
    if e == WriterTakes(ws) && ws in s.active && s.active[ws] != [] {
      assert s.active[ws] == [s.active[ws][0]] + s.active[ws][1..];
    }
  }

  /** A socket that will not be registered any more. */
  predicate Finished(s: State, ws: Socket) {
    At(s, ws, Silent) || At(s, ws, Closed) || At(s, ws, Failed) || At(s, ws, Refused)
  }

  lemma StepStaysFinished(s: State, e: Event, ws: Socket)
    requires Inv(s) && Finished(s, ws)
    ensures Finished(Step(s, e), ws)
    ensures Taken(s, e, ws) == Offer(s, e, ws) == []
  {
    assert Registered(s, ws);
  }

  lemma {:induction false} FinishedIsQuiet(s: State, es: seq<Event>, ws: Socket)
    requires Inv(s) && Finished(s, ws)
    ensures Handed(s, es, ws) == Accepted(s, es, ws) == Offered(s, es, ws) == []
    ensures ws !in Run(s, es).active
    decreases |es|
  {
    assert Registered(s, ws);
    if es != [] {
      StepStaysFinished(s, es[0], ws);
      StepKeepsInv(s, es[0]);
      FinishedIsQuiet(Step(s, es[0]), es[1..], ws);
    }
  }

  /**
   First in, first out: what the sender was given is, in order, what the queue accepted, up to what
   is still queued, or up to what a closed connection left behind.
   */
  lemma {:induction false} HandedInOrder(s: State, es: seq<Event>, ws: Socket)
    requires Inv(s)
    ensures ws in Run(s, es).active ==>
              Handed(s, es, ws) + Queue(Run(s, es), ws) == Queue(s, ws) + Accepted(s, es, ws)
    ensures Handed(s, es, ws) <= Queue(s, ws) + Accepted(s, es, ws)
    decreases |es|
  {
    if es != [] {
      var e, t, rest := es[0], Step(s, es[0]), es[1..];
      StepKeepsInv(s, e);
      StepQueues(s, e, ws);
      assert Registered(s, ws) && Registered(t, ws);
      if ws in s.active && ws !in t.active {
        FinishedIsQuiet(t, rest, ws);
      } else {
        HandedInOrder(t, rest, ws);
        JoinQueues(Queue(s, ws), Accept(s, e, ws), Taken(s, e, ws), Queue(t, ws),
                   Handed(t, rest, ws), Accepted(t, rest, ws), Queue(Run(t, rest), ws));
      }
    }
  }

  lemma JoinQueues(q: seq<Message>, a: seq<Message>, t: seq<Message>, q1: seq<Message>,
                   handed: seq<Message>, accepted: seq<Message>, left: seq<Message>)
    requires q + a == t + q1 && handed <= q1 + accepted
    ensures t + handed <= q + (a + accepted)
    ensures handed + left == q1 + accepted ==> (t + handed) + left == q + (a + accepted)
  {
    assert q + (a + accepted) == (q + a) + accepted == t + (q1 + accepted);
    assert (t + handed) + left == t + (handed + left);
  }

  lemma {:induction false} AcceptedFromOffered(s: State, es: seq<Event>, ws: Socket)
    ensures Subsequence(Accepted(s, es, ws), Offered(s, es, ws))
    decreases |es|
  {
    if es != [] {
      var e, t, rest := es[0], Step(s, es[0]), es[1..];
      AcceptedFromOffered(t, rest, ws);
      SubsequencePrepend(Accept(s, e, ws), Offer(s, e, ws), Accepted(t, rest, ws), Offered(t, rest, ws));
    }
  }

  lemma SubsequencePrepend(x: seq<Message>, y: seq<Message>, a: seq<Message>, b: seq<Message>)
    requires |y| <= 1 && (x == y || x == []) && Subsequence(a, b)
    ensures Subsequence(x + a, y + b)
  {
    if y == [] {
      assert x + a == a && y + b == b;
    } else {
      assert (y + b)[1..] == b;
      if x == [] {
        assert x + a == a;
      } else {
        assert (x + a)[1..] == a;
      }
    }
  }

  lemma {:induction false} PrefixOfSubsequence(p: seq<Message>, a: seq<Message>, b: seq<Message>)
    requires p <= a && Subsequence(a, b)
    ensures Subsequence(p, b)
    decreases |b|
  {
    if p != [] {
      if a[0] == b[0] && Subsequence(a[1..], b[1..]) {
        assert p[1..] <= a[1..];
        PrefixOfSubsequence(p[1..], a[1..], b[1..]);
      } else {
        PrefixOfSubsequence(p, a, b[1..]);
      }
    }
  }

  /**
   In every interleaving from the start, the messages given to the sender of a socket are an
   in-order subsequence of those broadcast while it was registered.
   */
  lemma HandedFromOffered(es: seq<Event>, ws: Socket)
    ensures Subsequence(Handed(INITIAL, es, ws), Offered(INITIAL, es, ws))
    ensures Handed(INITIAL, es, ws) <= Accepted(INITIAL, es, ws)
  {
    InitialInv();
    HandedInOrder(INITIAL, es, ws);
    assert Queue(INITIAL, ws) + Accepted(INITIAL, es, ws) == Accepted(INITIAL, es, ws);
    AcceptedFromOffered(INITIAL, es, ws);
    PrefixOfSubsequence(Handed(INITIAL, es, ws), Accepted(INITIAL, es, ws), Offered(INITIAL, es, ws));
  }

  /** A message is dropped only by a full queue: with few enough on offer, none is. */
  lemma {:induction false} NoDropWithRoom(s: State, es: seq<Event>, ws: Socket)
    requires Inv(s) && |Queue(s, ws)| + |Offered(s, es, ws)| <= QUEUE_LIMIT
    ensures Accepted(s, es, ws) == Offered(s, es, ws)
    decreases |es|
  {
    if es != [] {
      var e, t := es[0], Step(s, es[0]);
      StepKeepsInv(s, e);
      StepQueues(s, e, ws);
      NoDropWithRoom(t, es[1..], ws);
    }
  }

  // Independence of clients

  /** The events that concern a socket: broadcasts and its own. */
  predicate Concerns(e: Event, ws: Socket) {
    e.Broadcast? || e.ws == ws
  }

  function Own(es: seq<Event>, ws: Socket): seq<Event> {
    if es == [] then []
    else if Concerns(es[0], ws) then [es[0]] + Own(es[1..], ws)
    else Own(es[1..], ws)
  }

  /** The two states do not differ for a socket that has already asked to connect. */
  predicate SameClient(s: State, t: State, ws: Socket) {
    && ws in s.stages && ws in t.stages && s.stages[ws] == t.stages[ws]
    && (ws in s.active <==> ws in t.active)
    && Queue(s, ws) == Queue(t, ws)
  }

  lemma OthersUnseen(s: State, e: Event, ws: Socket)
    requires !Concerns(e, ws) && ws in s.stages
    ensures SameClient(s, Step(s, e), ws)
    ensures Taken(s, e, ws) == Accept(s, e, ws) == []
  {
  }

  lemma SameClientStep(s: State, t: State, e: Event, ws: Socket)
    requires SameClient(s, t, ws) && Concerns(e, ws)
    ensures SameClient(Step(s, e), Step(t, e), ws)
    ensures Taken(s, e, ws) == Taken(t, e, ws) && Accept(s, e, ws) == Accept(t, e, ws)
  {
  }

  /** What a client receives does not depend on the other clients, however slow they are. */
  lemma {:induction false} ClientsIndependent(s: State, es: seq<Event>, t: State, fs: seq<Event>, ws: Socket)
    requires SameClient(s, t, ws) && Own(es, ws) == Own(fs, ws)
    ensures Handed(s, es, ws) == Handed(t, fs, ws)
    ensures Accepted(s, es, ws) == Accepted(t, fs, ws)
    decreases |es| + |fs|
  {
    if es != [] && !Concerns(es[0], ws) {
      OthersUnseen(s, es[0], ws);
      ClientsIndependent(Step(s, es[0]), es[1..], t, fs, ws);
    } else if fs != [] && !Concerns(fs[0], ws) {
      OthersUnseen(t, fs[0], ws);
      ClientsIndependent(s, es, Step(t, fs[0]), fs[1..], ws);
    } else if es != [] && fs != [] {
      assert Own(es, ws)[0] == Own(fs, ws)[0] && Own(es, ws)[1..] == Own(fs, ws)[1..];
      SameClientStep(s, t, es[0], ws);
      ClientsIndependent(Step(s, es[0]), es[1..], Step(t, fs[0]), fs[1..], ws);
    }
  }

  // The server

  class Server {
    var active: map<Socket, seq<Message>>
    var counts: map<Address, int>
    var stages: map<Socket, Stage>

    function Current(): State
      reads this
    {
      State(active, counts, stages)
    }

    constructor ()
      ensures Current() == INITIAL && Inv(Current())
    {
      active, counts, stages := map[], map[], map[];
      new;
      InitialInv();
    }

    method Admit(ws: Socket) returns (admitted: bool)
      requires ws !in stages
      modifies this
      ensures Current() == Step(old(Current()), Connect(ws))
      ensures admitted <==> Counter(old(Current()), ws.ip) < MAX_PER_ADDRESS
    {
      var current := if ws.ip in counts then counts[ws.ip] else 0;
      if current >= MAX_PER_ADDRESS {
        stages := stages[ws := Refused];
        return false;
      }
      counts := counts[ws.ip := current + 1];
      stages := stages[ws := Accepting];
      return true;
    }

    /** The handshake returns, and then the writer task is created, or it raises. */
    method Handshake(ws: Socket, succeeds: bool)
      requires At(Current(), ws, Accepting)
      modifies this`stages
      ensures Current() == Step(old(Current()), if succeeds then AcceptSucceeds(ws) else AcceptFails(ws))
    {
      stages := stages[ws := if succeeds then Pending else Failed];
    }

    method StartWriter(ws: Socket)
      requires At(Current(), ws, Pending)
      modifies this`active, this`stages
      ensures Current() == Step(old(Current()), WriterStarts(ws))
      ensures active == old(active)[ws := []] && At(Current(), ws, Writing)
    {
      active := active[ws := []];
      stages := stages[ws := Writing];
    }

    method BroadcastToAll(message: Message)
      modifies this`active
      ensures Current() == Step(old(Current()), Broadcast(message))
    {
      if active == map[] {
        assert active == PutAll(active, message);
        return;
      }
      var todo := active.Keys;
      while todo != {}
        invariant todo <= active.Keys == old(active).Keys
        invariant forall ws :: ws in active ==>
                    active[ws] == if ws in todo then old(active)[ws] else Put(old(active)[ws], message)
        decreases todo
      {
        var ws :| ws in todo;
        if |active[ws]| < QUEUE_LIMIT {
          active := active[ws := active[ws] + [message]];
        }
        todo := todo - {ws};
      }
      assert active == PutAll(old(active), message);
    }

    /** The get of the writer returns: the head of the queue goes to the sender. */
    method TakeNext(ws: Socket) returns (message: Message)
      requires ws in active && active[ws] != []
      modifies this`active
      ensures Current() == Step(old(Current()), WriterTakes(ws))
      ensures [message] == Taken(old(Current()), WriterTakes(ws), ws)
    {
      message := active[ws][0];
      active := active[ws := active[ws][1..]];
    }

    method EndWriter(ws: Socket)
      requires At(Current(), ws, Writing)
      modifies this`active, this`stages
      ensures Current() == Step(old(Current()), WriterStops(ws))
      ensures active == old(active) - {ws} && At(Current(), ws, Silent)
    {
      if ws in active {
        active := active - {ws};
      } else {
        assert active - {ws} == active;
      }
      stages := stages[ws := Silent];
    }

    method Release(ws: Socket)
      requires Connected(Current(), ws)
      modifies this
      ensures Current() == Step(old(Current()), Disconnect(ws))
    {
      if ws in active {
        active := active - {ws};
      } else {
        assert active - {ws} == active;
      }
      var count := if ws.ip in counts then counts[ws.ip] else 1;
      counts := counts[ws.ip := if count - 1 > 0 then count - 1 else 0];
      stages := stages[ws := Closed];
    }
  }
}
