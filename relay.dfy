/** The socket relay of server.ts: a connection counter, the registry of live
    sockets, and one handler per inbound event, each of which returns the
    deliveries it asks the transport to make. */
module Relay {
  import opened Seqs

  /** A socket id, assigned by the transport when a client connects. */
  type ConnId = string

  /** The events the server emits. `P` is the client-supplied payload, which
      the relay passes on without looking at it. */
  datatype Outbound<P> =
    | UserCountUpdate(count: int)  // "user count update"
    | Clear                        // "clear", no payload
    | Draw(data: P)                // "draw"
    | ChatMessage(msg: P)          // "chat message"
    | Typing(data: P)              // "typing"

  /** One emitted event addressed to one connection. */
  datatype Delivery<P> = Delivery(to: ConnId, event: Outbound<P>)

  /** The connections the deliveries go to, in order. */
  function Recipients<P>(out: seq<Delivery<P>>): (ids: seq<ConnId>)
    ensures |ids| == |out|
  {
    if out == [] then [] else [out[0].to] + Recipients(out[1..])
  }

  /** The fan-out of one event to every connection in `ids` (`io.emit` over
      the live connections, `socket.broadcast.emit` over all but the sender):
      each of them gets it once, in registry order, and nobody else does. */
  function ToAll<P>(ids: seq<ConnId>, e: Outbound<P>): (r: seq<Delivery<P>>)
    ensures Recipients(r) == ids
    ensures forall d :: d in r ==> d.event == e
  {
    if ids == [] then []
    else
      var r := [Delivery(ids[0], e)] + ToAll(ids[1..], e);
      assert r[1..] == ToAll(ids[1..], e);
      r
  }

  /** The server's state: the counter and the live connections in the order
      they registered. */
  datatype Registry = Registry(count: int, live: seq<ConnId>) {
    /** The counter is never negative and no socket is registered twice. */
    ghost predicate Valid() {
      count >= 0 && Distinct(live)
    }
    /** The counter agrees with the number of live connections. */
    ghost predicate Balanced() {
      count == |live|
    }
  }

  /** The process starts with no connections and a zero counter. */
  const Initial: Registry := Registry(0, [])

  /** The two notifications that change state. */
  datatype Lifecycle = Connected(id: ConnId) | Disconnected(id: ConnId)

  /** `Math.max(0, c - 1)` */
  function DecrementFloored(c: int): (r: int)
    ensures r >= 0
    ensures c >= 1 ==> r == c - 1
    ensures c <= 1 ==> r == 0
  {
    if 0 > c - 1 then 0 else c - 1
  }

  /** A connection registers its socket and adds one to the counter; a
      disconnect unregisters it and lowers the counter, floored at zero. */
  function Step(r: Registry, e: Lifecycle): (next: Registry)
    ensures r.count >= 0 ==> next.count >= 0
    ensures e.Connected? ==> e.id in next.live && |next.live| == |r.live| + 1
    ensures e.Disconnected? ==> e.id !in next.live && |next.live| <= |r.live|
  {
    match e
    case Connected(id) => Registry(r.count + 1, r.live + [id])
    case Disconnected(id) => Registry(DecrementFloored(r.count), RemoveAll(r.live, id))
  }

  /** A sequence of notifications applied in order. */
  function Run(r: Registry, trace: seq<Lifecycle>): Registry
    decreases |trace|
  {
    if trace == [] then r else Run(Step(r, trace[0]), trace[1..])
  }

  /** The notifications the transport can actually deliver: a connect with a
      fresh id, a disconnect of a live one. */
  predicate Admissible(r: Registry, e: Lifecycle) {
    match e
    case Connected(id) => id !in r.live
    case Disconnected(id) => id in r.live
  }

  predicate AdmissibleRun(r: Registry, trace: seq<Lifecycle>)
    decreases |trace|
  {
    trace == [] || (Admissible(r, trace[0]) && AdmissibleRun(Step(r, trace[0]), trace[1..]))
  }

  /** A step keeps the registry valid whenever a connect brings a fresh id,
      and a disconnect keeps it valid even if its id is unknown or gone. */
  lemma StepValid(r: Registry, e: Lifecycle)
    requires r.Valid()
    requires e.Connected? ==> e.id !in r.live
    ensures Step(r, e).Valid()
  {
    match e
    case Connected(id) =>
      DistinctAppend(r.live, id);
    case Disconnected(id) =>
      RemoveAllDistinct(r.live, id);
  }

  /** A step touches only its own id's registration: every other connection
      stays registered or unregistered as it was. */
  lemma StepOthers(r: Registry, e: Lifecycle, x: ConnId)
    requires x != e.id
    ensures x in Step(r, e).live <==> x in r.live
  {
    if e.Disconnected? {
      RemoveAllMember(r.live, e.id, x);
    }
  }

  /** An admissible step keeps the counter equal to the number of live connections. */
  lemma StepBalanced(r: Registry, e: Lifecycle)
    requires r.Valid() && r.Balanced() && Admissible(r, e)
    ensures Step(r, e).Valid() && Step(r, e).Balanced()
  {
    StepValid(r, e);
    if e.Disconnected? {
      RemoveAllDistinct(r.live, e.id);
    }
  }

  lemma {:induction false} RunAppend(r: Registry, a: seq<Lifecycle>, b: seq<Lifecycle>)
    ensures Run(r, a + b) == Run(Run(r, a), b)
    decreases |a|
  {
    if a == [] {
      assert a + b == b;
    } else {
      assert (a + b)[0] == a[0] && (a + b)[1..] == a[1..] + b;
      RunAppend(Step(r, a[0]), a[1..], b);
    }
  }

  /** However many disconnects arrive, duplicated or unmatched, the counter
      never goes below zero. */
  lemma {:induction false} RunNeverNegative(r: Registry, trace: seq<Lifecycle>)
    requires r.count >= 0
    ensures Run(r, trace).count >= 0
    decreases |trace|
  {
    if trace != [] {
      RunNeverNegative(Step(r, trace[0]), trace[1..]);
    }
  }

  /** Along any admissible run the counter equals the number of live connections. */
  lemma {:induction false} RunBalanced(r: Registry, trace: seq<Lifecycle>)
    requires r.Valid() && r.Balanced() && AdmissibleRun(r, trace)
    ensures Run(r, trace).Valid() && Run(r, trace).Balanced()
    decreases |trace|
  {
    if trace != [] {
      StepBalanced(r, trace[0]);
      RunBalanced(Step(r, trace[0]), trace[1..]);
    }
  }

  lemma {:induction false} RunConnects(r: Registry, trace: seq<Lifecycle>)
    requires forall i :: 0 <= i < |trace| ==> trace[i].Connected?
    ensures Run(r, trace).count == r.count + |trace|
    decreases |trace|
  {
    if trace != [] {
      RunConnects(Step(r, trace[0]), trace[1..]);
    }
  }

  lemma {:induction false} RunDisconnects(r: Registry, trace: seq<Lifecycle>)
    requires r.count >= 0
    requires forall i :: 0 <= i < |trace| ==> trace[i].Disconnected?
    ensures Run(r, trace).count == if r.count >= |trace| then r.count - |trace| else 0
    decreases |trace|
  {
    if trace != [] {
      RunDisconnects(Step(r, trace[0]), trace[1..]);
    }
  }

  /** From a fresh start, N connects followed by M disconnects leave the
      counter at max(0, N - M); when the disconnects are of live connections,
      that is N - M and also the number of connections still live. */
  lemma ConnectsThenDisconnects(connects: seq<Lifecycle>, disconnects: seq<Lifecycle>)
    requires forall i :: 0 <= i < |connects| ==> connects[i].Connected?
    requires forall i :: 0 <= i < |disconnects| ==> disconnects[i].Disconnected?
    ensures Run(Initial, connects + disconnects).count
            == if |connects| >= |disconnects| then |connects| - |disconnects| else 0
    ensures AdmissibleRun(Initial, connects + disconnects) ==>
              |disconnects| <= |connects| &&
              |Run(Initial, connects + disconnects).live| == |connects| - |disconnects|
  {
    RunAppend(Initial, connects, disconnects);
    RunConnects(Initial, connects);
    RunDisconnects(Run(Initial, connects), disconnects);
    if AdmissibleRun(Initial, connects + disconnects) {
      RunBalanced(Initial, connects + disconnects);
      AdmissibleRunSplit(Initial, connects, disconnects);
      RunBalanced(Initial, connects);
      AdmissibleDisconnects(Run(Initial, connects), disconnects);
    }
  }

  lemma {:induction false} AdmissibleRunSplit(r: Registry, a: seq<Lifecycle>, b: seq<Lifecycle>)
    requires AdmissibleRun(r, a + b)
    ensures AdmissibleRun(r, a) && AdmissibleRun(Run(r, a), b)
    decreases |a|
  {
    if a == [] {
      assert a + b == b;
    } else {
      assert (a + b)[0] == a[0] && (a + b)[1..] == a[1..] + b;
      AdmissibleRunSplit(Step(r, a[0]), a[1..], b);
    }
  }

  /** Disconnects of live connections can be no more than the connections there are. */
  lemma {:induction false} AdmissibleDisconnects(r: Registry, trace: seq<Lifecycle>)
    requires r.Valid() && r.Balanced() && AdmissibleRun(r, trace)
    requires forall i :: 0 <= i < |trace| ==> trace[i].Disconnected?
    ensures |trace| <= r.count
    decreases |trace|
  {
    if trace != [] {
      assert trace[0].id in r.live;
      StepBalanced(r, trace[0]);
      AdmissibleDisconnects(Step(r, trace[0]), trace[1..]);
    }
  }

  /** The relay: the module-level `connectedCount`, socket.io's registry of
      live sockets, and one method per `socket.on` handler. The methods that
      have no `modifies` clause are exactly the handlers that change nothing. */
  class Server<P> {
    var count: int
    var live: seq<ConnId>

    ghost function State(): Registry
      reads this
    {
      Registry(count, live)
    }

    constructor ()
      ensures State() == Initial
    {
      count := 0;
      live := [];
    }

    /** A new socket: it is registered, the counter goes up by one, and the
        new count goes to every live connection, the new one included. */
    method OnConnection(id: ConnId) returns (out: seq<Delivery<P>>)
      requires State().Valid() && id !in live
      modifies this
      ensures State() == Step(old(State()), Connected(id))
      ensures State().Valid()
      ensures old(State().Balanced()) ==> State().Balanced()
      ensures count == old(count) + 1 && id in live
      ensures Recipients(out) == live
      ensures forall d :: d in out ==> d.event == UserCountUpdate(count)
    {
      StepValid(State(), Connected(id));
      live := live + [id];
      count := count + 1;
      out := ToAll(live, UserCountUpdate(count));
    }

    /** A socket goes away: it is unregistered (if it was registered at all),
        the counter drops by one but not below zero, and the new count goes
        to the connections that remain. */
    method OnDisconnect(id: ConnId) returns (out: seq<Delivery<P>>)
      requires State().Valid()
      modifies this
      ensures State() == Step(old(State()), Disconnected(id))
      ensures State().Valid()
      ensures id in old(live) && old(State().Balanced()) ==> State().Balanced()
      ensures count == if old(count) >= 1 then old(count) - 1 else 0
      ensures id !in live
      ensures Recipients(out) == live
      ensures forall d :: d in out ==> d.event == UserCountUpdate(count)
    {
      if id in live && State().Balanced() {
        StepBalanced(State(), Disconnected(id));
      }
      StepValid(State(), Disconnected(id));
      count := DecrementFloored(count);
      live := RemoveAll(live, id);
      out := ToAll(live, UserCountUpdate(count));
    }

    /** "request user count": the current count, to the asker only. */
    method OnRequestUserCount(sender: ConnId) returns (out: seq<Delivery<P>>)
      ensures Recipients(out) == [sender]
      ensures forall d :: d in out ==> d.event == UserCountUpdate(count)
    {
      out := [Delivery(sender, UserCountUpdate(count))];
      assert out[1..] == [];
    }

    /** "user joined": the count is not changed, only announced again to
        every live connection. The user name is only logged. */
    method OnUserJoined(sender: ConnId, username: string) returns (out: seq<Delivery<P>>)
      ensures Recipients(out) == live
      ensures forall d :: d in out ==> d.event == UserCountUpdate(count)
    {
      out := ToAll(live, UserCountUpdate(count));
    }

    /** "clear": a clear signal with no payload to every live connection,
        the sender included. */
    method OnClear(sender: ConnId) returns (out: seq<Delivery<P>>)
      ensures Recipients(out) == live
      ensures forall d :: d in out ==> d.event == Clear
    {
      out := ToAll(live, Clear);
    }

    /** "draw": the stroke, unchanged, to every live connection, the sender included. */
    method OnDraw(sender: ConnId, data: P) returns (out: seq<Delivery<P>>)
      ensures Recipients(out) == live
      ensures forall d :: d in out ==> d.event == Draw(data)
    {
      out := ToAll(live, Draw(data));
    }

    /** "chat message": the message, unchanged, to every live connection,
        the sender included. */
    method OnChatMessage(sender: ConnId, msg: P) returns (out: seq<Delivery<P>>)
      ensures Recipients(out) == live
      ensures forall d :: d in out ==> d.event == ChatMessage(msg)
    {
      out := ToAll(live, ChatMessage(msg));
    }

    /** "typing": the update, unchanged, to every live connection except the
        sender, each of them once. */
    method OnTyping(sender: ConnId, data: P) returns (out: seq<Delivery<P>>)
      ensures Recipients(out) == RemoveAll(live, sender)
      ensures sender !in Recipients(out)
      ensures forall id :: id in live && id != sender ==> id in Recipients(out)
      ensures forall d :: d in out ==> d.event == Typing(data)
      ensures Distinct(live) ==>
                Distinct(Recipients(out)) && |out| == |live| - (if sender in live then 1 else 0)
    {
      out := ToAll(RemoveAll(live, sender), Typing(data));
      forall id | id in live && id != sender ensures id in Recipients(out) {
        RemoveAllMember(live, sender, id);
      }
      if Distinct(live) {
        RemoveAllDistinct(live, sender);
      }
    }
  }

  /** Three clients connect and the second one leaves: what a caller of the
      handlers can conclude from their contracts alone. */
  method ThreeClients() returns (server: Server<int>, out: seq<Delivery<int>>)
    ensures server.live == ["A", "C"] && server.count == 2
    ensures Recipients(out) == ["A", "C"] && forall d :: d in out ==> d.event == UserCountUpdate(2)
  {
    server := ThreeConnected();
    out := server.OnDisconnect("B");
    RemoveFromThree();
  }

  method ThreeConnected() returns (server: Server<int>)
    ensures fresh(server) && server.State() == Registry(3, ["A", "B", "C"])
  {
    server := new Server<int>();
    var out := server.OnConnection("A");
    out := server.OnConnection("B");
    assert server.live == ["A", "B"];
    out := server.OnConnection("C");
  }

  /** Then the first one draws and starts typing: the stroke reaches both
      remaining clients, the typing update only the other one. */
  method DrawThenType(stroke: int) returns (drawn: seq<Delivery<int>>, typed: seq<Delivery<int>>)
    ensures Recipients(drawn) == ["A", "C"] && forall d :: d in drawn ==> d.event == Draw(stroke)
    ensures Recipients(typed) == ["C"] && forall d :: d in typed ==> d.event == Typing(stroke)
  {
    var server, _ := ThreeClients();
    drawn := server.OnDraw("A", stroke);
    typed := server.OnTyping("A", stroke);
    RemoveFromTwo();
  }

  lemma RemoveFromThree()
    ensures RemoveAll(["A", "B", "C"], "B") == ["A", "C"]
  {
    var a, b, c: ConnId := "A", "B", "C";
    assert a != b && c != b by { assert a[0] != b[0] && c[0] != b[0]; }
    RemoveSingle(a, b);
    RemoveSingle(b, b);
    RemoveSingle(c, b);
    RemoveTail(b, c);
    RemoveAllConcat([a], [b] + [c], b);
    assert RemoveAll([a] + ([b] + [c]), b) == [a] + [c];
    assert [a, b, c] == [a] + ([b] + [c]);
  }

  lemma RemoveFromTwo()
    ensures RemoveAll(["A", "C"], "A") == ["C"]
  {
    var a, c: ConnId := "A", "C";
    assert c != a by { assert a[0] != c[0]; }
    assert [a, c] == [a] + [c];
    RemoveAllConcat([a], [c], a);
    RemoveSingle(a, a);
    RemoveSingle(c, a);
  }

  lemma RemoveTail(b: ConnId, c: ConnId)
    requires c != b
    ensures RemoveAll([b] + [c], b) == [c]
  {
    RemoveSingle(b, b);
    RemoveSingle(c, b);
    RemoveAllConcat([b], [c], b);
  }

  lemma RemoveSingle(x: ConnId, y: ConnId)
    ensures RemoveAll([x], y) == if x == y then [] else [x]
  {
    assert [x][1..] == [];
  }
}
