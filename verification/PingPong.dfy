// The order/cancel ping-pong between the Rust client and the mock trading
// server: the latency tracker, the client's message handler and the server's
// actor as objects, and the two parties over FIFO channels as a transition system.
module PingPong {
  import opened Wrappers
  import opened Bits
  import opened Runs

  /** Client to server. */
  datatype Request =
    | Authenticate(token: string) | Subscribe(channels: seq<string>)
    | CreateOrder(pair: string, id: string) | CancelOrder(id: string, pair: string)
    | CloseConnection | Pong(data: string)

  /** Server to client. */
  datatype Response =
    | Authenticated | Subscriptions(accounts: seq<(string, string)>)
    | Booked(clientId: Option<string>, pair: Option<string>) | Done(clientId: Option<string>)
    | Error | Unknown | Closed | Ping(data: string)

  datatype Config = Config(testSize: nat, token: string, coinPairs: seq<string>)

  // ---- tracker.rs

  /** The sent-time maps, the histogram's samples, the response count, and each histogram printed so far. */
  datatype Tracker = Tracker(
    orderSent: map<string, nat>, cancelSent: map<string, nat>,
    samples: seq<nat>, responseCount: nat, printed: seq<seq<nat>>)

  /** `Instant::elapsed`, saturating. */
  function Elapsed(sent: nat, now: nat): nat { if now >= sent then now - sent else 0 }

  function Clamp(rtt: nat): (r: nat)
    ensures 1 <= r <= 3_600_000_000_000
  {
    if rtt < 1 then 1 else if rtt > 3_600_000_000_000 then 3_600_000_000_000 else rtt
  }

  function Recorded(t: Tracker, rtt: nat): Tracker {
    t.(samples := t.samples + [Clamp(rtt)], responseCount := t.responseCount + 1)
  }

  function OrderAnswered(t: Tracker, id: string, now: nat): Tracker {
    if id in t.orderSent then Recorded(t.(orderSent := t.orderSent - {id}), Elapsed(t.orderSent[id], now)) else t
  }

  function CancelAnswered(t: Tracker, id: string, now: nat): Tracker {
    if id in t.cancelSent then Recorded(t.(cancelSent := t.cancelSent - {id}), Elapsed(t.cancelSent[id], now)) else t
  }

  predicate ShouldPrint(t: Tracker, testSize: nat)
    requires testSize > 0
  {
    t.responseCount > 0 && t.responseCount % testSize == 0
  }

  function Printed(t: Tracker): Tracker { t.(printed := t.printed + [t.samples], samples := []) }

  /** `LatencyTracker`. */
  class LatencyTracker {
    const testSize: nat
    var orderSentTimes: map<string, nat>
    var cancelSentTimes: map<string, nat>
    var samples: seq<nat>
    var responseCount: nat
    var printed: seq<seq<nat>>

    constructor (size: nat)
      ensures testSize == size && State() == Tracker(map[], map[], [], 0, [])
    {
      testSize := size;
      orderSentTimes, cancelSentTimes, samples, responseCount, printed := map[], map[], [], 0, [];
    }

    function State(): Tracker
      reads this
    {
      Tracker(orderSentTimes, cancelSentTimes, samples, responseCount, printed)
    }

    method RecordOrderSent(id: string, now: nat)
      modifies this
      ensures State() == old(State()).(orderSent := old(orderSentTimes)[id := now])
    {
      orderSentTimes := orderSentTimes[id := now];
    }

    method RecordCancelSent(id: string, now: nat)
      modifies this
      ensures State() == old(State()).(cancelSent := old(cancelSentTimes)[id := now])
    {
      cancelSentTimes := cancelSentTimes[id := now];
    }

    method RecordLatency(rtt: nat)
      modifies this
      ensures State() == Recorded(old(State()), rtt)
    {
      samples := samples + [Clamp(rtt)];
      responseCount := responseCount + 1;
    }

    method RecordOrderResponse(id: string, now: nat) returns (rtt: Option<nat>)
      modifies this
      ensures State() == OrderAnswered(old(State()), id, now)
      ensures rtt == if id in old(orderSentTimes) then Some(Elapsed(old(orderSentTimes)[id], now)) else None
    {
      if id !in orderSentTimes { return None; }
      var elapsed := Elapsed(orderSentTimes[id], now);
      orderSentTimes := orderSentTimes - {id};
      RecordLatency(elapsed);
      rtt := Some(elapsed);
    }

    method RecordCancelResponse(id: string, now: nat) returns (rtt: Option<nat>)
      modifies this
      ensures State() == CancelAnswered(old(State()), id, now)
      ensures rtt == if id in old(cancelSentTimes) then Some(Elapsed(old(cancelSentTimes)[id], now)) else None
    {
      if id !in cancelSentTimes { return None; }
      var elapsed := Elapsed(cancelSentTimes[id], now);
      cancelSentTimes := cancelSentTimes - {id};
      RecordLatency(elapsed);
      rtt := Some(elapsed);
    }

    predicate ShouldPrintStats()
      requires testSize > 0
      reads this
    {
      responseCount > 0 && responseCount % testSize == 0
    }

    predicate IsTestComplete()
      reads this
    {
      responseCount >= testSize
    }

    method PrintStats()
      modifies this
      ensures State() == Printed(old(State()))
    {
      printed := printed + [samples];
      samples := [];
    }
  }

  // ---- client.rs

  datatype ClientState = Connecting | Authenticating | Subscribing | Testing | Finished

  datatype Client = Client(state: ClientState, tracker: Tracker, pairIndex: nat, currentId: Option<string>)

  /** A handled message: the client after it, what it sent, whether it failed, whether the read loop ends. */
  datatype Handled = Handled(client: Client, out: seq<Request>, failed: bool, stop: bool)

  function CurrentPair(cfg: Config, index: nat): string {
    if index < |cfg.coinPairs| then cfg.coinPairs[index] else "BTC_EUR"
  }

  function RotatedIndex(cfg: Config, index: nat): nat {
    if cfg.coinPairs == [] then index else (index + 1) % |cfg.coinPairs|
  }

  function OrderSent(cfg: Config, c: Client, id: string, now: nat): Client {
    c.(tracker := c.tracker.(orderSent := c.tracker.orderSent[id := now]), currentId := Some(id),
       pairIndex := RotatedIndex(cfg, c.pairIndex))
  }

  /** After a DONE: print when due, then close or send the next order. */
  function AfterDone(cfg: Config, c: Client, now: nat, newId: string): Handled
    requires cfg.testSize > 0
  {
    var t := if ShouldPrint(c.tracker, cfg.testSize) then Printed(c.tracker) else c.tracker;
    var c := c.(tracker := t);
    if t.responseCount >= cfg.testSize then Handled(c.(state := Finished), [CloseConnection], false, false)
    else Handled(OrderSent(cfg, c, newId, now), [CreateOrder(CurrentPair(cfg, c.pairIndex), newId)], false, false)
  }

  /** `handle_message` and the read loop around it; newId is the id generate_client_id would return. */
  function HandleMessage(cfg: Config, c: Client, m: Response, now: nat, newId: string): Handled
    requires cfg.testSize > 0
  {
    match m
    case Authenticated => Handled(c.(state := Subscribing), [Subscribe(["ORDERS"])], false, false)
    case Subscriptions(_) =>
      var c := c.(state := Testing);
      Handled(OrderSent(cfg, c, newId, now), [CreateOrder(CurrentPair(cfg, c.pairIndex), newId)], false, false)
    case Booked(None, _) => Handled(c, [], false, false)
    case Booked(Some(id), pair) =>
      var t := OrderAnswered(c.tracker, id, now);
      var instrument := if pair.Some? then pair.value else CurrentPair(cfg, c.pairIndex);
      Handled(c.(tracker := t.(cancelSent := t.cancelSent[id := now])), [CancelOrder(id, instrument)], false, false)
    case Done(id) =>
      AfterDone(cfg, if id.Some? then c.(tracker := CancelAnswered(c.tracker, id.value, now)) else c, now, newId)
    case Error => Handled(c, [], c.state == Authenticating, c.state == Authenticating)
    case Unknown => Handled(c, [], false, false)
    case Closed => Handled(c.(state := Finished), [], false, true)
    case Ping(data) => Handled(c, [Pong(data)], false, false)
  }

  /** The messages a test does not hinge on: a ping is echoed, an error ends the session exactly while authenticating,
      an unknown message or a booking without an id changes nothing, and a booking of an unknown id is cancelled
      unmeasured. */
  lemma {:induction false} StrayMessages(cfg: Config, c: Client, now: nat, newId: string, data: string, id: string,
                                         pair: Option<string>)
    requires cfg.testSize > 0 && id !in c.tracker.orderSent
    ensures HandleMessage(cfg, c, Ping(data), now, newId) == Handled(c, [Pong(data)], false, false)
    ensures HandleMessage(cfg, c, Unknown, now, newId) == HandleMessage(cfg, c, Booked(None, pair), now, newId)
         == Handled(c, [], false, false)
    ensures var h := HandleMessage(cfg, c, Error, now, newId);
      h.client == c && h.out == [] && (h.failed <==> c.state.Authenticating?) && (h.stop <==> h.failed)
    ensures var h := HandleMessage(cfg, c, Booked(Some(id), pair), now, newId);
      && h.client.tracker.samples == c.tracker.samples && h.client.tracker.responseCount == c.tracker.responseCount
      && |h.out| == 1 && h.out[0].CancelOrder? && h.out[0].id == id
  {
  }

  /** `HftClient`. */
  class HftClient {
    const config: Config
    const tracker: LatencyTracker
    var state: ClientState
    var currentPairIndex: nat
    var currentClientId: Option<string>

    constructor (cfg: Config)
      requires cfg.testSize > 0
      ensures Valid() && config == cfg && fresh(tracker)
      ensures State() == Client(Connecting, Tracker(map[], map[], [], 0, []), 0, None)
    {
      config := cfg;
      tracker := new LatencyTracker(cfg.testSize);
      state, currentPairIndex, currentClientId := Connecting, 0, None;
    }

    ghost predicate Valid() { config.testSize > 0 && tracker.testSize == config.testSize }

    function State(): Client
      reads this, tracker
    {
      Client(state, tracker.State(), currentPairIndex, currentClientId)
    }

    /** `send_order`. */
    method SendOrder(newId: string, now: nat) returns (out: seq<Request>)
      modifies this, tracker
      ensures State() == OrderSent(config, old(State()), newId, now)
      ensures out == [CreateOrder(CurrentPair(config, old(currentPairIndex)), newId)]
    {
      var pair := CurrentPair(config, currentPairIndex);
      tracker.RecordOrderSent(newId, now);
      currentClientId := Some(newId);
      out := [CreateOrder(pair, newId)];
      if config.coinPairs != [] {
        currentPairIndex := (currentPairIndex + 1) % |config.coinPairs|;
      }
    }

    method HandleDone(id: Option<string>, now: nat, newId: string) returns (out: seq<Request>)
      requires Valid()
      modifies this, tracker
      ensures var h := HandleMessage(config, old(State()), Done(id), now, newId);
        State() == h.client && out == h.out
    {
      if id.Some? {
        var _ := tracker.RecordCancelResponse(id.value, now);
      }
      if tracker.ShouldPrintStats() { tracker.PrintStats(); }
      if tracker.IsTestComplete() {
        out := [CloseConnection];
        state := Finished;
      } else {
        out := SendOrder(newId, now);
      }
    }

    /** One turn of the read loop. */
    method Handle(m: Response, now: nat, newId: string) returns (out: seq<Request>, failed: bool, stop: bool)
      requires Valid()
      modifies this, tracker
      ensures Handled(State(), out, failed, stop) == HandleMessage(config, old(State()), m, now, newId)
    {
      out, failed, stop := [], false, false;
      match m {
        case Authenticated =>
          state := Subscribing;
          out := [Subscribe(["ORDERS"])];
        case Subscriptions(_) =>
          state := Testing;
          out := SendOrder(newId, now);
        case Booked(id, pair) =>
          if id.Some? {
            var _ := tracker.RecordOrderResponse(id.value, now);
            var instrument := if pair.Some? then pair.value else CurrentPair(config, currentPairIndex);
            tracker.RecordCancelSent(id.value, now);
            out := [CancelOrder(id.value, instrument)];
          }
        case Done(id) =>
          out := HandleDone(id, now, newId);
        case Error =>
          if state == Authenticating { failed, stop := true, true; }
        case Unknown =>
        case Closed =>
          state := Finished;
          stop := true;
        case Ping(data) =>
          out := [Pong(data)];
      }
    }
  }

  // ---- websocket.rs

  datatype Server = Server(userId: Option<string>, stopped: bool)

  datatype Served = Served(server: Server, out: seq<Response>) | Panicked

  /** `handle`; unwrapping a missing user id panics. */
  function Serve(s: Server, m: Request): Served {
    match m
    case Authenticate(token) => Served(s.(userId := Some(token)), [Authenticated])
    case Subscribe(channels) =>
      if s.userId.None? && channels != [] then Panicked
      else
        var user := if s.userId.Some? then s.userId.value else "";
        Served(s, [Subscriptions(seq(|channels|, i requires 0 <= i < |channels| => (user, channels[i])))])
    case CreateOrder(pair, id) => if s.userId.None? then Panicked else Served(s, [Booked(Some(id), Some(pair))])
    case CancelOrder(id, pair) => if s.userId.None? then Panicked else Served(s, [Done(Some(id))])
    case CloseConnection => Served(s.(stopped := true), [Closed])
    case Pong(_) => Served(s, [])
  }

  /** The server panics exactly when it must name a user it does not have, and otherwise answers in kind: a booking or a
      done under the request's own id, one account of the user per channel in order, and nothing to a pong. */
  lemma {:induction false} ServerAnswers(s: Server, m: Request)
    ensures Serve(s, m).Panicked? <==>
      s.userId.None? && (m.CreateOrder? || m.CancelOrder? || (m.Subscribe? && |m.channels| > 0))
    ensures Serve(s, m).Served? ==> var out := Serve(s, m).out;
      && (m.Pong? ==> out == [])
      && (!m.Pong? ==> |out| == 1)
      && (m.CreateOrder? ==> out[0] == Booked(Some(m.id), Some(m.pair)))
      && (m.CancelOrder? ==> out[0] == Done(Some(m.id)))
      && (m.Subscribe? ==> out[0].Subscriptions? && |out[0].accounts| == |m.channels|)
      && (m.Subscribe? && s.userId.Some? ==>
            forall k :: 0 <= k < |m.channels| ==> out[0].accounts[k] == (s.userId.value, m.channels[k]))
  {
  }

  /** `WebSocketActor`. */
  class WebSocketActor {
    var userId: Option<string>
    var stopped: bool

    constructor ()
      ensures State() == Server(None, false)
    {
      userId, stopped := None, false;
    }

    function State(): Server
      reads this
    {
      Server(userId, stopped)
    }

    method Handle(m: Request) returns (out: seq<Response>, panicked: bool)
      modifies this
      ensures var r := Serve(old(State()), m);
        if r.Panicked? then panicked && out == [] else !panicked && State() == r.server && out == r.out
    {
      out, panicked := [], false;
      match m {
        case Authenticate(token) =>
          userId := Some(token);
          out := [Authenticated];
        case Subscribe(channels) =>
          var accounts: seq<(string, string)> := [];
          var user := if userId.Some? then userId.value else "";
          for i := 0 to |channels|
            invariant unchanged(this) && (i > 0 ==> userId.Some?)
            invariant accounts == seq(i, k requires 0 <= k < i => (user, channels[k]))
          {
            if userId.None? { return [], true; }
            accounts := accounts + [(user, channels[i])];
          }
          out := [Subscriptions(accounts)];
        case CreateOrder(pair, id) =>
          if userId.None? { return [], true; }
          out := [Booked(Some(id), Some(pair))];
        case CancelOrder(id, pair) =>
          if userId.None? { return [], true; }
          out := [Done(Some(id))];
        case CloseConnection =>
          stopped := true;
          out := [Closed];
        case Pong(_) =>
      }
    }
  }

  // ---- Client and server together.

  /** Both parties, the two FIFO channels, and the pairs of the orders sent so far. */
  datatype World = World(
    cfg: Config, client: Client, server: Server,
    toServer: seq<Request>, toClient: seq<Response>,
    panicked: bool, failed: bool, stopped: bool, orders: seq<string>)

  datatype Event = ServerReceives | ClientReceives(now: nat, newId: string)

  /** run_test_loop has just sent the token. */
  function Begin(cfg: Config): World {
    World(cfg, Client(Authenticating, Tracker(map[], map[], [], 0, []), 0, None), Server(None, false),
          [Authenticate(cfg.token)], [], false, false, false, [])
  }

  predicate CanHappen(w: World, ev: Event) {
    match ev
    case ServerReceives => w.toServer != [] && !w.server.stopped && !w.panicked
    case ClientReceives(_, _) => w.toClient != [] && !w.stopped && !w.failed
  }

  function OrderPairs(out: seq<Request>): seq<string> {
    if out == [] then []
    else OrderPairs(out[..|out| - 1]) + if out[|out| - 1].CreateOrder? then [out[|out| - 1].pair] else []
  }

  function Perform(w: World, ev: Event): World
    requires w.cfg.testSize > 0 && CanHappen(w, ev)
  {
    match ev
    case ServerReceives =>
      var r := Serve(w.server, w.toServer[0]);
      if r.Panicked? then w.(toServer := w.toServer[1..], panicked := true)
      else w.(toServer := w.toServer[1..], server := r.server, toClient := w.toClient + r.out)
    case ClientReceives(now, newId) =>
      var h := HandleMessage(w.cfg, w.client, w.toClient[0], now, newId);
      w.(toClient := w.toClient[1..], client := h.client, toServer := w.toServer + h.out,
         failed := h.failed, stopped := h.stop, orders := w.orders + OrderPairs(h.out))
  }

  ghost predicate Run(states: seq<World>, events: seq<Event>) {
    && |states| == |events| + 1 && states[0].cfg.testSize > 0 && states[0] == Begin(states[0].cfg)
    && forall i :: 0 <= i < |events| ==> WorldStep(states[i], events[i], states[i + 1])
  }

  ghost predicate WorldStep(w: World, ev: Event, w': World) {
    w.cfg.testSize > 0 && CanHappen(w, ev) && w' == Perform(w, ev)
  }

  // ---- The invariant.

  /** ceil(test_size / 2). */
  function Cycles(testSize: nat): nat { (testSize + 1) / 2 }

  predicate NothingPending(t: Tracker) { t.orderSent.Keys == {} && t.cancelSent.Keys == {} }

  predicate OrderPending(t: Tracker, id: string) { t.orderSent.Keys == {id} && t.cancelSent.Keys == {} }

  predicate CancelPending(t: Tracker, id: string) { t.orderSent.Keys == {} && t.cancelSent.Keys == {id} }

  /** Before the close nothing has been printed and every response is a sample. */
  predicate Unprinted(t: Tracker) { t.printed == [] && |t.samples| == t.responseCount }

  predicate TestOver(w: World) {
    var t, n := w.client.tracker, w.cfg.testSize;
    && w.client.state == Finished && NothingPending(t) && t.responseCount == 2 * Cycles(n)
    && |w.orders| == Cycles(n)
    && (if n % 2 == 0 || n == 1 then |t.printed| == 1 && |t.printed[0]| == 2 * Cycles(n) && t.samples == []
        else t.printed == [] && |t.samples| == n + 1)
  }

  /** An order (response count even) or its cancel (odd) is under way, and more cycles may follow. */
  predicate Cycling(w: World, order: bool) {
    && w.client.state == Testing && w.server.userId == Some(w.cfg.token) && Unprinted(w.client.tracker)
    && w.client.tracker.responseCount % 2 == (if order then 0 else 1)
    && w.client.tracker.responseCount < 2 * Cycles(w.cfg.testSize)
    && |w.orders| == w.client.tracker.responseCount / 2 + 1
  }

  predicate RequestInv(w: World, m: Request) {
    match m
    case Authenticate(token) =>
      token == w.cfg.token && w.client.state == Authenticating && NothingPending(w.client.tracker)
      && Unprinted(w.client.tracker) && w.client.tracker.responseCount == 0 && w.orders == []
    case Subscribe(channels) =>
      channels == ["ORDERS"]
      && w.client.state == Subscribing && w.server.userId == Some(w.cfg.token) && NothingPending(w.client.tracker)
      && Unprinted(w.client.tracker) && w.client.tracker.responseCount == 0 && w.orders == []
    case CreateOrder(pair, id) =>
      Cycling(w, true) && OrderPending(w.client.tracker, id) && pair == w.orders[|w.orders| - 1]
    case CancelOrder(id, pair) =>
      Cycling(w, false) && CancelPending(w.client.tracker, id) && pair == w.orders[|w.orders| - 1]
    case CloseConnection => TestOver(w)
    case Pong(_) => false
  }

  predicate ResponseInv(w: World, m: Response) {
    match m
    case Authenticated =>
      w.client.state == Authenticating && w.server.userId == Some(w.cfg.token) && NothingPending(w.client.tracker)
      && Unprinted(w.client.tracker) && w.client.tracker.responseCount == 0 && w.orders == []
    case Subscriptions(accounts) =>
      accounts == [(w.cfg.token, "ORDERS")]
      && w.client.state == Subscribing && w.server.userId == Some(w.cfg.token) && NothingPending(w.client.tracker)
      && Unprinted(w.client.tracker) && w.client.tracker.responseCount == 0 && w.orders == []
    case Booked(id, pair) =>
      Cycling(w, true) && id.Some? && OrderPending(w.client.tracker, id.value)
      && pair == Some(w.orders[|w.orders| - 1])
    case Done(id) =>
      Cycling(w, false) && id.Some? && CancelPending(w.client.tracker, id.value)
    case Closed => TestOver(w)
    case _ => false
  }

  /** One message in flight, in the state it belongs to; none only at the very end. */
  predicate FlightInv(w: World) {
    && !w.panicked && !w.failed && w.cfg.testSize > 0
    && (w.stopped <==> w.toServer == [] && w.toClient == [])
    && (w.stopped ==> TestOver(w) && w.server.stopped)
    && (w.toServer != [] ==> |w.toServer| == 1 && w.toClient == [] && !w.server.stopped && RequestInv(w, w.toServer[0]))
    && (w.toClient != [] ==> |w.toClient| == 1 && w.toServer == [] && ResponseInv(w, w.toClient[0]))
    && (w.toClient != [] ==> (w.server.stopped <==> w.toClient[0].Closed?))
  }

  lemma {:induction false} BeginInv(cfg: Config)
    requires cfg.testSize > 0
    ensures FlightInv(Begin(cfg))
  {
  }

  lemma {:induction false} ServerKeepsInv(w: World)
    requires FlightInv(w) && CanHappen(w, ServerReceives)
    ensures FlightInv(Perform(w, ServerReceives))
  {
    assert w.toServer[1..] == [];
  }

  lemma {:induction false} OneOrder(pair: string, id: string)
    ensures OrderPairs([CreateOrder(pair, id)]) == [pair]
    ensures OrderPairs([]) == []
  {
    assert [CreateOrder(pair, id)][..0] == [];
  }

  lemma {:induction false} NoOrder(m: Request)
    requires !m.CreateOrder?
    ensures OrderPairs([m]) == []
  {
    assert [m][..0] == [];
  }

  /** When the count of responses to whole cycles reaches a multiple of the test size. */
  lemma {:induction false} PrintDue(count: nat, n: nat)
    requires n > 0 && count % 2 == 0 && 0 < count <= 2 * Cycles(n)
    ensures count >= n <==> count == 2 * Cycles(n)
    ensures count % n == 0 <==> count == 2 * Cycles(n) && (n % 2 == 0 || n == 1)
  {
    if count < n {
      RemainderIs(count, n, 0, count);
    } else if count == n {
      RemainderIs(count, n, 1, 0);
    } else {
      if n == 1 { RemainderIs(count, n, count, 0); } else { RemainderIs(count, n, 1, 1); }
    }
  }

  lemma {:induction false} OneKey(m: map<string, nat>, id: string, now: nat)
    ensures m.Keys == {} ==> m[id := now].Keys == {id}
    ensures m.Keys == {id} ==> id in m && (m - {id}).Keys == {}
  {
    if m.Keys == {} { assert m[id := now].Keys == {id}; }
    if m.Keys == {id} { assert id in m.Keys; }
  }

  lemma {:induction false} DoneKeepsInv(w: World, now: nat, newId: string)
    requires FlightInv(w) && w.toClient != [] && w.toClient[0].Done?
    ensures FlightInv(Perform(w, ClientReceives(now, newId)))
  {
    hide OrderPairs, RotatedIndex, CurrentPair, Clamp, Elapsed;
    assert w.toClient[1..] == [];
    var id := w.toClient[0].clientId.value;
    var t := CancelAnswered(w.client.tracker, id, now);
    OneKey(w.client.tracker.cancelSent, id, now);
    OneKey(w.client.tracker.orderSent, newId, now);
    PrintDue(t.responseCount, w.cfg.testSize);
    OneOrder(CurrentPair(w.cfg, w.client.pairIndex), newId);
    NoOrder(CloseConnection);
  }

  lemma {:induction false} BookedKeepsInv(w: World, now: nat, newId: string)
    requires FlightInv(w) && w.toClient != [] && w.toClient[0].Booked?
    ensures FlightInv(Perform(w, ClientReceives(now, newId)))
  {
    hide OrderPairs, RotatedIndex, CurrentPair, Clamp, Elapsed;
    assert w.toClient[1..] == [];
    var id := w.toClient[0].clientId.value;
    var t := OrderAnswered(w.client.tracker, id, now);
    OneKey(w.client.tracker.orderSent, id, now);
    OneKey(w.client.tracker.cancelSent, id, now);
    NoOrder(CancelOrder(id, w.toClient[0].pair.value));
  }

  lemma {:induction false} OpeningKeepsInv(w: World, now: nat, newId: string)
    requires FlightInv(w) && w.toClient != [] && !w.stopped
    requires w.toClient[0].Authenticated? || w.toClient[0].Subscriptions? || w.toClient[0].Closed?
    ensures FlightInv(Perform(w, ClientReceives(now, newId)))
  {
    hide OrderPairs, RotatedIndex, CurrentPair;
    assert w.toClient[1..] == [];
    OneKey(w.client.tracker.orderSent, newId, now);
    OneOrder(CurrentPair(w.cfg, w.client.pairIndex), newId);
    NoOrder(Subscribe(["ORDERS"]));
  }

  lemma {:induction false} StepKeepsFlight(w: World, ev: Event)
    requires FlightInv(w) && CanHappen(w, ev)
    ensures FlightInv(Perform(w, ev)) && Perform(w, ev).cfg == w.cfg
  {
    match ev
    case ServerReceives => ServerKeepsInv(w);
    case ClientReceives(now, newId) =>
      if w.toClient[0].Done? { DoneKeepsInv(w, now, newId); }
      else if w.toClient[0].Booked? { BookedKeepsInv(w, now, newId); }
      else { OpeningKeepsInv(w, now, newId); }
  }

  lemma {:induction false} RunKeepsFlight(states: seq<World>, events: seq<Event>, i: nat)
    requires Run(states, events) && i <= |events|
    ensures FlightInv(states[i]) && states[i].cfg == states[0].cfg
  {
    hide FlightInv, Perform, CanHappen;
    if i == 0 {
      BeginInv(states[0].cfg);
    } else {
      RunKeepsFlight(states, events, i - 1);
      assert WorldStep(states[i - 1], events[i - 1], states[i]);
      StepKeepsFlight(states[i - 1], events[i - 1]);
    }
  }

  // ---- Termination.

  /** Events still to come. */
  function Remaining(w: World): nat {
    var n := 2 * Cycles(w.cfg.testSize);
    var left := if w.client.tracker.responseCount <= n then 2 * (n - w.client.tracker.responseCount) else 0;
    if w.toServer != [] then
      match w.toServer[0]
      case Authenticate(_) => left + 6
      case Subscribe(_) => left + 4
      case CloseConnection => 2
      case _ => left + 2
    else if w.toClient != [] then
      match w.toClient[0]
      case Authenticated => left + 5
      case Subscriptions(_) => left + 3
      case Closed => 1
      case _ => left + 1
    else 0
  }

  /** Every event brings the end nearer by exactly one, and some event is possible until it is reached. */
  lemma {:induction false} EveryEventCounts(w: World, ev: Event)
    requires FlightInv(w) && CanHappen(w, ev)
    ensures Remaining(Perform(w, ev)) == Remaining(w) - 1
  {
    hide OrderPairs, RotatedIndex, CurrentPair, Clamp, Elapsed, NothingPending, OrderPending, CancelPending;
    match ev
    case ServerReceives => assert w.toServer[1..] == [];
    case ClientReceives(now, newId) =>
      assert w.toClient[1..] == [];
      if w.toClient[0].Done? {
        var t := CancelAnswered(w.client.tracker, w.toClient[0].clientId.value, now);
        DonePending(w);
        PrintDue(t.responseCount, w.cfg.testSize);
      } else if w.toClient[0].Booked? {
        BookedPending(w);
      }
  }

  lemma {:induction false} DonePending(w: World)
    requires FlightInv(w) && w.toClient != [] && w.toClient[0].Done?
    ensures w.toClient[0].clientId.Some? && w.toClient[0].clientId.value in w.client.tracker.cancelSent
  {
    assert w.toClient[0].clientId.value in w.client.tracker.cancelSent.Keys;
  }

  lemma {:induction false} BookedPending(w: World)
    requires FlightInv(w) && w.toClient != [] && w.toClient[0].Booked?
    ensures w.toClient[0].clientId.Some? && w.toClient[0].clientId.value in w.client.tracker.orderSent
  {
    assert w.toClient[0].clientId.value in w.client.tracker.orderSent.Keys;
  }

  lemma {:induction false} RunRemaining(states: seq<World>, events: seq<Event>, i: nat)
    requires Run(states, events) && i <= |events|
    ensures Remaining(states[i]) == 4 * Cycles(states[0].cfg.testSize) + 6 - i
  {
    hide FlightInv, Perform, CanHappen, Remaining;
    if i == 0 {
      BeginRemaining(states[0].cfg);
    } else {
      RunRemaining(states, events, i - 1);
      RunKeepsFlight(states, events, i - 1);
      assert WorldStep(states[i - 1], events[i - 1], states[i]);
      EveryEventCounts(states[i - 1], events[i - 1]);
    }
  }

  lemma {:induction false} BeginRemaining(cfg: Config)
    ensures Remaining(Begin(cfg)) == 4 * Cycles(cfg.testSize) + 6
  {
  }

  // ---- What every run guarantees.

  /** While testing: one message in flight, one pending id, which is the message's, in the map of its kind. */
  lemma {:induction false} OneInFlightOnePending(states: seq<World>, events: seq<Event>, i: nat)
    requires Run(states, events) && i <= |events| && states[i].client.state == Testing
    ensures var w := states[i];
      && |w.toServer| + |w.toClient| == 1
      && w.server.userId == Some(w.cfg.token)
      && (w.toServer != [] ==> w.toServer[0].CreateOrder? || w.toServer[0].CancelOrder?)
      && (w.toServer != [] && w.toServer[0].CreateOrder? ==> OrderPending(w.client.tracker, w.toServer[0].id))
      && (w.toServer != [] && w.toServer[0].CancelOrder? ==> CancelPending(w.client.tracker, w.toServer[0].id))
      && (w.toClient != [] ==> w.toClient[0].Booked? || w.toClient[0].Done?)
      && (w.toClient != [] && w.toClient[0].Booked? ==>
            w.toClient[0].clientId.Some? && OrderPending(w.client.tracker, w.toClient[0].clientId.value))
      && (w.toClient != [] && w.toClient[0].Done? ==>
            w.toClient[0].clientId.Some? && CancelPending(w.client.tracker, w.toClient[0].clientId.value))
  {
    RunKeepsFlight(states, events, i);
    hide Run, OrderPending, CancelPending;
  }

  /** The server never unwraps a missing user id and the client never fails. */
  lemma {:induction false} NeverPanics(states: seq<World>, events: seq<Event>, i: nat)
    requires Run(states, events) && i <= |events|
    ensures !states[i].panicked && !states[i].failed
    ensures states[i].toServer != [] ==> Serve(states[i].server, states[i].toServer[0]).Served?
  {
    RunKeepsFlight(states, events, i);
    hide Run, OrderPending, CancelPending;
  }

  /** No run is longer than 4 * ceil(test_size / 2) + 6 events, and one that can no longer move has exactly that
      many. */
  lemma {:induction false} TestTerminates(states: seq<World>, events: seq<Event>)
    requires Run(states, events)
    ensures var n, last := 4 * Cycles(states[0].cfg.testSize) + 6, states[|events|];
      && |events| <= n
      && (|events| < n ==> CanHappen(last, ServerReceives) || CanHappen(last, ClientReceives(0, "")))
      && (|events| == n ==> last.stopped && TestOver(last))
  {
    RunRemaining(states, events, |events|);
    RunKeepsFlight(states, events, |events|);
    hide Run, OrderPending, CancelPending, TestOver;
  }

  /** Every test can be run for any number of receives up to its end. */
  lemma {:induction false} TestRuns(cfg: Config, n: nat) returns (states: seq<World>, events: seq<Event>)
    requires cfg.testSize > 0 && n <= 4 * Cycles(cfg.testSize) + 6
    ensures Run(states, events) && |events| == n && states[0] == Begin(cfg)
  {
    hide FlightInv, Perform, CanHappen;
    if n == 0 {
      states, events := [Begin(cfg)], [];
    } else {
      states, events := TestRuns(cfg, n - 1);
      TestTerminates(states, events);
      RunKeepsFlight(states, events, n - 1);
      FlightTestSize(states[n - 1]);
      var ev := if CanHappen(states[n - 1], ServerReceives) then ServerReceives else ClientReceives(0, "");
      var next := Perform(states[n - 1], ev);
      StepIs(states[n - 1], ev);
      PathThen(WorldStep, states, events, states[0], states[n - 1], ev, next);
      states, events := states + [next], events + [ev];
    }
  }

  lemma {:induction false} FlightTestSize(w: World)
    requires FlightInv(w)
    ensures w.cfg.testSize > 0
  {
  }

  lemma {:induction false} StepIs(w: World, ev: Event)
    requires w.cfg.testSize > 0 && CanHappen(w, ev)
    ensures WorldStep(w, ev, Perform(w, ev))
  {
  }

  /** An odd test of three or more does run to its close, having measured one response too many and printed nothing. */
  lemma {:induction false} OddTestPrintsNothing(cfg: Config) returns (states: seq<World>, events: seq<Event>)
    requires cfg.testSize >= 3 && cfg.testSize % 2 == 1
    ensures Run(states, events) && states[0] == Begin(cfg)
    ensures var last := states[|events|];
      last.stopped && last.client.tracker.printed == [] && last.client.tracker.responseCount == cfg.testSize + 1
  {
    hide NothingPending, FlightInv, WorldStep;
    states, events := TestRuns(cfg, 4 * Cycles(cfg.testSize) + 6);
    TestTerminates(states, events);
    RunKeepsFlight(states, events, |events|);
    assert states[|events|].cfg == cfg;
  }

  /** When the client stops, it has sent ceil(test_size / 2) orders, seen two responses to each, and printed exactly as
      it should. */
  lemma {:induction false} StatisticsAtClose(states: seq<World>, events: seq<Event>, i: nat)
    requires Run(states, events) && i <= |events| && states[i].client.state == Finished
    ensures var t, n := states[i].client.tracker, states[0].cfg.testSize;
      && t.responseCount == 2 * Cycles(n) && |states[i].orders| == Cycles(n)
      && (n % 2 == 0 ==> t.responseCount == n && |t.printed| == 1 && |t.printed[0]| == n)
      && (n % 2 == 1 && n >= 3 ==> t.responseCount == n + 1 && t.printed == [] && |t.samples| == n + 1)
      && (n == 1 ==> t.responseCount == 2 && |t.printed| == 1 && |t.printed[0]| == 2)
      && NothingPending(t)
      && (t.printed != [] ==> t.printed == [AllSamples(t)] && t.samples == [])
  {
    RunKeepsFlight(states, events, i);
    hide Run, OrderPending, CancelPending, NothingPending;
    var t := states[i].client.tracker;
    if t.printed != [] { PrintedOnce(t); }
  }

  lemma {:induction false} PrintedOnce(t: Tracker)
    requires |t.printed| == 1 && t.samples == []
    ensures t.printed == [AllSamples(t)]
  {
    assert t.printed[..0] == [];
    assert Flat(t.printed) == [] + t.printed[0];
    assert AllSamples(t) == t.printed[0] + [] == t.printed[0];
  }

  // ---- What a sample measures.

  function Flat(blocks: seq<seq<nat>>): seq<nat> {
    if blocks == [] then [] else Flat(blocks[..|blocks| - 1]) + blocks[|blocks| - 1]
  }

  /** Every sample recorded so far, printed or not, in order. */
  function AllSamples(t: Tracker): seq<nat> { Flat(t.printed) + t.samples }

  lemma {:induction false} PrintingKeepsSamples(t: Tracker)
    ensures AllSamples(Printed(t)) == AllSamples(t)
  {
    var p := Printed(t);
    assert p.printed[..|t.printed|] == t.printed;
  }

  /** The time between two clock readings, within a nanosecond and an hour. */
  ghost function Between(sent: nat, received: nat): nat {
    if received <= sent then 1 else if received - sent > 3_600_000_000_000 then 3_600_000_000_000 else received - sent
  }

  /** The clock of the j-th event, when that is the client's. */
  ghost function ClockAt(events: seq<Event>, j: nat): nat {
    if j < |events| && events[j].ClientReceives? then events[j].now else 0
  }

  /** After i events: sample k runs from event 3 + 2k to event 5 + 2k, and the message in flight was sent, or answers
      one sent, at the time kept for its id. */
  ghost predicate Timed(w: World, events: seq<Event>, i: nat) {
    var t := w.client.tracker;
    && |AllSamples(t)| == t.responseCount
    && (forall k :: 0 <= k < |AllSamples(t)| ==>
          5 + 2 * k < i && AllSamples(t)[k] == Between(ClockAt(events, 3 + 2 * k), ClockAt(events, 5 + 2 * k)))
    && (w.toServer != [] ==> SentAt(t, w.toServer[0], events, i))
    && (w.toClient != [] ==> AnswersSentAt(t, w.toClient[0], events, i))
  }

  ghost predicate SentAt(t: Tracker, m: Request, events: seq<Event>, i: nat) {
    && (m.CreateOrder? ==>
          i == 4 + 2 * t.responseCount && m.id in t.orderSent && t.orderSent[m.id] == ClockAt(events, i - 1))
    && (m.CancelOrder? ==>
          i == 4 + 2 * t.responseCount && m.id in t.cancelSent && t.cancelSent[m.id] == ClockAt(events, i - 1))
  }

  ghost predicate AnswersSentAt(t: Tracker, m: Response, events: seq<Event>, i: nat) {
    && (m.Subscriptions? ==> i == 3)
    && (m.Booked? && m.clientId.Some? ==>
          && i == 5 + 2 * t.responseCount && m.clientId.value in t.orderSent
          && t.orderSent[m.clientId.value] == ClockAt(events, i - 2))
    && (m.Done? && m.clientId.Some? ==>
          && i == 5 + 2 * t.responseCount && m.clientId.value in t.cancelSent
          && t.cancelSent[m.clientId.value] == ClockAt(events, i - 2))
  }

  /** A response recorded appends one sample. */
  lemma {:induction false} SampleAppended(t: Tracker, t': Tracker, sent: nat, now: nat)
    requires t'.printed == t.printed && t'.samples == t.samples + [Clamp(Elapsed(sent, now))]
    ensures AllSamples(t') == AllSamples(t) + [Between(sent, now)]
  {
  }

  lemma {:induction false} ServerKeepsTimes(w: World, events: seq<Event>, i: nat)
    requires FlightInv(w) && Timed(w, events, i) && CanHappen(w, ServerReceives)
    requires w.toServer[0].Subscribe? ==> i == 2
    ensures Timed(Perform(w, ServerReceives), events, i + 1)
  {
    hide AllSamples, Between, ClockAt, OrderPending, CancelPending, NothingPending, TestOver;
    assert w.toServer[1..] == [];
  }

  /** One more sample, for the two events that end now and two events earlier. */
  lemma {:induction false} TimesExtended(t: Tracker, t': Tracker, events: seq<Event>, i: nat)
    requires |AllSamples(t)| == t.responseCount && i == 5 + 2 * t.responseCount
    requires AllSamples(t') == AllSamples(t) + [Between(ClockAt(events, i - 2), ClockAt(events, i))]
    requires forall k :: 0 <= k < |AllSamples(t)| ==>
      5 + 2 * k < i && AllSamples(t)[k] == Between(ClockAt(events, 3 + 2 * k), ClockAt(events, 5 + 2 * k))
    ensures forall k :: 0 <= k < |AllSamples(t')| ==>
      5 + 2 * k < i + 1 && AllSamples(t')[k] == Between(ClockAt(events, 3 + 2 * k), ClockAt(events, 5 + 2 * k))
  {
    hide AllSamples, Between, ClockAt;
  }

  lemma {:induction false} BookedKeepsTimes(w: World, events: seq<Event>, i: nat)
    requires FlightInv(w) && Timed(w, events, i) && w.toClient != [] && w.toClient[0].Booked?
    requires i < |events| && events[i].ClientReceives?
    ensures Timed(Perform(w, events[i]), events, i + 1)
  {
    hide AllSamples, Between, Elapsed, Clamp, OrderPending, CancelPending, OrderPairs;
    assert w.toClient[1..] == [];
    var t, t', id := w.client.tracker, Perform(w, events[i]).client.tracker, w.toClient[0].clientId.value;
    SampleAppended(t, t', t.orderSent[id], events[i].now);
    TimesExtended(t, t', events, i);
  }

  lemma {:induction false} SameSamples(t: Tracker, t': Tracker)
    requires t'.printed == t.printed && t'.samples == t.samples
    ensures AllSamples(t') == AllSamples(t)
  {
  }

  lemma {:induction false} DoneKeepsTimes(w: World, events: seq<Event>, i: nat)
    requires FlightInv(w) && Timed(w, events, i) && w.toClient != [] && w.toClient[0].Done?
    requires i < |events| && events[i].ClientReceives?
    ensures Timed(Perform(w, events[i]), events, i + 1)
  {
    hide AllSamples, Between, Elapsed, Clamp, OrderPending, CancelPending, OrderPairs, ShouldPrint, CurrentPair;
    assert w.toClient[1..] == [];
    var t, t', id := w.client.tracker, Perform(w, events[i]).client.tracker, w.toClient[0].clientId.value;
    var answered := CancelAnswered(t, id, events[i].now);
    SampleAppended(t, answered, t.cancelSent[id], events[i].now);
    PrintingKeepsSamples(answered);
    SameSamples(if ShouldPrint(answered, w.cfg.testSize) then Printed(answered) else answered, t');
    TimesExtended(t, t', events, i);
  }

  lemma {:induction false} OpeningKeepsTimes(w: World, events: seq<Event>, i: nat)
    requires FlightInv(w) && Timed(w, events, i) && w.toClient != []
    requires w.toClient[0].Authenticated? || w.toClient[0].Subscriptions? || w.toClient[0].Closed?
    requires i < |events| && events[i].ClientReceives?
    ensures Timed(Perform(w, events[i]), events, i + 1)
  {
    hide AllSamples, Between, OrderPending, CancelPending, NothingPending, OrderPairs, CurrentPair, TestOver;
    assert w.toClient[1..] == [];
    var t, t' := w.client.tracker, Perform(w, events[i]).client.tracker;
    SameSamples(t, t');
  }

  lemma {:induction false} RunTimes(states: seq<World>, events: seq<Event>, i: nat)
    requires Run(states, events) && i <= |events|
    ensures FlightInv(states[i]) && Timed(states[i], events, i)
  {
    hide FlightInv, Perform, CanHappen, Timed;
    RunKeepsFlight(states, events, i);
    if i == 0 {
      BeginTimes(states[0].cfg, events);
    } else {
      RunTimes(states, events, i - 1);
      RunRemaining(states, events, i - 1);
      RunKeepsFlight(states, events, i - 1);
      assert WorldStep(states[i - 1], events[i - 1], states[i]);
      StepKeepsTimes(states[i - 1], events, i - 1);
    }
  }

  lemma {:induction false} BeginTimes(cfg: Config, events: seq<Event>)
    ensures Timed(Begin(cfg), events, 0)
  {
  }

  lemma {:induction false} StepKeepsTimes(w: World, events: seq<Event>, i: nat)
    requires FlightInv(w) && Timed(w, events, i) && i < |events| && CanHappen(w, events[i])
    requires Remaining(w) == 4 * Cycles(w.cfg.testSize) + 6 - i
    ensures Timed(Perform(w, events[i]), events, i + 1)
  {
    hide Perform, Timed, OrderPending, CancelPending, TestOver;
    if events[i].ServerReceives? {
      ServerKeepsTimes(w, events, i);
    } else {
      if w.toClient[0].Done? { DoneKeepsTimes(w, events, i); }
      else if w.toClient[0].Booked? { BookedKeepsTimes(w, events, i); }
      else { OpeningKeepsTimes(w, events, i); }
    }
  }

  /** The k-th request: an order when k is even, the cancel of the order before it when k is odd. */
  ghost predicate IsRequest(m: Request, k: nat, id: string) {
    if k % 2 == 0 then m.CreateOrder? && m.id == id else m.CancelOrder? && m.id == id
  }

  ghost predicate IsAnswer(m: Response, k: nat, id: string) {
    if k % 2 == 0 then m.Booked? && m.clientId == Some(id) else m.Done? && m.clientId == Some(id)
  }

  /** What is under way, from how many events are still to come. */
  lemma {:induction false} RequestAt(w: World, k: nat) returns (id: string)
    requires FlightInv(w) && k < 2 * Cycles(w.cfg.testSize)
    requires Remaining(w) == 4 * Cycles(w.cfg.testSize) + 2 - 2 * k
    ensures |w.toServer| == 1 && w.toClient == [] && IsRequest(w.toServer[0], k, id)
  {
    hide OrderPending, CancelPending, NothingPending, TestOver, Unprinted, Cycles;
    id := match w.toServer[0] case CreateOrder(_, id) => id case CancelOrder(id, _) => id case _ => "";
  }

  lemma {:induction false} ClientTurn(w: World, k: nat)
    requires FlightInv(w) && k < 2 * Cycles(w.cfg.testSize)
    requires Remaining(w) == 4 * Cycles(w.cfg.testSize) + 3 - 2 * k
    ensures w.toServer == [] && w.toClient != []
  {
    hide OrderPending, CancelPending, NothingPending, TestOver, Unprinted, Cycles;
  }

  /** Request k goes out at event 3 + 2k, reaches the server at the next, and is answered at event 5 + 2k. */
  lemma {:induction false} Exchange(states: seq<World>, events: seq<Event>, k: nat) returns (id: string)
    requires Run(states, events) && 5 + 2 * k < |events| && k < 2 * Cycles(states[0].cfg.testSize)
    ensures events[3 + 2 * k].ClientReceives? && events[4 + 2 * k].ServerReceives? && events[5 + 2 * k].ClientReceives?
    ensures states[3 + 2 * k].toServer == [] && |states[4 + 2 * k].toServer| == 1
    ensures IsRequest(states[4 + 2 * k].toServer[0], k, id)
    ensures |states[5 + 2 * k].toClient| == 1 && IsAnswer(states[5 + 2 * k].toClient[0], k, id)
  {
    hide FlightInv, Perform, Remaining, IsRequest, IsAnswer, Cycles;
    var j := 3 + 2 * k;
    RunRemaining(states, events, j);
    RunRemaining(states, events, j + 1);
    RunRemaining(states, events, j + 2);
    RunKeepsFlight(states, events, j);
    RunKeepsFlight(states, events, j + 1);
    RunKeepsFlight(states, events, j + 2);
    ClientTurn(states[j], k);
    id := RequestAt(states[j + 1], k);
    AnswerTurn(states[j + 2], k);
    assert WorldStep(states[j], events[j], states[j + 1]);
    assert WorldStep(states[j + 1], events[j + 1], states[j + 2]);
    assert WorldStep(states[j + 2], events[j + 2], states[j + 3]);
    Answered(states[j + 1], k, id);
  }

  lemma {:induction false} AnswerTurn(w: World, k: nat)
    requires FlightInv(w) && k < 2 * Cycles(w.cfg.testSize)
    requires Remaining(w) == 4 * Cycles(w.cfg.testSize) + 1 - 2 * k
    ensures w.toServer == [] && |w.toClient| == 1
  {
    hide OrderPending, CancelPending, NothingPending, TestOver, Unprinted, Cycles;
  }

  /** The server answers a request under its own id. */
  lemma {:induction false} Answered(w: World, k: nat, id: string)
    requires FlightInv(w) && w.toServer != [] && IsRequest(w.toServer[0], k, id) && CanHappen(w, ServerReceives)
    ensures var w' := Perform(w, ServerReceives); |w'.toClient| == 1 && IsAnswer(w'.toClient[0], k, id)
  {
    hide OrderPending, CancelPending, NothingPending, TestOver, Unprinted;
  }

  /** In every run, sample k is the client's own time from the event at which it sent request k, an order or its cancel,
      to the event at which the answer under the same id arrived: their difference, kept within 1 ns and an hour. */
  lemma {:induction false} SampleIsRoundTrip(states: seq<World>, events: seq<Event>, i: nat, k: nat)
      returns (id: string)
    requires Run(states, events) && i <= |events| && k < states[i].client.tracker.responseCount
    ensures |AllSamples(states[i].client.tracker)| == states[i].client.tracker.responseCount
    ensures 5 + 2 * k < i && events[3 + 2 * k].ClientReceives? && events[5 + 2 * k].ClientReceives?
    ensures states[3 + 2 * k].toServer == [] && |states[4 + 2 * k].toServer| == |states[5 + 2 * k].toClient| == 1
    ensures IsRequest(states[4 + 2 * k].toServer[0], k, id) && IsAnswer(states[5 + 2 * k].toClient[0], k, id)
    ensures var spent: int := events[5 + 2 * k].now - events[3 + 2 * k].now;
      AllSamples(states[i].client.tracker)[k] ==
        if spent < 1 then 1 else if spent > 3_600_000_000_000 then 3_600_000_000_000 else spent
  {
    hide FlightInv, Perform, CanHappen, AllSamples, IsRequest, IsAnswer, Cycles;
    RunTimes(states, events, i);
    RunKeepsFlight(states, events, i);
    AtMostTwoPerCycle(states[i]);
    id := Exchange(states, events, k);
    assert AllSamples(states[i].client.tracker)[k] == Between(ClockAt(events, 3 + 2 * k), ClockAt(events, 5 + 2 * k));
  }

  lemma {:induction false} AtMostTwoPerCycle(w: World)
    requires FlightInv(w)
    ensures w.client.tracker.responseCount <= 2 * Cycles(w.cfg.testSize)
  {
    hide OrderPending, CancelPending, NothingPending, Unprinted, Cycles;
  }

  // ---- The rotation over trading pairs.

  ghost predicate RotationInv(w: World) {
    && (forall k :: 0 <= k < |w.orders| ==> w.orders[k] == PairOf(w.cfg, k))
    && (w.cfg.coinPairs == [] ==> w.client.pairIndex == 0)
    && (w.cfg.coinPairs != [] ==> w.client.pairIndex == |w.orders| % |w.cfg.coinPairs|)
  }

  /** The pair the k-th order should use: round robin, or the default when none is configured. */
  function PairOf(cfg: Config, k: nat): string {
    if cfg.coinPairs == [] then "BTC_EUR" else cfg.coinPairs[k % |cfg.coinPairs|]
  }

  lemma {:induction false} NextRemainder(k: nat, n: nat)
    requires n > 0
    ensures (k % n + 1) % n == (k + 1) % n
  {
    var q, r := k / n, k % n;
    assert k == n * q + r;
    if r + 1 == n {
      assert n * (q + 1) == n * q + n;
      RemainderIs(k + 1, n, q + 1, 0);
      RemainderIs(r + 1, n, 1, 0);
    } else {
      RemainderIs(k + 1, n, q, r + 1);
      RemainderIs(r + 1, n, 0, r + 1);
    }
  }

  /** Either one order goes out, for the current pair, and the index moves on, or neither changes. */
  lemma {:induction false} OrdersAndIndex(cfg: Config, c: Client, m: Response, now: nat, newId: string)
    requires cfg.testSize > 0
    ensures var h := HandleMessage(cfg, c, m, now, newId);
      || (OrderPairs(h.out) == [CurrentPair(cfg, c.pairIndex)] && h.client.pairIndex == RotatedIndex(cfg, c.pairIndex))
      || (OrderPairs(h.out) == [] && h.client.pairIndex == c.pairIndex)
  {
    hide OrderPairs, CurrentPair, RotatedIndex, ShouldPrint;
    var h := HandleMessage(cfg, c, m, now, newId);
    OneOrder(CurrentPair(cfg, c.pairIndex), newId);
    if h.out != [] && !h.out[0].CreateOrder? {
      NoOrder(h.out[0]);
      assert h.out == [h.out[0]];
    }
  }

  lemma {:induction false} StepKeepsRotation(w: World, ev: Event)
    requires RotationInv(w) && w.cfg.testSize > 0 && CanHappen(w, ev)
    ensures RotationInv(Perform(w, ev)) && Perform(w, ev).cfg == w.cfg
  {
    hide HandleMessage, OrderPairs, Serve;
    if ev.ClientReceives? {
      OrdersAndIndex(w.cfg, w.client, w.toClient[0], ev.now, ev.newId);
      if w.cfg.coinPairs != [] { NextRemainder(|w.orders|, |w.cfg.coinPairs|); }
    }
  }

  /** In any run the k-th order is for the k-th pair of the configured rotation. */
  lemma {:induction false} OrdersRotate(states: seq<World>, events: seq<Event>, i: nat)
    requires Run(states, events) && i <= |events|
    ensures RotationInv(states[i]) && states[i].cfg == states[0].cfg
  {
    hide Perform, CanHappen, PairOf;
    if i > 0 {
      OrdersRotate(states, events, i - 1);
      assert WorldStep(states[i - 1], events[i - 1], states[i]);
      StepKeepsRotation(states[i - 1], events[i - 1]);
    }
  }
}
