// The Hyperliquid market-data processor as a state machine, and the order of
// the messages it writes.
module Hyperliquid {
  import opened Common
  import opened Registry
  import opened Stream

  const MILLI := 1_000_000
  const EXPIRY_BUFFER_MS := 300_000
  const DRAIN_AFTER_MS := 10_000
  const TWO64: int := 0x1_0000_0000_0000_0000

  // One side of a prediction market.
  datatype Outcome = Outcome(symbol: string, coin: string, expiryMs: int, id: int)

  datatype Hyper = Hyper(market: Market, desired: set<string>, historical: bool, connectedMs: nat, metaMs: nat,
                         pendingDefs: map<int, string>, pendingOutcomes: map<int, Outcome>, active: seq<Outcome>,
                         refetch: bool, lastExpiryMs: int)

  // `order` is the order in which a map is traversed; `now` a reading of the
  // clock in milliseconds. `sides` are those of the outcomes asked for.
  datatype Event =
    | Connected(now: nat, order: seq<int>)
    | Disconnected(order: seq<int>)
    | Meta(now: nat, coins: seq<string>)
    | OutcomeMeta(sides: seq<Outcome>)
    | L2Book(coin: string, time: nat, bids: seq<Level>, asks: seq<Level>, now: nat, order: seq<int>)
    | Bbo(coin: string, time: nat, bid: Option<Level>, ask: Option<Level>)
    | Traded(coin: string, time: nat, side: char, level: Level, tradeId: nat)
    | Expire(now: nat)

  function Initial(desired: set<string>, historical: bool): Hyper {
    Hyper(EMPTY, desired, historical, 0, 0, map[], map[], [], false, 0)
  }

  // --- the handlers -------------------------------------------------------

  function OnConnected(h: Hyper, now: nat, order: seq<int>): Hyper {
    var m := if h.market.connection == ConnectionOnline then Invalidated(h.market, 0, order) else h.market;
    h.(market := SetConnection(m, Starting, 0), connectedMs := if h.historical then 0 else now)
  }

  function OnDisconnected(h: Hyper, order: seq<int>): Hyper {
    h.(market := Invalidated(h.market, 0, order), pendingDefs := map[], pendingOutcomes := map[], active := [])
  }

  function Await(m: Market, hash: string -> nat, coin: string): Market {
    var made := WithSecurity(m, hash, coin);
    if coin in made.ids then SetStatus(made, made.ids[coin], 0, PendingSnapshot) else made
  }

  function IdIn(m: Market, coin: string): int {
    if coin in m.ids then m.ids[coin] else 0
  }

  function ListCoins(h: Hyper, hash: string -> nat, coins: seq<string>): Hyper
    decreases |coins|
  {
    if coins == [] then h
    else if coins[0] !in h.desired then ListCoins(h, hash, coins[1..])
    else
      var m := Await(h.market, hash, coins[0]);
      ListCoins(h.(market := m, pendingDefs := h.pendingDefs[IdIn(m, coins[0]) := coins[0]]), hash, coins[1..])
  }

  function ListSides(h: Hyper, hash: string -> nat, sides: seq<Outcome>): Hyper
    decreases |sides|
  {
    if sides == [] then h
    else
      var m := Await(h.market, hash, sides[0].coin);
      var id := IdIn(m, sides[0].coin);
      ListSides(h.(market := m, pendingOutcomes := h.pendingOutcomes[id := sides[0].(id := id)]), hash, sides[1..])
  }

  // A message from before the connection.
  predicate Stale(h: Hyper, time: nat) {
    h.connectedMs > 0 && time < h.connectedMs
  }

  function DefineCoin(h: Hyper, id: int, priced: bool): Hyper {
    if id !in h.pendingDefs then h
    else
      var added := SecurityAdded(id, 0, h.pendingDefs[id], h.pendingDefs[id]);
      h.(market := if priced then Emit(h.market, added) else h.market,
         pendingDefs := h.pendingDefs - {id})
  }

  function DefineOutcome(h: Hyper, id: int): Hyper {
    if id !in h.pendingOutcomes then h
    else
      var o := h.pendingOutcomes[id];
      var cleared := h.(pendingOutcomes := h.pendingOutcomes - {id});
      if h.market.output then
        cleared.(market := Emit(h.market, SecurityAdded(o.id, 0, o.symbol, o.coin)), active := h.active + [o])
      else cleared
  }

  function DefineInOrder(m: Market, names: map<int, string>, order: seq<int>): Market
    decreases |order|
  {
    if order == [] then m
    else
      var m' := if order[0] in names then Emit(m, SecurityAdded(order[0], 0, names[order[0]], names[order[0]])) else m;
      DefineInOrder(m', names, order[1..])
  }

  predicate DrainDue(h: Hyper, now: nat) {
    h.pendingDefs != map[] && h.metaMs != 0 && (now - h.metaMs) % TWO64 >= DRAIN_AFTER_MS
  }

  // The coins that got no price in time are defined all the same.
  function Drain(h: Hyper, now: nat, order: seq<int>): Hyper {
    if DrainDue(h, now) then h.(market := DefineInOrder(h.market, h.pendingDefs, order), pendingDefs := map[]) else h
  }

  function GoOnline(h: Hyper, time: nat): Hyper {
    if h.pendingDefs == map[] && h.pendingOutcomes == map[] && h.market.connection != ConnectionOnline
    then h.(market := SetConnection(h.market, ConnectionOnline, time * MILLI)) else h
  }

  function Awaken(m: Market, id: int, time: nat): Market {
    if StatusOf(m, id) == PendingSnapshot then SetStatus(m, id, time * MILLI, Online) else m
  }

  // Everything a book brings about before it is written itself.
  function BeforeBook(h: Hyper, id: int, time: nat, priced: bool, now: nat, order: seq<int>): Hyper {
    var awake := h.(market := Awaken(h.market, id, time));
    GoOnline(Drain(DefineOutcome(DefineCoin(awake, id, priced), id), now, order), time)
  }

  function OnL2Book(h: Hyper, coin: string, time: nat, bids: seq<Level>, asks: seq<Level>, now: nat,
                    order: seq<int>): Hyper {
    if Stale(h, time) || coin !in h.market.ids then h
    else
      var id := h.market.ids[coin];
      var ready := BeforeBook(h, id, time, bids != [] || asks != [], now, order);
      ready.(market := Emit(ready.market, FullBook(id, time * MILLI, bids, asks)))
  }

  function BboUpdates(id: int, time: nat, bid: Option<Level>, ask: Option<Level>): seq<Message> {
    (if bid.Some? then [BookUpdate(id, time * MILLI, BidSide, Change, bid.value)] else [])
    + (if ask.Some? then [BookUpdate(id, time * MILLI, AskSide, Change, ask.value)] else [])
  }

  function OnBbo(h: Hyper, coin: string, time: nat, bid: Option<Level>, ask: Option<Level>): Hyper {
    if Stale(h, time) || coin !in h.market.ids || StatusOf(h.market, h.market.ids[coin]) != Online then h
    else h.(market := EmitAll(h.market, BboUpdates(h.market.ids[coin], time, bid, ask)))
  }

  function OnTrade(h: Hyper, coin: string, time: nat, side: char, level: Level, tradeId: nat): Hyper {
    if Stale(h, time) || coin !in h.market.ids then h
    else
      h.(market := Emit(h.market,
                        TradeUpdate(h.market.ids[coin], time * MILLI, if side == 'B' then AskSide else BidSide,
                                              level, Some(tradeId))))
  }

  predicate Expired(o: Outcome, now: nat) {
    now >= o.expiryMs - EXPIRY_BUFFER_MS
  }

  function Retire(m: Market, id: int, now: nat): Market {
    WithoutSecurity(SetStatus(Emit(m, SecurityRemoved(id)), id, now * MILLI, Offline), id)
  }

  // `kept` are the outcomes looked at already that have not expired.
  function RemoveExpired(h: Hyper, now: nat, kept: seq<Outcome>): Hyper
    decreases |h.active|
  {
    if h.active == [] then h.(active := kept)
    else
      var o := h.active[0];
      if Expired(o, now) then
        RemoveExpired(h.(market := Retire(h.market, o.id, now), active := h.active[1..],
                         refetch := true, lastExpiryMs := Max(h.lastExpiryMs, o.expiryMs)), now, kept)
      else
        RemoveExpired(h.(active := h.active[1..]), now, kept + [o])
  }

  function Step(h: Hyper, hash: string -> nat, e: Event): Hyper {
    match e
    case Connected(now, order) => OnConnected(h, now, order)
    case Disconnected(order) => OnDisconnected(h, order)
    case Meta(now, coins) => ListCoins(h.(metaMs := now), hash, coins)
    case OutcomeMeta(sides) => ListSides(h.(refetch := false), hash, sides)
    case L2Book(coin, time, bids, asks, now, order) => OnL2Book(h, coin, time, bids, asks, now, order)
    case Bbo(coin, time, bid, ask) => OnBbo(h, coin, time, bid, ask)
    case Traded(coin, time, side, level, tradeId) => OnTrade(h, coin, time, side, level, tradeId)
    case Expire(now) => RemoveExpired(h, now, [])
  }

  function Run(h: Hyper, hash: string -> nat, es: seq<Event>): Hyper
    decreases |es|
  {
    if es == [] then h else Run(Step(h, hash, es[0]), hash, es[1..])
  }

  // --- the order of the stream --------------------------------------------

  ghost predicate Accepts(h: Hyper, e: Event) {
    match e
    case Connected(_, order) => Enumerates(order, h.market.securities.Keys)
    case Disconnected(order) => Enumerates(order, h.market.securities.Keys)
    case Meta(_, coins) => |h.market.securities| + |coins| <= MAX_ID
    case OutcomeMeta(sides) => |h.market.securities| + |sides| <= MAX_ID
    case _ => true
  }

  ghost predicate ValidRun(h: Hyper, hash: string -> nat, es: seq<Event>)
    decreases |es|
  {
    es == [] || (Accepts(h, es[0]) && ValidRun(Step(h, hash, es[0]), hash, es[1..]))
  }

  // As for Deribit, but trades may come before the first book.
  ghost predicate Orderly(m: Market) {
    InStep(m, false, {}) && Settled(m)
  }

  lemma SayKeepsOrder(m: Market, message: Message)
    requires Orderly(m) && !message.SecurityStatus? && MayFollow(m.stream, message, false)
    ensures Orderly(Emit(m, message))
    ensures forall id :: BookSent(m.stream, id) ==> BookSent(Emit(m, message).stream, id)
  {
    SayKeepsStep(m, message, false, {});
    if message.FullBook? {
      assert {} - {message.id} == {};
    }
  }

  lemma AwaitKeepsOrder(m: Market, hash: string -> nat, coin: string)
    requires Orderly(m) && |m.securities| < MAX_ID
    ensures Orderly(Await(m, hash, coin)) && |Await(m, hash, coin).securities| <= |m.securities| + 1
  {
    CreateKeepsStep(m, hash, coin, false, {});
    CreateKeepsInverse(m, hash, coin);
    var made := WithSecurity(m, hash, coin);
    StatusKeepsStep(made, made.ids[coin], 0, PendingSnapshot, false, {});
    var done := Await(m, hash, coin);
    assert |done.securities| == |done.securities.Keys| && |made.securities| == |made.securities.Keys|;
    forall id | id in made.securities && id != made.ids[coin]
      ensures made.securities[id].status in {PendingSnapshot, Online}
    {
      assert id in m.securities;
    }
  }

  lemma {:induction false} ListCoinsKeepsOrder(h: Hyper, hash: string -> nat, coins: seq<string>)
    requires Orderly(h.market) && |h.market.securities| + |coins| <= MAX_ID
    ensures Orderly(ListCoins(h, hash, coins).market)
    decreases |coins|
  {
    if coins != [] {
      if coins[0] !in h.desired {
        ListCoinsKeepsOrder(h, hash, coins[1..]);
      } else {
        AwaitKeepsOrder(h.market, hash, coins[0]);
        var m := Await(h.market, hash, coins[0]);
        var h' := h.(market := m, pendingDefs := h.pendingDefs[IdIn(m, coins[0]) := coins[0]]);
        ListCoinsKeepsOrder(h', hash, coins[1..]);
      }
    }
  }

  lemma {:induction false} ListSidesKeepsOrder(h: Hyper, hash: string -> nat, sides: seq<Outcome>)
    requires Orderly(h.market) && |h.market.securities| + |sides| <= MAX_ID
    ensures Orderly(ListSides(h, hash, sides).market)
    decreases |sides|
  {
    if sides != [] {
      AwaitKeepsOrder(h.market, hash, sides[0].coin);
      var m := Await(h.market, hash, sides[0].coin);
      var id := IdIn(m, sides[0].coin);
      var h' := h.(market := m, pendingOutcomes := h.pendingOutcomes[id := sides[0].(id := id)]);
      ListSidesKeepsOrder(h', hash, sides[1..]);
    }
  }

  // Orderly but for the book of one security, still to be written.
  ghost predicate AlmostOrderly(m: Market, id: int) {
    InStep(m, false, {id}) && Settled(m)
  }

  lemma SayKeepsAlmost(m: Market, id: int, message: Message)
    requires AlmostOrderly(m, id) && (message.SecurityAdded? || message.ConnectionStatus?)
    ensures AlmostOrderly(Emit(m, message), id)
  {
    SayKeepsStep(m, message, false, {id});
  }

  lemma ConnectionKeepsAlmost(m: Market, id: int, connection: Connection, time: int)
    requires AlmostOrderly(m, id)
    ensures AlmostOrderly(SetConnection(m, connection, time), id)
  {
    var m' := m.(connection := connection);
    forall other ensures StatusOf(m', other) == StatusOf(m, other) {
    }
    SayKeepsAlmost(m', id, ConnectionStatus(time, connection));
  }

  lemma {:induction false} DefineInOrderKeepsAlmost(m: Market, names: map<int, string>, order: seq<int>, id: int)
    requires AlmostOrderly(m, id)
    ensures AlmostOrderly(DefineInOrder(m, names, order), id)
    decreases |order|
  {
    if order != [] {
      var m' := if order[0] in names then Emit(m, SecurityAdded(order[0], 0, names[order[0]], names[order[0]])) else m;
      if order[0] in names {
        SayKeepsAlmost(m, id, SecurityAdded(order[0], 0, names[order[0]], names[order[0]]));
      }
      DefineInOrderKeepsAlmost(m', names, order[1..], id);
    }
  }

  lemma AwakenAlmost(m: Market, id: int, time: nat)
    requires Orderly(m)
    ensures AlmostOrderly(Awaken(m, id, time), id)
  {
    forall other ensures StatusOf(m, other) == StatusOf(m, other) {
    }
    StatusKeepsStep(m, id, time * MILLI, Online, false, {id});
  }

  lemma DefineCoinAlmost(h: Hyper, id: int, priced: bool)
    requires AlmostOrderly(h.market, id)
    ensures AlmostOrderly(DefineCoin(h, id, priced).market, id)
  {
    if id in h.pendingDefs {
      SayKeepsAlmost(h.market, id, SecurityAdded(id, 0, h.pendingDefs[id], h.pendingDefs[id]));
    }
  }

  lemma DefineOutcomeAlmost(h: Hyper, id: int)
    requires AlmostOrderly(h.market, id)
    ensures AlmostOrderly(DefineOutcome(h, id).market, id)
  {
    if id in h.pendingOutcomes {
      var o := h.pendingOutcomes[id];
      SayKeepsAlmost(h.market, id, SecurityAdded(o.id, 0, o.symbol, o.coin));
    }
  }

  lemma DrainAlmost(h: Hyper, id: int, now: nat, order: seq<int>)
    requires AlmostOrderly(h.market, id)
    ensures AlmostOrderly(Drain(h, now, order).market, id)
  {
    DefineInOrderKeepsAlmost(h.market, h.pendingDefs, order, id);
  }

  lemma BeforeBookAlmost(h: Hyper, id: int, time: nat, priced: bool, now: nat, order: seq<int>)
    requires Orderly(h.market)
    ensures AlmostOrderly(BeforeBook(h, id, time, priced, now, order).market, id)
  {
    AwakenAlmost(h.market, id, time);
    var awake := h.(market := Awaken(h.market, id, time));
    DefineCoinAlmost(awake, id, priced);
    var coin := DefineCoin(awake, id, priced);
    DefineOutcomeAlmost(coin, id);
    DrainAlmost(DefineOutcome(coin, id), id, now, order);
    ConnectionKeepsAlmost(Drain(DefineOutcome(coin, id), now, order).market, id, ConnectionOnline, time * MILLI);
  }

  lemma BookKeepsOrder(m: Market, id: int, book: Message)
    requires AlmostOrderly(m, id) && book.FullBook? && book.id == id
    ensures Orderly(Emit(m, book))
  {
    SayKeepsStep(m, book, false, {id});
    assert {id} - {id} == {};
  }

  lemma OnL2BookKeepsOrder(h: Hyper, coin: string, time: nat, bids: seq<Level>, asks: seq<Level>, now: nat,
                           order: seq<int>)
    requires Orderly(h.market)
    ensures Orderly(OnL2Book(h, coin, time, bids, asks, now, order).market)
  {
    if coin in h.market.ids {
      var id := h.market.ids[coin];
      BeforeBookAlmost(h, id, time, bids != [] || asks != [], now, order);
      BookKeepsOrder(BeforeBook(h, id, time, bids != [] || asks != [], now, order).market, id,
                     FullBook(id, time * MILLI, bids, asks));
    }
  }

  lemma BboKeepsOrder(m: Market, id: int, time: nat, bid: Option<Level>, ask: Option<Level>)
    requires Orderly(m) && BookSent(m.stream, id)
    ensures Orderly(EmitAll(m, BboUpdates(id, time, bid, ask)))
  {
    var bids := if bid.Some? then [BookUpdate(id, time * MILLI, BidSide, Change, bid.value)] else [];
    var asks := if ask.Some? then [BookUpdate(id, time * MILLI, AskSide, Change, ask.value)] else [];
    if bid.Some? {
      SayKeepsOrder(m, bids[0]);
    }
    assert m.stream + [] == m.stream;
    var m1 := EmitAll(m, bids);
    if ask.Some? {
      SayKeepsOrder(m1, asks[0]);
    }
    assert m1.stream + [] == m1.stream;
    Assoc(m.stream, bids, asks);
  }

  lemma RetireKeepsOrder(m: Market, id: int, now: nat)
    requires Orderly(m)
    ensures Orderly(Retire(m, id, now))
  {
    SayKeepsOrder(m, SecurityRemoved(id));
    var m1 := Emit(m, SecurityRemoved(id));
    if id in m1.securities {
      StatusKeepsStep(m1, id, now * MILLI, Offline, false, {});
    }
    ForgetKeepsStep(SetStatus(m1, id, now * MILLI, Offline), id, false, {});
  }

  lemma {:induction false} RemoveExpiredKeepsOrder(h: Hyper, now: nat, kept: seq<Outcome>)
    requires Orderly(h.market)
    ensures Orderly(RemoveExpired(h, now, kept).market)
    decreases |h.active|
  {
    if h.active != [] {
      var o := h.active[0];
      if Expired(o, now) {
        RetireKeepsOrder(h.market, o.id, now);
        RemoveExpiredKeepsOrder(h.(market := Retire(h.market, o.id, now), active := h.active[1..],
                                   refetch := true, lastExpiryMs := Max(h.lastExpiryMs, o.expiryMs)), now, kept);
      } else {
        RemoveExpiredKeepsOrder(h.(active := h.active[1..]), now, kept + [o]);
      }
    }
  }

  lemma ConnectionKeepsOrder(m: Market, connection: Connection, time: int)
    requires Orderly(m)
    ensures Orderly(SetConnection(m, connection, time))
  {
    var m' := m.(connection := connection);
    forall id ensures StatusOf(m', id) == StatusOf(m, id) {
    }
    SayKeepsOrder(m', ConnectionStatus(time, connection));
  }

  lemma StepKeepsOrder(h: Hyper, hash: string -> nat, e: Event)
    requires Orderly(h.market) && Accepts(h, e)
    ensures Orderly(Step(h, hash, e).market)
  {
    var m := h.market;
    match e
    case Connected(now, order) =>
      InvalidateKeepsStep(m, 0, order, false);
      ConnectionKeepsOrder(if m.connection == ConnectionOnline then Invalidated(m, 0, order) else m, Starting, 0);
    case Disconnected(order) =>
      InvalidateKeepsStep(m, 0, order, false);
    case Meta(now, coins) =>
      ListCoinsKeepsOrder(h.(metaMs := now), hash, coins);
    case OutcomeMeta(sides) =>
      ListSidesKeepsOrder(h.(refetch := false), hash, sides);
    case L2Book(coin, time, bids, asks, now, order) =>
      OnL2BookKeepsOrder(h, coin, time, bids, asks, now, order);
    case Bbo(coin, time, bid, ask) =>
      if coin in m.ids && StatusOf(m, m.ids[coin]) == Online {
        BboKeepsOrder(m, m.ids[coin], time, bid, ask);
      }
    case Traded(coin, time, side, level, tradeId) =>
      if coin in m.ids {
        var taker := if side == 'B' then AskSide else BidSide;
        SayKeepsOrder(m, TradeUpdate(m.ids[coin], time * MILLI, taker, level, Some(tradeId)));
      }
    case Expire(now) =>
      RemoveExpiredKeepsOrder(h, now, []);
  }

  lemma {:induction false} RunKeepsOrder(h: Hyper, hash: string -> nat, es: seq<Event>)
    requires Orderly(h.market) && ValidRun(h, hash, es)
    ensures Orderly(Run(h, hash, es).market)
    decreases |es|
  {
    if es != [] {
      StepKeepsOrder(h, hash, es[0]);
      RunKeepsOrder(Step(h, hash, es[0]), hash, es[1..]);
    }
  }

  // Over a whole run: consecutive statuses of a security differ, and every BBO
  // update comes after a full book sent since the latest PENDING_SNAPSHOT.
  lemma StreamProtocol(desired: set<string>, historical: bool, hash: string -> nat, es: seq<Event>, k: nat)
    requires ValidRun(Initial(desired, historical), hash, es)
    ensures var m := Run(Initial(desired, historical), hash, es).market;
            Inverse(m) && (k < |m.stream| ==> MayFollow(m.stream[..k], m.stream[k], false))
  {
    RunKeepsOrder(Initial(desired, historical), hash, es);
    var m := Run(Initial(desired, historical), hash, es).market;
    if k < |m.stream| {
      WellBehavedEverywhere(m.stream, false, k);
    }
  }
}
