// That a reader of the Hyperliquid stream has the exchange's prices.
module HyperliquidFeed {
  import opened Common
  import opened Registry
  import opened Stream
  import opened Reading
  import opened Hyperliquid

  // --- what the exchange gives --------------------------------------------

  // When the connection was made, or 0 in historical mode.
  function ConnectedAt(es: seq<Event>, historical: bool): nat
    decreases |es|
  {
    if es == [] || historical then 0
    else
      var last := es[|es| - 1];
      if last.Connected? then last.now else ConnectedAt(es[..|es| - 1], historical)
  }

  // Messages older than the connection are dropped.
  predicate Current(es: seq<Event>, historical: bool, time: nat) {
    ConnectedAt(es, historical) <= time
  }

  // One side of the latest book, and of every best price given since.
  function FeedSide(es: seq<Event>, historical: bool, coin: string, side: Side): seq<Level>
    decreases |es|
  {
    if es == [] then []
    else
      var before, last := es[..|es| - 1], es[|es| - 1];
      if last.L2Book? && last.coin == coin && Current(before, historical, last.time) then
        if side == BidSide then last.bids else if side == AskSide then last.asks else []
      else if last.Bbo? && last.coin == coin && Current(before, historical, last.time) then
        FeedSide(before, historical, coin, side) + Best(if side == BidSide then last.bid
                                                        else if side == AskSide then last.ask else None)
      else FeedSide(before, historical, coin, side)
  }

  function Best(level: Option<Level>): seq<Level> {
    if level.Some? then [level.value] else []
  }

  // --- books --------------------------------------------------------------

  // The same securities under the same ids, and the same prices.
  ghost predicate SamePrices(m: Market, m': Market) {
    && m'.ids == m.ids && m'.output == m.output
    && forall id {:trigger PricesSince(m'.stream, id)} :: PricesSince(m'.stream, id) == PricesSince(m.stream, id)
  }

  lemma SayIsSamePrices(m: Market, message: Message)
    requires !message.FullBook? && !message.BookUpdate? && !message.TradeUpdate?
    ensures SamePrices(m, Emit(m, message))
  {
    forall id ensures PricesSince(Emit(m, message).stream, id) == PricesSince(m.stream, id) {
      AfterOne(m.stream, message, id);
    }
  }

  lemma StatusIsSamePrices(m: Market, id: int, time: int, status: Status)
    ensures SamePrices(m, SetStatus(m, id, time, status))
  {
    forall other ensures PricesSince(SetStatus(m, id, time, status).stream, other) == PricesSince(m.stream, other) {
      StatusTellsNoPrice(m, id, time, status, other);
    }
  }

  // The status of no security but one has changed.
  ghost predicate SameStatusBut(m: Market, m': Market, id: int) {
    forall other :: other != id ==> StatusOf(m', other) == StatusOf(m, other)
  }

  lemma {:induction false} DefineInOrderIsQuiet(m: Market, names: map<int, string>, order: seq<int>)
    ensures SamePrices(m, DefineInOrder(m, names, order)) && DefineInOrder(m, names, order).securities == m.securities
    decreases |order|
  {
    if order != [] {
      var added := if order[0] in names then [SecurityAdded(order[0], 0, names[order[0]], names[order[0]])] else [];
      var m' := if order[0] in names then Emit(m, added[0]) else m;
      if order[0] in names {
        SayIsSamePrices(m, added[0]);
      }
      DefineInOrderIsQuiet(m', names, order[1..]);
    }
  }

  lemma DefinitionsAreQuiet(h: Hyper, id: int, priced: bool, now: nat, order: seq<int>)
    ensures var h' := Drain(DefineOutcome(DefineCoin(h, id, priced), id), now, order);
            SamePrices(h.market, h'.market) && h'.market.securities == h.market.securities
  {
    var h1 := DefineCoin(h, id, priced);
    var h2 := DefineOutcome(h1, id);
    if id in h.pendingDefs {
      SayIsSamePrices(h.market, SecurityAdded(id, 0, h.pendingDefs[id], h.pendingDefs[id]));
    }
    if id in h1.pendingOutcomes {
      var o := h1.pendingOutcomes[id];
      SayIsSamePrices(h1.market, SecurityAdded(o.id, 0, o.symbol, o.coin));
    }
    DefineInOrderIsQuiet(h2.market, h2.pendingDefs, order);
  }

  lemma GoOnlineIsQuiet(h: Hyper, time: nat)
    ensures SamePrices(h.market, GoOnline(h, time).market) && GoOnline(h, time).market.securities == h.market.securities
  {
    var m := h.market.(connection := ConnectionOnline);
    SayIsSamePrices(m, ConnectionStatus(time * MILLI, ConnectionOnline));
  }

  lemma BeforeBookIsQuiet(h: Hyper, id: int, time: nat, priced: bool, now: nat, order: seq<int>)
    ensures var m' := BeforeBook(h, id, time, priced, now, order).market;
            SamePrices(h.market, m') && SameStatusBut(h.market, m', id)
  {
    var awake := h.(market := Awaken(h.market, id, time));
    StatusIsSamePrices(h.market, id, time * MILLI, Online);
    DefinitionsAreQuiet(awake, id, priced, now, order);
    GoOnlineIsQuiet(Drain(DefineOutcome(DefineCoin(awake, id, priced), id), now, order), time);
  }

  lemma BookIsOnline(h: Hyper, id: int, time: nat, priced: bool, now: nat, order: seq<int>)
    requires Settled(h.market) && id in h.market.securities
    ensures StatusOf(BeforeBook(h, id, time, priced, now, order).market, id) == Online
  {
    var awake := h.(market := Awaken(h.market, id, time));
    DefinitionsAreQuiet(awake, id, priced, now, order);
    GoOnlineIsQuiet(Drain(DefineOutcome(DefineCoin(awake, id, priced), id), now, order), time);
  }

  // A current book of a registered coin is read as it was given, brings the
  // security online, and nothing else is read of another's prices or status.
  lemma BookTold(h: Hyper, e: Event)
    requires Orderly(h.market) && e.L2Book? && !Stale(h, e.time) && e.coin in h.market.ids
    ensures var id, m := h.market.ids[e.coin], h.market;
            var m' := OnL2Book(h, e.coin, e.time, e.bids, e.asks, e.now, e.order).market;
            && m'.ids == m.ids && StatusOf(m', id) == Online && SameStatusBut(m, m', id)
            && PricesSince(m'.stream, id) == [FullBook(id, e.time * 1_000_000, e.bids, e.asks)]
            && forall other :: other != id ==> PricesSince(m'.stream, other) == PricesSince(m.stream, other)
  {
    var id := h.market.ids[e.coin];
    var priced := e.bids != [] || e.asks != [];
    var m1 := BeforeBook(h, id, e.time, priced, e.now, e.order).market;
    var book := FullBook(id, e.time * MILLI, e.bids, e.asks);
    BeforeBookIsQuiet(h, id, e.time, priced, e.now, e.order);
    BookIsOnline(h, id, e.time, priced, e.now, e.order);
    SayTells(m1, book, id);
    forall other | other != id
      ensures PricesSince(Emit(m1, book).stream, other) == PricesSince(h.market.stream, other)
    {
      SayTells(m1, book, other);
    }
  }

  // --- best prices and trades ---------------------------------------------

  lemma UpdatesTold(m: Market, us: seq<Message>, id: int, side: Side)
    requires m.output && forall i :: 0 <= i < |us| ==> IsUpdate(us[i], id)
    ensures SideSince(PricesSince(EmitAll(m, us).stream, id), side)
            == SideSince(PricesSince(m.stream, id), side) + SideSince(us, side)
    ensures forall other :: other != id ==> PricesSince(EmitAll(m, us).stream, other) == PricesSince(m.stream, other)
  {
    AfterUpdates(m.stream, us, id);
    SideSinceMore(PricesSince(m.stream, id), us, side);
    forall other | other != id ensures PricesSince(m.stream + us, other) == PricesSince(m.stream, other) {
      AfterOthers(m.stream, us, other);
    }
  }

  lemma BboTold(m: Market, id: int, time: nat, bid: Option<Level>, ask: Option<Level>)
    requires m.output
    ensures var m' := EmitAll(m, BboUpdates(id, time, bid, ask));
            var before, after := PricesSince(m.stream, id), PricesSince(m'.stream, id);
            && SideSince(after, BidSide) == SideSince(before, BidSide) + Best(bid)
            && SideSince(after, AskSide) == SideSince(before, AskSide) + Best(ask)
            && (forall other :: other != id ==> PricesSince(m'.stream, other) == PricesSince(m.stream, other))
  {
    UpdatesTold(m, BboUpdates(id, time, bid, ask), id, BidSide);
    UpdatesTold(m, BboUpdates(id, time, bid, ask), id, AskSide);
    BboSides(id, time, bid, ask);
  }

  lemma BboSides(id: int, time: nat, bid: Option<Level>, ask: Option<Level>)
    ensures SideSince(BboUpdates(id, time, bid, ask), BidSide) == Best(bid)
    ensures SideSince(BboUpdates(id, time, bid, ask), AskSide) == Best(ask)
  {
    var bids := if bid.Some? then [BookUpdate(id, time * MILLI, BidSide, Change, bid.value)] else [];
    var asks := if ask.Some? then [BookUpdate(id, time * MILLI, AskSide, Change, ask.value)] else [];
    SideSinceMore(bids, asks, BidSide);
    SideSinceMore(bids, asks, AskSide);
  }

  // --- the reader has the feed --------------------------------------------

  ghost predicate HasFeed(m: Market, past: seq<Event>, historical: bool, coin: string) {
    coin in m.ids && StatusOf(m, m.ids[coin]) == Online ==>
      var prices := PricesSince(m.stream, m.ids[coin]);
      && SideSince(prices, BidSide) == FeedSide(past, historical, coin, BidSide)
      && SideSince(prices, AskSide) == FeedSide(past, historical, coin, AskSide)
  }

  predicate SameSides(before: seq<Message>, after: seq<Message>) {
    SideSince(after, BidSide) == SideSince(before, BidSide) && SideSince(after, AskSide) == SideSince(before, AskSide)
  }

  ghost predicate NoNews(m: Market, m': Market) {
    forall coin :: coin in m'.ids && StatusOf(m', m'.ids[coin]) == Online ==>
      && coin in m.ids && m.ids[coin] == m'.ids[coin] && StatusOf(m, m.ids[coin]) == Online
      && SameSides(PricesSince(m.stream, m.ids[coin]), PricesSince(m'.stream, m.ids[coin]))
  }

  lemma AwaitNoNews(m: Market, hash: string -> nat, coin: string)
    requires InStep(m, false, {}) && |m.securities| < MAX_ID
    ensures NoNews(m, Await(m, hash, coin))
  {
    CreateKeepsInverse(m, hash, coin);
    var made := WithSecurity(m, hash, coin);
    StatusIsSamePrices(made, made.ids[coin], 0, PendingSnapshot);
  }

  lemma {:induction false} ListCoinsNoNews(h: Hyper, hash: string -> nat, coins: seq<string>)
    requires Orderly(h.market) && |h.market.securities| + |coins| <= MAX_ID
    ensures NoNews(h.market, ListCoins(h, hash, coins).market)
    decreases |coins|
  {
    if coins != [] {
      if coins[0] !in h.desired {
        ListCoinsNoNews(h, hash, coins[1..]);
      } else {
        AwaitKeepsOrder(h.market, hash, coins[0]);
        AwaitNoNews(h.market, hash, coins[0]);
        var m := Await(h.market, hash, coins[0]);
        var h' := h.(market := m, pendingDefs := h.pendingDefs[IdIn(m, coins[0]) := coins[0]]);
        ListCoinsNoNews(h', hash, coins[1..]);
      }
    }
  }

  lemma {:induction false} ListSidesNoNews(h: Hyper, hash: string -> nat, sides: seq<Outcome>)
    requires Orderly(h.market) && |h.market.securities| + |sides| <= MAX_ID
    ensures NoNews(h.market, ListSides(h, hash, sides).market)
    decreases |sides|
  {
    if sides != [] {
      AwaitKeepsOrder(h.market, hash, sides[0].coin);
      AwaitNoNews(h.market, hash, sides[0].coin);
      var m := Await(h.market, hash, sides[0].coin);
      var id := IdIn(m, sides[0].coin);
      var h' := h.(market := m, pendingOutcomes := h.pendingOutcomes[id := sides[0].(id := id)]);
      ListSidesNoNews(h', hash, sides[1..]);
    }
  }

  lemma RetireNoNews(m: Market, id: int, now: nat)
    requires Orderly(m)
    ensures NoNews(m, Retire(m, id, now))
  {
    var m1 := Emit(m, SecurityRemoved(id));
    var m2 := SetStatus(m1, id, now * MILLI, Offline);
    SayIsSamePrices(m, SecurityRemoved(id));
    StatusIsSamePrices(m1, id, now * MILLI, Offline);
    SayIsSamePrices(m2, SecurityRemoved(id));
  }

  lemma {:induction false} RemoveExpiredNoNews(h: Hyper, now: nat, kept: seq<Outcome>)
    requires Orderly(h.market)
    ensures NoNews(h.market, RemoveExpired(h, now, kept).market)
    decreases |h.active|
  {
    if h.active != [] {
      var o := h.active[0];
      if Expired(o, now) {
        RetireKeepsOrder(h.market, o.id, now);
        RetireNoNews(h.market, o.id, now);
        RemoveExpiredNoNews(h.(market := Retire(h.market, o.id, now), active := h.active[1..],
                               refetch := true, lastExpiryMs := Max(h.lastExpiryMs, o.expiryMs)), now, kept);
      } else {
        RemoveExpiredNoNews(h.(active := h.active[1..]), now, kept + [o]);
      }
    }
  }

  lemma TradeNoNews(m: Market, id: int, time: int, side: Side, level: Level, tradeId: Option<nat>)
    requires m.output
    ensures NoNews(m, Emit(m, TradeUpdate(id, time, side, level, tradeId)))
  {
    var trade := TradeUpdate(id, time, side, level, tradeId);
    var m' := Emit(m, trade);
    forall coin | coin in m.ids
      ensures SameSides(PricesSince(m.stream, m.ids[coin]), PricesSince(m'.stream, m.ids[coin]))
    {
      SayTells(m, trade, m.ids[coin]);
      OneMore(PricesSince(m.stream, m.ids[coin]), trade);
    }
  }

  lemma StepNoNews(h: Hyper, hash: string -> nat, e: Event)
    requires Orderly(h.market) && Accepts(h, e) && !e.L2Book? && !e.Bbo?
    ensures NoNews(h.market, Step(h, hash, e).market)
  {
    var m := h.market;
    match e
    case Connected(now, order) =>
      SayIsSamePrices(m.(connection := Starting), ConnectionStatus(0, Starting));
    case Meta(now, coins) =>
      ListCoinsNoNews(h.(metaMs := now), hash, coins);
    case OutcomeMeta(sides) =>
      ListSidesNoNews(h.(refetch := false), hash, sides);
    case Traded(coin, time, side, level, tradeId) =>
      if coin in m.ids {
        TradeNoNews(m, m.ids[coin], time * MILLI, if side == 'B' then AskSide else BidSide, level, Some(tradeId));
      }
    case Expire(now) =>
      RemoveExpiredNoNews(h, now, []);
    case _ =>
  }

  ghost predicate AsConnected(h: Hyper, past: seq<Event>, historical: bool) {
    h.historical == historical && h.connectedMs == ConnectedAt(past, historical)
  }

  lemma FeedAfterBook(past: seq<Event>, e: Event, historical: bool, coin: string)
    requires e.L2Book?
    ensures var given := e.coin == coin && Current(past, historical, e.time);
            && FeedSide(past + [e], historical, coin, BidSide)
               == (if given then e.bids else FeedSide(past, historical, coin, BidSide))
            && FeedSide(past + [e], historical, coin, AskSide)
               == (if given then e.asks else FeedSide(past, historical, coin, AskSide))
  {
    assert (past + [e])[..|past + [e]| - 1] == past;
  }

  lemma SidesOfBook(book: Message)
    requires book.FullBook?
    ensures SideSince([book], BidSide) == book.bids && SideSince([book], AskSide) == book.asks
  {
  }

  lemma BookKeepsFeed(h: Hyper, e: Event, past: seq<Event>, historical: bool, coin: string)
    requires Orderly(h.market) && AsConnected(h, past, historical) && HasFeed(h.market, past, historical, coin)
    requires e.L2Book?
    ensures HasFeed(OnL2Book(h, e.coin, e.time, e.bids, e.asks, e.now, e.order).market, past + [e], historical, coin)
  {
    FeedAfterBook(past, e, historical, coin);
    var m := h.market;
    if !Stale(h, e.time) && e.coin in m.ids {
      BookTold(h, e);
      SidesOfBook(FullBook(m.ids[e.coin], e.time * 1_000_000, e.bids, e.asks));
      if coin in m.ids && coin != e.coin {
        assert m.ids[coin] != m.ids[e.coin];
      }
    }
  }

  lemma FeedAfterBbo(past: seq<Event>, e: Event, historical: bool, coin: string)
    requires e.Bbo?
    ensures var given := e.coin == coin && Current(past, historical, e.time);
            && FeedSide(past + [e], historical, coin, BidSide)
               == FeedSide(past, historical, coin, BidSide) + (if given then Best(e.bid) else [])
            && FeedSide(past + [e], historical, coin, AskSide)
               == FeedSide(past, historical, coin, AskSide) + (if given then Best(e.ask) else [])
  {
    assert (past + [e])[..|past + [e]| - 1] == past;
  }

  lemma BboKeepsFeed(h: Hyper, e: Event, past: seq<Event>, historical: bool, coin: string)
    requires Orderly(h.market) && AsConnected(h, past, historical) && HasFeed(h.market, past, historical, coin)
    requires e.Bbo?
    ensures HasFeed(OnBbo(h, e.coin, e.time, e.bid, e.ask).market, past + [e], historical, coin)
  {
    FeedAfterBbo(past, e, historical, coin);
    var m := h.market;
    if !Stale(h, e.time) && e.coin in m.ids && StatusOf(m, m.ids[e.coin]) == Online {
      BboTold(m, m.ids[e.coin], e.time, e.bid, e.ask);
      if coin in m.ids && coin != e.coin {
        assert m.ids[coin] != m.ids[e.coin];
      }
    }
  }

  lemma StepKeepsFeed(h: Hyper, hash: string -> nat, e: Event, past: seq<Event>, historical: bool, coin: string)
    requires Orderly(h.market) && Accepts(h, e) && AsConnected(h, past, historical)
    requires HasFeed(h.market, past, historical, coin)
    ensures HasFeed(Step(h, hash, e).market, past + [e], historical, coin)
  {
    if e.L2Book? {
      BookKeepsFeed(h, e, past, historical, coin);
    } else if e.Bbo? {
      BboKeepsFeed(h, e, past, historical, coin);
    } else {
      StepNoNews(h, hash, e);
      assert (past + [e])[..|past + [e]| - 1] == past;
    }
  }

  lemma {:induction false} ListKeepsClock(h: Hyper, hash: string -> nat, coins: seq<string>)
    ensures var h' := ListCoins(h, hash, coins); h'.connectedMs == h.connectedMs && h'.historical == h.historical
    decreases |coins|
  {
    if coins != [] {
      var m := Await(h.market, hash, coins[0]);
      var taken := h.(market := m, pendingDefs := h.pendingDefs[IdIn(m, coins[0]) := coins[0]]);
      ListKeepsClock(if coins[0] in h.desired then taken else h, hash, coins[1..]);
    }
  }

  lemma {:induction false} SidesKeepClock(h: Hyper, hash: string -> nat, sides: seq<Outcome>)
    ensures var h' := ListSides(h, hash, sides); h'.connectedMs == h.connectedMs && h'.historical == h.historical
    decreases |sides|
  {
    if sides != [] {
      var m := Await(h.market, hash, sides[0].coin);
      var id := IdIn(m, sides[0].coin);
      var h' := h.(market := m, pendingOutcomes := h.pendingOutcomes[id := sides[0].(id := id)]);
      SidesKeepClock(h', hash, sides[1..]);
    }
  }

  lemma {:induction false} ExpiryKeepsClock(h: Hyper, now: nat, kept: seq<Outcome>)
    ensures var h' := RemoveExpired(h, now, kept); h'.connectedMs == h.connectedMs && h'.historical == h.historical
    decreases |h.active|
  {
    if h.active != [] {
      var o := h.active[0];
      if Expired(o, now) {
        ExpiryKeepsClock(h.(market := Retire(h.market, o.id, now), active := h.active[1..],
                            refetch := true, lastExpiryMs := Max(h.lastExpiryMs, o.expiryMs)), now, kept);
      } else {
        ExpiryKeepsClock(h.(active := h.active[1..]), now, kept + [o]);
      }
    }
  }

  predicate SameClock(h: Hyper, h': Hyper) {
    h'.connectedMs == h.connectedMs && h'.historical == h.historical
  }

  lemma DefinitionsKeepClock(h: Hyper, id: int, priced: bool)
    ensures SameClock(h, DefineOutcome(DefineCoin(h, id, priced), id))
  {
  }

  lemma BeforeBookKeepsClock(h: Hyper, id: int, time: nat, priced: bool, now: nat, order: seq<int>)
    ensures SameClock(h, BeforeBook(h, id, time, priced, now, order))
  {
    var awake := h.(market := Awaken(h.market, id, time));
    DefinitionsKeepClock(awake, id, priced);
    var defined := DefineOutcome(DefineCoin(awake, id, priced), id);
    assert SameClock(defined, Drain(defined, now, order));
    assert SameClock(Drain(defined, now, order), GoOnline(Drain(defined, now, order), time));
  }

  lemma BookKeepsClock(h: Hyper, e: Event)
    requires e.L2Book?
    ensures SameClock(h, OnL2Book(h, e.coin, e.time, e.bids, e.asks, e.now, e.order))
  {
    if !Stale(h, e.time) && e.coin in h.market.ids {
      var id := h.market.ids[e.coin];
      BeforeBookKeepsClock(h, id, e.time, e.bids != [] || e.asks != [], e.now, e.order);
    }
  }

  lemma StepAsConnected(h: Hyper, hash: string -> nat, e: Event, past: seq<Event>, historical: bool)
    requires AsConnected(h, past, historical)
    ensures AsConnected(Step(h, hash, e), past + [e], historical)
  {
    assert (past + [e])[..|past + [e]| - 1] == past;
    if e.L2Book? {
      BookKeepsClock(h, e);
    } else if e.Meta? {
      ListKeepsClock(h.(metaMs := e.now), hash, e.coins);
    } else if e.OutcomeMeta? {
      SidesKeepClock(h.(refetch := false), hash, e.sides);
    } else if e.Expire? {
      ExpiryKeepsClock(h, e.now, []);
    }
  }

  lemma {:induction false} RunKeepsFeed(h: Hyper, hash: string -> nat, es: seq<Event>, past: seq<Event>,
                                        historical: bool, coin: string)
    requires Orderly(h.market) && ValidRun(h, hash, es) && AsConnected(h, past, historical)
    requires HasFeed(h.market, past, historical, coin)
    ensures HasFeed(Run(h, hash, es).market, past + es, historical, coin)
    ensures AsConnected(Run(h, hash, es), past + es, historical)
    decreases |es|
  {
    if es == [] {
      assert past + es == past;
    } else {
      StepKeepsOrder(h, hash, es[0]);
      StepKeepsFeed(h, hash, es[0], past, historical, coin);
      StepAsConnected(h, hash, es[0], past, historical);
      RunKeepsFeed(Step(h, hash, es[0]), hash, es[1..], past + [es[0]], historical, coin);
      HeadMoves(past, es);
    }
  }

  // Over a whole run: for every security last reported ONLINE, the latest full
  // book and the updates read since give, side by side and in order, exactly the
  // levels of the exchange's latest current book and best prices since.
  lemma ReaderHasFeed(desired: set<string>, historical: bool, hash: string -> nat, es: seq<Event>, coin: string)
    requires ValidRun(Initial(desired, historical), hash, es)
    requires coin in Run(Initial(desired, historical), hash, es).market.ids
    ensures var m := Run(Initial(desired, historical), hash, es).market;
            var id := m.ids[coin];
            var prices := PricesSince(m.stream, id);
            LastStatus(m.stream, id) == Some(Online) ==>
              && BookSent(m.stream, id)
              && SideSince(prices, BidSide) == FeedSide(es, historical, coin, BidSide)
              && SideSince(prices, AskSide) == FeedSide(es, historical, coin, AskSide)
  {
    var m := Run(Initial(desired, historical), hash, es).market;
    RunKeepsOrder(Initial(desired, historical), hash, es);
    RunKeepsFeed(Initial(desired, historical), hash, es, [], historical, coin);
    assert [] + es == es;
    OnlineAsTold(m, m.ids[coin], false);
  }

  // A book of a registered coin that is not older than the connection is read
  // exactly as given, and its security is ONLINE from then on; any other book
  // has no effect.
  lemma BookAnswered(desired: set<string>, historical: bool, hash: string -> nat, es: seq<Event>, e: Event)
    requires ValidRun(Initial(desired, historical), hash, es) && e.L2Book?
    ensures var h := Run(Initial(desired, historical), hash, es);
            var m, h' := h.market, Step(h, hash, e);
            if e.coin in m.ids && Current(es, historical, e.time) then
              var id := m.ids[e.coin];
              && LastStatus(h'.market.stream, id) == Some(Online) && BookSent(h'.market.stream, id)
              && PricesSince(h'.market.stream, id) == [FullBook(id, e.time * 1_000_000, e.bids, e.asks)]
              && forall other :: other != id ==> PricesSince(h'.market.stream, other) == PricesSince(m.stream, other)
            else h' == h
  {
    var h := Run(Initial(desired, historical), hash, es);
    RunKeepsOrder(Initial(desired, historical), hash, es);
    RunKeepsFeed(Initial(desired, historical), hash, es, [], historical, e.coin);
    assert [] + es == es;
    if e.coin in h.market.ids && Current(es, historical, e.time) {
      BookTold(h, e);
      StepKeepsOrder(h, hash, e);
      OnlineAsTold(Step(h, hash, e).market, h.market.ids[e.coin], false);
    }
  }

  // The trade as the reader sees it.
  predicate TellsTrade(told: Message, id: int, e: Event)
    requires e.Traded?
  {
    && told.TradeUpdate? && told.id == id && told.time == e.time * 1_000_000
    && told.level == e.level && told.tradeId == Some(e.tradeId)
    && (told.side == AskSide <==> e.side == 'B') && (told.side == BidSide <==> e.side != 'B')
  }

  lemma TradeTold(h: Hyper, e: Event)
    requires h.market.output && e.Traded?
    ensures var m, h' := h.market, OnTrade(h, e.coin, e.time, e.side, e.level, e.tradeId);
            if e.coin in m.ids && !Stale(h, e.time) then
              && h' == h.(market := m.(stream := h'.market.stream))
              && |h'.market.stream| == |m.stream| + 1 && m.stream <= h'.market.stream
              && TellsTrade(h'.market.stream[|m.stream|], m.ids[e.coin], e)
            else h' == h
  {
  }

  // A trade of a registered coin is told at once, on the side it hit, whether
  // the security has a book or not.
  lemma TradeAnswered(desired: set<string>, historical: bool, hash: string -> nat, es: seq<Event>, e: Event)
    requires ValidRun(Initial(desired, historical), hash, es) && e.Traded?
    ensures var h := Run(Initial(desired, historical), hash, es);
            var m, h' := h.market, Step(h, hash, e);
            if e.coin in m.ids && Current(es, historical, e.time) then
              && h' == h.(market := m.(stream := h'.market.stream))
              && |h'.market.stream| == |m.stream| + 1 && m.stream <= h'.market.stream
              && TellsTrade(h'.market.stream[|m.stream|], m.ids[e.coin], e)
            else h' == h
  {
    RunKeepsOrder(Initial(desired, historical), hash, es);
    RunKeepsFeed(Initial(desired, historical), hash, es, [], historical, e.coin);
    assert [] + es == es;
    TradeTold(Run(Initial(desired, historical), hash, es), e);
  }
}
