// Symbols and ids are mutual inverses over every run of either processor,
// whether or not anything is written.
module InverseRuns {
  import opened Common
  import opened Registry
  import Deribit = DeribitModel
  import Hyper = Hyperliquid

  // Registered under a new or an old id, then given a status.
  lemma RegisterKeepsInverse(m: Market, hash: string -> nat, symbol: string)
    requires Inverse(m) && |m.securities| < MAX_ID
    ensures Inverse(WithSecurity(m, hash, symbol)) && symbol in WithSecurity(m, hash, symbol).ids
    ensures |WithSecurity(m, hash, symbol).securities| <= |m.securities| + 1
  {
    CreateKeepsInverse(m, hash, symbol);
  }

  lemma SameKeysSameSize(m: Market, m': Market)
    requires m.securities.Keys == m'.securities.Keys
    ensures |m.securities| == |m'.securities|
  {
    assert |m.securities| == |m.securities.Keys| && |m'.securities| == |m'.securities.Keys|;
  }

  // --- Deribit ------------------------------------------------------------

  // There are free ids left for every response.
  ghost predicate DeribitRoom(d: Deribit.Deribit, hash: string -> nat, es: seq<Deribit.Event>)
    decreases |es|
  {
    es == [] || (
      && (es[0].SecurityList? ==> |d.market.securities| + |es[0].listed| <= MAX_ID)
      && DeribitRoom(Deribit.Step(d, hash, es[0]), hash, es[1..]))
  }

  lemma DefineKeepsInverse(m: Market, hash: string -> nat, symbol: string, time: int)
    requires Inverse(m) && |m.securities| < MAX_ID
    ensures Inverse(Deribit.Define(m, hash, symbol, time))
  {
    RegisterKeepsInverse(m, hash, symbol);
    var made := WithSecurity(m, hash, symbol);
    var said := Emit(made, SecurityAdded(made.ids[symbol], time, symbol, symbol));
    SetStatusKeepsInverse(said, made.ids[symbol], time, PendingSnapshot);
  }

  lemma {:induction false} DefineAllKeepsInverse(m: Market, hash: string -> nat, perpOnlyReq: bool,
                                                 perpCurrencies: set<string>, time: int, listed: seq<Deribit.Listed>)
    requires Inverse(m) && |m.securities| + |listed| <= MAX_ID
    ensures Inverse(Deribit.DefineAll(m, hash, perpOnlyReq, perpCurrencies, time, listed))
    decreases |listed|
  {
    if listed != [] {
      var wanted := Deribit.Wanted(perpOnlyReq, perpCurrencies, listed[0]);
      DefineKeepsInverse(m, hash, listed[0].symbol, time);
      Deribit.DefineGrowsByOne(m, hash, listed[0].symbol, time);
      DefineAllKeepsInverse(if wanted then Deribit.Define(m, hash, listed[0].symbol, time) else m,
                            hash, perpOnlyReq, perpCurrencies, time, listed[1..]);
    }
  }

  lemma DeribitStepKeepsInverse(d: Deribit.Deribit, hash: string -> nat, e: Deribit.Event)
    requires Inverse(d.market) && (e.SecurityList? ==> |d.market.securities| + |e.listed| <= MAX_ID)
    ensures Inverse(Deribit.Step(d, hash, e).market)
  {
    var m := d.market;
    match e
    case Snapshot(symbol, time, entries) =>
      if symbol in m.ids {
        var id := m.ids[symbol];
        SetStatusKeepsInverse(m, id, time, Online);
        SetStatusKeepsInverse(EmitAll(m, Deribit.SnapshotMessages(id, time, entries)), id, time, Online);
      }
    case SecurityList(reqId, time, listed) =>
      DefineAllKeepsInverse(m, hash, reqId in d.perpOnly, d.perpCurrencies, time, listed);
    case _ =>
  }

  // Over every run of the Deribit processor, with output on or off.
  lemma {:induction false} DeribitKeepsInverse(d: Deribit.Deribit, hash: string -> nat, es: seq<Deribit.Event>)
    requires Inverse(d.market) && DeribitRoom(d, hash, es)
    ensures Inverse(Deribit.Run(d, hash, es).market)
    decreases |es|
  {
    if es != [] {
      DeribitStepKeepsInverse(d, hash, es[0]);
      DeribitKeepsInverse(Deribit.Step(d, hash, es[0]), hash, es[1..]);
    }
  }

  // --- Hyperliquid --------------------------------------------------------

  ghost predicate HyperRoom(h: Hyper.Hyper, hash: string -> nat, es: seq<Hyper.Event>)
    decreases |es|
  {
    es == [] || (
      && (es[0].Meta? ==> |h.market.securities| + |es[0].coins| <= MAX_ID)
      && (es[0].OutcomeMeta? ==> |h.market.securities| + |es[0].sides| <= MAX_ID)
      && HyperRoom(Hyper.Step(h, hash, es[0]), hash, es[1..]))
  }

  lemma AwaitKeepsInverse(m: Market, hash: string -> nat, coin: string)
    requires Inverse(m) && |m.securities| < MAX_ID
    ensures Inverse(Hyper.Await(m, hash, coin)) && |Hyper.Await(m, hash, coin).securities| <= |m.securities| + 1
  {
    RegisterKeepsInverse(m, hash, coin);
    var made := WithSecurity(m, hash, coin);
    SetStatusKeepsInverse(made, made.ids[coin], 0, PendingSnapshot);
    SameKeysSameSize(Hyper.Await(m, hash, coin), made);
  }

  lemma {:induction false} ListCoinsKeepsInverse(h: Hyper.Hyper, hash: string -> nat, coins: seq<string>)
    requires Inverse(h.market) && |h.market.securities| + |coins| <= MAX_ID
    ensures Inverse(Hyper.ListCoins(h, hash, coins).market)
    decreases |coins|
  {
    if coins != [] {
      if coins[0] !in h.desired {
        ListCoinsKeepsInverse(h, hash, coins[1..]);
      } else {
        AwaitKeepsInverse(h.market, hash, coins[0]);
        var m := Hyper.Await(h.market, hash, coins[0]);
        var h' := h.(market := m, pendingDefs := h.pendingDefs[Hyper.IdIn(m, coins[0]) := coins[0]]);
        ListCoinsKeepsInverse(h', hash, coins[1..]);
      }
    }
  }

  lemma {:induction false} ListSidesKeepsInverse(h: Hyper.Hyper, hash: string -> nat, sides: seq<Hyper.Outcome>)
    requires Inverse(h.market) && |h.market.securities| + |sides| <= MAX_ID
    ensures Inverse(Hyper.ListSides(h, hash, sides).market)
    decreases |sides|
  {
    if sides != [] {
      AwaitKeepsInverse(h.market, hash, sides[0].coin);
      var m := Hyper.Await(h.market, hash, sides[0].coin);
      var id := Hyper.IdIn(m, sides[0].coin);
      var h' := h.(market := m, pendingOutcomes := h.pendingOutcomes[id := sides[0].(id := id)]);
      ListSidesKeepsInverse(h', hash, sides[1..]);
    }
  }

  // Definitions and connection statuses leave the two maps alone.
  predicate SameMaps(m: Market, m': Market) {
    m.securities == m'.securities && m.ids == m'.ids
  }

  lemma {:induction false} DefineInOrderSameMaps(m: Market, names: map<int, string>, order: seq<int>)
    ensures SameMaps(m, Hyper.DefineInOrder(m, names, order))
    decreases |order|
  {
    if order != [] {
      DefineInOrderSameMaps(m, names, order[1..]);
      if order[0] in names {
        var added := Emit(m, SecurityAdded(order[0], 0, names[order[0]], names[order[0]]));
        DefineInOrderSameMaps(added, names, order[1..]);
      }
    }
  }

  lemma DefinedSameMaps(h: Hyper.Hyper, id: int, priced: bool)
    ensures SameMaps(h.market, Hyper.DefineCoin(h, id, priced).market)
    ensures SameMaps(h.market, Hyper.DefineOutcome(h, id).market)
  {
  }

  lemma DrainSameMaps(h: Hyper.Hyper, now: nat, order: seq<int>, time: nat)
    ensures SameMaps(h.market, Hyper.Drain(h, now, order).market)
    ensures SameMaps(h.market, Hyper.GoOnline(h, time).market)
  {
    DefineInOrderSameMaps(h.market, h.pendingDefs, order);
  }

  lemma BeforeBookKeepsInverse(h: Hyper.Hyper, id: int, time: nat, priced: bool, now: nat, order: seq<int>)
    requires Inverse(h.market)
    ensures Inverse(Hyper.BeforeBook(h, id, time, priced, now, order).market)
  {
    SetStatusKeepsInverse(h.market, id, time * Hyper.MILLI, Online);
    var awake := h.(market := Hyper.Awaken(h.market, id, time));
    var coin := Hyper.DefineCoin(awake, id, priced);
    var outcome := Hyper.DefineOutcome(coin, id);
    DefinedSameMaps(awake, id, priced);
    DefinedSameMaps(coin, id, priced);
    DrainSameMaps(outcome, now, order, time);
    DrainSameMaps(Hyper.Drain(outcome, now, order), now, order, time);
  }

  lemma L2BookKeepsInverse(h: Hyper.Hyper, coin: string, time: nat, bids: seq<Level>, asks: seq<Level>,
                           now: nat, order: seq<int>)
    requires Inverse(h.market)
    ensures Inverse(Hyper.OnL2Book(h, coin, time, bids, asks, now, order).market)
  {
    if !Hyper.Stale(h, time) && coin in h.market.ids {
      BeforeBookKeepsInverse(h, h.market.ids[coin], time, bids != [] || asks != [], now, order);
    }
  }

  lemma RetireKeepsInverse(m: Market, id: int, now: nat)
    requires Inverse(m)
    ensures Inverse(Hyper.Retire(m, id, now))
  {
    var said := Emit(m, SecurityRemoved(id));
    SetStatusKeepsInverse(said, id, now * Hyper.MILLI, Offline);
    ForgetKeepsInverse(SetStatus(said, id, now * Hyper.MILLI, Offline), id);
  }

  lemma {:induction false} RemoveExpiredKeepsInverse(h: Hyper.Hyper, now: nat, kept: seq<Hyper.Outcome>)
    requires Inverse(h.market)
    ensures Inverse(Hyper.RemoveExpired(h, now, kept).market)
    decreases |h.active|
  {
    if h.active != [] {
      var o := h.active[0];
      if Hyper.Expired(o, now) {
        RetireKeepsInverse(h.market, o.id, now);
        var h' := h.(market := Hyper.Retire(h.market, o.id, now), active := h.active[1..],
                     refetch := true, lastExpiryMs := Max(h.lastExpiryMs, o.expiryMs));
        RemoveExpiredKeepsInverse(h', now, kept);
      } else {
        RemoveExpiredKeepsInverse(h.(active := h.active[1..]), now, kept + [o]);
      }
    }
  }

  lemma HyperStepKeepsInverse(h: Hyper.Hyper, hash: string -> nat, e: Hyper.Event)
    requires Inverse(h.market)
    requires e.Meta? ==> |h.market.securities| + |e.coins| <= MAX_ID
    requires e.OutcomeMeta? ==> |h.market.securities| + |e.sides| <= MAX_ID
    ensures Inverse(Hyper.Step(h, hash, e).market)
  {
    match e
    case Meta(now, coins) => ListCoinsKeepsInverse(h.(metaMs := now), hash, coins);
    case OutcomeMeta(sides) => ListSidesKeepsInverse(h.(refetch := false), hash, sides);
    case L2Book(coin, time, bids, asks, now, order) => L2BookKeepsInverse(h, coin, time, bids, asks, now, order);
    case Expire(now) => RemoveExpiredKeepsInverse(h, now, []);
    case _ =>
  }

  // Over every run of the Hyperliquid processor, with output on or off.
  lemma {:induction false} HyperKeepsInverse(h: Hyper.Hyper, hash: string -> nat, es: seq<Hyper.Event>)
    requires Inverse(h.market) && HyperRoom(h, hash, es)
    ensures Inverse(Hyper.Run(h, hash, es).market)
    decreases |es|
  {
    if es != [] {
      HyperStepKeepsInverse(h, hash, es[0]);
      HyperKeepsInverse(Hyper.Step(h, hash, es[0]), hash, es[1..]);
    }
  }
}
