// The Hyperliquid processor as an object: each handler computes what the
// state machine of Hyperliquid says. In C++ it derives from the common
// message processor; here it holds one, so that the operations they share are
// proved once.
module HyperliquidProcessor {
  import opened Common
  import opened Registry
  import opened Hyperliquid

  class HyperliquidMessageProcessor {
    const mp: MessageProcessor
    const desiredCoins: set<string>
    const historicalMode: bool
    var connectedTimeMs: nat
    var metaReceivedTimeMs: nat
    var pendingSecDefs: map<int, string>
    var pendingOutcomeSecDefs: map<int, Outcome>
    var activeOutcomes: seq<Outcome>
    var pendingRefetch: bool
    var lastOutcomeExpiry: int

    function State(): Hyper
      reads this, mp
    {
      Hyper(mp.State(), desiredCoins, historicalMode, connectedTimeMs, metaReceivedTimeMs,
            pendingSecDefs, pendingOutcomeSecDefs, activeOutcomes, pendingRefetch, lastOutcomeExpiry)
    }

    constructor (mp: MessageProcessor, desiredCoins: set<string>, historicalMode: bool)
      requires mp.State() == EMPTY
      ensures State() == Initial(desiredCoins, historicalMode) && this.mp == mp
    {
      this.mp, this.desiredCoins, this.historicalMode := mp, desiredCoins, historicalMode;
      connectedTimeMs, metaReceivedTimeMs := 0, 0;
      pendingSecDefs, pendingOutcomeSecDefs, activeOutcomes := map[], map[], [];
      pendingRefetch, lastOutcomeExpiry := false, 0;
    }

    // --- the session ------------------------------------------------------

    method OnConnected(now: nat, order: seq<int>)
      modifies this`connectedTimeMs, mp
      ensures State() == Hyperliquid.OnConnected(old(State()), now, order)
    {
      if mp.lastConnectionStatus == ConnectionOnline {
        mp.InvalidateState(0, order);
      }
      connectedTimeMs := if historicalMode then 0 else now;
      mp.UpdateConnectionStatus(Starting, 0);
    }

    method OnDisconnected(order: seq<int>)
      modifies this, mp
      ensures State() == Hyperliquid.OnDisconnected(old(State()), order)
    {
      pendingSecDefs, pendingOutcomeSecDefs, activeOutcomes := map[], map[], [];
      mp.InvalidateState(0, order);
    }

    // --- reference data ---------------------------------------------------

    method Register(coin: string) returns (id: int)
      requires coin in mp.symbolToSecurityId || |mp.securities| < MAX_ID
      modifies mp
      ensures mp.State() == Await(old(mp.State()), mp.hash, coin) && id == IdIn(mp.State(), coin)
      ensures |mp.securities| <= |old(mp.securities)| + 1
    {
      id := mp.CreateSecurity(coin);
      label created:
      var _ := mp.UpdateSecurityStatus(id, 0, PendingSnapshot);
      assert |mp.securities| == |mp.securities.Keys|
             && |old@created(mp.securities)| == |old@created(mp.securities).Keys|;
    }

    method OnMeta(now: nat, coins: seq<string>)
      requires |mp.securities| + |coins| <= MAX_ID
      modifies this`metaReceivedTimeMs, this`pendingSecDefs, mp
      ensures State() == Step(old(State()), mp.hash, Meta(now, coins))
    {
      metaReceivedTimeMs := now;
      var i := 0;
      assert coins[0..] == coins;
      while i < |coins|
        invariant i <= |coins| && |mp.securities| + |coins| - i <= MAX_ID
        invariant ListCoins(State(), mp.hash, coins[i..]) == Step(old(State()), mp.hash, Meta(now, coins))
      {
        assert coins[i..][0] == coins[i] && coins[i..][1..] == coins[i + 1..];
        if coins[i] in desiredCoins {
          var id := Register(coins[i]);
          pendingSecDefs := pendingSecDefs[id := coins[i]];
        }
        i := i + 1;
      }
    }

    method OnOutcomeMeta(sides: seq<Outcome>)
      requires |mp.securities| + |sides| <= MAX_ID
      modifies this`pendingRefetch, this`pendingOutcomeSecDefs, mp
      ensures State() == Step(old(State()), mp.hash, OutcomeMeta(sides))
    {
      pendingRefetch := false;
      var i := 0;
      assert sides[0..] == sides;
      while i < |sides|
        invariant i <= |sides| && |mp.securities| + |sides| - i <= MAX_ID
        invariant ListSides(State(), mp.hash, sides[i..]) == Step(old(State()), mp.hash, OutcomeMeta(sides))
      {
        assert sides[i..][0] == sides[i] && sides[i..][1..] == sides[i + 1..];
        var id := Register(sides[i].coin);
        pendingOutcomeSecDefs := pendingOutcomeSecDefs[id := sides[i].(id := id)];
        i := i + 1;
      }
    }

    // --- books ------------------------------------------------------------

    method EmitDefinition(id: int, symbol: string, marketSymbol: string)
      modifies mp
      ensures mp.State() == Emit(old(mp.State()), SecurityAdded(id, 0, symbol, marketSymbol))
    {
      if mp.shouldOutput {
        mp.Write(SecurityAdded(id, 0, symbol, marketSymbol));
      }
    }

    method DefineFirstPriced(id: int, priced: bool)
      modifies this`pendingSecDefs, mp
      ensures State() == DefineCoin(old(State()), id, priced)
    {
      if id in pendingSecDefs {
        if priced {
          EmitDefinition(id, pendingSecDefs[id], pendingSecDefs[id]);
        }
        pendingSecDefs := pendingSecDefs - {id};
      }
    }

    method DefineFirstSeen(id: int)
      modifies this`pendingOutcomeSecDefs, this`activeOutcomes, mp
      ensures State() == DefineOutcome(old(State()), id)
    {
      if id in pendingOutcomeSecDefs {
        var o := pendingOutcomeSecDefs[id];
        if mp.shouldOutput {
          mp.Write(SecurityAdded(o.id, 0, o.symbol, o.coin));
          activeOutcomes := activeOutcomes + [o];
        }
        pendingOutcomeSecDefs := pendingOutcomeSecDefs - {id};
      }
    }

    method DefineAllPending(order: seq<int>)
      modifies mp
      ensures mp.State() == DefineInOrder(old(mp.State()), pendingSecDefs, order)
    {
      var i := 0;
      assert order[0..] == order;
      while i < |order|
        invariant i <= |order|
        invariant DefineInOrder(mp.State(), pendingSecDefs, order[i..])
                  == DefineInOrder(old(mp.State()), pendingSecDefs, order)
      {
        assert order[i..][0] == order[i] && order[i..][1..] == order[i + 1..];
        if order[i] in pendingSecDefs {
          EmitDefinition(order[i], pendingSecDefs[order[i]], pendingSecDefs[order[i]]);
        }
        i := i + 1;
      }
    }

    method DrainTimedOutSecDefs(now: nat, order: seq<int>)
      modifies this`pendingSecDefs, mp
      ensures State() == Drain(old(State()), now, order)
    {
      if pendingSecDefs == map[] || metaReceivedTimeMs == 0 {
        return;
      }
      if (now - metaReceivedTimeMs) % TWO64 < DRAIN_AFTER_MS {
        return;
      }
      DefineAllPending(order);
      pendingSecDefs := map[];
    }

    method OnL2Book(coin: string, time: nat, bids: seq<Level>, asks: seq<Level>, now: nat, order: seq<int>)
      modifies this, mp
      ensures State() == Hyperliquid.OnL2Book(old(State()), coin, time, bids, asks, now, order)
    {
      if connectedTimeMs > 0 && time < connectedTimeMs {
        return;
      }
      if coin !in mp.symbolToSecurityId {
        return;
      }
      var id := mp.GetSecurityId(coin);
      PrepareBook(id, time, |bids| > 0 || |asks| > 0, now, order);
      if mp.shouldOutput {
        mp.Write(FullBook(id, time * MILLI, bids, asks));
      }
    }

    method PrepareBook(id: int, time: nat, priced: bool, now: nat, order: seq<int>)
      modifies this, mp
      ensures State() == BeforeBook(old(State()), id, time, priced, now, order)
    {
      if StatusOf(mp.State(), id) == PendingSnapshot {
        var _ := mp.UpdateSecurityStatus(id, time * MILLI, Online);
      }
      DefineFirstPriced(id, priced);
      DefineFirstSeen(id);
      if pendingSecDefs != map[] {
        DrainTimedOutSecDefs(now, order);
      }
      GoOnlineIfReady(time);
    }

    method GoOnlineIfReady(time: nat)
      modifies mp
      ensures State() == GoOnline(old(State()), time)
    {
      if pendingSecDefs == map[] && pendingOutcomeSecDefs == map[] && mp.lastConnectionStatus != ConnectionOnline {
        mp.UpdateConnectionStatus(ConnectionOnline, time * MILLI);
      }
    }

    method OnBbo(coin: string, time: nat, bid: Option<Level>, ask: Option<Level>)
      modifies mp
      ensures State() == Hyperliquid.OnBbo(old(State()), coin, time, bid, ask)
    {
      if connectedTimeMs > 0 && time < connectedTimeMs {
        return;
      }
      if coin !in mp.symbolToSecurityId {
        return;
      }
      var id := mp.GetSecurityId(coin);
      if StatusOf(mp.State(), id) != Online {
        return;
      }
      if !mp.shouldOutput {
        return;
      }
      if bid.Some? {
        mp.Write(BookUpdate(id, time * MILLI, BidSide, Change, bid.value));
      }
      if ask.Some? {
        mp.Write(BookUpdate(id, time * MILLI, AskSide, Change, ask.value));
      }
      assert mp.stream == old(mp.stream) + BboUpdates(id, time, bid, ask);
    }

    method OnTrade(coin: string, time: nat, side: char, level: Level, tradeId: nat)
      modifies mp
      ensures State() == Hyperliquid.OnTrade(old(State()), coin, time, side, level, tradeId)
    {
      if connectedTimeMs > 0 && time < connectedTimeMs {
        return;
      }
      if coin !in mp.symbolToSecurityId {
        return;
      }
      var id := mp.GetSecurityId(coin);
      if mp.shouldOutput {
        mp.Write(TradeUpdate(id, time * MILLI, if side == 'B' then AskSide else BidSide, level, Some(tradeId)));
      }
    }

    // --- expiry -----------------------------------------------------------

    method RetireOne(id: int, now: nat)
      modifies mp
      ensures mp.State() == Retire(old(mp.State()), id, now)
    {
      if mp.shouldOutput {
        mp.Write(SecurityRemoved(id));
      }
      var _ := mp.UpdateSecurityStatus(id, now * MILLI, Offline);
      mp.RemoveSecurity(id);
    }

    // Erase while iterating: `i` stays where it is when an outcome goes.
    method RemoveExpiredOutcomes(now: nat)
      modifies this, mp
      ensures State() == RemoveExpired(old(State()), now, [])
    {
      var i := 0;
      while i < |activeOutcomes|
        invariant i <= |activeOutcomes|
        invariant RemoveExpired(State().(active := activeOutcomes[i..]), now, activeOutcomes[..i])
                  == RemoveExpired(old(State()), now, [])
        decreases |activeOutcomes| - i
      {
        var o := activeOutcomes[i];
        ghost var all := activeOutcomes;
        SplitAt(all, i);
        if now >= o.expiryMs - EXPIRY_BUFFER_MS {
          if o.expiryMs > lastOutcomeExpiry {
            lastOutcomeExpiry := o.expiryMs;
          }
          pendingRefetch := true;
          RetireOne(o.id, now);
          activeOutcomes := activeOutcomes[..i] + activeOutcomes[i + 1..];
        } else {
          i := i + 1;
        }
      }
      assert activeOutcomes[..i] == activeOutcomes;
    }

    method Handle(e: Event)
      requires e.Meta? ==> |mp.securities| + |e.coins| <= MAX_ID
      requires e.OutcomeMeta? ==> |mp.securities| + |e.sides| <= MAX_ID
      modifies this, mp
      ensures State() == Step(old(State()), mp.hash, e)
    {
      match e {
        case Connected(now, order) => OnConnected(now, order);
        case Disconnected(order) => OnDisconnected(order);
        case Meta(now, coins) => OnMeta(now, coins);
        case OutcomeMeta(sides) => OnOutcomeMeta(sides);
        case L2Book(coin, time, bids, asks, now, order) => OnL2Book(coin, time, bids, asks, now, order);
        case Bbo(coin, time, bid, ask) => OnBbo(coin, time, bid, ask);
        case Traded(coin, time, side, level, tradeId) => OnTrade(coin, time, side, level, tradeId);
        case Expire(now) => RemoveExpiredOutcomes(now);
      }
    }
  }

  // The outcomes before, at and after a position.
  lemma SplitAt(all: seq<Outcome>, i: nat)
    requires i < |all|
    ensures all[i..][0] == all[i] && all[i..][1..] == all[i + 1..] && all[..i] + [all[i]] == all[..i + 1]
    ensures (all[..i] + all[i + 1..])[i..] == all[i + 1..] && (all[..i] + all[i + 1..])[..i] == all[..i]
  {
  }
}
