// What each message of Hyperliquid makes known to the readers of the stream.
module HyperliquidHistory {
  import opened Common
  import opened Registry
  import opened Stream
  import opened Reading
  import opened Hyperliquid
  import opened HyperliquidFeed

  // --- what is added to a stream ------------------------------------------

  ghost predicate Adds(m: Market, m': Market, messages: seq<Message>) {
    m'.output == m.output && m'.stream == m.stream + messages
  }

  lemma AddsMore(m: Market, m1: Market, m2: Market, a: seq<Message>, b: seq<Message>)
    requires Adds(m, m1, a) && Adds(m1, m2, b)
    ensures Adds(m, m2, a + b)
  {
    Assoc(m.stream, a, b);
  }

  function When(condition: bool, message: Message): seq<Message> {
    if condition then [message] else []
  }

  // --- definitions --------------------------------------------------------

  // The definitions of the coins that wait, in the order given.
  function Definitions(names: map<int, string>, order: seq<int>): seq<Message> {
    if order == [] then []
    else
      (if order[0] in names then [SecurityAdded(order[0], 0, names[order[0]], names[order[0]])] else [])
      + Definitions(names, order[1..])
  }

  lemma {:induction false} DefinitionsComplete(names: map<int, string>, order: seq<int>)
    requires forall i :: 0 <= i < |order| ==> order[i] in names
    ensures |Definitions(names, order)| == |order|
    ensures forall i :: 0 <= i < |order| ==>
              Definitions(names, order)[i] == SecurityAdded(order[i], 0, names[order[i]], names[order[i]])
  {
    if order != [] {
      DefinitionsComplete(names, order[1..]);
    }
  }

  lemma {:induction false} DefineInOrderAdds(m: Market, names: map<int, string>, order: seq<int>)
    requires m.output
    ensures DefineInOrder(m, names, order) == m.(stream := m.stream + Definitions(names, order))
    decreases |order|
  {
    if order == [] {
      assert m.stream + [] == m.stream;
    } else {
      var first := if order[0] in names then [SecurityAdded(order[0], 0, names[order[0]], names[order[0]])] else [];
      assert m.stream + [] == m.stream;
      DefineInOrderAdds(m.(stream := m.stream + first), names, order[1..]);
      Assoc(m.stream, first, Definitions(names, order[1..]));
    }
  }

  // Ten seconds have passed since the metadata came; the difference of the two
  // readings is taken modulo 2^64.
  predicate TooLate(metaMs: nat, now: nat) {
    metaMs != 0 && if now >= metaMs then now - metaMs >= 10_000 else metaMs - now <= TWO64 - 10_000
  }

  lemma DrainWhenTooLate(h: Hyper, now: nat)
    requires h.metaMs < TWO64 && now < TWO64
    ensures DrainDue(h, now) <==> h.pendingDefs != map[] && TooLate(h.metaMs, now)
  {
    if now < h.metaMs {
      assert (now - h.metaMs) % TWO64 == now - h.metaMs + TWO64;
    }
  }

  lemma AwakenAdds(m: Market, id: int, time: nat)
    requires m.output
    ensures Adds(m, Awaken(m, id, time),
                 When(StatusOf(m, id) == PendingSnapshot, SecurityStatus(id, time * 1_000_000, Online)))
  {
    assert m.stream + [] == m.stream;
  }

  // What a book tells of the definitions of its own security: that of a coin if
  // the book has a price, that of an outcome in any case.
  function OwnDefinitions(h: Hyper, id: int, priced: bool): seq<Message> {
    CoinDefinition(h, id, priced) + OutcomeDefinition(h, id)
  }

  function CoinDefinition(h: Hyper, id: int, priced: bool): seq<Message> {
    if id in h.pendingDefs && priced then [SecurityAdded(id, 0, h.pendingDefs[id], h.pendingDefs[id])] else []
  }

  function OutcomeDefinition(h: Hyper, id: int): seq<Message> {
    if id in h.pendingOutcomes
    then var o := h.pendingOutcomes[id]; [SecurityAdded(o.id, 0, o.symbol, o.coin)] else []
  }

  lemma DefineOwn(h: Hyper, id: int, priced: bool)
    requires h.market.output
    ensures var h' := DefineOutcome(DefineCoin(h, id, priced), id);
            && Adds(h.market, h'.market, OwnDefinitions(h, id, priced))
            && h'.market == h.market.(stream := h'.market.stream)
            && h' == h.(market := h'.market, pendingDefs := h.pendingDefs - {id},
                        pendingOutcomes := h.pendingOutcomes - {id}, active := h'.active)
            && h'.active == h.active + (if id in h.pendingOutcomes then [h.pendingOutcomes[id]] else [])
  {
    var h1 := DefineCoin(h, id, priced);
    assert h.market.stream + [] == h.market.stream && h1.market.stream + [] == h1.market.stream;
    assert h.active + [] == h.active;
    if id !in h.pendingDefs {
      assert h.pendingDefs - {id} == h.pendingDefs;
    }
    if id !in h.pendingOutcomes {
      assert h.pendingOutcomes - {id} == h.pendingOutcomes;
    }
    Assoc(h.market.stream, CoinDefinition(h, id, priced), OutcomeDefinition(h, id));
  }

  // Who still waits for a definition after a book, apart from its own security.
  function StillWaiting(h: Hyper, id: int, now: nat): map<int, string> {
    if TooLate(h.metaMs, now) then map[] else h.pendingDefs - {id}
  }

  function LateDefinitions(h: Hyper, id: int, now: nat, order: seq<int>): seq<Message> {
    if TooLate(h.metaMs, now) && h.pendingDefs - {id} != map[] then Definitions(h.pendingDefs - {id}, order) else []
  }

  lemma DrainAdds(h: Hyper, now: nat, order: seq<int>)
    requires h.market.output && h.metaMs < TWO64 && now < TWO64
    ensures var h' := Drain(h, now, order);
            && Adds(h.market, h'.market, if TooLate(h.metaMs, now) && h.pendingDefs != map[]
                                         then Definitions(h.pendingDefs, order) else [])
            && h'.market == h.market.(stream := h'.market.stream)
            && h' == h.(market := h'.market, pendingDefs := if TooLate(h.metaMs, now) then map[] else h.pendingDefs)
  {
    DrainWhenTooLate(h, now);
    DefineInOrderAdds(h.market, h.pendingDefs, order);
    assert h.market.stream + [] == h.market.stream;
  }

  lemma GoOnlineAdds(h: Hyper, time: nat)
    requires h.market.output
    ensures var h' := GoOnline(h, time);
            var up := h.pendingDefs == map[] && h.pendingOutcomes == map[] && h.market.connection != ConnectionOnline;
            && Adds(h.market, h'.market, When(up, ConnectionStatus(time * 1_000_000, ConnectionOnline)))
            && h'.market.connection == (if up then ConnectionOnline else h.market.connection)
            && h' == h.(market := h'.market)
  {
    assert h.market.stream + [] == h.market.stream;
  }

  // The link comes up with the book after which nothing waits for a definition.
  predicate ComesUp(h: Hyper, id: int, now: nat) {
    StillWaiting(h, id, now) == map[] && h.pendingOutcomes - {id} == map[] && h.market.connection != ConnectionOnline
  }

  function Waking(h: Hyper, id: int, time: nat): seq<Message> {
    When(StatusOf(h.market, id) == PendingSnapshot, SecurityStatus(id, time * 1_000_000, Online))
  }

  function ComingUp(h: Hyper, id: int, time: nat, now: nat): seq<Message> {
    When(ComesUp(h, id, now), ConnectionStatus(time * 1_000_000, ConnectionOnline))
  }

  predicate HasPrice(e: Event)
    requires e.L2Book?
  {
    e.bids != [] || e.asks != []
  }

  // What a current book of a registered coin is made known by, in order.
  function BookMessages(h: Hyper, id: int, e: Event): seq<Message>
    requires e.L2Book?
  {
    Waking(h, id, e.time) + OwnDefinitions(h, id, HasPrice(e)) + LateDefinitions(h, id, e.now, e.order)
    + ComingUp(h, id, e.time, e.now) + [FullBook(id, e.time * 1_000_000, e.bids, e.asks)]
  }

  function Defined(h: Hyper, id: int, time: nat, priced: bool): Hyper {
    DefineOutcome(DefineCoin(h.(market := Awaken(h.market, id, time)), id, priced), id)
  }

  lemma DefinedAdds(h: Hyper, id: int, time: nat, priced: bool)
    requires h.market.output
    ensures var h' := Defined(h, id, time, priced);
            && Adds(h.market, h'.market, Waking(h, id, time) + OwnDefinitions(h, id, priced))
            && h'.pendingDefs == h.pendingDefs - {id} && h'.pendingOutcomes == h.pendingOutcomes - {id}
            && h'.active == h.active + (if id in h.pendingOutcomes then [h.pendingOutcomes[id]] else [])
            && h'.market.connection == h.market.connection && h'.metaMs == h.metaMs
  {
    var awake := h.(market := Awaken(h.market, id, time));
    AwakenAdds(h.market, id, time);
    DefineOwn(awake, id, priced);
    AddsMore(h.market, awake.market, Defined(h, id, time, priced).market, Waking(h, id, time),
             OwnDefinitions(h, id, priced));
  }

  // After a book: what waits, which outcomes are live, and whether the link is up.
  ghost predicate LeftAfter(h: Hyper, h': Hyper, id: int, now: nat) {
    && h'.pendingDefs == StillWaiting(h, id, now) && h'.pendingOutcomes == h.pendingOutcomes - {id}
    && h'.active == h.active + (if id in h.pendingOutcomes then [h.pendingOutcomes[id]] else [])
    && h'.market.connection == (if ComesUp(h, id, now) then ConnectionOnline else h.market.connection)
  }

  lemma RestAdds(h: Hyper, defined: Hyper, id: int, time: nat, now: nat, order: seq<int>)
    requires defined.market.output && defined.metaMs == h.metaMs < TWO64 && now < TWO64
    requires defined.pendingDefs == h.pendingDefs - {id} && defined.pendingOutcomes == h.pendingOutcomes - {id}
    requires defined.active == h.active + (if id in h.pendingOutcomes then [h.pendingOutcomes[id]] else [])
    requires defined.market.connection == h.market.connection
    ensures var h' := GoOnline(Drain(defined, now, order), time);
            && Adds(defined.market, h'.market, LateDefinitions(h, id, now, order) + ComingUp(h, id, time, now))
            && LeftAfter(h, h', id, now)
  {
    var drained := Drain(defined, now, order);
    DrainAdds(defined, now, order);
    GoOnlineAdds(drained, time);
    AddsMore(defined.market, drained.market, GoOnline(drained, time).market, LateDefinitions(h, id, now, order),
             ComingUp(h, id, time, now));
  }

  // A current book of a registered coin brings its security online, defines it
  // if it has a price, defines all others that waited too long, brings the link up
  // if nothing waits any more, and is then written itself.
  lemma BookMakesKnown(h: Hyper, e: Event)
    requires h.market.output && h.metaMs < TWO64 && e.L2Book? && e.now < TWO64
    requires !Stale(h, e.time) && e.coin in h.market.ids
    ensures var id := h.market.ids[e.coin];
            var h' := OnL2Book(h, e.coin, e.time, e.bids, e.asks, e.now, e.order);
            h'.market.stream == h.market.stream + BookMessages(h, id, e) && LeftAfter(h, h', id, e.now)
  {
    var id := h.market.ids[e.coin];
    var defined := Defined(h, id, e.time, HasPrice(e));
    var ready := GoOnline(Drain(defined, e.now, e.order), e.time);
    DefinedAdds(h, id, e.time, HasPrice(e));
    RestAdds(h, defined, id, e.time, e.now, e.order);
    InFive(h.market.stream, Waking(h, id, e.time) + OwnDefinitions(h, id, HasPrice(e)),
           LateDefinitions(h, id, e.now, e.order), ComingUp(h, id, e.time, e.now),
           [FullBook(id, e.time * 1_000_000, e.bids, e.asks)]);
    assert ready == BeforeBook(h, id, e.time, HasPrice(e), e.now, e.order);
  }

  lemma InFive<T>(s: seq<T>, a: seq<T>, b: seq<T>, c: seq<T>, d: seq<T>)
    ensures s + a + (b + c) + d == s + (a + b + c + d)
  {
  }

  // --- what is registered -------------------------------------------------

  ghost predicate Stands(m: Market, coin: string, standing: Option<Status>) {
    && (coin in m.ids <==> standing.Some?)
    && (coin in m.ids ==> StatusOf(m, m.ids[coin]) == standing.value)
  }

  lemma AwaitStands(m: Market, hash: string -> nat, listed: string, coin: string, standing: Option<Status>)
    requires Inverse(m) && |m.securities| < MAX_ID && Stands(m, coin, standing)
    ensures Stands(Await(m, hash, listed), coin, if coin == listed then Some(PendingSnapshot) else standing)
    ensures Inverse(Await(m, hash, listed)) && |Await(m, hash, listed).securities| <= |m.securities| + 1
    ensures coin in m.ids ==> coin in Await(m, hash, listed).ids && Await(m, hash, listed).ids[coin] == m.ids[coin]
  {
    CreateKeepsInverse(m, hash, listed);
    var made := WithSecurity(m, hash, listed);
    SetStatusKeepsInverse(made, made.ids[listed], 0, PendingSnapshot);
    var done := Await(m, hash, listed);
    assert |done.securities| == |done.securities.Keys| && |made.securities| == |made.securities.Keys|;
    if coin in m.ids && coin != listed {
      assert m.ids[coin] != made.ids[listed];
    }
  }

  // A coin that is registered and waits for its definition.
  ghost predicate Waits(m: Market, waiting: map<int, string>, coin: string) {
    coin in m.ids && m.ids[coin] in waiting && waiting[m.ids[coin]] == coin
  }

  lemma AwaitWaits(m: Market, hash: string -> nat, listed: string, waiting: map<int, string>, coin: string)
    requires Inverse(m) && |m.securities| < MAX_ID
    ensures var m' := Await(m, hash, listed);
            listed in m'.ids && (Waits(m', waiting[m'.ids[listed] := listed], coin) <==>
                                 coin == listed || Waits(m, waiting, coin))
  {
    CreateKeepsInverse(m, hash, listed);
    var made := WithSecurity(m, hash, listed);
    SetStatusKeepsInverse(made, made.ids[listed], 0, PendingSnapshot);
    var m' := Await(m, hash, listed);
    assert m'.ids == made.ids;
    if coin in m.ids && coin != listed {
      assert m'.ids[coin] != m'.ids[listed];
    }
  }

  // The metadata registers the desired coins, and no other, and has them wait
  // for their first book and for their definition.
  lemma {:induction false} MetaRegisters(h: Hyper, hash: string -> nat, coins: seq<string>, coin: string,
                                         standing: Option<Status>)
    requires Inverse(h.market) && |h.market.securities| + |coins| <= MAX_ID && Stands(h.market, coin, standing)
    ensures var h' := ListCoins(h, hash, coins); var taken := coin in coins && coin in h.desired;
            && Stands(h'.market, coin, if taken then Some(PendingSnapshot) else standing)
            && (Waits(h'.market, h'.pendingDefs, coin) <==> taken || Waits(h.market, h.pendingDefs, coin))
    decreases |coins|
  {
    if coins != [] {
      if coins[0] !in h.desired {
        MetaRegisters(h, hash, coins[1..], coin, standing);
      } else {
        var m := Await(h.market, hash, coins[0]);
        var h1 := h.(market := m, pendingDefs := h.pendingDefs[IdIn(m, coins[0]) := coins[0]]);
        AwaitStands(h.market, hash, coins[0], coin, standing);
        AwaitWaits(h.market, hash, coins[0], h.pendingDefs, coin);
        MetaRegisters(h1, hash, coins[1..], coin, if coin == coins[0] then Some(PendingSnapshot) else standing);
      }
    }
  }

  lemma {:induction false} MetaKeepsTime(h: Hyper, hash: string -> nat, coins: seq<string>)
    ensures var h' := ListCoins(h, hash, coins);
            h'.metaMs == h.metaMs && h'.active == h.active && h'.pendingOutcomes == h.pendingOutcomes
    decreases |coins|
  {
    if coins != [] {
      var m := Await(h.market, hash, coins[0]);
      var taken := h.(market := m, pendingDefs := h.pendingDefs[IdIn(m, coins[0]) := coins[0]]);
      MetaKeepsTime(if coins[0] in h.desired then taken else h, hash, coins[1..]);
    }
  }

  lemma MetaTold(h: Hyper, hash: string -> nat, e: Event, coin: string, standing: Option<Status>)
    requires Inverse(h.market) && Accepts(h, e) && e.Meta? && Stands(h.market, coin, standing)
    ensures var h' := Step(h, hash, e); var taken := coin in e.coins && coin in h.desired;
            && Stands(h'.market, coin, if taken then Some(PendingSnapshot) else standing)
            && (Waits(h'.market, h'.pendingDefs, coin) <==> taken || Waits(h.market, h.pendingDefs, coin))
            && h'.metaMs == e.now && h'.active == h.active && h'.pendingOutcomes == h.pendingOutcomes
  {
    MetaRegisters(h.(metaMs := e.now), hash, e.coins, coin, standing);
    MetaKeepsTime(h.(metaMs := e.now), hash, e.coins);
  }

  // The outcome that waits under the id of a coin.
  ghost predicate Awaited(m: Market, waiting: map<int, Outcome>, coin: string, o: Option<Outcome>) {
    if o.Some? then coin in m.ids && m.ids[coin] in waiting && waiting[m.ids[coin]] == o.value.(id := m.ids[coin])
    else coin in m.ids ==> m.ids[coin] !in waiting
  }

  lemma AwaitSide(m: Market, hash: string -> nat, side: Outcome, waiting: map<int, Outcome>, coin: string,
                  o: Option<Outcome>)
    requires Inverse(m) && |m.securities| < MAX_ID && Awaited(m, waiting, coin, o)
    ensures var m' := Await(m, hash, side.coin);
            side.coin in m'.ids && Awaited(m', waiting[m'.ids[side.coin] := side.(id := m'.ids[side.coin])], coin,
                                           if coin == side.coin then Some(side) else o)
  {
    CreateKeepsInverse(m, hash, side.coin);
    var made := WithSecurity(m, hash, side.coin);
    SetStatusKeepsInverse(made, made.ids[side.coin], 0, PendingSnapshot);
    var m' := Await(m, hash, side.coin);
    assert m'.ids == made.ids;
    if coin in m.ids && coin != side.coin {
      assert m'.ids[coin] != m'.ids[side.coin];
    }
  }

  // Of the sides listed the last with a coin, or else what was there before.
  function LastListed(sides: seq<Outcome>, coin: string, before: Option<Outcome>): Option<Outcome> {
    if sides == [] then before
    else LastListed(sides[1..], coin, if sides[0].coin == coin then Some(sides[0]) else before)
  }

  predicate Listed(sides: seq<Outcome>, coin: string) {
    exists i :: 0 <= i < |sides| && sides[i].coin == coin
  }

  lemma ListedRest(sides: seq<Outcome>, coin: string)
    requires sides != []
    ensures Listed(sides, coin) <==> sides[0].coin == coin || Listed(sides[1..], coin)
  {
    if Listed(sides, coin) && sides[0].coin != coin {
      var i :| 0 <= i < |sides| && sides[i].coin == coin;
      assert sides[1..][i - 1] == sides[i];
    }
  }

  lemma {:induction false} OutcomesRegister(h: Hyper, hash: string -> nat, sides: seq<Outcome>, coin: string,
                                            standing: Option<Status>, o: Option<Outcome>)
    requires Inverse(h.market) && |h.market.securities| + |sides| <= MAX_ID
    requires Stands(h.market, coin, standing) && Awaited(h.market, h.pendingOutcomes, coin, o)
    ensures var h' := ListSides(h, hash, sides);
            && Stands(h'.market, coin, if Listed(sides, coin) then Some(PendingSnapshot) else standing)
            && Awaited(h'.market, h'.pendingOutcomes, coin, LastListed(sides, coin, o))
            && h'.active == h.active && h'.pendingDefs == h.pendingDefs && h'.refetch == h.refetch
    decreases |sides|
  {
    if sides != [] {
      var m := Await(h.market, hash, sides[0].coin);
      var id := IdIn(m, sides[0].coin);
      var h1 := h.(market := m, pendingOutcomes := h.pendingOutcomes[id := sides[0].(id := id)]);
      var mine := coin == sides[0].coin;
      ListedRest(sides, coin);
      AwaitStands(h.market, hash, sides[0].coin, coin, standing);
      AwaitSide(h.market, hash, sides[0], h.pendingOutcomes, coin, o);
      OutcomesRegister(h1, hash, sides[1..], coin, if mine then Some(PendingSnapshot) else standing,
                       if mine then Some(sides[0]) else o);
    }
  }

  // The sides of the outcomes are registered too, and wait for their first book
  // and their definition under the id they were given; nothing is asked for again.
  lemma OutcomesTold(h: Hyper, hash: string -> nat, e: Event, coin: string, standing: Option<Status>,
                     o: Option<Outcome>)
    requires Inverse(h.market) && Accepts(h, e) && e.OutcomeMeta?
    requires Stands(h.market, coin, standing) && Awaited(h.market, h.pendingOutcomes, coin, o)
    ensures var h' := Step(h, hash, e);
            && Stands(h'.market, coin, if Listed(e.sides, coin) then Some(PendingSnapshot) else standing)
            && Awaited(h'.market, h'.pendingOutcomes, coin, LastListed(e.sides, coin, o))
            && h'.active == h.active && h'.pendingDefs == h.pendingDefs && !h'.refetch
  {
    OutcomesRegister(h.(refetch := false), hash, e.sides, coin, standing, o);
  }

  // --- expiry -------------------------------------------------------------

  // Five minutes before it expires, an outcome is over.
  predicate Over(o: Outcome, now: nat) {
    o.expiryMs - now <= 5 * 60 * 1000
  }

  function NotOver(outcomes: seq<Outcome>, now: nat): seq<Outcome> {
    if outcomes == [] then [] else (if Over(outcomes[0], now) then [] else [outcomes[0]]) + NotOver(outcomes[1..], now)
  }

  function OverIds(outcomes: seq<Outcome>, now: nat): set<int> {
    set o | o in outcomes && Over(o, now) :: o.id
  }

  lemma OverIdsRest(outcomes: seq<Outcome>, now: nat)
    requires outcomes != []
    ensures OverIds(outcomes, now)
            == OverIds(outcomes[1..], now) + (if Over(outcomes[0], now) then {outcomes[0].id} else {})
  {
    forall o | o in outcomes ensures o == outcomes[0] || o in outcomes[1..] {
    }
  }

  // Does the reader hold a definition of a security?
  predicate IsDefined(stream: seq<Message>, id: int)
    decreases |stream|
  {
    if stream == [] then false
    else
      var last := stream[|stream| - 1];
      if last.SecurityAdded? && last.id == id then true
      else if last.SecurityRemoved? && last.id == id then false
      else IsDefined(stream[..|stream| - 1], id)
  }

  // What a security is to the reader: its status and whether it is defined.
  ghost predicate SameToReader(before: seq<Message>, after: seq<Message>, id: int) {
    LastStatus(after, id) == LastStatus(before, id) && IsDefined(after, id) == IsDefined(before, id)
  }

  lemma SayOther(m: Market, message: Message, id: int)
    requires (message.SecurityAdded? || message.SecurityRemoved? || message.SecurityStatus?) && message.id != id
    ensures SameToReader(m.stream, Emit(m, message).stream, id)
  {
    OneMore(m.stream, message);
  }

  lemma RetireOther(m: Market, id: int, now: nat, other: int)
    requires m.output && id != other
    ensures SameToReader(m.stream, Retire(m, id, now).stream, other)
  {
    var m1 := Emit(m, SecurityRemoved(id));
    var m2 := SetStatus(m1, id, now * MILLI, Offline);
    SayOther(m, SecurityRemoved(id), other);
    SayOther(m1, SecurityStatus(id, now * MILLI, Offline), other);
    SayOther(m2, SecurityRemoved(id), other);
  }

  lemma RetireTold(m: Market, id: int, now: nat)
    requires Orderly(m)
    ensures var m' := Retire(m, id, now);
            && !IsDefined(m'.stream, id) && m'.securities == m.securities - {id}
            && LastStatus(m'.stream, id) == (if id in m.securities then Some(Offline) else LastStatus(m.stream, id))
            && (forall coin :: coin in m'.ids <==> coin in m.ids && m.ids[coin] != id)
            && (forall coin :: coin in m'.ids ==> m'.ids[coin] == m.ids[coin])
  {
    var m1 := Emit(m, SecurityRemoved(id));
    var m2 := SetStatus(m1, id, now * MILLI, Offline);
    OneMore(m.stream, SecurityRemoved(id));
    OneMore(m1.stream, SecurityStatus(id, now * MILLI, Offline));
    OneMore(m2.stream, SecurityRemoved(id));
    if id !in m.securities {
      assert m.securities - {id} == m.securities;
    }
  }

  ghost predicate Retired(m: Market, m': Market, ids: set<int>) {
    && m'.securities == m.securities - ids
    && (forall coin :: coin in m'.ids <==> coin in m.ids && m.ids[coin] !in ids)
    && (forall coin :: coin in m'.ids ==> m'.ids[coin] == m.ids[coin])
    && (forall id :: id in ids ==> !IsDefined(m'.stream, id))
    && (forall id :: id in ids && id in m.securities ==> LastStatus(m'.stream, id) == Some(Offline))
    && (forall id :: id in ids && id !in m.securities ==> LastStatus(m'.stream, id) == LastStatus(m.stream, id))
    && (forall id :: id !in ids ==> SameToReader(m.stream, m'.stream, id))
  }

  lemma RetiredOne(m: Market, id: int, now: nat)
    requires Orderly(m)
    ensures Retired(m, Retire(m, id, now), {id})
  {
    RetireTold(m, id, now);
    forall other | other != id ensures SameToReader(m.stream, Retire(m, id, now).stream, other) {
      RetireOther(m, id, now, other);
    }
  }

  lemma RetiredBoth(m: Market, m1: Market, m2: Market, a: set<int>, b: set<int>)
    requires Retired(m, m1, a) && Retired(m1, m2, b)
    ensures Retired(m, m2, a + b)
  {
    assert m2.securities == m.securities - (a + b);
  }

  // Exactly the outcomes that are over are retired: they are no longer
  // registered, the reader holds them offline and undefined, and nothing else
  // has changed.
  lemma {:induction false} ExpiryTold(h: Hyper, now: nat, kept: seq<Outcome>)
    requires Orderly(h.market)
    ensures Retired(h.market, RemoveExpired(h, now, kept).market, OverIds(h.active, now))
    decreases |h.active|
  {
    if h.active != [] {
      var o := h.active[0];
      OverIdsRest(h.active, now);
      if Expired(o, now) {
        var h1 := h.(market := Retire(h.market, o.id, now), active := h.active[1..],
                     refetch := true, lastExpiryMs := Max(h.lastExpiryMs, o.expiryMs));
        RetireKeepsOrder(h.market, o.id, now);
        RetiredOne(h.market, o.id, now);
        ExpiryTold(h1, now, kept);
        RetiredBoth(h.market, h1.market, RemoveExpired(h1, now, kept).market, {o.id}, OverIds(h.active[1..], now));
        assert {o.id} + OverIds(h.active[1..], now) == OverIds(h.active, now);
      } else {
        ExpiryTold(h.(active := h.active[1..]), now, kept + [o]);
      }
    }
  }

  // The others stay live, in their order.
  lemma {:induction false} OthersStayLive(h: Hyper, now: nat, kept: seq<Outcome>)
    ensures var h' := RemoveExpired(h, now, kept);
            && h'.active == kept + NotOver(h.active, now)
            && (h'.refetch <==> h.refetch || OverIds(h.active, now) != {})
    decreases |h.active|
  {
    if h.active == [] {
      assert kept + [] == kept;
    } else {
      var o, rest := h.active[0], h.active[1..];
      OverIdsRest(h.active, now);
      if Expired(o, now) {
        OthersStayLive(h.(market := Retire(h.market, o.id, now), active := rest,
                          refetch := true, lastExpiryMs := Max(h.lastExpiryMs, o.expiryMs)), now, kept);
        assert [] + NotOver(rest, now) == NotOver(rest, now);
      } else {
        OthersStayLive(h.(active := rest), now, kept + [o]);
        Assoc(kept, [o], NotOver(rest, now));
      }
    }
  }

  // The metadata is asked for again once an outcome is over; the moment counts
  // from the latest expiry of one.
  lemma {:induction false} ExpiryMoment(h: Hyper, now: nat, kept: seq<Outcome>)
    ensures var h' := RemoveExpired(h, now, kept);
            && h.lastExpiryMs <= h'.lastExpiryMs
            && (forall o :: o in h.active && Over(o, now) ==> o.expiryMs <= h'.lastExpiryMs)
            && (h'.lastExpiryMs == h.lastExpiryMs
                || exists o :: o in h.active && Over(o, now) && o.expiryMs == h'.lastExpiryMs)
    decreases |h.active|
  {
    if h.active != [] {
      var o := h.active[0];
      if Expired(o, now) {
        ExpiryMoment(h.(market := Retire(h.market, o.id, now), active := h.active[1..],
                        refetch := true, lastExpiryMs := Max(h.lastExpiryMs, o.expiryMs)), now, kept);
      } else {
        ExpiryMoment(h.(active := h.active[1..]), now, kept + [o]);
      }
      assert forall x :: x in h.active ==> x == o || x in h.active[1..];
    }
  }

  // --- the session --------------------------------------------------------

  // A connection forgets every security if the link was thought to be up, and
  // none otherwise; the readers are told that it starts.
  lemma ConnectedTold(h: Hyper, hash: string -> nat, e: Event)
    requires Orderly(h.market) && Accepts(h, e) && e.Connected?
    ensures var h' := Step(h, hash, e);
            && h'.market.connection == Starting == LastConnection(h'.market.stream)
            && h'.connectedMs == (if h.historical then 0 else e.now)
            && (if h.market.connection == ConnectionOnline then h'.market.ids == map[] && h'.market.securities == map[]
                else h'.market.ids == h.market.ids && h'.market.securities == h.market.securities)
  {
    var m := if h.market.connection == ConnectionOnline then Invalidated(h.market, 0, e.order) else h.market;
    InvalidateKeepsStep(h.market, 0, e.order, false);
    SetConnectionTells(m, Starting, 0);
  }

  // A disconnect forgets everything ...
  lemma DisconnectedForgets(h: Hyper, hash: string -> nat, e: Event)
    requires h.market.output && e.Disconnected?
    ensures var h' := Step(h, hash, e);
            && h'.market.connection == ConnectionOffline
            && h'.market.ids == map[] && h'.market.securities == map[]
            && h'.pendingDefs == map[] && h'.pendingOutcomes == map[] && h'.active == []
  {
  }

  lemma NotRegisteredTold(m: Market, id: int)
    requires InStep(m, false, {}) && id !in m.securities
    ensures LastStatus(m.stream, id) in {None, Some(Offline)}
  {
    assert StatusMatches(StatusOf(m, id), LastStatus(m.stream, id));
  }

  // ... and every security ever told of is last heard of as offline, like the
  // link itself.
  lemma DisconnectedTold(h: Hyper, hash: string -> nat, e: Event, id: int)
    requires Orderly(h.market) && Accepts(h, e) && e.Disconnected?
    ensures var h' := Step(h, hash, e);
            && h'.market.connection == ConnectionOffline == LastConnection(h'.market.stream)
            && h'.market.ids == map[] && h'.market.securities == map[]
            && h'.pendingDefs == map[] && h'.pendingOutcomes == map[] && h'.active == []
            && LastStatus(h'.market.stream, id) in {None, Some(Offline)}
  {
    SweepStaysOn(h.market, 0, e.order);
    SetConnectionTells(Sweep(h.market, 0, e.order), ConnectionOffline, 0);
    InvalidateKeepsStep(h.market, 0, e.order, false);
    DisconnectedForgets(h, hash, e);
    NotRegisteredTold(Step(h, hash, e).market, id);
  }

  lemma {:induction false} SweepStaysOn(m: Market, time: int, order: seq<int>)
    requires m.output
    ensures Sweep(m, time, order).output
    decreases |order|
  {
    if order != [] {
      SweepStaysOn(SweepOne(m, time, order[0]), time, order[1..]);
    }
  }
}
