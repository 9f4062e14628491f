// That a reader of the Deribit stream has the exchange's prices.
module DeribitFeed {
  import opened Common
  import opened Registry
  import opened Stream
  import opened Reading
  import opened DeribitModel
  import opened DeribitRuns

  // --- what the exchange gives --------------------------------------------

  function LevelGiven(e: MdEntry, kind: Kind): seq<Level> {
    if e.kind == kind then [Level(e.price, e.size)] else []
  }

  // The levels of one side, in order.
  function Given(entries: seq<MdEntry>, kind: Kind): seq<Level> {
    if entries == [] then [] else LevelGiven(entries[0], kind) + Given(entries[1..], kind)
  }

  // The update for one entry of a message.
  predicate Carries(message: Message, id: int, time: int, e: MdEntry) {
    match e.kind
    case Trade =>
      message == TradeUpdate(id, time, if e.side == '1' then AskSide else BidSide, Level(e.price, e.size), e.tradeId)
    case _ =>
      && message.BookUpdate? && message.id == id && message.time == time
      && message.side == (if e.kind == Bid then BidSide else AskSide)
      && message.level == Level(e.price, e.size)
      && (message.action == New <==> e.action == Some("0"))
      && (message.action == Change <==> e.action == Some("1"))
      && (message.action == Delete <==> e.action == Some("2"))
  }

  // A snapshot that is taken when output is on.
  predicate IsBook(e: Event, symbol: string) {
    e.Snapshot? && e.symbol == symbol && e.entries != [] && e.entries[0].kind != Trade
  }

  // The levels of one side given by the latest snapshot and by all refreshes
  // since.
  function FeedSide(es: seq<Event>, symbol: string, kind: Kind): seq<Level>
    decreases |es|
  {
    if es == [] then []
    else
      var before, last := es[..|es| - 1], es[|es| - 1];
      if IsBook(last, symbol) then Given(last.entries, kind)
      else if last.Incremental? && last.symbol == symbol then FeedSide(before, symbol, kind) + Given(last.entries, kind)
      else FeedSide(before, symbol, kind)
  }

  // --- one message --------------------------------------------------------

  lemma {:induction false} GivenMore(a: seq<MdEntry>, e: MdEntry, kind: Kind)
    ensures Given(a + [e], kind) == Given(a, kind) + LevelGiven(e, kind)
  {
    if a == [] {
      assert a + [e] == [e] && [e][1..] == [];
    } else {
      TailOfConcat(a, [e]);
      GivenMore(a[1..], e, kind);
      Assoc(LevelGiven(a[0], kind), Given(a[1..], kind), LevelGiven(e, kind));
    }
  }

  lemma GivenUpTo(entries: seq<MdEntry>, kind: Kind, n: nat)
    requires 0 < n <= |entries|
    ensures var e := entries[n - 1];
            Given(entries[..n], kind) ==
            Given(entries[..n - 1], kind) + LevelGiven(e, kind)
  {
    assert entries[..n] == entries[..n - 1] + [entries[n - 1]];
    GivenMore(entries[..n - 1], entries[n - 1], kind);
  }

  lemma {:induction false} LevelsAreGiven(entries: seq<MdEntry>, kind: Kind, n: nat)
    requires n <= |entries|
    ensures LevelsUpTo(entries, kind, n) == Given(entries[..n], kind)
  {
    if n > 0 {
      LevelsAreGiven(entries, kind, n - 1);
      GivenUpTo(entries, kind, n);
    }
  }

  lemma {:induction false} UpdatesCarry(id: int, time: int, entries: seq<MdEntry>, n: nat)
    requires n <= |entries|
    ensures var us := UpdatesUpTo(id, time, entries, n);
            |us| == n && forall i :: 0 <= i < n ==> IsUpdate(us[i], id) && Carries(us[i], id, time, entries[i])
  {
    if n > 0 {
      UpdatesCarry(id, time, entries, n - 1);
    }
  }

  lemma SideSinceLast(messages: seq<Message>, last: Message, side: Side)
    ensures SideSince(messages + [last], side) == SideSince(messages, side) + LevelsIn(last, side)
  {
    OneMore(messages, last);
  }

  lemma UpdateGives(id: int, time: int, e: MdEntry, kind: Kind)
    requires kind != Trade
    ensures LevelsIn(UpdateOf(id, time, e), SideOf(kind)) == LevelGiven(e, kind)
  {
  }

  lemma {:induction false} UpdatesGive(id: int, time: int, entries: seq<MdEntry>, kind: Kind, n: nat)
    requires n <= |entries| && kind != Trade
    ensures SideSince(UpdatesUpTo(id, time, entries, n), SideOf(kind)) == Given(entries[..n], kind)
  {
    if n > 0 {
      var before, e := UpdatesUpTo(id, time, entries, n - 1), entries[n - 1];
      UpdatesGive(id, time, entries, kind, n - 1);
      GivenUpTo(entries, kind, n);
      UpdateGives(id, time, e, kind);
      SideSinceLast(before, UpdateOf(id, time, e), SideOf(kind));
      assert UpdatesUpTo(id, time, entries, n) == before + [UpdateOf(id, time, e)];
    }
  }

  lemma {:induction false} NoBookBetween(messages: seq<Message>, side: Side, id: int)
    requires forall i :: 0 <= i < |messages| ==> IsUpdate(messages[i], id)
    ensures SideSince(messages, side) == UpdatedLevels(messages, side)
    decreases |messages|
  {
    if messages != [] {
      NoBookBetween(messages[..|messages| - 1], side, id);
    }
  }

  // Every update a snapshot leads to carries an entry of it.
  lemma {:induction false} OverflowCarries(id: int, time: int, entries: seq<MdEntry>, n: nat)
    requires n <= |entries|
    ensures forall u :: u in OverflowUpTo(id, time, entries, n) ==>
              IsUpdate(u, id) && exists j :: 0 <= j < |entries| && Carries(u, id, time, entries[j])
  {
    if n > 0 {
      OverflowCarries(id, time, entries, n - 1);
      assert Carries(UpdateOf(id, time, entries[n - 1]), id, time, entries[n - 1]);
    }
  }

  function TradesAmong(messages: seq<Message>): seq<Message>
    decreases |messages|
  {
    if messages == [] then []
    else
      var last := messages[|messages| - 1];
      TradesAmong(messages[..|messages| - 1]) + (if last.TradeUpdate? then [last] else [])
  }

  function GivenTrades(entries: seq<MdEntry>): seq<MdEntry>
    decreases |entries|
  {
    if entries == [] then []
    else
      var last := entries[|entries| - 1];
      GivenTrades(entries[..|entries| - 1]) + (if last.kind == Trade then [last] else [])
  }

  predicate AllCarried(messages: seq<Message>, id: int, time: int, entries: seq<MdEntry>) {
    |messages| == |entries| && forall i :: 0 <= i < |messages| ==> Carries(messages[i], id, time, entries[i])
  }

  lemma TradesAmongLast(messages: seq<Message>, last: seq<Message>)
    requires |last| <= 1
    ensures TradesAmong(messages + last) ==
            TradesAmong(messages) + (if last != [] && last[0].TradeUpdate? then last else [])
  {
    if last != [] {
      assert (messages + last)[..|messages|] == messages;
    } else {
      assert messages + last == messages;
    }
  }

  lemma AllCarriedMore(ms: seq<Message>, id: int, time: int, entries: seq<MdEntry>, u: Message, e: MdEntry)
    requires AllCarried(ms, id, time, entries) && Carries(u, id, time, e)
    ensures AllCarried(ms + [u], id, time, entries + [e])
  {
  }

  lemma {:induction false} OverflowHasTrades(id: int, time: int, entries: seq<MdEntry>, n: nat)
    requires n <= |entries|
    ensures AllCarried(TradesAmong(OverflowUpTo(id, time, entries, n)), id, time, GivenTrades(entries[..n]))
  {
    if n > 0 {
      var e := entries[n - 1];
      var before, u := OverflowUpTo(id, time, entries, n - 1), UpdateOf(id, time, e);
      OverflowHasTrades(id, time, entries, n - 1);
      assert entries[..n][..n - 1] == entries[..n - 1];
      TradesAmongLast(before, if Overflows(entries, n - 1) then [u] else []);
      if e.kind == Trade {
        AllCarriedMore(TradesAmong(before), id, time, GivenTrades(entries[..n - 1]), u, e);
      } else {
        assert TradesAmong(before) + [] == TradesAmong(before);
        assert GivenTrades(entries[..n - 1]) + [] == GivenTrades(entries[..n - 1]);
      }
    }
  }

  // The trades of a snapshot are told if and only if a side is deeper than fifty.
  lemma SnapshotTrades(id: int, time: int, entries: seq<MdEntry>)
    ensures var trades := TradesAmong(SnapshotMessages(id, time, entries)[1..]);
            if |Given(entries, Bid)| > 50 || |Given(entries, Offer)| > 50
            then AllCarried(trades, id, time, GivenTrades(entries)) else trades == []
  {
    assert entries[..|entries|] == entries;
    LevelsAreGiven(entries, Bid, |entries|);
    LevelsAreGiven(entries, Offer, |entries|);
    OverflowHasTrades(id, time, entries, |entries|);
    assert SnapshotMessages(id, time, entries)[1..] == if TooDeep(entries) then Overflow(id, time, entries) else [];
  }

  // A snapshot is told as one book of at most fifty levels a side and updates
  // that carry entries of it; together they give all its levels, in order.
  lemma SnapshotTold(id: int, time: int, entries: seq<MdEntry>)
    ensures var ms := SnapshotMessages(id, time, entries);
            && ms[0].FullBook? && ms[0].id == id && ms[0].time == time
            && |ms[0].bids| == Min(50, |Given(entries, Bid)|) && |ms[0].asks| == Min(50, |Given(entries, Offer)|)
            && (forall u :: u in ms[1..] ==>
                  IsUpdate(u, id) && exists j :: 0 <= j < |entries| && Carries(u, id, time, entries[j]))
            && SideSince(ms, BidSide) == Given(entries, Bid) && SideSince(ms, AskSide) == Given(entries, Offer)
  {
    var rest := if TooDeep(entries) then Overflow(id, time, entries) else [];
    OverflowCarries(id, time, entries, |entries|);
    assert entries[..|entries|] == entries;
    LevelsAreGiven(entries, Bid, |entries|);
    LevelsAreGiven(entries, Offer, |entries|);
    SplittingLosesNothing(id, time, entries);
    var ms := SnapshotMessages(id, time, entries);
    assert ms[1..] == rest && ms == [ms[0]] + rest;
    NoBookBetween(rest, BidSide, id);
    NoBookBetween(rest, AskSide, id);
    SideSinceMore([ms[0]], rest, BidSide);
    SideSinceMore([ms[0]], rest, AskSide);
    assert SideSince([ms[0]], BidSide) == ms[0].bids && SideSince([ms[0]], AskSide) == ms[0].asks;
  }

  // --- the prices of a security after one event ---------------------------

  lemma SnapshotPrices(m: Market, id: int, time: int, entries: seq<MdEntry>)
    requires m.output
    ensures var m' := SetStatus(EmitAll(m, SnapshotMessages(id, time, entries)), id, time, Online);
            && PricesSince(m'.stream, id) == SnapshotMessages(id, time, entries)
            && forall other :: other != id ==> PricesSince(m'.stream, other) == PricesSince(m.stream, other)
  {
    var ms := SnapshotMessages(id, time, entries);
    var rest := if TooDeep(entries) then Overflow(id, time, entries) else [];
    var said := EmitAll(m, ms);
    OverflowCarries(id, time, entries, |entries|);
    AfterBook(m.stream, BookOf(id, time, entries), rest, id);
    StatusTellsNoPrice(said, id, time, Online, id);
    forall other | other != id
      ensures PricesSince(SetStatus(said, id, time, Online).stream, other) == PricesSince(m.stream, other)
    {
      AfterOthers(m.stream, ms, other);
      StatusTellsNoPrice(said, id, time, Online, other);
    }
  }

  lemma RefreshPrices(m: Market, id: int, time: int, entries: seq<MdEntry>)
    requires m.output
    ensures var m' := EmitAll(m, UpdatesOf(id, time, entries));
            && PricesSince(m'.stream, id) == PricesSince(m.stream, id) + UpdatesOf(id, time, entries)
            && forall other :: other != id ==> PricesSince(m'.stream, other) == PricesSince(m.stream, other)
  {
    UpdatesCarry(id, time, entries, |entries|);
    AfterUpdates(m.stream, UpdatesOf(id, time, entries), id);
    forall other | other != id
      ensures PricesSince(EmitAll(m, UpdatesOf(id, time, entries)).stream, other) == PricesSince(m.stream, other)
    {
      AfterOthers(m.stream, UpdatesOf(id, time, entries), other);
    }
  }

  // --- the reader has the feed --------------------------------------------

  // A reader of the prices has the levels the exchange gave.
  ghost predicate HasFeed(m: Market, past: seq<Event>, symbol: string) {
    symbol in m.ids && StatusOf(m, m.ids[symbol]) == Online ==>
      var prices := PricesSince(m.stream, m.ids[symbol]);
      && SideSince(prices, BidSide) == FeedSide(past, symbol, Bid)
      && SideSince(prices, AskSide) == FeedSide(past, symbol, Offer)
  }

  // `m'` has nothing newly online, and no new prices.
  ghost predicate NoNews(m: Market, m': Market) {
    forall symbol :: symbol in m'.ids && StatusOf(m', m'.ids[symbol]) == Online ==>
      && symbol in m.ids && m.ids[symbol] == m'.ids[symbol] && StatusOf(m, m.ids[symbol]) == Online
      && PricesSince(m'.stream, m.ids[symbol]) == PricesSince(m.stream, m.ids[symbol])
  }

  lemma NoNewsKeepsFeed(m: Market, m': Market, past: seq<Event>, e: Event, symbol: string)
    requires NoNews(m, m') && HasFeed(m, past, symbol)
    requires !IsBook(e, symbol) && !(e.Incremental? && e.symbol == symbol)
    ensures HasFeed(m', past + [e], symbol)
  {
    assert (past + [e])[..|past + [e]| - 1] == past;
  }

  lemma DefineNoNews(m: Market, hash: string -> nat, symbol: string, time: int)
    requires InStep(m, true, {}) && |m.securities| < MAX_ID
    ensures NoNews(m, Define(m, hash, symbol, time))
  {
    CreateKeepsInverse(m, hash, symbol);
    var made := WithSecurity(m, hash, symbol);
    var id := made.ids[symbol];
    var added := Emit(made, SecurityAdded(id, time, symbol, symbol));
    var m' := Define(m, hash, symbol, time);
    forall s | s in m'.ids && StatusOf(m', m'.ids[s]) == Online
      ensures && s in m.ids && m.ids[s] == m'.ids[s] && StatusOf(m, m.ids[s]) == Online
              && PricesSince(m'.stream, m.ids[s]) == PricesSince(m.stream, m.ids[s])
    {
      AfterOne(made.stream, SecurityAdded(id, time, symbol, symbol), m'.ids[s]);
      StatusTellsNoPrice(added, id, time, PendingSnapshot, m'.ids[s]);
    }
  }

  lemma {:induction false} DefineAllNoNews(m: Market, hash: string -> nat, perpOnlyReq: bool,
                                           perpCurrencies: set<string>, time: int, listed: seq<Listed>)
    requires Orderly(m) && |m.securities| + |listed| <= MAX_ID
    ensures NoNews(m, DefineAll(m, hash, perpOnlyReq, perpCurrencies, time, listed))
    decreases |listed|
  {
    if listed != [] {
      var m' := if Wanted(perpOnlyReq, perpCurrencies, listed[0]) then Define(m, hash, listed[0].symbol, time) else m;
      DefineNoNews(m, hash, listed[0].symbol, time);
      DefineKeepsOrder(m, hash, listed[0].symbol, time);
      DefineGrowsByOne(m, hash, listed[0].symbol, time);
      DefineAllNoNews(m', hash, perpOnlyReq, perpCurrencies, time, listed[1..]);
    }
  }

  lemma ConnectionNoNews(m: Market, connection: Connection, time: int)
    ensures NoNews(m, SetConnection(m, connection, time))
  {
    var m' := SetConnection(m, connection, time);
    forall symbol | symbol in m'.ids
      ensures PricesSince(m'.stream, m.ids[symbol]) == PricesSince(m.stream, m.ids[symbol])
    {
      AfterOne(m.stream, ConnectionStatus(time, connection), m.ids[symbol]);
    }
  }

  lemma StepNoNews(d: Deribit, hash: string -> nat, e: Event)
    requires Orderly(d.market) && Accepts(d, e) && !e.Snapshot? && !e.Incremental?
    ensures NoNews(d.market, Step(d, hash, e).market)
  {
    var m := d.market;
    match e
    case SecurityList(reqId, time, listed) =>
      var m' := DefineAll(m, hash, reqId in d.perpOnly, d.perpCurrencies, time, listed);
      DefineAllNoNews(m, hash, reqId in d.perpOnly, d.perpCurrencies, time, listed);
      ConnectionNoNews(m', ConnectionOnline, time);
    case Logon(time, order) =>
      ConnectionNoNews(if m.connection == ConnectionOnline then Invalidated(m, time, order) else m, Starting, time);
    case _ =>
  }

  lemma SnapshotKeepsFeed(d: Deribit, e: Event, past: seq<Event>, symbol: string)
    requires Orderly(d.market) && HasFeed(d.market, past, symbol) && e.Snapshot?
    ensures HasFeed(OnSnapshot(d, e.symbol, e.time, e.entries).market, past + [e], symbol)
  {
    var m, m' := d.market, OnSnapshot(d, e.symbol, e.time, e.entries).market;
    assert (past + [e])[..|past + [e]| - 1] == past;
    if e.symbol in m.ids && e.entries != [] && e.entries[0].kind != Trade {
      SnapshotPrices(m, m.ids[e.symbol], e.time, e.entries);
      SnapshotTold(m.ids[e.symbol], e.time, e.entries);
      assert m'.ids == m.ids;
      if symbol in m.ids && symbol != e.symbol {
        assert m.ids[symbol] != m.ids[e.symbol];
      }
    }
  }

  lemma RefreshKeepsFeed(d: Deribit, e: Event, past: seq<Event>, symbol: string)
    requires Orderly(d.market) && HasFeed(d.market, past, symbol) && e.Incremental?
    ensures HasFeed(OnIncremental(d, e.symbol, e.time, e.entries).market, past + [e], symbol)
  {
    var m := d.market;
    assert (past + [e])[..|past + [e]| - 1] == past;
    if e.symbol in m.ids && StatusOf(m, m.ids[e.symbol]) == Online {
      var id := m.ids[e.symbol];
      RefreshPrices(m, id, e.time, e.entries);
      if symbol == e.symbol {
        assert e.entries[..|e.entries|] == e.entries;
        UpdatesGive(id, e.time, e.entries, Bid, |e.entries|);
        UpdatesGive(id, e.time, e.entries, Offer, |e.entries|);
        SideSinceMore(PricesSince(m.stream, id), UpdatesOf(id, e.time, e.entries), BidSide);
        SideSinceMore(PricesSince(m.stream, id), UpdatesOf(id, e.time, e.entries), AskSide);
      } else if symbol in m.ids {
        assert m.ids[symbol] != id;
      }
    }
  }

  lemma StepKeepsFeed(d: Deribit, hash: string -> nat, e: Event, past: seq<Event>, symbol: string)
    requires Orderly(d.market) && Accepts(d, e) && HasFeed(d.market, past, symbol)
    ensures HasFeed(Step(d, hash, e).market, past + [e], symbol)
  {
    if e.Snapshot? {
      SnapshotKeepsFeed(d, e, past, symbol);
    } else if e.Incremental? {
      RefreshKeepsFeed(d, e, past, symbol);
    } else {
      StepNoNews(d, hash, e);
      NoNewsKeepsFeed(d.market, Step(d, hash, e).market, past, e, symbol);
    }
  }

  lemma {:induction false} RunKeepsFeed(d: Deribit, hash: string -> nat, es: seq<Event>, past: seq<Event>,
                                        symbol: string)
    requires Orderly(d.market) && ValidRun(d, hash, es) && HasFeed(d.market, past, symbol)
    ensures HasFeed(Run(d, hash, es).market, past + es, symbol)
    decreases |es|
  {
    if es == [] {
      assert past + es == past;
    } else {
      StepKeepsOrder(d, hash, es[0]);
      StepKeepsFeed(d, hash, es[0], past, symbol);
      RunKeepsFeed(Step(d, hash, es[0]), hash, es[1..], past + [es[0]], symbol);
      HeadMoves(past, es);
    }
  }

  // Over a whole run: for every security last reported ONLINE, the latest full
  // book and the updates read since give, side by side and in order, exactly the
  // levels of the exchange's latest snapshot and of all its refreshes since.
  lemma ReaderHasFeed(configured: set<string>, hash: string -> nat, es: seq<Event>, symbol: string)
    requires ValidRun(Initial(configured), hash, es)
    requires symbol in Run(Initial(configured), hash, es).market.ids
    ensures var m := Run(Initial(configured), hash, es).market;
            var id := m.ids[symbol];
            var prices := PricesSince(m.stream, id);
            LastStatus(m.stream, id) == Some(Online) ==>
              && BookSent(m.stream, id)
              && SideSince(prices, BidSide) == FeedSide(es, symbol, Bid)
              && SideSince(prices, AskSide) == FeedSide(es, symbol, Offer)
  {
    var m := Run(Initial(configured), hash, es).market;
    RunKeepsOrder(Initial(configured), hash, es);
    RunKeepsFeed(Initial(configured), hash, es, [], symbol);
    assert [] + es == es;
    OnlineAsTold(m, m.ids[symbol], true);
  }

  // The security has its book and is online; no other has heard of it.
  ghost predicate HasItsBook(m: Market, m': Market, id: int, time: int, entries: seq<MdEntry>) {
    && m'.ids == m.ids && LastStatus(m'.stream, id) == Some(Online) && BookSent(m'.stream, id)
    && PricesSince(m'.stream, id) == SnapshotMessages(id, time, entries)
    && forall other :: other != id ==>
         PricesSince(m'.stream, other) == PricesSince(m.stream, other) && StatusOf(m', other) == StatusOf(m, other)
  }

  lemma TakenSnapshotTold(d: Deribit, e: Event)
    requires Orderly(d.market) && e.Snapshot? && e.symbol in d.market.ids && IsBook(e, e.symbol)
    ensures HasItsBook(d.market, OnSnapshot(d, e.symbol, e.time, e.entries).market, d.market.ids[e.symbol], e.time,
                       e.entries)
  {
    var m := d.market;
    OnSnapshotKeepsOrder(d, e.symbol, e.time, e.entries);
    SnapshotPrices(m, m.ids[e.symbol], e.time, e.entries);
    OnlineAsTold(OnSnapshot(d, e.symbol, e.time, e.entries).market, m.ids[e.symbol], true);
  }

  // A snapshot that is not empty and does not start with a trade brings a
  // registered security online, with its book; no other security hears of it. Any
  // other snapshot has no effect.
  lemma SnapshotAnswered(configured: set<string>, hash: string -> nat, es: seq<Event>, e: Event)
    requires ValidRun(Initial(configured), hash, es) && e.Snapshot?
    ensures var d := Run(Initial(configured), hash, es); var d' := Step(d, hash, e);
            if e.symbol in d.market.ids && IsBook(e, e.symbol)
            then HasItsBook(d.market, d'.market, d.market.ids[e.symbol], e.time, e.entries)
            else d' == d
  {
    var d := Run(Initial(configured), hash, es);
    RunKeepsOrder(Initial(configured), hash, es);
    if e.symbol in d.market.ids && IsBook(e, e.symbol) {
      TakenSnapshotTold(d, e);
    }
  }

  // The messages with which `after` goes on carry the entries, one by one.
  predicate GoesOnWith(before: seq<Message>, after: seq<Message>, id: int, time: int, entries: seq<MdEntry>) {
    && before <= after && |after| == |before| + |entries|
    && forall i :: 0 <= i < |entries| ==> Carries(after[|before| + i], id, time, entries[i])
  }

  lemma UpdatesGoOn(stream: seq<Message>, id: int, time: int, entries: seq<MdEntry>)
    ensures GoesOnWith(stream, stream + UpdatesOf(id, time, entries), id, time, entries)
  {
    UpdatesCarry(id, time, entries, |entries|);
  }

  lemma RefreshTold(d: Deribit, e: Event)
    requires Orderly(d.market) && e.Incremental?
    ensures var m, m' := d.market, OnIncremental(d, e.symbol, e.time, e.entries).market;
            if e.symbol in m.ids && LastStatus(m.stream, m.ids[e.symbol]) == Some(Online) then
              m' == m.(stream := m'.stream) && GoesOnWith(m.stream, m'.stream, m.ids[e.symbol], e.time, e.entries)
            else m' == m
  {
    var m := d.market;
    if e.symbol in m.ids {
      OnlineAsTold(m, m.ids[e.symbol], true);
      UpdatesGoOn(m.stream, m.ids[e.symbol], e.time, e.entries);
    }
  }

  // A refresh of a security last reported ONLINE adds one message for each of
  // its entries, in order; any other refresh adds nothing.
  lemma RefreshAnswered(configured: set<string>, hash: string -> nat, es: seq<Event>, e: Event)
    requires ValidRun(Initial(configured), hash, es) && e.Incremental?
    ensures var m := Run(Initial(configured), hash, es).market;
            var m' := Step(Run(Initial(configured), hash, es), hash, e).market;
            if e.symbol in m.ids && LastStatus(m.stream, m.ids[e.symbol]) == Some(Online) then
              m' == m.(stream := m'.stream) && GoesOnWith(m.stream, m'.stream, m.ids[e.symbol], e.time, e.entries)
            else m' == m
  {
    RunKeepsOrder(Initial(configured), hash, es);
    RefreshTold(Run(Initial(configured), hash, es), e);
  }
}
