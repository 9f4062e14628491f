// The Deribit market-data processor as a state machine over the messages of a
// FIX session, or of a capture of one.
module DeribitModel {
  import opened Common
  import opened Registry

  const MAX_LEVELS := 50

  // --- what arrives -------------------------------------------------------

  datatype Kind = Bid | Offer | Trade

  // An entry of a snapshot or of an incremental refresh. `side` is that of
  // the taker of a trade.
  datatype MdEntry = MdEntry(kind: Kind, action: Option<string>, price: string, size: string,
                             side: char, tradeId: Option<nat>)

  datatype Listed = Listed(symbol: string, isSpot: bool, settlType: string)

  // `order` is the order in which the map of securities is traversed. A
  // request is seen only when a capture is replayed.
  datatype Event =
    | Snapshot(symbol: string, time: int, entries: seq<MdEntry>)
    | Incremental(symbol: string, time: int, entries: seq<MdEntry>)
    | ListRequest(reqId: string, securityType: Option<string>, hasCurrency: bool)
    | SecurityList(reqId: string, time: int, listed: seq<Listed>)
    | Logon(time: int, order: seq<int>)
    | Logout(time: int, order: seq<int>)
    | SetOutput(on: bool)
    | Ignored

  // `configured` are the perpetual currencies of the configuration, which a
  // request for perpetuals hands to the processor.
  datatype Deribit = Deribit(market: Market, pending: set<string>, perpOnly: set<string>,
                             perpCurrencies: set<string>, configured: set<string>)

  function Initial(configured: set<string>): Deribit {
    Deribit(EMPTY, {}, {}, {}, configured)
  }

  // --- updates and books --------------------------------------------------

  function LevelOf(e: MdEntry): Level {
    Level(e.price, e.size)
  }

  function ActionOf(action: Option<string>): Action {
    if action == Some("0") then New
    else if action == Some("1") then Change
    else if action == Some("2") then Delete
    else NoAction
  }

  function UpdateOf(id: int, time: int, e: MdEntry): Message {
    match e.kind
    case Bid => BookUpdate(id, time, BidSide, ActionOf(e.action), LevelOf(e))
    case Offer => BookUpdate(id, time, AskSide, ActionOf(e.action), LevelOf(e))
    case Trade => TradeUpdate(id, time, if e.side == '1' then AskSide else BidSide, LevelOf(e), e.tradeId)
  }

  lemma EmitSplit(m: Market, messages: seq<Message>, last: Message)
    ensures EmitAll(m, messages + [last]) == Emit(EmitAll(m, messages), last)
  {
    Assoc(m.stream, messages, [last]);
  }

  // The updates of the first `n` entries.
  function UpdatesUpTo(id: int, time: int, entries: seq<MdEntry>, n: nat): seq<Message>
    requires n <= |entries|
  {
    if n == 0 then [] else UpdatesUpTo(id, time, entries, n - 1) + [UpdateOf(id, time, entries[n - 1])]
  }

  function UpdatesOf(id: int, time: int, entries: seq<MdEntry>): seq<Message> {
    UpdatesUpTo(id, time, entries, |entries|)
  }

  // The levels of one side among the first `n` entries, in the order given.
  function LevelsUpTo(entries: seq<MdEntry>, kind: Kind, n: nat): seq<Level>
    requires n <= |entries|
  {
    if n == 0 then []
    else LevelsUpTo(entries, kind, n - 1) + (if entries[n - 1].kind == kind then [LevelOf(entries[n - 1])] else [])
  }

  function Levels(entries: seq<MdEntry>, kind: Kind): seq<Level> {
    LevelsUpTo(entries, kind, |entries|)
  }

  function First(levels: seq<Level>): (r: seq<Level>)
    ensures |r| == Min(|levels|, MAX_LEVELS)
  {
    if |levels| <= MAX_LEVELS then levels else levels[..MAX_LEVELS]
  }

  function Rest(levels: seq<Level>): seq<Level> {
    levels[|First(levels)|..]
  }

  // An entry the full book has no room for, or never holds.
  predicate Overflows(entries: seq<MdEntry>, i: nat)
    requires i < |entries|
  {
    entries[i].kind == Trade || |LevelsUpTo(entries, entries[i].kind, i)| >= MAX_LEVELS
  }

  function OverflowUpTo(id: int, time: int, entries: seq<MdEntry>, n: nat): seq<Message>
    requires n <= |entries|
  {
    if n == 0 then []
    else OverflowUpTo(id, time, entries, n - 1)
         + (if Overflows(entries, n - 1) then [UpdateOf(id, time, entries[n - 1])] else [])
  }

  function Overflow(id: int, time: int, entries: seq<MdEntry>): seq<Message> {
    OverflowUpTo(id, time, entries, |entries|)
  }

  predicate TooDeep(entries: seq<MdEntry>) {
    |Levels(entries, Bid)| > MAX_LEVELS || |Levels(entries, Offer)| > MAX_LEVELS
  }

  function BookOf(id: int, time: int, entries: seq<MdEntry>): Message {
    FullBook(id, time, First(Levels(entries, Bid)), First(Levels(entries, Offer)))
  }

  // A full book of at most MAX_LEVELS a side, and the rest as updates.
  function SnapshotMessages(id: int, time: int, entries: seq<MdEntry>): seq<Message> {
    [BookOf(id, time, entries)] + (if TooDeep(entries) then Overflow(id, time, entries) else [])
  }

  // What one message adds to the levels of a side.
  function LevelIn(message: Message, side: Side): seq<Level> {
    if message.BookUpdate? && message.side == side then [message.level] else []
  }

  // The levels of the book updates of one side.
  function UpdatedLevels(messages: seq<Message>, side: Side): seq<Level>
    decreases |messages|
  {
    if messages == [] then []
    else UpdatedLevels(messages[..|messages| - 1], side) + LevelIn(messages[|messages| - 1], side)
  }

  function SideOf(kind: Kind): Side {
    match kind
    case Bid => BidSide
    case Offer => AskSide
    case Trade => NoSide
  }

  lemma Appended(messages: seq<Message>, u: Message, side: Side, goes: bool)
    ensures UpdatedLevels(messages + (if goes then [u] else []), side) ==
            UpdatedLevels(messages, side) + (if goes then LevelIn(u, side) else [])
  {
    if goes {
      assert (messages + [u])[..|messages|] == messages;
    } else {
      assert messages + [] == messages;
    }
  }

  lemma RestGrows(levels: seq<Level>, level: Level)
    ensures Rest(levels + [level]) == Rest(levels) + (if |levels| >= MAX_LEVELS then [level] else [])
  {
  }

  lemma RestStep(messages: seq<Message>, u: Message, side: Side, goes: bool, levels: seq<Level>, level: Level,
                 mine: bool)
    requires LevelIn(u, side) == if mine then [level] else []
    requires mine ==> (goes <==> |levels| >= MAX_LEVELS)
    requires UpdatedLevels(messages, side) == Rest(levels)
    ensures UpdatedLevels(messages + (if goes then [u] else []), side) == Rest(levels + (if mine then [level] else []))
  {
    Appended(messages, u, side, goes);
    if mine {
      RestGrows(levels, level);
    } else {
      assert levels + [] == levels;
    }
  }

  lemma {:induction false} OverflowIsTheRest(id: int, time: int, entries: seq<MdEntry>, kind: Kind, n: nat)
    requires kind != Trade && n <= |entries|
    ensures UpdatedLevels(OverflowUpTo(id, time, entries, n), SideOf(kind)) == Rest(LevelsUpTo(entries, kind, n))
  {
    if n > 0 {
      OverflowIsTheRest(id, time, entries, kind, n - 1);
      var e := entries[n - 1];
      RestStep(OverflowUpTo(id, time, entries, n - 1), UpdateOf(id, time, e), SideOf(kind), Overflows(entries, n - 1),
               LevelsUpTo(entries, kind, n - 1), LevelOf(e), e.kind == kind);
    }
  }

  // The levels of the book followed by those of the updates are all levels of
  // the snapshot, in order, each once.
  lemma SplittingLosesNothing(id: int, time: int, entries: seq<MdEntry>)
    ensures var messages := SnapshotMessages(id, time, entries);
            && messages[0].FullBook? && |messages[0].bids| <= MAX_LEVELS && |messages[0].asks| <= MAX_LEVELS
            && messages[0].bids + UpdatedLevels(messages[1..], BidSide) == Levels(entries, Bid)
            && messages[0].asks + UpdatedLevels(messages[1..], AskSide) == Levels(entries, Offer)
  {
    OverflowIsTheRest(id, time, entries, Bid, |entries|);
    OverflowIsTheRest(id, time, entries, Offer, |entries|);
    var rest := if TooDeep(entries) then Overflow(id, time, entries) else [];
    assert SnapshotMessages(id, time, entries)[1..] == rest;
    FirstAndRest(Levels(entries, Bid));
    FirstAndRest(Levels(entries, Offer));
  }

  lemma FirstAndRest(levels: seq<Level>)
    ensures First(levels) + Rest(levels) == levels
  {
  }

  // --- the handlers -------------------------------------------------------

  function OnSnapshot(d: Deribit, symbol: string, time: int, entries: seq<MdEntry>): Deribit {
    var m := d.market;
    if symbol !in m.ids then d
    else if !m.output then d.(market := SetStatus(m, m.ids[symbol], time, Online))
    else if entries == [] || entries[0].kind == Trade then d
    else
      d.(market := SetStatus(EmitAll(m, SnapshotMessages(m.ids[symbol], time, entries)), m.ids[symbol], time, Online))
  }

  function OnIncremental(d: Deribit, symbol: string, time: int, entries: seq<MdEntry>): Deribit {
    var m := d.market;
    if !m.output || symbol !in m.ids || StatusOf(m, m.ids[symbol]) != Online then d
    else d.(market := EmitAll(m, UpdatesOf(m.ids[symbol], time, entries)))
  }

  // The part of a symbol before "_USDC", or else before the first '-'.
  function Underlying(symbol: string): string {
    if Contains(symbol, "_USDC") then symbol[..FindText(symbol, "_USDC")] else symbol[..Find(symbol, '-')]
  }

  // Which instruments of a response are taken.
  predicate Wanted(perpOnlyReq: bool, perpCurrencies: set<string>, l: Listed) {
    && (perpOnlyReq ==> l.settlType == "0" && Underlying(l.symbol) in perpCurrencies)
    && (l.isSpot ==> Contains(l.symbol, "BTC_USDC"))
    && !(!perpOnlyReq && perpCurrencies != {} && Contains(l.symbol, "_USDC") && l.settlType == "0")
  }

  // Register, define and await the first snapshot.
  function Define(m: Market, hash: string -> nat, symbol: string, time: int): Market {
    var made := WithSecurity(m, hash, symbol);
    if symbol !in made.ids then made
    else
      var added := Emit(made, SecurityAdded(made.ids[symbol], time, symbol, symbol));
      SetStatus(added, made.ids[symbol], time, PendingSnapshot)
  }

  lemma DefineGrowsByOne(m: Market, hash: string -> nat, symbol: string, time: int)
    ensures |Define(m, hash, symbol, time).securities| <= |m.securities| + 1
  {
    var made := WithSecurity(m, hash, symbol);
    var defined := Define(m, hash, symbol, time);
    assert defined.securities.Keys == made.securities.Keys;
    assert |defined.securities| == |defined.securities.Keys| && |made.securities| == |made.securities.Keys|;
  }

  function DefineAll(m: Market, hash: string -> nat, perpOnlyReq: bool, perpCurrencies: set<string>, time: int,
                     listed: seq<Listed>): Market
    decreases |listed|
  {
    if listed == [] then m
    else
      var m' := if Wanted(perpOnlyReq, perpCurrencies, listed[0]) then Define(m, hash, listed[0].symbol, time) else m;
      DefineAll(m', hash, perpOnlyReq, perpCurrencies, time, listed[1..])
  }

  function OnSecurityList(d: Deribit, hash: string -> nat, reqId: string, time: int, listed: seq<Listed>): Deribit {
    var m := DefineAll(d.market, hash, reqId in d.perpOnly, d.perpCurrencies, time, listed);
    var pending := d.pending - {reqId};
    d.(market := if pending == {} then SetConnection(m, ConnectionOnline, time) else m, pending := pending)
  }

  predicate IsPerpRequest(e: Event, configured: set<string>) {
    e.ListRequest? && configured != {} && e.securityType == Some("FUT") && !e.hasCurrency
  }

  function OnListRequest(d: Deribit, e: Event): Deribit
    requires e.ListRequest?
  {
    var asked := d.(pending := d.pending + {e.reqId});
    if IsPerpRequest(e, d.configured) then asked.(perpOnly := d.perpOnly + {e.reqId}, perpCurrencies := d.configured)
    else asked
  }

  function OnLogon(d: Deribit, time: int, order: seq<int>): Deribit {
    var m := if d.market.connection == ConnectionOnline then Invalidated(d.market, time, order) else d.market;
    d.(market := SetConnection(m, Starting, time), pending := {})
  }

  function Step(d: Deribit, hash: string -> nat, e: Event): Deribit {
    match e
    case Snapshot(symbol, time, entries) => OnSnapshot(d, symbol, time, entries)
    case Incremental(symbol, time, entries) => OnIncremental(d, symbol, time, entries)
    case ListRequest(_, _, _) => OnListRequest(d, e)
    case SecurityList(reqId, time, listed) => OnSecurityList(d, hash, reqId, time, listed)
    case Logon(time, order) => OnLogon(d, time, order)
    case Logout(time, order) => d.(market := Invalidated(d.market, time, order))
    case SetOutput(on) => d.(market := d.market.(output := on))
    case Ignored => d
  }

  function Run(d: Deribit, hash: string -> nat, es: seq<Event>): Deribit
    decreases |es|
  {
    if es == [] then d else Run(Step(d, hash, es[0]), hash, es[1..])
  }

  // --- runs with output on ------------------------------------------------

  // There are free ids left for a response, the map is traversed as it is,
  // and output stays on.
  ghost predicate Accepts(d: Deribit, e: Event) {
    match e
    case SecurityList(_, _, listed) => |d.market.securities| + |listed| <= MAX_ID
    case Logon(_, order) => Enumerates(order, d.market.securities.Keys)
    case Logout(_, order) => Enumerates(order, d.market.securities.Keys)
    case SetOutput(on) => on
    case _ => true
  }

  ghost predicate ValidRun(d: Deribit, hash: string -> nat, es: seq<Event>)
    decreases |es|
  {
    es == [] || (Accepts(d, es[0]) && ValidRun(Step(d, hash, es[0]), hash, es[1..]))
  }
}
