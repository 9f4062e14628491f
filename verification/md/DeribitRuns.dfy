// What every run of the Deribit processor with output on guarantees to the
// readers of its stream.
module DeribitRuns {
  import opened Common
  import opened Registry
  import opened Stream
  import opened DeribitModel
  import RefData

  // --- order of the stream ------------------------------------------------

  // Statuses are news, updates have a book, and no security is left new or
  // offline.
  ghost predicate Orderly(m: Market) {
    InStep(m, true, {}) && Settled(m)
  }

  lemma StatusKeepsOrder(m: Market, id: int, time: int, status: Status)
    requires Orderly(m) && status in {PendingSnapshot, Online} && (status == Online ==> BookSent(m.stream, id))
    ensures Orderly(SetStatus(m, id, time, status))
  {
    StatusKeepsStep(m, id, time, status, true, {});
  }

  lemma EmitKeepsOrder(m: Market, message: Message)
    requires Orderly(m) && !message.SecurityStatus? && MayFollow(m.stream, message, true)
    ensures Orderly(Emit(m, message))
    ensures forall id :: BookSent(m.stream, id) ==> BookSent(Emit(m, message).stream, id)
  {
    SayKeepsStep(m, message, true, {});
    if message.FullBook? {
      assert {} - {message.id} == {};
    }
  }

  // Updates for a security that has its book.
  predicate Update(message: Message, id: int) {
    (message.BookUpdate? || message.TradeUpdate?) && message.id == id
  }

  lemma {:induction false} UpdatesKeepOrder(m: Market, id: int, messages: seq<Message>)
    requires Orderly(m) && BookSent(m.stream, id)
    requires forall i :: 0 <= i < |messages| ==> Update(messages[i], id)
    ensures Orderly(EmitAll(m, messages)) && BookSent(EmitAll(m, messages).stream, id)
    ensures EmitAll(m, messages).securities == m.securities
    decreases |messages|
  {
    if messages == [] {
      assert m.stream + messages == m.stream;
    } else {
      var before, last := messages[..|messages| - 1], messages[|messages| - 1];
      assert before + [last] == messages;
      UpdatesKeepOrder(m, id, before);
      EmitSplit(m, before, last);
      EmitKeepsOrder(EmitAll(m, before), last);
    }
  }

  lemma {:induction false} OverflowIsUpdates(id: int, time: int, entries: seq<MdEntry>, n: nat)
    requires n <= |entries|
    ensures forall i :: 0 <= i < |OverflowUpTo(id, time, entries, n)| ==>
              Update(OverflowUpTo(id, time, entries, n)[i], id)
  {
    if n > 0 {
      OverflowIsUpdates(id, time, entries, n - 1);
    }
  }

  lemma {:induction false} UpdatesAreUpdates(id: int, time: int, entries: seq<MdEntry>, n: nat)
    requires n <= |entries|
    ensures forall i :: 0 <= i < |UpdatesUpTo(id, time, entries, n)| ==>
              Update(UpdatesUpTo(id, time, entries, n)[i], id)
  {
    if n > 0 {
      UpdatesAreUpdates(id, time, entries, n - 1);
    }
  }

  lemma SnapshotKeepsOrder(m: Market, id: int, time: int, entries: seq<MdEntry>)
    requires Orderly(m)
    ensures Orderly(EmitAll(m, SnapshotMessages(id, time, entries)))
    ensures BookSent(EmitAll(m, SnapshotMessages(id, time, entries)).stream, id)
  {
    var book := BookOf(id, time, entries);
    var rest := if TooDeep(entries) then Overflow(id, time, entries) else [];
    EmitKeepsOrder(m, book);
    OneMore(m.stream, book);
    OverflowIsUpdates(id, time, entries, |entries|);
    UpdatesKeepOrder(Emit(m, book), id, rest);
    Assoc(m.stream, [book], rest);
  }

  lemma DefineKeepsStep(m: Market, hash: string -> nat, symbol: string, time: int)
    requires InStep(m, true, {}) && |m.securities| < MAX_ID
    ensures InStep(Define(m, hash, symbol, time), true, {})
  {
    CreateKeepsStep(m, hash, symbol, true, {});
    CreateKeepsInverse(m, hash, symbol);
    var made := WithSecurity(m, hash, symbol);
    var added := SecurityAdded(made.ids[symbol], time, symbol, symbol);
    SayKeepsStep(made, added, true, {});
    StatusKeepsStep(Emit(made, added), made.ids[symbol], time, PendingSnapshot, true, {});
  }

  lemma DefineSettles(m: Market, hash: string -> nat, symbol: string, time: int)
    requires Inverse(m) && Settled(m) && |m.securities| < MAX_ID
    ensures Settled(Define(m, hash, symbol, time))
  {
    CreateKeepsInverse(m, hash, symbol);
    var made := WithSecurity(m, hash, symbol);
    forall id | id in made.securities && id != made.ids[symbol]
      ensures made.securities[id].status in {PendingSnapshot, Online}
    {
      assert id in m.securities;
    }
  }

  lemma DefineKeepsOrder(m: Market, hash: string -> nat, symbol: string, time: int)
    requires Orderly(m) && |m.securities| < MAX_ID
    ensures Orderly(Define(m, hash, symbol, time))
  {
    DefineKeepsStep(m, hash, symbol, time);
    DefineSettles(m, hash, symbol, time);
  }

  lemma {:induction false} DefineAllKeepsOrder(m: Market, hash: string -> nat, perpOnlyReq: bool,
                                               perpCurrencies: set<string>,
                                               time: int, listed: seq<Listed>)
    requires Orderly(m) && |m.securities| + |listed| <= MAX_ID
    ensures Orderly(DefineAll(m, hash, perpOnlyReq, perpCurrencies, time, listed))
    decreases |listed|
  {
    if listed != [] {
      var m' := if Wanted(perpOnlyReq, perpCurrencies, listed[0]) then Define(m, hash, listed[0].symbol, time) else m;
      DefineKeepsOrder(m, hash, listed[0].symbol, time);
      DefineGrowsByOne(m, hash, listed[0].symbol, time);
      DefineAllKeepsOrder(m', hash, perpOnlyReq, perpCurrencies, time, listed[1..]);
    }
  }

  lemma InvalidateKeepsOrder(m: Market, time: int, order: seq<int>)
    requires Orderly(m) && Enumerates(order, m.securities.Keys)
    ensures Orderly(Invalidated(m, time, order))
  {
    InvalidateKeepsStep(m, time, order, true);
  }

  lemma ConnectionKeepsOrder(m: Market, connection: Connection, time: int)
    requires Orderly(m)
    ensures Orderly(SetConnection(m, connection, time))
  {
    var m' := m.(connection := connection);
    forall id ensures StatusOf(m', id) == StatusOf(m, id) {
    }
    EmitKeepsOrder(m', ConnectionStatus(time, connection));
  }

  lemma OnSnapshotKeepsOrder(d: Deribit, symbol: string, time: int, entries: seq<MdEntry>)
    requires Orderly(d.market)
    ensures Orderly(OnSnapshot(d, symbol, time, entries).market)
  {
    var m := d.market;
    if symbol in m.ids && entries != [] && entries[0].kind != Trade {
      SnapshotKeepsOrder(m, m.ids[symbol], time, entries);
      StatusKeepsOrder(EmitAll(m, SnapshotMessages(m.ids[symbol], time, entries)), m.ids[symbol], time, Online);
    }
  }

  lemma OnIncrementalKeepsOrder(d: Deribit, symbol: string, time: int, entries: seq<MdEntry>)
    requires Orderly(d.market)
    ensures Orderly(OnIncremental(d, symbol, time, entries).market)
  {
    var m := d.market;
    if symbol in m.ids && StatusOf(m, m.ids[symbol]) == Online {
      UpdatesAreUpdates(m.ids[symbol], time, entries, |entries|);
      UpdatesKeepOrder(m, m.ids[symbol], UpdatesOf(m.ids[symbol], time, entries));
    }
  }

  lemma StepKeepsOrder(d: Deribit, hash: string -> nat, e: Event)
    requires Orderly(d.market) && Accepts(d, e)
    ensures Orderly(Step(d, hash, e).market)
  {
    var m := d.market;
    match e
    case Snapshot(symbol, time, entries) =>
      OnSnapshotKeepsOrder(d, symbol, time, entries);
    case Incremental(symbol, time, entries) =>
      OnIncrementalKeepsOrder(d, symbol, time, entries);
    case SecurityList(reqId, time, listed) =>
      var m' := DefineAll(m, hash, reqId in d.perpOnly, d.perpCurrencies, time, listed);
      DefineAllKeepsOrder(m, hash, reqId in d.perpOnly, d.perpCurrencies, time, listed);
      ConnectionKeepsOrder(m', ConnectionOnline, time);
    case Logon(time, order) =>
      InvalidateKeepsOrder(m, time, order);
      ConnectionKeepsOrder(if m.connection == ConnectionOnline then Invalidated(m, time, order) else m, Starting, time);
    case Logout(time, order) =>
      InvalidateKeepsOrder(m, time, order);
    case _ =>
  }

  lemma {:induction false} RunKeepsOrder(d: Deribit, hash: string -> nat, es: seq<Event>)
    requires Orderly(d.market) && ValidRun(d, hash, es)
    ensures Orderly(Run(d, hash, es).market)
    decreases |es|
  {
    if es != [] {
      StepKeepsOrder(d, hash, es[0]);
      RunKeepsOrder(Step(d, hash, es[0]), hash, es[1..]);
    }
  }

  // Over a whole run: consecutive statuses of a security differ, every update
  // comes after a full book sent since the latest PENDING_SNAPSHOT, and symbols
  // and ids stay mutual inverses.
  lemma StreamProtocol(configured: set<string>, hash: string -> nat, es: seq<Event>, k: nat)
    requires ValidRun(Initial(configured), hash, es)
    ensures var m := Run(Initial(configured), hash, es).market;
            Inverse(m) && (k < |m.stream| ==> MayFollow(m.stream[..k], m.stream[k], true))
  {
    RunKeepsOrder(Initial(configured), hash, es);
    var m := Run(Initial(configured), hash, es).market;
    if k < |m.stream| {
      WellBehavedEverywhere(m.stream, true, k);
    }
  }

  // --- agreement with the reader's tables ---------------------------------

  lemma {:induction false} ChatterKeepsAgreement(m: Market, messages: seq<Message>, index: string -> Option<int>)
    requires Agrees(m, index, {}) && forall i :: 0 <= i < |messages| ==> !IsDefinition(messages[i])
    ensures Agrees(EmitAll(m, messages), index, {})
    decreases |messages|
  {
    if messages == [] {
      assert m.stream + messages == m.stream;
    } else {
      var before, last := messages[..|messages| - 1], messages[|messages| - 1];
      assert before + [last] == messages;
      ChatterKeepsAgreement(m, before, index);
      EmitSplit(m, before, last);
      SayKeepsAgreement(EmitAll(m, before), last, index, {});
    }
  }

  lemma DefineKeepsAgreement(m: Market, hash: string -> nat, symbol: string, time: int, index: string -> Option<int>)
    requires Agrees(m, index, {}) && |m.securities| < MAX_ID
    ensures Agrees(Define(m, hash, symbol, time), index, {})
  {
    AddKeepsAgreement(m, hash, symbol, time, index);
    CreateKeepsInverse(m, hash, symbol);
    var made := WithSecurity(m, hash, symbol);
    var id := made.ids[symbol];
    var said := Emit(made, SecurityAdded(id, time, symbol, symbol));
    StatusKeepsAgreement(said, id, time, PendingSnapshot, index, {});
  }

  lemma {:induction false} DefineAllKeepsAgreement(m: Market, hash: string -> nat, perpOnlyReq: bool,
                                                   perpCurrencies: set<string>,
                                                   time: int, listed: seq<Listed>, index: string -> Option<int>)
    requires Agrees(m, index, {}) && |m.securities| + |listed| <= MAX_ID
    ensures Agrees(DefineAll(m, hash, perpOnlyReq, perpCurrencies, time, listed), index, {})
    decreases |listed|
  {
    if listed != [] {
      var m' := if Wanted(perpOnlyReq, perpCurrencies, listed[0]) then Define(m, hash, listed[0].symbol, time) else m;
      DefineKeepsAgreement(m, hash, listed[0].symbol, time, index);
      DefineGrowsByOne(m, hash, listed[0].symbol, time);
      DefineAllKeepsAgreement(m', hash, perpOnlyReq, perpCurrencies, time, listed[1..], index);
    }
  }

  lemma ConnectionKeepsAgreement(m: Market, connection: Connection, time: int, index: string -> Option<int>)
    requires Agrees(m, index, {})
    ensures Agrees(SetConnection(m, connection, time), index, {})
  {
    SayKeepsAgreement(m.(connection := connection), ConnectionStatus(time, connection), index, {});
  }

  lemma OnSnapshotKeepsAgreement(d: Deribit, symbol: string, time: int, entries: seq<MdEntry>,
                                 index: string -> Option<int>)
    requires Agrees(d.market, index, {})
    ensures Agrees(OnSnapshot(d, symbol, time, entries).market, index, {})
  {
    var m := d.market;
    if symbol in m.ids && entries != [] && entries[0].kind != Trade {
      var id := m.ids[symbol];
      OverflowIsUpdates(id, time, entries, |entries|);
      ChatterKeepsAgreement(m, SnapshotMessages(id, time, entries), index);
      StatusKeepsAgreement(EmitAll(m, SnapshotMessages(id, time, entries)), id, time, Online, index, {});
    }
  }

  lemma StepKeepsAgreement(d: Deribit, hash: string -> nat, e: Event, index: string -> Option<int>)
    requires Agrees(d.market, index, {}) && Accepts(d, e)
    ensures Agrees(Step(d, hash, e).market, index, {})
  {
    var m := d.market;
    match e
    case Snapshot(symbol, time, entries) =>
      OnSnapshotKeepsAgreement(d, symbol, time, entries, index);
    case Incremental(symbol, time, entries) =>
      if symbol in m.ids {
        UpdatesAreUpdates(m.ids[symbol], time, entries, |entries|);
        ChatterKeepsAgreement(m, UpdatesOf(m.ids[symbol], time, entries), index);
      }
    case SecurityList(reqId, time, listed) =>
      var m' := DefineAll(m, hash, reqId in d.perpOnly, d.perpCurrencies, time, listed);
      DefineAllKeepsAgreement(m, hash, reqId in d.perpOnly, d.perpCurrencies, time, listed, index);
      ConnectionKeepsAgreement(m', ConnectionOnline, time, index);
    case Logon(time, order) =>
      InvalidateKeepsAgreement(m, time, order, index);
      var m' := if m.connection == ConnectionOnline then Invalidated(m, time, order) else m;
      ConnectionKeepsAgreement(m', Starting, time, index);
    case Logout(time, order) =>
      InvalidateKeepsAgreement(m, time, order, index);
    case _ =>
  }

  lemma {:induction false} RunKeepsAgreement(d: Deribit, hash: string -> nat, es: seq<Event>,
                                             index: string -> Option<int>)
    requires Agrees(d.market, index, {}) && ValidRun(d, hash, es)
    ensures Agrees(Run(d, hash, es).market, index, {})
    decreases |es|
  {
    if es != [] {
      StepKeepsAgreement(d, hash, es[0], index);
      RunKeepsAgreement(Step(d, hash, es[0]), hash, es[1..], index);
    }
  }

  // A RefDataHolder fed the stream holds exactly the registered securities,
  // and answers with the processor's id, or with 0 if and only if there is none.
  lemma ReaderAgrees(configured: set<string>, hash: string -> nat, es: seq<Event>, index: string -> Option<int>,
                     symbol: string)
    requires ValidRun(Initial(configured), hash, es)
    ensures var m := Run(Initial(configured), hash, es).market;
            var h := HolderAfter(m.stream, index);
            && h.securities.Keys == m.securities.Keys
            && (forall id :: id in m.securities ==> h.securities[id].symbol == m.securities[id].symbol)
            && (symbol in m.ids ==> RefData.SymbolId(h, symbol) == m.ids[symbol])
            && (RefData.SymbolId(h, symbol) == 0 <==> symbol !in m.ids)
  {
    RunKeepsAgreement(Initial(configured), hash, es, index);
  }
}
