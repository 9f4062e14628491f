// The state of the Deribit processor, told from the messages of the session.
module DeribitHistory {
  import opened Common
  import opened Registry
  import opened Stream
  import opened Reading
  import opened DeribitModel
  import opened DeribitRuns
  import opened DeribitFeed

  // --- which instruments are taken ----------------------------------------

  // The text starts with `head`, and `mark` follows it for the first time.
  predicate Heads(head: string, mark: string, text: string)
    requires mark != []
  {
    head + mark <= text && forall k :: 0 <= k < |head| ==> !(mark <= text[k..])
  }

  lemma HeadsAtUsdc(symbol: string)
    requires Contains(symbol, "_USDC")
    ensures Heads(Underlying(symbol), "_USDC", symbol)
  {
    FoundText(symbol, "_USDC");
    var i := FindText(symbol, "_USDC");
    assert symbol == symbol[..i] + symbol[i..];
  }

  lemma HeadsAtDash(symbol: string)
    requires !Contains(symbol, "_USDC")
    ensures if '-' in symbol then Heads(Underlying(symbol), "-", symbol) else Underlying(symbol) == symbol
  {
    Found(symbol, '-');
    var i := Find(symbol, '-');
    if '-' in symbol {
      assert symbol == symbol[..i] + symbol[i..];
      assert forall k :: 0 <= k < i ==> symbol[k] in symbol[..i];
    } else {
      assert i == |symbol|;
    }
  }

  // The underlying of an instrument is what stands before its first "_USDC", or
  // else before its first '-'.
  lemma UnderlyingHeads(symbol: string)
    ensures var u := Underlying(symbol);
            if exists k :: 0 <= k < |symbol| && "_USDC" <= symbol[k..] then Heads(u, "_USDC", symbol)
            else if '-' in symbol then Heads(u, "-", symbol)
            else u == symbol
  {
    FoundText(symbol, "_USDC");
    if Contains(symbol, "_USDC") {
      HeadsAtUsdc(symbol);
      var i := FindText(symbol, "_USDC");
      assert "_USDC" <= symbol[i..];
    } else {
      HeadsAtDash(symbol);
    }
  }

  predicate IsUsdcPerpetual(l: Listed) {
    Contains(l.symbol, "_USDC") && l.settlType == "0"
  }

  // What an answer contributes: to a request for perpetuals the perpetuals of
  // the currencies configured, and to any other all but the USDC perpetuals, once
  // the former has been seen. Of the spot instruments only BTC in USDC.
  predicate Takes(perpRequest: bool, currencies: set<string>, l: Listed) {
    && (l.isSpot ==> Contains(l.symbol, "BTC_USDC"))
    && (if perpRequest then l.settlType == "0" && Underlying(l.symbol) in currencies
        else currencies == {} || !IsUsdcPerpetual(l))
  }

  predicate Lists(listed: seq<Listed>, perpRequest: bool, currencies: set<string>, symbol: string) {
    exists i :: 0 <= i < |listed| && listed[i].symbol == symbol && Takes(perpRequest, currencies, listed[i])
  }

  // --- the history --------------------------------------------------------

  // The list requests seen since the latest logon and not answered.
  function Outstanding(es: seq<Event>): set<string>
    decreases |es|
  {
    if es == [] then {}
    else
      var before, last := es[..|es| - 1], es[|es| - 1];
      match last
      case ListRequest(reqId, _, _) => Outstanding(before) + {reqId}
      case SecurityList(reqId, _, _) => Outstanding(before) - {reqId}
      case Logon(_, _) => {}
      case _ => Outstanding(before)
  }

  // The link is up once the last outstanding request is answered.
  function Link(es: seq<Event>): Connection
    decreases |es|
  {
    if es == [] then NoConnection
    else
      var before, last := es[..|es| - 1], es[|es| - 1];
      match last
      case SecurityList(_, _, _) => if Outstanding(es) == {} then ConnectionOnline else Link(before)
      case Logon(_, _) => Starting
      case Logout(_, _) => ConnectionOffline
      case _ => Link(before)
  }

  // The requests for the perpetuals of the configured currencies.
  function PerpRequests(es: seq<Event>, configured: set<string>): set<string>
    decreases |es|
  {
    if es == [] || configured == {} then {}
    else
      var before, last := es[..|es| - 1], es[|es| - 1];
      PerpRequests(before, configured)
      + (if last.ListRequest? && last.securityType == Some("FUT") && !last.hasCurrency then {last.reqId} else {})
  }

  function Currencies(es: seq<Event>, configured: set<string>): set<string> {
    if PerpRequests(es, configured) == {} then {} else configured
  }

  // Where a symbol stands: not known, waiting for a book, or online.
  function Standing(es: seq<Event>, configured: set<string>, symbol: string): Option<Status>
    decreases |es|
  {
    if es == [] then None
    else
      var before, last := es[..|es| - 1], es[|es| - 1];
      match last
      case Snapshot(_, _, _) =>
        if IsBook(last, symbol) && Standing(before, configured, symbol).Some? then Some(Online)
        else Standing(before, configured, symbol)
      case SecurityList(reqId, _, listed) =>
        if Lists(listed, reqId in PerpRequests(before, configured), Currencies(before, configured), symbol)
        then Some(PendingSnapshot) else Standing(before, configured, symbol)
      case Logon(_, _) => if Link(before) == ConnectionOnline then None else Standing(before, configured, symbol)
      case Logout(_, _) => None
      case _ => Standing(before, configured, symbol)
  }

  // --- the processor keeps to it ------------------------------------------

  ghost predicate Stands(m: Market, symbol: string, standing: Option<Status>) {
    && (symbol in m.ids <==> standing.Some?)
    && (symbol in m.ids ==> StatusOf(m, m.ids[symbol]) == standing.value)
  }

  ghost predicate AsTold(d: Deribit, past: seq<Event>, configured: set<string>) {
    && d.configured == configured && d.pending == Outstanding(past) && d.perpOnly == PerpRequests(past, configured)
    && d.perpCurrencies == Currencies(past, configured) && d.market.connection == Link(past)
  }

  lemma DefineStands(m: Market, hash: string -> nat, listed: string, time: int, symbol: string)
    requires Inverse(m) && |m.securities| < MAX_ID
    ensures var m' := Define(m, hash, listed, time);
            if symbol == listed then Stands(m', symbol, Some(PendingSnapshot))
            else forall s :: Stands(m, symbol, s) ==> Stands(m', symbol, s)
  {
    CreateKeepsInverse(m, hash, listed);
    var made := WithSecurity(m, hash, listed);
    if symbol in m.ids && symbol != listed {
      assert m.ids[symbol] != made.ids[listed];
    }
  }

  lemma DefineIsInverse(m: Market, hash: string -> nat, symbol: string, time: int)
    requires Inverse(m) && |m.securities| < MAX_ID
    ensures Inverse(Define(m, hash, symbol, time))
  {
    CreateKeepsInverse(m, hash, symbol);
    var made := WithSecurity(m, hash, symbol);
    SetStatusKeepsInverse(Emit(made, SecurityAdded(made.ids[symbol], time, symbol, symbol)), made.ids[symbol], time,
                          PendingSnapshot);
  }

  lemma ListsRest(listed: seq<Listed>, perpRequest: bool, currencies: set<string>, symbol: string)
    requires listed != []
    ensures Lists(listed, perpRequest, currencies, symbol) <==>
            (listed[0].symbol == symbol && Takes(perpRequest, currencies, listed[0]))
            || Lists(listed[1..], perpRequest, currencies, symbol)
  {
    if Lists(listed, perpRequest, currencies, symbol) {
      var i :| 0 <= i < |listed| && listed[i].symbol == symbol && Takes(perpRequest, currencies, listed[i]);
      assert i > 0 ==> listed[1..][i - 1] == listed[i];
    }
    if Lists(listed[1..], perpRequest, currencies, symbol) {
      var rest := listed[1..];
      var i :| 0 <= i < |rest| && rest[i].symbol == symbol && Takes(perpRequest, currencies, rest[i]);
      assert listed[i + 1] == rest[i];
    }
  }

  lemma {:induction false} DefineAllStands(m: Market, hash: string -> nat, perpRequest: bool, currencies: set<string>,
                                           time: int, listed: seq<Listed>, symbol: string, standing: Option<Status>)
    requires Inverse(m) && |m.securities| + |listed| <= MAX_ID && Stands(m, symbol, standing)
    ensures Stands(DefineAll(m, hash, perpRequest, currencies, time, listed), symbol,
                   if Lists(listed, perpRequest, currencies, symbol) then Some(PendingSnapshot) else standing)
    decreases |listed|
  {
    if listed != [] {
      ListsRest(listed, perpRequest, currencies, symbol);
      var taken := Takes(perpRequest, currencies, listed[0]);
      assert taken <==> Wanted(perpRequest, currencies, listed[0]);
      if taken {
        DefineStands(m, hash, listed[0].symbol, time, symbol);
        DefineIsInverse(m, hash, listed[0].symbol, time);
        DefineGrowsByOne(m, hash, listed[0].symbol, time);
        var m' := Define(m, hash, listed[0].symbol, time);
        DefineAllStands(m', hash, perpRequest, currencies, time, listed[1..], symbol,
                        if listed[0].symbol == symbol then Some(PendingSnapshot) else standing);
      } else {
        DefineAllStands(m, hash, perpRequest, currencies, time, listed[1..], symbol, standing);
      }
    }
  }

  lemma {:induction false} DefineAllKeepsConnection(m: Market, hash: string -> nat, perpRequest: bool,
                                                    currencies: set<string>, time: int, listed: seq<Listed>)
    ensures DefineAll(m, hash, perpRequest, currencies, time, listed).connection == m.connection
    decreases |listed|
  {
    if listed != [] {
      var m' := if Wanted(perpRequest, currencies, listed[0]) then Define(m, hash, listed[0].symbol, time) else m;
      DefineAllKeepsConnection(m', hash, perpRequest, currencies, time, listed[1..]);
    }
  }

  lemma ListAsTold(d: Deribit, hash: string -> nat, e: Event, past: seq<Event>, configured: set<string>)
    requires AsTold(d, past, configured) && e.SecurityList?
    ensures AsTold(Step(d, hash, e), past + [e], configured)
  {
    assert (past + [e])[..|past + [e]| - 1] == past;
    DefineAllKeepsConnection(d.market, hash, e.reqId in d.perpOnly, d.perpCurrencies, e.time, e.listed);
  }

  // What other messages leave of what a session is made of.
  lemma OtherKeeps(d: Deribit, hash: string -> nat, e: Event)
    requires !e.SecurityList? && !e.ListRequest?
    ensures var d' := Step(d, hash, e);
            && d' == d.(market := d'.market, pending := if e.Logon? then {} else d.pending)
            && d'.market.connection == (if e.Logon? then Starting else if e.Logout? then ConnectionOffline
                                        else d.market.connection)
  {
  }

  lemma OtherInHistory(past: seq<Event>, e: Event, configured: set<string>)
    requires !e.SecurityList? && !e.ListRequest?
    ensures Outstanding(past + [e]) == if e.Logon? then {} else Outstanding(past)
    ensures PerpRequests(past + [e], configured) == PerpRequests(past, configured)
    ensures Link(past + [e]) == if e.Logon? then Starting else if e.Logout? then ConnectionOffline else Link(past)
  {
    var es := past + [e];
    assert es[..|es| - 1] == past && es[|es| - 1] == e;
  }

  lemma OtherAsTold(d: Deribit, hash: string -> nat, e: Event, past: seq<Event>, configured: set<string>)
    requires AsTold(d, past, configured) && !e.SecurityList? && !e.ListRequest?
    ensures AsTold(Step(d, hash, e), past + [e], configured)
  {
    OtherKeeps(d, hash, e);
    OtherInHistory(past, e, configured);
  }

  lemma RequestAsTold(d: Deribit, hash: string -> nat, e: Event, past: seq<Event>, configured: set<string>)
    requires AsTold(d, past, configured) && e.ListRequest?
    ensures AsTold(Step(d, hash, e), past + [e], configured)
  {
    assert (past + [e])[..|past + [e]| - 1] == past;
  }

  lemma StepAsTold(d: Deribit, hash: string -> nat, e: Event, past: seq<Event>, configured: set<string>)
    requires AsTold(d, past, configured)
    ensures AsTold(Step(d, hash, e), past + [e], configured)
  {
    if e.SecurityList? {
      ListAsTold(d, hash, e, past, configured);
    } else if e.ListRequest? {
      RequestAsTold(d, hash, e, past, configured);
    } else {
      OtherAsTold(d, hash, e, past, configured);
    }
  }

  lemma SnapshotStands(m: Market, d: Deribit, e: Event, symbol: string, standing: Option<Status>)
    requires m == d.market && Inverse(m) && m.output && e.Snapshot? && Stands(m, symbol, standing)
    ensures Stands(OnSnapshot(d, e.symbol, e.time, e.entries).market, symbol,
                   if IsBook(e, symbol) && standing.Some? then Some(Online) else standing)
  {
    if e.symbol in m.ids && symbol in m.ids && e.symbol != symbol {
      assert m.ids[e.symbol] != m.ids[symbol];
    }
  }

  lemma ListStands(d: Deribit, hash: string -> nat, e: Event, symbol: string, standing: Option<Status>)
    requires Inverse(d.market) && Accepts(d, e) && e.SecurityList? && Stands(d.market, symbol, standing)
    ensures Stands(OnSecurityList(d, hash, e.reqId, e.time, e.listed).market, symbol,
                   if Lists(e.listed, e.reqId in d.perpOnly, d.perpCurrencies, symbol) then Some(PendingSnapshot)
                   else standing)
  {
    DefineAllStands(d.market, hash, e.reqId in d.perpOnly, d.perpCurrencies, e.time, e.listed, symbol, standing);
  }

  lemma StepStands(d: Deribit, hash: string -> nat, e: Event, past: seq<Event>, configured: set<string>, symbol: string)
    requires Inverse(d.market) && d.market.output && Accepts(d, e) && AsTold(d, past, configured)
    requires Stands(d.market, symbol, Standing(past, configured, symbol))
    ensures Stands(Step(d, hash, e).market, symbol, Standing(past + [e], configured, symbol))
  {
    var standing := Standing(past, configured, symbol);
    assert (past + [e])[..|past + [e]| - 1] == past;
    if e.Snapshot? {
      SnapshotStands(d.market, d, e, symbol, standing);
    } else if e.SecurityList? {
      ListStands(d, hash, e, symbol, standing);
    }
  }

  lemma {:induction false} RunAsTold(d: Deribit, hash: string -> nat, es: seq<Event>, past: seq<Event>,
                                     configured: set<string>)
    requires AsTold(d, past, configured)
    ensures AsTold(Run(d, hash, es), past + es, configured)
    decreases |es|
  {
    if es == [] {
      assert past + es == past;
    } else {
      StepAsTold(d, hash, es[0], past, configured);
      RunAsTold(Step(d, hash, es[0]), hash, es[1..], past + [es[0]], configured);
      HeadMoves(past, es);
    }
  }

  lemma {:induction false} RunStands(d: Deribit, hash: string -> nat, es: seq<Event>, past: seq<Event>,
                                     configured: set<string>, symbol: string)
    requires Orderly(d.market) && ValidRun(d, hash, es) && AsTold(d, past, configured)
    requires Stands(d.market, symbol, Standing(past, configured, symbol))
    ensures Stands(Run(d, hash, es).market, symbol, Standing(past + es, configured, symbol))
    decreases |es|
  {
    if es == [] {
      assert past + es == past;
    } else {
      StepKeepsOrder(d, hash, es[0]);
      StepAsTold(d, hash, es[0], past, configured);
      StepStands(d, hash, es[0], past, configured, symbol);
      RunStands(Step(d, hash, es[0]), hash, es[1..], past + [es[0]], configured, symbol);
      HeadMoves(past, es);
    }
  }

  // Over a whole run: the symbols registered, and the status last sent for each,
  // are those the history gives.
  lemma StatusesFollowHistory(configured: set<string>, hash: string -> nat, es: seq<Event>, symbol: string)
    requires ValidRun(Initial(configured), hash, es)
    ensures var m := Run(Initial(configured), hash, es).market;
            var standing := Standing(es, configured, symbol);
            && (symbol in m.ids <==> standing.Some?)
            && (symbol in m.ids ==> LastStatus(m.stream, m.ids[symbol]) == standing)
  {
    var m := Run(Initial(configured), hash, es).market;
    RunStands(Initial(configured), hash, es, [], configured, symbol);
    RunKeepsOrder(Initial(configured), hash, es);
    assert [] + es == es;
    if symbol in m.ids {
      assert StatusMatches(StatusOf(m, m.ids[symbol]), LastStatus(m.stream, m.ids[symbol]));
      assert m.securities[m.ids[symbol]].status in {PendingSnapshot, Online};
    }
  }

  // --- the connection -----------------------------------------------------

  lemma DefineKeepsTold(m: Market, hash: string -> nat, symbol: string, time: int)
    ensures LastConnection(Define(m, hash, symbol, time).stream) == LastConnection(m.stream)
  {
    var made := WithSecurity(m, hash, symbol);
    if symbol in made.ids {
      var added := SecurityAdded(made.ids[symbol], time, symbol, symbol);
      OneMore(m.stream, added);
      OneMore(Emit(made, added).stream, SecurityStatus(made.ids[symbol], time, PendingSnapshot));
    }
  }

  lemma {:induction false} DefineAllKeepsTold(m: Market, hash: string -> nat, perpRequest: bool,
                                              currencies: set<string>, time: int, listed: seq<Listed>)
    ensures LastConnection(DefineAll(m, hash, perpRequest, currencies, time, listed).stream) == LastConnection(m.stream)
    ensures DefineAll(m, hash, perpRequest, currencies, time, listed).output == m.output
    decreases |listed|
  {
    if listed != [] {
      var m' := if Wanted(perpRequest, currencies, listed[0]) then Define(m, hash, listed[0].symbol, time) else m;
      DefineKeepsTold(m, hash, listed[0].symbol, time);
      DefineAllKeepsTold(m', hash, perpRequest, currencies, time, listed[1..]);
    }
  }

  lemma StepTellsConnection(d: Deribit, hash: string -> nat, e: Event)
    requires Orderly(d.market) && Accepts(d, e) && LastConnection(d.market.stream) == d.market.connection
    ensures var m' := Step(d, hash, e).market; LastConnection(m'.stream) == m'.connection
  {
    var m := d.market;
    match e
    case Snapshot(symbol, time, entries) =>
      if symbol in m.ids && entries != [] && entries[0].kind != Trade {
        var id := m.ids[symbol];
        OverflowIsUpdates(id, time, entries, |entries|);
        ChatterKeepsConnection(m.stream, SnapshotMessages(id, time, entries));
        OneMore(m.stream + SnapshotMessages(id, time, entries), SecurityStatus(id, time, Online));
      }
    case Incremental(symbol, time, entries) =>
      if symbol in m.ids {
        UpdatesAreUpdates(m.ids[symbol], time, entries, |entries|);
        ChatterKeepsConnection(m.stream, UpdatesOf(m.ids[symbol], time, entries));
      }
    case SecurityList(reqId, time, listed) =>
      var perp := reqId in d.perpOnly;
      DefineAllKeepsTold(m, hash, perp, d.perpCurrencies, time, listed);
      DefineAllKeepsConnection(m, hash, perp, d.perpCurrencies, time, listed);
      SetConnectionTells(DefineAll(m, hash, perp, d.perpCurrencies, time, listed), ConnectionOnline, time);
    case Logon(time, order) =>
      InvalidateKeepsOrder(m, time, order);
      SetConnectionTells(if m.connection == ConnectionOnline then Invalidated(m, time, order) else m, Starting, time);
    case Logout(time, order) =>
      InvalidateKeepsOrder(m, time, order);
      SetConnectionTells(Sweep(m, time, order), ConnectionOffline, time);
    case _ =>
  }

  lemma {:induction false} RunTellsConnection(d: Deribit, hash: string -> nat, es: seq<Event>)
    requires Orderly(d.market) && ValidRun(d, hash, es) && LastConnection(d.market.stream) == d.market.connection
    ensures var m' := Run(d, hash, es).market; LastConnection(m'.stream) == m'.connection
    decreases |es|
  {
    if es != [] {
      StepKeepsOrder(d, hash, es[0]);
      StepTellsConnection(d, hash, es[0]);
      RunTellsConnection(Step(d, hash, es[0]), hash, es[1..]);
    }
  }

  // Over a whole run: the connection status last sent is the one the history
  // gives, so ONLINE is sent exactly when the last outstanding list is answered.
  lemma ConnectionFollowsHistory(configured: set<string>, hash: string -> nat, es: seq<Event>)
    requires ValidRun(Initial(configured), hash, es)
    ensures LastConnection(Run(Initial(configured), hash, es).market.stream) == Link(es)
  {
    RunTellsConnection(Initial(configured), hash, es);
    RunAsTold(Initial(configured), hash, es, [], configured);
    assert [] + es == es;
  }
}
