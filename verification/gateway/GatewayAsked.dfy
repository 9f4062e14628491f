// That the exchange is sent what the strategy asked for, and the strategy told
// of what it asked.
module GatewayAsked {
  import opened Common
  import opened OrderBook
  import opened GatewayModel
  import opened GatewayRuns
  import opened GatewayCoherence
  import opened GatewayFrames
  import opened GatewayOutcomes
  import LastWord = GatewayLastWord
  import RefData

  // --- what was asked -----------------------------------------------------

  // The strategy gave the order its client id.
  predicate Orders(e: Event, c: string, client: string) {
    e.NewOrder? && e.cloid == c && e.request.clientOrderId == client
  }

  ghost predicate Ordered(es: seq<Event>, c: string, client: string) {
    exists e :: e in es && Orders(e, c, client)
  }

  // A place or modify request says what the strategy's request says.
  predicate SaysAsAsked(o: Output, r: OrderRequest)
    requires o.PlaceSent? || o.ModifySent?
  {
    && (o.isBuy <==> r.side == Buy) && o.price == r.price && o.size == r.quantity
    && (o.tif == Ioc <==> r.orderType == Market)
    && (o.tif == Alo <==> r.orderType != Market && r.postOnly)
  }

  // Entry `o` of the log goes back to events of the strategy: what was sent was
  // asked for, for the order that has the client id; a report goes to the client
  // id its order was given, or refuses a request by its own.
  ghost predicate GoesBack(o: Output, es: seq<Event>) {
    match o
    case PlaceSent(_, c, _, _, _, _, _) =>
      exists e :: e in es && e.NewOrder? && e.cloid == c && SaysAsAsked(o, e.request)
    case ModifySent(_, c, _, _, _, _, _) =>
      exists e :: e in es && e.AmendOrder? && SaysAsAsked(o, e.request) && Ordered(es, c, e.request.clientOrderId)
    case CancelSent(_, c, _) =>
      exists e :: e in es && e.CancelOrder? && Ordered(es, c, e.cancel.origClientOrderId)
    case Exec(c, EntryReject, client, orig, id, status, side, _, reason, price, qty, _, _, _, _) =>
      && client == "" && status == REJECTED && reason == CONNECTION_OFFLINE
      && exists e :: e in es && Refuses(e, orig, id, side, price, qty)
    case Exec(c, _, client, orig, _, _, _, _, _, _, _, _, _, _, _) =>
      orig == client && (client != "" ==> Ordered(es, c, client))
    case CancelRejected(c, client, orig, id, _) =>
      if c == "" then client == "" && (orig == "" || exists e :: e in es && AsksCancel(e, orig, id))
      else orig == client && (client != "" ==> Ordered(es, c, client))
    case _ => true
  }

  predicate Refuses(e: Event, client: string, id: int, side: Side, price: int, qty: int) {
    && e.NewOrder? && e.request.clientOrderId == client && e.request.securityId == id && e.request.side == side
    && e.request.price == price && e.request.quantity == qty
  }

  predicate AsksCancel(e: Event, client: string, id: int) {
    e.CancelOrder? && e.cancel.origClientOrderId == client && e.cancel.securityId == id
  }

  lemma OrderedMore(es: seq<Event>, e: Event, c: string, client: string)
    requires Ordered(es, c, client)
    ensures Ordered(es + [e], c, client)
  {
    var x :| x in es && Orders(x, c, client);
    assert x in es + [e];
  }

  lemma GoesBackMore(o: Output, es: seq<Event>, e: Event)
    requires GoesBack(o, es)
    ensures GoesBack(o, es + [e])
  {
    assert forall x :: x in es ==> x in es + [e];
    assert forall c, client :: Ordered(es, c, client) ==> Ordered(es + [e], c, client);
  }

  // --- what was sent last -------------------------------------------------

  // The latest request sent for an order.
  function LastSend(log: seq<Output>, c: string): Option<Output>
    ensures var s := LastSend(log, c); s.Some? ==> s.value.PlaceSent? || s.value.ModifySent?
    decreases |log|
  {
    if log == [] then None
    else
      var last := log[|log| - 1];
      if (last.PlaceSent? || last.ModifySent?) && last.cloid == c then Some(last) else LastSend(log[..|log| - 1], c)
  }

  // The asset the order was placed for.
  function PlacedFor(log: seq<Output>, c: string): Option<Asset>
    decreases |log|
  {
    if log == [] then None
    else
      var last := log[|log| - 1];
      if last.PlaceSent? && last.cloid == c then Some(last.asset) else PlacedFor(log[..|log| - 1], c)
  }

  predicate IsSend(o: Output) {
    o.PlaceSent? || o.ModifySent? || o.CancelSent?
  }

  lemma SentMore(log: seq<Output>, o: Output, c: string)
    ensures LastSend(log + [o], c) ==
            if (o.PlaceSent? || o.ModifySent?) && o.cloid == c then Some(o) else LastSend(log, c)
    ensures PlacedFor(log + [o], c) == if o.PlaceSent? && o.cloid == c then Some(o.asset) else PlacedFor(log, c)
  {
    assert (log + [o])[..|log + [o]| - 1] == log;
  }

  lemma {:induction false} NothingSent(log: seq<Output>, longer: seq<Output>, c: string)
    requires log <= longer && forall i :: |log| <= i < |longer| ==> !IsSend(longer[i])
    ensures LastSend(longer, c) == LastSend(log, c) && PlacedFor(longer, c) == PlacedFor(log, c)
    decreases |longer|
  {
    if |log| == |longer| {
      assert log == longer;
    } else {
      var n := |longer| - 1;
      assert longer == longer[..n] + [longer[n]];
      SentMore(longer[..n], longer[n], c);
      NothingSent(log, longer[..n], c);
    }
  }

  // A live order has been sent, and its state is that of the latest request.
  ghost predicate AsSent(b: Book, log: seq<Output>, c: string) {
    b.Live(c) ==>
      && LastSend(log, c).Some? && PlacedFor(log, c).Some?
      && b.StateOf(c).requestedQty == LastSend(log, c).value.size
      && (b.StateOf(c).side == Buy <==> LastSend(log, c).value.isBuy)
      && (b.StateOf(c).isIoc <==> LastSend(log, c).value.tif == Ioc)
      && c in b.cloidToAsset && b.cloidToAsset[c] == PlacedFor(log, c).value
  }

  // --- one event ----------------------------------------------------------

  ghost predicate OrdersOf(b: Book, es: seq<Event>) {
    forall c :: b.Live(c) ==> Ordered(es, c, b.cloidToClient[c])
  }

  ghost predicate AllGoBack(log: seq<Output>, es: seq<Event>) {
    forall i :: 0 <= i < |log| ==> GoesBack(log[i], es)
  }

  ghost predicate AllAsSent(b: Book, log: seq<Output>) {
    forall c :: AsSent(b, log, c)
  }

  ghost predicate History(w: World, es: seq<Event>) {
    OrdersOf(w.book, es) && AllGoBack(w.log, es) && AllAsSent(w.book, w.log)
  }

  lemma FairGoesBack(o: Output, b: Book, es: seq<Event>)
    requires ForItsOrder(o, b) && OrdersOf(b, es) && !b.Live("")
    ensures GoesBack(o, es)
  {
    if o.Exec? && o.clientOrderId != "" {
      assert b.Live(o.cloid);
    }
    if o.CancelRejected? && o.clientOrderId != "" {
      assert b.Live(o.cloid);
    }
  }

  lemma FairKeepsHistory(w: World, w': World, seen: set<string>, es: seq<Event>, e: Event)
    requires History(w, es) && Coherent(w.book, seen) && Fair(w', w.book, |w.log|) && w.log <= w'.log
    ensures History(w', es + [e])
  {
    forall i | 0 <= i < |w'.log| ensures GoesBack(w'.log[i], es + [e]) {
      if i >= |w.log| {
        FairGoesBack(w'.log[i], w.book, es);
      } else {
        assert w'.log[i] == w.log[i];
      }
      GoesBackMore(w'.log[i], es, e);
    }
    forall c | w'.book.Live(c) ensures Ordered(es + [e], c, w'.book.cloidToClient[c]) {
      assert SameIfLive(w.book, w'.book, c);
      OrderedMore(es, e, c, w.book.cloidToClient[c]);
    }
    forall c ensures AsSent(w'.book, w'.log, c) {
      assert SameIfLive(w.book, w'.book, c) && AsSent(w.book, w.log, c);
      assert forall i :: |w.log| <= i < |w'.log| ==> ForItsOrder(w'.log[i], w.book);
      NothingSent(w.log, w'.log, c);
    }
  }

  // One more entry that goes back to the events.
  lemma LogKeepsHistory(log: seq<Output>, o: Output, es: seq<Event>, e: Event)
    requires AllGoBack(log, es) && GoesBack(o, es + [e])
    ensures AllGoBack(log + [o], es + [e])
  {
    forall i | 0 <= i < |log + [o]| ensures GoesBack((log + [o])[i], es + [e]) {
      if i < |log| {
        assert (log + [o])[i] == log[i];
        GoesBackMore(log[i], es, e);
      }
    }
  }

  lemma OrdersOfMore(b: Book, es: seq<Event>, e: Event)
    requires OrdersOf(b, es)
    ensures OrdersOf(b, es + [e])
  {
    forall c | b.Live(c) ensures Ordered(es + [e], c, b.cloidToClient[c]) {
      OrderedMore(es, e, c, b.cloidToClient[c]);
    }
  }

  lemma QuietKeepsAsSent(b: Book, log: seq<Output>, o: Output)
    requires AllAsSent(b, log) && !o.PlaceSent? && !o.ModifySent?
    ensures AllAsSent(b, log + [o])
  {
    forall c ensures AsSent(b, log + [o], c) {
      assert AsSent(b, log, c);
      SentMore(log, o, c);
    }
  }

  // A new order the handler does not take on.
  lemma RefusedKeepsHistory(w: World, es: seq<Event>, e: Event)
    requires History(w, es) && e.NewOrder? && !Accepts(w, e.request)
    ensures History(Step(w, e), es + [e])
  {
    OrdersOfMore(w.book, es, e);
    if w.isReplay {
      forall i | 0 <= i < |w.log| ensures GoesBack(w.log[i], es + [e]) {
        GoesBackMore(w.log[i], es, e);
      }
    } else {
      var o := EntryRejectReport(e.request);
      assert e in es + [e] && Refuses(e, o.origClientOrderId, o.securityId, o.side, o.price, o.orderQty);
      assert GoesBack(o, es + [e]);
      LogKeepsHistory(w.log, o, es, e);
      QuietKeepsAsSent(w.book, w.log, o);
    }
  }

  lemma EnteredAsSent(b: Book, log: seq<Output>, e: Event, id: nat, asset: Asset)
    requires e.NewOrder? && AllAsSent(b, log)
    ensures var r := e.request; var tif := MapTif(r.orderType, r.postOnly);
            AllAsSent(EnteredBook(b, r, e.cloid, asset, e.now),
                      log + [PlaceSent(id, e.cloid, asset, r.side == Buy, r.price, r.quantity, tif)])
  {
    var r := e.request;
    var o := PlaceSent(id, e.cloid, asset, r.side == Buy, r.price, r.quantity, MapTif(r.orderType, r.postOnly));
    var b' := EnteredBook(b, r, e.cloid, asset, e.now);
    forall c ensures AsSent(b', log + [o], c) {
      SentMore(log, o, c);
      assert AsSent(b, log, c);
    }
  }

  lemma EnteredKeepsHistory(w: World, es: seq<Event>, e: Event)
    requires History(w, es) && e.NewOrder? && Accepts(w, e.request)
    ensures History(Step(w, e), es + [e])
  {
    var r := e.request;
    var asset := AssetOf(w.ref.securities[r.securityId]).value;
    var o := PlaceSent(w.nextCorrelationId, e.cloid, asset, r.side == Buy, r.price, r.quantity,
                       MapTif(r.orderType, r.postOnly));
    var w' := Step(w, e);
    assert e in es + [e];
    assert GoesBack(o, es + [e]);
    LogKeepsHistory(w.log, o, es, e);
    EnteredAsSent(w.book, w.log, e, w.nextCorrelationId, asset);
    assert Orders(e, e.cloid, r.clientOrderId);
    OrdersOfMore(w.book, es, e);
    forall c | w'.book.Live(c) ensures Ordered(es + [e], c, w'.book.cloidToClient[c]) {
      if c != e.cloid {
        assert w.book.Live(c);
      }
    }
  }

  lemma AmendedAsSent(b: Book, log: seq<Output>, e: Event, c: string, id: nat, asset: Asset)
    requires e.AmendOrder? && AllAsSent(b, log)
    ensures var r := e.request; var tif := MapTif(r.orderType, r.postOnly);
            AllAsSent(AmendedBook(b, r, c, e.now),
                      log + [ModifySent(id, c, asset, r.side == Buy, r.price, r.quantity, tif)])
  {
    var r := e.request;
    var o := ModifySent(id, c, asset, r.side == Buy, r.price, r.quantity, MapTif(r.orderType, r.postOnly));
    forall d ensures AsSent(AmendedBook(b, r, c, e.now), log + [o], d) {
      SentMore(log, o, d);
      assert AsSent(b, log, d);
    }
  }

  // The amend is sent.
  predicate Amends(w: World, e: Event) {
    && e.AmendOrder? && Accepts(w, e.request) && e.request.clientOrderId in w.book.clientToCloid
  }

  lemma AmendGoesBack(b: Book, o: Output, es: seq<Event>, e: Event)
    requires OrdersOf(b, es) && e.AmendOrder? && o.ModifySent? && SaysAsAsked(o, e.request)
    requires b.Live(o.cloid) && b.cloidToClient[o.cloid] == e.request.clientOrderId
    ensures GoesBack(o, es + [e])
  {
    OrderedMore(es, e, o.cloid, b.cloidToClient[o.cloid]);
    assert e in es + [e];
  }

  lemma AmendIs(w: World, e: Event, c: string, asset: Asset)
    requires Amends(w, e) && c == w.book.clientToCloid[e.request.clientOrderId]
    requires asset == AssetOf(w.ref.securities[e.request.securityId]).value
    ensures var r := e.request; var tif := MapTif(r.orderType, r.postOnly);
            && Step(w, e).book == AmendedBook(w.book, r, c, e.now)
            && Step(w, e).log ==
               w.log + [ModifySent(w.nextCorrelationId, c, asset, r.side == Buy, r.price, r.quantity, tif)]
  {
  }

  lemma AmendKeepsHistory(w: World, seen: set<string>, es: seq<Event>, e: Event)
    requires History(w, es) && Coherent(w.book, seen) && Amends(w, e)
    ensures History(Step(w, e), es + [e])
  {
    var r := e.request;
    var c := w.book.clientToCloid[r.clientOrderId];
    var asset := AssetOf(w.ref.securities[r.securityId]).value;
    var o := ModifySent(w.nextCorrelationId, c, asset, r.side == Buy, r.price, r.quantity,
                        MapTif(r.orderType, r.postOnly));
    AmendIs(w, e, c, asset);
    AmendGoesBack(w.book, o, es, e);
    LogKeepsHistory(w.log, o, es, e);
    AmendedAsSent(w.book, w.log, e, c, w.nextCorrelationId, asset);
    OrdersOfMore(w.book, es, e);
    assert OrdersOf(AmendedBook(w.book, r, c, e.now), es + [e]);
  }

  lemma CancelSentGoesBack(b: Book, id: nat, c: string, asset: Asset, es: seq<Event>, e: Event)
    requires OrdersOf(b, es) && e.CancelOrder? && b.Live(c) && b.cloidToClient[c] == e.cancel.origClientOrderId
    ensures GoesBack(CancelSent(id, c, asset), es + [e])
  {
    OrderedMore(es, e, c, b.cloidToClient[c]);
    assert e in es + [e];
  }

  lemma CancelRefusedGoesBack(es: seq<Event>, e: Event)
    requires e.CancelOrder?
    ensures GoesBack(OfflineCancelReject(e.cancel), es + [e])
  {
    assert e in es + [e] && AsksCancel(e, e.cancel.origClientOrderId, e.cancel.securityId);
  }

  lemma CancelLogs(w: World, seen: set<string>, es: seq<Event>, e: Event)
    requires OrdersOf(w.book, es) && Coherent(w.book, seen) && e.CancelOrder? && !w.isReplay
    ensures var w' := Step(w, e);
            && w'.book == w.book && |w'.log| == |w.log| + 1 && w'.log == w.log + [w'.log[|w.log|]]
            && !w'.log[|w.log|].PlaceSent? && !w'.log[|w.log|].ModifySent?
            && GoesBack(w'.log[|w.log|], es + [e])
  {
    var client := e.cancel.origClientOrderId;
    if w.connected && client in w.book.clientToCloid && w.book.clientToCloid[client] in w.book.cloidToAsset {
      var c := w.book.clientToCloid[client];
      CancelSentGoesBack(w.book, w.nextCorrelationId, c, w.book.cloidToAsset[c], es, e);
    } else {
      CancelRefusedGoesBack(es, e);
    }
  }

  lemma CancelKeepsHistory(w: World, seen: set<string>, es: seq<Event>, e: Event)
    requires History(w, es) && Coherent(w.book, seen) && e.CancelOrder? && !w.isReplay
    ensures History(Step(w, e), es + [e])
  {
    var o := Step(w, e).log[|w.log|];
    OrdersOfMore(w.book, es, e);
    CancelLogs(w, seen, es, e);
    LogKeepsHistory(w.log, o, es, e);
    QuietKeepsAsSent(w.book, w.log, o);
  }

  lemma NothingKeepsHistory(w: World, es: seq<Event>, e: Event)
    requires History(w, es)
    ensures History(w, es + [e])
  {
    OrdersOfMore(w.book, es, e);
    forall i | 0 <= i < |w.log| ensures GoesBack(w.log[i], es + [e]) {
      GoesBackMore(w.log[i], es, e);
    }
  }

  lemma StepKeepsHistory(w: World, seen: set<string>, es: seq<Event>, e: Event)
    requires History(w, es) && Coherent(w.book, seen)
    ensures History(Step(w, e), es + [e])
  {
    if e.NewOrder? {
      if Accepts(w, e.request) {
        EnteredKeepsHistory(w, es, e);
      } else {
        RefusedKeepsHistory(w, es, e);
      }
    } else if e.AmendOrder? {
      if Amends(w, e) {
        AmendKeepsHistory(w, seen, es, e);
      } else {
        NothingKeepsHistory(w, es, e);
      }
    } else if e.CancelOrder? {
      if w.isReplay {
        NothingKeepsHistory(w, es, e);
      } else {
        CancelKeepsHistory(w, seen, es, e);
      }
    } else {
      StepFair(w, e);
      LastWord.StepGrows(w, e);
      FairKeepsHistory(w, Step(w, e), seen, es, e);
    }
  }

  // --- runs ---------------------------------------------------------------

  lemma {:induction false} RunKeepsHistory(w: World, seen: set<string>, es: seq<Event>, past: seq<Event>)
    requires History(w, past) && Coherent(w.book, seen) && ValidRun(w, seen, es)
    ensures History(Run(w, es), past + es)
    decreases |es|
  {
    if es == [] {
      assert past + es == past;
    } else {
      StepKeepsHistory(w, seen, past, es[0]);
      StepCoherent(w, seen, es[0]);
      RunKeepsHistory(Step(w, es[0]), seen + Mentions(es[0]), es[1..], past + [es[0]]);
      HeadMoves(past, es);
    }
  }

  // Over every run: what is sent to the exchange the strategy asked for, price,
  // size, side and time in force, under the cloid its client id stands for; every
  // report that names an order names the client id it was entered with; a
  // refusal names the request refused.
  lemma EveryEntryGoesBack(iocTimeoutSecs: int, es: seq<Event>, i: nat)
    requires ValidRun(Initial(iocTimeoutSecs), SEEN_INITIALLY, es)
    requires i < |Run(Initial(iocTimeoutSecs), es).log|
    ensures GoesBack(Run(Initial(iocTimeoutSecs), es).log[i], es)
  {
    RunKeepsHistory(Initial(iocTimeoutSecs), SEEN_INITIALLY, es, []);
    assert [] + es == es;
  }

  // Over every run: a live order is tracked with the size, side and kind of the
  // request sent last for it, and with the asset it was placed for.
  lemma LiveAsSent(iocTimeoutSecs: int, es: seq<Event>, c: string)
    requires ValidRun(Initial(iocTimeoutSecs), SEEN_INITIALLY, es)
    requires Run(Initial(iocTimeoutSecs), es).book.Live(c)
    ensures var w := Run(Initial(iocTimeoutSecs), es); var sent := LastSend(w.log, c);
            && sent.Some? && w.book.StateOf(c).requestedQty == sent.value.size
            && (w.book.StateOf(c).side == Buy <==> sent.value.isBuy)
            && (w.book.StateOf(c).isIoc <==> sent.value.tif == Ioc)
            && c in w.book.cloidToAsset && PlacedFor(w.log, c) == Some(w.book.cloidToAsset[c])
  {
    RunKeepsHistory(Initial(iocTimeoutSecs), SEEN_INITIALLY, es, []);
    assert AsSent(Run(Initial(iocTimeoutSecs), es).book, Run(Initial(iocTimeoutSecs), es).log, c);
  }

  // Over every run: an Open of an order that outlives the timeout check is
  // acknowledged with the larger of the size sent last for it and the size the
  // exchange tells, all of it open.
  lemma OpenAnnouncesSent(iocTimeoutSecs: int, es: seq<Event>, e: Event)
    requires ValidRun(Initial(iocTimeoutSecs), SEEN_INITIALLY, es) && e.OrderUpdate? && e.update.status == ExOpen
    requires CheckTimeouts(Run(Initial(iocTimeoutSecs), es), e.now, e.order).book.ClientOf(e.update.cloid) != ""
    ensures var w, u := Run(Initial(iocTimeoutSecs), es), e.update;
            var n, log := |CheckTimeouts(w, e.now, e.order).log|, Step(w, e).log;
            && LastSend(w.log, u.cloid).Some? && n < |log| && SaysUpdate(log[n], CheckTimeouts(w, e.now, e.order), u)
            && log[n].status == NEW
            && var size := AnnouncedSize(LastSend(w.log, u.cloid).value.size, u);
               size > 0 ==> SaysQuantities(log[n], size, 0, size)
  {
    var w, u := Run(Initial(iocTimeoutSecs), es), e.update;
    var checked := CheckTimeouts(w, e.now, e.order);
    CheckTimeoutsFair(w, e.now, e.order, w.book, |w.log|) by {
      assert forall c :: SameIfLive(w.book, w.book, c);
    }
    assert SameIfLive(w.book, checked.book, u.cloid);
    LiveAsSent(iocTimeoutSecs, es, u.cloid);
    OpenOutcome(checked, u);
  }
}
