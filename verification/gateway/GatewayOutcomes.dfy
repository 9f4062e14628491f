// What each request, update and fill brings about.
module GatewayOutcomes {
  import opened Common
  import opened OrderBook
  import opened GatewayModel
  import opened GatewayRuns
  import opened GatewayFrames
  import RefData

  // --- requests -----------------------------------------------------------

  // What an instrument is called at the exchange: coins by their symbol,
  // outcomes by a number.
  predicate IsCalled(info: RefData.SecurityInfo, asset: Asset) {
    if info.isPredictionMarket then info.marketIndex.Some? && asset == Outcome(100_000_000 + info.marketIndex.value)
    else asset == Coin(info.symbol)
  }

  predicate Tradable(w: World, securityId: int) {
    && w.connected && securityId in w.ref.securities
    && (w.ref.securities[securityId].isPredictionMarket ==> w.ref.securities[securityId].marketIndex.Some?)
  }

  // The log has one more entry.
  predicate OneMore(w: World, w': World) {
    |w'.log| == |w.log| + 1 && w.log <= w'.log
  }

  // All orders but one are as they were.
  ghost predicate SameOthers(b: Book, b': Book, c: string) {
    forall d :: d != c ==>
      && (b'.Live(d) <==> b.Live(d)) && b'.ClientOf(d) == b.ClientOf(d) && b'.StateOf(d) == b.StateOf(d)
      && (d in b'.cloidToOid <==> d in b.cloidToOid) && (d in b.cloidToOid ==> b'.cloidToOid[d] == b.cloidToOid[d])
  }

  // A new order of an instrument that can be traded is entered under its client
  // id and sent under the next number; any other is refused, except while history
  // is replayed.
  lemma NewOrderOutcome(w: World, e: Event)
    requires e.NewOrder?
    ensures var w' := Step(w, e); var r := e.request; var id := w.nextCorrelationId;
            if w.isReplay then w' == w
            else if !Tradable(w, r.securityId) then
              OneMore(w, w') && w' == w.(log := w'.log) && w'.log[|w.log|].Exec? && w'.log[|w.log|].cause == EntryReject
            else
              && OneMore(w, w') && w' == w.(log := w'.log, book := w'.book, nextCorrelationId := id + 1,
                                            pendingPlaces := w.pendingPlaces[id := Pending(e.cloid, r.securityId)])
              && w'.log[|w.log|].PlaceSent? && w'.log[|w.log|].corr == id && w'.log[|w.log|].cloid == e.cloid
              && IsCalled(w.ref.securities[r.securityId], w'.log[|w.log|].asset)
              && w'.book.ClientOf(e.cloid) == r.clientOrderId && SameOthers(w.book, w'.book, e.cloid)
              && w'.book.clientToCloid == w.book.clientToCloid[r.clientOrderId := e.cloid]
              && w'.book.StateOf(e.cloid).createdAt == e.now
              && w'.book.StateOf(e.cloid).orderType == w'.book.StateOf(e.cloid).pendingOrderType == r.orderType
  {
  }

  // An amend of a known order is sent, and leaves what was filled alone; any
  // other is ignored.
  lemma AmendOrderOutcome(w: World, e: Event)
    requires e.AmendOrder?
    ensures var w' := Step(w, e); var r := e.request; var id := w.nextCorrelationId;
            if w.isReplay || !Tradable(w, r.securityId) || r.clientOrderId !in w.book.clientToCloid then w' == w
            else
              var c := w.book.clientToCloid[r.clientOrderId];
              && OneMore(w, w') && w' == w.(log := w'.log, book := w'.book, nextCorrelationId := id + 1,
                                            pendingModifies := w.pendingModifies[id := Pending(c, r.securityId)])
              && w'.log[|w.log|].ModifySent? && w'.log[|w.log|].corr == id && w'.log[|w.log|].cloid == c
              && IsCalled(w.ref.securities[r.securityId], w'.log[|w.log|].asset)
              && SameOthers(w.book, w'.book, c) && w'.book.ClientOf(c) == w.book.ClientOf(c)
              && w'.book.StateOf(c) == w.book.StateOf(c).(
                   pendingOrderType := r.orderType, requestedQty := r.quantity, side := r.side,
                   isIoc := w'.book.StateOf(c).isIoc, createdAt := e.now)
              && (w'.book.StateOf(c).isIoc <==> r.orderType == Market)
  {
  }

  // A cancel of a known order is sent for the asset it was placed for, and any
  // other refused, except while history is replayed. No order changes.
  lemma CancelOrderOutcome(w: World, e: Event)
    requires e.CancelOrder?
    ensures var w' := Step(w, e); var client := e.cancel.origClientOrderId; var id := w.nextCorrelationId;
            if w.isReplay then w' == w
            else if w.connected && client in w.book.clientToCloid && w.book.clientToCloid[client] in w.book.cloidToAsset
            then
              var c := w.book.clientToCloid[client];
              && OneMore(w, w') && w'.log[|w.log|] == CancelSent(id, c, w.book.cloidToAsset[c])
              && w' == w.(log := w'.log, nextCorrelationId := id + 1,
                          pendingCancels := w.pendingCancels[id := Pending(c, e.cancel.securityId)])
            else
              && OneMore(w, w') && w' == w.(log := w'.log)
              && w'.log[|w.log|] == CancelRejected("", "", client, e.cancel.securityId, "orders_offline")
  {
  }

  // --- updates ------------------------------------------------------------

  // What a report of an update says, whatever its quantities.
  predicate SaysUpdate(o: Output, w: World, u: Update) {
    && o.Exec? && o.cloid == u.cloid && o.clientOrderId == o.origClientOrderId == w.book.ClientOf(u.cloid)
    && o.securityId == RefData.SymbolId(w.ref, u.coin) && o.price == u.limitPx && o.fill.None? && o.text == ""
    && (o.side == Buy <==> u.side == 'B') && (o.side == Sell <==> u.side != 'B')
  }

  predicate SaysStatus(o: Output, status: ExchangeStatus)
    requires o.Exec?
  {
    && (o.status == NEW <==> status in {ExOpen, ExTriggered})
    && (o.status == CANCELLED <==> status in {ExCanceled, ExMarginCanceled})
    && (o.status == REJECTED <==> status in {ExRejected, ExOracleRejected, ExIocCancelRejected, ExOther})
    && (o.reason == OTHER <==> status in {ExRejected, ExOracleRejected, ExIocCancelRejected})
    && o.reason != CONNECTION_OFFLINE
  }

  predicate SaysQuantities(o: Output, orderQty: int, cumQty: int, leavesQty: int)
    requires o.Exec?
  {
    o.orderQty == orderQty && o.cumQty == cumQty && o.leavesQty == leavesQty
  }

  // The larger of the size asked for and the size the exchange tells, but for
  // sizes that are not positive.
  function AnnouncedSize(requestedQty: int, u: Update): int {
    if requestedQty > 0 then Max(requestedQty, u.origSz) else u.origSz
  }

  lemma OpenReport(w: World, u: Update)
    requires u.status == ExOpen
    ensures var op := w.(book := OpenedBook(w.book, u, RefData.SymbolId(w.ref, u.coin))); var o := UpdateReport(op, u);
            var s := w.book.StateOf(u.cloid); var size := AnnouncedSize(s.requestedQty, u);
            && SaysUpdate(o, w, u) && SaysStatus(o, u.status) && o.orderType == s.pendingOrderType
            && (size > 0 ==> SaysQuantities(o, size, 0, size))
            && op.book.ClientOf(u.cloid) == w.book.ClientOf(u.cloid)
  {
  }

  // An Open that finds the order live is reported as NEW with the announced
  // size, all of it open; for an order that is not, nothing is reported.
  lemma OpenOutcome(w: World, u: Update)
    requires u.status == ExOpen
    ensures var w' := TakeOpen(w, u); var s := w.book.StateOf(u.cloid); var size := AnnouncedSize(s.requestedQty, u);
            if w.book.ClientOf(u.cloid) == "" then w' == w.(book := w'.book)
            else
              && |w'.log| > |w.log| && w.log <= w'.log
              && var o := w'.log[|w.log|];
                 && SaysUpdate(o, w, u) && SaysStatus(o, u.status) && o.orderType == s.pendingOrderType
                 && (size > 0 ==> SaysQuantities(o, size, 0, size))
  {
    OpenReport(w, u);
    var op := w.(book := OpenedBook(w.book, u, RefData.SymbolId(w.ref, u.coin)));
    var reported := Emit(op, UpdateReport(op, u));
    ReplayGoesOn(reported.(buffered := FillsNotOf(reported.buffered, u.oid)), FillsOf(reported.buffered, u.oid), u.oid);
  }

  lemma {:induction false} ReplayGoesOn(w: World, fills: seq<Fill>, oid: nat)
    ensures w.log <= ReplayEach(w, fills, oid).log
    decreases |fills|
  {
    if fills != [] {
      ReplayGoesOn(EmitFill(w, fills[0], w.book.ClientOfOid(oid), w.book.CloidOfOid(oid)), fills[1..], oid);
    }
  }

  // The update is about the oid under which the order is active, if any is.
  predicate IsCurrent(w: World, u: Update) {
    u.cloid in w.book.cloidToOid ==> w.book.cloidToOid[u.cloid] == u.oid
  }

  // Fills are missing that the exchange says have happened.
  predicate FillsMissing(s: OrderState) {
    s.origSz > 0 && s.cumQty < s.origSz
  }

  // The report of an update that closes the order.
  predicate SaysClosed(o: Output, w: World, u: Update) {
    var s := w.book.StateOf(u.cloid);
    && SaysUpdate(o, w, u)
    && (if u.status == ExFilled then o.status == CANCELLED && o.reason == NO_REJECT else SaysStatus(o, u.status))
    && (if s.origSz > 0 then SaysQuantities(o, s.origSz, s.cumQty, 0)
        else SaysQuantities(o, u.origSz, u.origSz - u.sz, u.sz))
  }

  // Any other update closes a live order if it is about its active oid: the order
  // is gone after one report, or without one if it was filled and no fill is
  // missing. For a former oid, or an order that is not live, nothing is reported
  // and no live order changes.
  lemma CloseOutcome(w: World, u: Update)
    requires u.status != ExOpen && u.cloid != ""
    ensures var w' := TakeOther(w, u);
            var closes := IsCurrent(w, u) && w.book.ClientOf(u.cloid) != "";
            var told := closes && (u.status == ExFilled ==> FillsMissing(w.book.StateOf(u.cloid)));
            && w' == w.(book := w'.book, log := w'.log)
            && (told ==> OneMore(w, w') && SaysClosed(w'.log[|w.log|], w, u))
            && (!told ==> w'.log == w.log)
            && (closes ==> !w'.book.Live(u.cloid))
            && (!IsCurrent(w, u) ==> w'.book == w.book.RegisterOid(u.oid, u.cloid))
  {
  }

  lemma CloseTouchesNoOther(w: World, u: Update)
    requires u.status != ExOpen
    ensures SameOthers(w.book, TakeOther(w, u).book, u.cloid)
  {
    var b := w.book.RegisterOid(u.oid, u.cloid);
    assert SameOthers(w.book, b, u.cloid);
    RemoveTouchesNoOther(b, u.cloid);
    assert TakeOther(w, u).book in {b, b.RemoveOrder(u.cloid)};
  }

  // --- fills --------------------------------------------------------------

  predicate SaysFill(o: Output, w: World, f: Fill, c: string) {
    && o.Exec? && o.cause == OnFill && o.cloid == c && o.fill == Some(f)
    && o.clientOrderId == o.origClientOrderId == w.book.ClientOf(c)
    && (o.side == Buy <==> f.side == 'B') && (o.side == Sell <==> f.side != 'B')
    && o.orderType == w.book.StateOf(c).orderType
    && o.securityId == (if w.book.StateOf(c).securityId != 0 then w.book.StateOf(c).securityId
                        else RefData.SymbolId(w.ref, f.coin))
    && o.orderQty == w.book.StateOf(c).origSz && o.cumQty == w.book.StateOf(c).cumQty + f.sz
  }

  lemma FillReportSays(w: World, f: Fill, c: string)
    ensures var w' := EmitFill(w, f, w.book.ClientOf(c), c);
            && w' == w.(book := w'.book, log := w'.log) && OneMore(w, w') && SaysFill(w'.log[|w.log|], w, f, c)
  {
  }

  lemma FillBook(w: World, f: Fill, c: string)
    requires w.book.Live(c)
    ensures var b', s := EmitFill(w, f, w.book.ClientOf(c), c).book, w.book.StateOf(c);
            && SameOthers(w.book, b', c)
            && (if s.cumQty + f.sz >= s.origSz && !s.isIoc then !b'.Live(c)
                else && b'.Live(c) && b'.ClientOf(c) == w.book.ClientOf(c)
                     && b'.StateOf(c) == s.(cumQty := s.cumQty + f.sz))
  {
    var b := w.book.ApplyFill(c, f.sz);
    ApplyTouchesNoOther(w.book, c, f.sz);
    RemoveTouchesNoOther(b, c);
    assert b.StateOf(c) == w.book.StateOf(c).(cumQty := w.book.StateOf(c).cumQty + f.sz) && b.Live(c);
    assert EmitFill(w, f, w.book.ClientOf(c), c).book ==
           if b.StateOf(c).origSz - b.StateOf(c).cumQty <= 0 && !b.StateOf(c).isIoc then b.RemoveOrder(c) else b;
  }

  lemma ApplyTouchesNoOther(b: Book, c: string, size: int)
    ensures SameOthers(b, b.ApplyFill(c, size), c)
  {
  }

  lemma RemoveTouchesNoOther(b: Book, c: string)
    ensures SameOthers(b, b.RemoveOrder(c), c) && !b.RemoveOrder(c).Live(c)
  {
  }

  // A fill of a known oid is reported for its order, which is gone after it if
  // it is filled and not IOC; a fill of an unknown oid waits.
  lemma FillOutcome(w: World, f: Fill, now: int)
    ensures var w' := TakeFill(w, f, now);
            if w.book.ClientOfOid(f.oid) == "" then w' == w.(buffered := w.buffered + [BufferedFill(f, now)])
            else
              var c := w.book.CloidOfOid(f.oid); var s := w.book.StateOf(c);
              && w' == w.(book := w'.book, log := w'.log) && OneMore(w, w') && SaysFill(w'.log[|w.log|], w, f, c)
              && SameOthers(w.book, w'.book, c)
              && (if s.cumQty + f.sz >= s.origSz && !s.isIoc then !w'.book.Live(c)
                  else && w'.book.Live(c) && w'.book.ClientOf(c) == w.book.ClientOf(c)
                       && w'.book.StateOf(c) == s.(cumQty := s.cumQty + f.sz))
  {
    if w.book.ClientOfOid(f.oid) != "" {
      FillReportSays(w, f, w.book.CloidOfOid(f.oid));
      FillBook(w, f, w.book.CloidOfOid(f.oid));
    }
  }

  // --- time ---------------------------------------------------------------

  // A waiting fill is stale after five seconds, in nanoseconds.
  lemma StaleIs(b: BufferedFill, now: int)
    ensures Stale(b, now) <==> now - b.bufferedAt >= 5 * 1_000_000_000
  {
  }

  // An IOC order is overdue once the timeout has passed since it was last asked
  // for; readings of the clock are in nanoseconds, the timeout in seconds.
  lemma IocDueIs(b: Book, timeoutSecs: int, c: string, now: int)
    ensures IocDue(b, timeoutSecs, c, now) <==>
            && c in b.cloidToState && b.cloidToState[c].isIoc && b.cloidToState[c].createdAt != 0
            && (if timeoutSecs >= 1 then now - b.cloidToState[c].createdAt >= timeoutSecs * 1_000_000_000
                else b.cloidToState[c].createdAt - now < (1 - timeoutSecs) * 1_000_000_000)
  {
  }

  function StaleOnes(buffered: seq<BufferedFill>, now: int): seq<Fill>
    decreases |buffered|
  {
    if buffered == [] then []
    else
      var last := buffered[|buffered| - 1];
      StaleOnes(buffered[..|buffered| - 1], now)
      + (if now - last.bufferedAt >= 5 * 1_000_000_000 then [last.fill] else [])
  }

  lemma {:induction false} StaleFirst(b: BufferedFill, more: seq<BufferedFill>, now: int)
    ensures StaleOnes([b] + more, now)
            == (if now - b.bufferedAt >= 5 * 1_000_000_000 then [b.fill] else []) + StaleOnes(more, now)
    decreases |more|
  {
    if more == [] {
      assert [b] + more == [b] && [b][..0] == [];
    } else {
      assert ([b] + more)[..|more|] == [b] + more[..|more| - 1];
      StaleFirst(b, more[..|more| - 1], now);
    }
  }

  // The sweep of the waiting fills gives up exactly the stale ones, in order,
  // and keeps exactly the others.
  lemma {:induction false} ExpiryOutcome(buffered: seq<BufferedFill>, now: int)
    ensures var outs, stale := ExpiredLog(buffered, now), StaleOnes(buffered, now);
            |outs| == |stale| && forall i :: 0 <= i < |outs| ==> outs[i] == FillExpired(stale[i])
    ensures forall b :: b in FreshFills(buffered, now) <==> b in buffered && now - b.bufferedAt < 5 * 1_000_000_000
    ensures |FreshFills(buffered, now)| + |ExpiredLog(buffered, now)| == |buffered|
  {
    if buffered != [] {
      StaleIs(buffered[0], now);
      ExpiryOutcome(buffered[1..], now);
      StaleFirst(buffered[0], buffered[1..], now);
      assert buffered == [buffered[0]] + buffered[1..];
    }
  }

  // --- the session --------------------------------------------------------

  lemma {:induction false} ClearedInOrder(buffered: seq<BufferedFill>)
    ensures var outs := ClearedLog(buffered);
            |outs| == |buffered| && forall i :: 0 <= i < |outs| ==> outs[i] == FillCleared(buffered[i].fill)
  {
    if buffered != [] {
      ClearedInOrder(buffered[1..]);
    }
  }

  // A disconnect forgets every request and every waiting fill, and no order.
  lemma DisconnectOutcome(w: World)
    ensures var w' := Step(w, Disconnected); var outs := ClearedLog(w.buffered);
            && w' == w.(connected := false, pendingPlaces := map[], pendingModifies := map[], pendingCancels := map[],
                        buffered := [], log := w.log + outs)
            && |outs| == |w.buffered|
            && forall i :: 0 <= i < |outs| ==> outs[i] == FillCleared(w.buffered[i].fill)
  {
    ClearedInOrder(w.buffered);
  }

  lemma SwitchOutcome(w: World, on: bool)
    ensures Step(w, Connected) == w.(connected := true) && Step(w, ReplayMode(on)) == w.(isReplay := on)
  {
  }

  // --- reference data -----------------------------------------------------

  // After an ADD both names of the security find it, after a REMOVE neither
  // does; all other names are as they were.
  lemma LookupOutcome(h: RefData.Holder, d: RefData.Definition, name: string)
    ensures var h' := RefData.Apply(h, d);
            match d
            case Add(id, info) =>
              && h'.securities == h.securities[id := info]
              && RefData.SymbolId(h', name) == (if name == info.symbol || name == info.marketSymbol then id
                                                else RefData.SymbolId(h, name))
            case Remove(id) =>
              && h'.securities == h.securities - {id}
              && RefData.SymbolId(h', name) ==
                 (if id in h.securities && (name == h.securities[id].symbol || name == h.securities[id].marketSymbol)
                  then 0 else RefData.SymbolId(h, name))
  {
    if d.Remove? && d.id !in h.securities {
      assert h.securities - {d.id} == h.securities;
    }
  }
}
