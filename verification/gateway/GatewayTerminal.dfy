// What ends an order is the last that is reported for it: the steps that keep
// it so.
module GatewayTerminal {
  import opened Common
  import opened OrderBook
  import opened GatewayModel
  import opened GatewayRuns
  import opened GatewayCoherence
  import RefData

  // An execution report for the order `c`.
  predicate About(o: Output, c: string) {
    o.Exec? && o.cloid == c
  }

  // An amend reject leaves the order in place, so it ends nothing. A complete
  // fill ends an order only when `filledEnds`.
  predicate Ends(o: Output, c: string, filledEnds: bool) {
    && About(o, c)
    && (o.status == CANCELLED || (o.status == REJECTED && o.cause != AmendReject) || (filledEnds && o.status == FILLED))
  }

  // In the log from `start` on, nothing is reported after an end; there is no
  // end; there is no report.
  ghost predicate NothingAfterEnd(log: seq<Output>, start: nat, c: string, filledEnds: bool) {
    forall i, j :: start <= i < j < |log| && Ends(log[i], c, filledEnds) ==> !About(log[j], c)
  }

  ghost predicate NoEnd(log: seq<Output>, start: nat, c: string, filledEnds: bool) {
    forall i :: start <= i < |log| ==> !Ends(log[i], c, filledEnds)
  }

  ghost predicate NoReport(log: seq<Output>, start: nat, c: string) {
    forall i :: start <= i < |log| ==> !About(log[i], c)
  }

  // What a run is watched for: an order, whether a complete fill ends it,
  // whether it is not alive and must stay so, and the log to begin with.
  datatype Watch = Watch(cloid: string, filledEnds: bool, dead: bool, base: seq<Output>)

  ghost predicate Inv(w: World, k: Watch) {
    && k.cloid != "" && k.base <= w.log
    && NothingAfterEnd(w.log, |k.base|, k.cloid, k.filledEnds)
    && (w.book.Live(k.cloid) ==> NoEnd(w.log, |k.base|, k.cloid, k.filledEnds))
    && (k.dead ==> !w.book.Live(k.cloid) && NoReport(w.log, |k.base|, k.cloid))
  }

  // A place request for the order failed as a whole.
  predicate PlaceFails(w: World, e: Event, c: string) {
    && e.PlaceReply? && e.reply.status != "ok" && e.reply.items == []
    && e.corr.Some? && e.corr.value in w.pendingPlaces && w.pendingPlaces[e.corr.value].cloid == c
  }

  // The event brings the order to life.
  predicate Enters(w: World, e: Event, c: string) {
    e.NewOrder? && e.cloid == c && Accepts(w, e.request)
  }

  predicate NotIoc(w: World, c: string) {
    !w.book.StateOf(c).isIoc
  }

  // The order is not IOC in any state of the run.
  ghost predicate NeverIoc(w: World, es: seq<Event>, c: string)
    decreases |es|
  {
    NotIoc(w, c) && (es != [] ==> NeverIoc(Step(w, es[0]), es[1..], c))
  }

  // --- appending to the log -----------------------------------------------

  lemma AppendSilent(w: World, outs: seq<Output>, k: Watch)
    requires Inv(w, k) && NoReport(outs, 0, k.cloid)
    ensures Inv(w.(log := w.log + outs), k)
  {
    var log := w.log + outs;
    assert forall i :: 0 <= i < |w.log| ==> log[i] == w.log[i];
    assert forall i :: |w.log| <= i < |log| ==> log[i] == outs[i - |w.log|];
  }

  lemma EmitOpen(w: World, o: Output, k: Watch)
    requires Inv(w, k) && (About(o, k.cloid) ==> w.book.Live(k.cloid)) && !Ends(o, k.cloid, k.filledEnds)
    ensures Inv(Emit(w, o), k)
  {
    var log := w.log + [o];
    assert forall i :: 0 <= i < |w.log| ==> log[i] == w.log[i];
    assert log[|w.log|] == o;
  }

  lemma EmitAndRemove(w: World, o: Output, d: string, k: Watch)
    requires Inv(w, k) && (About(o, k.cloid) ==> w.book.Live(k.cloid) && d == k.cloid)
    ensures Inv(Remove(Emit(w, o), d), k)
  {
    var log := w.log + [o];
    assert forall i :: 0 <= i < |w.log| ==> log[i] == w.log[i];
    assert log[|w.log|] == o;
  }

  // --- the events ---------------------------------------------------------

  lemma EmitFillInv(w: World, f: Fill, client: string, cloid: string, k: Watch)
    requires Inv(w, k) && (k.filledEnds ==> NotIoc(w, k.cloid))
    requires if client == "" then cloid == "" else client == w.book.ClientOf(cloid)
    ensures Inv(EmitFill(w, f, client, cloid), k)
    ensures NotIoc(w, k.cloid) ==> NotIoc(EmitFill(w, f, client, cloid), k.cloid)
  {
    var w1 := w.(book := w.book.ApplyFill(cloid, f.sz));
    var s := w1.book.StateOf(cloid);
    var o := FillReport(w, f, client, cloid, s);
    if s.origSz - s.cumQty <= 0 && !s.isIoc {
      EmitAndRemove(w1, o, cloid, k);
    } else {
      EmitOpen(w1, o, k);
    }
  }

  // An oid that leads nowhere, or to an order with a client id. A fill that
  // completes the order takes the oid away with it.
  predicate LeadsToLive(b: Book, oid: nat) {
    oid in b.oidToCloid ==> b.ClientOf(b.oidToCloid[oid]) != ""
  }

  lemma EmitFillLeads(w: World, f: Fill, oid: nat)
    requires LeadsToLive(w.book, oid)
    ensures LeadsToLive(EmitFill(w, f, w.book.ClientOfOid(oid), w.book.CloidOfOid(oid)).book, oid)
  {
  }

  lemma {:induction false} ReplayEachInv(w: World, fills: seq<Fill>, oid: nat, k: Watch)
    requires Inv(w, k) && (k.filledEnds ==> NotIoc(w, k.cloid)) && LeadsToLive(w.book, oid)
    ensures Inv(ReplayEach(w, fills, oid), k)
    decreases |fills|
  {
    if fills != [] {
      var client, cloid := w.book.ClientOfOid(oid), w.book.CloidOfOid(oid);
      EmitFillInv(w, fills[0], client, cloid, k);
      EmitFillLeads(w, fills[0], oid);
      ReplayEachInv(EmitFill(w, fills[0], client, cloid), fills[1..], oid, k);
    }
  }

  lemma {:induction false} TimeOutOrdersInv(w: World, due: seq<string>, k: Watch)
    requires Inv(w, k)
    ensures Inv(TimeOutOrders(w, due), k)
    ensures NotIoc(w, k.cloid) ==> NotIoc(TimeOutOrders(w, due), k.cloid)
    decreases |due|
  {
    if due != [] {
      if Known(w, due[0]) {
        EmitAndRemove(w, TimeoutReport(w.book, due[0]), due[0], k);
      }
      TimeOutOrdersInv(TimeOutOrder(w, due[0]), due[1..], k);
    }
  }

  predicate Known(w: World, c: string) {
    c in w.book.cloidToState && w.book.ClientOf(c) != ""
  }

  lemma ExpiredLogSilent(buffered: seq<BufferedFill>, now: int, c: string)
    ensures NoReport(ExpiredLog(buffered, now), 0, c)
  {
  }

  lemma CheckTimeoutsInv(w: World, now: int, order: seq<string>, k: Watch)
    requires Inv(w, k)
    ensures Inv(CheckTimeouts(w, now, order), k)
    ensures NotIoc(w, k.cloid) ==> NotIoc(CheckTimeouts(w, now, order), k.cloid)
  {
    ExpiredLogSilent(w.buffered, now, k.cloid);
    AppendSilent(w, ExpiredLog(w.buffered, now), k);
    TimeOutOrdersInv(ExpireFills(w, now), DueOrders(w.book, w.iocTimeoutSecs, order, now), k);
  }

  lemma ReportUpdateInv(w: World, u: Update, k: Watch)
    requires Inv(w, k) && (k.filledEnds ==> NotIoc(w, k.cloid)) && u.status != ExFilled
    requires w.book.CloidOfOid(u.oid) == u.cloid
    ensures Inv(ReportUpdate(w, u), k)
  {
    var o := UpdateReport(w, u);
    if w.book.ClientOf(u.cloid) == "" {
    } else if u.status == ExOpen {
      EmitOpen(w, o, k);
      var w' := Emit(w, o);
      ReplayEachInv(w'.(buffered := FillsNotOf(w'.buffered, u.oid)), FillsOf(w'.buffered, u.oid), u.oid, k);
    } else {
      EmitAndRemove(w, o, u.cloid, k);
    }
  }

  lemma CloseFilledInv(w: World, u: Update, k: Watch)
    requires Inv(w, k) && w.book.CloidOfOid(u.oid) == u.cloid && (u.cloid == "" ==> !w.book.Live(""))
    ensures Inv(CloseFilled(w, u), k)
  {
    if w.book.ClientOf(u.cloid) != "" {
      EmitAndRemove(w, PartialCloseReport(w, u), u.cloid, k);
    }
  }

  lemma OrderUpdateInv(w0: World, u: Update, now: int, order: seq<string>, k: Watch)
    requires Inv(w0, k) && (k.filledEnds ==> NotIoc(w0, k.cloid)) && !w0.book.Live("")
    ensures Inv(OnOrderUpdate(w0, u, now, order), k)
  {
    CheckTimeoutsInv(w0, now, order, k);
    var w := CheckTimeouts(w0, now, order);
    StillNotLive(ExpireFills(w0, now), DueOrders(w0.book, w0.iocTimeoutSecs, order, now), "");
    if u.status == ExOpen {
      ReportUpdateInv(w.(book := OpenedBook(w.book, u, RefData.SymbolId(w.ref, u.coin))), u, k);
    } else {
      var registered := w.(book := w.book.RegisterOid(u.oid, u.cloid));
      if !registered.book.IsActiveOid(u.oid, u.cloid) {
      } else if u.status == ExFilled {
        CloseFilledInv(registered, u, k);
      } else {
        ReportUpdateInv(registered, u, k);
      }
    }
  }

  lemma {:induction false} RejectPlaceItemsInv(w: World, p: Pending, items: seq<ReplyItem>, k: Watch)
    requires Inv(w, k)
    ensures Inv(RejectPlaceItems(w, p, items), k)
    decreases |items|
  {
    if items != [] {
      if items[0].ItemError? && w.book.ClientOf(p.cloid) != "" {
        EmitAndRemove(w, RejectReport(w.book, PlaceReject, p, items[0].text), p.cloid, k);
        RejectPlaceItemsInv(RejectPlace(w, p, items[0].text), p, items[1..], k);
      } else {
        RejectPlaceItemsInv(w, p, items[1..], k);
      }
    }
  }

  lemma PlaceReplyInv(w0: World, r: Reply, corr: Option<nat>, k: Watch)
    requires Inv(w0, k) && (PlaceFails(w0, PlaceReply(r, corr), k.cloid) ==> w0.book.Live(k.cloid))
    ensures Inv(OnPlaceReply(w0, r, corr), k)
  {
    var p := Take(w0.pendingPlaces, corr);
    var w := w0.(pendingPlaces := Drop(w0.pendingPlaces, corr));
    if r.status != "ok" && r.items == [] {
      if p.cloid != "" {
        EmitAndRemove(w, RejectReport(w.book, PlaceReject, p, r.status), p.cloid, k);
      }
    } else {
      RejectPlaceItemsInv(w, p, r.items, k);
    }
  }

  lemma CancelItemsSilent(b: Book, p: Pending, items: seq<ReplyItem>, c: string)
    ensures NoReport(CancelItemRejects(b, p, items), 0, c)
  {
  }

  lemma ClearedLogSilent(buffered: seq<BufferedFill>, c: string)
    ensures NoReport(ClearedLog(buffered), 0, c)
  {
  }

  // What requests write is a report for no order.
  lemma NewOrderInv(w: World, r: OrderRequest, cloid: string, now: int, k: Watch)
    requires Inv(w, k)
    requires Accepts(w, r) && cloid == k.cloid ==> !k.dead && NoReport(w.log, |k.base|, k.cloid)
    ensures Inv(OnNewOrder(w, r, cloid, now), k)
  {
    var w' := OnNewOrder(w, r, cloid, now);
    if w'.log != w.log {
      AppendSilent(w, [w'.log[|w.log|]], k);
    }
  }

  lemma AmendOrderInv(w: World, r: OrderRequest, now: int, k: Watch)
    requires Inv(w, k)
    ensures Inv(OnAmendOrder(w, r, now), k)
  {
    var w' := OnAmendOrder(w, r, now);
    if w'.log != w.log {
      AppendSilent(w, [w'.log[|w.log|]], k);
    }
  }

  lemma CancelOrderInv(w: World, c: CancelRequest, k: Watch)
    requires Inv(w, k)
    ensures Inv(OnCancelOrder(w, c), k)
  {
    var w' := OnCancelOrder(w, c);
    CancelOrderSilent(w, c, k.cloid);
    if w'.log != w.log {
      AppendSilent(w, [w'.log[|w.log|]], k);
    }
  }

  lemma CancelOrderSilent(w: World, c: CancelRequest, cloid: string)
    requires cloid != ""
    ensures var w' := OnCancelOrder(w, c);
            && w'.book == w.book
            && (w'.log == w.log || (|w'.log| == |w.log| + 1 && w'.log == w.log + [w'.log[|w.log|]]
                                    && !About(w'.log[|w.log|], cloid)))
  {
  }

  lemma ModifyReplyInv(w: World, r: Reply, corr: Option<nat>, k: Watch)
    requires Inv(w, k)
    ensures Inv(OnModifyReply(w, r, corr), k)
  {
    var w' := w.(pendingModifies := Drop(w.pendingModifies, corr));
    var p := Take(w.pendingModifies, corr);
    if r.status != "ok" && p.cloid != "" && w'.book.ClientOf(p.cloid) != "" {
      EmitOpen(w', RejectReport(w'.book, AmendReject, p, r.status), k);
    }
  }

  lemma CancelReplyInv(w: World, r: Reply, corr: Option<nat>, k: Watch)
    requires Inv(w, k)
    ensures Inv(OnCancelReply(w, r, corr), k)
  {
    var w' := w.(pendingCancels := Drop(w.pendingCancels, corr));
    var p := Take(w.pendingCancels, corr);
    CancelItemsSilent(w'.book, p, r.items, k.cloid);
    AppendSilent(w', CancelItemRejects(w'.book, p, r.items), k);
    EmitOpen(w', CancelRejectReport(w'.book, p, r.status), k);
  }

  lemma UserFillInv(w: World, f: Fill, now: int, order: seq<string>, k: Watch)
    requires Inv(w, k) && (k.filledEnds ==> NotIoc(w, k.cloid))
    ensures Inv(OnUserFill(w, f, now, order), k)
  {
    if !f.isSnapshot {
      CheckTimeoutsInv(w, now, order, k);
      var w' := CheckTimeouts(w, now, order);
      if w'.book.ClientOfOid(f.oid) != "" {
        EmitFillInv(w', f, w'.book.ClientOfOid(f.oid), w'.book.CloidOfOid(f.oid), k);
      }
    }
  }

  // Every event keeps the invariant, but for a place request that fails as a
  // whole when its order is gone.
  lemma StepInv(w: World, seen: set<string>, e: Event, k: Watch)
    requires Inv(w, k) && (k.filledEnds ==> NotIoc(w, k.cloid)) && Coherent(w.book, seen)
    requires Enters(w, e, k.cloid) ==> !k.dead && NoReport(w.log, |k.base|, k.cloid)
    requires PlaceFails(w, e, k.cloid) ==> w.book.Live(k.cloid)
    ensures Inv(Step(w, e), k)
  {
    match e {
      case NewOrder(r, cloid, now) => NewOrderInv(w, r, cloid, now, k);
      case AmendOrder(r, now) => AmendOrderInv(w, r, now, k);
      case CancelOrder(c) => CancelOrderInv(w, c, k);
      case OrderUpdate(u, now, order) => OrderUpdateInv(w, u, now, order, k);
      case UserFill(f, now, order) => UserFillInv(w, f, now, order, k);
      case PlaceReply(r, corr) => PlaceReplyInv(w, r, corr, k);
      case ModifyReply(r, corr) => ModifyReplyInv(w, r, corr, k);
      case CancelReply(r, corr) => CancelReplyInv(w, r, corr, k);
      case Disconnected =>
        ClearedLogSilent(w.buffered, k.cloid);
        AppendSilent(w, ClearedLog(w.buffered), k);
      case _ =>
    }
  }
}
