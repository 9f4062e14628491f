// What fills, updates, replies and the clock leave of an order, and for whom
// they report.
module GatewayFrames {
  import opened Common
  import opened OrderBook
  import opened GatewayModel
  import opened GatewayRuns
  import RefData

  // What the strategy asked for, and with it the deadline of an IOC order.
  predicate SameRequest(s: OrderState, s': OrderState) {
    && s'.requestedQty == s.requestedQty && s'.pendingOrderType == s.pendingOrderType && s'.side == s.side
    && s'.isIoc == s.isIoc && s'.createdAt == s.createdAt
  }

  // An order that is still live has its client id, its asset and its request.
  ghost predicate SameIfLive(b: Book, b': Book, c: string) {
    b'.Live(c) ==>
      && b.Live(c) && b'.cloidToClient[c] == b.cloidToClient[c] && SameRequest(b.StateOf(c), b'.StateOf(c))
      && (c in b'.cloidToAsset <==> c in b.cloidToAsset)
      && (c in b.cloidToAsset ==> b'.cloidToAsset[c] == b.cloidToAsset[c])
  }

  // No order comes to life and none changes hands.
  ghost predicate Keeps(b: Book, b': Book) {
    && (forall c :: SameIfLive(b, b', c))
    && (forall k :: k in b'.clientToCloid ==> k in b.clientToCloid && b'.clientToCloid[k] == b.clientToCloid[k])
  }

  // A report of an order carries the client id the order has in the book, twice
  // over, or none; nothing is sent to the exchange.
  predicate ForItsOrder(o: Output, b: Book) {
    match o
    case Exec(c, cause, client, orig, _, _, _, _, _, _, _, _, _, _, _) =>
      cause != EntryReject && orig == client && client in {"", b.ClientOf(c)}
    case CancelRejected(c, client, orig, _, _) => orig == client && client in {"", b.ClientOf(c)}
    case PlaceSent(_, _, _, _, _, _, _) => false
    case ModifySent(_, _, _, _, _, _, _) => false
    case CancelSent(_, _, _) => false
    case _ => true
  }

  ghost predicate AllForTheirOrders(outs: seq<Output>, b: Book) {
    forall i :: 0 <= i < |outs| ==> ForItsOrder(outs[i], b)
  }

  // From the book `b` and a log of `start` entries on, everything went so.
  ghost predicate Fair(w: World, b: Book, start: nat) {
    && Keeps(b, w.book) && start <= |w.log|
    && forall i :: start <= i < |w.log| ==> ForItsOrder(w.log[i], b)
  }

  lemma EmitFair(w: World, o: Output, b: Book, start: nat)
    requires Fair(w, b, start) && ForItsOrder(o, b)
    ensures Fair(Emit(w, o), b, start)
  {
    var log := w.log + [o];
    assert log[|w.log|] == o;
    assert forall i :: 0 <= i < |w.log| ==> log[i] == w.log[i];
  }

  lemma AppendFair(w: World, outs: seq<Output>, b: Book, start: nat)
    requires Fair(w, b, start) && AllForTheirOrders(outs, b)
    ensures Fair(w.(log := w.log + outs), b, start)
  {
    var log := w.log + outs;
    forall i | start <= i < |log| ensures ForItsOrder(log[i], b) {
      if i >= |w.log| {
        assert log[i] == outs[i - |w.log|];
      }
    }
  }

  // What a live order is called now it was called before.
  lemma Named(b: Book, b': Book, c: string)
    requires Keeps(b, b')
    ensures b'.ClientOf(c) in {"", b.ClientOf(c)}
  {
    assert SameIfLive(b, b', c);
  }

  lemma KeepsMore(b: Book, b1: Book, b2: Book)
    requires Keeps(b, b1) && Keeps(b1, b2)
    ensures Keeps(b, b2)
  {
    forall c ensures SameIfLive(b, b2, c) {
      assert SameIfLive(b1, b2, c) && SameIfLive(b, b1, c);
    }
  }

  lemma BookFair(w: World, b': Book, b: Book, start: nat)
    requires Fair(w, b, start) && Keeps(w.book, b')
    ensures Fair(w.(book := b'), b, start)
  {
    KeepsMore(b, w.book, b');
  }

  lemma RemoveKeeps(b: Book, c: string)
    ensures Keeps(b, b.RemoveOrder(c))
  {
    forall d ensures SameIfLive(b, b.RemoveOrder(c), d) {
    }
  }

  lemma RemoveFair(w: World, c: string, b: Book, start: nat)
    requires Fair(w, b, start)
    ensures Fair(Remove(w, c), b, start)
  {
    RemoveKeeps(w.book, c);
    BookFair(w, w.book.RemoveOrder(c), b, start);
  }

  // --- fills and timeouts -------------------------------------------------

  lemma ApplyKeeps(b: Book, c: string, size: int)
    ensures Keeps(b, b.ApplyFill(c, size))
  {
    forall d ensures SameIfLive(b, b.ApplyFill(c, size), d) {
    }
  }

  lemma EmitFillFair(w: World, f: Fill, cloid: string, b: Book, start: nat)
    requires Fair(w, b, start)
    ensures Fair(EmitFill(w, f, w.book.ClientOf(cloid), cloid), b, start)
  {
    var client := w.book.ClientOf(cloid);
    var applied := w.book.ApplyFill(cloid, f.sz);
    var o := FillReport(w, f, client, cloid, applied.StateOf(cloid));
    Named(b, w.book, cloid);
    ApplyKeeps(w.book, cloid, f.sz);
    BookFair(w, applied, b, start);
    EmitFair(w.(book := applied), o, b, start);
    RemoveFair(Emit(w.(book := applied), o), cloid, b, start);
  }

  // An oid that leads nowhere is called nothing.
  lemma EmitFillOfOidFair(w: World, f: Fill, oid: nat, b: Book, start: nat)
    requires Fair(w, b, start)
    ensures Fair(EmitFill(w, f, w.book.ClientOfOid(oid), w.book.CloidOfOid(oid)), b, start)
  {
    if oid in w.book.oidToCloid {
      EmitFillFair(w, f, w.book.oidToCloid[oid], b, start);
    } else {
      var applied := w.book.ApplyFill("", f.sz);
      var o := FillReport(w, f, "", "", applied.StateOf(""));
      ApplyKeeps(w.book, "", f.sz);
      BookFair(w, applied, b, start);
      EmitFair(w.(book := applied), o, b, start);
      RemoveFair(Emit(w.(book := applied), o), "", b, start);
    }
  }

  lemma {:induction false} ReplayFair(w: World, fills: seq<Fill>, oid: nat, b: Book, start: nat)
    requires Fair(w, b, start)
    ensures Fair(ReplayEach(w, fills, oid), b, start)
    decreases |fills|
  {
    if fills != [] {
      EmitFillOfOidFair(w, fills[0], oid, b, start);
      ReplayFair(EmitFill(w, fills[0], w.book.ClientOfOid(oid), w.book.CloidOfOid(oid)), fills[1..], oid, b, start);
    }
  }

  lemma TimeOutFair(w: World, c: string, b: Book, start: nat)
    requires Fair(w, b, start)
    ensures Fair(TimeOutOrder(w, c), b, start)
  {
    if c in w.book.cloidToState && w.book.ClientOf(c) != "" {
      Named(b, w.book, c);
      EmitFair(w, TimeoutReport(w.book, c), b, start);
      RemoveFair(Emit(w, TimeoutReport(w.book, c)), c, b, start);
    }
  }

  lemma {:induction false} TimeOutsFair(w: World, due: seq<string>, b: Book, start: nat)
    requires Fair(w, b, start)
    ensures Fair(TimeOutOrders(w, due), b, start)
    decreases |due|
  {
    if due != [] {
      TimeOutFair(w, due[0], b, start);
      TimeOutsFair(TimeOutOrder(w, due[0]), due[1..], b, start);
    }
  }

  lemma ExpiredFair(buffered: seq<BufferedFill>, now: int, b: Book)
    ensures AllForTheirOrders(ExpiredLog(buffered, now), b)
  {
  }

  lemma ClearedFair(buffered: seq<BufferedFill>, b: Book)
    ensures AllForTheirOrders(ClearedLog(buffered), b)
  {
  }

  lemma CheckTimeoutsFair(w: World, now: int, order: seq<string>, b: Book, start: nat)
    requires Fair(w, b, start)
    ensures Fair(CheckTimeouts(w, now, order), b, start)
  {
    ExpiredFair(w.buffered, now, b);
    AppendFair(w, ExpiredLog(w.buffered, now), b, start);
    TimeOutsFair(ExpireFills(w, now), DueOrders(w.book, w.iocTimeoutSecs, order, now), b, start);
  }

  // --- updates and replies ------------------------------------------------

  lemma OpenedKeeps(b: Book, u: Update, securityId: int)
    ensures Keeps(b, OpenedBook(b, u, securityId))
  {
    forall c ensures SameIfLive(b, OpenedBook(b, u, securityId), c) {
    }
  }

  lemma ReportUpdateFair(w: World, u: Update, b: Book, start: nat)
    requires Fair(w, b, start)
    ensures Fair(ReportUpdate(w, u), b, start)
  {
    var w' := Emit(w, UpdateReport(w, u));
    if w.book.ClientOf(u.cloid) != "" {
      Named(b, w.book, u.cloid);
      EmitFair(w, UpdateReport(w, u), b, start);
      if u.status == ExOpen {
        ReplayFair(w'.(buffered := FillsNotOf(w'.buffered, u.oid)), FillsOf(w'.buffered, u.oid), u.oid, b, start);
      } else {
        RemoveFair(w', u.cloid, b, start);
      }
    }
  }

  lemma CloseFilledFair(w: World, u: Update, b: Book, start: nat)
    requires Fair(w, b, start)
    ensures Fair(CloseFilled(w, u), b, start)
  {
    Named(b, w.book, u.cloid);
    EmitFair(w, PartialCloseReport(w, u), b, start);
    RemoveFair(w, u.cloid, b, start);
    RemoveFair(Emit(w, PartialCloseReport(w, u)), u.cloid, b, start);
  }

  lemma TakeOtherFair(w: World, u: Update, b: Book, start: nat)
    requires Fair(w, b, start)
    ensures Fair(TakeOther(w, u), b, start)
  {
    var registered := w.(book := w.book.RegisterOid(u.oid, u.cloid));
    forall c ensures SameIfLive(w.book, registered.book, c) {
    }
    BookFair(w, registered.book, b, start);
    if registered.book.IsActiveOid(u.oid, u.cloid) {
      if u.status == ExFilled {
        CloseFilledFair(registered, u, b, start);
      } else {
        ReportUpdateFair(registered, u, b, start);
      }
    }
  }

  lemma OrderUpdateFair(w: World, u: Update, now: int, order: seq<string>, b: Book, start: nat)
    requires Fair(w, b, start)
    ensures Fair(OnOrderUpdate(w, u, now, order), b, start)
  {
    CheckTimeoutsFair(w, now, order, b, start);
    var checked := CheckTimeouts(w, now, order);
    if u.status == ExOpen {
      var book := OpenedBook(checked.book, u, RefData.SymbolId(checked.ref, u.coin));
      OpenedKeeps(checked.book, u, RefData.SymbolId(checked.ref, u.coin));
      BookFair(checked, book, b, start);
      ReportUpdateFair(checked.(book := book), u, b, start);
    } else {
      TakeOtherFair(checked, u, b, start);
    }
  }

  lemma UserFillFair(w: World, f: Fill, now: int, order: seq<string>, b: Book, start: nat)
    requires Fair(w, b, start)
    ensures Fair(OnUserFill(w, f, now, order), b, start)
  {
    if !f.isSnapshot {
      CheckTimeoutsFair(w, now, order, b, start);
      var checked := CheckTimeouts(w, now, order);
      EmitFillOfOidFair(checked, f, f.oid, b, start);
    }
  }

  lemma RejectFair(w: World, p: Pending, text: string, b: Book, start: nat)
    requires Fair(w, b, start)
    ensures Fair(RejectPlace(w, p, text), b, start)
  {
    Named(b, w.book, p.cloid);
    EmitFair(w, RejectReport(w.book, PlaceReject, p, text), b, start);
    RemoveFair(Emit(w, RejectReport(w.book, PlaceReject, p, text)), p.cloid, b, start);
  }

  lemma {:induction false} RejectItemsFair(w: World, p: Pending, items: seq<ReplyItem>, b: Book, start: nat)
    requires Fair(w, b, start)
    ensures Fair(RejectPlaceItems(w, p, items), b, start)
    decreases |items|
  {
    if items != [] {
      if items[0].ItemError? && w.book.ClientOf(p.cloid) != "" {
        RejectFair(w, p, items[0].text, b, start);
        RejectItemsFair(RejectPlace(w, p, items[0].text), p, items[1..], b, start);
      } else {
        RejectItemsFair(w, p, items[1..], b, start);
      }
    }
  }

  lemma PlaceReplyFair(w0: World, r: Reply, corr: Option<nat>, b: Book, start: nat)
    requires Fair(w0, b, start)
    ensures Fair(OnPlaceReply(w0, r, corr), b, start)
  {
    var w := w0.(pendingPlaces := Drop(w0.pendingPlaces, corr));
    RejectFair(w, Take(w0.pendingPlaces, corr), r.status, b, start);
    RejectItemsFair(w, Take(w0.pendingPlaces, corr), r.items, b, start);
  }

  lemma ModifyReplyFair(w0: World, r: Reply, corr: Option<nat>, b: Book, start: nat)
    requires Fair(w0, b, start)
    ensures Fair(OnModifyReply(w0, r, corr), b, start)
  {
    var w := w0.(pendingModifies := Drop(w0.pendingModifies, corr));
    var p := Take(w0.pendingModifies, corr);
    Named(b, w.book, p.cloid);
    EmitFair(w, RejectReport(w.book, AmendReject, p, r.status), b, start);
  }

  lemma CancelItemsFair(b: Book, p: Pending, items: seq<ReplyItem>)
    ensures AllForTheirOrders(CancelItemRejects(b, p, items), b)
  {
  }

  lemma CancelReplyFair(w: World, r: Reply, corr: Option<nat>)
    ensures Fair(OnCancelReply(w, r, corr), w.book, |w.log|)
  {
    var w' := w.(pendingCancels := Drop(w.pendingCancels, corr));
    var p := Take(w.pendingCancels, corr);
    CancelItemsFair(w.book, p, r.items);
    AppendFair(w', CancelItemRejects(w.book, p, r.items), w.book, |w.log|);
    EmitFair(w', CancelRejectReport(w.book, p, r.status), w.book, |w.log|);
  }

  predicate IsRequest(e: Event) {
    e.NewOrder? || e.AmendOrder? || e.CancelOrder?
  }

  // Whatever is no request of the strategy brings no order to life, changes no
  // client id, asset or request of one, sends nothing, and reports under the
  // client id the order had.
  lemma StepFair(w: World, e: Event)
    requires !IsRequest(e)
    ensures Fair(Step(w, e), w.book, |w.log|)
  {
    match e {
      case OrderUpdate(u, now, order) => OrderUpdateFair(w, u, now, order, w.book, |w.log|);
      case UserFill(f, now, order) => UserFillFair(w, f, now, order, w.book, |w.log|);
      case PlaceReply(r, corr) => PlaceReplyFair(w, r, corr, w.book, |w.log|);
      case ModifyReply(r, corr) => ModifyReplyFair(w, r, corr, w.book, |w.log|);
      case CancelReply(r, corr) => CancelReplyFair(w, r, corr);
      case Disconnected =>
        ClearedFair(w.buffered, w.book);
        AppendFair(w, ClearedLog(w.buffered), w.book, |w.log|);
      case _ =>
    }
  }
}
