// The quantities of an order's reports add up.
module GatewayQuantity {
  // A fill report's cumulative quantity is the sum of the fills reported since
  // the order was last acknowledged, against the size that acknowledgement
  // announced.

  import opened Common
  import opened OrderBook
  import opened GatewayModel
  import opened GatewayRuns
  import opened GatewayCoherence
  import opened GatewayTerminal
  import LastWord = GatewayLastWord
  import RefData

  predicate NamesOrder(o: Output, c: string) {
    o.Exec? && o.cloid == c && o.clientOrderId != ""
  }

  predicate IsAck(o: Output, c: string) {
    NamesOrder(o, c) && o.status == NEW
  }

  predicate IsFillOf(o: Output, c: string) {
    NamesOrder(o, c) && o.fill.Some?
  }

  predicate SaysTraded(o: Output, c: string) {
    NamesOrder(o, c) && (o.status == FILLED || o.status == PARTIALLY_FILLED)
  }

  // The fills reported for the order since it was last acknowledged.
  function SumSinceAck(log: seq<Output>, c: string): int {
    if log == [] then 0
    else
      var last, before := log[|log| - 1], log[..|log| - 1];
      if IsAck(last, c) then 0
      else (if IsFillOf(last, c) then last.fill.value.sz else 0) + SumSinceAck(before, c)
  }

  // The size the last acknowledgement announced.
  function AckedSize(log: seq<Output>, c: string): int {
    if log == [] then 0
    else if IsAck(log[|log| - 1], c) then log[|log| - 1].orderQty
    else AckedSize(log[..|log| - 1], c)
  }

  predicate EverAcked(log: seq<Output>, c: string) {
    log != [] && (IsAck(log[|log| - 1], c) || EverAcked(log[..|log| - 1], c))
  }

  // A report that the exchange or the clock closed the order.
  predicate IsClosing(o: Output, c: string) {
    && NamesOrder(o, c) && (o.status == CANCELLED || o.status == REJECTED)
    && (o.cause == OnUpdate || o.cause == PartialClose || o.cause == IocTimeout)
  }

  // It tells what was filled before it, of the size announced, and leaves
  // nothing open. A report the exchange causes for an order without a size takes
  // what the exchange says.
  predicate ClosesAsFilled(o: Output, before: seq<Output>, c: string)
    requires o.Exec?
  {
    EverAcked(before, c) && (o.cause == OnUpdate ==> AckedSize(before, c) > 0) ==>
      o.cumQty == SumSinceAck(before, c) && o.orderQty == AckedSize(before, c) && o.leavesQty == 0
  }

  // What the last entry of the log must say if it is about the order.
  predicate LastAddsUp(log: seq<Output>, c: string)
    requires log != []
  {
    var o := log[|log| - 1];
    && (SaysTraded(o, c) ==> IsFillOf(o, c))
    && (IsAck(o, c) ==>
          o.orderQty == o.cumQty + o.leavesQty && o.fill.None? && (o.orderQty > 0 ==> o.cumQty == 0))
    && (IsFillOf(o, c) ==>
          && o.cumQty == SumSinceAck(log, c)
          && o.orderQty == AckedSize(log, c)
          && o.leavesQty == Max(0, o.orderQty - o.cumQty)
          && (o.cumQty <= o.orderQty ==> o.orderQty == o.cumQty + o.leavesQty)
          && o.status == (if o.cumQty >= o.orderQty then FILLED else PARTIALLY_FILLED))
    && (IsClosing(o, c) ==> ClosesAsFilled(o, log[..|log| - 1], c))
  }

  predicate AddsUp(log: seq<Output>, c: string) {
    log == [] || (AddsUp(log[..|log| - 1], c) && LastAddsUp(log, c))
  }

  // The tracked state of an acknowledged live order agrees with its reports.
  ghost predicate Tracks(b: Book, log: seq<Output>, c: string) {
    b.Live(c) ==>
      if c in b.cloidToOid
      then b.StateOf(c).cumQty == SumSinceAck(log, c) && b.StateOf(c).origSz == AckedSize(log, c)
      else !EverAcked(log, c)
  }

  ghost predicate QuantityInv(w: World, c: string) {
    AddsUp(w.log, c) && Tracks(w.book, w.log, c)
  }

  // --- appending ----------------------------------------------------------

  predicate Neutral(outs: seq<Output>, c: string) {
    forall i :: 0 <= i < |outs| ==>
                  !IsAck(outs[i], c) && !IsFillOf(outs[i], c) && !SaysTraded(outs[i], c) && !IsClosing(outs[i], c)
  }

  lemma AppendOne(log: seq<Output>, o: Output, c: string)
    ensures AddsUp(log + [o], c) == (AddsUp(log, c) && LastAddsUp(log + [o], c))
    ensures SumSinceAck(log + [o], c) ==
            if IsAck(o, c) then 0 else (if IsFillOf(o, c) then o.fill.value.sz else 0) + SumSinceAck(log, c)
    ensures AckedSize(log + [o], c) == if IsAck(o, c) then o.orderQty else AckedSize(log, c)
    ensures EverAcked(log + [o], c) == (IsAck(o, c) || EverAcked(log, c))
  {
    assert (log + [o])[..|log + [o]| - 1] == log;
  }

  lemma {:induction false} AppendNeutral(log: seq<Output>, outs: seq<Output>, c: string)
    requires Neutral(outs, c)
    ensures AddsUp(log + outs, c) == AddsUp(log, c)
    ensures SumSinceAck(log + outs, c) == SumSinceAck(log, c)
    ensures AckedSize(log + outs, c) == AckedSize(log, c)
    ensures EverAcked(log + outs, c) == EverAcked(log, c)
    decreases |outs|
  {
    if outs == [] {
      assert log + outs == log;
    } else {
      AppendOne(log, outs[0], c);
      AppendNeutral(log + [outs[0]], outs[1..], c);
      assert log + [outs[0]] + outs[1..] == log + outs;
    }
  }

  // --- fills --------------------------------------------------------------

  lemma FillReportAddsUp(w: World, f: Fill, client: string, cloid: string, s: OrderState, c: string)
    requires AddsUp(w.log, c)
    requires cloid == c && client != "" ==> s.cumQty == SumSinceAck(w.log, c) + f.sz && s.origSz == AckedSize(w.log, c)
    ensures var log := w.log + [FillReport(w, f, client, cloid, s)];
            && AddsUp(log, c)
            && (cloid == c && client != "" ==> s.cumQty == SumSinceAck(log, c) && s.origSz == AckedSize(log, c))
            && (cloid != c ==> SumSinceAck(log, c) == SumSinceAck(w.log, c) && AckedSize(log, c) == AckedSize(w.log, c))
            && EverAcked(log, c) == EverAcked(w.log, c)
  {
    AppendOne(w.log, FillReport(w, f, client, cloid, s), c);
  }

  lemma EmitFillQuantity(w: World, f: Fill, client: string, cloid: string, c: string)
    requires QuantityInv(w, c) && client == w.book.ClientOf(cloid)
    requires client != "" ==> cloid in w.book.cloidToOid
    requires w.book.Live(cloid) ==> client != ""
    ensures QuantityInv(EmitFill(w, f, client, cloid), c)
  {
    var applied := w.book.ApplyFill(cloid, f.sz);
    var s := applied.StateOf(cloid);
    var log := w.log + [FillReport(w, f, client, cloid, s)];
    FillReportAddsUp(w, f, client, cloid, s, c);
    AppliedTracks(w.book, w.log, log, client, cloid, f.sz, c);
    RemovedTracks(applied, log, cloid, c);
  }

  lemma AppliedTracks(b: Book, before: seq<Output>, after: seq<Output>, client: string, cloid: string, size: int,
                      c: string)
    requires Tracks(b, before, c) && client == b.ClientOf(cloid) && (b.Live(cloid) ==> client != "")
    requires cloid == c && client != "" ==>
               b.ApplyFill(cloid, size).StateOf(c).cumQty == SumSinceAck(after, c)
               && b.ApplyFill(cloid, size).StateOf(c).origSz == AckedSize(after, c)
    requires cloid != c ==>
               SumSinceAck(after, c) == SumSinceAck(before, c) && AckedSize(after, c) == AckedSize(before, c)
    requires EverAcked(after, c) == EverAcked(before, c)
    ensures Tracks(b.ApplyFill(cloid, size), after, c)
  {
  }

  lemma RemovedTracks(b: Book, log: seq<Output>, cloid: string, c: string)
    requires Tracks(b, log, c)
    ensures Tracks(b.RemoveOrder(cloid), log, c)
  {
  }

  lemma {:induction false} ReplayEachQuantity(w: World, seen: set<string>, fills: seq<Fill>, oid: nat, c: string)
    requires QuantityInv(w, c) && Coherent(w.book, seen)
    ensures QuantityInv(ReplayEach(w, fills, oid), c)
    decreases |fills|
  {
    if fills != [] {
      var client, cloid := w.book.ClientOfOid(oid), w.book.CloidOfOid(oid);
      EmitFillQuantity(w, fills[0], client, cloid, c);
      EmitFillCoherent(w, seen, fills[0], client, cloid);
      ReplayEachQuantity(EmitFill(w, fills[0], client, cloid), seen, fills[1..], oid, c);
    }
  }

  // --- removals -----------------------------------------------------------

  lemma CloseQuantity(w: World, o: Output, d: string, c: string)
    requires QuantityInv(w, c) && !IsFillOf(o, c) && !SaysTraded(o, c) && !IsAck(o, c)
    requires IsClosing(o, c) ==> ClosesAsFilled(o, w.log, c)
    ensures QuantityInv(Remove(Emit(w, o), d), c)
  {
    AppendOne(w.log, o, c);
  }

  lemma {:induction false} TimeOutOrdersQuantity(w: World, due: seq<string>, c: string)
    requires QuantityInv(w, c)
    ensures QuantityInv(TimeOutOrders(w, due), c)
    decreases |due|
  {
    if due != [] {
      CloseQuantity(w, TimeoutReport(w.book, due[0]), due[0], c);
      TimeOutOrdersQuantity(TimeOutOrder(w, due[0]), due[1..], c);
    }
  }

  lemma CheckTimeoutsQuantity(w: World, now: int, order: seq<string>, c: string)
    requires QuantityInv(w, c)
    ensures QuantityInv(CheckTimeouts(w, now, order), c)
  {
    ExpiredLogNeutral(w.buffered, now, c);
    AppendNeutral(w.log, ExpiredLog(w.buffered, now), c);
    TimeOutOrdersQuantity(ExpireFills(w, now), DueOrders(w.book, w.iocTimeoutSecs, order, now), c);
  }

  lemma ExpiredLogNeutral(buffered: seq<BufferedFill>, now: int, c: string)
    ensures Neutral(ExpiredLog(buffered, now), c)
  {
  }

  lemma ClearedLogNeutral(buffered: seq<BufferedFill>, c: string)
    ensures Neutral(ClearedLog(buffered), c)
  {
  }

  lemma CancelItemsNeutral(b: Book, p: Pending, items: seq<ReplyItem>, c: string)
    ensures Neutral(CancelItemRejects(b, p, items), c)
  {
  }

  // --- updates ------------------------------------------------------------

  // An acknowledgement announces exactly the size that is tracked from then on.
  lemma AckQuantity(w: World, u: Update, securityId: int, c: string)
    requires QuantityInv(w, c) && u.status == ExOpen && w.book.ClientOf(u.cloid) != ""
    ensures var op := w.(book := OpenedBook(w.book, u, securityId));
            QuantityInv(Emit(op, UpdateReport(op, u)), c)
  {
    var op := w.(book := OpenedBook(w.book, u, securityId));
    var s := op.book.StateOf(u.cloid);
    assert s.cumQty == 0 && s.origSz == TrackedSize(w.book.StateOf(u.cloid).requestedQty, u.origSz);
    AppendOne(w.log, UpdateReport(op, u), c);
  }

  lemma OpenQuantity(w: World, seen: set<string>, u: Update, c: string)
    requires QuantityInv(w, c) && Coherent(w.book, seen) && u.status == ExOpen
    requires u.oid in w.book.oidToCloid ==> w.book.oidToCloid[u.oid] == u.cloid
    ensures QuantityInv(ReportUpdate(w.(book := OpenedBook(w.book, u, RefData.SymbolId(w.ref, u.coin))), u), c)
  {
    var securityId := RefData.SymbolId(w.ref, u.coin);
    var op := w.(book := OpenedBook(w.book, u, securityId));
    assert op.book.cloidToClient == w.book.cloidToClient;
    OpenedCoherent(w.book, seen, u, securityId);
    if w.book.ClientOf(u.cloid) != "" {
      AckQuantity(w, u, securityId, c);
      var reported := Emit(op, UpdateReport(op, u));
      ReplayEachQuantity(reported.(buffered := FillsNotOf(reported.buffered, u.oid)), seen + {u.cloid},
                         FillsOf(reported.buffered, u.oid), u.oid, c);
    } else if c != u.cloid {
      OpenedOther(w.book, u, securityId, c);
    }
  }

  lemma OpenedOther(b: Book, u: Update, securityId: int, c: string)
    requires c != u.cloid
    ensures OpenedBook(b, u, securityId).StateOf(c) == b.StateOf(c)
    ensures OpenedBook(b, u, securityId).Live(c) == b.Live(c)
    ensures c in OpenedBook(b, u, securityId).cloidToOid <==> c in b.cloidToOid
  {
  }

  lemma OtherUpdateQuantity(w: World, u: Update, c: string)
    requires QuantityInv(w, c) && u.status != ExOpen && u.status != ExTriggered
    ensures u.status != ExFilled ==> QuantityInv(ReportUpdate(w, u), c)
    ensures w.book.CloidOfOid(u.oid) == u.cloid && !w.book.Live("") ==> QuantityInv(CloseFilled(w, u), c)
  {
    if u.status != ExFilled {
      CloseQuantity(w, UpdateReport(w, u), u.cloid, c);
    }
    CloseQuantity(w, PartialCloseReport(w, u), u.cloid, c);
  }

  lemma OrderUpdateQuantity(w0: World, seen: set<string>, u: Update, now: int, order: seq<string>, c: string)
    requires QuantityInv(w0, c) && Coherent(w0.book, seen) && u.status != ExTriggered
    requires u.oid in w0.book.oidToCloid ==> w0.book.oidToCloid[u.oid] == u.cloid
    ensures QuantityInv(OnOrderUpdate(w0, u, now, order), c)
  {
    CheckTimeoutsQuantity(w0, now, order, c);
    TimeOutOrdersCoherent(ExpireFills(w0, now), seen, DueOrders(w0.book, w0.iocTimeoutSecs, order, now));
    var w := CheckTimeouts(w0, now, order);
    if u.status == ExOpen {
      OpenQuantity(w, seen, u, c);
    } else {
      OtherUpdateQuantity(w.(book := w.book.RegisterOid(u.oid, u.cloid)), u, c);
    }
  }

  lemma UserFillQuantity(w0: World, seen: set<string>, f: Fill, now: int, order: seq<string>, c: string)
    requires QuantityInv(w0, c) && Coherent(w0.book, seen)
    ensures QuantityInv(OnUserFill(w0, f, now, order), c)
  {
    if !f.isSnapshot {
      CheckTimeoutsQuantity(w0, now, order, c);
      TimeOutOrdersCoherent(ExpireFills(w0, now), seen, DueOrders(w0.book, w0.iocTimeoutSecs, order, now));
      var w := CheckTimeouts(w0, now, order);
      if w.book.ClientOfOid(f.oid) != "" {
        EmitFillQuantity(w, f, w.book.ClientOfOid(f.oid), w.book.CloidOfOid(f.oid), c);
      }
    }
  }

  // --- the other events ---------------------------------------------------

  lemma {:induction false} RejectPlaceItemsQuantity(w: World, p: Pending, items: seq<ReplyItem>, c: string)
    requires QuantityInv(w, c)
    ensures QuantityInv(RejectPlaceItems(w, p, items), c)
    decreases |items|
  {
    if items != [] {
      if items[0].ItemError? && w.book.ClientOf(p.cloid) != "" {
        CloseQuantity(w, RejectReport(w.book, PlaceReject, p, items[0].text), p.cloid, c);
        RejectPlaceItemsQuantity(RejectPlace(w, p, items[0].text), p, items[1..], c);
      } else {
        RejectPlaceItemsQuantity(w, p, items[1..], c);
      }
    }
  }

  lemma PlaceReplyQuantity(w: World, r: Reply, corr: Option<nat>, c: string)
    requires QuantityInv(w, c)
    ensures QuantityInv(OnPlaceReply(w, r, corr), c)
  {
    var w' := w.(pendingPlaces := Drop(w.pendingPlaces, corr));
    var p := Take(w.pendingPlaces, corr);
    CloseQuantity(w', RejectReport(w'.book, PlaceReject, p, r.status), p.cloid, c);
    RejectPlaceItemsQuantity(w', p, r.items, c);
  }

  lemma ModifyReplyQuantity(w: World, r: Reply, corr: Option<nat>, c: string)
    requires QuantityInv(w, c)
    ensures QuantityInv(OnModifyReply(w, r, corr), c)
  {
    var w' := w.(pendingModifies := Drop(w.pendingModifies, corr));
    AppendOne(w.log, RejectReport(w'.book, AmendReject, Take(w.pendingModifies, corr), r.status), c);
  }

  lemma CancelReplyQuantity(w: World, r: Reply, corr: Option<nat>, c: string)
    requires QuantityInv(w, c)
    ensures QuantityInv(OnCancelReply(w, r, corr), c)
  {
    var p := Take(w.pendingCancels, corr);
    if r.status != "ok" && r.items == [] {
      AppendNeutral(w.log, [CancelRejectReport(w.book, p, r.status)], c);
    } else {
      CancelItemsNeutral(w.book, p, r.items, c);
      AppendNeutral(w.log, CancelItemRejects(w.book, p, r.items), c);
    }
  }

  lemma RequestQuantity(w: World, seen: set<string>, e: Event, c: string)
    requires e.NewOrder? || e.AmendOrder? || e.CancelOrder?
    requires QuantityInv(w, c) && Coherent(w.book, seen) && Admissible(w, seen, e)
    requires Enters(w, e, c) ==> !EverAcked(w.log, c)
    ensures QuantityInv(Step(w, e), c)
  {
    RequestKeepsState(w, seen, e, c);
    RequestLog(w, e, c);
  }

  // A request adds at most one entry to the log, and no report of a fill or
  // of an acknowledgement.
  lemma RequestSays(w: World, e: Event, c: string)
    requires e.NewOrder? || e.AmendOrder? || e.CancelOrder?
    ensures Step(w, e).log == w.log ||
            exists o :: Step(w, e).log == w.log + [o] && Neutral([o], c)
  {
    var w' := Step(w, e);
    if w'.log != w.log {
      var o := w'.log[|w.log|];
      assert w'.log == w.log + [o] && Neutral([o], c);
    }
  }

  lemma RequestLog(w: World, e: Event, c: string)
    requires e.NewOrder? || e.AmendOrder? || e.CancelOrder?
    ensures AddsUp(Step(w, e).log, c) == AddsUp(w.log, c)
    ensures SumSinceAck(Step(w, e).log, c) == SumSinceAck(w.log, c)
    ensures AckedSize(Step(w, e).log, c) == AckedSize(w.log, c)
    ensures EverAcked(Step(w, e).log, c) == EverAcked(w.log, c)
  {
    RequestSays(w, e, c);
    var log := Step(w, e).log;
    if log != w.log {
      var o :| log == w.log + [o] && Neutral([o], c);
      AppendNeutral(w.log, [o], c);
    }
  }

  // Requests touch neither the filled nor the tracked quantity, and a new order
  // has no active oid yet.
  ghost predicate SameQuantities(b: Book, b': Book, c: string) {
    && b'.cloidToOid == b.cloidToOid
    && (b'.Live(c) && c in b'.cloidToOid ==>
          b.Live(c) && b'.StateOf(c).cumQty == b.StateOf(c).cumQty && b'.StateOf(c).origSz == b.StateOf(c).origSz)
  }

  lemma RequestKeepsState(w: World, seen: set<string>, e: Event, c: string)
    requires e.NewOrder? || e.AmendOrder? || e.CancelOrder?
    requires Coherent(w.book, seen) && Admissible(w, seen, e)
    ensures SameQuantities(w.book, Step(w, e).book, c)
  {
    match e {
      case NewOrder(r, cloid, now) => NewOrderKeepsState(w, seen, r, cloid, now, c);
      case AmendOrder(r, now) => AmendOrderKeepsState(w, r, now, c);
      case CancelOrder(_) =>
    }
  }

  lemma NewOrderKeepsState(w: World, seen: set<string>, r: OrderRequest, cloid: string, now: int, c: string)
    requires Coherent(w.book, seen) && Admissible(w, seen, NewOrder(r, cloid, now))
    ensures SameQuantities(w.book, OnNewOrder(w, r, cloid, now).book, c)
  {
    if Accepts(w, r) {
      assert cloid !in w.book.cloidToOid;
    }
  }

  lemma AmendOrderKeepsState(w: World, r: OrderRequest, now: int, c: string)
    ensures SameQuantities(w.book, OnAmendOrder(w, r, now).book, c)
  {
  }

  lemma StepQuantity(w: World, seen: set<string>, e: Event, c: string)
    requires QuantityInv(w, c) && Coherent(w.book, seen) && Admissible(w, seen, e)
    requires !(e.OrderUpdate? && e.update.status == ExTriggered)
    requires Enters(w, e, c) ==> !EverAcked(w.log, c)
    ensures QuantityInv(Step(w, e), c)
  {
    match e {
      case NewOrder(_, _, _) => RequestQuantity(w, seen, e, c);
      case AmendOrder(_, _) => RequestQuantity(w, seen, e, c);
      case CancelOrder(_) => RequestQuantity(w, seen, e, c);
      case OrderUpdate(u, now, order) => OrderUpdateQuantity(w, seen, u, now, order, c);
      case UserFill(f, now, order) => UserFillQuantity(w, seen, f, now, order, c);
      case PlaceReply(r, corr) => PlaceReplyQuantity(w, r, corr, c);
      case ModifyReply(r, corr) => ModifyReplyQuantity(w, r, corr, c);
      case CancelReply(r, corr) => CancelReplyQuantity(w, r, corr, c);
      case Disconnected =>
        ClearedLogNeutral(w.buffered, c);
        AppendNeutral(w.log, ClearedLog(w.buffered), c);
      case _ =>
    }
  }

  // Only limit orders are placed, so the exchange never reports a trigger.
  ghost predicate NoTriggers(es: seq<Event>) {
    forall e :: e in es && e.OrderUpdate? ==> e.update.status != ExTriggered
  }

  lemma {:induction false} NeverReported(log: seq<Output>, c: string)
    requires NoReport(log, 0, c)
    ensures !EverAcked(log, c)
  {
    if log != [] {
      NeverReported(log[..|log| - 1], c);
    }
  }

  // A cloid that is given out now was never acknowledged.
  lemma EntersUnacked(w: World, seen: set<string>, e: Event, c: string)
    requires Coherent(w.book, seen) && Admissible(w, seen, e)
    requires c != "" ==> LastWord.OrderInv(w, seen, c, false)
    ensures Enters(w, e, c) ==> !EverAcked(w.log, c)
  {
    if Enters(w, e, c) {
      NeverReported(w.log, c);
    }
  }

  lemma {:induction false} RunQuantity(w: World, seen: set<string>, es: seq<Event>, c: string)
    requires QuantityInv(w, c) && Coherent(w.book, seen) && ValidRun(w, seen, es) && NoTriggers(es)
    requires c != "" ==> LastWord.OrderInv(w, seen, c, false)
    ensures QuantityInv(Run(w, es), c)
    decreases |es|
  {
    if es != [] {
      EntersUnacked(w, seen, es[0], c);
      StepQuantity(w, seen, es[0], c);
      StepCoherent(w, seen, es[0]);
      if c != "" {
        LastWord.StepOrderInv(w, seen, es[0], c, false);
      }
      RunQuantity(Step(w, es[0]), seen + Mentions(es[0]), es[1..], c);
    }
  }

  lemma {:induction false} AddsUpAt(log: seq<Output>, c: string, i: nat)
    requires AddsUp(log, c) && i < |log|
    ensures LastAddsUp(log[..i + 1], c)
    decreases |log|
  {
    var before := log[..|log| - 1];
    if i == |log| - 1 {
      assert log[..i + 1] == log;
    } else {
      AddsUpAt(before, c, i);
      assert before[..i + 1] == log[..i + 1];
    }
  }

  // Over every run, in every report that carries the order's client id: an
  // acknowledgement's quantities add up, and nothing of a tracked size is filled
  // yet; a report says FILLED or PARTIALLY_FILLED exactly when it is that of a
  // fill. Its cumulative quantity is then the sum of the order's fills since its
  // last acknowledgement, its order quantity is the size announced there, the
  // three quantities add up unless the order is overfilled, and it says FILLED
  // exactly when the sum has reached that size. A report that an update, a
  // partial close or a timeout closed an acknowledged order tells the same sum and
  // size, and leaves nothing open.
  lemma QuantityAccounting(iocTimeoutSecs: int, es: seq<Event>, c: string, i: nat)
    requires ValidRun(Initial(iocTimeoutSecs), SEEN_INITIALLY, es) && NoTriggers(es)
    requires i < |Run(Initial(iocTimeoutSecs), es).log|
    ensures var log := Run(Initial(iocTimeoutSecs), es).log;
            && (IsAck(log[i], c) ==>
                  && log[i].orderQty == log[i].cumQty + log[i].leavesQty && log[i].fill.None?
                  && (log[i].orderQty > 0 ==> log[i].cumQty == 0))
            && (SaysTraded(log[i], c) <==> IsFillOf(log[i], c))
            && (IsFillOf(log[i], c) ==>
                  && log[i].cumQty == SumSinceAck(log[..i + 1], c)
                  && log[i].orderQty == AckedSize(log[..i + 1], c)
                  && log[i].leavesQty == Max(0, log[i].orderQty - log[i].cumQty)
                  && (log[i].cumQty <= log[i].orderQty ==> log[i].orderQty == log[i].cumQty + log[i].leavesQty)
                  && (log[i].status == FILLED <==> SumSinceAck(log[..i + 1], c) >= AckedSize(log[..i + 1], c)))
            && (IsClosing(log[i], c) && EverAcked(log[..i], c)
                && (log[i].cause == OnUpdate ==> AckedSize(log[..i], c) > 0) ==>
                  && log[i].cumQty == SumSinceAck(log[..i], c) && log[i].orderQty == AckedSize(log[..i], c)
                  && log[i].leavesQty == 0)
  {
    var w := Run(Initial(iocTimeoutSecs), es);
    if c != "" {
      LastWord.InitialOrderInv(iocTimeoutSecs, c, false);
    }
    RunQuantity(Initial(iocTimeoutSecs), SEEN_INITIALLY, es, c);
    AddsUpAt(w.log, c, i);
    assert w.log[..i + 1][i] == w.log[i] && w.log[..i + 1][..i] == w.log[..i];
  }

  // Why triggers are excluded: the report of one says NEW with nothing left
  // open, so it adds up only if the tracked size is already filled.
  lemma TriggerReportAddsUp(w: World, u: Update)
    requires u.status == ExTriggered && w.book.StateOf(u.cloid).origSz > 0
    ensures var r := UpdateReport(w, u);
            && r.status == NEW
            && (r.orderQty == r.cumQty + r.leavesQty <==>
                  w.book.StateOf(u.cloid).cumQty == w.book.StateOf(u.cloid).origSz)
  {
  }
}
