// Fills reported without a client id, and exactly when that happens.
module GatewayOverfills {
  // A replay looks the order up again for every fill. One that completes an
  // order forgets it, so those after it are reported for nobody.

  import opened Common
  import opened OrderBook
  import opened GatewayModel
  import opened GatewayRuns
  import opened GatewayLastWord
  import opened GatewayEarlyFills
  import RefData

  // A fill reported for nobody.
  predicate ForNobody(o: Output) {
    o.Exec? && o.fill.Some? && o.clientOrderId == ""
  }

  ghost predicate AllNamed(log: seq<Output>, start: nat) {
    forall i :: start <= i < |log| ==> !ForNobody(log[i])
  }

  lemma EmitNamed(w: World, o: Output, start: nat)
    requires start <= |w.log|
    ensures AllNamed(Emit(w, o).log, start) <==> AllNamed(w.log, start) && !ForNobody(o)
  {
    var log := w.log + [o];
    assert log[|w.log|] == o;
    assert forall i :: 0 <= i < |w.log| ==> log[i] == w.log[i];
  }

  lemma AppendNamed(log: seq<Output>, more: seq<Output>, start: nat)
    requires start <= |log| && AllNamed(log, start) && AllNamed(more, 0)
    ensures AllNamed(log + more, start)
  {
    forall i | start <= i < |log + more| ensures !ForNobody((log + more)[i]) {
      if i >= |log| {
        assert (log + more)[i] == more[i - |log|];
      }
    }
  }

  lemma StaysForNobody(log: seq<Output>, longer: seq<Output>, start: nat)
    requires log <= longer && !AllNamed(log, start)
    ensures !AllNamed(longer, start)
  {
    var i :| start <= i < |log| && ForNobody(log[i]);
    assert longer[i] == log[i];
  }

  // --- replays ------------------------------------------------------------

  lemma EmitFillNamed(w: World, f: Fill, client: string, cloid: string, start: nat)
    requires start <= |w.log| <= |EmitFill(w, f, client, cloid).log|
    ensures AllNamed(EmitFill(w, f, client, cloid).log, start) <==> AllNamed(w.log, start) && client != ""
  {
    var applied := w.(book := w.book.ApplyFill(cloid, f.sz));
    EmitNamed(applied, FillReport(w, f, client, cloid, applied.book.StateOf(cloid)), start);
  }

  lemma EmitFillLonger(w: World, f: Fill, client: string, cloid: string)
    ensures |EmitFill(w, f, client, cloid).log| == |w.log| + 1
  {
  }

  // Once the order is gone the next fill is reported for nobody.
  lemma GoneForNobody(w: World, fills: seq<Fill>, oid: nat, start: nat)
    requires start <= |w.log| && oid !in w.book.oidToCloid && fills != []
    ensures !AllNamed(ReplayEach(w, fills, oid).log, start)
  {
    EmitFillLonger(w, fills[0], "", "");
    EmitFillNamed(w, fills[0], "", "", start);
    var w1 := EmitFill(w, fills[0], "", "");
    ReplayGrows(w1, fills[1..], oid);
    StaysForNobody(w1.log, ReplayEach(w1, fills[1..], oid).log, start);
  }

  // What the first fill does to an order that is tracked.
  lemma FirstFill(w: World, f: Fill, oid: nat, cloid: string)
    requires Leads(w.book, oid, cloid)
    ensures var s := w.book.StateOf(cloid); var s' := s.(cumQty := s.cumQty + f.sz);
            var w1 := EmitFill(w, f, w.book.ClientOfOid(oid), cloid);
            if s'.cumQty < s'.origSz || s'.isIoc then Leads(w1.book, oid, cloid) && w1.book.StateOf(cloid) == s'
            else oid !in w1.book.oidToCloid
  {
  }

  // The replayed fills all name the order, exactly if they fit it.
  lemma {:induction false} ReplayNamed(w: World, fills: seq<Fill>, oid: nat, cloid: string, start: nat)
    requires start <= |w.log| && AllNamed(w.log, start) && Leads(w.book, oid, cloid)
    ensures AllNamed(ReplayEach(w, fills, oid).log, start) <==> Fits(w.book.StateOf(cloid), fills)
    decreases |fills|
  {
    if fills != [] {
      var client := w.book.ClientOfOid(oid);
      var w1 := EmitFill(w, fills[0], client, cloid);
      EmitFillLonger(w, fills[0], client, cloid);
      EmitFillNamed(w, fills[0], client, cloid, start);
      FirstFill(w, fills[0], oid, cloid);
      if |fills| > 1 {
        if Leads(w1.book, oid, cloid) {
          ReplayNamed(w1, fills[1..], oid, cloid, start);
        } else {
          GoneForNobody(w1, fills[1..], oid, start);
        }
      } else {
        assert ReplayEach(w1, fills[1..], oid) == w1;
      }
    }
  }

  // --- events -------------------------------------------------------------

  // An Open of a known order whose waiting fills do not fit it.
  ghost predicate OverfilledReplay(w: World, e: Event) {
    && e.OrderUpdate? && e.update.status == ExOpen
    && var checked := CheckTimeouts(w, e.now, e.order);
       && checked.book.ClientOf(e.update.cloid) != ""
       && !Fits(OpenedState(checked, e.update), FillsOf(checked.buffered, e.update.oid))
  }

  lemma ExpiredNamed(buffered: seq<BufferedFill>, now: int)
    ensures AllNamed(ExpiredLog(buffered, now), 0)
  {
  }

  lemma ClearedNamed(buffered: seq<BufferedFill>)
    ensures AllNamed(ClearedLog(buffered), 0)
  {
  }

  lemma CancelItemsNamed(b: Book, p: Pending, items: seq<ReplyItem>)
    ensures AllNamed(CancelItemRejects(b, p, items), 0)
  {
  }

  lemma {:induction false} TimeOutsNamed(w: World, due: seq<string>, start: nat)
    requires start <= |w.log| && AllNamed(w.log, start)
    ensures start <= |TimeOutOrders(w, due).log| && AllNamed(TimeOutOrders(w, due).log, start)
    decreases |due|
  {
    if due != [] {
      EmitNamed(w, TimeoutReport(w.book, due[0]), start);
      TimeOutsNamed(TimeOutOrder(w, due[0]), due[1..], start);
    }
  }

  lemma CheckTimeoutsNamed(w: World, now: int, order: seq<string>, start: nat)
    requires start <= |w.log| && AllNamed(w.log, start)
    ensures start <= |CheckTimeouts(w, now, order).log| && AllNamed(CheckTimeouts(w, now, order).log, start)
  {
    ExpiredNamed(w.buffered, now);
    AppendNamed(w.log, ExpiredLog(w.buffered, now), start);
    TimeOutsNamed(ExpireFills(w, now), DueOrders(w.book, w.iocTimeoutSecs, order, now), start);
  }

  lemma {:induction false} RejectItemsNamed(w: World, p: Pending, items: seq<ReplyItem>, start: nat)
    requires start <= |w.log| && AllNamed(w.log, start)
    ensures AllNamed(RejectPlaceItems(w, p, items).log, start)
    decreases |items|
  {
    if items != [] {
      if items[0].ItemError? && w.book.ClientOf(p.cloid) != "" {
        EmitNamed(w, RejectReport(w.book, PlaceReject, p, items[0].text), start);
        RejectItemsNamed(RejectPlace(w, p, items[0].text), p, items[1..], start);
      } else {
        RejectItemsNamed(w, p, items[1..], start);
      }
    }
  }

  lemma TakeOpenNamed(w: World, u: Update, start: nat)
    requires start <= |w.log| && AllNamed(w.log, start) && u.status == ExOpen
    ensures AllNamed(TakeOpen(w, u).log, start) <==>
              (w.book.ClientOf(u.cloid) != "" ==> Fits(OpenedState(w, u), FillsOf(w.buffered, u.oid)))
  {
    var securityId := RefData.SymbolId(w.ref, u.coin);
    var op := w.(book := OpenedBook(w.book, u, securityId));
    assert op.book.cloidToClient == w.book.cloidToClient;
    if w.book.ClientOf(u.cloid) != "" {
      var reported := Emit(op, UpdateReport(op, u));
      EmitNamed(op, UpdateReport(op, u), start);
      OpenLeads(w.book, u, securityId);
      var replaying := reported.(buffered := FillsNotOf(w.buffered, u.oid));
      ReplayNamed(replaying, FillsOf(w.buffered, u.oid), u.oid, u.cloid, start);
    }
  }

  lemma TakeOtherNamed(w: World, u: Update, start: nat)
    requires start <= |w.log| && AllNamed(w.log, start) && u.status != ExOpen
    ensures AllNamed(TakeOther(w, u).log, start)
  {
    var registered := w.(book := w.book.RegisterOid(u.oid, u.cloid));
    EmitNamed(registered, UpdateReport(registered, u), start);
    EmitNamed(registered, PartialCloseReport(registered, u), start);
  }

  lemma OrderUpdateNamed(w: World, e: Event)
    requires e.OrderUpdate?
    ensures AllNamed(Step(w, e).log, |w.log|) <==> !OverfilledReplay(w, e)
  {
    CheckTimeoutsNamed(w, e.now, e.order, |w.log|);
    if e.update.status == ExOpen {
      TakeOpenNamed(CheckTimeouts(w, e.now, e.order), e.update, |w.log|);
    } else {
      TakeOtherNamed(CheckTimeouts(w, e.now, e.order), e.update, |w.log|);
    }
  }

  lemma UserFillNamed(w: World, f: Fill, now: int, order: seq<string>)
    ensures AllNamed(OnUserFill(w, f, now, order).log, |w.log|)
  {
    CheckTimeoutsNamed(w, now, order, |w.log|);
    var checked := CheckTimeouts(w, now, order);
    var client := checked.book.ClientOfOid(f.oid);
    EmitFillLonger(checked, f, client, checked.book.CloidOfOid(f.oid));
    EmitFillNamed(checked, f, client, checked.book.CloidOfOid(f.oid), |w.log|);
  }

  lemma RequestNamed(w: World, e: Event)
    requires e.NewOrder? || e.AmendOrder? || e.CancelOrder?
    ensures AllNamed(Step(w, e).log, |w.log|)
  {
  }

  lemma PlaceReplyNamed(w: World, r: Reply, corr: Option<nat>)
    ensures AllNamed(OnPlaceReply(w, r, corr).log, |w.log|)
  {
    RejectItemsNamed(w.(pendingPlaces := Drop(w.pendingPlaces, corr)), Take(w.pendingPlaces, corr), r.items, |w.log|);
  }

  lemma CancelReplyNamed(w: World, r: Reply, corr: Option<nat>)
    ensures AllNamed(OnCancelReply(w, r, corr).log, |w.log|)
  {
    CancelItemsNamed(w.book, Take(w.pendingCancels, corr), r.items);
    AppendNamed(w.log, CancelItemRejects(w.book, Take(w.pendingCancels, corr), r.items), |w.log|);
  }

  // An event reports a fill for nobody, exactly if it is an Open whose replay
  // overfills its order.
  lemma StepNamed(w: World, e: Event)
    ensures AllNamed(Step(w, e).log, |w.log|) <==> !OverfilledReplay(w, e)
  {
    match e {
      case NewOrder(_, _, _) => RequestNamed(w, e);
      case AmendOrder(_, _) => RequestNamed(w, e);
      case CancelOrder(_) => RequestNamed(w, e);
      case OrderUpdate(_, _, _) => OrderUpdateNamed(w, e);
      case UserFill(f, now, order) => UserFillNamed(w, f, now, order);
      case PlaceReply(r, corr) => PlaceReplyNamed(w, r, corr);
      case ModifyReply(_, _) =>
      case CancelReply(r, corr) => CancelReplyNamed(w, r, corr);
      case Disconnected =>
        ClearedNamed(w.buffered);
        AppendNamed(w.log, ClearedLog(w.buffered), |w.log|);
      case _ =>
    }
  }

  // --- runs ---------------------------------------------------------------

  ghost predicate NeverOverfills(w: World, es: seq<Event>)
    decreases |es|
  {
    es == [] || (!OverfilledReplay(w, es[0]) && NeverOverfills(Step(w, es[0]), es[1..]))
  }

  lemma JoinNamed(log: seq<Output>, longer: seq<Output>)
    requires log <= longer
    ensures AllNamed(longer, 0) <==> AllNamed(log, 0) && AllNamed(longer, |log|)
  {
    assert forall i :: 0 <= i < |log| ==> log[i] == longer[i];
  }

  lemma {:induction false} RunNamed(w: World, es: seq<Event>)
    requires AllNamed(w.log, 0)
    ensures AllNamed(Run(w, es).log, 0) <==> NeverOverfills(w, es)
    decreases |es|
  {
    if es != [] {
      var w1 := Step(w, es[0]);
      StepGrows(w, es[0]);
      StepNamed(w, es[0]);
      JoinNamed(w.log, w1.log);
      if OverfilledReplay(w, es[0]) {
        RunGrows(w1, es[1..]);
        StaysForNobody(w1.log, Run(w1, es[1..]).log, 0);
      } else {
        RunNamed(w1, es[1..]);
      }
    }
  }

  // Over any run, whatever the events: every fill reported carries a client id,
  // exactly if no Open replays more fills than its order has room for.
  lemma FillsAreNamed(iocTimeoutSecs: int, es: seq<Event>)
    ensures AllNamed(Run(Initial(iocTimeoutSecs), es).log, 0) <==> NeverOverfills(Initial(iocTimeoutSecs), es)
  {
    RunNamed(Initial(iocTimeoutSecs), es);
  }
}
