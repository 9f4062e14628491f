// No fill is lost or counted twice.
module GatewayFills {
  // What was received is what was reported, expired, cleared on a disconnect,
  // or is still waiting.

  import opened Common
  import opened OrderBook
  import opened GatewayModel
  import opened GatewayRuns
  import opened GatewayCoherence
  import RefData

  // --- what happened to the fills, read off the log -----------------------

  function SettledBy(o: Output): seq<Fill> {
    match o
    case Exec(_, _, _, _, _, _, _, _, _, _, _, _, _, Some(f), _) => [f]
    case FillExpired(f) => [f]
    case FillCleared(f) => [f]
    case _ => []
  }

  function Settled(log: seq<Output>): seq<Fill> {
    if log == [] then [] else SettledBy(log[0]) + Settled(log[1..])
  }

  function Reported(log: seq<Output>): seq<Fill> {
    if log == [] then [] else (if log[0].Exec? then SettledBy(log[0]) else []) + Reported(log[1..])
  }

  function Expired(log: seq<Output>): seq<Fill> {
    if log == [] then [] else (if log[0].FillExpired? then [log[0].lost] else []) + Expired(log[1..])
  }

  function Cleared(log: seq<Output>): seq<Fill> {
    if log == [] then [] else (if log[0].FillCleared? then [log[0].lost] else []) + Cleared(log[1..])
  }

  function Waiting(buffered: seq<BufferedFill>): seq<Fill> {
    if buffered == [] then [] else [buffered[0].fill] + Waiting(buffered[1..])
  }

  function ReceivedBy(e: Event): seq<Fill> {
    if e.UserFill? && !e.fill.isSnapshot then [e.fill] else []
  }

  function Received(es: seq<Event>): seq<Fill> {
    if es == [] then [] else ReceivedBy(es[0]) + Received(es[1..])
  }

  lemma {:induction false} SettledAppend(xs: seq<Output>, ys: seq<Output>)
    ensures Settled(xs + ys) == Settled(xs) + Settled(ys)
  {
    if xs == [] {
      assert xs + ys == ys;
    } else {
      TailOfConcat(xs, ys);
      SettledAppend(xs[1..], ys);
      Assoc(SettledBy(xs[0]), Settled(xs[1..]), Settled(ys));
    }
  }

  lemma {:induction false} WaitingAppend(xs: seq<BufferedFill>, ys: seq<BufferedFill>)
    ensures Waiting(xs + ys) == Waiting(xs) + Waiting(ys)
  {
    if xs == [] {
      assert xs + ys == ys;
    } else {
      TailOfConcat(xs, ys);
      WaitingAppend(xs[1..], ys);
      Assoc([xs[0].fill], Waiting(xs[1..]), Waiting(ys));
    }
  }

  // --- counting one fill --------------------------------------------------

  function Times(g: Fill, fills: seq<Fill>): nat {
    if fills == [] then 0 else (if fills[0] == g then 1 else 0) + Times(g, fills[1..])
  }

  lemma {:induction false} TimesAppend(g: Fill, xs: seq<Fill>, ys: seq<Fill>)
    ensures Times(g, xs + ys) == Times(g, xs) + Times(g, ys)
  {
    if xs == [] {
      assert xs + ys == ys;
    } else {
      TailOfConcat(xs, ys);
      TimesAppend(g, xs[1..], ys);
    }
  }

  lemma {:induction false} TimesIsMultiplicity(g: Fill, fills: seq<Fill>)
    ensures Times(g, fills) == multiset(fills)[g]
  {
    if fills != [] {
      TimesIsMultiplicity(g, fills[1..]);
      assert fills == [fills[0]] + fills[1..];
    }
  }

  lemma {:induction false} ThreeFates(g: Fill, log: seq<Output>)
    ensures Times(g, Settled(log)) == Times(g, Reported(log)) + Times(g, Expired(log)) + Times(g, Cleared(log))
  {
    if log != [] {
      var o, rest := log[0], log[1..];
      ThreeFates(g, rest);
      TimesAppend(g, SettledBy(o), Settled(rest));
      TimesAppend(g, if o.Exec? then SettledBy(o) else [], Reported(rest));
      TimesAppend(g, if o.FillExpired? then [o.lost] else [], Expired(rest));
      TimesAppend(g, if o.FillCleared? then [o.lost] else [], Cleared(rest));
    }
  }

  // --- conservation -------------------------------------------------------

  // How often the gateway knows of the fill, settled or waiting.
  ghost function Account(w: World, g: Fill): nat {
    Times(g, Settled(w.log)) + Times(g, Waiting(w.buffered))
  }

  lemma LogAccount(w: World, outs: seq<Output>, g: Fill)
    ensures Account(w.(log := w.log + outs), g) == Account(w, g) + Times(g, Settled(outs))
  {
    SettledAppend(w.log, outs);
    TimesAppend(g, Settled(w.log), Settled(outs));
  }

  lemma EmitAccount(w: World, o: Output, g: Fill)
    ensures Account(Emit(w, o), g) == Account(w, g) + Times(g, SettledBy(o))
  {
    LogAccount(w, [o], g);
    assert Settled([o]) == SettledBy(o);
  }

  lemma EmitFillAccount(w: World, f: Fill, client: string, cloid: string, g: Fill)
    ensures Account(EmitFill(w, f, client, cloid), g) == Account(w, g) + Times(g, [f])
  {
    var w1 := w.(book := w.book.ApplyFill(cloid, f.sz));
    EmitAccount(w1, FillReport(w, f, client, cloid, w1.book.StateOf(cloid)), g);
  }

  lemma {:induction false} ReplayEachAccount(w: World, fills: seq<Fill>, oid: nat, g: Fill)
    ensures Account(ReplayEach(w, fills, oid), g) == Account(w, g) + Times(g, fills)
    decreases |fills|
  {
    if fills != [] {
      var client, cloid := w.book.ClientOfOid(oid), w.book.CloidOfOid(oid);
      EmitFillAccount(w, fills[0], client, cloid, g);
      ReplayEachAccount(EmitFill(w, fills[0], client, cloid), fills[1..], oid, g);
    }
  }

  lemma {:induction false} SplitByOid(buffered: seq<BufferedFill>, oid: nat, g: Fill)
    ensures Times(g, Waiting(buffered))
            == Times(g, FillsOf(buffered, oid)) + Times(g, Waiting(FillsNotOf(buffered, oid)))
  {
    if buffered != [] {
      var rest := buffered[1..];
      SplitByOid(rest, oid, g);
      if buffered[0].fill.oid == oid {
        assert FillsNotOf(buffered, oid) == FillsNotOf(rest, oid);
      } else {
        var kept := FillsNotOf(buffered, oid);
        assert FillsOf(buffered, oid) == FillsOf(rest, oid);
        assert kept[0] == buffered[0] && kept[1..] == FillsNotOf(rest, oid);
      }
    }
  }

  lemma ReplayAccount(w: World, oid: nat, g: Fill)
    ensures Account(ReplayBufferedFills(w, oid), g) == Account(w, g)
  {
    ReplayEachAccount(w.(buffered := FillsNotOf(w.buffered, oid)), FillsOf(w.buffered, oid), oid, g);
    SplitByOid(w.buffered, oid, g);
  }

  lemma {:induction false} SplitByAge(buffered: seq<BufferedFill>, now: int, g: Fill)
    ensures Times(g, Waiting(buffered)) ==
            Times(g, Settled(ExpiredLog(buffered, now))) + Times(g, Waiting(FreshFills(buffered, now)))
  {
    if buffered != [] {
      var rest := buffered[1..];
      SplitByAge(rest, now, g);
      if Stale(buffered[0], now) {
        var gone := ExpiredLog(buffered, now);
        assert FreshFills(buffered, now) == FreshFills(rest, now);
        assert gone[0] == FillExpired(buffered[0].fill) && gone[1..] == ExpiredLog(rest, now);
      } else {
        var kept := FreshFills(buffered, now);
        assert ExpiredLog(buffered, now) == ExpiredLog(rest, now);
        assert kept[0] == buffered[0] && kept[1..] == FreshFills(rest, now);
      }
    }
  }

  lemma {:induction false} TimeOutOrdersAccount(w: World, due: seq<string>, g: Fill)
    ensures Account(TimeOutOrders(w, due), g) == Account(w, g)
    decreases |due|
  {
    if due != [] {
      EmitAccount(w, TimeoutReport(w.book, due[0]), g);
      TimeOutOrdersAccount(TimeOutOrder(w, due[0]), due[1..], g);
    }
  }

  lemma CheckTimeoutsAccount(w: World, now: int, order: seq<string>, g: Fill)
    ensures Account(CheckTimeouts(w, now, order), g) == Account(w, g)
  {
    LogAccount(w, ExpiredLog(w.buffered, now), g);
    SplitByAge(w.buffered, now, g);
    TimeOutOrdersAccount(ExpireFills(w, now), DueOrders(w.book, w.iocTimeoutSecs, order, now), g);
  }

  lemma ReportUpdateAccount(w: World, u: Update, g: Fill)
    ensures Account(ReportUpdate(w, u), g) == Account(w, g)
  {
    EmitAccount(w, UpdateReport(w, u), g);
    ReplayAccount(Emit(w, UpdateReport(w, u)), u.oid, g);
  }

  lemma TakeOtherAccount(w: World, u: Update, g: Fill)
    requires u.status != ExOpen
    ensures Account(TakeOther(w, u), g) == Account(w, g)
  {
    var registered := w.(book := w.book.RegisterOid(u.oid, u.cloid));
    if u.status == ExFilled {
      EmitAccount(registered, PartialCloseReport(registered, u), g);
    } else {
      ReportUpdateAccount(registered, u, g);
    }
  }

  lemma OrderUpdateAccount(w0: World, u: Update, now: int, order: seq<string>, g: Fill)
    ensures Account(OnOrderUpdate(w0, u, now, order), g) == Account(w0, g)
  {
    CheckTimeoutsAccount(w0, now, order, g);
    var w := CheckTimeouts(w0, now, order);
    if u.status == ExOpen {
      ReportUpdateAccount(w.(book := OpenedBook(w.book, u, RefData.SymbolId(w.ref, u.coin))), u, g);
    } else {
      TakeOtherAccount(w, u, g);
    }
  }

  lemma UserFillAccount(w: World, f: Fill, now: int, order: seq<string>, g: Fill)
    requires !f.isSnapshot
    ensures Account(OnUserFill(w, f, now, order), g) == Account(w, g) + Times(g, [f])
  {
    CheckTimeoutsAccount(w, now, order, g);
    var w' := CheckTimeouts(w, now, order);
    if w'.book.ClientOfOid(f.oid) == "" {
      var late := BufferedFill(f, now);
      WaitingAppend(w'.buffered, [late]);
      assert Waiting([late]) == [f];
      TimesAppend(g, Waiting(w'.buffered), [f]);
    } else {
      EmitFillAccount(w', f, w'.book.ClientOfOid(f.oid), w'.book.CloidOfOid(f.oid), g);
    }
  }

  lemma {:induction false} RejectPlaceItemsAccount(w: World, p: Pending, items: seq<ReplyItem>, g: Fill)
    ensures Account(RejectPlaceItems(w, p, items), g) == Account(w, g)
    decreases |items|
  {
    if items != [] {
      if items[0].ItemError? && w.book.ClientOf(p.cloid) != "" {
        EmitAccount(w, RejectReport(w.book, PlaceReject, p, items[0].text), g);
        RejectPlaceItemsAccount(RejectPlace(w, p, items[0].text), p, items[1..], g);
      } else {
        RejectPlaceItemsAccount(w, p, items[1..], g);
      }
    }
  }

  lemma CancelItemsSettleNothing(b: Book, p: Pending, items: seq<ReplyItem>)
    ensures Settled(CancelItemRejects(b, p, items)) == []
  {
    if items != [] {
      CancelItemsSettleNothing(b, p, items[1..]);
      SettledAppend(if items[0].ItemError? then [CancelRejectReport(b, p, items[0].text)] else [],
                    CancelItemRejects(b, p, items[1..]));
    }
  }

  lemma ClearedLogSettles(buffered: seq<BufferedFill>)
    ensures Settled(ClearedLog(buffered)) == Waiting(buffered)
  {
  }

  lemma PlaceReplyAccount(w: World, r: Reply, corr: Option<nat>, g: Fill)
    ensures Account(OnPlaceReply(w, r, corr), g) == Account(w, g)
  {
    var w' := w.(pendingPlaces := Drop(w.pendingPlaces, corr));
    var p := Take(w.pendingPlaces, corr);
    EmitAccount(w', RejectReport(w'.book, PlaceReject, p, r.status), g);
    RejectPlaceItemsAccount(w', p, r.items, g);
  }

  lemma ModifyReplyAccount(w: World, r: Reply, corr: Option<nat>, g: Fill)
    ensures Account(OnModifyReply(w, r, corr), g) == Account(w, g)
  {
    var w' := w.(pendingModifies := Drop(w.pendingModifies, corr));
    EmitAccount(w', RejectReport(w'.book, AmendReject, Take(w.pendingModifies, corr), r.status), g);
  }

  lemma CancelReplyAccount(w: World, r: Reply, corr: Option<nat>, g: Fill)
    ensures Account(OnCancelReply(w, r, corr), g) == Account(w, g)
  {
    var w' := w.(pendingCancels := Drop(w.pendingCancels, corr));
    var p := Take(w.pendingCancels, corr);
    EmitAccount(w', CancelRejectReport(w'.book, p, r.status), g);
    CancelItemsSettleNothing(w'.book, p, r.items);
    LogAccount(w', CancelItemRejects(w'.book, p, r.items), g);
  }

  lemma NewOrderAccount(w: World, r: OrderRequest, cloid: string, now: int, g: Fill)
    ensures Account(OnNewOrder(w, r, cloid, now), g) == Account(w, g)
  {
    var w' := OnNewOrder(w, r, cloid, now);
    if w'.log != w.log {
      EmitAccount(w, w'.log[|w.log|], g);
    }
  }

  lemma AmendOrderAccount(w: World, r: OrderRequest, now: int, g: Fill)
    ensures Account(OnAmendOrder(w, r, now), g) == Account(w, g)
  {
    var w' := OnAmendOrder(w, r, now);
    if w'.log != w.log {
      EmitAccount(w, w'.log[|w.log|], g);
    }
  }

  lemma CancelOrderAccount(w: World, c: CancelRequest, g: Fill)
    ensures Account(OnCancelOrder(w, c), g) == Account(w, g)
  {
    OneNewsAccount(w, OnCancelOrder(w, c), g);
  }

  // A step that adds at most one entry to the log, and settles nothing by it.
  lemma OneNewsAccount(w: World, w': World, g: Fill)
    requires w'.buffered == w.buffered
    requires || w'.log == w.log
             || (|w'.log| > |w.log| && w'.log == w.log + [w'.log[|w.log|]] && SettledBy(w'.log[|w.log|]) == [])
    ensures Account(w', g) == Account(w, g)
  {
    if w'.log != w.log {
      EmitAccount(w, w'.log[|w.log|], g);
    }
  }

  lemma StepAccount(w: World, e: Event, g: Fill)
    ensures Account(Step(w, e), g) == Account(w, g) + Times(g, ReceivedBy(e))
  {
    match e {
      case NewOrder(r, cloid, now) => NewOrderAccount(w, r, cloid, now, g);
      case AmendOrder(r, now) => AmendOrderAccount(w, r, now, g);
      case CancelOrder(c) => CancelOrderAccount(w, c, g);
      case OrderUpdate(u, now, order) => OrderUpdateAccount(w, u, now, order, g);
      case UserFill(f, now, order) =>
        if !f.isSnapshot {
          UserFillAccount(w, f, now, order, g);
        }
      case PlaceReply(r, corr) => PlaceReplyAccount(w, r, corr, g);
      case ModifyReply(r, corr) => ModifyReplyAccount(w, r, corr, g);
      case CancelReply(r, corr) => CancelReplyAccount(w, r, corr, g);
      case Disconnected =>
        ClearedLogSettles(w.buffered);
        LogAccount(w, ClearedLog(w.buffered), g);
      case _ =>
    }
  }

  lemma {:induction false} RunAccount(w: World, es: seq<Event>, g: Fill)
    ensures Account(Run(w, es), g) == Account(w, g) + Times(g, Received(es))
    decreases |es|
  {
    if es != [] {
      StepAccount(w, es[0], g);
      RunAccount(Step(w, es[0]), es[1..], g);
      TimesAppend(g, ReceivedBy(es[0]), Received(es[1..]));
    }
  }

  // Over every run, whatever the events: the fills received are those reported,
  // those expired, those cleared and those waiting, each as often.
  lemma FillConservation(iocTimeoutSecs: int, es: seq<Event>)
    ensures var w := Run(Initial(iocTimeoutSecs), es);
            multiset(Received(es)) ==
            multiset(Reported(w.log)) + multiset(Expired(w.log)) + multiset(Cleared(w.log))
            + multiset(Waiting(w.buffered))
  {
    var w := Run(Initial(iocTimeoutSecs), es);
    var reported, expired, cleared, waiting := Reported(w.log), Expired(w.log), Cleared(w.log), Waiting(w.buffered);
    forall g: Fill
      ensures multiset(Received(es))[g] ==
              multiset(reported)[g] + multiset(expired)[g] + multiset(cleared)[g] + multiset(waiting)[g]
    {
      RunAccount(Initial(iocTimeoutSecs), es, g);
      ThreeFates(g, w.log);
      TimesIsMultiplicity(g, Received(es));
      TimesIsMultiplicity(g, reported);
      TimesIsMultiplicity(g, expired);
      TimesIsMultiplicity(g, cleared);
      TimesIsMultiplicity(g, waiting);
    }
    assert multiset(Received(es)) == multiset(reported) + multiset(expired) + multiset(cleared) + multiset(waiting);
  }
}
