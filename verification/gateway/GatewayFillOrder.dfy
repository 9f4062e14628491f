// Fills of one exchange order are settled in the order they arrived.
module GatewayFillOrder {
  // Exactly unless one that is reported at once overtakes another that waits.

  import opened Common
  import opened OrderBook
  import opened GatewayModel
  import opened GatewayRuns
  import opened GatewayFills
  import RefData

  function OfOid(fills: seq<Fill>, oid: nat): seq<Fill> {
    if fills == [] then [] else (if fills[0].oid == oid then [fills[0]] else []) + OfOid(fills[1..], oid)
  }

  lemma {:induction false} OfOidAppend(xs: seq<Fill>, ys: seq<Fill>, oid: nat)
    ensures OfOid(xs + ys, oid) == OfOid(xs, oid) + OfOid(ys, oid)
  {
    if xs == [] {
      assert xs + ys == ys;
    } else {
      TailOfConcat(xs, ys);
      OfOidAppend(xs[1..], ys, oid);
      Assoc(if xs[0].oid == oid then [xs[0]] else [], OfOid(xs[1..], oid), OfOid(ys, oid));
    }
  }

  // The fills of an oid as the gateway has them: settled ones in log order,
  // then the waiting ones.
  ghost function HistoryOf(log: seq<Output>, buffered: seq<BufferedFill>, oid: nat): seq<Fill> {
    OfOid(Settled(log), oid) + FillsOf(buffered, oid)
  }

  ghost function History(w: World, oid: nat): seq<Fill> {
    HistoryOf(w.log, w.buffered, oid)
  }

  ghost predicate BufferedInTimeOrder(buffered: seq<BufferedFill>, clock: int) {
    && (forall i, j :: 0 <= i < j < |buffered| ==> buffered[i].bufferedAt <= buffered[j].bufferedAt)
    && (forall i :: 0 <= i < |buffered| ==> buffered[i].bufferedAt <= clock)
  }

  ghost predicate AllAre(fills: seq<Fill>, f: Fill) {
    forall i :: 0 <= i < |fills| ==> fills[i] == f
  }

  // The fill goes out at once, while an earlier one of its oid, different from
  // it, still waits.
  ghost predicate Overtakes(w0: World, e: Event, oid: nat) {
    && e.UserFill? && !e.fill.isSnapshot && e.fill.oid == oid
    && var w := CheckTimeouts(w0, e.now, e.order);
       && w.book.ClientOfOid(oid) != ""
       && !AllAre(FillsOf(w.buffered, oid), e.fill)
  }

  function EventTime(e: Event, clock: int): int {
    match e
    case OrderUpdate(_, now, _) => now
    case UserFill(_, now, _) => now
    case _ => clock
  }

  // The steady clock does not go back.
  predicate ClockAdvances(clock: int, es: seq<Event>)
    decreases |es|
  {
    es == [] || (clock <= EventTime(es[0], clock) && ClockAdvances(EventTime(es[0], clock), es[1..]))
  }

  ghost predicate NeverOvertakes(w: World, es: seq<Event>, oid: nat)
    decreases |es|
  {
    es == [] || (!Overtakes(w, es[0], oid) && NeverOvertakes(Step(w, es[0]), es[1..], oid))
  }

  // In every state of the run the fills of the oid, settled and waiting, are
  // those that arrived so far, in this order.
  ghost predicate KeepsArrivalOrder(w: World, es: seq<Event>, oid: nat, arrived: seq<Fill>)
    decreases |es|
  {
    && History(w, oid) == arrived
    && (es != [] ==> KeepsArrivalOrder(Step(w, es[0]), es[1..], oid, arrived + OfOid(ReceivedBy(es[0]), oid)))
  }

  // --- writing to the log -------------------------------------------------

  lemma LogHistory(w: World, outs: seq<Output>, oid: nat)
    requires OfOid(Settled(outs), oid) == []
    ensures History(w.(log := w.log + outs), oid) == History(w, oid)
  {
    SettledAppend(w.log, outs);
    OfOidAppend(Settled(w.log), Settled(outs), oid);
  }

  lemma EmitHistory(w: World, o: Output, oid: nat)
    requires SettledBy(o) == []
    ensures History(Emit(w, o), oid) == History(w, oid)
  {
    assert Settled([o]) == SettledBy(o);
    LogHistory(w, [o], oid);
  }

  lemma ReportHistory(log: seq<Output>, r: Output, f: Fill, buffered: seq<BufferedFill>, oid: nat)
    requires SettledBy(r) == [f]
    ensures HistoryOf(log + [r], buffered, oid) == OfOid(Settled(log), oid) + OfOid([f], oid) + FillsOf(buffered, oid)
  {
    assert Settled([r]) == [f];
    SettledAppend(log, [r]);
    OfOidAppend(Settled(log), [f], oid);
  }

  lemma {:induction false} RotatedIsConstant(f: Fill, waiting: seq<Fill>, k: nat)
    requires [f] + waiting == waiting + [f] && k < |waiting|
    ensures waiting[k] == f
  {
    if k == 0 {
      assert ([f] + waiting)[0] == (waiting + [f])[0];
    } else {
      RotatedIsConstant(f, waiting, k - 1);
      assert ([f] + waiting)[k] == (waiting + [f])[k];
    }
  }

  // Reported ahead of those that wait, a fill is out of place exactly when one
  // of these is different.
  lemma AheadOfWaiting(before: seq<Fill>, f: Fill, waiting: seq<Fill>)
    ensures before + [f] + waiting == before + waiting + [f] <==> AllAre(waiting, f)
  {
    assert (before + [f] + waiting)[|before|..] == [f] + waiting;
    assert (before + waiting + [f])[|before|..] == waiting + [f];
    if before + [f] + waiting == before + waiting + [f] {
      forall i | 0 <= i < |waiting| ensures waiting[i] == f {
        RotatedIsConstant(f, waiting, i);
      }
    }
    if AllAre(waiting, f) {
      assert [f] + waiting == waiting + [f];
      Assoc(before, [f], waiting);
      Assoc(before, waiting, [f]);
    }
  }

  lemma EmitFillHistory(w: World, f: Fill, client: string, cloid: string, oid: nat)
    ensures History(EmitFill(w, f, client, cloid), oid)
            == OfOid(Settled(w.log), oid) + OfOid([f], oid) + FillsOf(w.buffered, oid)
    ensures EmitFill(w, f, client, cloid).buffered == w.buffered
  {
    EmitFillFrame(w, f, client, cloid);
    var r := FillReport(w, f, client, cloid, w.book.ApplyFill(cloid, f.sz).StateOf(cloid));
    ReportHistory(w.log, r, f, w.buffered, oid);
  }

  lemma EmitFillFrame(w: World, f: Fill, client: string, cloid: string)
    ensures EmitFill(w, f, client, cloid).buffered == w.buffered
    ensures EmitFill(w, f, client, cloid).log ==
            w.log + [FillReport(w, f, client, cloid, w.book.ApplyFill(cloid, f.sz).StateOf(cloid))]
  {
  }

  // --- replay -------------------------------------------------------------

  lemma {:induction false} ReplayEachHistory(w: World, fills: seq<Fill>, oid: nat)
    requires forall i :: 0 <= i < |fills| ==> fills[i].oid == oid
    requires FillsOf(w.buffered, oid) == []
    ensures History(ReplayEach(w, fills, oid), oid) == History(w, oid) + fills
    decreases |fills|
  {
    if fills != [] {
      ReplayOneHistory(w, fills[0], oid, oid);
      ReplayEachHistory(EmitFill(w, fills[0], w.book.ClientOfOid(oid), w.book.CloidOfOid(oid)), fills[1..], oid);
      Assoc(History(w, oid), [fills[0]], fills[1..]);
      assert [fills[0]] + fills[1..] == fills;
    }
  }

  lemma {:induction false} ReplayEachOtherHistory(w: World, fills: seq<Fill>, key: nat, oid: nat)
    requires key != oid && forall i :: 0 <= i < |fills| ==> fills[i].oid == key
    ensures History(ReplayEach(w, fills, key), oid) == History(w, oid)
    decreases |fills|
  {
    if fills != [] {
      ReplayOneHistory(w, fills[0], key, oid);
      var w1 := EmitFill(w, fills[0], w.book.ClientOfOid(key), w.book.CloidOfOid(key));
      ReplayEachOtherHistory(w1, fills[1..], key, oid);
    }
  }

  lemma ReplayOneHistory(w: World, f: Fill, key: nat, oid: nat)
    requires f.oid == key && (key == oid ==> FillsOf(w.buffered, oid) == [])
    ensures var w1 := EmitFill(w, f, w.book.ClientOfOid(key), w.book.CloidOfOid(key));
            && w1.buffered == w.buffered
            && History(w1, oid) == if key == oid then History(w, oid) + [f] else History(w, oid)
  {
    EmitFillHistory(w, f, w.book.ClientOfOid(key), w.book.CloidOfOid(key), oid);
    assert OfOid([f], oid) == if key == oid then [f] else [];
    assert OfOid(Settled(w.log), oid) + [] == OfOid(Settled(w.log), oid);
  }

  lemma {:induction false} ReplayEachFrame(w: World, fills: seq<Fill>, key: nat)
    ensures ReplayEach(w, fills, key).buffered == w.buffered
    decreases |fills|
  {
    if fills != [] {
      EmitFillFrame(w, fills[0], w.book.ClientOfOid(key), w.book.CloidOfOid(key));
      ReplayEachFrame(EmitFill(w, fills[0], w.book.ClientOfOid(key), w.book.CloidOfOid(key)), fills[1..], key);
    }
  }

  lemma {:induction false} FillsOfSplit(buffered: seq<BufferedFill>, key: nat, oid: nat)
    ensures forall i :: 0 <= i < |FillsOf(buffered, key)| ==> FillsOf(buffered, key)[i].oid == key
    ensures FillsOf(FillsNotOf(buffered, key), oid) == if key == oid then [] else FillsOf(buffered, oid)
  {
    if buffered != [] {
      var rest := buffered[1..];
      FillsOfSplit(rest, key, oid);
      if buffered[0].fill.oid == key {
        assert FillsNotOf(buffered, key) == FillsNotOf(rest, key);
      } else {
        var kept := FillsNotOf(buffered, key);
        assert kept[0] == buffered[0] && kept[1..] == FillsNotOf(rest, key);
      }
    }
  }

  lemma {:induction false} FillsNotOfInOrder(buffered: seq<BufferedFill>, key: nat, clock: int)
    requires BufferedInTimeOrder(buffered, clock)
    ensures forall b :: b in FillsNotOf(buffered, key) ==> b in buffered
    ensures BufferedInTimeOrder(FillsNotOf(buffered, key), clock)
  {
    if buffered != [] {
      var rest := buffered[1..];
      FillsNotOfInOrder(rest, key, clock);
      var kept := FillsNotOf(rest, key);
      assert forall b :: b in kept ==> b in rest;
      if buffered[0].fill.oid != key {
        forall i | 0 <= i < |kept| ensures buffered[0].bufferedAt <= kept[i].bufferedAt {
          assert kept[i] in rest;
          var j :| 0 <= j < |rest| && rest[j] == kept[i];
          assert rest[j] == buffered[j + 1];
        }
        assert FillsNotOf(buffered, key) == [buffered[0]] + kept;
      }
    }
  }

  // What a replay reports is what waited for the oid, in arrival order, and
  // nothing of it is left waiting.
  lemma ReplayKeepsOrder(w: World, key: nat, oid: nat)
    ensures History(ReplayBufferedFills(w, key), oid) == History(w, oid)
  {
    FillsOfSplit(w.buffered, key, oid);
    var w1 := w.(buffered := FillsNotOf(w.buffered, key));
    var fills := FillsOf(w.buffered, key);
    if key == oid {
      ReplayEachHistory(w1, fills, oid);
      assert OfOid(Settled(w.log), oid) + [] == OfOid(Settled(w.log), oid);
    } else {
      ReplayEachOtherHistory(w1, fills, key, oid);
    }
  }

  lemma ReplayFrame(w: World, key: nat)
    ensures ReplayBufferedFills(w, key).buffered == FillsNotOf(w.buffered, key)
  {
    ReplayEachFrame(w.(buffered := FillsNotOf(w.buffered, key)), FillsOf(w.buffered, key), key);
  }

  // --- time ---------------------------------------------------------------

  lemma NothingExpires(buffered: seq<BufferedFill>, now: int)
    requires forall i :: 0 <= i < |buffered| ==> !Stale(buffered[i], now)
    ensures FreshFills(buffered, now) == buffered && ExpiredLog(buffered, now) == []
  {
  }

  lemma FirstExpires(buffered: seq<BufferedFill>, now: int, oid: nat)
    requires buffered != [] && Stale(buffered[0], now)
    ensures var rest := buffered[1..];
            && FreshFills(buffered, now) == FreshFills(rest, now)
            && OfOid(Settled(ExpiredLog(buffered, now)), oid) + FillsOf(FreshFills(rest, now), oid)
               == OfOid([buffered[0].fill], oid)
                   + (OfOid(Settled(ExpiredLog(rest, now)), oid) + FillsOf(FreshFills(rest, now), oid))
  {
    var f, gone := buffered[0].fill, ExpiredLog(buffered[1..], now);
    assert ExpiredLog(buffered, now) == [FillExpired(f)] + gone;
    assert Settled([FillExpired(f)] + gone) == [f] + Settled(gone) by {
      assert ([FillExpired(f)] + gone)[1..] == gone;
    }
    OfOidAppend([f], Settled(gone), oid);
    Assoc(OfOid([f], oid), OfOid(Settled(gone), oid), FillsOf(FreshFills(buffered[1..], now), oid));
  }

  // The stale fills are the oldest, so they leave at the front.
  lemma {:induction false} ExpiryKeepsOrder(buffered: seq<BufferedFill>, now: int, oid: nat)
    requires BufferedInTimeOrder(buffered, now)
    ensures OfOid(Settled(ExpiredLog(buffered, now)), oid) + FillsOf(FreshFills(buffered, now), oid)
            == FillsOf(buffered, oid)
    ensures BufferedInTimeOrder(FreshFills(buffered, now), now)
  {
    if buffered != [] {
      var rest := buffered[1..];
      if Stale(buffered[0], now) {
        ExpiryKeepsOrder(rest, now, oid);
        FirstExpires(buffered, now, oid);
      } else {
        assert forall i :: 0 <= i < |buffered| ==> buffered[0].bufferedAt <= buffered[i].bufferedAt <= now;
        NothingExpires(buffered, now);
      }
    }
  }

  lemma {:induction false} TimeOutOrdersHistory(w: World, due: seq<string>, oid: nat)
    ensures History(TimeOutOrders(w, due), oid) == History(w, oid)
    ensures TimeOutOrders(w, due).buffered == w.buffered
    decreases |due|
  {
    if due != [] {
      EmitHistory(w, TimeoutReport(w.book, due[0]), oid);
      TimeOutOrdersHistory(TimeOutOrder(w, due[0]), due[1..], oid);
    }
  }

  lemma ExpireFillsOrder(w: World, now: int, oid: nat, clock: int)
    requires BufferedInTimeOrder(w.buffered, clock) && clock <= now
    ensures BufferedInTimeOrder(GatewayModel.ExpireFills(w, now).buffered, now)
    ensures History(GatewayModel.ExpireFills(w, now), oid) == History(w, oid)
  {
    ExpiryKeepsOrder(w.buffered, now, oid);
    var gone, kept := ExpiredLog(w.buffered, now), FreshFills(w.buffered, now);
    SettledAppend(w.log, gone);
    OfOidAppend(Settled(w.log), Settled(gone), oid);
    Assoc(OfOid(Settled(w.log), oid), OfOid(Settled(gone), oid), FillsOf(kept, oid));
  }

  lemma CheckTimeoutsOrder(w: World, now: int, order: seq<string>, oid: nat, clock: int)
    requires BufferedInTimeOrder(w.buffered, clock) && clock <= now
    ensures BufferedInTimeOrder(CheckTimeouts(w, now, order).buffered, now)
    ensures History(CheckTimeouts(w, now, order), oid) == History(w, oid)
  {
    ExpireFillsOrder(w, now, oid, clock);
    TimeOutOrdersHistory(ExpireFills(w, now), DueOrders(w.book, w.iocTimeoutSecs, order, now), oid);
  }

  // --- events -------------------------------------------------------------

  lemma BufferedArrival(w: World, f: Fill, now: int, oid: nat)
    requires BufferedInTimeOrder(w.buffered, now) && w.book.ClientOfOid(f.oid) == ""
    ensures BufferedInTimeOrder(TakeFill(w, f, now).buffered, now)
    ensures History(TakeFill(w, f, now), oid) == History(w, oid) + OfOid([f], oid)
  {
    FillsOfAppend(w.buffered, BufferedFill(f, now), oid);
    Assoc(OfOid(Settled(w.log), oid), FillsOf(w.buffered, oid), OfOid([f], oid));
  }

  lemma ReportedArrival(w: World, f: Fill, now: int, oid: nat)
    requires w.book.ClientOfOid(f.oid) != ""
    ensures TakeFill(w, f, now).buffered == w.buffered
    ensures History(TakeFill(w, f, now), oid) == History(w, oid) + OfOid([f], oid) <==>
            (f.oid == oid ==> AllAre(FillsOf(w.buffered, oid), f))
  {
    EmitFillHistory(w, f, w.book.ClientOfOid(f.oid), w.book.CloidOfOid(f.oid), oid);
    var before, waiting := OfOid(Settled(w.log), oid), FillsOf(w.buffered, oid);
    if f.oid == oid {
      assert OfOid([f], oid) == [f];
      AheadOfWaiting(before, f, waiting);
    } else {
      assert OfOid([f], oid) == [];
      assert before + [] == before && before + waiting + [] == before + waiting;
    }
  }

  lemma UserFillOrder(w0: World, e: Event, oid: nat, clock: int)
    requires e.UserFill? && !e.fill.isSnapshot
    requires BufferedInTimeOrder(w0.buffered, clock) && clock <= e.now
    ensures BufferedInTimeOrder(Step(w0, e).buffered, e.now)
    ensures History(Step(w0, e), oid) == History(w0, oid) + OfOid([e.fill], oid) <==> !Overtakes(w0, e, oid)
  {
    CheckTimeoutsOrder(w0, e.now, e.order, oid, clock);
    var w := CheckTimeouts(w0, e.now, e.order);
    assert Step(w0, e) == TakeFill(w, e.fill, e.now);
    if w.book.ClientOfOid(e.fill.oid) == "" {
      BufferedArrival(w, e.fill, e.now, oid);
    } else {
      ReportedArrival(w, e.fill, e.now, oid);
    }
  }

  lemma {:induction false} FillsOfAppend(buffered: seq<BufferedFill>, b: BufferedFill, oid: nat)
    ensures FillsOf(buffered + [b], oid) == FillsOf(buffered, oid) + OfOid([b.fill], oid)
  {
    if buffered == [] {
      assert buffered + [b] == [b];
    } else {
      TailOfConcat(buffered, [b]);
      FillsOfAppend(buffered[1..], b, oid);
      var first := if buffered[0].fill.oid == oid then [buffered[0].fill] else [];
      Assoc(first, FillsOf(buffered[1..], oid), OfOid([b.fill], oid));
    }
  }

  lemma OpenOrder(w: World, u: Update, oid: nat, clock: int)
    requires BufferedInTimeOrder(w.buffered, clock) && u.status == ExOpen
    ensures BufferedInTimeOrder(TakeOpen(w, u).buffered, clock)
    ensures History(TakeOpen(w, u), oid) == History(w, oid)
  {
    var op := w.(book := OpenedBook(w.book, u, RefData.SymbolId(w.ref, u.coin)));
    if op.book.ClientOf(u.cloid) != "" {
      var reported := Emit(op, UpdateReport(op, u));
      EmitHistory(op, UpdateReport(op, u), oid);
      ReplayKeepsOrder(reported, u.oid, oid);
      ReplayFrame(reported, u.oid);
      FillsNotOfInOrder(w.buffered, u.oid, clock);
    }
  }

  lemma OtherHistory(w: World, u: Update, oid: nat)
    requires u.status != ExOpen
    ensures TakeOther(w, u).buffered == w.buffered && History(TakeOther(w, u), oid) == History(w, oid)
  {
    var registered := w.(book := w.book.RegisterOid(u.oid, u.cloid));
    EmitHistory(registered, UpdateReport(registered, u), oid);
    EmitHistory(registered, PartialCloseReport(registered, u), oid);
  }

  lemma OrderUpdateOrder(w0: World, u: Update, now: int, order: seq<string>, oid: nat, clock: int)
    requires BufferedInTimeOrder(w0.buffered, clock) && clock <= now
    ensures BufferedInTimeOrder(OnOrderUpdate(w0, u, now, order).buffered, now)
    ensures History(OnOrderUpdate(w0, u, now, order), oid) == History(w0, oid)
  {
    CheckTimeoutsOrder(w0, now, order, oid, clock);
    if u.status == ExOpen {
      OpenOrder(CheckTimeouts(w0, now, order), u, oid, now);
    } else {
      OtherHistory(CheckTimeouts(w0, now, order), u, oid);
    }
  }

  lemma {:induction false} RejectPlaceItemsOrder(w: World, p: Pending, items: seq<ReplyItem>, oid: nat)
    ensures History(RejectPlaceItems(w, p, items), oid) == History(w, oid)
    ensures RejectPlaceItems(w, p, items).buffered == w.buffered
    decreases |items|
  {
    if items != [] {
      if items[0].ItemError? && w.book.ClientOf(p.cloid) != "" {
        EmitHistory(w, RejectReport(w.book, PlaceReject, p, items[0].text), oid);
        RejectPlaceItemsOrder(RejectPlace(w, p, items[0].text), p, items[1..], oid);
      } else {
        RejectPlaceItemsOrder(w, p, items[1..], oid);
      }
    }
  }

  lemma PlaceReplyOrder(w: World, r: Reply, corr: Option<nat>, oid: nat)
    ensures OnPlaceReply(w, r, corr).buffered == w.buffered
    ensures History(OnPlaceReply(w, r, corr), oid) == History(w, oid)
  {
    var w' := w.(pendingPlaces := Drop(w.pendingPlaces, corr));
    var p := Take(w.pendingPlaces, corr);
    EmitHistory(w', RejectReport(w'.book, PlaceReject, p, r.status), oid);
    RejectPlaceItemsOrder(w', p, r.items, oid);
  }

  lemma ModifyReplyOrder(w: World, r: Reply, corr: Option<nat>, oid: nat)
    ensures OnModifyReply(w, r, corr).buffered == w.buffered
    ensures History(OnModifyReply(w, r, corr), oid) == History(w, oid)
  {
    var w' := w.(pendingModifies := Drop(w.pendingModifies, corr));
    EmitHistory(w', RejectReport(w'.book, AmendReject, Take(w.pendingModifies, corr), r.status), oid);
  }

  lemma CancelReplyOrder(w: World, r: Reply, corr: Option<nat>, oid: nat)
    ensures OnCancelReply(w, r, corr).buffered == w.buffered
    ensures History(OnCancelReply(w, r, corr), oid) == History(w, oid)
  {
    var w' := w.(pendingCancels := Drop(w.pendingCancels, corr));
    var p := Take(w.pendingCancels, corr);
    if r.status != "ok" && r.items == [] {
      EmitHistory(w', CancelRejectReport(w'.book, p, r.status), oid);
    } else {
      CancelItemsSettleNothing(w'.book, p, r.items);
      LogHistory(w', CancelItemRejects(w'.book, p, r.items), oid);
    }
  }

  lemma {:induction false} ClearedHistory(buffered: seq<BufferedFill>, oid: nat)
    ensures OfOid(Settled(ClearedLog(buffered)), oid) == FillsOf(buffered, oid)
  {
    if buffered != [] {
      ClearedHistory(buffered[1..], oid);
      SettledAppend([FillCleared(buffered[0].fill)], ClearedLog(buffered[1..]));
      OfOidAppend([buffered[0].fill], Settled(ClearedLog(buffered[1..])), oid);
    }
  }

  lemma RequestSettlesNothing(w: World, e: Event, oid: nat)
    requires e.NewOrder? || e.AmendOrder? || e.CancelOrder?
    ensures History(Step(w, e), oid) == History(w, oid) && Step(w, e).buffered == w.buffered
  {
    match e {
      case NewOrder(r, cloid, now) => OneNewsHistory(w, OnNewOrder(w, r, cloid, now), oid);
      case AmendOrder(r, now) => OneNewsHistory(w, OnAmendOrder(w, r, now), oid);
      case CancelOrder(c) => OneNewsHistory(w, OnCancelOrder(w, c), oid);
    }
  }

  // A step that adds at most one entry to the log, and settles nothing by it.
  lemma OneNewsHistory(w: World, w': World, oid: nat)
    requires w'.buffered == w.buffered
    requires || w'.log == w.log
             || (|w'.log| > |w.log| && w'.log == w.log + [w'.log[|w.log|]] && SettledBy(w'.log[|w.log|]) == [])
    ensures History(w', oid) == History(w, oid)
  {
    if w'.log != w.log {
      EmitHistory(w, w'.log[|w.log|], oid);
    }
  }

  lemma DisconnectedOrder(w: World, oid: nat)
    ensures History(OnDisconnected(w), oid) == History(w, oid)
  {
    ClearedHistory(w.buffered, oid);
    SettledAppend(w.log, ClearedLog(w.buffered));
    OfOidAppend(Settled(w.log), Settled(ClearedLog(w.buffered)), oid);
  }

  // Only a fill can be out of order.
  lemma StepKeepsHistory(w: World, e: Event, oid: nat, clock: int)
    requires !e.UserFill? && BufferedInTimeOrder(w.buffered, clock) && clock <= EventTime(e, clock)
    ensures BufferedInTimeOrder(Step(w, e).buffered, EventTime(e, clock))
    ensures History(Step(w, e), oid) == History(w, oid)
  {
    match e {
      case NewOrder(_, _, _) => RequestSettlesNothing(w, e, oid);
      case AmendOrder(_, _) => RequestSettlesNothing(w, e, oid);
      case CancelOrder(_) => RequestSettlesNothing(w, e, oid);
      case OrderUpdate(u, now, order) => OrderUpdateOrder(w, u, now, order, oid, clock);
      case PlaceReply(r, corr) => PlaceReplyOrder(w, r, corr, oid);
      case ModifyReply(r, corr) => ModifyReplyOrder(w, r, corr, oid);
      case CancelReply(r, corr) => CancelReplyOrder(w, r, corr, oid);
      case Disconnected => DisconnectedOrder(w, oid);
      case _ =>
    }
  }

  // What arrives is put last, exactly unless it overtakes.
  lemma StepOrder(w: World, e: Event, oid: nat, clock: int)
    requires BufferedInTimeOrder(w.buffered, clock) && clock <= EventTime(e, clock)
    ensures BufferedInTimeOrder(Step(w, e).buffered, EventTime(e, clock))
    ensures History(Step(w, e), oid) == History(w, oid) + OfOid(ReceivedBy(e), oid) <==> !Overtakes(w, e, oid)
  {
    if e.UserFill? && !e.fill.isSnapshot {
      UserFillOrder(w, e, oid, clock);
    } else {
      assert OfOid(ReceivedBy(e), oid) == [] && History(w, oid) + [] == History(w, oid);
      if !e.UserFill? {
        StepKeepsHistory(w, e, oid, clock);
      }
    }
  }

  // --- runs ---------------------------------------------------------------

  lemma {:induction false} RunOrder(w: World, es: seq<Event>, oid: nat, clock: int)
    requires BufferedInTimeOrder(w.buffered, clock) && ClockAdvances(clock, es)
    ensures KeepsArrivalOrder(w, es, oid, History(w, oid)) <==> NeverOvertakes(w, es, oid)
    decreases |es|
  {
    if es != [] {
      StepOrder(w, es[0], oid, clock);
      RunOrder(Step(w, es[0]), es[1..], oid, EventTime(es[0], clock));
    }
  }

  lemma {:induction false} KeptToTheEnd(w: World, es: seq<Event>, oid: nat, arrived: seq<Fill>)
    requires KeepsArrivalOrder(w, es, oid, arrived)
    ensures History(Run(w, es), oid) == arrived + OfOid(Received(es), oid)
    decreases |es|
  {
    if es == [] {
      assert arrived + [] == arrived;
    } else {
      KeptToTheEnd(Step(w, es[0]), es[1..], oid, arrived + OfOid(ReceivedBy(es[0]), oid));
      OfOidAppend(ReceivedBy(es[0]), Received(es[1..]), oid);
      Assoc(arrived, OfOid(ReceivedBy(es[0]), oid), OfOid(Received(es[1..]), oid));
    }
  }

  // Over any run the fills of an oid are at every moment settled in the order
  // they arrived, those that still wait having arrived last, exactly if no fill
  // of it overtakes another.
  lemma FillsSettleInArrivalOrder(iocTimeoutSecs: int, es: seq<Event>, oid: nat, clock: int)
    requires ClockAdvances(clock, es)
    ensures KeepsArrivalOrder(Initial(iocTimeoutSecs), es, oid, []) <==>
              NeverOvertakes(Initial(iocTimeoutSecs), es, oid)
    ensures NeverOvertakes(Initial(iocTimeoutSecs), es, oid) ==>
              var w := Run(Initial(iocTimeoutSecs), es);
              OfOid(Settled(w.log), oid) + FillsOf(w.buffered, oid) == OfOid(Received(es), oid)
  {
    var w := Initial(iocTimeoutSecs);
    assert History(w, oid) == [];
    RunOrder(w, es, oid, clock);
    if NeverOvertakes(w, es, oid) {
      KeptToTheEnd(w, es, oid, []);
      assert [] + OfOid(Received(es), oid) == OfOid(Received(es), oid);
    }
  }
}
