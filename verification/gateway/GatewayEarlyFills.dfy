// Fills that arrive before the exchange announces their order are harmless.
module GatewayEarlyFills {
  // The gateway ends up exactly where it would have, had they come after.

  import opened Common
  import opened OrderBook
  import opened GatewayModel
  import opened GatewayRuns
  import RefData

  // --- moving the fills of an oid -----------------------------------------

  predicate IsFillOf(e: Event, oid: nat) {
    e.UserFill? && !e.fill.isSnapshot && e.fill.oid == oid
  }

  function MovedFills(es: seq<Event>, oid: nat): seq<Fill> {
    if es == [] then [] else (if IsFillOf(es[0], oid) then [es[0].fill] else []) + MovedFills(es[1..], oid)
  }

  function OtherEvents(es: seq<Event>, oid: nat): seq<Event> {
    if es == [] then [] else (if IsFillOf(es[0], oid) then [] else [es[0]]) + OtherEvents(es[1..], oid)
  }

  // Nothing times out, nothing disconnects, and the oid is not reported on.
  ghost predicate Uneventful(w: World, e: Event, oid: nat) {
    && !e.Disconnected?
    && (e.OrderUpdate? ==> e.update.oid != oid && Quiet(w, e.now))
    && (e.UserFill? ==> Quiet(w, e.now))
  }

  ghost predicate UneventfulRun(w: World, es: seq<Event>, oid: nat)
    decreases |es|
  {
    es == [] || (Uneventful(w, es[0], oid) && UneventfulRun(Step(w, es[0]), es[1..], oid))
  }

  // The world had the waiting fills of the oid not arrived yet.
  function Without(w: World, oid: nat): World {
    w.(buffered := FillsNotOf(w.buffered, oid))
  }

  // --- buffers ------------------------------------------------------------

  lemma {:induction false} NotOfAppend(xs: seq<BufferedFill>, b: BufferedFill, oid: nat)
    ensures FillsNotOf(xs + [b], oid) == FillsNotOf(xs, oid) + (if b.fill.oid == oid then [] else [b])
    ensures FillsOf(xs + [b], oid) == FillsOf(xs, oid) + (if b.fill.oid == oid then [b.fill] else [])
  {
    if xs == [] {
      assert xs + [b] == [b];
    } else {
      TailOfConcat(xs, [b]);
      NotOfAppend(xs[1..], b, oid);
      var kept, taken := FillsNotOf(xs[1..], oid), FillsOf(xs[1..], oid);
      Assoc(if xs[0].fill.oid == oid then [] else [xs[0]], kept, if b.fill.oid == oid then [] else [b]);
      Assoc(if xs[0].fill.oid == oid then [xs[0].fill] else [], taken, if b.fill.oid == oid then [b.fill] else []);
    }
  }

  lemma {:induction false} OtherOid(xs: seq<BufferedFill>, oid: nat, key: nat)
    requires key != oid
    ensures FillsOf(FillsNotOf(xs, oid), key) == FillsOf(xs, key)
    ensures FillsNotOf(FillsNotOf(xs, oid), key) == FillsNotOf(FillsNotOf(xs, key), oid)
  {
    if xs != [] {
      var rest, keptO, keptK := xs[1..], FillsNotOf(xs, oid), FillsNotOf(xs, key);
      OtherOid(rest, oid, key);
      assert xs[0].fill.oid == oid ==> keptO == FillsNotOf(rest, oid);
      assert xs[0].fill.oid != oid ==> keptO[0] == xs[0] && keptO[1..] == FillsNotOf(rest, oid);
      assert xs[0].fill.oid == key ==> keptK == FillsNotOf(rest, key);
      assert xs[0].fill.oid != key ==> keptK[0] == xs[0] && keptK[1..] == FillsNotOf(rest, key);
    }
  }

  lemma {:induction false} SameOid(xs: seq<BufferedFill>, oid: nat)
    ensures FillsOf(FillsNotOf(xs, oid), oid) == []
    ensures FillsNotOf(FillsNotOf(xs, oid), oid) == FillsNotOf(xs, oid)
    ensures FillsOf(xs, oid) == [] ==> FillsNotOf(xs, oid) == xs
    ensures forall b :: b in FillsNotOf(xs, oid) ==> b in xs
  {
    if xs != [] {
      var rest := xs[1..];
      SameOid(rest, oid);
      if xs[0].fill.oid != oid {
        assert FillsNotOf(xs, oid)[0] == xs[0] && FillsNotOf(xs, oid)[1..] == FillsNotOf(rest, oid);
      } else {
        assert FillsNotOf(xs, oid) == FillsNotOf(rest, oid);
      }
    }
  }

  // --- the buffer does not matter to fills being emitted ------------------

  lemma EmitFillAnyBuffer(w: World, f: Fill, client: string, cloid: string, buffered: seq<BufferedFill>)
    ensures EmitFill(w.(buffered := buffered), f, client, cloid) == EmitFill(w, f, client, cloid).(buffered := buffered)
    ensures EmitFill(w, f, client, cloid).buffered == w.buffered
  {
  }

  lemma {:induction false} ReplayEachAnyBuffer(w: World, fills: seq<Fill>, oid: nat, buffered: seq<BufferedFill>)
    ensures ReplayEach(w.(buffered := buffered), fills, oid) == ReplayEach(w, fills, oid).(buffered := buffered)
    decreases |fills|
  {
    if fills != [] {
      var client, cloid := w.book.ClientOfOid(oid), w.book.CloidOfOid(oid);
      EmitFillAnyBuffer(w, fills[0], client, cloid, buffered);
      ReplayEachAnyBuffer(EmitFill(w, fills[0], client, cloid), fills[1..], oid, buffered);
    }
  }

  lemma {:induction false} ReplayEachKeepsBuffer(w: World, fills: seq<Fill>, oid: nat)
    ensures ReplayEach(w, fills, oid).buffered == w.buffered
    decreases |fills|
  {
    if fills != [] {
      ReplayEachKeepsBuffer(EmitFill(w, fills[0], w.book.ClientOfOid(oid), w.book.CloidOfOid(oid)), fills[1..], oid);
    }
  }

  lemma ReplayWithout(w: World, key: nat, oid: nat)
    requires key != oid
    ensures ReplayBufferedFills(Without(w, oid), key) == Without(ReplayBufferedFills(w, key), oid)
    ensures FillsOf(ReplayBufferedFills(w, key).buffered, oid) == FillsOf(w.buffered, oid)
  {
    OtherOid(w.buffered, oid, key);
    OtherOid(w.buffered, key, oid);
    var fills := FillsOf(w.buffered, key);
    var kept := FillsNotOf(w.buffered, key);
    ReplayEachAnyBuffer(w, fills, key, kept);
    ReplayEachAnyBuffer(w, fills, key, FillsNotOf(kept, oid));
    ReplayEachKeepsBuffer(w.(buffered := kept), fills, key);
  }

  // --- one event, with and without the waiting fills ----------------------

  lemma QuietWithout(w: World, now: int, oid: nat)
    requires Quiet(w, now)
    ensures Quiet(Without(w, oid), now)
  {
    SameOid(w.buffered, oid);
  }

  lemma EmitAnyBuffer(w: World, o: Output, buffered: seq<BufferedFill>)
    ensures Emit(w.(buffered := buffered), o) == Emit(w, o).(buffered := buffered)
    ensures Emit(w, o).buffered == w.buffered
  {
  }

  lemma EmitRemoveAnyBuffer(w: World, o: Output, cloid: string, buffered: seq<BufferedFill>)
    ensures Remove(Emit(w.(buffered := buffered), o), cloid) == Remove(Emit(w, o), cloid).(buffered := buffered)
    ensures Remove(Emit(w, o), cloid).buffered == w.buffered
  {
    EmitAnyBuffer(w, o, buffered);
  }

  lemma CloseFilledAnyBuffer(w: World, u: Update, buffered: seq<BufferedFill>)
    ensures CloseFilled(w.(buffered := buffered), u) == CloseFilled(w, u).(buffered := buffered)
    ensures CloseFilled(w, u).buffered == w.buffered
  {
    var r := PartialCloseReport(w, u);
    assert PartialCloseReport(w.(buffered := buffered), u) == r;
    EmitAnyBuffer(w, r, buffered);
    EmitRemoveAnyBuffer(w, r, u.cloid, buffered);
  }

  lemma ReportCloseAnyBuffer(w: World, u: Update, buffered: seq<BufferedFill>)
    requires u.status != ExOpen
    ensures ReportUpdate(w.(buffered := buffered), u) == ReportUpdate(w, u).(buffered := buffered)
    ensures ReportUpdate(w, u).buffered == w.buffered
  {
    assert UpdateReport(w.(buffered := buffered), u) == UpdateReport(w, u);
  }

  lemma TakeOtherAnyBuffer(w: World, u: Update, buffered: seq<BufferedFill>)
    requires u.status != ExOpen
    ensures TakeOther(w.(buffered := buffered), u) == TakeOther(w, u).(buffered := buffered)
    ensures TakeOther(w, u).buffered == w.buffered
  {
    var registered := w.(book := w.book.RegisterOid(u.oid, u.cloid));
    assert w.(buffered := buffered).(book := registered.book) == registered.(buffered := buffered);
    if u.status == ExFilled {
      CloseFilledAnyBuffer(registered, u, buffered);
    } else {
      ReportCloseAnyBuffer(registered, u, buffered);
    }
  }

  lemma ReportOpenWithout(w: World, u: Update, oid: nat)
    requires u.status == ExOpen && u.oid != oid
    ensures ReportUpdate(Without(w, oid), u) == Without(ReportUpdate(w, u), oid)
    ensures FillsOf(ReportUpdate(w, u).buffered, oid) == FillsOf(w.buffered, oid)
  {
    assert Emit(Without(w, oid), UpdateReport(Without(w, oid), u)) == Without(Emit(w, UpdateReport(w, u)), oid);
    ReplayWithout(Emit(w, UpdateReport(w, u)), u.oid, oid);
  }

  lemma UpdateWithout(w: World, e: Event, oid: nat)
    requires e.OrderUpdate? && Uneventful(w, e, oid)
    ensures Step(Without(w, oid), e) == Without(Step(w, e), oid)
    ensures FillsOf(Step(w, e).buffered, oid) == FillsOf(w.buffered, oid)
  {
    QuietWithout(w, e.now, oid);
    QuietChangesNothing(w, e.now, e.order);
    QuietChangesNothing(Without(w, oid), e.now, e.order);
    if e.update.status == ExOpen {
      var op := w.(book := OpenedBook(w.book, e.update, RefData.SymbolId(w.ref, e.update.coin)));
      ReportOpenWithout(op, e.update, oid);
    } else {
      TakeOtherAnyBuffer(w, e.update, FillsNotOf(w.buffered, oid));
    }
  }

  lemma TakeFillWithout(w: World, f: Fill, now: int, oid: nat)
    requires f.oid != oid
    ensures TakeFill(Without(w, oid), f, now) == Without(TakeFill(w, f, now), oid)
    ensures FillsOf(TakeFill(w, f, now).buffered, oid) == FillsOf(w.buffered, oid)
  {
    if w.book.ClientOfOid(f.oid) == "" {
      NotOfAppend(w.buffered, BufferedFill(f, now), oid);
      assert FillsOf(w.buffered, oid) + [] == FillsOf(w.buffered, oid);
    } else {
      EmitFillAnyBuffer(w, f, w.book.ClientOfOid(f.oid), w.book.CloidOfOid(f.oid), FillsNotOf(w.buffered, oid));
    }
  }

  lemma OtherFillWithout(w: World, e: Event, oid: nat)
    requires e.UserFill? && !IsFillOf(e, oid) && Uneventful(w, e, oid)
    ensures Step(Without(w, oid), e) == Without(Step(w, e), oid)
    ensures FillsOf(Step(w, e).buffered, oid) == FillsOf(w.buffered, oid)
  {
    QuietWithout(w, e.now, oid);
    QuietChangesNothing(w, e.now, e.order);
    QuietChangesNothing(Without(w, oid), e.now, e.order);
    if !e.fill.isSnapshot {
      TakeFillWithout(w, e.fill, e.now, oid);
    }
  }

  lemma RejectPlaceAnyBuffer(w: World, p: Pending, text: string, buffered: seq<BufferedFill>)
    ensures RejectPlace(w.(buffered := buffered), p, text) == RejectPlace(w, p, text).(buffered := buffered)
    ensures RejectPlace(w, p, text).buffered == w.buffered
  {
    EmitRemoveAnyBuffer(w, RejectReport(w.book, PlaceReject, p, text), p.cloid, buffered);
  }

  lemma {:induction false} RejectItemsAnyBuffer(w: World, p: Pending, items: seq<ReplyItem>,
                                                buffered: seq<BufferedFill>)
    ensures RejectPlaceItems(w.(buffered := buffered), p, items) == RejectPlaceItems(w, p, items).(buffered := buffered)
    ensures RejectPlaceItems(w, p, items).buffered == w.buffered
    decreases |items|
  {
    if items != [] {
      if items[0].ItemError? && w.book.ClientOf(p.cloid) != "" {
        RejectPlaceAnyBuffer(w, p, items[0].text, buffered);
        RejectItemsAnyBuffer(RejectPlace(w, p, items[0].text), p, items[1..], buffered);
      } else {
        RejectItemsAnyBuffer(w, p, items[1..], buffered);
      }
    }
  }

  lemma PlaceReplyAnyBuffer(w: World, r: Reply, corr: Option<nat>, buffered: seq<BufferedFill>)
    ensures OnPlaceReply(w.(buffered := buffered), r, corr) == OnPlaceReply(w, r, corr).(buffered := buffered)
    ensures OnPlaceReply(w, r, corr).buffered == w.buffered
  {
    var w' := w.(pendingPlaces := Drop(w.pendingPlaces, corr));
    var p := Take(w.pendingPlaces, corr);
    assert w.(buffered := buffered).(pendingPlaces := w'.pendingPlaces) == w'.(buffered := buffered);
    if r.status != "ok" && r.items == [] {
      RejectPlaceAnyBuffer(w', p, r.status, buffered);
    } else {
      RejectItemsAnyBuffer(w', p, r.items, buffered);
    }
  }

  lemma ModifyReplyAnyBuffer(w: World, r: Reply, corr: Option<nat>, buffered: seq<BufferedFill>)
    ensures OnModifyReply(w.(buffered := buffered), r, corr) == OnModifyReply(w, r, corr).(buffered := buffered)
    ensures OnModifyReply(w, r, corr).buffered == w.buffered
  {
    var w' := w.(pendingModifies := Drop(w.pendingModifies, corr));
    EmitAnyBuffer(w', RejectReport(w.book, AmendReject, Take(w.pendingModifies, corr), r.status), buffered);
  }

  lemma CancelReplyAnyBuffer(w: World, r: Reply, corr: Option<nat>, buffered: seq<BufferedFill>)
    ensures OnCancelReply(w.(buffered := buffered), r, corr) == OnCancelReply(w, r, corr).(buffered := buffered)
    ensures OnCancelReply(w, r, corr).buffered == w.buffered
  {
    if r.status != "ok" && r.items == [] {
      FailedCancelAnyBuffer(w, r, corr, buffered);
    }
  }

  lemma FailedCancelAnyBuffer(w: World, r: Reply, corr: Option<nat>, buffered: seq<BufferedFill>)
    requires r.status != "ok" && r.items == []
    ensures OnCancelReply(w.(buffered := buffered), r, corr) == OnCancelReply(w, r, corr).(buffered := buffered)
    ensures OnCancelReply(w, r, corr).buffered == w.buffered
  {
    var w' := w.(pendingCancels := Drop(w.pendingCancels, corr));
    EmitAnyBuffer(w', CancelRejectReport(w.book, Take(w.pendingCancels, corr), r.status), buffered);
  }

  lemma RequestAnyBuffer(w: World, e: Event, buffered: seq<BufferedFill>)
    requires e.NewOrder? || e.AmendOrder? || e.CancelOrder?
    ensures Step(w.(buffered := buffered), e) == Step(w, e).(buffered := buffered)
    ensures Step(w, e).buffered == w.buffered
  {
    match e {
      case NewOrder(r, cloid, now) => NewOrderAnyBuffer(w, r, cloid, now, buffered);
      case AmendOrder(r, now) => AmendOrderAnyBuffer(w, r, now, buffered);
      case CancelOrder(c) =>
    }
  }

  lemma NewOrderAnyBuffer(w: World, r: OrderRequest, cloid: string, now: int, buffered: seq<BufferedFill>)
    ensures OnNewOrder(w.(buffered := buffered), r, cloid, now) == OnNewOrder(w, r, cloid, now).(buffered := buffered)
    ensures OnNewOrder(w, r, cloid, now).buffered == w.buffered
  {
  }

  lemma AmendOrderAnyBuffer(w: World, r: OrderRequest, now: int, buffered: seq<BufferedFill>)
    ensures OnAmendOrder(w.(buffered := buffered), r, now) == OnAmendOrder(w, r, now).(buffered := buffered)
    ensures OnAmendOrder(w, r, now).buffered == w.buffered
  {
  }

  lemma StepWithout(w: World, e: Event, oid: nat)
    requires Uneventful(w, e, oid) && !IsFillOf(e, oid)
    ensures Step(Without(w, oid), e) == Without(Step(w, e), oid)
    ensures FillsOf(Step(w, e).buffered, oid) == FillsOf(w.buffered, oid)
  {
    var buffered := FillsNotOf(w.buffered, oid);
    match e {
      case NewOrder(_, _, _) => RequestAnyBuffer(w, e, buffered);
      case AmendOrder(_, _) => RequestAnyBuffer(w, e, buffered);
      case CancelOrder(_) => RequestAnyBuffer(w, e, buffered);
      case OrderUpdate(_, _, _) => UpdateWithout(w, e, oid);
      case UserFill(_, _, _) => OtherFillWithout(w, e, oid);
      case PlaceReply(r, corr) => PlaceReplyAnyBuffer(w, r, corr, buffered);
      case ModifyReply(r, corr) => ModifyReplyAnyBuffer(w, r, corr, buffered);
      case CancelReply(r, corr) => CancelReplyAnyBuffer(w, r, corr, buffered);
      case _ =>
    }
  }

  lemma OpenKeepsUnknown(w: World, u: Update, oid: nat)
    requires oid !in w.book.oidToCloid && u.oid != oid && u.status == ExOpen
    ensures oid !in TakeOpen(w, u).book.oidToCloid
  {
    var op := w.(book := OpenedBook(w.book, u, RefData.SymbolId(w.ref, u.coin)));
    assert op.book.oidToCloid == w.book.oidToCloid[u.oid := u.cloid];
    var reported := Emit(op, UpdateReport(op, u));
    ReplayEachOids(reported.(buffered := FillsNotOf(reported.buffered, u.oid)),
                   FillsOf(reported.buffered, u.oid), u.oid);
  }

  lemma OtherKeepsUnknown(w: World, u: Update, oid: nat)
    requires oid !in w.book.oidToCloid && u.oid != oid && u.status != ExOpen
    ensures oid !in TakeOther(w, u).book.oidToCloid
  {
    var registered := w.(book := w.book.RegisterOid(u.oid, u.cloid));
    assert oid !in registered.book.oidToCloid;
  }

  lemma StepKeepsUnknown(w: World, e: Event, oid: nat)
    requires oid !in w.book.oidToCloid && Uneventful(w, e, oid)
    ensures oid !in Step(w, e).book.oidToCloid
  {
    match e {
      case OrderUpdate(u, now, order) =>
        QuietChangesNothing(w, now, order);
        if u.status == ExOpen {
          OpenKeepsUnknown(w, u, oid);
        } else {
          OtherKeepsUnknown(w, u, oid);
        }
      case UserFill(f, now, order) =>
        QuietChangesNothing(w, now, order);
        TakeFillOids(w, f, now);
      case PlaceReply(r, corr) => PlaceReplyOids(w, r, corr);
      case _ =>
    }
  }

  lemma TakeFillOids(w: World, f: Fill, now: int)
    ensures TakeFill(w, f, now).book.oidToCloid.Keys <= w.book.oidToCloid.Keys
  {
    EmitFillOids(w, f, w.book.ClientOfOid(f.oid), w.book.CloidOfOid(f.oid));
  }

  lemma EmitFillOids(w: World, f: Fill, client: string, cloid: string)
    ensures EmitFill(w, f, client, cloid).book.oidToCloid.Keys <= w.book.oidToCloid.Keys
  {
    var b := w.book.ApplyFill(cloid, f.sz);
    assert b.RemoveOrder(cloid).oidToCloid.Keys <= b.oidToCloid.Keys;
  }

  lemma PlaceReplyOids(w: World, r: Reply, corr: Option<nat>)
    ensures OnPlaceReply(w, r, corr).book.oidToCloid.Keys <= w.book.oidToCloid.Keys
  {
    RejectItemsOids(w.(pendingPlaces := Drop(w.pendingPlaces, corr)), Take(w.pendingPlaces, corr), r.items);
  }

  lemma {:induction false} ReplayEachOids(w: World, fills: seq<Fill>, oid: nat)
    ensures ReplayEach(w, fills, oid).book.oidToCloid.Keys <= w.book.oidToCloid.Keys
    decreases |fills|
  {
    if fills != [] {
      EmitFillOids(w, fills[0], w.book.ClientOfOid(oid), w.book.CloidOfOid(oid));
      ReplayEachOids(EmitFill(w, fills[0], w.book.ClientOfOid(oid), w.book.CloidOfOid(oid)), fills[1..], oid);
    }
  }

  lemma {:induction false} RejectItemsOids(w: World, p: Pending, items: seq<ReplyItem>)
    ensures RejectPlaceItems(w, p, items).book.oidToCloid.Keys <= w.book.oidToCloid.Keys
    decreases |items|
  {
    if items != [] {
      if items[0].ItemError? && w.book.ClientOf(p.cloid) != "" {
        RejectItemsOids(RejectPlace(w, p, items[0].text), p, items[1..]);
      } else {
        RejectItemsOids(w, p, items[1..]);
      }
    }
  }

  // A fill of the unknown oid only waits.
  lemma EarlyFillWaits(w: World, e: Event, oid: nat)
    requires IsFillOf(e, oid) && Uneventful(w, e, oid) && oid !in w.book.oidToCloid
    ensures Without(Step(w, e), oid) == Without(w, oid)
    ensures FillsOf(Step(w, e).buffered, oid) == FillsOf(w.buffered, oid) + [e.fill]
    ensures Step(w, e).book == w.book
  {
    QuietChangesNothing(w, e.now, e.order);
    NotOfAppend(w.buffered, BufferedFill(e.fill, e.now), oid);
    assert FillsNotOf(w.buffered, oid) + [] == FillsNotOf(w.buffered, oid);
  }

  // Up to the Open the two runs differ only in what waits for the oid.
  lemma {:induction false} RunWithout(w: World, es: seq<Event>, oid: nat)
    requires oid !in w.book.oidToCloid && UneventfulRun(w, es, oid)
    ensures Run(Without(w, oid), OtherEvents(es, oid)) == Without(Run(w, es), oid)
    decreases |es|
  {
    if es != [] {
      var others := OtherEvents(es, oid);
      if IsFillOf(es[0], oid) {
        EarlyFillWaits(w, es[0], oid);
        assert others == OtherEvents(es[1..], oid);
      } else {
        StepWithout(w, es[0], oid);
        StepKeepsUnknown(w, es[0], oid);
        assert others[0] == es[0] && others[1..] == OtherEvents(es[1..], oid);
      }
      RunWithout(Step(w, es[0]), es[1..], oid);
    }
  }

  lemma {:induction false} RunWaiting(w: World, es: seq<Event>, oid: nat)
    requires oid !in w.book.oidToCloid && UneventfulRun(w, es, oid)
    ensures FillsOf(Run(w, es).buffered, oid) == FillsOf(w.buffered, oid) + MovedFills(es, oid)
    decreases |es|
  {
    if es != [] {
      var before, later := FillsOf(w.buffered, oid), MovedFills(es[1..], oid);
      if IsFillOf(es[0], oid) {
        EarlyFillWaits(w, es[0], oid);
        Assoc(before, [es[0].fill], later);
      } else {
        StepWithout(w, es[0], oid);
        StepKeepsUnknown(w, es[0], oid);
        assert MovedFills(es, oid) == later;
      }
      RunWaiting(Step(w, es[0]), es[1..], oid);
    }
  }

  // --- the fills, replayed or arriving late -------------------------------

  // Every fill but the last leaves the order tracked: it has room for more, or
  // it is IOC.
  predicate Fits(s: OrderState, fills: seq<Fill>)
    decreases |fills|
  {
    |fills| <= 1 ||
    var s' := s.(cumQty := s.cumQty + fills[0].sz);
    (s'.cumQty < s'.origSz || s'.isIoc) && Fits(s', fills[1..])
  }

  // The given fills as events, at quiet times less than the fill timeout apart.
  ghost predicate ArriveLate(w: World, fills: seq<Fill>, late: seq<Event>) {
    && |late| == |fills|
    && (forall i :: 0 <= i < |late| ==>
          late[i].UserFill? && late[i].fill == fills[i] && !fills[i].isSnapshot && Quiet(w, late[i].now))
    && (forall i, j :: 0 <= i < j < |late| ==> !Stale(BufferedFill(fills[i], late[i].now), late[j].now))
  }

  ghost predicate Leads(b: Book, oid: nat, cloid: string) {
    b.CloidOfOid(oid) == cloid && b.ClientOf(cloid) != "" && oid in b.oidToCloid && cloid in b.cloidToState
  }

  // Fills that fit are treated alike whether replayed or arriving one by one.
  lemma {:induction false} LateIsReplay(w: World, fills: seq<Fill>, late: seq<Event>, oid: nat, cloid: string)
    requires ArriveLate(w, fills, late) && (forall i :: 0 <= i < |fills| ==> fills[i].oid == oid)
    requires fills != [] ==> Leads(w.book, oid, cloid)
    requires Fits(w.book.StateOf(cloid), fills)
    ensures Run(w, late) == ReplayEach(w, fills, oid)
    decreases |fills|
  {
    if fills != [] {
      QuietChangesNothing(w, late[0].now, late[0].order);
      var w1 := EmitFill(w, fills[0], w.book.ClientOfOid(oid), cloid);
      assert Step(w, late[0]) == w1;
      forall i | 1 <= i < |late| ensures Quiet(w1, late[i].now) {
        EmitFillQuiet(w, fills[0], w.book.ClientOfOid(oid), cloid, late[i].now);
      }
      if |fills| > 1 {
        assert w1.book == w.book.ApplyFill(cloid, fills[0].sz);
      }
      LateIsReplay(w1, fills[1..], late[1..], oid, cloid);
    }
  }

  // Once the order is gone, a late fill is left waiting ...
  lemma LateFillWaits(w: World, fills: seq<Fill>, late: seq<Event>, oid: nat)
    requires ArriveLate(w, fills, late) && (forall i :: 0 <= i < |fills| ==> fills[i].oid == oid)
    requires oid !in w.book.oidToCloid && fills != []
    ensures var w1 := Step(w, late[0]);
            && w1.book == w.book && ArriveLate(w1, fills[1..], late[1..])
            && FillsOf(w1.buffered, oid) == FillsOf(w.buffered, oid) + [fills[0]]
  {
    QuietChangesNothing(w, late[0].now, late[0].order);
    var b := BufferedFill(fills[0], late[0].now);
    var w1 := w.(buffered := w.buffered + [b]);
    assert Step(w, late[0]) == w1;
    NotOfAppend(w.buffered, b, oid);
    forall i | 1 <= i < |late| ensures Quiet(w1, late[i].now) {
      assert !Stale(BufferedFill(fills[0], late[0].now), late[i].now);
    }
  }

  // ... and so are those after it.
  lemma {:induction false} LateFillsWait(w: World, fills: seq<Fill>, late: seq<Event>, oid: nat)
    requires ArriveLate(w, fills, late) && (forall i :: 0 <= i < |fills| ==> fills[i].oid == oid)
    requires oid !in w.book.oidToCloid
    ensures FillsOf(Run(w, late).buffered, oid) == FillsOf(w.buffered, oid) + fills
    decreases |fills|
  {
    if fills != [] {
      LateFillWaits(w, fills, late, oid);
      LateFillsWait(Step(w, late[0]), fills[1..], late[1..], oid);
      AddFirst(FillsOf(w.buffered, oid), fills);
    }
  }

  lemma AddFirst(before: seq<Fill>, fills: seq<Fill>)
    requires fills != []
    ensures before + [fills[0]] + fills[1..] == before + fills
  {
  }

  // Fills that do not fit leave a trace in the buffer that a replay does not.
  lemma {:induction false} LateOverfillWaits(w: World, fills: seq<Fill>, late: seq<Event>, oid: nat, cloid: string)
    requires ArriveLate(w, fills, late) && (forall i :: 0 <= i < |fills| ==> fills[i].oid == oid)
    requires Leads(w.book, oid, cloid) && !Fits(w.book.StateOf(cloid), fills)
    ensures FillsOf(Run(w, late).buffered, oid) != []
    decreases |fills|
  {
    QuietChangesNothing(w, late[0].now, late[0].order);
    var w1 := EmitFill(w, fills[0], w.book.ClientOfOid(oid), cloid);
    assert Step(w, late[0]) == w1;
    forall i | 1 <= i < |late| ensures Quiet(w1, late[i].now) {
      EmitFillQuiet(w, fills[0], w.book.ClientOfOid(oid), cloid, late[i].now);
    }
    var s' := w.book.StateOf(cloid).(cumQty := w.book.StateOf(cloid).cumQty + fills[0].sz);
    if s'.cumQty < s'.origSz || s'.isIoc {
      assert w1.book == w.book.ApplyFill(cloid, fills[0].sz);
      LateOverfillWaits(w1, fills[1..], late[1..], oid, cloid);
    } else {
      LateFillsWait(w1, fills[1..], late[1..], oid);
    }
  }

  // --- the theorem --------------------------------------------------------

  // The state of the order right after its Open.
  ghost function OpenedState(w: World, u: Update): OrderState {
    OpenedBook(w.book, u, RefData.SymbolId(w.ref, u.coin)).StateOf(u.cloid)
  }

  // At the Open the waiting fills are replayed on top of what the Open does.
  lemma OpenReplays(w: World, open: Event)
    requires open.OrderUpdate? && open.update.status == ExOpen && Quiet(w, open.now)
    requires w.book.ClientOf(open.update.cloid) != ""
    ensures var oid := open.update.oid; var x := Step(Without(w, oid), open);
            && Step(w, open) == ReplayEach(x, FillsOf(w.buffered, oid), oid)
            && x.buffered == FillsNotOf(w.buffered, oid)
            && x.book == OpenedBook(w.book, open.update, RefData.SymbolId(w.ref, open.update.coin))
            && x.iocTimeoutSecs == w.iocTimeoutSecs
  {
    var u, oid := open.update, open.update.oid;
    QuietWithout(w, open.now, oid);
    QuietChangesNothing(w, open.now, open.order);
    QuietChangesNothing(Without(w, oid), open.now, open.order);
    SameOid(w.buffered, oid);
    var op := w.(book := OpenedBook(w.book, u, RefData.SymbolId(w.ref, u.coin)));
    assert op.book.cloidToClient == w.book.cloidToClient;
    assert UpdateReport(Without(op, oid), u) == UpdateReport(op, u);
  }

  lemma {:induction false} FillsOfAre(buffered: seq<BufferedFill>, oid: nat)
    ensures forall f :: f in FillsOf(buffered, oid) ==> f.oid == oid
  {
    if buffered != [] {
      FillsOfAre(buffered[1..], oid);
    }
  }

  // Take any uneventful run up to the Open of an oid not heard of before. Move
  // the fills of that oid to after the Open. The final states, the whole log
  // included, are equal if and only if the fills fit the order: none comes
  // after a non-IOC order is full.
  lemma EarlyFillsHarmless(w: World, before: seq<Event>, open: Event, late: seq<Event>)
    requires open.OrderUpdate? && open.update.status == ExOpen
    requires open.update.oid !in w.book.oidToCloid && FillsOf(w.buffered, open.update.oid) == []
    requires UneventfulRun(w, before, open.update.oid)
    requires Quiet(Run(w, before), open.now)
    requires Run(w, before).book.ClientOf(open.update.cloid) != ""
    requires ArriveLate(Run(w, OtherEvents(before, open.update.oid) + [open]),
                        MovedFills(before, open.update.oid), late)
    ensures Run(w, before + [open]) == Run(w, OtherEvents(before, open.update.oid) + [open] + late)
            <==> Fits(OpenedState(Run(w, before), open.update), MovedFills(before, open.update.oid))
  {
    var oid, cloid := open.update.oid, open.update.cloid;
    var moved := MovedFills(before, oid);
    var a := Run(w, before);
    SameOid(w.buffered, oid);
    RunWithout(w, before, oid);
    RunWaiting(w, before, oid);
    assert Without(w, oid) == w && FillsOf(a.buffered, oid) == moved;
    var x := Step(Without(a, oid), open);
    OpenReplays(a, open);
    RunOne(w, before, open);
    RunOne(w, OtherEvents(before, oid), open);
    RunAppend(w, OtherEvents(before, oid) + [open], late);
    OpenLeads(a.book, open.update, RefData.SymbolId(a.ref, open.update.coin));
    FillsOfAre(a.buffered, oid);
    SameOid(a.buffered, oid);
    LateOrReplayed(x, moved, late, oid, cloid);
  }

  lemma LateOrReplayed(x: World, moved: seq<Fill>, late: seq<Event>, oid: nat, cloid: string)
    requires ArriveLate(x, moved, late) && (forall f :: f in moved ==> f.oid == oid)
    requires Leads(x.book, oid, cloid) && FillsOf(x.buffered, oid) == []
    ensures ReplayEach(x, moved, oid) == Run(x, late) <==> Fits(x.book.StateOf(cloid), moved)
  {
    if Fits(x.book.StateOf(cloid), moved) {
      LateIsReplay(x, moved, late, oid, cloid);
    } else {
      LateOverfillWaits(x, moved, late, oid, cloid);
      ReplayEachKeepsBuffer(x, moved, oid);
    }
  }

  lemma OpenLeads(b: Book, u: Update, securityId: int)
    requires b.ClientOf(u.cloid) != ""
    ensures Leads(OpenedBook(b, u, securityId), u.oid, u.cloid)
  {
  }

  lemma RunOne(w: World, es: seq<Event>, e: Event)
    ensures Run(w, es + [e]) == Step(Run(w, es), e)
  {
    RunAppend(w, es, [e]);
  }
}
