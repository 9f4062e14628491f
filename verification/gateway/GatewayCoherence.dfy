// The six maps of the orders handler agree with one another in every reachable
// state.
module GatewayCoherence {
  import opened Common
  import opened OrderBook
  import opened GatewayModel
  import opened GatewayRuns
  import RefData

  // --- the invariant ------------------------------------------------------

  ghost predicate MutualInverses(b: Book) {
    && (forall k :: k in b.clientToCloid ==>
          k != "" && b.clientToCloid[k] in b.cloidToClient && b.cloidToClient[b.clientToCloid[k]] == k)
    && (forall c :: c in b.cloidToClient ==>
          b.cloidToClient[c] in b.clientToCloid && b.clientToCloid[b.cloidToClient[c]] == c)
  }

  ghost predicate SameOrders(b: Book) {
    && b.cloidToAsset.Keys == b.cloidToClient.Keys
    && b.cloidToClient.Keys <= b.cloidToState.Keys
  }

  ghost predicate ActiveOidsMapBack(b: Book) {
    forall c :: c in b.cloidToOid ==> b.cloidToOid[c] in b.oidToCloid && b.oidToCloid[b.cloidToOid[c]] == c
  }

  // An oid leads to a live order only after an Open was seen for the order.
  ghost predicate OpenSeen(b: Book, except: set<string>) {
    forall o :: o in b.oidToCloid && b.Live(b.oidToCloid[o]) && b.oidToCloid[o] !in except
                ==> b.oidToCloid[o] in b.cloidToOid
  }

  ghost predicate IocOrdersLive(b: Book) {
    forall c :: c in b.cloidToState && b.cloidToState[c].isIoc ==> b.Live(c)
  }

  ghost predicate WithinSeen(b: Book, seen: set<string>) {
    && "" in seen
    && !b.Live("")
    && b.cloidToState.Keys <= seen
    && (forall o :: o in b.oidToCloid ==> b.oidToCloid[o] in seen)
  }

  ghost predicate CoherentExcept(b: Book, seen: set<string>, except: set<string>) {
    MutualInverses(b) && SameOrders(b) && ActiveOidsMapBack(b) && OpenSeen(b, except)
    && IocOrdersLive(b) && WithinSeen(b, seen)
  }

  ghost predicate Coherent(b: Book, seen: set<string>) {
    CoherentExcept(b, seen, {})
  }

  // --- preservation by the handler's operations ---------------------------

  lemma RemoveCoherent(b: Book, seen: set<string>, except: set<string>, cloid: string)
    requires CoherentExcept(b, seen, except) && except <= {cloid}
    ensures Coherent(b.RemoveOrder(cloid), seen)
  {
  }

  // Every trace of the order is gone from all six maps; every entry of any
  // other order is as it was.
  lemma RemoveOrderIsExact(b: Book, seen: set<string>, cloid: string)
    requires Coherent(b, seen)
    ensures var r := b.RemoveOrder(cloid);
            && !r.Live(cloid) && cloid !in r.cloidToAsset && cloid !in r.cloidToState && cloid !in r.cloidToOid
            && (forall k :: k in r.clientToCloid ==> r.clientToCloid[k] != cloid)
            && (forall o :: o in r.oidToCloid ==> r.oidToCloid[o] != cloid)
    ensures var r := b.RemoveOrder(cloid);
            forall c :: c != cloid ==>
              && r.ClientOf(c) == b.ClientOf(c) && (r.Live(c) <==> b.Live(c))
              && r.StateOf(c) == b.StateOf(c) && (c in r.cloidToState <==> c in b.cloidToState)
              && (c in r.cloidToOid <==> c in b.cloidToOid)
              && (c in b.cloidToOid ==> r.cloidToOid[c] == b.cloidToOid[c])
              && (c in r.cloidToAsset <==> c in b.cloidToAsset)
              && (c in b.cloidToAsset ==> r.cloidToAsset[c] == b.cloidToAsset[c])
    ensures var r := b.RemoveOrder(cloid);
            && (forall k :: k in b.clientToCloid && b.clientToCloid[k] != cloid ==>
                  k in r.clientToCloid && r.clientToCloid[k] == b.clientToCloid[k])
            && (forall o :: o in b.oidToCloid && b.oidToCloid[o] != cloid ==>
                  o in r.oidToCloid && r.oidToCloid[o] == b.oidToCloid[o])
  {
  }

  lemma ApplyFillCoherent(b: Book, seen: set<string>, except: set<string>, cloid: string, size: int)
    requires CoherentExcept(b, seen, except) && cloid in seen
    ensures CoherentExcept(b.ApplyFill(cloid, size), seen, except)
  {
  }

  lemma EmitFillCoherent(w: World, seen: set<string>, f: Fill, client: string, cloid: string)
    requires Coherent(w.book, seen) && cloid in seen
    ensures Coherent(EmitFill(w, f, client, cloid).book, seen)
  {
    ApplyFillCoherent(w.book, seen, {}, cloid, f.sz);
    RemoveCoherent(w.book.ApplyFill(cloid, f.sz), seen, {}, cloid);
  }

  lemma {:induction false} ReplayEachCoherent(w: World, seen: set<string>, fills: seq<Fill>, oid: nat)
    requires Coherent(w.book, seen)
    ensures Coherent(ReplayEach(w, fills, oid).book, seen)
    decreases |fills|
  {
    if fills != [] {
      EmitFillCoherent(w, seen, fills[0], w.book.ClientOfOid(oid), w.book.CloidOfOid(oid));
      ReplayEachCoherent(EmitFill(w, fills[0], w.book.ClientOfOid(oid), w.book.CloidOfOid(oid)), seen, fills[1..], oid);
    }
  }

  lemma {:induction false} TimeOutOrdersCoherent(w: World, seen: set<string>, due: seq<string>)
    requires Coherent(w.book, seen)
    ensures Coherent(TimeOutOrders(w, due).book, seen)
    ensures TimeOutOrders(w, due).book.oidToCloid.Keys <= w.book.oidToCloid.Keys
    ensures forall o :: o in TimeOutOrders(w, due).book.oidToCloid ==>
              TimeOutOrders(w, due).book.oidToCloid[o] == w.book.oidToCloid[o]
    decreases |due|
  {
    if due != [] {
      RemoveCoherent(w.book, seen, {}, due[0]);
      TimeOutOrdersCoherent(TimeOutOrder(w, due[0]), seen, due[1..]);
    }
  }

  lemma SetStateCoherent(b: Book, seen: set<string>, cloid: string, s: OrderState)
    requires Coherent(b, seen) && cloid in seen && (s.isIoc ==> b.Live(cloid))
    ensures Coherent(b.SetState(cloid, s), seen)
  {
  }

  lemma SetActiveCoherent(b: Book, seen: set<string>, oid: nat, cloid: string)
    requires Coherent(b, seen)
    requires oid in b.oidToCloid ==> b.oidToCloid[oid] == cloid
    ensures Coherent(b.RegisterOid(oid, cloid).SetActiveOid(oid, cloid), seen + {cloid})
  {
  }

  // After an Open the book is coherent; after the registration any other
  // update starts with, it is so except for the order concerned.
  lemma OpenedCoherent(b: Book, seen: set<string>, u: Update, securityId: int)
    requires Coherent(b, seen)
    requires u.oid in b.oidToCloid ==> b.oidToCloid[u.oid] == u.cloid
    ensures Coherent(OpenedBook(b, u, securityId), seen + {u.cloid})
  {
    SetActiveCoherent(b, seen, u.oid, u.cloid);
    var b1 := b.RegisterOid(u.oid, u.cloid).SetActiveOid(u.oid, u.cloid);
    var b2 := b1.InitOrderState(u.cloid, u.origSz, securityId);
    SetStateCoherent(b1, seen + {u.cloid}, u.cloid, b2.StateOf(u.cloid));
    SetStateCoherent(b2, seen + {u.cloid}, u.cloid, b2.CommitPendingOrderType(u.cloid).StateOf(u.cloid));
  }

  lemma RegisteredCoherent(b: Book, seen: set<string>, oid: nat, cloid: string)
    requires Coherent(b, seen)
    requires oid in b.oidToCloid ==> b.oidToCloid[oid] == cloid
    ensures CoherentExcept(b.RegisterOid(oid, cloid), seen + {cloid}, {cloid})
    ensures !b.Live(cloid) || cloid in b.cloidToOid ==> Coherent(b.RegisterOid(oid, cloid), seen + {cloid})
  {
  }

  lemma TakeOpenCoherent(w: World, seen: set<string>, u: Update)
    requires Coherent(w.book, seen) && u.status == ExOpen
    requires u.oid in w.book.oidToCloid ==> w.book.oidToCloid[u.oid] == u.cloid
    ensures Coherent(TakeOpen(w, u).book, seen + {u.cloid})
  {
    var securityId := RefData.SymbolId(w.ref, u.coin);
    OpenedCoherent(w.book, seen, u, securityId);
    var op := w.(book := OpenedBook(w.book, u, securityId));
    var reported := Emit(op, UpdateReport(op, u));
    ReplayEachCoherent(reported.(buffered := FillsNotOf(reported.buffered, u.oid)), seen + {u.cloid},
                       FillsOf(reported.buffered, u.oid), u.oid);
  }

  lemma ClosesCoherently(w: World, seen: set<string>, u: Update)
    requires CoherentExcept(w.book, seen, {u.cloid}) && u.status != ExOpen
    ensures ReportUpdate(w, u).book == w.book || Coherent(ReportUpdate(w, u).book, seen)
    ensures CloseFilled(w, u).book == w.book || Coherent(CloseFilled(w, u).book, seen)
    ensures w.book.ClientOf(u.cloid) != "" ==> Coherent(ReportUpdate(w, u).book, seen)
    ensures w.book.CloidOfOid(u.oid) != "" ==> Coherent(CloseFilled(w, u).book, seen)
  {
    RemoveCoherent(w.book, seen, {u.cloid}, u.cloid);
  }

  lemma TakeOtherCoherent(w: World, seen: set<string>, u: Update)
    requires Coherent(w.book, seen) && u.status != ExOpen
    requires u.oid in w.book.oidToCloid ==> w.book.oidToCloid[u.oid] == u.cloid
    ensures Coherent(TakeOther(w, u).book, seen + {u.cloid})
  {
    var registered := w.(book := w.book.RegisterOid(u.oid, u.cloid));
    RegisteredCoherent(w.book, seen, u.oid, u.cloid);
    ClosesCoherently(registered, seen + {u.cloid}, u);
  }

  lemma OrderUpdateCoherent(w: World, seen: set<string>, u: Update, now: int, order: seq<string>)
    requires Coherent(w.book, seen)
    requires u.oid in w.book.oidToCloid ==> w.book.oidToCloid[u.oid] == u.cloid
    ensures Coherent(OnOrderUpdate(w, u, now, order).book, seen + {u.cloid})
  {
    TimeOutOrdersCoherent(ExpireFills(w, now), seen, DueOrders(w.book, w.iocTimeoutSecs, order, now));
    if u.status == ExOpen {
      TakeOpenCoherent(CheckTimeouts(w, now, order), seen, u);
    } else {
      TakeOtherCoherent(CheckTimeouts(w, now, order), seen, u);
    }
  }

  lemma UserFillCoherent(w: World, seen: set<string>, f: Fill, now: int, order: seq<string>)
    requires Coherent(w.book, seen)
    ensures Coherent(OnUserFill(w, f, now, order).book, seen)
  {
    TimeOutOrdersCoherent(ExpireFills(w, now), seen, DueOrders(w.book, w.iocTimeoutSecs, order, now));
    var w' := CheckTimeouts(w, now, order);
    if w'.book.ClientOfOid(f.oid) != "" {
      EmitFillCoherent(w', seen, f, w'.book.ClientOfOid(f.oid), w'.book.CloidOfOid(f.oid));
    }
  }

  lemma PlaceReplyCoherent(w: World, seen: set<string>, r: Reply, corr: Option<nat>)
    requires Coherent(w.book, seen)
    ensures Coherent(OnPlaceReply(w, r, corr).book, seen)
  {
    var p := Take(w.pendingPlaces, corr);
    RemoveCoherent(w.book, seen, {}, p.cloid);
    RejectPlaceItemsCoherent(w.(pendingPlaces := Drop(w.pendingPlaces, corr)), seen, p, r.items);
  }

  lemma EnteredCoherent(b: Book, seen: set<string>, r: OrderRequest, cloid: string, asset: Asset, now: int)
    requires Coherent(b, seen) && r.clientOrderId != "" && r.clientOrderId !in b.clientToCloid && cloid !in seen
    ensures Coherent(EnteredBook(b, r, cloid, asset, now), seen + {cloid})
  {
    EnteredInverse(b, seen, r, cloid, asset, now);
    assert cloid !in b.cloidToState;
    assert forall o :: o in b.oidToCloid ==> b.oidToCloid[o] != cloid;
  }

  lemma EnteredInverse(b: Book, seen: set<string>, r: OrderRequest, cloid: string, asset: Asset, now: int)
    requires MutualInverses(b) && SameOrders(b) && WithinSeen(b, seen)
    requires r.clientOrderId != "" && r.clientOrderId !in b.clientToCloid && cloid !in seen
    ensures var b' := EnteredBook(b, r, cloid, asset, now); MutualInverses(b') && SameOrders(b')
  {
    assert cloid !in b.cloidToState;
  }

  lemma NewOrderCoherent(w: World, seen: set<string>, r: OrderRequest, cloid: string, now: int)
    requires Coherent(w.book, seen)
    requires Admissible(w, seen, NewOrder(r, cloid, now))
    ensures Coherent(OnNewOrder(w, r, cloid, now).book, seen + {cloid})
  {
    if Accepts(w, r) {
      EnteredCoherent(w.book, seen, r, cloid, AssetOf(w.ref.securities[r.securityId]).value, now);
    }
  }

  lemma AmendOrderCoherent(w: World, seen: set<string>, r: OrderRequest, now: int)
    requires Coherent(w.book, seen)
    ensures Coherent(OnAmendOrder(w, r, now).book, seen)
  {
  }

  lemma {:induction false} RejectPlaceItemsCoherent(w: World, seen: set<string>, p: Pending, items: seq<ReplyItem>)
    requires Coherent(w.book, seen)
    ensures Coherent(RejectPlaceItems(w, p, items).book, seen)
    decreases |items|
  {
    if items != [] {
      if items[0].ItemError? && w.book.ClientOf(p.cloid) != "" {
        RemoveCoherent(w.book, seen, {}, p.cloid);
        RejectPlaceItemsCoherent(RejectPlace(w, p, items[0].text), seen, p, items[1..]);
      } else {
        RejectPlaceItemsCoherent(w, seen, p, items[1..]);
      }
    }
  }

  lemma StepCoherent(w: World, seen: set<string>, e: Event)
    requires Coherent(w.book, seen) && Admissible(w, seen, e)
    ensures Coherent(Step(w, e).book, seen + Mentions(e))
  {
    assert seen + {} == seen;
    match e {
      case NewOrder(r, cloid, now) => NewOrderCoherent(w, seen, r, cloid, now);
      case AmendOrder(r, now) => AmendOrderCoherent(w, seen, r, now);
      case OrderUpdate(u, now, order) => OrderUpdateCoherent(w, seen, u, now, order);
      case UserFill(f, now, order) => UserFillCoherent(w, seen, f, now, order);
      case PlaceReply(r, corr) => PlaceReplyCoherent(w, seen, r, corr);
      case _ =>
    }
  }

  // Map coherence in every reachable state.
  lemma {:induction false} RunCoherent(w: World, seen: set<string>, es: seq<Event>)
    requires Coherent(w.book, seen) && ValidRun(w, seen, es)
    ensures Coherent(Run(w, es).book, seen + AllMentions(es))
    decreases |es|
  {
    if es == [] {
      assert seen + AllMentions(es) == seen;
    } else {
      StepCoherent(w, seen, es[0]);
      RunCoherent(Step(w, es[0]), seen + Mentions(es[0]), es[1..]);
      assert seen + Mentions(es[0]) + AllMentions(es[1..]) == seen + AllMentions(es);
    }
  }

  lemma ReachableCoherent(iocTimeoutSecs: int, es: seq<Event>)
    requires ValidRun(Initial(iocTimeoutSecs), SEEN_INITIALLY, es)
    ensures Coherent(Run(Initial(iocTimeoutSecs), es).book, SEEN_INITIALLY + AllMentions(es))
  {
    RunCoherent(Initial(iocTimeoutSecs), SEEN_INITIALLY, es);
  }

  // The lookups undo one another: from a client id to the cloid and back, from
  // a live order to its client id and back, and from the active oid of a live
  // order to the order. An oid that leads to a client id leads to an order that
  // was opened.
  lemma LookupsRoundTrip(iocTimeoutSecs: int, es: seq<Event>)
    requires ValidRun(Initial(iocTimeoutSecs), SEEN_INITIALLY, es)
    ensures var b := Run(Initial(iocTimeoutSecs), es).book;
            && (forall k :: k in b.clientToCloid ==> b.ClientOf(b.clientToCloid[k]) == k)
            && (forall c :: b.Live(c) ==>
                  b.ClientOf(c) != "" && b.ClientOf(c) in b.clientToCloid && b.clientToCloid[b.ClientOf(c)] == c)
            && (forall c :: b.Live(c) && c in b.cloidToOid ==>
                  b.CloidOfOid(b.cloidToOid[c]) == c && b.ClientOfOid(b.cloidToOid[c]) == b.ClientOf(c))
            && (forall o :: o in b.oidToCloid && b.ClientOfOid(o) != "" ==> b.CloidOfOid(o) in b.cloidToOid)
  {
    ReachableCoherent(iocTimeoutSecs, es);
  }
}
