// The two objects of the Hyperliquid gateway, which update their fields in
// place. Each method is proved to compute the corresponding function of
// GatewayModel on the state of both objects.
module GatewayClasses {
  import opened Common
  import opened OrderBook
  import opened GatewayModel
  import RefData

  // The pieces of a sequence around an index, and of it without that element.
  lemma CutAt<T>(s: seq<T>, i: nat)
    requires i < |s|
    ensures s[i..][0] == s[i] && s[i..][1..] == s[i + 1..] && s[..i] + [s[i]] == s[..i + 1]
    ensures (s[..i] + s[i + 1..])[..i] == s[..i] && (s[..i] + s[i + 1..])[i..] == s[i + 1..]
  {
  }

  lemma ExpiryAt(s: seq<BufferedFill>, i: nat, now: int)
    requires i < |s|
    ensures FreshFills(s[i..], now) == (if Stale(s[i], now) then [] else [s[i]]) + FreshFills(s[i + 1..], now)
    ensures ExpiredLog(s[i..], now)
            == (if Stale(s[i], now) then [FillExpired(s[i].fill)] else []) + ExpiredLog(s[i + 1..], now)
  {
    CutAt(s, i);
  }

  // One round of the expiry loop: a stale fill moves to the log, a fresh one is
  // kept.
  lemma ExpiryStep(s: seq<BufferedFill>, i: nat, now: int, log: seq<Output>)
    requires i < |s|
    ensures s[..i] + FreshFills(s[i..], now) ==
            if Stale(s[i], now) then s[..i] + FreshFills(s[i + 1..], now) else s[..i + 1] + FreshFills(s[i + 1..], now)
    ensures log + ExpiredLog(s[i..], now) ==
            if Stale(s[i], now) then log + [FillExpired(s[i].fill)] + ExpiredLog(s[i + 1..], now)
            else log + ExpiredLog(s[i + 1..], now)
  {
    CutAt(s, i);
    ExpiryAt(s, i, now);
    Assoc(s[..i], [s[i]], FreshFills(s[i + 1..], now));
    Assoc(log, [FillExpired(s[i].fill)], ExpiredLog(s[i + 1..], now));
  }

  class OrdersHandler {
    var isReplay: bool
    var clientToCloid: map<string, string>
    var cloidToClient: map<string, string>
    var oidToCloid: map<nat, string>
    var cloidToOid: map<string, nat>
    var cloidToAsset: map<string, Asset>
    var cloidToState: map<string, OrderState>

    function State(): Book
      reads this
    {
      Book(clientToCloid, cloidToClient, oidToCloid, cloidToOid, cloidToAsset, cloidToState)
    }

    constructor ()
      ensures State() == EMPTY_BOOK && !isReplay
    {
      isReplay := false;
      clientToCloid, cloidToClient, oidToCloid := map[], map[], map[];
      cloidToOid, cloidToAsset, cloidToState := map[], map[], map[];
    }

    function LookupClientOrderId(cloid: string): (client: string)
      reads this
      ensures client == State().ClientOf(cloid)
    {
      if cloid in cloidToClient then cloidToClient[cloid] else ""
    }

    function LookupCloidByOid(oid: nat): (cloid: string)
      reads this
      ensures cloid == State().CloidOfOid(oid)
    {
      if oid in oidToCloid then oidToCloid[oid] else ""
    }

    function LookupClientOrderIdByOid(oid: nat): (client: string)
      reads this
      ensures client == State().ClientOfOid(oid)
    {
      if oid !in oidToCloid then "" else LookupClientOrderId(oidToCloid[oid])
    }

    method RegisterOid(oid: nat, cloid: string)
      modifies this`oidToCloid
      ensures State() == old(State()).RegisterOid(oid, cloid)
    {
      oidToCloid := oidToCloid[oid := cloid];
    }

    method SetActiveOid(oid: nat, cloid: string)
      modifies this`oidToCloid, this`cloidToOid
      ensures State() == old(State()).SetActiveOid(oid, cloid)
    {
      cloidToOid := cloidToOid[cloid := oid];
      oidToCloid := oidToCloid[oid := cloid];
    }

    predicate IsActiveOid(oid: nat, cloid: string)
      reads this
    {
      if cloid !in cloidToOid then true else cloidToOid[cloid] == oid
    }

    // The entry operator[] of the state map gives access to.
    function Slot(cloid: string): OrderState
      reads this
    {
      if cloid in cloidToState then cloidToState[cloid] else BLANK_STATE
    }

    method InitOrderState(cloid: string, origSz: int, securityId: int)
      modifies this`cloidToState
      ensures State() == old(State()).InitOrderState(cloid, origSz, securityId)
    {
      var s := Slot(cloid);
      s := s.(origSz := if s.requestedQty > 0 && s.requestedQty > origSz then s.requestedQty else origSz);
      s := s.(cumQty := 0);
      s := s.(securityId := securityId);
      cloidToState := cloidToState[cloid := s];
    }

    method SetPendingOrderType(cloid: string, t: OrderType)
      modifies this`cloidToState
      ensures State() == old(State()).SetState(cloid, old(State()).StateOf(cloid).(pendingOrderType := t))
    {
      cloidToState := cloidToState[cloid := Slot(cloid).(pendingOrderType := t)];
    }

    method CommitPendingOrderType(cloid: string)
      modifies this`cloidToState
      ensures State() == old(State()).CommitPendingOrderType(cloid)
    {
      if cloid in cloidToState {
        cloidToState := cloidToState[cloid := cloidToState[cloid].(orderType := cloidToState[cloid].pendingOrderType)];
      }
    }

    method ApplyFill(cloid: string, size: int) returns (s: OrderState)
      modifies this`cloidToState
      ensures State() == old(State()).ApplyFill(cloid, size)
      ensures s == State().StateOf(cloid)
    {
      s := Slot(cloid);
      s := s.(cumQty := s.cumQty + size);
      cloidToState := cloidToState[cloid := s];
    }

    // Drop every oid that leads to the order.
    method EraseOids(cloid: string)
      modifies this`oidToCloid
      ensures oidToCloid == old(State()).RemoveOrder(cloid).oidToCloid
    {
      var unvisited := oidToCloid.Keys;
      while unvisited != {}
        invariant unvisited <= oidToCloid.Keys <= old(oidToCloid).Keys
        invariant forall o :: o in oidToCloid ==> oidToCloid[o] == old(oidToCloid)[o]
        invariant forall o :: o in old(oidToCloid) && (o in unvisited || old(oidToCloid)[o] != cloid)
                    ==> o in oidToCloid
        invariant forall o :: o in oidToCloid && o !in unvisited ==> oidToCloid[o] != cloid
        decreases |unvisited|
      {
        var o :| o in unvisited;
        if oidToCloid[o] == cloid {
          oidToCloid := oidToCloid - {o};
        }
        unvisited := unvisited - {o};
      }
    }

    method RemoveOrder(cloid: string)
      modifies this`clientToCloid, this`cloidToClient, this`oidToCloid, this`cloidToOid, this`cloidToAsset,
        this`cloidToState
      ensures State() == old(State()).RemoveOrder(cloid)
    {
      if cloid in cloidToClient {
        clientToCloid := clientToCloid - {cloidToClient[cloid]};
        cloidToClient := cloidToClient - {cloid};
      } else {
        assert cloidToClient - {cloid} == cloidToClient;
      }
      cloidToOid := cloidToOid - {cloid};
      cloidToAsset := cloidToAsset - {cloid};
      cloidToState := cloidToState - {cloid};
      EraseOids(cloid);
    }

    // The first half of the IOC sweep: which orders are overdue.
    method CollectTimeouts(now: int, timeoutSecs: int, order: seq<string>) returns (timedOut: seq<string>)
      ensures timedOut == DueOrders(State(), timeoutSecs, order, now)
    {
      timedOut := [];
      for i := 0 to |order|
        invariant timedOut + DueOrders(State(), timeoutSecs, order[i..], now)
                  == DueOrders(State(), timeoutSecs, order, now)
      {
        var cloid := order[i];
        assert order[i..][1..] == order[i + 1..];
        if cloid in cloidToState && cloidToState[cloid].isIoc && cloidToState[cloid].createdAt != 0 {
          if ElapsedSecs(now, cloidToState[cloid].createdAt) >= timeoutSecs {
            timedOut := timedOut + [cloid];
          }
        }
      }
    }

    method RecordRequest(cloid: string, quantity: int, side: Side, isIoc: bool, now: int)
      modifies this`cloidToState
      ensures State() == old(State()).SetState(cloid, old(State()).StateOf(cloid).(
                           requestedQty := quantity, side := side, isIoc := isIoc, createdAt := now))
    {
      var s := Slot(cloid);
      s := s.(requestedQty := quantity);
      s := s.(side := side);
      s := s.(isIoc := isIoc);
      s := s.(createdAt := now);
      cloidToState := cloidToState[cloid := s];
    }

    method SetOrderType(cloid: string, t: OrderType)
      modifies this`cloidToState
      ensures State()
              == old(State()).SetState(cloid, old(State()).StateOf(cloid).(pendingOrderType := t, orderType := t))
    {
      SetPendingOrderType(cloid, t);
      CommitPendingOrderType(cloid);
    }

    // Enter an accepted order into the maps.
    method EnterOrder(r: OrderRequest, cloid: string, asset: Asset, now: int)
      modifies this`clientToCloid, this`cloidToClient, this`cloidToAsset, this`cloidToState
      ensures State() == EnteredBook(old(State()), r, cloid, asset, now)
    {
      clientToCloid := clientToCloid[r.clientOrderId := cloid];
      cloidToClient := cloidToClient[cloid := r.clientOrderId];
      cloidToAsset := cloidToAsset[cloid := asset];
      SetOrderType(cloid, r.orderType);
      RecordRequest(cloid, r.quantity, r.side, MapTif(r.orderType, r.postOnly) == Ioc, now);
      assert cloidToState == EnteredBook(old(State()), r, cloid, asset, now).cloidToState;
    }

    method OnNewOrder(gw: GatewayApplication, r: OrderRequest, cloid: string, now: int)
      requires gw.handler == this
      modifies this, gw
      ensures gw.World() == GatewayModel.OnNewOrder(old(gw.World()), r, cloid, now)
    {
      if isReplay {
        return;
      }
      if r.securityId !in gw.refData.securities {
        gw.log := gw.log + [EntryRejectReport(r)];
        return;
      }
      if !gw.connected {
        gw.log := gw.log + [EntryRejectReport(r)];
        return;
      }
      var asset := AssetOf(gw.refData.securities[r.securityId]);
      if asset.None? {
        gw.log := gw.log + [EntryRejectReport(r)];
        return;
      }
      var tif := MapTif(r.orderType, r.postOnly);
      EnterOrder(r, cloid, asset.value, now);
      var corrId := gw.TrackPendingPlace(cloid, r.securityId);
      gw.log := gw.log + [PlaceSent(corrId, cloid, asset.value, r.side == Buy, r.price, r.quantity, tif)];
    }

    method AmendState(r: OrderRequest, cloid: string, now: int)
      modifies this`cloidToState
      ensures State() == AmendedBook(old(State()), r, cloid, now)
    {
      SetPendingOrderType(cloid, r.orderType);
      RecordRequest(cloid, r.quantity, r.side, MapTif(r.orderType, r.postOnly) == Ioc, now);
      assert cloidToState == AmendedBook(old(State()), r, cloid, now).cloidToState;
    }

    method OnAmendOrder(gw: GatewayApplication, r: OrderRequest, now: int)
      requires gw.handler == this
      modifies this, gw
      ensures gw.World() == GatewayModel.OnAmendOrder(old(gw.World()), r, now)
    {
      if isReplay || r.securityId !in gw.refData.securities || !gw.connected || r.clientOrderId !in clientToCloid {
        return;
      }
      var cloid := clientToCloid[r.clientOrderId];
      var asset := AssetOf(gw.refData.securities[r.securityId]);
      if asset.None? {
        return;
      }
      var tif := MapTif(r.orderType, r.postOnly);
      AmendState(r, cloid, now);
      var corrId := gw.TrackPendingModify(cloid, r.securityId);
      gw.log := gw.log + [ModifySent(corrId, cloid, asset.value, r.side == Buy, r.price, r.quantity, tif)];
    }

    method OnCancelOrder(gw: GatewayApplication, c: CancelRequest)
      requires gw.handler == this
      modifies this, gw
      ensures gw.World() == GatewayModel.OnCancelOrder(old(gw.World()), c)
    {
      if isReplay {
        return;
      }
      if !gw.connected || c.origClientOrderId !in clientToCloid {
        gw.log := gw.log + [OfflineCancelReject(c)];
        return;
      }
      var cloid := clientToCloid[c.origClientOrderId];
      if cloid !in cloidToAsset {
        gw.log := gw.log + [OfflineCancelReject(c)];
        return;
      }
      var corrId := gw.TrackPendingCancel(cloid, c.securityId);
      gw.log := gw.log + [CancelSent(corrId, cloid, cloidToAsset[cloid])];
    }
  }

  class GatewayApplication {
    const handler: OrdersHandler
    const refData: RefData.RefDataHolder
    const iocTimeoutSecs: int
    var connected: bool
    var nextCorrelationId: nat
    var pendingPlaces: map<nat, Pending>
    var pendingModifies: map<nat, Pending>
    var pendingCancels: map<nat, Pending>
    var buffered: seq<BufferedFill>
    // What was written to the outbound queue, sent to the exchange, or logged as lost.
    var log: seq<Output>

    function World(): World
      reads this, handler, refData
    {
      GatewayModel.World(handler.State(), refData.State(), connected, handler.isReplay, iocTimeoutSecs,
                         nextCorrelationId, pendingPlaces, pendingModifies, pendingCancels, buffered, log)
    }

    constructor (handler: OrdersHandler, refData: RefData.RefDataHolder, iocTimeoutSecs: int)
      requires handler.State() == EMPTY_BOOK && !handler.isReplay && refData.State() == RefData.EMPTY
      ensures this.handler == handler && this.refData == refData
      ensures World() == Initial(iocTimeoutSecs)
    {
      this.handler, this.refData, this.iocTimeoutSecs := handler, refData, iocTimeoutSecs;
      connected, nextCorrelationId := false, 1;
      pendingPlaces, pendingModifies, pendingCancels := map[], map[], map[];
      buffered, log := [], [];
    }

    method TrackPendingPlace(cloid: string, securityId: int) returns (id: nat)
      modifies this`nextCorrelationId, this`pendingPlaces
      ensures id == old(nextCorrelationId) && nextCorrelationId == id + 1
      ensures pendingPlaces == old(pendingPlaces)[id := Pending(cloid, securityId)]
    {
      id := nextCorrelationId;
      nextCorrelationId := nextCorrelationId + 1;
      pendingPlaces := pendingPlaces[id := Pending(cloid, securityId)];
    }

    method TrackPendingModify(cloid: string, securityId: int) returns (id: nat)
      modifies this`nextCorrelationId, this`pendingModifies
      ensures id == old(nextCorrelationId) && nextCorrelationId == id + 1
      ensures pendingModifies == old(pendingModifies)[id := Pending(cloid, securityId)]
    {
      id := nextCorrelationId;
      nextCorrelationId := nextCorrelationId + 1;
      pendingModifies := pendingModifies[id := Pending(cloid, securityId)];
    }

    method TrackPendingCancel(cloid: string, securityId: int) returns (id: nat)
      modifies this`nextCorrelationId, this`pendingCancels
      ensures id == old(nextCorrelationId) && nextCorrelationId == id + 1
      ensures pendingCancels == old(pendingCancels)[id := Pending(cloid, securityId)]
    {
      id := nextCorrelationId;
      nextCorrelationId := nextCorrelationId + 1;
      pendingCancels := pendingCancels[id := Pending(cloid, securityId)];
    }

    // --- time and fills ---------------------------------------------------

    method ExpireFills(now: int)
      modifies this`buffered, this`log
      ensures World() == GatewayModel.ExpireFills(old(World()), now)
    {
      var i := 0;
      while i < |buffered|
        invariant i <= |buffered|
        invariant buffered[..i] + FreshFills(buffered[i..], now) == FreshFills(old(buffered), now)
        invariant log + ExpiredLog(buffered[i..], now) == old(log) + ExpiredLog(old(buffered), now)
        decreases |buffered| - i
      {
        CutAt(buffered, i);
        ExpiryStep(buffered, i, now, log);
        if ElapsedSecs(now, buffered[i].bufferedAt) >= FILL_TIMEOUT_SECS {
          log := log + [FillExpired(buffered[i].fill)];
          buffered := buffered[..i] + buffered[i + 1..];
        } else {
          i := i + 1;
        }
      }
    }

    // The second half of the sweep, once per overdue order.
    method TimeOutOrder(cloid: string)
      modifies this`log, handler
      ensures World() == GatewayModel.TimeOutOrder(old(World()), cloid)
    {
      if cloid !in handler.cloidToState {
        return;
      }
      if handler.LookupClientOrderId(cloid) == "" {
        return;
      }
      log := log + [TimeoutReport(handler.State(), cloid)];
      handler.RemoveOrder(cloid);
    }

    method CheckTimeouts(now: int, order: seq<string>)
      modifies this`buffered, this`log, handler
      ensures World() == GatewayModel.CheckTimeouts(old(World()), now, order)
    {
      ExpireFills(now);
      var timedOut := handler.CollectTimeouts(now, iocTimeoutSecs, order);
      ghost var swept := GatewayModel.ExpireFills(old(World()), now);
      for i := 0 to |timedOut|
        invariant TimeOutOrders(World(), timedOut[i..]) == TimeOutOrders(swept, timedOut)
      {
        assert timedOut[i..][1..] == timedOut[i + 1..];
        TimeOutOrder(timedOut[i]);
      }
    }

    method EmitFillExecutionReport(f: Fill, client: string, cloid: string)
      modifies this`log, handler
      ensures World() == EmitFill(old(World()), f, client, cloid)
    {
      var s := handler.ApplyFill(cloid, f.sz);
      var leavesQty := Max(0, s.origSz - s.cumQty);
      var isFilled := leavesQty <= 0;
      log := log + [FillReport(World(), f, client, cloid, s)];
      if isFilled && !s.isIoc {
        handler.RemoveOrder(cloid);
      }
    }

    method ReplayBufferedFills(oid: nat)
      modifies this`buffered, this`log, handler
      ensures World() == GatewayModel.ReplayBufferedFills(old(World()), oid)
    {
      var fills := TakeBuffered(oid);
      ghost var taken := old(World()).(buffered := FillsNotOf(old(buffered), oid));
      assert World() == taken;
      for i := 0 to |fills|
        invariant ReplayEach(World(), fills[i..], oid) == ReplayEach(taken, fills, oid)
      {
        assert fills[i..][1..] == fills[i + 1..];
        var client := handler.LookupClientOrderIdByOid(oid);
        var cloid := handler.LookupCloidByOid(oid);
        EmitFillExecutionReport(fills[i], client, cloid);
      }
    }

    // Take the fills of an oid out of the buffer.
    method TakeBuffered(oid: nat) returns (fills: seq<Fill>)
      modifies this`buffered
      ensures fills == FillsOf(old(buffered), oid) && buffered == FillsNotOf(old(buffered), oid)
    {
      fills := [];
      var i := 0;
      while i < |buffered|
        invariant i <= |buffered|
        invariant buffered[..i] + FillsNotOf(buffered[i..], oid) == FillsNotOf(old(buffered), oid)
        invariant fills + FillsOf(buffered[i..], oid) == FillsOf(old(buffered), oid)
        decreases |buffered| - i
      {
        CutAt(buffered, i);
        var rest := buffered[i + 1..];
        if buffered[i].fill.oid == oid {
          Assoc(fills, [buffered[i].fill], FillsOf(rest, oid));
          fills := fills + [buffered[i].fill];
          buffered := buffered[..i] + rest;
        } else {
          Assoc(buffered[..i], [buffered[i]], FillsNotOf(rest, oid));
          i := i + 1;
        }
      }
    }

    method OnUserFill(f: Fill, now: int, order: seq<string>)
      modifies this, handler
      ensures World() == GatewayModel.OnUserFill(old(World()), f, now, order)
    {
      if f.isSnapshot {
        return;
      }
      CheckTimeouts(now, order);
      var client := handler.LookupClientOrderIdByOid(f.oid);
      var cloid := handler.LookupCloidByOid(f.oid);
      if client == "" {
        buffered := buffered + [BufferedFill(f, now)];
        return;
      }
      EmitFillExecutionReport(f, client, cloid);
    }

    // --- order updates ----------------------------------------------------

    // The tail of onOrderUpdate: everything but stale and filled updates.
    method ReportUpdate(u: Update)
      modifies this`buffered, this`log, handler
      ensures World() == GatewayModel.ReportUpdate(old(World()), u)
    {
      var client := handler.LookupClientOrderId(u.cloid);
      if client == "" {
        return;
      }
      log := log + [UpdateReport(World(), u)];
      if u.status == ExOpen {
        ReplayBufferedFills(u.oid);
      } else {
        handler.RemoveOrder(u.cloid);
      }
    }

    method CloseFilled(u: Update)
      modifies this`log, handler
      ensures World() == GatewayModel.CloseFilled(old(World()), u)
    {
      if u.cloid in handler.cloidToState {
        var s := handler.cloidToState[u.cloid];
        if s.origSz > 0 && s.cumQty < s.origSz && handler.LookupClientOrderId(u.cloid) != "" {
          log := log + [PartialCloseReport(World(), u)];
        }
      }
      if handler.LookupCloidByOid(u.oid) != "" {
        handler.RemoveOrder(u.cloid);
      }
    }

    method OnOrderUpdate(u: Update, now: int, order: seq<string>)
      modifies this, handler
      ensures World() == GatewayModel.OnOrderUpdate(old(World()), u, now, order)
    {
      CheckTimeouts(now, order);
      ghost var checked := World();
      handler.RegisterOid(u.oid, u.cloid);
      if u.status == ExOpen {
        handler.SetActiveOid(u.oid, u.cloid);
        handler.InitOrderState(u.cloid, u.origSz, refData.GetSecurityIdBySymbol(u.coin));
        handler.CommitPendingOrderType(u.cloid);
        assert World() == checked.(book := OpenedBook(checked.book, u, RefData.SymbolId(checked.ref, u.coin)));
        ReportUpdate(u);
      } else if !handler.IsActiveOid(u.oid, u.cloid) {
        return;
      } else if u.status == ExFilled {
        CloseFilled(u);
      } else {
        ReportUpdate(u);
      }
    }

    // --- REST replies -----------------------------------------------------

    method SendNewOrderReject(p: Pending, reason: string)
      modifies this`log, handler
      ensures World() == RejectPlace(old(World()), p, reason)
    {
      log := log + [RejectReport(handler.State(), PlaceReject, p, reason)];
      handler.RemoveOrder(p.cloid);
    }

    method OnPlaceReply(r: Reply, corr: Option<nat>)
      modifies this, handler
      ensures World() == GatewayModel.OnPlaceReply(old(World()), r, corr)
    {
      var p := Take(pendingPlaces, corr);
      pendingPlaces := Drop(pendingPlaces, corr);
      if r.status != "ok" && r.items == [] {
        if p.cloid != "" {
          SendNewOrderReject(p, r.status);
        }
        return;
      }
      ghost var taken := World();
      for i := 0 to |r.items|
        invariant RejectPlaceItems(World(), p, r.items[i..]) == RejectPlaceItems(taken, p, r.items)
      {
        assert r.items[i..][1..] == r.items[i + 1..];
        if r.items[i].ItemError? && handler.LookupClientOrderId(p.cloid) != "" {
          SendNewOrderReject(p, r.items[i].text);
        }
      }
    }

    method OnModifyReply(r: Reply, corr: Option<nat>)
      modifies this
      ensures World() == GatewayModel.OnModifyReply(old(World()), r, corr)
    {
      var p := Take(pendingModifies, corr);
      pendingModifies := Drop(pendingModifies, corr);
      if r.status != "ok" {
        if p.cloid != "" && handler.LookupClientOrderId(p.cloid) != "" {
          log := log + [RejectReport(handler.State(), AmendReject, p, r.status)];
        }
      }
    }

    method SendCancelRejects(p: Pending, items: seq<ReplyItem>)
      modifies this`log
      ensures log == old(log) + CancelItemRejects(handler.State(), p, items)
    {
      ghost var all := CancelItemRejects(handler.State(), p, items);
      for i := 0 to |items|
        invariant log + CancelItemRejects(handler.State(), p, items[i..]) == old(log) + all
      {
        assert items[i..][1..] == items[i + 1..];
        if items[i].ItemError? {
          var o := CancelRejectReport(handler.State(), p, items[i].text);
          Assoc(log, [o], CancelItemRejects(handler.State(), p, items[i + 1..]));
          log := log + [o];
        }
      }
    }

    method OnCancelReply(r: Reply, corr: Option<nat>)
      modifies this
      ensures World() == GatewayModel.OnCancelReply(old(World()), r, corr)
    {
      var p := Take(pendingCancels, corr);
      pendingCancels := Drop(pendingCancels, corr);
      if r.status != "ok" && r.items == [] {
        if p.cloid != "" {
          log := log + [CancelRejectReport(handler.State(), p, r.status)];
        }
        return;
      }
      SendCancelRejects(p, r.items);
    }

    // --- connection -------------------------------------------------------

    method OnConnected()
      modifies this`connected
      ensures World() == Step(old(World()), Connected)
    {
      connected := true;
    }

    method OnDisconnected()
      modifies this
      ensures World() == GatewayModel.OnDisconnected(old(World()))
    {
      connected := false;
      pendingPlaces := map[];
      pendingModifies := map[];
      pendingCancels := map[];
      log := log + ClearedLog(buffered);
      buffered := [];
    }

    // --- every event ------------------------------------------------------

    method Handle(e: Event)
      modifies this, handler, refData
      ensures World() == Step(old(World()), e)
    {
      match e {
        case NewOrder(r, cloid, now) => handler.OnNewOrder(this, r, cloid, now);
        case AmendOrder(r, now) => handler.OnAmendOrder(this, r, now);
        case CancelOrder(c) => handler.OnCancelOrder(this, c);
        case OrderUpdate(u, now, order) => OnOrderUpdate(u, now, order);
        case UserFill(f, now, order) => OnUserFill(f, now, order);
        case PlaceReply(r, corr) => OnPlaceReply(r, corr);
        case ModifyReply(r, corr) => OnModifyReply(r, corr);
        case CancelReply(r, corr) => OnCancelReply(r, corr);
        case SecurityDefinition(d) => refData.OnSecurityDefinition(d);
        case Connected => OnConnected();
        case Disconnected => OnDisconnected();
        case ReplayMode(on) => handler.isReplay := on;
      }
    }
  }
}
