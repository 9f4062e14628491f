// The Hyperliquid gateway as a state machine: one function per event, from the
// whole gateway state to the next. The classes of GatewayClasses are proved to
// compute exactly these functions; the theorems are about runs of `Step`.
module GatewayModel {
  import opened Common
  import opened OrderBook
  import RefData

  // --- what arrives -------------------------------------------------------

  datatype ExchangeStatus =
    | ExOpen | ExFilled | ExCanceled | ExMarginCanceled | ExTriggered
    | ExRejected | ExOracleRejected | ExIocCancelRejected | ExOther

  datatype Update = Update(coin: string, side: char, status: ExchangeStatus, oid: nat,
                           sz: int, origSz: int, limitPx: int, cloid: string)

  datatype Fill = Fill(coin: string, side: char, px: int, sz: int, oid: nat, time: nat, isSnapshot: bool)

  datatype OrderRequest = OrderRequest(clientOrderId: string, securityId: int, side: Side,
                                       orderType: OrderType, postOnly: bool, price: int, quantity: int)

  datatype CancelRequest = CancelRequest(clientOrderId: string, origClientOrderId: string, securityId: int)

  // One entry of a REST reply: only errors have an effect.
  datatype ReplyItem =
    | ItemError(text: string) | ItemResting(oid: nat) | ItemFilled(oid: nat) | ItemSuccess(text: string)

  datatype Reply = Reply(status: string, items: seq<ReplyItem>)

  // `order` is the order in which the state map is traversed by the IOC sweep,
  // `now` a reading of the steady clock in nanoseconds.
  datatype Event =
    | NewOrder(request: OrderRequest, cloid: string, now: int)
    | AmendOrder(request: OrderRequest, now: int)
    | CancelOrder(cancel: CancelRequest)
    | OrderUpdate(update: Update, now: int, order: seq<string>)
    | UserFill(fill: Fill, now: int, order: seq<string>)
    | PlaceReply(reply: Reply, corr: Option<nat>)
    | ModifyReply(reply: Reply, corr: Option<nat>)
    | CancelReply(reply: Reply, corr: Option<nat>)
    | SecurityDefinition(def: RefData.Definition)
    | Connected
    | Disconnected
    | ReplayMode(on: bool)

  // --- what leaves --------------------------------------------------------

  datatype OrdStatus = NEW | PARTIALLY_FILLED | FILLED | CANCELLED | REJECTED
  datatype RejReason = NO_REJECT | CONNECTION_OFFLINE | OTHER
  datatype Tif = Ioc | Alo | Gtc

  // Which piece of code wrote a report.
  datatype Cause = EntryReject | OnUpdate | OnFill | PartialClose | IocTimeout | PlaceReject | AmendReject

  // `cloid` and `cause` of a report are not part of the message: they say on
  // whose behalf, and from where, it was written. A lost fill is logged only.
  datatype Output =
    | Exec(cloid: string, cause: Cause, clientOrderId: string, origClientOrderId: string,
           securityId: int, status: OrdStatus, side: Side, orderType: OrderType, reason: RejReason,
           price: int, orderQty: int, cumQty: int, leavesQty: int, fill: Option<Fill>, text: string)
    | CancelRejected(cloid: string, clientOrderId: string, origClientOrderId: string, securityId: int, text: string)
    | PlaceSent(corr: nat, cloid: string, asset: Asset, isBuy: bool, price: int, size: int, tif: Tif)
    | ModifySent(corr: nat, cloid: string, asset: Asset, isBuy: bool, price: int, size: int, tif: Tif)
    | CancelSent(corr: nat, cloid: string, asset: Asset)
    | FillExpired(lost: Fill)
    | FillCleared(lost: Fill)

  // --- the state ----------------------------------------------------------

  datatype Pending = Pending(cloid: string, securityId: int)
  datatype BufferedFill = BufferedFill(fill: Fill, bufferedAt: int)

  datatype World = World(
    book: Book, ref: RefData.Holder, connected: bool, isReplay: bool, iocTimeoutSecs: int,
    nextCorrelationId: nat, pendingPlaces: map<nat, Pending>, pendingModifies: map<nat, Pending>,
    pendingCancels: map<nat, Pending>,
    buffered: seq<BufferedFill>, log: seq<Output>)

  function Initial(iocTimeoutSecs: int): World {
    World(EMPTY_BOOK, RefData.EMPTY, false, false, iocTimeoutSecs, 1, map[], map[], map[], [], [])
  }

  function Emit(w: World, o: Output): World {
    w.(log := w.log + [o])
  }

  function Remove(w: World, cloid: string): World {
    w.(book := w.book.RemoveOrder(cloid))
  }

  // --- small mappings -----------------------------------------------------

  const NANOS_PER_SEC := 1_000_000_000
  const FILL_TIMEOUT_SECS := 5
  const OUTCOME_ASSET_BASE := 100_000_000

  // duration_cast to seconds truncates toward zero
  function ElapsedSecs(now: int, at: int): int {
    if now >= at then (now - at) / NANOS_PER_SEC else -((at - now) / NANOS_PER_SEC)
  }

  function MapTif(t: OrderType, postOnly: bool): Tif {
    if t == Market then Ioc else if postOnly then Alo else Gtc
  }

  function MapStatus(s: ExchangeStatus): OrdStatus {
    match s
    case ExOpen => NEW
    case ExTriggered => NEW
    case ExFilled => FILLED
    case ExCanceled => CANCELLED
    case ExMarginCanceled => CANCELLED
    case _ => REJECTED
  }

  function MapSide(side: char): Side {
    if side == 'B' then Buy else Sell
  }

  function MapReason(s: ExchangeStatus): RejReason {
    if s == ExRejected || s == ExOracleRejected || s == ExIocCancelRejected then OTHER else NO_REJECT
  }

  function AssetOf(info: RefData.SecurityInfo): Option<Asset> {
    if !info.isPredictionMarket then Some(Coin(info.symbol))
    else if info.marketIndex.None? then None
    else Some(Outcome(OUTCOME_ASSET_BASE + info.marketIndex.value))
  }

  // --- reports ------------------------------------------------------------

  // A field the code does not set keeps the zero of the cleared buffer, which
  // reads as BUY for the side and MARKET for the order type.

  function EntryRejectReport(r: OrderRequest): Output {
    Exec("", EntryReject, "", r.clientOrderId, r.securityId, REJECTED, r.side, Market, CONNECTION_OFFLINE,
         r.price, r.quantity, 0, 0, None, "")
  }

  function OfflineCancelReject(c: CancelRequest): Output {
    CancelRejected("", "", c.origClientOrderId, c.securityId, "orders_offline")
  }

  function RejectReport(b: Book, cause: Cause, p: Pending, text: string): Output {
    var client := b.ClientOf(p.cloid);
    Exec(p.cloid, cause, client, client, p.securityId, REJECTED,
         if p.cloid in b.cloidToState then b.cloidToState[p.cloid].side else Buy,
         Market, OTHER, 0, 0, 0, 0, None, text)
  }

  function CancelRejectReport(b: Book, p: Pending, text: string): Output {
    var client := b.ClientOf(p.cloid);
    CancelRejected(p.cloid, client, client, p.securityId, text)
  }

  function UpdateReport(w: World, u: Update): Output {
    var client := w.book.ClientOf(u.cloid);
    var s := w.book.StateOf(u.cloid);
    var tracked := s.origSz > 0;
    var orderQty := if tracked then s.origSz else u.origSz;
    var cumQty := if !tracked then u.origSz - u.sz else if u.status == ExOpen then 0 else s.cumQty;
    var leavesQty := if !tracked then u.sz else if u.status == ExOpen then s.origSz else 0;
    Exec(u.cloid, OnUpdate, client, client, RefData.SymbolId(w.ref, u.coin), MapStatus(u.status), MapSide(u.side),
         s.orderType, MapReason(u.status), u.limitPx, orderQty, cumQty, leavesQty, None, "")
  }

  // An order the exchange closed as filled although fills are missing.
  function PartialCloseReport(w: World, u: Update): Output {
    var client := w.book.ClientOf(u.cloid);
    var s := w.book.StateOf(u.cloid);
    Exec(u.cloid, PartialClose, client, client, RefData.SymbolId(w.ref, u.coin), CANCELLED, MapSide(u.side),
         s.orderType, NO_REJECT, u.limitPx, s.origSz, s.cumQty, 0, None, "")
  }

  function TimeoutReport(b: Book, cloid: string): Output {
    var client := b.ClientOf(cloid);
    var s := b.StateOf(cloid);
    Exec(cloid, IocTimeout, client, client, s.securityId, CANCELLED, NoSide, s.orderType, NO_REJECT,
         0, s.origSz, s.cumQty, 0, None, "IOC timeout")
  }

  // The report for a fill, `s` being the order's state with the fill applied.
  function FillReport(w: World, f: Fill, client: string, cloid: string, s: OrderState): Output {
    var leavesQty := Max(0, s.origSz - s.cumQty);
    Exec(cloid, OnFill, client, client,
         if s.securityId != 0 then s.securityId else RefData.SymbolId(w.ref, f.coin),
         if leavesQty <= 0 then FILLED else PARTIALLY_FILLED, MapSide(f.side), s.orderType, NO_REJECT,
         0, s.origSz, s.cumQty, leavesQty, Some(f), "")
  }

  // --- requests from the strategy -----------------------------------------

  function EnteredBook(b: Book, r: OrderRequest, cloid: string, asset: Asset, now: int): Book {
    var s := b.StateOf(cloid).(
      pendingOrderType := r.orderType, orderType := r.orderType, requestedQty := r.quantity,
      side := r.side, isIoc := MapTif(r.orderType, r.postOnly) == Ioc, createdAt := now);
    b.(clientToCloid := b.clientToCloid[r.clientOrderId := cloid],
       cloidToClient := b.cloidToClient[cloid := r.clientOrderId],
       cloidToAsset := b.cloidToAsset[cloid := asset]).SetState(cloid, s)
  }

  function AmendedBook(b: Book, r: OrderRequest, cloid: string, now: int): Book {
    b.SetState(cloid, b.StateOf(cloid).(
      pendingOrderType := r.orderType, requestedQty := r.quantity, side := r.side,
      isIoc := MapTif(r.orderType, r.postOnly) == Ioc, createdAt := now))
  }

  function OnNewOrder(w: World, r: OrderRequest, cloid: string, now: int): World {
    if w.isReplay then w
    else if r.securityId !in w.ref.securities || !w.connected then Emit(w, EntryRejectReport(r))
    else
      match AssetOf(w.ref.securities[r.securityId])
      case None => Emit(w, EntryRejectReport(r))
      case Some(asset) =>
        var id := w.nextCorrelationId;
        Emit(w.(book := EnteredBook(w.book, r, cloid, asset, now), nextCorrelationId := id + 1,
                pendingPlaces := w.pendingPlaces[id := Pending(cloid, r.securityId)]),
             PlaceSent(id, cloid, asset, r.side == Buy, r.price, r.quantity, MapTif(r.orderType, r.postOnly)))
  }

  function OnAmendOrder(w: World, r: OrderRequest, now: int): World {
    if w.isReplay || r.securityId !in w.ref.securities || !w.connected
       || r.clientOrderId !in w.book.clientToCloid then w
    else
      match AssetOf(w.ref.securities[r.securityId])
      case None => w
      case Some(asset) =>
        var cloid := w.book.clientToCloid[r.clientOrderId];
        var id := w.nextCorrelationId;
        Emit(w.(book := AmendedBook(w.book, r, cloid, now), nextCorrelationId := id + 1,
                pendingModifies := w.pendingModifies[id := Pending(cloid, r.securityId)]),
             ModifySent(id, cloid, asset, r.side == Buy, r.price, r.quantity, MapTif(r.orderType, r.postOnly)))
  }

  function OnCancelOrder(w: World, c: CancelRequest): World {
    if w.isReplay then w
    else if !w.connected || c.origClientOrderId !in w.book.clientToCloid then Emit(w, OfflineCancelReject(c))
    else
      var cloid := w.book.clientToCloid[c.origClientOrderId];
      if cloid !in w.book.cloidToAsset then Emit(w, OfflineCancelReject(c))
      else
        var id := w.nextCorrelationId;
        Emit(w.(nextCorrelationId := id + 1, pendingCancels := w.pendingCancels[id := Pending(cloid, c.securityId)]),
             CancelSent(id, cloid, w.book.cloidToAsset[cloid]))
  }

  // --- time ---------------------------------------------------------------

  predicate Stale(b: BufferedFill, now: int) {
    ElapsedSecs(now, b.bufferedAt) >= FILL_TIMEOUT_SECS
  }

  function FreshFills(buffered: seq<BufferedFill>, now: int): seq<BufferedFill> {
    if buffered == [] then []
    else (if Stale(buffered[0], now) then [] else [buffered[0]]) + FreshFills(buffered[1..], now)
  }

  function ExpiredLog(buffered: seq<BufferedFill>, now: int): seq<Output> {
    if buffered == [] then []
    else (if Stale(buffered[0], now) then [FillExpired(buffered[0].fill)] else []) + ExpiredLog(buffered[1..], now)
  }

  predicate IocDue(b: Book, timeoutSecs: int, cloid: string, now: int) {
    && cloid in b.cloidToState
    && b.cloidToState[cloid].isIoc
    && b.cloidToState[cloid].createdAt != 0
    && ElapsedSecs(now, b.cloidToState[cloid].createdAt) >= timeoutSecs
  }

  function DueOrders(b: Book, timeoutSecs: int, order: seq<string>, now: int): seq<string> {
    if order == [] then []
    else (if IocDue(b, timeoutSecs, order[0], now) then [order[0]] else [])
         + DueOrders(b, timeoutSecs, order[1..], now)
  }

  function TimeOutOrder(w: World, cloid: string): World {
    if cloid !in w.book.cloidToState || w.book.ClientOf(cloid) == "" then w
    else Remove(Emit(w, TimeoutReport(w.book, cloid)), cloid)
  }

  function TimeOutOrders(w: World, due: seq<string>): World
    decreases |due|
  {
    if due == [] then w else TimeOutOrders(TimeOutOrder(w, due[0]), due[1..])
  }

  function ExpireFills(w: World, now: int): World {
    w.(buffered := FreshFills(w.buffered, now), log := w.log + ExpiredLog(w.buffered, now))
  }

  function CheckTimeouts(w: World, now: int, order: seq<string>): World {
    TimeOutOrders(ExpireFills(w, now), DueOrders(w.book, w.iocTimeoutSecs, order, now))
  }

  // --- fills --------------------------------------------------------------

  function EmitFill(w: World, f: Fill, client: string, cloid: string): World {
    var book := w.book.ApplyFill(cloid, f.sz);
    var s := book.StateOf(cloid);
    var w' := Emit(w.(book := book), FillReport(w, f, client, cloid, s));
    if s.origSz - s.cumQty <= 0 && !s.isIoc then Remove(w', cloid) else w'
  }

  function TakeFill(w: World, f: Fill, now: int): World {
    var client := w.book.ClientOfOid(f.oid);
    if client == "" then w.(buffered := w.buffered + [BufferedFill(f, now)])
    else EmitFill(w, f, client, w.book.CloidOfOid(f.oid))
  }

  function OnUserFill(w: World, f: Fill, now: int, order: seq<string>): World {
    if f.isSnapshot then w else TakeFill(CheckTimeouts(w, now, order), f, now)
  }

  function FillsOf(buffered: seq<BufferedFill>, oid: nat): seq<Fill> {
    if buffered == [] then []
    else (if buffered[0].fill.oid == oid then [buffered[0].fill] else []) + FillsOf(buffered[1..], oid)
  }

  function FillsNotOf(buffered: seq<BufferedFill>, oid: nat): seq<BufferedFill> {
    if buffered == [] then []
    else (if buffered[0].fill.oid == oid then [] else [buffered[0]]) + FillsNotOf(buffered[1..], oid)
  }

  // The order is looked up again for every fill: an earlier one may have
  // removed it.
  function ReplayEach(w: World, fills: seq<Fill>, oid: nat): World
    decreases |fills|
  {
    if fills == [] then w
    else ReplayEach(EmitFill(w, fills[0], w.book.ClientOfOid(oid), w.book.CloidOfOid(oid)), fills[1..], oid)
  }

  function ReplayBufferedFills(w: World, oid: nat): World {
    ReplayEach(w.(buffered := FillsNotOf(w.buffered, oid)), FillsOf(w.buffered, oid), oid)
  }

  // --- order updates ------------------------------------------------------

  function ReportUpdate(w: World, u: Update): World {
    if w.book.ClientOf(u.cloid) == "" then w
    else
      var w' := Emit(w, UpdateReport(w, u));
      if u.status == ExOpen then ReplayBufferedFills(w', u.oid) else Remove(w', u.cloid)
  }

  function CloseFilled(w: World, u: Update): World {
    var s := w.book.StateOf(u.cloid);
    var w' := if s.origSz > 0 && s.cumQty < s.origSz && w.book.ClientOf(u.cloid) != ""
              then Emit(w, PartialCloseReport(w, u)) else w;
    if w.book.CloidOfOid(u.oid) != "" then Remove(w', u.cloid) else w'
  }

  function OpenedBook(b: Book, u: Update, securityId: int): Book {
    b.RegisterOid(u.oid, u.cloid).SetActiveOid(u.oid, u.cloid)
      .InitOrderState(u.cloid, u.origSz, securityId).CommitPendingOrderType(u.cloid)
  }

  function TakeOpen(w: World, u: Update): World {
    ReportUpdate(w.(book := OpenedBook(w.book, u, RefData.SymbolId(w.ref, u.coin))), u)
  }

  function TakeOther(w: World, u: Update): World {
    var registered := w.(book := w.book.RegisterOid(u.oid, u.cloid));
    if !registered.book.IsActiveOid(u.oid, u.cloid) then registered
    else if u.status == ExFilled then CloseFilled(registered, u)
    else ReportUpdate(registered, u)
  }

  function OnOrderUpdate(w: World, u: Update, now: int, order: seq<string>): World {
    var checked := CheckTimeouts(w, now, order);
    if u.status == ExOpen then TakeOpen(checked, u) else TakeOther(checked, u)
  }

  // --- REST replies -------------------------------------------------------

  const NO_PENDING := Pending("", 0)

  function Take(m: map<nat, Pending>, corr: Option<nat>): Pending {
    if corr.Some? && corr.value in m then m[corr.value] else NO_PENDING
  }

  function Drop(m: map<nat, Pending>, corr: Option<nat>): map<nat, Pending> {
    if corr.Some? then m - {corr.value} else m
  }

  function RejectPlace(w: World, p: Pending, text: string): World {
    Remove(Emit(w, RejectReport(w.book, PlaceReject, p, text)), p.cloid)
  }

  function RejectPlaceItems(w: World, p: Pending, items: seq<ReplyItem>): World
    decreases |items|
  {
    if items == [] then w
    else if items[0].ItemError? && w.book.ClientOf(p.cloid) != "" then
      RejectPlaceItems(RejectPlace(w, p, items[0].text), p, items[1..])
    else
      RejectPlaceItems(w, p, items[1..])
  }

  function OnPlaceReply(w0: World, r: Reply, corr: Option<nat>): World {
    var p := Take(w0.pendingPlaces, corr);
    var w := w0.(pendingPlaces := Drop(w0.pendingPlaces, corr));
    if r.status != "ok" && r.items == [] then
      if p.cloid != "" then RejectPlace(w, p, r.status) else w
    else
      RejectPlaceItems(w, p, r.items)
  }

  function OnModifyReply(w0: World, r: Reply, corr: Option<nat>): World {
    var p := Take(w0.pendingModifies, corr);
    var w := w0.(pendingModifies := Drop(w0.pendingModifies, corr));
    if r.status != "ok" && p.cloid != "" && w.book.ClientOf(p.cloid) != "" then
      Emit(w, RejectReport(w.book, AmendReject, p, r.status))
    else
      w
  }

  function CancelItemRejects(b: Book, p: Pending, items: seq<ReplyItem>): seq<Output> {
    if items == [] then []
    else (if items[0].ItemError? then [CancelRejectReport(b, p, items[0].text)] else [])
         + CancelItemRejects(b, p, items[1..])
  }

  function OnCancelReply(w0: World, r: Reply, corr: Option<nat>): World {
    var p := Take(w0.pendingCancels, corr);
    var w := w0.(pendingCancels := Drop(w0.pendingCancels, corr));
    if r.status != "ok" && r.items == [] then
      if p.cloid != "" then Emit(w, CancelRejectReport(w.book, p, r.status)) else w
    else
      w.(log := w.log + CancelItemRejects(w.book, p, r.items))
  }

  // --- connection ---------------------------------------------------------

  function ClearedLog(buffered: seq<BufferedFill>): seq<Output> {
    if buffered == [] then [] else [FillCleared(buffered[0].fill)] + ClearedLog(buffered[1..])
  }

  function OnDisconnected(w: World): World {
    w.(connected := false, pendingPlaces := map[], pendingModifies := map[], pendingCancels := map[],
       buffered := [], log := w.log + ClearedLog(w.buffered))
  }

  function Step(w: World, e: Event): World {
    match e
    case NewOrder(r, cloid, now) => OnNewOrder(w, r, cloid, now)
    case AmendOrder(r, now) => OnAmendOrder(w, r, now)
    case CancelOrder(c) => OnCancelOrder(w, c)
    case OrderUpdate(u, now, order) => OnOrderUpdate(w, u, now, order)
    case UserFill(f, now, order) => OnUserFill(w, f, now, order)
    case PlaceReply(r, corr) => OnPlaceReply(w, r, corr)
    case ModifyReply(r, corr) => OnModifyReply(w, r, corr)
    case CancelReply(r, corr) => OnCancelReply(w, r, corr)
    case SecurityDefinition(d) => w.(ref := RefData.Apply(w.ref, d))
    case Connected => w.(connected := true)
    case Disconnected => OnDisconnected(w)
    case ReplayMode(on) => w.(isReplay := on)
  }

  function Run(w: World, es: seq<Event>): World
    decreases |es|
  {
    if es == [] then w else Run(Step(w, es[0]), es[1..])
  }
}
