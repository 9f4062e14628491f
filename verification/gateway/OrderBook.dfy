// The six maps of the orders handler as one value, with the operations the
// handler's methods perform on them.
module OrderBook {
  import opened Common

  datatype Side = Buy | Sell | NoSide
  datatype OrderType = Market | Limit | Stop | StopLimit

  // The exchange's name for a traded instrument, kept from placing time on.
  datatype Asset = Coin(name: string) | Outcome(assetId: int)

  // Quantities are integers in units of 10^-8. A `createdAt` of 0 is the epoch
  // of the steady clock, which the handler reads as "not set".
  datatype OrderState = OrderState(
    origSz: int, cumQty: int, requestedQty: int, securityId: int,
    orderType: OrderType, pendingOrderType: OrderType, side: Side,
    isIoc: bool, createdAt: int)

  const BLANK_STATE := OrderState(0, 0, 0, 0, Limit, Limit, NoSide, false, 0)

  datatype Book = Book(
    clientToCloid: map<string, string>,
    cloidToClient: map<string, string>,
    oidToCloid: map<nat, string>,
    cloidToOid: map<string, nat>,
    cloidToAsset: map<string, Asset>,
    cloidToState: map<string, OrderState>)
  {
    // The empty string stands for "no mapping", as in the handler.
    function ClientOf(cloid: string): string {
      if cloid in cloidToClient then cloidToClient[cloid] else ""
    }

    function CloidOfOid(oid: nat): string {
      if oid in oidToCloid then oidToCloid[oid] else ""
    }

    function ClientOfOid(oid: nat): string {
      if oid in oidToCloid then ClientOf(oidToCloid[oid]) else ""
    }

    // What operator[] of the state map yields: a fresh state when absent.
    function StateOf(cloid: string): OrderState {
      if cloid in cloidToState then cloidToState[cloid] else BLANK_STATE
    }

    predicate IsActiveOid(oid: nat, cloid: string) {
      cloid in cloidToOid ==> cloidToOid[cloid] == oid
    }

    predicate Live(cloid: string) {
      cloid in cloidToClient
    }

    function RegisterOid(oid: nat, cloid: string): Book {
      this.(oidToCloid := oidToCloid[oid := cloid])
    }

    function SetActiveOid(oid: nat, cloid: string): Book {
      this.(cloidToOid := cloidToOid[cloid := oid], oidToCloid := oidToCloid[oid := cloid])
    }

    function SetState(cloid: string, s: OrderState): Book {
      this.(cloidToState := cloidToState[cloid := s])
    }

    function InitOrderState(cloid: string, origSz: int, securityId: int): Book {
      var s := StateOf(cloid);
      SetState(cloid, s.(origSz := TrackedSize(s.requestedQty, origSz), cumQty := 0, securityId := securityId))
    }

    function CommitPendingOrderType(cloid: string): Book {
      if cloid in cloidToState then
        SetState(cloid, cloidToState[cloid].(orderType := cloidToState[cloid].pendingOrderType))
      else
        this
    }

    function ApplyFill(cloid: string, size: int): Book {
      var s := StateOf(cloid);
      SetState(cloid, s.(cumQty := s.cumQty + size))
    }

    // Forget an order: its client id, its state, and every oid that led to it.
    function RemoveOrder(cloid: string): Book {
      Book(if cloid in cloidToClient then clientToCloid - {cloidToClient[cloid]} else clientToCloid,
           cloidToClient - {cloid},
           map o | o in oidToCloid && oidToCloid[o] != cloid :: oidToCloid[o],
           cloidToOid - {cloid},
           cloidToAsset - {cloid},
           cloidToState - {cloid})
    }
  }

  const EMPTY_BOOK := Book(map[], map[], map[], map[], map[], map[])

  // The exchange may report a sub-order's smaller size for a split order, so
  // the quantity the strategy asked for wins when it is larger.
  function TrackedSize(requestedQty: int, origSz: int): int {
    if requestedQty > 0 && requestedQty > origSz then requestedQty else origSz
  }
}
