// The reference data a gateway keeps about tradable securities, rebuilt from
// the SecurityDefinition messages of the market-data stream.
module RefData {
  import opened Common

  // `marketIndex` is the number std::stoi reads from the market symbol after
  // its first character, None where substr or stoi throws.
  datatype SecurityInfo = SecurityInfo(symbol: string, marketSymbol: string,
                                       isPredictionMarket: bool, marketIndex: Option<int>)

  datatype Definition = Add(id: int, info: SecurityInfo) | Remove(id: int)

  // The two lookup tables of a RefDataHolder.
  datatype Holder = Holder(securities: map<int, SecurityInfo>, symbolToId: map<string, int>)

  const EMPTY := Holder(map[], map[])

  function Apply(h: Holder, d: Definition): Holder {
    match d
    case Add(id, info) =>
      Holder(h.securities[id := info],
             h.symbolToId[info.symbol := id][info.marketSymbol := id])
    case Remove(id) =>
      if id in h.securities then
        Holder(h.securities - {id},
               h.symbolToId - {h.securities[id].symbol, h.securities[id].marketSymbol})
      else
        h
  }

  function SymbolId(h: Holder, symbol: string): int {
    if symbol in h.symbolToId then h.symbolToId[symbol] else 0
  }

  class RefDataHolder {
    var securities: map<int, SecurityInfo>
    var symbolToId: map<string, int>

    function State(): Holder
      reads this
    {
      Holder(securities, symbolToId)
    }

    constructor ()
      ensures State() == EMPTY
    {
      securities, symbolToId := map[], map[];
    }

    method OnSecurityDefinition(d: Definition)
      modifies this
      ensures State() == Apply(old(State()), d)
    {
      match d {
        case Add(id, info) =>
          symbolToId := symbolToId[info.symbol := id];
          if info.marketSymbol != info.symbol {
            symbolToId := symbolToId[info.marketSymbol := id];
          }
          securities := securities[id := info];
        case Remove(id) =>
          if id in securities {
            symbolToId := symbolToId - {securities[id].symbol};
            symbolToId := symbolToId - {securities[id].marketSymbol};
          }
          securities := securities - {id};
          assert symbolToId == Apply(old(State()), d).symbolToId;
      }
    }

    function GetSecurityIdBySymbol(symbol: string): (id: int)
      reads this
      ensures id == SymbolId(State(), symbol)
    {
      if symbol in symbolToId then symbolToId[symbol] else 0
    }
  }
}
