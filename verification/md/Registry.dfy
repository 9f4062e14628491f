// The securities a market-data processor knows.
module Registry {
  // The ids it gives them, their status, and the stream of messages it writes
  // about them.

  import opened Common

  const MAX_ID: int := 0x7FFF_FFFF

  datatype Status = NoStatus | PendingSnapshot | Online | Offline
  datatype Connection = NoConnection | Starting | ConnectionOnline | ConnectionOffline
  datatype Side = BidSide | AskSide | NoSide
  datatype Action = NoAction | New | Change | Delete

  // A price and a quantity, as the text handed to setPrice and setQty; Decimal
  // says what number the stream carries for it.
  datatype Level = Level(price: string, qty: string)

  datatype Message =
    | FullBook(id: int, time: int, bids: seq<Level>, asks: seq<Level>)
    | BookUpdate(id: int, time: int, side: Side, action: Action, level: Level)
    | TradeUpdate(id: int, time: int, side: Side, level: Level, tradeId: Option<nat>)
    | SecurityStatus(id: int, time: int, status: Status)
    | ConnectionStatus(time: int, connection: Connection)
    | SecurityAdded(id: int, time: int, symbol: string, marketSymbol: string)
    | SecurityRemoved(id: int)

  datatype Entry = Entry(symbol: string, status: Status)

  datatype Market = Market(securities: map<int, Entry>, ids: map<string, int>,
                           connection: Connection, output: bool, stream: seq<Message>)

  const EMPTY := Market(map[], map[], NoConnection, true, [])

  // --- the id of a symbol -------------------------------------------------

  // Bits 1 to 30 of the hash, plus one.
  function HashId(h: nat): (id: int)
    ensures 1 <= id <= MAX_ID
  {
    h % 0x8000_0000 / 2 * 2 + 1
  }

  // The id is odd, and from it all of the hash but its lowest bit and those
  // above the 31st can be told.
  lemma HashIdIs(h: nat, g: nat)
    ensures HashId(h) % 2 == 1 && h % 0x8000_0000 - (HashId(h) - 1) in {0, 1}
    ensures HashId(h) == HashId(g) <==> h % 0x8000_0000 / 2 == g % 0x8000_0000 / 2
  {
  }

  function NextId(id: int): int {
    if id >= MAX_ID then 1 else id + 1
  }

  // The k-th id tried, counting round from MAX_ID to 1.
  function Tried(start: int, k: nat): (id: int)
    requires 1 <= start <= MAX_ID
    ensures 1 <= id <= MAX_ID
  {
    (start - 1 + k) % MAX_ID + 1
  }

  lemma TriedNext(start: int, k: nat)
    requires 1 <= start <= MAX_ID
    ensures Tried(start, 0) == start && Tried(start, k + 1) == NextId(Tried(start, k))
  {
    var r := (start - 1 + k) % MAX_ID;
    assert start - 1 + k == (start - 1 + k) / MAX_ID * MAX_ID + r;
    if r + 1 < MAX_ID {
      SmallRemainder((start - 1 + k) / MAX_ID, r + 1);
    } else {
      SmallRemainder((start - 1 + k) / MAX_ID + 1, 0);
    }
  }

  lemma SmallRemainder(q: int, r: int)
    requires 0 <= r < MAX_ID
    ensures (q * MAX_ID + r) % MAX_ID == r
  {
  }

  function TriedIds(start: int, k: nat): set<int>
    requires 1 <= start <= MAX_ID
  {
    set j | 0 <= j < k :: Tried(start, j)
  }

  lemma {:induction false} TriedIdsDiffer(start: int, k: nat)
    requires 1 <= start <= MAX_ID && k <= MAX_ID
    ensures |TriedIds(start, k)| == k
  {
    if k > 0 {
      TriedIdsDiffer(start, k - 1);
      assert TriedIds(start, k) == TriedIds(start, k - 1) + {Tried(start, k - 1)};
      forall j | 0 <= j < k - 1 ensures Tried(start, j) != Tried(start, k - 1) {
        CloseRemainders(start - 1 + j, k - 1 - j);
      }
    }
  }

  lemma CloseRemainders(a: int, d: int)
    requires 0 < d < MAX_ID
    ensures a % MAX_ID != (a + d) % MAX_ID
  {
  }

  lemma SmallerSet<T>(a: set<T>, b: set<T>)
    requires a <= b
    ensures |a| <= |b|
  {
    assert b == a + (b - a);
  }

  // Every probe that fails uses up one of the registered ids.
  lemma FailedProbes(taken: set<int>, start: int, k: nat)
    requires 1 <= start <= MAX_ID && |taken| < MAX_ID
    requires forall j :: 0 <= j < k ==> Tried(start, j) in taken
    ensures k <= |taken|
  {
    var n := Min(k, MAX_ID);
    TriedIdsDiffer(start, n);
    assert TriedIds(start, n) <= taken;
    SmallerSet(TriedIds(start, n), taken);
  }

  // How many probes fail before one succeeds.
  function Collisions(taken: set<int>, start: int, k: nat): (n: nat)
    requires 1 <= start <= MAX_ID && |taken| < MAX_ID
    requires forall j :: 0 <= j < k ==> Tried(start, j) in taken
    ensures n >= k && Tried(start, n) !in taken
    ensures forall j :: 0 <= j < n ==> Tried(start, j) in taken
    decreases |taken| - k
  {
    FailedProbes(taken, start, k);
    if Tried(start, k) !in taken then k
    else
      assert forall j :: 0 <= j < k + 1 ==> Tried(start, j) in taken;
      FailedProbes(taken, start, k + 1);
      Collisions(taken, start, k + 1)
  }

  function FreeId(taken: set<int>, start: int): (id: int)
    requires 1 <= start <= MAX_ID && |taken| < MAX_ID
    ensures 1 <= id <= MAX_ID && id !in taken
    ensures start !in taken ==> id == start
  {
    assert Tried(start, 0) == start;
    Tried(start, Collisions(taken, start, 0))
  }

  // --- operations ---------------------------------------------------------

  // Zero where the probe would go on forever.
  function NewId(m: Market, h: nat): int {
    if |m.securities| < MAX_ID then FreeId(m.securities.Keys, HashId(h)) else 0
  }

  function WithSecurity(m: Market, hash: string -> nat, symbol: string): Market {
    if symbol in m.ids then m
    else
      var id := NewId(m, hash(symbol));
      m.(securities := m.securities[id := Entry(symbol, NoStatus)], ids := m.ids[symbol := id])
  }

  function StatusOf(m: Market, id: int): Status {
    if id in m.securities then m.securities[id].status else NoStatus
  }

  function EmitAll(m: Market, messages: seq<Message>): Market {
    if m.output then m.(stream := m.stream + messages) else m
  }

  function Emit(m: Market, message: Message): Market {
    EmitAll(m, [message])
  }

  function SetStatus(m: Market, id: int, time: int, status: Status): Market {
    if id !in m.securities || m.securities[id].status == status then m
    else
      Emit(m.(securities := m.securities[id := m.securities[id].(status := status)]), SecurityStatus(id, time, status))
  }

  function SetConnection(m: Market, connection: Connection, time: int): Market {
    Emit(m.(connection := connection), ConnectionStatus(time, connection))
  }

  // The two maps lose a security; its symbol is freed with it.
  function Forget(m: Market, id: int): Market {
    if id in m.securities then
      m.(securities := m.securities - {id}, ids := m.ids - {m.securities[id].symbol})
    else
      m
  }

  function WithoutSecurity(m: Market, id: int): Market {
    Forget(Emit(m, SecurityRemoved(id)), id)
  }

  function SweepOne(m: Market, time: int, id: int): Market {
    Emit(SetStatus(m, id, time, Offline), SecurityRemoved(id))
  }

  function Sweep(m: Market, time: int, order: seq<int>): Market
    decreases |order|
  {
    if order == [] then m else Sweep(SweepOne(m, time, order[0]), time, order[1..])
  }

  // `order` is the order in which the hash map of securities is traversed.
  function Invalidated(m: Market, time: int, order: seq<int>): Market {
    SetConnection(Sweep(m, time, order), ConnectionOffline, time).(securities := map[], ids := map[])
  }

  ghost predicate Enumerates(order: seq<int>, ids: set<int>) {
    && (forall i, j :: 0 <= i < j < |order| ==> order[i] != order[j])
    && (forall id :: id in order <==> id in ids)
  }

  // --- the two maps -------------------------------------------------------

  // Symbols and ids are mutual inverses, and no id is 0.
  ghost predicate Inverse(m: Market) {
    && (forall id :: id in m.securities ==>
          1 <= id <= MAX_ID && m.securities[id].symbol in m.ids && m.ids[m.securities[id].symbol] == id)
    && (forall s :: s in m.ids ==> m.ids[s] in m.securities && m.securities[m.ids[s]].symbol == s)
  }

  lemma CreateKeepsInverse(m: Market, hash: string -> nat, symbol: string)
    requires Inverse(m) && |m.securities| < MAX_ID
    ensures var m' := WithSecurity(m, hash, symbol);
            && Inverse(m') && symbol in m'.ids
            && (symbol !in m.ids ==>
                  && m'.ids[symbol] !in m.securities
                  && m'.securities == m.securities[m'.ids[symbol] := Entry(symbol, NoStatus)])
  {
    if symbol !in m.ids {
      var id := NewId(m, hash(symbol));
      assert id !in m.securities.Keys;
    }
  }

  lemma SetStatusKeepsInverse(m: Market, id: int, time: int, status: Status)
    requires Inverse(m)
    ensures Inverse(SetStatus(m, id, time, status))
  {
  }

  lemma ForgetKeepsInverse(m: Market, id: int)
    requires Inverse(m)
    ensures var m' := WithoutSecurity(m, id); Inverse(m') && id !in m'.securities
  {
  }

  // --- the class ----------------------------------------------------------

  class MessageProcessor {
    const hash: string -> nat
    var securities: map<int, Entry>
    var symbolToSecurityId: map<string, int>
    var lastConnectionStatus: Connection
    var shouldOutput: bool
    var stream: seq<Message>

    function State(): Market
      reads this
    {
      Market(securities, symbolToSecurityId, lastConnectionStatus, shouldOutput, stream)
    }

    constructor (hash: string -> nat)
      ensures State() == EMPTY && this.hash == hash
    {
      this.hash := hash;
      securities, symbolToSecurityId := map[], map[];
      lastConnectionStatus, shouldOutput, stream := NoConnection, true, [];
    }

    method SetShouldOutput(on: bool)
      modifies this
      ensures State() == old(State()).(output := on)
    {
      shouldOutput := on;
    }

    // The probe: `while (m_securities.count(id))`.
    method Probe(start: int) returns (id: int)
      requires 1 <= start <= MAX_ID && |securities| < MAX_ID
      ensures id == FreeId(securities.Keys, start)
    {
      id := start;
      ghost var k := 0;
      TriedNext(start, 0);
      while id in securities
        invariant id == Tried(start, k)
        invariant forall j :: 0 <= j < k ==> Tried(start, j) in securities.Keys
        decreases |securities| - k
      {
        FailedProbes(securities.Keys, start, k + 1);
        TriedNext(start, k);
        id := if id >= MAX_ID then 1 else id + 1;
        k := k + 1;
      }
      SameStop(securities.Keys, start, k, Collisions(securities.Keys, start, 0));
    }

    method CreateSecurity(symbol: string) returns (id: int)
      requires symbol in symbolToSecurityId || |securities| < MAX_ID
      modifies this
      ensures State() == WithSecurity(old(State()), hash, symbol)
      ensures symbol in symbolToSecurityId && id == symbolToSecurityId[symbol]
    {
      if symbol in symbolToSecurityId {
        return symbolToSecurityId[symbol];
      }
      id := Probe(HashId(hash(symbol)));
      securities := securities[id := Entry(symbol, NoStatus)];
      symbolToSecurityId := symbolToSecurityId[symbol := id];
    }

    function GetSecurityId(symbol: string): int
      reads this
    {
      if symbol in symbolToSecurityId then symbolToSecurityId[symbol] else HashId(hash(symbol))
    }

    method Write(message: Message)
      modifies this`stream
      ensures stream == old(stream) + [message]
    {
      stream := stream + [message];
    }

    method UpdateSecurityStatus(id: int, time: int, status: Status) returns (changed: bool)
      modifies this
      ensures State() == SetStatus(old(State()), id, time, status)
      ensures changed <==> id in old(securities) && old(securities)[id].status != status
    {
      if id !in securities || securities[id].status == status {
        return false;
      }
      securities := securities[id := securities[id].(status := status)];
      if shouldOutput {
        Write(SecurityStatus(id, time, status));
      }
      return true;
    }

    method UpdateConnectionStatus(connection: Connection, time: int)
      modifies this
      ensures State() == SetConnection(old(State()), connection, time)
    {
      lastConnectionStatus := connection;
      if shouldOutput {
        Write(ConnectionStatus(time, connection));
      }
    }

    method RemoveSecurity(id: int)
      modifies this
      ensures State() == WithoutSecurity(old(State()), id)
    {
      if shouldOutput {
        Write(SecurityRemoved(id));
      }
      if id in securities {
        symbolToSecurityId := symbolToSecurityId - {securities[id].symbol};
        securities := securities - {id};
      }
    }

    method TakeOffline(id: int, time: int)
      modifies this
      ensures State() == SweepOne(old(State()), time, id)
    {
      var _ := UpdateSecurityStatus(id, time, Offline);
      if shouldOutput {
        Write(SecurityRemoved(id));
      }
    }

    method InvalidateState(time: int, order: seq<int>)
      modifies this
      ensures State() == Invalidated(old(State()), time, order)
    {
      var i := 0;
      while i < |order|
        invariant i <= |order|
        invariant Sweep(State(), time, order[i..]) == Sweep(old(State()), time, order)
      {
        assert order[i..][1..] == order[i + 1..];
        TakeOffline(order[i], time);
        i := i + 1;
      }
      UpdateConnectionStatus(ConnectionOffline, time);
      securities := map[];
      symbolToSecurityId := map[];
    }
  }

  lemma SameStop(taken: set<int>, start: int, a: nat, b: nat)
    requires 1 <= start <= MAX_ID
    requires Tried(start, a) !in taken && forall j :: 0 <= j < a ==> Tried(start, j) in taken
    requires Tried(start, b) !in taken && forall j :: 0 <= j < b ==> Tried(start, j) in taken
    ensures a == b
  {
  }
}
