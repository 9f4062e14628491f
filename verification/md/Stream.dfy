// What the stream of a processor promises its readers, and that every
// operation on the registry keeps the promise.
module Stream {
  import opened Common
  import opened Registry
  import RefData

  // --- reading a stream ---------------------------------------------------

  // The status last sent for a security.
  function LastStatus(stream: seq<Message>, id: int): Option<Status>
    decreases |stream|
  {
    if stream == [] then None
    else
      var last := stream[|stream| - 1];
      if last.SecurityStatus? && last.id == id then Some(last.status) else LastStatus(stream[..|stream| - 1], id)
  }

  // A full book was sent, and no PENDING_SNAPSHOT since.
  predicate BookSent(stream: seq<Message>, id: int)
    decreases |stream|
  {
    if stream == [] then false
    else
      var last := stream[|stream| - 1];
      if last.FullBook? && last.id == id then true
      else if last.SecurityStatus? && last.id == id && last.status == PendingSnapshot then false
      else BookSent(stream[..|stream| - 1], id)
  }

  // May a message follow a stream? A status must be news; an update must have
  // a book to be applied to. `trades` says whether trades are held to that too.
  predicate MayFollow(stream: seq<Message>, message: Message, trades: bool) {
    match message
    case SecurityStatus(id, _, status) => LastStatus(stream, id) != Some(status)
    case BookUpdate(id, _, _, _, _) => BookSent(stream, id)
    case TradeUpdate(id, _, _, _, _) => trades ==> BookSent(stream, id)
    case _ => true
  }

  predicate WellBehaved(stream: seq<Message>, trades: bool)
    decreases |stream|
  {
    var n := |stream| - 1;
    stream == [] || (WellBehaved(stream[..n], trades) && MayFollow(stream[..n], stream[n], trades))
  }

  // Every message of a well-behaved stream fits what precedes it.
  lemma {:induction false} WellBehavedEverywhere(stream: seq<Message>, trades: bool, k: nat)
    requires WellBehaved(stream, trades) && k < |stream|
    ensures MayFollow(stream[..k], stream[k], trades)
    decreases |stream|
  {
    var n := |stream| - 1;
    if k < n {
      WellBehavedEverywhere(stream[..n], trades, k);
      assert stream[..n][..k] == stream[..k];
    }
  }

  // The tables of a RefDataHolder that was fed the stream. `index` is what it
  // reads from a market symbol.
  function HolderAfter(stream: seq<Message>, index: string -> Option<int>): RefData.Holder
    decreases |stream|
  {
    if stream == [] then RefData.EMPTY
    else Fed(HolderAfter(stream[..|stream| - 1], index), stream[|stream| - 1], index)
  }

  function Fed(h: RefData.Holder, message: Message, index: string -> Option<int>): RefData.Holder {
    match message
    case SecurityAdded(id, _, symbol, marketSymbol) =>
      RefData.Apply(h, RefData.Add(id, RefData.SecurityInfo(symbol, marketSymbol, false, index(marketSymbol))))
    case SecurityRemoved(id) => RefData.Apply(h, RefData.Remove(id))
    case _ => h
  }

  lemma OneMore(stream: seq<Message>, message: Message)
    ensures (stream + [message])[..|stream + [message]| - 1] == stream
  {
  }

  // --- the order of messages ----------------------------------------------

  // The processor's own status of every security is the one last sent, and
  // those ONLINE have a book, except the `late` ones.
  ghost predicate InStep(m: Market, trades: bool, late: set<int>) {
    && m.output && Inverse(m) && WellBehaved(m.stream, trades)
    && (forall id {:trigger StatusOf(m, id)} :: StatusMatches(StatusOf(m, id), LastStatus(m.stream, id)))
    && (forall id {:trigger StatusOf(m, id)} :: StatusOf(m, id) == Online && id !in late ==> BookSent(m.stream, id))
  }

  predicate StatusMatches(status: Status, sent: Option<Status>) {
    if status == NoStatus then sent == None || sent == Some(Offline) else sent == Some(status)
  }

  lemma SayKeepsStep(m: Market, message: Message, trades: bool, late: set<int>)
    requires InStep(m, trades, late)
    requires !message.SecurityStatus? && MayFollow(m.stream, message, trades)
    ensures InStep(Emit(m, message), trades, if message.FullBook? then late - {message.id} else late)
    ensures forall id :: BookSent(m.stream, id) ==> BookSent(Emit(m, message).stream, id)
  {
    OneMore(m.stream, message);
    var m' := Emit(m, message);
    forall id ensures StatusOf(m', id) == StatusOf(m, id) && LastStatus(m'.stream, id) == LastStatus(m.stream, id) {
    }
  }

  lemma CreateKeepsStep(m: Market, hash: string -> nat, symbol: string, trades: bool, late: set<int>)
    requires InStep(m, trades, late) && |m.securities| < MAX_ID
    ensures InStep(WithSecurity(m, hash, symbol), trades, late)
  {
    CreateKeepsInverse(m, hash, symbol);
    var m' := WithSecurity(m, hash, symbol);
    forall id ensures StatusOf(m', id) == StatusOf(m, id) {
    }
  }

  lemma StatusKeepsStep(m: Market, id: int, time: int, status: Status, trades: bool, late: set<int>)
    requires InStep(m, trades, late)
    requires status != NoStatus && (status == Offline ==> StatusOf(m, id) != NoStatus)
    requires status == Online ==> BookSent(m.stream, id) || id in late
    ensures InStep(SetStatus(m, id, time, status), trades, late)
    ensures id in m.securities ==> StatusOf(SetStatus(m, id, time, status), id) == status
    ensures SetStatus(m, id, time, status).securities.Keys == m.securities.Keys
  {
    SetStatusKeepsInverse(m, id, time, status);
    var m' := SetStatus(m, id, time, status);
    if m' != m {
      OneMore(m.stream, SecurityStatus(id, time, status));
      assert StatusMatches(StatusOf(m, id), LastStatus(m.stream, id));
      forall other | other != id
        ensures StatusOf(m', other) == StatusOf(m, other) && LastStatus(m'.stream, other) == LastStatus(m.stream, other)
      {
      }
    }
  }

  // An offline security can be dropped without a word.
  lemma ForgetKeepsStep(m: Market, id: int, trades: bool, late: set<int>)
    requires InStep(m, trades, late) && StatusOf(m, id) in {NoStatus, Offline}
    ensures InStep(WithoutSecurity(m, id), trades, late)
  {
    SayKeepsStep(m, SecurityRemoved(id), trades, late);
    var said := Emit(m, SecurityRemoved(id));
    ForgetKeepsInverse(m, id);
    var m' := Forget(said, id);
    assert StatusMatches(StatusOf(said, id), LastStatus(said.stream, id));
    forall other | other != id ensures StatusOf(m', other) == StatusOf(said, other) {
      if id in said.securities {
        assert m'.securities == said.securities - {id};
      }
    }
  }

  // Every registered security is online or waiting for its first book.
  ghost predicate Settled(m: Market) {
    forall id :: id in m.securities ==> m.securities[id].status in {PendingSnapshot, Online}
  }

  ghost predicate NoneNew(m: Market) {
    forall id :: id in m.securities ==> m.securities[id].status != NoStatus
  }

  lemma SweepOneKeepsStep(m: Market, time: int, id: int, trades: bool)
    requires InStep(m, trades, {}) && NoneNew(m) && id in m.securities
    ensures var m' := SweepOne(m, time, id);
            && InStep(m', trades, {}) && NoneNew(m')
            && m'.securities == m.securities[id := m.securities[id].(status := Offline)] && m'.ids == m.ids
  {
    StatusKeepsStep(m, id, time, Offline, trades, {});
    SayKeepsStep(SetStatus(m, id, time, Offline), SecurityRemoved(id), trades, {});
  }

  lemma {:induction false} SweepKeepsStep(m: Market, time: int, order: seq<int>, trades: bool)
    requires InStep(m, trades, {}) && NoneNew(m)
    requires forall i :: 0 <= i < |order| ==> order[i] in m.securities
    ensures var m' := Sweep(m, time, order);
            && InStep(m', trades, {})
            && m'.securities.Keys == m.securities.Keys && m'.ids == m.ids
            && (forall id :: id in order ==> StatusOf(m', id) == Offline)
            && (forall id :: StatusOf(m, id) == Offline ==> StatusOf(m', id) == Offline)
    decreases |order|
  {
    if order != [] {
      SweepOneKeepsStep(m, time, order[0], trades);
      SweepKeepsStep(SweepOne(m, time, order[0]), time, order[1..], trades);
      assert forall id :: id in order ==> id == order[0] || id in order[1..];
    }
  }

  lemma InvalidateKeepsStep(m: Market, time: int, order: seq<int>, trades: bool)
    requires InStep(m, trades, {}) && NoneNew(m) && Enumerates(order, m.securities.Keys)
    ensures InStep(Invalidated(m, time, order), trades, {})
  {
    assert forall i :: 0 <= i < |order| ==> order[i] in order;
    SweepKeepsStep(m, time, order, trades);
    var swept := Sweep(m, time, order);
    SayKeepsStep(swept, ConnectionStatus(time, ConnectionOffline), trades, {});
    var said := Emit(swept, ConnectionStatus(time, ConnectionOffline));
    var m' := Invalidated(m, time, order);
    assert m'.stream == said.stream;
    forall id ensures StatusMatches(StatusOf(m', id), LastStatus(m'.stream, id)) {
      assert StatusMatches(StatusOf(said, id), LastStatus(said.stream, id));
      if id in m.securities {
        assert StatusOf(swept, id) == Offline;
      }
    }
  }

  // --- the reader's tables ------------------------------------------------

  // The reader holds exactly the registered securities but the `gone` ones.
  ghost predicate Agrees(m: Market, index: string -> Option<int>, gone: set<int>) {
    var h := HolderAfter(m.stream, index);
    && m.output && Inverse(m)
    && h.securities.Keys == m.securities.Keys - gone
    && (forall id :: id in h.securities ==>
          h.securities[id].symbol == h.securities[id].marketSymbol == m.securities[id].symbol)
    && (forall s :: s in h.symbolToId <==> s in m.ids && m.ids[s] !in gone)
    && (forall s :: s in h.symbolToId ==> h.symbolToId[s] == m.ids[s])
  }

  lemma EmitFeeds(m: Market, message: Message, index: string -> Option<int>)
    requires m.output
    ensures HolderAfter(Emit(m, message).stream, index) == Fed(HolderAfter(m.stream, index), message, index)
  {
    OneMore(m.stream, message);
  }

  predicate IsDefinition(message: Message) {
    message.SecurityAdded? || message.SecurityRemoved?
  }

  lemma SayKeepsAgreement(m: Market, message: Message, index: string -> Option<int>, gone: set<int>)
    requires Agrees(m, index, gone) && !IsDefinition(message)
    ensures Agrees(Emit(m, message), index, gone)
  {
    EmitFeeds(m, message, index);
  }

  lemma StatusKeepsAgreement(m: Market, id: int, time: int, status: Status, index: string -> Option<int>,
                             gone: set<int>)
    requires Agrees(m, index, gone)
    ensures Agrees(SetStatus(m, id, time, status), index, gone)
  {
    SetStatusKeepsInverse(m, id, time, status);
    var m' := SetStatus(m, id, time, status);
    if m' != m {
      EmitFeeds(m.(securities := m'.securities), SecurityStatus(id, time, status), index);
    }
  }

  // Defining a registered security again tells the reader nothing new.
  lemma RepeatKeepsAgreement(m: Market, id: int, time: int, index: string -> Option<int>)
    requires Agrees(m, index, {}) && id in m.securities
    ensures var symbol := m.securities[id].symbol; Agrees(Emit(m, SecurityAdded(id, time, symbol, symbol)), index, {})
  {
    EmitFeeds(m, SecurityAdded(id, time, m.securities[id].symbol, m.securities[id].symbol), index);
  }

  lemma NewKeepsAgreement(m: Market, m': Market, id: int, symbol: string, time: int, index: string -> Option<int>)
    requires Agrees(m, index, {}) && id !in m.securities && symbol !in m.ids && Inverse(m')
    requires m' == m.(securities := m.securities[id := Entry(symbol, NoStatus)], ids := m.ids[symbol := id])
    ensures Agrees(Emit(m', SecurityAdded(id, time, symbol, symbol)), index, {})
  {
    EmitFeeds(m', SecurityAdded(id, time, symbol, symbol), index);
  }

  // A definition, of a security registered before or not, reaches the reader.
  lemma AddKeepsAgreement(m: Market, hash: string -> nat, symbol: string, time: int, index: string -> Option<int>)
    requires Agrees(m, index, {}) && |m.securities| < MAX_ID
    ensures var m' := WithSecurity(m, hash, symbol);
            symbol in m'.ids && Agrees(Emit(m', SecurityAdded(m'.ids[symbol], time, symbol, symbol)), index, {})
  {
    CreateKeepsInverse(m, hash, symbol);
    var m' := WithSecurity(m, hash, symbol);
    if symbol in m.ids {
      RepeatKeepsAgreement(m, m.ids[symbol], time, index);
    } else {
      NewKeepsAgreement(m, m', m'.ids[symbol], symbol, time, index);
    }
  }

  lemma RemoveKeepsAgreement(m: Market, id: int, index: string -> Option<int>, gone: set<int>)
    requires Agrees(m, index, gone) && id in m.securities && id !in gone
    ensures Agrees(Emit(m, SecurityRemoved(id)), index, gone + {id})
  {
    EmitFeeds(m, SecurityRemoved(id), index);
  }

  lemma SweepOneKeepsAgreement(m: Market, time: int, id: int, index: string -> Option<int>, gone: set<int>)
    requires Agrees(m, index, gone) && id in m.securities && id !in gone
    ensures Agrees(SweepOne(m, time, id), index, gone + {id})
            && SweepOne(m, time, id).securities.Keys == m.securities.Keys
  {
    StatusKeepsAgreement(m, id, time, Offline, index, gone);
    RemoveKeepsAgreement(SetStatus(m, id, time, Offline), id, index, gone);
  }

  function Members(order: seq<int>): set<int> {
    set id | id in order
  }

  lemma {:induction false} SweepKeepsAgreement(m: Market, time: int, order: seq<int>, index: string -> Option<int>,
                                               gone: set<int>)
    requires Agrees(m, index, gone) && Members(order) <= m.securities.Keys && Members(order) !! gone
    requires forall i, j :: 0 <= i < j < |order| ==> order[i] != order[j]
    ensures Agrees(Sweep(m, time, order), index, gone + Members(order))
    ensures Sweep(m, time, order).securities.Keys == m.securities.Keys
    decreases |order|
  {
    if order == [] {
      assert gone + Members(order) == gone;
    } else {
      var id, rest := order[0], order[1..];
      assert id in Members(order) && Members(rest) <= Members(order) && id !in rest;
      assert gone + Members(order) == gone + {id} + Members(rest);
      SweepOneKeepsAgreement(m, time, id, index, gone);
      SweepKeepsAgreement(SweepOne(m, time, id), time, rest, index, gone + {id});
    }
  }

  lemma MembersOfEnumeration(order: seq<int>, ids: set<int>)
    requires Enumerates(order, ids)
    ensures Members(order) == ids && {} + Members(order) == ids
  {
    forall id ensures id in Members(order) <==> id in ids {
      assert id in order <==> id in ids;
    }
  }

  lemma ClearKeepsAgreement(m: Market, index: string -> Option<int>)
    requires Agrees(m, index, m.securities.Keys)
    ensures Agrees(m.(securities := map[], ids := map[]), index, {})
  {
    var h := HolderAfter(m.stream, index);
    assert forall s :: s !in h.symbolToId;
  }

  lemma InvalidateKeepsAgreement(m: Market, time: int, order: seq<int>, index: string -> Option<int>)
    requires Agrees(m, index, {}) && Enumerates(order, m.securities.Keys)
    ensures Agrees(Invalidated(m, time, order), index, {})
  {
    MembersOfEnumeration(order, m.securities.Keys);
    SweepKeepsAgreement(m, time, order, index, {});
    var swept := Sweep(m, time, order);
    SayKeepsAgreement(swept, ConnectionStatus(time, ConnectionOffline), index, swept.securities.Keys);
    ClearKeepsAgreement(SetConnection(swept, ConnectionOffline, time), index);
  }
}
