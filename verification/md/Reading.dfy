// What a reader of a processor's stream knows of the prices of a security.
module Reading {
  import opened Common
  import opened Registry
  import opened Stream

  predicate IsUpdate(message: Message, id: int) {
    (message.BookUpdate? || message.TradeUpdate?) && message.id == id
  }

  predicate IsPrice(message: Message, id: int) {
    IsUpdate(message, id) || (message.FullBook? && message.id == id)
  }

  // The latest full book of a security, and the updates sent since.
  function PricesSince(stream: seq<Message>, id: int): seq<Message>
    decreases |stream|
  {
    if stream == [] then []
    else
      var before, last := stream[..|stream| - 1], stream[|stream| - 1];
      if last.FullBook? && last.id == id then [last]
      else if IsUpdate(last, id) then PricesSince(before, id) + [last]
      else PricesSince(before, id)
  }

  // One side of the latest full book, followed by the levels of its updates.
  function SideSince(prices: seq<Message>, side: Side): seq<Level>
    decreases |prices|
  {
    if prices == [] then []
    else SideSince(prices[..|prices| - 1], side) + LevelsIn(prices[|prices| - 1], side)
  }

  function LevelsIn(message: Message, side: Side): seq<Level> {
    if message.FullBook? then
      if side == BidSide then message.bids else if side == AskSide then message.asks else []
    else if message.BookUpdate? && message.side == side then [message.level]
    else []
  }

  // --- streams that grow --------------------------------------------------

  lemma AfterOne(stream: seq<Message>, message: Message, id: int)
    ensures var prices := PricesSince(stream + [message], id);
            && (!IsPrice(message, id) ==> prices == PricesSince(stream, id))
            && (IsUpdate(message, id) ==> prices == PricesSince(stream, id) + [message])
            && (message.FullBook? && message.id == id ==> prices == [message])
  {
    OneMore(stream, message);
  }

  lemma SayTells(m: Market, message: Message, id: int)
    requires m.output
    ensures var prices := PricesSince(Emit(m, message).stream, id);
            && (!IsPrice(message, id) ==> prices == PricesSince(m.stream, id))
            && (IsUpdate(message, id) ==> prices == PricesSince(m.stream, id) + [message])
            && (message.FullBook? && message.id == id ==> prices == [message])
  {
    AfterOne(m.stream, message, id);
  }

  lemma {:induction false} AfterUpdates(stream: seq<Message>, messages: seq<Message>, id: int)
    requires forall i :: 0 <= i < |messages| ==> IsUpdate(messages[i], id)
    ensures PricesSince(stream + messages, id) == PricesSince(stream, id) + messages
    decreases |messages|
  {
    if messages == [] {
      assert stream + messages == stream;
    } else {
      var before, last := messages[..|messages| - 1], messages[|messages| - 1];
      AfterUpdates(stream, before, id);
      AfterOne(stream + before, last, id);
      assert stream + messages == stream + before + [last];
      Assoc(PricesSince(stream, id), before, [last]);
      assert before + [last] == messages;
    }
  }

  lemma {:induction false} AfterOthers(stream: seq<Message>, messages: seq<Message>, id: int)
    requires forall i :: 0 <= i < |messages| ==> !IsPrice(messages[i], id)
    ensures PricesSince(stream + messages, id) == PricesSince(stream, id)
    decreases |messages|
  {
    if messages == [] {
      assert stream + messages == stream;
    } else {
      var before, last := messages[..|messages| - 1], messages[|messages| - 1];
      AfterOthers(stream, before, id);
      AfterOne(stream + before, last, id);
      assert stream + messages == stream + before + [last];
    }
  }

  lemma AfterBook(stream: seq<Message>, book: Message, updates: seq<Message>, id: int)
    requires book.FullBook? && book.id == id
    requires forall i :: 0 <= i < |updates| ==> IsUpdate(updates[i], id)
    ensures PricesSince(stream + ([book] + updates), id) == [book] + updates
  {
    AfterOne(stream, book, id);
    AfterUpdates(stream + [book], updates, id);
    Assoc(stream, [book], updates);
  }

  lemma StatusTellsNoPrice(m: Market, at: int, time: int, status: Status, id: int)
    ensures PricesSince(SetStatus(m, at, time, status).stream, id) == PricesSince(m.stream, id)
  {
    AfterOne(m.stream, SecurityStatus(at, time, status), id);
  }

  lemma {:induction false} SideSinceMore(a: seq<Message>, b: seq<Message>, side: Side)
    ensures SideSince(a + b, side) == SideSince(a, side) + SideSince(b, side)
    decreases |b|
  {
    if b == [] {
      assert a + b == a;
    } else {
      var before, last := b[..|b| - 1], b[|b| - 1];
      SideSinceMore(a, before, side);
      assert (a + b)[..|a + b| - 1] == a + before;
      Assoc(SideSince(a, side), SideSince(before, side), LevelsIn(last, side));
    }
  }

  // --- the connection -----------------------------------------------------

  // The connection status last sent.
  function LastConnection(stream: seq<Message>): Connection
    decreases |stream|
  {
    if stream == [] then NoConnection
    else
      var last := stream[|stream| - 1];
      if last.ConnectionStatus? then last.connection else LastConnection(stream[..|stream| - 1])
  }

  lemma {:induction false} ChatterKeepsConnection(stream: seq<Message>, messages: seq<Message>)
    requires forall i :: 0 <= i < |messages| ==> !messages[i].ConnectionStatus?
    ensures LastConnection(stream + messages) == LastConnection(stream)
    decreases |messages|
  {
    if messages == [] {
      assert stream + messages == stream;
    } else {
      var before, last := messages[..|messages| - 1], messages[|messages| - 1];
      assert stream + messages == stream + before + [last];
      OneMore(stream + before, last);
      ChatterKeepsConnection(stream, before);
    }
  }

  lemma SetConnectionTells(m: Market, connection: Connection, time: int)
    requires m.output
    ensures LastConnection(SetConnection(m, connection, time).stream) == connection
  {
    OneMore(m.stream, ConnectionStatus(time, connection));
  }

  // --- online and told so -------------------------------------------------

  // Who has not been told of a status is not online.
  lemma OnlineAsTold(m: Market, id: int, trades: bool)
    requires InStep(m, trades, {})
    ensures StatusOf(m, id) == Online <==> id in m.securities && LastStatus(m.stream, id) == Some(Online)
    ensures StatusOf(m, id) == Online ==> BookSent(m.stream, id)
  {
    assert StatusMatches(StatusOf(m, id), LastStatus(m.stream, id));
  }
}
