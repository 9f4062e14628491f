// The replay of a capture as an object. Snapshots and incremental refreshes
// are read by hand, field by field; the results are those of the plain path.
module FileProcessor {
  import opened Common
  import opened Decimal
  import opened DeribitModel
  import opened DeribitProcessor
  import opened FileModel
  import opened LightFix
  import opened Registry
  import opened Timestamp

  class FileMessageProcessor {
    const processor: DeribitMessageProcessor
    const lightMsg: LightFixMessage
    const clock: TimestampParser
    var hasSeenLogon: bool
    var sessionInitialized: bool

    ghost predicate Valid()
      reads this, lightMsg, clock
    {
      lightMsg.Valid() && clock.Valid()
    }

    function State(): FileState
      reads this, processor, processor.mp
    {
      FileState(hasSeenLogon, processor.State())
    }

    constructor (processor: DeribitMessageProcessor)
      ensures Valid() && State() == FileState(false, processor.State()) && this.processor == processor
      ensures fresh(lightMsg) && fresh(lightMsg.fields) && fresh(clock)
    {
      this.processor := processor;
      lightMsg := new LightFixMessage();
      clock := new TimestampParser();
      hasSeenLogon, sessionInitialized := false, false;
    }

    // --- reading entries --------------------------------------------------

    // The type of the i-th entry, and where its fields are.
    method ReadEntry(delimiter: int, i: nat, ghost entries: seq<MdEntry>)
      returns (begin: nat, end: nat, entryType: char)
      requires lightMsg.Valid() && CarriesEntries(lightMsg.Contents(), delimiter, entries) && i < |entries|
      ensures begin <= end <= lightMsg.count && lightMsg.fields[begin..end] == Group(lightMsg.Contents(), delimiter, i)
      ensures entryType == TypeChar(entries[i].kind)
    {
      var found;
      found, begin, end := lightMsg.GetGroup(delimiter, i);
      var text := lightMsg.GetGroupField(begin, end, TAG_TYPE);
      entryType := text[0];
    }

    method ReadType(delimiter: int, i: nat, ghost entries: seq<MdEntry>) returns (entryType: char)
      requires lightMsg.Valid() && CarriesEntries(lightMsg.Contents(), delimiter, entries) && i < |entries|
      ensures entryType == TypeChar(entries[i].kind)
    {
      var begin, end;
      begin, end, entryType := ReadEntry(delimiter, i, entries);
    }

    method ProcessMDEntryFast(begin: nat, end: nat, id: int, time: int, ghost e: MdEntry)
      requires lightMsg.Valid() && begin <= end <= lightMsg.count && CarriesEntry(lightMsg.fields[begin..end], e)
      requires processor.mp.shouldOutput
      modifies processor.mp
      ensures processor.mp.State() == Emit(old(processor.mp.State()), UpdateOf(id, time, e))
    {
      var entryType := lightMsg.GetGroupField(begin, end, TAG_TYPE);
      var kind := entryType[0];
      var action := ReadAction(begin, end, e);
      var price := lightMsg.GetGroupField(begin, end, TAG_PRICE);
      var size := lightMsg.GetGroupField(begin, end, TAG_SIZE);
      if kind == '0' {
        processor.mp.Write(BookUpdate(id, time, BidSide, action, Level(price, size)));
      } else if kind == '1' {
        processor.mp.Write(BookUpdate(id, time, AskSide, action, Level(price, size)));
      } else {
        var side, tradeId := ReadTrade(begin, end, e);
        processor.mp.Write(TradeUpdate(id, time, side, Level(price, size), tradeId));
      }
    }

    method ReadAction(begin: nat, end: nat, ghost e: MdEntry) returns (action: Action)
      requires lightMsg.Valid() && begin <= end <= lightMsg.count && CarriesEntry(lightMsg.fields[begin..end], e)
      ensures action == ActionOf(e.action)
    {
      var text := lightMsg.GetGroupField(begin, end, TAG_ACTION);
      action := NoAction;
      if |text| > 0 {
        action := match text[0] case '0' => New case '1' => Change case '2' => Delete case _ => NoAction;
        assert text == [text[0]];
      }
    }

    method ReadTrade(begin: nat, end: nat, ghost e: MdEntry) returns (side: Side, tradeId: Option<nat>)
      requires lightMsg.Valid() && begin <= end <= lightMsg.count && CarriesEntry(lightMsg.fields[begin..end], e)
      requires e.kind == Trade
      ensures side == (if e.side == '1' then AskSide else BidSide) && tradeId == e.tradeId
    {
      var sideText := lightMsg.GetGroupField(begin, end, TAG_SIDE);
      side := NoSide;
      if |sideText| > 0 {
        side := if sideText[0] == '1' then AskSide else BidSide;
      }
      var idText := lightMsg.GetGroupField(begin, end, TAG_TRADE_ID);
      tradeId := None;
      if e.tradeId.Some? {
        NumberOfDigits(e.tradeId.value, TWO64);
      }
      if |idText| > 0 {
        tradeId := Some(Number(idText, TWO64));
      }
    }

    // The announced number of entries.
    method ReadCount(ghost n: nat) returns (count: nat)
      requires lightMsg.Valid() && FieldValue(lightMsg.Contents(), TAG_ENTRIES) == Digits(n) && n < INT_LIMIT
      ensures count == n
    {
      var text := lightMsg.GetField(TAG_ENTRIES);
      NumberOfDigits(n, INT_LIMIT);
      count := Number(text, INT_LIMIT);
    }

    // Parse a message; its time, and the id of its security if registered.
    method ReadHeader(text: string, ghost delimiter: int, ghost symbol: string, ghost time: int,
                      ghost entries: seq<MdEntry>)
      returns (timestamp: int, id: Option<int>)
      requires Valid() && Carries(ParseFields(text, MAX_FIELDS), delimiter, symbol, time, entries)
      modifies lightMsg, lightMsg.fields, clock
      ensures Valid() && lightMsg.Contents() == ParseFields(text, MAX_FIELDS) && timestamp == time
      ensures id == if symbol in processor.mp.symbolToSecurityId
                    then Some(processor.mp.symbolToSecurityId[symbol]) else None
    {
      lightMsg.Parse(text);
      var stamp := lightMsg.GetField(TAG_SENDING_TIME);
      timestamp := clock.ParseNanos(stamp);
      var name := lightMsg.GetField(TAG_SYMBOL);
      id := if name in processor.mp.symbolToSecurityId then Some(processor.mp.GetSecurityId(name)) else None;
    }

    // --- incremental refreshes --------------------------------------------

    method WriteEntry(i: nat, id: int, time: int, ghost entries: seq<MdEntry>)
      requires lightMsg.Valid() && CarriesEntries(lightMsg.Contents(), TAG_ACTION, entries) && i < |entries|
      requires processor.mp.shouldOutput
      modifies processor.mp
      ensures processor.mp.State() == Emit(old(processor.mp.State()), UpdateOf(id, time, entries[i]))
    {
      var found, begin, end := lightMsg.GetGroup(TAG_ACTION, i);
      ProcessMDEntryFast(begin, end, id, time, entries[i]);
    }

    method WriteEntries(n: nat, id: int, time: int, ghost entries: seq<MdEntry>)
      requires lightMsg.Valid() && CarriesEntries(lightMsg.Contents(), TAG_ACTION, entries) && n == |entries|
      requires processor.mp.shouldOutput
      modifies processor.mp
      ensures processor.mp.State() == EmitAll(old(processor.mp.State()), UpdatesOf(id, time, entries))
    {
      var i := 0;
      ghost var before := processor.mp.State();
      EmitNothing(before);
      while i < n
        invariant i <= n && processor.mp.State() == EmitAll(before, UpdatesUpTo(id, time, entries, i))
      {
        EmitSplit(before, UpdatesUpTo(id, time, entries, i), UpdateOf(id, time, entries[i]));
        WriteEntry(i, id, time, entries);
        i := i + 1;
      }
    }

    method ProcessIncrementalFast(text: string, ghost symbol: string, ghost time: int, ghost entries: seq<MdEntry>)
      requires Valid() && Carries(ParseFields(text, MAX_FIELDS), TAG_ACTION, symbol, time, entries)
      modifies lightMsg, lightMsg.fields, clock, processor.mp
      ensures Valid() && processor.State() == DeribitModel.OnIncremental(old(processor.State()), symbol, time, entries)
    {
      if !processor.mp.shouldOutput {
        return;
      }
      var timestamp, found := ReadHeader(text, TAG_ACTION, symbol, time, entries);
      if found.None? {
        return;
      }
      var id := found.value;
      if StatusOf(processor.mp.State(), id) != Online {
        return;
      }
      var n := ReadCount(|entries|);
      WriteEntries(n, id, timestamp, entries);
    }

    // --- snapshots --------------------------------------------------------

    method CountFast(n: nat, ghost entries: seq<MdEntry>) returns (bids: nat, asks: nat)
      requires lightMsg.Valid() && CarriesEntries(lightMsg.Contents(), TAG_TYPE, entries) && n == |entries|
      ensures bids == |Levels(entries, Bid)| && asks == |Levels(entries, Offer)|
    {
      bids, asks := 0, 0;
      var i := 0;
      while i < n
        invariant i <= n && bids == |LevelsUpTo(entries, Bid, i)| && asks == |LevelsUpTo(entries, Offer, i)|
      {
        var entryType := ReadType(TAG_TYPE, i, entries);
        OneMoreLevel(entries, Bid, i);
        OneMoreLevel(entries, Offer, i);
        if entryType == '0' {
          bids := bids + 1;
        } else if entryType == '1' {
          asks := asks + 1;
        }
        i := i + 1;
      }
    }

    // The level of the i-th entry, if it is of the side asked for.
    method ReadLevel(i: nat, kind: Kind, ghost entries: seq<MdEntry>) returns (read: Option<Level>)
      requires lightMsg.Valid() && CarriesEntries(lightMsg.Contents(), TAG_TYPE, entries) && i < |entries|
      ensures read == if entries[i].kind == kind then Some(LevelOf(entries[i])) else None
    {
      var begin, end, entryType := ReadEntry(TAG_TYPE, i, entries);
      read := None;
      if entryType == TypeChar(kind) {
        var price := lightMsg.GetGroupField(begin, end, TAG_PRICE);
        var size := lightMsg.GetGroupField(begin, end, TAG_SIZE);
        read := Some(Level(price, size));
      }
    }

    method TakeNext(i: nat, kind: Kind, ghost declared: nat, levels: seq<Level>, ghost entries: seq<MdEntry>)
      returns (more: seq<Level>)
      requires lightMsg.Valid() && CarriesEntries(lightMsg.Contents(), TAG_TYPE, entries) && i < |entries|
      requires declared == Min(|Levels(entries, kind)|, MAX_LEVELS)
      requires levels == First(LevelsUpTo(entries, kind, i)) && |levels| < declared
      ensures more == First(LevelsUpTo(entries, kind, i + 1)) && |more| <= declared
    {
      TakeStep(entries, kind, i);
      var read := ReadLevel(i, kind, entries);
      more := if read.Some? then levels + [read.value] else levels;
    }

    // Stops as soon as the declared number of levels is written.
    method TakeLevelsFast(n: nat, kind: Kind, declared: nat, ghost entries: seq<MdEntry>) returns (levels: seq<Level>)
      requires lightMsg.Valid() && CarriesEntries(lightMsg.Contents(), TAG_TYPE, entries) && n == |entries|
      requires declared == Min(|Levels(entries, kind)|, MAX_LEVELS)
      ensures |levels| == declared && levels == First(Levels(entries, kind))
    {
      levels := [];
      var i := 0;
      while i < n && |levels| < declared
        invariant i <= n && levels == First(LevelsUpTo(entries, kind, i)) && |levels| <= declared
      {
        levels := TakeNext(i, kind, declared, levels, entries);
        i := i + 1;
      }
      TakenEnough(entries, kind, i);
    }

    method WriteIfBeyond(i: nat, bidsBefore: nat, asksBefore: nat, id: int, time: int, ghost entries: seq<MdEntry>)
      returns (bids: nat, asks: nat)
      requires lightMsg.Valid() && CarriesEntries(lightMsg.Contents(), TAG_TYPE, entries) && i < |entries|
      requires bidsBefore == |LevelsUpTo(entries, Bid, i)| && asksBefore == |LevelsUpTo(entries, Offer, i)|
      requires processor.mp.shouldOutput
      modifies processor.mp
      ensures bids == bidsBefore + (if entries[i].kind == Bid then 1 else 0)
      ensures asks == asksBefore + (if entries[i].kind == Offer then 1 else 0)
      ensures processor.mp.State() == if Overflows(entries, i)
                                      then Emit(old(processor.mp.State()), UpdateOf(id, time, entries[i]))
                                      else old(processor.mp.State())
    {
      bids, asks := bidsBefore, asksBefore;
      var begin, end, entryType := ReadEntry(TAG_TYPE, i, entries);
      if entryType == '0' {
        bids := bids + 1;
        if bids > MAX_LEVELS {
          ProcessMDEntryFast(begin, end, id, time, entries[i]);
        }
      } else if entryType == '1' {
        asks := asks + 1;
        if asks > MAX_LEVELS {
          ProcessMDEntryFast(begin, end, id, time, entries[i]);
        }
      } else if entryType == '2' {
        ProcessMDEntryFast(begin, end, id, time, entries[i]);
      }
    }

    method WriteOverflowFast(n: nat, id: int, time: int, ghost entries: seq<MdEntry>)
      requires lightMsg.Valid() && CarriesEntries(lightMsg.Contents(), TAG_TYPE, entries) && n == |entries|
      requires processor.mp.shouldOutput
      modifies processor.mp
      ensures processor.mp.State() == EmitAll(old(processor.mp.State()), Overflow(id, time, entries))
    {
      var bids, asks, i := 0, 0, 0;
      ghost var before := processor.mp.State();
      EmitNothing(before);
      while i < n
        invariant i <= n && bids == |LevelsUpTo(entries, Bid, i)| && asks == |LevelsUpTo(entries, Offer, i)|
        invariant processor.mp.State() == EmitAll(before, OverflowUpTo(id, time, entries, i))
      {
        OverflowStep(before, id, time, entries, i);
        OneMoreLevel(entries, Bid, i);
        OneMoreLevel(entries, Offer, i);
        bids, asks := WriteIfBeyond(i, bids, asks, id, time, entries);
        i := i + 1;
      }
    }

    // Nothing is written for a snapshot without entries, or of trades.
    method WriteSnapshotFast(id: int, time: int, ghost entries: seq<MdEntry>) returns (written: bool)
      requires lightMsg.Valid() && CarriesEntries(lightMsg.Contents(), TAG_TYPE, entries)
      requires FieldValue(lightMsg.Contents(), TAG_ENTRIES) == Digits(|entries|) && |entries| < INT_LIMIT
      requires processor.mp.shouldOutput
      modifies processor.mp
      ensures written == (entries != [] && entries[0].kind != Trade)
      ensures processor.mp.State() == if written
                                      then EmitAll(old(processor.mp.State()), SnapshotMessages(id, time, entries))
                                      else old(processor.mp.State())
    {
      var n := ReadCount(|entries|);
      if n == 0 {
        return false;
      }
      var begin, end, firstType := ReadEntry(TAG_TYPE, 0, entries);
      if firstType == '2' {
        return false;
      }
      WriteLevels(n, id, time, entries);
      return true;
    }

    method WriteLevels(n: nat, id: int, time: int, ghost entries: seq<MdEntry>)
      requires lightMsg.Valid() && CarriesEntries(lightMsg.Contents(), TAG_TYPE, entries) && n == |entries|
      requires processor.mp.shouldOutput
      modifies processor.mp
      ensures processor.mp.State() == EmitAll(old(processor.mp.State()), SnapshotMessages(id, time, entries))
    {
      var bidCount, askCount := CountFast(n, entries);
      var bids := TakeLevelsFast(n, Bid, Min(bidCount, MAX_LEVELS), entries);
      var asks := TakeLevelsFast(n, Offer, Min(askCount, MAX_LEVELS), entries);
      processor.mp.Write(FullBook(id, time, bids, asks));
      Assoc(old(processor.mp.stream), [BookOf(id, time, entries)], Overflow(id, time, entries));
      if bidCount > MAX_LEVELS || askCount > MAX_LEVELS {
        WriteOverflowFast(n, id, time, entries);
      }
    }

    method ProcessSnapshotFast(text: string, ghost symbol: string, ghost time: int, ghost entries: seq<MdEntry>)
      requires Valid() && Carries(ParseFields(text, MAX_FIELDS), TAG_TYPE, symbol, time, entries)
      modifies lightMsg, lightMsg.fields, clock, processor.mp
      ensures Valid() && processor.State() == DeribitModel.OnSnapshot(old(processor.State()), symbol, time, entries)
    {
      var timestamp, found := ReadHeader(text, TAG_TYPE, symbol, time, entries);
      if found.None? {
        return;
      }
      var id := found.value;
      if !processor.mp.shouldOutput {
        var _ := processor.mp.UpdateSecurityStatus(id, timestamp, Online);
        return;
      }
      var written := WriteSnapshotFast(id, timestamp, entries);
      if written {
        var _ := processor.mp.UpdateSecurityStatus(id, timestamp, Online);
      }
    }

    // --- dispatch ---------------------------------------------------------

    static method ExtractMsgType(text: string) returns (c: char)
      ensures c == MsgTypeFrom(text, 0)
    {
      var i := 0;
      while i + 4 < Min(|text|, 64)
        invariant MsgTypeFrom(text, i) == MsgTypeFrom(text, 0)
      {
        if TypeAt(text, i) {
          return text[i + 3];
        }
        i := i + 1;
      }
      return 0 as char;
    }

    // `parsed` is what a full parse makes of the text. Whichever path is
    // taken, the effect is that of the event.
    method Process(text: string, parsed: Event)
      requires Valid() && Faithful(text, parsed)
      requires parsed.SecurityList? ==> |processor.mp.securities| + |parsed.listed| <= MAX_ID
      modifies this, lightMsg, lightMsg.fields, clock, processor, processor.mp
      ensures Valid() && State() == ProcessText(old(State()), processor.mp.hash, text, parsed)
    {
      if !hasSeenLogon {
        if !IsLogon(text) {
          return;
        }
        hasSeenLogon := true;
      }
      if sessionInitialized {
        var msgType := ExtractMsgType(text);
        if msgType == 'X' {
          ProcessIncrementalFast(text, parsed.symbol, parsed.time, parsed.entries);
          return;
        }
        if msgType == 'W' {
          ProcessSnapshotFast(text, parsed.symbol, parsed.time, parsed.entries);
          return;
        }
      }
      sessionInitialized := true;
      processor.Handle(parsed);
    }
  }

  lemma OneMoreLevel(entries: seq<MdEntry>, kind: Kind, i: nat)
    requires i < |entries|
    ensures |LevelsUpTo(entries, kind, i + 1)| ==
            |LevelsUpTo(entries, kind, i)| + (if entries[i].kind == kind then 1 else 0)
  {
  }

  lemma NumberOfDigits(n: nat, limit: nat)
    requires n < limit
    ensures Number(Digits(n), limit) == n && Digits(n) != []
  {
    RunOf(Digits(n), []);
    assert Digits(n) + [] == Digits(n);
    assert Digits(n)[..|Digits(n)|] == Digits(n);
  }

  // A book that is full after some entries does not change with the rest.
  lemma {:induction false} TakenEnough(entries: seq<MdEntry>, kind: Kind, i: nat)
    requires i <= |entries|
    requires i == |entries| || |First(LevelsUpTo(entries, kind, i))| == Min(|Levels(entries, kind)|, MAX_LEVELS)
    ensures First(LevelsUpTo(entries, kind, i)) == First(Levels(entries, kind))
    decreases |entries| - i
  {
    if i < |entries| {
      TakeStep(entries, kind, i);
      TakenEnough(entries, kind, i + 1);
    }
  }
}
