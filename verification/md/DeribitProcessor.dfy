// The Deribit processor as an object: each handler computes what the state
// machine of DeribitModel says. In C++ it derives from the common message
// processor; here it holds one, so that the operations they share are proved
// once.
module DeribitProcessor {
  import opened Common
  import opened Registry
  import opened DeribitModel

  class DeribitMessageProcessor {
    const mp: MessageProcessor
    const configured: set<string>
    var pendingSecurityLists: set<string>
    var perpOnlyReqIds: set<string>
    var perpCurrencies: set<string>

    function State(): Deribit
      reads this, mp
    {
      Deribit(mp.State(), pendingSecurityLists, perpOnlyReqIds, perpCurrencies, configured)
    }

    constructor (mp: MessageProcessor, configured: set<string>)
      requires mp.State() == EMPTY
      ensures State() == Initial(configured) && this.mp == mp
    {
      this.mp, this.configured := mp, configured;
      pendingSecurityLists, perpOnlyReqIds, perpCurrencies := {}, {}, {};
    }

    // --- snapshots --------------------------------------------------------

    static method CountKind(entries: seq<MdEntry>, kind: Kind) returns (n: nat)
      ensures n == |Levels(entries, kind)|
    {
      n := 0;
      var i := 0;
      while i < |entries|
        invariant i <= |entries| && n == |LevelsUpTo(entries, kind, i)|
      {
        n := if entries[i].kind == kind then n + 1 else n;
        i := i + 1;
      }
    }

    // As many levels are written as were declared.
    static method TakeLevels(entries: seq<MdEntry>, kind: Kind, declared: nat) returns (levels: seq<Level>)
      requires declared == Min(|Levels(entries, kind)|, MAX_LEVELS)
      ensures |levels| == declared && levels == First(Levels(entries, kind))
    {
      levels := [];
      var i := 0;
      while i < |entries|
        invariant i <= |entries| && levels == First(LevelsUpTo(entries, kind, i))
      {
        TakeStep(entries, kind, i);
        if entries[i].kind == kind {
          if |levels| < declared {
            levels := levels + [LevelOf(entries[i])];
          }
        }
        i := i + 1;
      }
    }

    method ProcessMDEntry(id: int, time: int, e: MdEntry)
      modifies mp
      ensures mp.State() == Emit(old(mp.State()), UpdateOf(id, time, e))
    {
      if !mp.shouldOutput {
        return;
      }
      var level := LevelOf(e);
      var action := ActionOf(e.action);
      match e.kind {
        case Bid =>
          mp.Write(BookUpdate(id, time, BidSide, action, level));
        case Offer =>
          mp.Write(BookUpdate(id, time, AskSide, action, level));
        case Trade =>
          mp.Write(TradeUpdate(id, time, if e.side == '1' then AskSide else BidSide, level, e.tradeId));
      }
    }

    // The entries beyond the book, one update each.
    method WriteOverflow(id: int, time: int, entries: seq<MdEntry>)
      requires mp.shouldOutput
      modifies mp
      ensures mp.State() == EmitAll(old(mp.State()), Overflow(id, time, entries))
    {
      var bids, asks := 0, 0;
      var i := 0;
      ghost var before := mp.State();
      EmitNothing(before);
      while i < |entries|
        invariant i <= |entries|
        invariant bids == |LevelsUpTo(entries, Bid, i)| && asks == |LevelsUpTo(entries, Offer, i)|
        invariant mp.State() == EmitAll(before, OverflowUpTo(id, time, entries, i))
      {
        var e := entries[i];
        OverflowStep(before, id, time, entries, i);
        match e.kind {
          case Bid =>
            bids := bids + 1;
            if bids > MAX_LEVELS {
              ProcessMDEntry(id, time, e);
            }
          case Offer =>
            asks := asks + 1;
            if asks > MAX_LEVELS {
              ProcessMDEntry(id, time, e);
            }
          case Trade =>
            ProcessMDEntry(id, time, e);
        }
        i := i + 1;
      }
    }

    method WriteSnapshot(id: int, time: int, entries: seq<MdEntry>)
      requires mp.shouldOutput
      modifies mp
      ensures mp.State() == EmitAll(old(mp.State()), SnapshotMessages(id, time, entries))
    {
      var bidCount := CountKind(entries, Bid);
      var askCount := CountKind(entries, Offer);
      var bids := TakeLevels(entries, Bid, Min(bidCount, MAX_LEVELS));
      var asks := TakeLevels(entries, Offer, Min(askCount, MAX_LEVELS));
      mp.Write(FullBook(id, time, bids, asks));
      Assoc(old(mp.stream), [BookOf(id, time, entries)], Overflow(id, time, entries));
      if bidCount > MAX_LEVELS || askCount > MAX_LEVELS {
        WriteOverflow(id, time, entries);
      }
    }

    method OnSnapshot(symbol: string, time: int, entries: seq<MdEntry>)
      modifies mp
      ensures State() == DeribitModel.OnSnapshot(old(State()), symbol, time, entries)
    {
      if symbol !in mp.symbolToSecurityId {
        return;
      }
      var id := mp.GetSecurityId(symbol);
      if !mp.shouldOutput {
        var _ := mp.UpdateSecurityStatus(id, time, Online);
        return;
      }
      if |entries| == 0 {
        return;
      }
      if entries[0].kind == Trade {
        return;
      }
      WriteSnapshot(id, time, entries);
      var _ := mp.UpdateSecurityStatus(id, time, Online);
    }

    // --- incremental refreshes --------------------------------------------

    method WriteUpdates(id: int, time: int, entries: seq<MdEntry>)
      requires mp.shouldOutput
      modifies mp
      ensures mp.State() == EmitAll(old(mp.State()), UpdatesOf(id, time, entries))
    {
      var i := 0;
      ghost var before := mp.State();
      EmitNothing(before);
      while i < |entries|
        invariant i <= |entries|
        invariant mp.State() == EmitAll(before, UpdatesUpTo(id, time, entries, i))
      {
        EmitSplit(before, UpdatesUpTo(id, time, entries, i), UpdateOf(id, time, entries[i]));
        ProcessMDEntry(id, time, entries[i]);
        i := i + 1;
      }
    }

    method OnIncremental(symbol: string, time: int, entries: seq<MdEntry>)
      modifies mp
      ensures State() == DeribitModel.OnIncremental(old(State()), symbol, time, entries)
    {
      if !mp.shouldOutput {
        return;
      }
      if symbol !in mp.symbolToSecurityId {
        return;
      }
      var id := mp.GetSecurityId(symbol);
      if StatusOf(mp.State(), id) != Online {
        return;
      }
      WriteUpdates(id, time, entries);
    }

    // --- reference data ---------------------------------------------------

    method DefineOne(symbol: string, time: int)
      requires symbol in mp.symbolToSecurityId || |mp.securities| < MAX_ID
      modifies mp
      ensures mp.State() == Define(old(mp.State()), mp.hash, symbol, time)
    {
      var id := mp.CreateSecurity(symbol);
      if mp.shouldOutput {
        mp.Write(SecurityAdded(id, time, symbol, symbol));
      }
      var _ := mp.UpdateSecurityStatus(id, time, PendingSnapshot);
    }

    method OnSecurityList(reqId: string, time: int, listed: seq<Listed>)
      requires |mp.securities| + |listed| <= MAX_ID
      modifies this, mp
      ensures State() == DeribitModel.OnSecurityList(old(State()), mp.hash, reqId, time, listed)
    {
      DefineListed(reqId in perpOnlyReqIds, time, listed);
      pendingSecurityLists := pendingSecurityLists - {reqId};
      if pendingSecurityLists == {} {
        mp.UpdateConnectionStatus(ConnectionOnline, time);
      }
    }

    method DefineListed(isPerpOnly: bool, time: int, listed: seq<Listed>)
      requires |mp.securities| + |listed| <= MAX_ID
      modifies mp
      ensures mp.State() == DefineAll(old(mp.State()), mp.hash, isPerpOnly, perpCurrencies, time, listed)
    {
      var i := 0;
      while i < |listed|
        invariant i <= |listed| && |mp.securities| + |listed| - i <= MAX_ID
        invariant DefineAll(mp.State(), mp.hash, isPerpOnly, perpCurrencies, time, listed[i..]) ==
                  DefineAll(old(mp.State()), mp.hash, isPerpOnly, perpCurrencies, time, listed)
      {
        var l := listed[i];
        assert listed[i..][0] == l && listed[i..][1..] == listed[i + 1..];
        DefineGrowsByOne(mp.State(), mp.hash, l.symbol, time);
        var skip := false;
        if isPerpOnly {
          if l.settlType != "0" {
            skip := true;
          } else if Underlying(l.symbol) !in perpCurrencies {
            skip := true;
          }
        }
        if l.isSpot && !Contains(l.symbol, "BTC_USDC") {
          skip := true;
        }
        if !isPerpOnly && perpCurrencies != {} && Contains(l.symbol, "_USDC") && l.settlType == "0" {
          skip := true;
        }
        if !skip {
          DefineOne(l.symbol, time);
        }
        i := i + 1;
      }
    }

    method OnListRequest(reqId: string, securityType: Option<string>, hasCurrency: bool)
      modifies this
      ensures State() == DeribitModel.OnListRequest(old(State()), ListRequest(reqId, securityType, hasCurrency))
    {
      pendingSecurityLists := pendingSecurityLists + {reqId};
      if configured != {} && securityType == Some("FUT") && !hasCurrency {
        perpOnlyReqIds := perpOnlyReqIds + {reqId};
        perpCurrencies := configured;
      }
    }

    // --- the session ------------------------------------------------------

    method OnLogout(time: int, order: seq<int>)
      modifies mp
      ensures State() == old(State()).(market := Invalidated(old(mp.State()), time, order))
    {
      mp.InvalidateState(time, order);
    }

    method OnLogon(time: int, order: seq<int>)
      modifies this, mp
      ensures State() == DeribitModel.OnLogon(old(State()), time, order)
    {
      if mp.lastConnectionStatus == ConnectionOnline {
        mp.InvalidateState(time, order);
      }
      pendingSecurityLists := {};
      mp.UpdateConnectionStatus(Starting, time);
    }

    method Handle(e: Event)
      requires e.SecurityList? ==> |mp.securities| + |e.listed| <= MAX_ID
      modifies this, mp
      ensures State() == Step(old(State()), mp.hash, e)
    {
      match e {
        case Snapshot(symbol, time, entries) => OnSnapshot(symbol, time, entries);
        case Incremental(symbol, time, entries) => OnIncremental(symbol, time, entries);
        case ListRequest(reqId, securityType, hasCurrency) => OnListRequest(reqId, securityType, hasCurrency);
        case SecurityList(reqId, time, listed) => OnSecurityList(reqId, time, listed);
        case Logon(time, order) => OnLogon(time, order);
        case Logout(time, order) => OnLogout(time, order);
        case SetOutput(on) => mp.SetShouldOutput(on);
        case Ignored =>
      }
    }
  }

  lemma EmitNothing(m: Market)
    ensures EmitAll(m, []) == m
  {
    assert m.stream + [] == m.stream;
  }

  lemma FirstGrows(levels: seq<Level>, level: Level)
    ensures First(levels + [level]) == First(levels) + (if |levels| < MAX_LEVELS then [level] else [])
    ensures First(levels + []) == First(levels)
  {
    assert levels + [] == levels;
  }

  lemma {:induction false} EarlierHasFewer(entries: seq<MdEntry>, kind: Kind, i: nat, n: nat)
    requires i <= n <= |entries|
    ensures |LevelsUpTo(entries, kind, i)| <= |LevelsUpTo(entries, kind, n)|
  {
    if i < n {
      EarlierHasFewer(entries, kind, i, n - 1);
    }
  }

  // The next level is taken while there is room.
  lemma TakeStep(entries: seq<MdEntry>, kind: Kind, i: nat)
    requires i < |entries|
    ensures var levels := First(LevelsUpTo(entries, kind, i));
            First(LevelsUpTo(entries, kind, i + 1)) ==
            if entries[i].kind == kind && |levels| < Min(|Levels(entries, kind)|, MAX_LEVELS)
            then levels + [LevelOf(entries[i])] else levels
  {
    FirstGrows(LevelsUpTo(entries, kind, i), LevelOf(entries[i]));
    EarlierHasFewer(entries, kind, i + 1, |entries|);
  }

  lemma OverflowStep(m: Market, id: int, time: int, entries: seq<MdEntry>, i: nat)
    requires i < |entries|
    ensures var said := EmitAll(m, OverflowUpTo(id, time, entries, i));
            EmitAll(m, OverflowUpTo(id, time, entries, i + 1)) ==
            if Overflows(entries, i) then Emit(said, UpdateOf(id, time, entries[i])) else said
  {
    EmitSplit(m, OverflowUpTo(id, time, entries, i), UpdateOf(id, time, entries[i]));
    assert OverflowUpTo(id, time, entries, i) + [] == OverflowUpTo(id, time, entries, i);
  }
}
