// Polls that race with the writer.
module SbeRaces {
  // A poll looks at the files ten times: at sizes, to map them, to copy. Between
  // any two looks the writer may take any number of steps.

  import opened Common
  import opened SbeCodec
  import opened SbeQueue

  // What is visible of the two files at one look.
  datatype Sight = Sight(data: bytes, index: seq<nat>)

  function SightOf(w: Writer): Sight
    requires Consistent(w)
  {
    Sight(w.data[..w.visibleData], w.index[..w.visibleIndex])
  }

  // --- a poll, look by look -----------------------------------------------

  const LOOKS := 10

  // Files only grow between looks, and no index runs ahead of its data.
  ghost predicate Growing(ls: seq<Sight>) {
    && |ls| == LOOKS
    && (forall i, j :: 0 <= i <= j < LOOKS ==> |ls[i].data| <= |ls[j].data| && |ls[i].index| <= |ls[j].index|)
    && (forall i :: 0 <= i < LOOKS ==> IndexBehindData(ls[i].data, ls[i].index))
  }

  // The size of the index is one look, mapping it another.
  function RefreshRacing(r: Reader, size: nat, index: seq<nat>): Reader
    requires size <= |index|
  {
    if size < r.indexMapped then r.(indexMapped := 0, committed := 0)
    else
      var r' := if size > r.indexMapped then r.(indexMapped := |index|) else r;
      if r'.indexMapped > 0 then r'.(committed := index[r'.indexMapped - 1]) else r'
  }

  // Looks 1 to 5: the data is mapped, the index sized and mapped, and then
  // refreshed.
  function OpenRacing(r: Reader, ls: seq<Sight>): Reader
    requires Growing(ls)
  {
    var r' := r.(mapped := |ls[1].data|, position := 0, limit := 0);
    if ls[2].index != [] then RefreshRacing(r'.(indexMapped := |ls[3].index|), |ls[4].index|, ls[5].index) else r'
  }

  // Looks 6 to 9: the index is refreshed, and the data mapped anew if the index
  // covers more than is mapped. A restart is taken to be seen at one look.
  function LocatedRacing(r: Reader, ls: seq<Sight>): Reader
    requires Growing(ls)
  {
    var r1 := RefreshRacing(r, |ls[6].index|, ls[7].index);
    var r2 := if r1.committed < r1.position then StartOver(r1, ls[8].data, ls[8].index) else r1;
    if r2.committed > r2.mapped then r2.(mapped := |ls[9].data|) else r2
  }

  lemma RacingReadsStayCommitted(r: Reader, ls: seq<Sight>)
    requires ReaderOk(r) && Growing(ls)
    ensures ReaderOk(LocatedRacing(r, ls)) && LocatedRacing(r, ls).committed <= |ls[9].data|
  {
    assert IndexBehindData(ls[7].data, ls[7].index) && IndexBehindData(ls[8].data, ls[8].index);
  }

  function FillRacing(r: Reader, ls: seq<Sight>): (Reader, bool)
    requires ReaderOk(r) && Growing(ls)
  {
    var l := LocatedRacing(r, ls);
    RacingReadsStayCommitted(r, ls);
    if l.position >= l.committed then (l, false) else (Filled(l, ls[9].data, l.committed), true)
  }

  lemma RacingStaysOk(r: Reader, ls: seq<Sight>)
    requires ReaderOk(r) && Growing(ls)
    ensures ReaderOk(OpenRacing(r, ls)) && ReaderOk(FillRacing(r, ls).0)
  {
    RacingReadsStayCommitted(r, ls);
  }

  function NextRacing(r: Reader, ls: seq<Sight>): (Reader, bool)
    requires ReaderOk(r) && Growing(ls)
  {
    if !r.valid && ls[0].data == [] then (r, false)
    else
      RacingStaysOk(r, ls);
      var r1 := if r.valid then r else OpenRacing(r, ls).(valid := true);
      RacingStaysOk(r1, ls);
      var (r2, filled) := FillRacing(r1, ls);
      if filled then Advance(r2) else (r2, false)
  }

  // All looks see the same.
  ghost predicate Quiet(ls: seq<Sight>, l: Sight) {
    |ls| == LOOKS && forall i :: 0 <= i < LOOKS ==> ls[i] == l
  }

  lemma QuietOpen(r: Reader, ls: seq<Sight>, l: Sight)
    requires Quiet(ls, l) && IndexBehindData(l.data, l.index)
    ensures Growing(ls) && OpenRacing(r, ls) == Initialize(r, l.data, l.index)
  {
  }

  lemma QuietFill(r: Reader, ls: seq<Sight>, l: Sight)
    requires ReaderOk(r) && Quiet(ls, l) && IndexBehindData(l.data, l.index)
    ensures Growing(ls) && FillRacing(r, ls) == FillBuffer(r, l.data, l.index)
  {
    RacingReadsStayCommitted(r, ls);
    assert LocatedRacing(r, ls) == Located(r, l.data, l.index);
  }

  // A poll with which nothing races is the poll of SbeQueue.
  lemma QuietRaceIsPoll(r: Reader, ls: seq<Sight>, l: Sight)
    requires ReaderOk(r) && Quiet(ls, l) && IndexBehindData(l.data, l.index)
    ensures Growing(ls) && NextRacing(r, ls) == Next(r, l.data, l.index)
  {
    QuietOpen(r, ls, l);
    var r1 := if r.valid then r else Initialize(r, l.data, l.index).(valid := true);
    QuietFill(r1, ls, l);
  }

  // --- what is seen -------------------------------------------------------

  // The sight shows a part of the messages `ms`.
  ghost predicate TrueSight(l: Sight, ms: seq<Message>) {
    && |l.index| <= |ms| && (forall j :: 0 <= j < |l.index| ==> l.index[j] == Start(ms, j + 1))
    && l.data <= EncodeAll(ms) && Start(ms, |l.index|) <= |l.data|
  }

  // The reader has delivered the first messages, stands right after them, and
  // knows of no more than is seen.
  ghost predicate ReaderAt(r: Reader, l: Sight, ms: seq<Message>) {
    && ReaderOk(r)
    && |r.delivered| <= |ms| && r.delivered == ms[..|r.delivered|]
    && |r.delivered| <= r.indexMapped <= |l.index| <= |ms|
    && r.position == Start(ms, |r.delivered|) && r.committed == Start(ms, r.indexMapped)
    && r.mapped <= |l.data| && r.failedPolls == 0
    && (!r.valid ==> r.position == 0 && r.indexMapped == 0)
  }

  lemma RefreshedAt(r: Reader, l: Sight, size: nat, l': Sight, ms: seq<Message>)
    requires ReaderAt(r, l, ms) && r.valid && TrueSight(l', ms)
    requires |l.index| <= size <= |l'.index| && |l.data| <= |l'.data|
    ensures var r' := RefreshRacing(r, size, l'.index);
            && r' == r.(indexMapped := r'.indexMapped, committed := r'.committed)
            && size <= r'.indexMapped && ReaderAt(r', l', ms)
  {
  }

  lemma OpenedAt(r: Reader, ls: seq<Sight>, ms: seq<Message>)
    requires Growing(ls) && (forall i :: 0 <= i < LOOKS ==> TrueSight(ls[i], ms))
    requires ReaderAt(r, ls[0], ms) && !r.valid
    ensures ReaderAt(OpenRacing(r, ls).(valid := true), ls[5], ms) && OpenRacing(r, ls).delivered == r.delivered
  {
    StartMonotone(ms, 0, |r.delivered|);
    var r' := r.(mapped := |ls[1].data|, position := 0, limit := 0);
    if ls[2].index != [] {
      var r1 := r'.(indexMapped := |ls[3].index|);
      assert ReaderAt(r1.(committed := Start(ms, r1.indexMapped), valid := true), ls[3], ms);
      RefreshedAt(r1.(committed := Start(ms, r1.indexMapped), valid := true), ls[3], |ls[4].index|, ls[5], ms);
    }
  }

  lemma LocatedAt(r: Reader, ls: seq<Sight>, ms: seq<Message>)
    requires Growing(ls) && (forall i :: 0 <= i < LOOKS ==> TrueSight(ls[i], ms))
    requires ReaderAt(r, ls[5], ms) && r.valid
    ensures var l := LocatedRacing(r, ls);
            && ReaderAt(l, ls[9], ms) && l.delivered == r.delivered && l.valid == r.valid
            && |ls[6].index| <= l.indexMapped <= |ls[7].index| && l.committed <= |ls[9].data|
  {
    RefreshedAt(r, ls[5], |ls[6].index|, ls[7], ms);
    var r1 := RefreshRacing(r, |ls[6].index|, ls[7].index);
    StartMonotone(ms, |r.delivered|, r1.indexMapped);
    StartMonotone(ms, r1.indexMapped, |ls[7].index|);
  }

  lemma DataHolds(l: Sight, ms: seq<Message>, k: nat, end: nat)
    requires TrueSight(l, ms) && k < |ms| && Start(ms, k + 1) <= end <= |l.data|
    ensures Start(ms, k + 1) == Start(ms, k) + |Encode(ms[k])|
    ensures l.data[Start(ms, k)..Start(ms, k + 1)] == Encode(ms[k])
  {
    EncodeAllStep(ms, k);
    EncodeAllAt(ms, k);
  }

  lemma FilledParses(l: Reader, s: Sight, ms: seq<Message>)
    requires TrueSight(s, ms) && ReaderAt(l, s, ms) && (forall m :: m in ms ==> WellFormed(m) && Accepted(m))
    requires |l.delivered| < l.indexMapped && l.committed <= |s.data|
    ensures l.position < l.committed
    ensures var f := Filled(l, s.data, l.committed);
            && |f.buffer| == BUFFER_SIZE && f.limit <= BUFFER_SIZE
            && Parse(f.buffer, f.limit) == Delivered(ms[|l.delivered|], |Encode(ms[|l.delivered|])|)
  {
    NextIsCovered(l, s, ms);
    assert ms[|l.delivered|] in ms;
    ParsesCopied(l, s.data, l.committed, ms[|l.delivered|]);
  }

  lemma NextIsCovered(l: Reader, s: Sight, ms: seq<Message>)
    requires TrueSight(s, ms) && ReaderAt(l, s, ms) && |l.delivered| < l.indexMapped && l.committed <= |s.data|
    ensures var m := ms[|l.delivered|];
            && l.position < l.position + |Encode(m)| <= l.committed
            && s.data[l.position..l.position + |Encode(m)|] == Encode(m)
  {
    var k := |l.delivered|;
    StartMonotone(ms, k + 1, l.indexMapped);
    DataHolds(s, ms, k, l.committed);
    assert |Encode(ms[k])| > 0 by {
      EncodeAllStep(ms, k);
    }
  }

  lemma AdvancedAt(f: Reader, l: Sight, ms: seq<Message>)
    requires ReaderAt(f, l, ms) && |f.delivered| < f.indexMapped
    requires Parse(f.buffer, f.limit) == Delivered(ms[|f.delivered|], |Encode(ms[|f.delivered|])|)
    ensures Advance(f).1 && ReaderAt(Advance(f).0, l, ms)
    ensures Advance(f).0.delivered == f.delivered + [ms[|f.delivered|]]
  {
    var k := |f.delivered|;
    assert ms[..k + 1] == ms[..k] + [ms[k]];
    EncodeAllStep(ms, k);
  }

  // What a racing poll does: it delivers the next message if the index covered
  // it when the poll began, and only if it did so by the time it was mapped.
  ghost predicate RaceOutcome(r: Reader, ls: seq<Sight>, ms: seq<Message>, r': Reader, ok: bool) {
    && Growing(ls) && ReaderAt(r', ls[9], ms) && |r.delivered| <= |ms|
    && (|r.delivered| < |ls[0].index| ==> ok) && (ok ==> |r.delivered| < |ls[7].index| <= |ms|)
    && r'.delivered == r.delivered + (if ok && |r.delivered| < |ms| then [ms[|r.delivered|]] else [])
  }

  lemma NothingNew(r: Reader, ls: seq<Sight>, ms: seq<Message>)
    requires Growing(ls) && (forall i :: 0 <= i < LOOKS ==> TrueSight(ls[i], ms))
    requires ReaderAt(r, ls[5], ms) && r.valid && |r.delivered| == LocatedRacing(r, ls).indexMapped
    ensures NextRacing(r, ls) == (LocatedRacing(r, ls), false)
  {
    LocatedAt(r, ls, ms);
    FillsNothing(r, ls);
  }

  lemma FillsNothing(r: Reader, ls: seq<Sight>)
    requires ReaderOk(r) && r.valid && Growing(ls)
    requires LocatedRacing(r, ls).position >= LocatedRacing(r, ls).committed
    ensures NextRacing(r, ls) == (LocatedRacing(r, ls), false)
  {
  }

  lemma FillsSome(r: Reader, ls: seq<Sight>)
    requires ReaderOk(r) && r.valid && Growing(ls)
    requires LocatedRacing(r, ls).position < LocatedRacing(r, ls).committed <= |ls[9].data|
    requires |LocatedRacing(r, ls).buffer| == BUFFER_SIZE
    ensures var f := Filled(LocatedRacing(r, ls), ls[9].data, LocatedRacing(r, ls).committed);
            ReaderOk(f) && NextRacing(r, ls) == Advance(f)
  {
    RacingStaysOk(r, ls);
  }

  lemma SomethingNew(r: Reader, ls: seq<Sight>, ms: seq<Message>)
    requires Growing(ls) && (forall i :: 0 <= i < LOOKS ==> TrueSight(ls[i], ms))
    requires ReaderAt(r, ls[5], ms) && r.valid && |r.delivered| < LocatedRacing(r, ls).indexMapped
    requires forall m :: m in ms ==> WellFormed(m) && Accepted(m)
    ensures NextRacing(r, ls).1 && ReaderAt(NextRacing(r, ls).0, ls[9], ms) && |r.delivered| < |ms|
    ensures NextRacing(r, ls).0.delivered == r.delivered + [ms[|r.delivered|]]
  {
    var l := LocatedRacing(r, ls);
    LocatedAt(r, ls, ms);
    FilledParses(l, ls[9], ms);
    FillsSome(r, ls);
    AdvancedAt(Filled(l, ls[9].data, l.committed), ls[9], ms);
  }

  lemma ValidRace(r: Reader, ls: seq<Sight>, ms: seq<Message>)
    requires Growing(ls) && (forall i :: 0 <= i < LOOKS ==> TrueSight(ls[i], ms))
    requires ReaderAt(r, ls[5], ms) && r.valid && (forall m :: m in ms ==> WellFormed(m) && Accepted(m))
    ensures var (r', ok) := NextRacing(r, ls); RaceOutcome(r, ls, ms, r', ok)
  {
    LocatedAt(r, ls, ms);
    if |r.delivered| < LocatedRacing(r, ls).indexMapped {
      SomethingNew(r, ls, ms);
    } else {
      NothingNew(r, ls, ms);
    }
  }

  lemma RacingPollDelivers(r: Reader, ls: seq<Sight>, ms: seq<Message>)
    requires Growing(ls) && (forall i :: 0 <= i < LOOKS ==> TrueSight(ls[i], ms))
    requires ReaderAt(r, ls[0], ms) && (forall m :: m in ms ==> WellFormed(m) && Accepted(m))
    ensures var (r', ok) := NextRacing(r, ls); RaceOutcome(r, ls, ms, r', ok)
  {
    if r.valid {
      ValidRace(r, ls, ms);
    } else if ls[0].data == [] {
      StartMonotone(ms, 0, |ls[0].index|);
    } else {
      OpenedAt(r, ls, ms);
      OpensFirst(r, ls);
      ValidRace(OpenRacing(r, ls).(valid := true), ls, ms);
    }
  }

  lemma OpensFirst(r: Reader, ls: seq<Sight>)
    requires ReaderOk(r) && Growing(ls) && !r.valid && ls[0].data != []
    ensures ReaderOk(OpenRacing(r, ls).(valid := true))
    ensures NextRacing(r, ls) == NextRacing(OpenRacing(r, ls).(valid := true), ls)
  {
    RacingStaysOk(r, ls);
  }

  // --- the writer between the looks ---------------------------------------

  predicate IsWriterStep(a: Action) {
    !a.Poll?
  }

  ghost predicate WriterOnly(actions: seq<Action>) {
    WellFormedActions(actions) && forall a :: a in actions ==> IsWriterStep(a)
  }

  // Nothing that was visible is gone.
  ghost predicate Before(s: System, s': System) {
    && s'.reader == s.reader && s.accepted <= s'.accepted
    && s.writer.visibleData <= s'.writer.visibleData && s.writer.visibleIndex <= s'.writer.visibleIndex
  }

  ghost predicate GapsOk(gaps: seq<seq<Action>>) {
    forall g :: g in gaps ==> WriterOnly(g)
  }

  lemma ActBefore(s: System, a: Action)
    requires ReaderOk(s.reader) && Consistent(s.writer) && IsWriterStep(a)
    ensures Before(s, Act(s, a))
  {
  }

  lemma WriterStepBefore(s: System, a: Action)
    requires Inv(s) && IsWriterStep(a) && (a.WriteData? ==> WellFormed(a.m))
    ensures Consistent(s.writer) && Before(s, Act(s, a))
  {
    InvConsistent(s.writer, s.accepted);
    ActBefore(s, a);
  }

  lemma BeforeTrans(s: System, s1: System, s2: System)
    requires Before(s, s1) && Before(s1, s2)
    ensures Before(s, s2)
  {
  }

  lemma {:induction false} WriterRunBefore(s: System, actions: seq<Action>)
    requires Inv(s) && WriterOnly(actions)
    ensures Before(s, RunActions(s, actions))
    decreases |actions|
  {
    if actions != [] {
      var a := actions[0];
      assert a in actions;
      ActInv(s, a);
      WriterStepBefore(s, a);
      WriterRunBefore(Act(s, a), actions[1..]);
      BeforeTrans(s, Act(s, a), RunActions(Act(s, a), actions[1..]));
    }
  }

  // The systems at the looks, the given writer steps taken between them.
  ghost function States(s: System, gaps: seq<seq<Action>>): (ss: seq<System>)
    requires Inv(s) && GapsOk(gaps)
    ensures |ss| == |gaps| + 1 && ss[0] == s
    decreases |gaps|
  {
    if gaps == [] then [s]
    else
      assert gaps[0] in gaps;
      [s] + States(RunActions(s, gaps[0]), gaps[1..])
  }

  // Every one of them is a state of the queue, and each sees what those before
  // it saw.
  ghost predicate Chain(ss: seq<System>) {
    && (forall i :: 0 <= i < |ss| ==> Inv(ss[i]))
    && (forall i, j :: 0 <= i <= j < |ss| ==> Before(ss[i], ss[j]))
  }

  lemma ChainOnTop(s: System, ss: seq<System>)
    requires Inv(s) && Chain(ss) && ss != [] && Before(s, ss[0])
    ensures Chain([s] + ss)
  {
    var all := [s] + ss;
    forall i, j | 0 <= i <= j < |all| ensures Before(all[i], all[j]) {
      if i == 0 && j > 0 {
        BeforeTrans(s, ss[0], ss[j - 1]);
      }
    }
  }

  lemma {:induction false} StatesChain(s: System, gaps: seq<seq<Action>>)
    requires Inv(s) && GapsOk(gaps)
    ensures Chain(States(s, gaps))
    decreases |gaps|
  {
    if gaps != [] {
      assert gaps[0] in gaps;
      var s1 := RunActions(s, gaps[0]);
      WriterRunBefore(s, gaps[0]);
      StatesChain(s1, gaps[1..]);
      ChainOnTop(s, States(s1, gaps[1..]));
    }
  }

  ghost function Sights(ss: seq<System>): seq<Sight>
    requires forall i :: 0 <= i < |ss| ==> Consistent(ss[i].writer)
  {
    seq(|ss|, i requires 0 <= i < |ss| => SightOf(ss[i].writer))
  }

  lemma EncodedPrefix(ms: seq<Message>, final: seq<Message>, k: nat)
    requires ms <= final && k <= |ms|
    ensures Start(final, k) == Start(ms, k) && EncodeAll(ms) <= EncodeAll(final)
  {
    assert final[..|ms|] == ms && final[..k] == ms[..k];
    EncodeAllPrefix(final, |ms|);
    assert ms[..|ms|] == ms;
  }

  lemma SightIsTrue(w: Writer, ms: seq<Message>, final: seq<Message>)
    requires WriterInv(w, ms) && ms <= final
    ensures Consistent(w) && TrueSight(SightOf(w), final)
  {
    InvConsistent(w, ms);
    SightIsTrueNow(w, ms);
    TrueLater(SightOf(w), ms, final);
  }

  lemma SightIsTrueNow(w: Writer, ms: seq<Message>)
    requires WriterInv(w, ms) && Consistent(w)
    ensures TrueSight(SightOf(w), ms)
  {
    assert |w.index| <= |ms|;
  }

  lemma TrueLater(l: Sight, ms: seq<Message>, final: seq<Message>)
    requires TrueSight(l, ms) && ms <= final
    ensures TrueSight(l, final)
  {
    EncodedPrefix(ms, final, |l.index|);
    forall j | 0 <= j < |l.index| ensures l.index[j] == Start(final, j + 1) {
      EncodedPrefix(ms, final, j + 1);
    }
  }

  lemma ReaderInvAt(r: Reader, w: Writer, ms: seq<Message>, final: seq<Message>)
    requires ReaderInv(r, w, ms) && WriterInv(w, ms) && Consistent(w) && ms <= final
    ensures ReaderAt(r, SightOf(w), final)
  {
    EncodedPrefix(ms, final, |r.delivered|);
    EncodedPrefix(ms, final, r.indexMapped);
    assert final[..|r.delivered|] == ms[..|r.delivered|];
  }

  lemma ChainConsistent(ss: seq<System>)
    requires Chain(ss)
    ensures forall i :: 0 <= i < |ss| ==> Consistent(ss[i].writer)
  {
    forall i | 0 <= i < |ss| ensures Consistent(ss[i].writer) {
      InvConsistent(ss[i].writer, ss[i].accepted);
    }
  }

  lemma ChainGrows(ss: seq<System>)
    requires Chain(ss) && |ss| == LOOKS && (forall i :: 0 <= i < |ss| ==> Consistent(ss[i].writer))
    ensures Growing(Sights(ss))
  {
  }

  lemma ChainIsTrue(ss: seq<System>, i: nat)
    requires Chain(ss) && i < |ss| && (forall k :: 0 <= k < |ss| ==> Consistent(ss[k].writer))
    ensures TrueSight(Sights(ss)[i], ss[|ss| - 1].accepted)
  {
    assert Before(ss[i], ss[|ss| - 1]);
    SightIsTrue(ss[i].writer, ss[i].accepted, ss[|ss| - 1].accepted);
  }

  // --- every interleaving -------------------------------------------------

  // A step as before, or a poll with writer steps in each of its nine gaps.
  datatype RaceEvent = Step(a: Action) | RacingPoll(gaps: seq<seq<Action>>)

  ghost predicate Allowed(e: RaceEvent) {
    match e
    case Step(a) => a.WriteData? ==> WellFormed(a.m)
    case RacingPoll(gaps) => |gaps| == LOOKS - 1 && GapsOk(gaps)
  }

  // A poll over the looks at the given states.
  ghost function PolledOver(r: Reader, ss: seq<System>): System
    requires Chain(ss) && |ss| == LOOKS && ReaderOk(r)
  {
    ChainConsistent(ss);
    ChainGrows(ss);
    ss[9].(reader := NextRacing(r, Sights(ss)).0)
  }

  // The poll delivers at most the next message, and does deliver it if the
  // index covered it when the poll began.
  ghost predicate TakesAtMostNext(s: System, s': System) {
    && s.accepted <= s'.accepted
    && (|| s'.reader.delivered == s.reader.delivered
        || (&& |s.reader.delivered| < |s'.accepted|
            && s'.reader.delivered == s.reader.delivered + [s'.accepted[|s.reader.delivered|]]))
    && (|s.reader.delivered| < s.writer.visibleIndex ==> s'.reader.delivered != s.reader.delivered)
  }

  lemma SightsReady(ss: seq<System>)
    requires Chain(ss) && |ss| == LOOKS
    ensures forall i :: 0 <= i < |ss| ==> Consistent(ss[i].writer)
    ensures Growing(Sights(ss)) && forall i :: 0 <= i < LOOKS ==> TrueSight(Sights(ss)[i], ss[9].accepted)
  {
    ChainConsistent(ss);
    ChainGrows(ss);
    forall i | 0 <= i < LOOKS ensures TrueSight(Sights(ss)[i], ss[9].accepted) {
      ChainIsTrue(ss, i);
    }
  }

  lemma PolledOverInv(ss: seq<System>)
    requires Chain(ss) && |ss| == LOOKS
    ensures ReaderOk(ss[0].reader)
    ensures Inv(PolledOver(ss[0].reader, ss)) && TakesAtMostNext(ss[0], PolledOver(ss[0].reader, ss))
  {
    var s, last := ss[0], ss[9];
    SightsReady(ss);
    assert Before(s, last);
    ReaderInvAt(s.reader, s.writer, s.accepted, last.accepted);
    RacingPollDelivers(s.reader, Sights(ss), last.accepted);
    AtIsReaderInv(NextRacing(s.reader, Sights(ss)).0, last.writer, last.accepted);
  }

  lemma AtIsReaderInv(r: Reader, w: Writer, ms: seq<Message>)
    requires WriterInv(w, ms) && Consistent(w) && ReaderAt(r, SightOf(w), ms)
    ensures ReaderInv(r, w, ms)
  {
  }

  ghost function Raced(s: System, gaps: seq<seq<Action>>): System
    requires Inv(s) && Allowed(RacingPoll(gaps))
  {
    StatesChain(s, gaps);
    PolledOver(s.reader, States(s, gaps))
  }

  lemma RacedInv(s: System, gaps: seq<seq<Action>>)
    requires Inv(s) && Allowed(RacingPoll(gaps))
    ensures Inv(Raced(s, gaps)) && TakesAtMostNext(s, Raced(s, gaps))
  {
    StatesChain(s, gaps);
    PolledOverInv(States(s, gaps));
  }

  ghost function EventStep(s: System, e: RaceEvent): System
    requires Inv(s) && Allowed(e)
  {
    match e
    case Step(a) => ActInv(s, a); Act(s, a)
    case RacingPoll(gaps) => Raced(s, gaps)
  }

  ghost function RunRaces(s: System, es: seq<RaceEvent>): (s': System)
    requires Inv(s) && forall e :: e in es ==> Allowed(e)
    ensures Inv(s')
    decreases |es|
  {
    if es == [] then s
    else
      assert es[0] in es;
      EventStepInv(s, es[0]);
      RunRaces(EventStep(s, es[0]), es[1..])
  }

  lemma EventStepInv(s: System, e: RaceEvent)
    requires Inv(s) && Allowed(e)
    ensures Inv(EventStep(s, e))
  {
    match e
    case Step(a) => ActInv(s, a);
    case RacingPoll(gaps) => RacedInv(s, gaps);
  }

  // Even when the writer steps in between the looks of a poll, the messages
  // delivered are a prefix of those accepted, and no poll fails on a message.
  lemma RacesDeliverPrefix(es: seq<RaceEvent>)
    requires forall e :: e in es ==> Allowed(e)
    ensures Inv(START)
    ensures var s := RunRaces(START, es); s.reader.delivered <= s.accepted && s.reader.failedPolls == 0
  {
    StartInv();
  }
}
