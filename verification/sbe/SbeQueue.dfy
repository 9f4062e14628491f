// The file queue between one writer and one polling reader.
module SbeQueue {
  // The writer appends a message's bytes, then the end offset to an index, then
  // makes the bytes visible, then the index entry. The reader trusts only what
  // the index covers.

  import opened Common
  import opened SbeCodec

  // --- the reader ---------------------------------------------------------

  // `mapped` and `indexMapped` are the lengths of the two file mappings,
  // `limit` how many bytes of the buffer the last fill put there.
  datatype Reader = Reader(
    valid: bool, position: nat, mapped: nat, indexMapped: nat, committed: nat,
    buffer: bytes, limit: nat, lastStuckAt: nat, failedPolls: nat, delivered: seq<Message>)

  predicate ReaderOk(r: Reader) {
    |r.buffer| == BUFFER_SIZE && r.limit <= BUFFER_SIZE && (r.indexMapped == 0 ==> r.committed == 0)
  }

  // The visible index never runs ahead of the visible data.
  ghost predicate IndexBehindData(data: bytes, index: seq<nat>) {
    forall i :: 0 <= i < |index| ==> index[i] <= |data|
  }

  function Refresh(r: Reader, index: seq<nat>): Reader {
    if |index| < r.indexMapped then r.(indexMapped := 0, committed := 0)
    else if index == [] then r
    else r.(indexMapped := |index|, committed := index[|index| - 1])
  }

  function Initialize(r: Reader, data: bytes, index: seq<nat>): Reader {
    var r' := r.(mapped := |data|, position := 0, limit := 0);
    if index != [] then Refresh(r'.(indexMapped := |index|), index) else r'
  }

  // The index ends before the reader's position: the producer started over.
  function StartOver(r: Reader, data: bytes, index: seq<nat>): Reader {
    var r' := r.(mapped := 0, position := 0, limit := 0);
    if data != [] then Initialize(r', data, index) else r'
  }

  // The state before bytes are copied: what is committed, mapped, and where to
  // read from.
  function Located(r: Reader, data: bytes, index: seq<nat>): Reader {
    var r1 := Refresh(r, index);
    var r2 := if r1.committed < r1.position then StartOver(r1, data, index) else r1;
    if r2.committed > r2.mapped then r2.(mapped := |data|) else r2
  }

  function ReadLength(r: Reader): nat
    requires r.position <= r.committed
  {
    Min(r.committed - r.position, BUFFER_SIZE)
  }

  // The bytes copied are committed, mapped and in the file.
  lemma ReadsStayCommitted(r: Reader, data: bytes, index: seq<nat>)
    requires ReaderOk(r) && IndexBehindData(data, index)
    requires Located(r, data, index).position < Located(r, data, index).committed
    ensures var l := Located(r, data, index); var end := l.position + ReadLength(l);
            end <= l.committed && end <= l.mapped && end <= |data|
  {
  }

  function FillBuffer(r: Reader, data: bytes, index: seq<nat>): (Reader, bool)
    requires ReaderOk(r) && IndexBehindData(data, index)
  {
    var l := Located(r, data, index);
    if l.position >= l.committed then (l, false)
    else
      assert l.position + ReadLength(l) <= |data| by { ReadsStayCommitted(r, data, index); }
      var n := ReadLength(l);
      (l.(buffer := data[l.position..l.position + n] + l.buffer[n..], limit := n), true)
  }

  function Stuck(r: Reader): Reader {
    if r.position != r.lastStuckAt then r.(lastStuckAt := r.position, failedPolls := 1)
    else r.(failedPolls := r.failedPolls + 1)
  }

  function Advance(r: Reader): (Reader, bool)
    requires ReaderOk(r)
  {
    match Parse(r.buffer, r.limit)
    case Incomplete => (r, false)
    case TooSmall => (Stuck(r), false)
    case Skipped(n) => (r.(position := r.position + n), true)
    case Delivered(m, n) => (r.(position := r.position + n, delivered := r.delivered + [m]), true)
  }

  function Next(r: Reader, data: bytes, index: seq<nat>): (Reader, bool)
    requires ReaderOk(r) && IndexBehindData(data, index)
  {
    if !r.valid && data == [] then (r, false)
    else
      var r1 := if r.valid then r else Initialize(r, data, index).(valid := true);
      var (r2, filled) := FillBuffer(r1, data, index);
      if filled then Advance(r2) else (r2, false)
  }

  // --- the whole system ---------------------------------------------------

  datatype Phase = Idle | DataWritten | IndexWritten | DataFlushed

  // What the writer has handed to its two streams, and how much of it has
  // become visible in the files.
  datatype Writer = Writer(data: bytes, index: seq<nat>, visibleData: nat, visibleIndex: nat, phase: Phase)

  datatype System = System(writer: Writer, accepted: seq<Message>, reader: Reader)

  // The four steps of writing one message, a data stream spilling early (in
  // any amount, at any time), and a poll.
  datatype Action = WriteData(m: Message) | WriteIndex | FlushData | FlushIndex | Spill(n: nat) | Poll

  ghost predicate Consistent(w: Writer) {
    w.visibleData <= |w.data| && w.visibleIndex <= |w.index|
    && IndexBehindData(w.data[..w.visibleData], w.index[..w.visibleIndex])
  }

  function AddData(w: Writer, m: Message): Writer {
    if w.phase == Idle && Accepted(m) then w.(data := w.data + Encode(m), phase := DataWritten) else w
  }

  function AddIndex(w: Writer): Writer {
    if w.phase == DataWritten then w.(index := w.index + [|w.data|], phase := IndexWritten) else w
  }

  function ShowData(w: Writer): Writer {
    if w.phase == IndexWritten then w.(visibleData := |w.data|, phase := DataFlushed) else w
  }

  function ShowIndex(w: Writer): Writer {
    if w.phase == DataFlushed then w.(visibleIndex := |w.index|, phase := Idle) else w
  }

  function SpillData(w: Writer, n: nat): Writer {
    if w.visibleData <= n <= |w.data| then w.(visibleData := n) else w
  }

  function PollFile(r: Reader, w: Writer): (Reader, bool)
    requires ReaderOk(r) && Consistent(w)
  {
    Next(r, w.data[..w.visibleData], w.index[..w.visibleIndex])
  }

  function Act(s: System, a: Action): System
    requires ReaderOk(s.reader) && Consistent(s.writer)
  {
    match a
    case WriteData(m) =>
      s.(writer := AddData(s.writer, m),
         accepted := if s.writer.phase == Idle && Accepted(m) then s.accepted + [m] else s.accepted)
    case WriteIndex => s.(writer := AddIndex(s.writer))
    case FlushData => s.(writer := ShowData(s.writer))
    case FlushIndex => s.(writer := ShowIndex(s.writer))
    case Spill(n) => s.(writer := SpillData(s.writer, n))
    case Poll => s.(reader := PollFile(s.reader, s.writer).0)
  }

  // --- what has been written, message by message --------------------------

  function EncodeAll(ms: seq<Message>): bytes {
    if ms == [] then [] else EncodeAll(ms[..|ms| - 1]) + Encode(ms[|ms| - 1])
  }

  // Where the k-th message starts.
  function Start(ms: seq<Message>, k: nat): nat
    requires k <= |ms|
  {
    |EncodeAll(ms[..k])|
  }

  lemma EncodeAllStep(ms: seq<Message>, k: nat)
    requires k < |ms|
    ensures EncodeAll(ms[..k + 1]) == EncodeAll(ms[..k]) + Encode(ms[k])
    ensures Start(ms, k + 1) == Start(ms, k) + |Encode(ms[k])| && |Encode(ms[k])| >= HEADER_LENGTH
  {
    assert ms[..k + 1][..k] == ms[..k];
  }

  lemma {:induction false} EncodeAllPrefix(ms: seq<Message>, k: nat)
    requires k <= |ms|
    ensures Start(ms, k) <= |EncodeAll(ms)| && EncodeAll(ms)[..Start(ms, k)] == EncodeAll(ms[..k])
    decreases |ms| - k
  {
    if k == |ms| {
      assert ms[..k] == ms;
    } else {
      EncodeAllStep(ms, k);
      EncodeAllPrefix(ms, k + 1);
      assert EncodeAll(ms)[..Start(ms, k)] == EncodeAll(ms)[..Start(ms, k + 1)][..Start(ms, k)];
    }
  }

  lemma EncodeAllAt(ms: seq<Message>, k: nat)
    requires k < |ms|
    ensures Start(ms, k) <= Start(ms, k + 1) <= |EncodeAll(ms)|
    ensures EncodeAll(ms)[Start(ms, k)..Start(ms, k + 1)] == Encode(ms[k])
  {
    EncodeAllPrefix(ms, k + 1);
    EncodeAllStep(ms, k);
    assert EncodeAll(ms)[Start(ms, k)..Start(ms, k + 1)] == EncodeAll(ms)[..Start(ms, k + 1)][Start(ms, k)..];
  }

  lemma {:induction false} StartMonotone(ms: seq<Message>, j: nat, k: nat)
    requires j <= k <= |ms|
    ensures Start(ms, j) + HEADER_LENGTH * (k - j) <= Start(ms, k)
    decreases k - j
  {
    if j < k {
      EncodeAllStep(ms, j);
      StartMonotone(ms, j + 1, k);
    }
  }

  lemma StartAppend(ms: seq<Message>, m: Message, k: nat)
    requires k <= |ms|
    ensures Start(ms + [m], k) == Start(ms, k)
  {
    assert (ms + [m])[..k] == ms[..k];
  }

  // --- the invariant ------------------------------------------------------

  // The data is the accepted messages end to end; the index holds their end
  // offsets; each is visible as far as the phase says.
  ghost predicate WriterInv(w: Writer, ms: seq<Message>) {
    && w.data == EncodeAll(ms)
    && (forall m :: m in ms ==> WellFormed(m) && Accepted(m))
    && |w.index| == |ms| - (if w.phase == DataWritten then 1 else 0)
    && (forall i :: 0 <= i < |w.index| ==> w.index[i] == Start(ms, i + 1))
    && w.visibleIndex == |w.index| - (if w.phase == IndexWritten || w.phase == DataFlushed then 1 else 0)
    && Start(ms, w.visibleIndex) <= w.visibleData <= |w.data|
    && (w.phase == Idle || w.phase == DataFlushed ==> w.visibleData == |w.data|)
  }

  // The reader has delivered the first k messages, stands right after them,
  // and knows of j visible index entries.
  ghost predicate ReaderInv(r: Reader, w: Writer, ms: seq<Message>) {
    && ReaderOk(r)
    && |r.delivered| <= |ms| && r.delivered == ms[..|r.delivered|]
    && |r.delivered| <= r.indexMapped <= w.visibleIndex <= |ms|
    && r.position == Start(ms, |r.delivered|)
    && r.committed == Start(ms, r.indexMapped)
    && r.mapped <= w.visibleData && r.failedPolls == 0
    && (!r.valid ==> r.position == 0 && r.indexMapped == 0)
  }

  ghost predicate Inv(s: System) {
    WriterInv(s.writer, s.accepted) && ReaderInv(s.reader, s.writer, s.accepted)
  }

  lemma InvConsistent(w: Writer, ms: seq<Message>)
    requires WriterInv(w, ms)
    ensures Consistent(w)
  {
    forall i | 0 <= i < w.visibleIndex ensures w.index[..w.visibleIndex][i] <= |w.data[..w.visibleData]| {
      StartMonotone(ms, i + 1, w.visibleIndex);
    }
  }

  // --- the writer's steps -------------------------------------------------

  lemma AddDataInv(w: Writer, ms: seq<Message>, m: Message)
    requires WriterInv(w, ms) && w.phase == Idle && WellFormed(m) && Accepted(m)
    ensures WriterInv(AddData(w, m), ms + [m])
    ensures forall k: nat :: k <= |ms| ==> Start(ms + [m], k) == Start(ms, k)
  {
    var ms' := ms + [m];
    assert ms'[..|ms'| - 1] == ms;
    forall k: nat | k <= |ms| ensures Start(ms', k) == Start(ms, k) {
      StartAppend(ms, m, k);
    }
  }

  lemma WriteDataInv(s: System, m: Message)
    requires Inv(s) && WellFormed(m) && Consistent(s.writer)
    ensures Inv(Act(s, WriteData(m)))
  {
    if s.writer.phase == Idle && Accepted(m) {
      AddDataInv(s.writer, s.accepted, m);
      assert (s.accepted + [m])[..|s.reader.delivered|] == s.accepted[..|s.reader.delivered|];
    }
  }

  lemma WriteIndexInv(w: Writer, ms: seq<Message>)
    requires WriterInv(w, ms)
    ensures WriterInv(AddIndex(w), ms) && AddIndex(w).visibleIndex == w.visibleIndex
            && AddIndex(w).visibleData == w.visibleData
  {
    assert ms[..|ms|] == ms;
  }

  lemma FlushDataInv(w: Writer, ms: seq<Message>)
    requires WriterInv(w, ms)
    ensures WriterInv(ShowData(w), ms) && ShowData(w).visibleIndex == w.visibleIndex
            && w.visibleData <= ShowData(w).visibleData
  {
  }

  lemma FlushIndexInv(w: Writer, ms: seq<Message>)
    requires WriterInv(w, ms)
    ensures WriterInv(ShowIndex(w), ms) && w.visibleIndex <= ShowIndex(w).visibleIndex <= |ms|
    ensures ShowIndex(w).visibleData == w.visibleData
  {
    assert ms[..|ms|] == ms;
  }

  lemma SpillInv(w: Writer, ms: seq<Message>, n: nat)
    requires WriterInv(w, ms)
    ensures WriterInv(SpillData(w, n), ms) && SpillData(w, n).visibleIndex == w.visibleIndex
            && w.visibleData <= SpillData(w, n).visibleData
  {
  }

  lemma WriterStepInv(s: System, a: Action)
    requires Inv(s) && Consistent(s.writer) && !a.Poll? && !a.WriteData?
    ensures Inv(Act(s, a))
  {
    match a {
      case WriteIndex => WriteIndexInv(s.writer, s.accepted);
      case FlushData => FlushDataInv(s.writer, s.accepted);
      case FlushIndex => FlushIndexInv(s.writer, s.accepted);
      case Spill(n) => SpillInv(s.writer, s.accepted, n);
    }
  }

  // --- a poll -------------------------------------------------------------

  // A valid reader that stands at its place finds everything the visible index
  // covers committed and mapped.
  lemma LocatedInv(r: Reader, w: Writer, ms: seq<Message>)
    requires WriterInv(w, ms) && ReaderInv(r, w, ms) && Consistent(w)
    ensures var l := Located(r, w.data[..w.visibleData], w.index[..w.visibleIndex]);
            && l == r.(indexMapped := w.visibleIndex, committed := Start(ms, w.visibleIndex), mapped := l.mapped)
            && l.committed <= l.mapped <= w.visibleData
  {
    StartMonotone(ms, |r.delivered|, w.visibleIndex);
    StartMonotone(ms, 0, w.visibleIndex);
  }

  lemma InitializeInv(r: Reader, w: Writer, ms: seq<Message>)
    requires WriterInv(w, ms) && ReaderInv(r, w, ms) && Consistent(w) && !r.valid
    ensures ReaderInv(Initialize(r, w.data[..w.visibleData], w.index[..w.visibleIndex]).(valid := true), w, ms)
    ensures Initialize(r, w.data[..w.visibleData], w.index[..w.visibleIndex]).delivered == r.delivered
    ensures Initialize(r, w.data[..w.visibleData], w.index[..w.visibleIndex]).failedPolls == r.failedPolls
  {
  }

  lemma CopyHolds(data: bytes, start: nat, n: nat, buffer: bytes, part: bytes)
    requires |part| <= n <= |buffer| && start + n <= |data| && data[start..start + |part|] == part
    ensures Holds(data[start..start + n] + buffer[n..], 0, part)
  {
    assert (data[start..start + n] + buffer[n..])[0..|part|] == data[start..start + |part|];
  }

  // The next message lies within what is copied.
  lemma NextWithinCopy(w: Writer, ms: seq<Message>, k: nat)
    requires WriterInv(w, ms) && k < w.visibleIndex
    ensures Start(ms, k + 1) == Start(ms, k) + |Encode(ms[k])|
    ensures Start(ms, k) < Start(ms, k + 1) <= Start(ms, w.visibleIndex) <= w.visibleData <= |w.data|
    ensures w.data[..w.visibleData][Start(ms, k)..Start(ms, k + 1)] == Encode(ms[k])
    ensures |Encode(ms[k])| <= BUFFER_SIZE
  {
    EncodeAllStep(ms, k);
    StartMonotone(ms, k + 1, w.visibleIndex);
    EncodeAllAt(ms, k);
    assert ms[k] in ms;
    SliceOfPrefix(w.data, w.visibleData, Start(ms, k), Start(ms, k + 1));
  }

  lemma SliceOfPrefix(data: bytes, visible: nat, from: nat, to: nat)
    requires from <= to <= visible <= |data|
    ensures data[..visible][from..to] == data[from..to]
  {
  }

  // What a fill leaves in a reader that finds everything up to `end` committed.
  function Filled(r: Reader, data: bytes, end: nat): Reader
    requires |r.buffer| == BUFFER_SIZE && r.position < end <= |data|
  {
    var n := Min(end - r.position, BUFFER_SIZE);
    r.(buffer := data[r.position..r.position + n] + r.buffer[n..], limit := n)
  }

  lemma FillsUp(r: Reader, w: Writer, ms: seq<Message>)
    requires WriterInv(w, ms) && ReaderInv(r, w, ms) && Consistent(w) && |r.delivered| < w.visibleIndex
    ensures r.position < Start(ms, w.visibleIndex) <= w.visibleData <= |w.data|
    ensures var data, index := w.data[..w.visibleData], w.index[..w.visibleIndex];
            FillBuffer(r, data, index) == (Filled(Located(r, data, index), data, Start(ms, w.visibleIndex)), true)
  {
    LocatedInv(r, w, ms);
    NextWithinCopy(w, ms, |r.delivered|);
    FillsLocated(r, w.data[..w.visibleData], w.index[..w.visibleIndex], Start(ms, w.visibleIndex));
  }

  lemma FillsLocated(r: Reader, data: bytes, index: seq<nat>, end: nat)
    requires ReaderOk(r) && IndexBehindData(data, index) && |r.buffer| == BUFFER_SIZE
    requires var l := Located(r, data, index);
             l.position == r.position < l.committed == end <= |data| && |l.buffer| == BUFFER_SIZE
    ensures FillBuffer(r, data, index) == (Filled(Located(r, data, index), data, end), true)
  {
  }

  lemma ParsesNext(r: Reader, w: Writer, ms: seq<Message>)
    requires WriterInv(w, ms) && Consistent(w) && |r.buffer| == BUFFER_SIZE
    requires |r.delivered| < w.visibleIndex && r.position == Start(ms, |r.delivered|)
    requires r.position < Start(ms, w.visibleIndex) <= w.visibleData <= |w.data|
    ensures var f := Filled(r, w.data[..w.visibleData], Start(ms, w.visibleIndex)); var k := |r.delivered|;
            && |f.buffer| == BUFFER_SIZE && f.limit <= BUFFER_SIZE
            && Parse(f.buffer, f.limit) == Delivered(ms[k], |Encode(ms[k])|)
  {
    var k := |r.delivered|;
    NextWithinCopy(w, ms, k);
    assert ms[k] in ms;
    ParsesCopied(r, w.data[..w.visibleData], Start(ms, w.visibleIndex), ms[k]);
  }

  // A message at the reader's position is in the buffer once that is filled.
  lemma ParsesCopied(r: Reader, data: bytes, end: nat, m: Message)
    requires WellFormed(m) && Accepted(m) && |r.buffer| == BUFFER_SIZE
    requires r.position + |Encode(m)| <= end <= |data| && r.position < end
    requires data[r.position..r.position + |Encode(m)|] == Encode(m)
    ensures var f := Filled(r, data, end);
            |f.buffer| == BUFFER_SIZE && f.limit <= BUFFER_SIZE && Parse(f.buffer, f.limit) == Delivered(m, |Encode(m)|)
  {
    var f := Filled(r, data, end);
    CopyHolds(data, r.position, f.limit, r.buffer, Encode(m));
    ParseEncoded(f.buffer, f.limit, m);
  }

  lemma PollNothing(r: Reader, w: Writer, ms: seq<Message>)
    requires WriterInv(w, ms) && ReaderInv(r, w, ms) && Consistent(w) && r.valid && |r.delivered| == w.visibleIndex
    ensures var (r', ok) := PollFile(r, w);
            !ok && ReaderInv(r', w, ms) && r'.delivered == r.delivered && r'.failedPolls == r.failedPolls
  {
    LocatedInv(r, w, ms);
  }

  lemma PollNext(r: Reader, w: Writer, ms: seq<Message>)
    requires WriterInv(w, ms) && ReaderInv(r, w, ms) && Consistent(w) && r.valid && |r.delivered| < w.visibleIndex
    ensures var (r', ok) := PollFile(r, w);
            ok && ReaderInv(r', w, ms) && r'.delivered == r.delivered + [ms[|r.delivered|]]
                && r'.failedPolls == r.failedPolls
  {
    var k := |r.delivered|;
    var data, index := w.data[..w.visibleData], w.index[..w.visibleIndex];
    var l := Located(r, data, index);
    LocatedInv(r, w, ms);
    FillsUp(r, w, ms);
    ParsesNext(l, w, ms);
    var f := Filled(l, data, Start(ms, w.visibleIndex));
    NextWithinCopy(w, ms, k);
    DeliveredInv(f, w, ms);
  }

  lemma DeliveredInv(f: Reader, w: Writer, ms: seq<Message>)
    requires ReaderInv(f, w, ms) && |f.delivered| < f.indexMapped
    requires Parse(f.buffer, f.limit) == Delivered(ms[|f.delivered|], |Encode(ms[|f.delivered|])|)
    ensures Advance(f).1 && ReaderInv(Advance(f).0, w, ms)
            && Advance(f).0.delivered == f.delivered + [ms[|f.delivered|]]
    ensures Advance(f).0.failedPolls == f.failedPolls
  {
    var k := |f.delivered|;
    assert ms[..k + 1] == ms[..k] + [ms[k]];
    EncodeAllStep(ms, k);
  }

  lemma ValidPoll(r: Reader, w: Writer, ms: seq<Message>)
    requires WriterInv(w, ms) && ReaderInv(r, w, ms) && Consistent(w) && r.valid
    ensures var (r', ok) := PollFile(r, w);
            && ReaderInv(r', w, ms)
            && (ok <==> |r.delivered| < w.visibleIndex)
            && r'.delivered == r.delivered + (if ok then [ms[|r.delivered|]] else [])
            && r'.failedPolls == r.failedPolls
  {
    if |r.delivered| < w.visibleIndex {
      PollNext(r, w, ms);
    } else {
      PollNothing(r, w, ms);
    }
  }

  lemma FirstPoll(r: Reader, w: Writer, ms: seq<Message>)
    requires WriterInv(w, ms) && ReaderInv(r, w, ms) && Consistent(w) && !r.valid && w.visibleData > 0
    ensures var r1 := Initialize(r, w.data[..w.visibleData], w.index[..w.visibleIndex]).(valid := true);
            ReaderInv(r1, w, ms) && PollFile(r, w) == PollFile(r1, w)
            && r1.delivered == r.delivered && r1.failedPolls == r.failedPolls
  {
    InitializeInv(r, w, ms);
  }

  // In any reachable state a poll delivers the next message if the visible
  // index covers it and otherwise nothing; it is never stuck on a message.
  ghost predicate PollOutcome(r: Reader, w: Writer, ms: seq<Message>)
    requires ReaderOk(r) && Consistent(w) && |r.delivered| <= |ms| && w.visibleIndex <= |ms|
  {
    var (r', ok) := PollFile(r, w);
    && ReaderInv(r', w, ms)
    && (ok <==> |r.delivered| < w.visibleIndex)
    && r'.delivered == r.delivered + (if ok && |r.delivered| < |ms| then [ms[|r.delivered|]] else [])
    && r'.failedPolls == r.failedPolls
  }

  lemma PollDelivers(r: Reader, w: Writer, ms: seq<Message>)
    requires WriterInv(w, ms) && ReaderInv(r, w, ms) && Consistent(w)
    ensures PollOutcome(r, w, ms)
  {
    if r.valid {
      ValidPoll(r, w, ms);
    } else if w.visibleData == 0 {
      StartMonotone(ms, 0, w.visibleIndex);
    } else {
      FirstPoll(r, w, ms);
      ValidPoll(Initialize(r, w.data[..w.visibleData], w.index[..w.visibleIndex]).(valid := true), w, ms);
    }
  }

  // --- every interleaving -------------------------------------------------

  const START := System(Writer([], [], 0, 0, Idle), [], FRESH_READER)
  const FRESH_READER := Reader(false, 0, 0, 0, 0, seq(BUFFER_SIZE, _ => 0), 0, 0, 0, [])

  ghost predicate WellFormedActions(actions: seq<Action>) {
    forall a :: a in actions && a.WriteData? ==> WellFormed(a.m)
  }

  lemma ActInv(s: System, a: Action)
    requires Inv(s) && (a.WriteData? ==> WellFormed(a.m))
    ensures Consistent(s.writer) && Inv(Act(s, a))
  {
    InvConsistent(s.writer, s.accepted);
    match a {
      case WriteData(m) => WriteDataInv(s, m);
      case Poll => PollDelivers(s.reader, s.writer, s.accepted);
      case _ => WriterStepInv(s, a);
    }
  }

  lemma StartInv()
    ensures Inv(START)
  {
  }

  // An interleaving of steps. That a step may be taken at all - the visible
  // index not ahead of the visible data, so that no poll reads past the file -
  // is part of what is proved here.
  ghost function RunActions(s: System, actions: seq<Action>): (s': System)
    requires Inv(s) && WellFormedActions(actions)
    ensures Inv(s')
    decreases |actions|
  {
    if actions == [] then s
    else
      assert actions[0] in actions;
      ActInv(s, actions[0]);
      RunActions(Act(s, actions[0]), actions[1..])
  }

  // Under every interleaving the messages delivered are a prefix of those
  // accepted, and no poll ever failed on a message.
  lemma DeliveredIsPrefix(actions: seq<Action>)
    requires WellFormedActions(actions)
    ensures Inv(START)
    ensures var s := RunActions(START, actions);
            s.reader.delivered <= s.accepted && s.reader.failedPolls == 0
  {
    StartInv();
  }

  // What a first-in first-out queue would hold.
  function Undelivered(s: System): seq<Message>
    requires |s.reader.delivered| <= |s.accepted|
  {
    s.accepted[|s.reader.delivered|..]
  }

  lemma PollTakesHead(s: System, a: Action)
    requires Inv(s) && a.Poll? && Consistent(s.writer)
    ensures Act(s, a).accepted == s.accepted && Act(s, a).writer == s.writer
    ensures Act(s, a).reader.delivered ==
            s.reader.delivered
                + (if |s.reader.delivered| < s.writer.visibleIndex then [s.accepted[|s.reader.delivered|]] else [])
  {
    PollDelivers(s.reader, s.writer, s.accepted);
  }

  // Every step is a step of that queue: accepting a message appends it, a poll
  // takes the head as soon as the index covers it, nothing else changes it.
  ghost predicate QueueStep(s: System, a: Action, s': System)
    requires |s.reader.delivered| <= |s.accepted| && |s'.reader.delivered| <= |s'.accepted|
  {
    var q, q' := Undelivered(s), Undelivered(s');
    if a.WriteData? && s.writer.phase == Idle && Accepted(a.m) then
      q' == q + [a.m] && s'.reader.delivered == s.reader.delivered
    else if a.Poll? && |s.reader.delivered| < s.writer.visibleIndex then
      q != [] && q' == q[1..] && s'.reader.delivered == s.reader.delivered + [q[0]]
    else q' == q && s'.reader.delivered == s.reader.delivered
  }

  lemma StepRefinesQueue(s: System, a: Action)
    requires Inv(s) && (a.WriteData? ==> WellFormed(a.m))
    ensures Consistent(s.writer) && Inv(Act(s, a)) && QueueStep(s, a, Act(s, a))
  {
    ActInv(s, a);
    if a.Poll? {
      PollTakesHead(s, a);
      PollIsQueueStep(s, a, Act(s, a));
    } else {
      WriteIsQueueStep(s, a);
    }
  }

  lemma WriteIsQueueStep(s: System, a: Action)
    requires Inv(s) && Consistent(s.writer) && !a.Poll?
    ensures Act(s, a).reader == s.reader && |s.reader.delivered| <= |Act(s, a).accepted|
    ensures QueueStep(s, a, Act(s, a))
  {
    if a.WriteData? {
      DropAppend(s.accepted, |s.reader.delivered|, a.m);
    }
  }

  lemma DropAppend(ms: seq<Message>, k: nat, m: Message)
    requires k <= |ms|
    ensures (ms + [m])[k..] == ms[k..] + [m]
  {
  }

  lemma PollIsQueueStep(s: System, a: Action, s': System)
    requires Inv(s) && Inv(s') && a.Poll? && s'.accepted == s.accepted
    requires s'.reader.delivered ==
             s.reader.delivered
                 + (if |s.reader.delivered| < s.writer.visibleIndex then [s.accepted[|s.reader.delivered|]] else [])
    ensures QueueStep(s, a, s')
  {
  }

  // Once the writer is idle, polling as often as there are messages left
  // delivers every one.
  lemma {:induction false} IdleWriterDrains(s: System, polls: seq<Action>)
    requires Inv(s) && s.writer.phase == Idle && (forall a :: a in polls ==> a.Poll?)
    requires |polls| >= |Undelivered(s)|
    ensures RunActions(s, polls).reader.delivered == s.accepted
    decreases |polls|
  {
    if polls != [] {
      assert polls[0] in polls;
      ActInv(s, polls[0]);
      PollTakesHead(s, polls[0]);
      IdleWriterDrains(Act(s, polls[0]), polls[1..]);
    }
  }

  // A producer that started over, leaving an index shorter than the reader
  // knows, is noticed: the poll is that of a reader opening the new file.
  lemma RestartIsNoticed(r: Reader, data: bytes, index: seq<nat>)
    requires ReaderOk(r) && IndexBehindData(data, index) && r.valid
    requires |index| < r.indexMapped && 0 < r.position && data != []
    ensures var opening := r.(valid := false, position := 0, mapped := 0, indexMapped := 0, committed := 0, limit := 0);
            Next(r, data, index) == Next(opening, data, index)
  {
    var opening := r.(valid := false, position := 0, mapped := 0, indexMapped := 0, committed := 0, limit := 0);
    var r1 := Initialize(opening, data, index).(valid := true);
    assert Located(r, data, index) == Located(r1, data, index);
  }
}
