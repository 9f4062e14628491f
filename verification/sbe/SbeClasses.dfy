// The objects at the two ends of the queue: the binary writer with its reused
// buffer, the files it appends to, and the poller with its own buffer. Each
// method is proved to compute a step of SbeQueue.
module SbeClasses {
  import opened Common
  import opened SbeCodec
  import opened SbeQueue

  const MAX_STRING_LENGTH := 1073741824

  // --- encoding in place --------------------------------------------------

  // `s` with the bytes at `at` overwritten by `b`.
  function Patch(s: bytes, at: nat, b: bytes): (r: bytes)
    requires at + |b| <= |s|
    ensures |r| == |s|
  {
    s[..at] + b + s[at + |b|..]
  }

  function Zeros(n: nat): (z: bytes)
    ensures |z| == n
  {
    seq(n, _ => 0)
  }

  function Empties(n: nat): (e: seq<bytes>)
    ensures |e| == n
  {
    seq(n, _ => [])
  }

  // The message a freshly prepared buffer holds: everything zero.
  function Blank(t: Template): Message {
    Message(t, Zeros(t.FixedLength()), Empties(t.StringCount()), [])
  }

  lemma {:induction false} EmptyStrings(n: nat)
    ensures Lengths(Empties(n)) == Zeros(4 * n) && Concat(Empties(n)) == []
  {
    if n > 0 {
      assert Empties(n)[1..] == Empties(n - 1);
      EmptyStrings(n - 1);
      assert LE(0, 4) == [0, 0, 0, 0] by { assert LE(0, 3) == [0] + LE(0, 2); }
    }
  }

  lemma BlankEncoding(t: Template)
    ensures Encode(Blank(t)) == Header(t) + Zeros(t.BlockLength())
  {
    EmptyStrings(t.StringCount());
  }

  ghost predicate EmptyFrom(strings: seq<bytes>, i: nat) {
    forall j :: i <= j < |strings| ==> strings[j] == []
  }

  lemma {:induction false} LengthsPatched(strings: seq<bytes>, i: nat, v: bytes)
    requires i < |strings|
    ensures Lengths(strings[i := v]) == Patch(Lengths(strings), 4 * i, LE(|v|, 4))
  {
    if i == 0 {
      assert strings[0 := v][1..] == strings[1..];
    } else {
      assert strings[i := v][1..] == strings[1..][i - 1 := v];
      LengthsPatched(strings[1..], i - 1, v);
    }
  }

  lemma {:induction false} ConcatAppended(strings: seq<bytes>, i: nat, v: bytes)
    requires i < |strings| && EmptyFrom(strings, i)
    ensures Concat(strings[i := v]) == Concat(strings) + v
  {
    if i == 0 {
      assert strings[0 := v][1..] == strings[1..];
      AllEmpty(strings);
      AllEmpty(strings[1..]);
    } else {
      assert strings[i := v][1..] == strings[1..][i - 1 := v];
      ConcatAppended(strings[1..], i - 1, v);
    }
  }

  lemma AllEmpty(strings: seq<bytes>)
    requires EmptyFrom(strings, 0)
    ensures Concat(strings) == []
  {
  }

  // What is encoded before the string lengths.
  function Front(m: Message): (f: bytes)
    ensures |f| == HEADER_LENGTH + |m.fixed|
  {
    Header(m.template) + m.fixed
  }

  lemma StringShape(m: Message, i: nat, v: bytes)
    requires i < |m.strings| && EmptyFrom(m.strings, i)
    ensures Encode(m.(strings := m.strings[i := v])) ==
            Front(m) + Patch(Lengths(m.strings), 4 * i, LE(|v|, 4)) + GroupsBytes(m.groups) + (Concat(m.strings) + v)
  {
    LengthsPatched(m.strings, i, v);
    ConcatAppended(m.strings, i, v);
  }

  // Setting a string patches its length slot and appends its bytes, provided
  // no later string has been set.
  lemma StringEncoding(m: Message, i: nat, v: bytes)
    requires i < |m.strings| && EmptyFrom(m.strings, i)
    ensures HEADER_LENGTH + |m.fixed| + 4 * i + 4 <= |Encode(m)|
    ensures Encode(m.(strings := m.strings[i := v])) ==
            Patch(Encode(m), HEADER_LENGTH + |m.fixed| + 4 * i, LE(|v|, 4)) + v
  {
    StringShape(m, i, v);
    SlotPatched(Encode(m), Encode(m.(strings := m.strings[i := v])), m, i, LE(|v|, 4), v);
  }

  lemma SlotPatched(before: bytes, after: bytes, m: Message, i: nat, b: bytes, v: bytes)
    requires i < |m.strings| && |b| == 4
             && before == Front(m) + Lengths(m.strings) + GroupsBytes(m.groups) + Concat(m.strings)
    requires after == Front(m) + Patch(Lengths(m.strings), 4 * i, b) + GroupsBytes(m.groups) + (Concat(m.strings) + v)
    ensures HEADER_LENGTH + |m.fixed| + 4 * i + 4 <= |before|
    ensures after == Patch(before, HEADER_LENGTH + |m.fixed| + 4 * i, b) + v
  {
    FourPatched(before, after, Front(m), Lengths(m.strings), GroupsBytes(m.groups), Concat(m.strings), 4 * i, b, v);
  }

  lemma FourPatched(before: bytes, after: bytes, f: bytes, l: bytes, g: bytes, c: bytes, at: nat, b: bytes, v: bytes)
    requires at + |b| <= |l| && before == f + l + g + c && after == f + Patch(l, at, b) + g + (c + v)
    ensures |f| + at + |b| <= |before| && after == Patch(before, |f| + at, b) + v
  {
    PatchInFour(f, l, g, c, at, b, v);
  }

  lemma PatchInFour(f: bytes, l: bytes, g: bytes, c: bytes, at: nat, b: bytes, v: bytes)
    requires at + |b| <= |l|
    ensures |f| + at + |b| <= |f + l + g + c|
    ensures f + Patch(l, at, b) + g + (c + v) == Patch(f + l + g + c, |f| + at, b) + v
  {
    assert f + l + g + c == f + l + (g + c);
    PatchMiddle(f, l, g + c, at, b);
    assert f + Patch(l, at, b) + g + (c + v) == f + Patch(l, at, b) + (g + c) + v;
  }

  lemma PatchMiddle(x: bytes, y: bytes, z: bytes, at: nat, b: bytes)
    requires at + |b| <= |y|
    ensures Patch(x + y + z, |x| + at, b) == x + Patch(y, at, b) + z
  {
  }

  // Setting a fixed field patches the root block.
  lemma FieldEncoding(m: Message, offset: nat, b: bytes)
    requires offset + |b| <= |m.fixed|
    ensures HEADER_LENGTH + |m.fixed| <= |Encode(m)|
    ensures Encode(m.(fixed := Patch(m.fixed, offset, b))) == Patch(Encode(m), HEADER_LENGTH + offset, b)
  {
    var h, rest := Header(m.template), Lengths(m.strings) + GroupsBytes(m.groups) + Concat(m.strings);
    assert Encode(m) == h + m.fixed + rest;
    assert Encode(m.(fixed := Patch(m.fixed, offset, b))) == h + Patch(m.fixed, offset, b) + rest;
    PatchMiddle(h, m.fixed, rest, offset, b);
  }

  lemma {:induction false} GroupsAppended(groups: seq<bytes>, g: bytes)
    ensures GroupsBytes(groups + [g]) == GroupsBytes(groups) + GroupBytes(g)
  {
    if groups == [] {
      assert groups + [g] == [g];
    } else {
      assert (groups + [g])[0] == groups[0] && (groups + [g])[1..] == groups[1..] + [g];
      GroupsAppended(groups[1..], g);
    }
  }

  // A group is appended, as long as no string has been set.
  lemma GroupEncoding(m: Message, g: bytes)
    requires EmptyFrom(m.strings, 0)
    ensures Encode(m.(groups := m.groups + [g])) == Encode(m) + GroupBytes(g)
  {
    AllEmpty(m.strings);
    GroupsAppended(m.groups, g);
  }

  lemma PatchedAndAppended(before: bytes, after: bytes, end: nat, slot: nat, b: bytes, value: bytes)
    requires |before| == |after| && end + |value| <= |after| && slot + |b| <= end
    requires forall k :: 0 <= k < |after| ==>
               after[k] == if end <= k < end + |value| then value[k - end]
                           else if slot <= k < slot + |b| then b[k - slot] else before[k]
    ensures after[..end + |value|] == Patch(before[..end], slot, b) + value
  {
  }

  // --- the writer ---------------------------------------------------------

  // The data file and its index, each with the part that is visible to others.
  class QueueFile {
    var data: bytes
    var index: seq<nat>
    var visibleData: nat
    var visibleIndex: nat
    var phase: Phase

    function State(): Writer
      reads this
    {
      Writer(data, index, visibleData, visibleIndex, phase)
    }

    constructor ()
      ensures State() == START.writer
    {
      data, index, visibleData, visibleIndex, phase := [], [], 0, 0, Idle;
    }

    method WriteBytes(b: bytes, ghost m: Message)
      requires phase == Idle && Accepted(m) && b == Encode(m)
      modifies this
      ensures State() == AddData(old(State()), m)
    {
      data := data + b;
      phase := DataWritten;
    }

    method WriteEndOffset()
      requires phase == DataWritten
      modifies this
      ensures State() == AddIndex(old(State()))
    {
      index := index + [|data|];
      phase := IndexWritten;
    }

    method FlushBytes()
      requires phase == IndexWritten
      modifies this
      ensures State() == ShowData(old(State()))
    {
      visibleData := |data|;
      phase := DataFlushed;
    }

    method FlushEndOffset()
      requires phase == DataFlushed
      modifies this
      ensures State() == ShowIndex(old(State()))
    {
      visibleIndex := |index|;
      phase := Idle;
    }
  }

  class BinaryWriter {
    const buffer: array<byte>
    const file: QueueFile
    // The message under construction, and the end of what is encoded of it.
    ghost var draft: Message
    var template: Template
    var position: nat
    var locked: bool
    var messageCount: nat

    ghost predicate Valid()
      reads this, buffer
    {
      && buffer.Length == BUFFER_SIZE
      && (locked ==>
            && template == draft.template
            && |draft.fixed| == template.FixedLength() && |draft.strings| == template.StringCount()
            && |draft.groups| <= template.GroupCount() && (forall g :: g in draft.groups ==> GroupOk(g))
            && position == |Encode(draft)|
            && (position <= BUFFER_SIZE ==> buffer[..position] == Encode(draft)))
    }

    constructor (file: QueueFile)
      ensures Valid() && !locked && fresh(buffer) && this.file == file && messageCount == 0
    {
      buffer := new byte[BUFFER_SIZE];
      this.file := file;
      template, position, locked, messageCount := ConnectionStatus, 0, false, 0;
      draft := Blank(ConnectionStatus);
    }

    // Copy bytes into the buffer; what would lie past its end is not modelled.
    method Put(at: nat, b: bytes)
      requires buffer.Length == BUFFER_SIZE
      modifies buffer
      ensures forall k :: 0 <= k < BUFFER_SIZE ==>
                buffer[k] == if at <= k < at + |b| then b[k - at] else old(buffer[k])
    {
      var j := 0;
      while j < |b| && at + j < BUFFER_SIZE
        invariant 0 <= j <= |b| && (j == 0 || at + j <= BUFFER_SIZE)
        invariant forall k :: 0 <= k < BUFFER_SIZE ==>
                    buffer[k] == if at <= k < at + j then b[k - at] else old(buffer[k])
      {
        buffer[at + j] := b[j];
        j := j + 1;
      }
    }

    // A header over a cleared root block.
    method Clear(t: Template)
      requires buffer.Length == BUFFER_SIZE
      modifies buffer
      ensures buffer[..HEADER_LENGTH + t.BlockLength()] == Header(t) + Zeros(t.BlockLength())
    {
      var block := t.BlockLength();
      Put(0, Zeros(HEADER_LENGTH + block));
      assert forall k :: 0 <= k < HEADER_LENGTH + block ==> buffer[k] == 0;
      Put(0, Header(t));
      ghost var cleared := Header(t) + Zeros(block);
      assert forall k :: 0 <= k < HEADER_LENGTH + block ==> buffer[k] == cleared[k];
      assert buffer[..HEADER_LENGTH + block] == cleared;
    }

    method PrepareMessage(t: Template)
      requires Valid() && !locked
      modifies this`draft, this`template, this`position, this`locked, buffer
      ensures Valid() && locked && draft == Blank(t)
    {
      locked := true;
      Clear(t);
      template, position, draft := t, HEADER_LENGTH + t.BlockLength(), Blank(t);
      BlankEncoding(t);
    }

    method SetField(offset: nat, b: bytes)
      requires Valid() && locked && offset + |b| <= template.FixedLength() && position <= BUFFER_SIZE
      modifies this`draft, buffer
      ensures Valid() && draft == old(draft).(fixed := Patch(old(draft).fixed, offset, b))
    {
      FieldEncoding(draft, offset, b);
      ghost var before := buffer[..position];
      Put(HEADER_LENGTH + offset, b);
      draft := draft.(fixed := Patch(draft.fixed, offset, b));
      assert buffer[..position] == Patch(before, HEADER_LENGTH + offset, b);
    }

    // A string's length goes to its slot, its bytes to the end of the message.
    method StoreString(slot: nat, end: nat, length: bytes, value: bytes)
      requires buffer.Length == BUFFER_SIZE && slot + |length| <= end
      modifies buffer
      ensures end + |value| <= BUFFER_SIZE ==>
                buffer[..end + |value|] == Patch(old(buffer[..end]), slot, length) + value
    {
      ghost var before := buffer[..];
      Put(slot, length);
      Put(end, value);
      if end + |value| <= BUFFER_SIZE {
        PatchedAndAppended(before, buffer[..], end, slot, length, value);
        assert before[..end] == old(buffer[..end]);
      }
    }

    // The C++ code throws when the string is too long for its length field.
    method SetVarString(i: nat, value: bytes) returns (ok: bool)
      requires Valid() && locked && i < template.StringCount() && EmptyFrom(draft.strings, i)
      modifies this`draft, this`position, buffer
      ensures Valid() && ok == (|value| <= MAX_STRING_LENGTH)
      ensures draft == if ok then old(draft).(strings := old(draft).strings[i := value]) else old(draft)
    {
      if |value| > MAX_STRING_LENGTH {
        return false;
      }
      var slot := HEADER_LENGTH + template.FixedLength() + 4 * i;
      StringEncoding(draft, i, value);
      StoreString(slot, position, LE(|value|, 4), value);
      draft, position := draft.(strings := draft.strings[i := value]), position + |value|;
      return true;
    }

    method AddGroup(levels: bytes)
      requires Valid() && locked && GroupOk(levels) && EmptyFrom(draft.strings, 0)
      requires |draft.groups| < template.GroupCount()
      modifies this`draft, this`position, buffer
      ensures Valid() && draft == old(draft).(groups := old(draft).groups + [levels])
    {
      GroupEncoding(draft, levels);
      ghost var before := buffer[..];
      ghost var end := position;
      Put(position, GroupBytes(levels));
      draft := draft.(groups := draft.groups + [levels]);
      position := position + |GroupBytes(levels)|;
      if position <= BUFFER_SIZE {
        assert buffer[..position] == before[..end] + GroupBytes(levels);
      }
    }

    // Accepts the message if it fits the buffer, and then takes the four steps
    // of the queue in order. All groups of the template must have been added, as
    // the encoding of its length expects.
    method WriteMessage() returns (ok: bool)
      requires Valid() && locked && file.phase == Idle && |draft.groups| == template.GroupCount()
      modifies this`locked, this`messageCount, file
      ensures Valid() && !locked && WellFormed(draft)
      ensures ok == Accepted(draft)
      ensures file.State() == if ok then ShowIndex(ShowData(AddIndex(AddData(old(file.State()), draft))))
              else old(file.State())
      ensures ok ==> file.data == old(file.data) + buffer[..position]
      ensures messageCount == old(messageCount) + (if ok then 1 else 0)
    {
      if position > buffer.Length {
        locked := false;
        return false;
      }
      file.WriteBytes(buffer[..position], draft);
      file.WriteEndOffset();
      file.FlushBytes();
      file.FlushEndOffset();
      messageCount := messageCount + 1;
      locked := false;
      return true;
    }
  }

  // A file that holds messages end to end, each covered by the index and
  // visible, holds one more of them after a write: what the queue's invariant
  // asks of its writer.
  lemma WrittenIsAppended(w: Writer, ms: seq<Message>, m: Message)
    requires WriterInv(w, ms) && w.phase == Idle && WellFormed(m) && Accepted(m)
    ensures var w' := ShowIndex(ShowData(AddIndex(AddData(w, m))));
            && WriterInv(w', ms + [m]) && w'.phase == Idle
            && w'.visibleIndex == |ms| + 1 && w'.visibleData == |w'.data|
  {
    AddDataInv(w, ms, m);
    WriteIndexInv(AddData(w, m), ms + [m]);
    FlushDataInv(AddIndex(AddData(w, m)), ms + [m]);
    FlushIndexInv(ShowData(AddIndex(AddData(w, m))), ms + [m]);
  }

  // --- the poller ---------------------------------------------------------

  class QueuePoller {
    var valid: bool
    var position: nat
    var mapped: nat
    var indexMapped: nat
    var committed: nat
    const buffer: array<byte>
    var limit: nat
    var lastStuckAt: nat
    var failedPolls: nat
    // What the listener was called with.
    var delivered: seq<Message>

    function State(): Reader
      reads this, buffer
    {
      Reader(valid, position, mapped, indexMapped, committed, buffer[..], limit, lastStuckAt, failedPolls, delivered)
    }

    constructor ()
      ensures State() == FRESH_READER && fresh(buffer)
    {
      valid, position, mapped, indexMapped, committed := false, 0, 0, 0, 0;
      limit, lastStuckAt, failedPolls, delivered := 0, 0, 0, [];
      buffer := new byte[BUFFER_SIZE](_ => 0);
    }

    method RefreshCommittedEnd(index: seq<nat>)
      modifies this`indexMapped, this`committed
      ensures State() == Refresh(old(State()), index)
    {
      if |index| < indexMapped {
        indexMapped := 0;
        committed := 0;
        return;
      }
      if |index| > indexMapped {
        indexMapped := |index|;
      }
      if indexMapped >= 1 {
        committed := index[indexMapped - 1];
      }
    }

    method InitializeFileMapping(data: bytes, index: seq<nat>)
      modifies this`mapped, this`position, this`limit, this`indexMapped, this`committed
      ensures State() == Initialize(old(State()), data, index)
    {
      mapped, position, limit := |data|, 0, 0;
      if |index| > 0 {
        indexMapped := |index|;
        RefreshCommittedEnd(index);
      }
    }

    // Find out what is committed and map it. The early exit the code takes
    // when a restarted producer has committed nothing yet comes to the same as
    // the comparison that follows.
    method Locate(data: bytes, index: seq<nat>)
      modifies this`mapped, this`position, this`limit, this`indexMapped, this`committed
      ensures State() == Located(old(State()), data, index)
    {
      RefreshCommittedEnd(index);
      if committed < position {
        mapped, position, limit := 0, 0, 0;
        if data != [] {
          InitializeFileMapping(data, index);
        }
      }
      if committed > mapped {
        mapped := |data|;
      }
    }

    method FillBuffer(data: bytes, index: seq<nat>) returns (filled: bool)
      requires ReaderOk(State()) && IndexBehindData(data, index)
      modifies this`mapped, this`position, this`limit, this`indexMapped, this`committed, buffer
      ensures (State(), filled) == SbeQueue.FillBuffer(old(State()), data, index)
    {
      Locate(data, index);
      if position >= committed {
        return false;
      }
      ReadsStayCommitted(old(State()), data, index);
      var n := Min(committed - position, buffer.Length);
      Copy(data[position..position + n]);
      limit := n;
      return true;
    }

    method Copy(b: bytes)
      requires |b| <= buffer.Length
      modifies buffer
      ensures buffer[..] == b + old(buffer[..])[|b|..]
    {
      for j := 0 to |b|
        invariant forall k :: 0 <= k < buffer.Length ==> buffer[k] == if k < j then b[k] else old(buffer[k])
      {
        buffer[j] := b[j];
      }
    }

    // Count consecutive failures at one position, for the log.
    method HandleBufferTooSmall()
      modifies this`lastStuckAt, this`failedPolls
      ensures State() == Stuck(old(State()))
    {
      if position != lastStuckAt {
        lastStuckAt := position;
        failedPolls := 1;
      } else {
        failedPolls := failedPolls + 1;
      }
    }

    method Next(file: QueueFile) returns (ok: bool)
      requires ReaderOk(State()) && Consistent(file.State())
      modifies this, buffer
      ensures (State(), ok) == PollFile(old(State()), file.State())
    {
      var data, index := file.data[..file.visibleData], file.index[..file.visibleIndex];
      if !valid {
        if data == [] {
          return false;
        }
        InitializeFileMapping(data, index);
        valid := true;
      }
      ok := FillBuffer(data, index);
      if !ok {
        return;
      }
      ok := Dispatch();
    }

    method Dispatch() returns (ok: bool)
      requires ReaderOk(State())
      modifies this`lastStuckAt, this`failedPolls, this`position, this`delivered
      ensures (State(), ok) == Advance(old(State()))
    {
      match Parse(buffer[..], limit) {
        case Incomplete =>
          return false;
        case TooSmall =>
          HandleBufferTooSmall();
          return false;
        case Skipped(n) =>
          position := position + n;
          return true;
        case Delivered(m, n) =>
          delivered := delivered + [m];
          position := position + n;
          return true;
      }
    }
  }
}
