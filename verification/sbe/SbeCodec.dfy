// How a message is laid out in the queue file, and how a reader recovers it.
module SbeCodec {
  // Framing follows FIX Simple Binary Encoding 1.0, section 3, except that a
  // string keeps its length inside the root block and its bytes after it.

  import opened Common

  type byte = x: int | 0 <= x < 256
  type bytes = seq<byte>

  const HEADER_LENGTH := 8
  const BUFFER_SIZE := 4092
  const LEVEL_LENGTH := 16
  const SCHEMA_ID := 1
  const SCHEMA_VERSION := 1

  // --- little-endian integers ---------------------------------------------

  function Pow256(k: nat): nat {
    if k == 0 then 1 else 256 * Pow256(k - 1)
  }

  function LE(n: nat, k: nat): (b: bytes)
    ensures |b| == k
  {
    if k == 0 then [] else [n % 256] + LE(n / 256, k - 1)
  }

  function FromLE(b: bytes): nat {
    if b == [] then 0 else b[0] + 256 * FromLE(b[1..])
  }

  lemma {:induction false} LERoundTrip(n: nat, k: nat)
    requires n < Pow256(k)
    ensures FromLE(LE(n, k)) == n
    decreases k
  {
    if k > 0 {
      LERoundTrip(n / 256, k - 1);
      assert LE(n, k)[1..] == LE(n / 256, k - 1);
    }
  }

  function At(s: bytes, i: nat, k: nat): nat
    requires i + k <= |s|
  {
    FromLE(s[i..i + k])
  }

  // --- messages -----------------------------------------------------------

  datatype Template =
    | ConnectionStatus | SecurityDefinition | SecurityStatus | MDUpdate
    | MDFullBook | NewOrder | CancelOrder | AmendOrder
  {
    function Id(): nat {
      match this
      case ConnectionStatus => 100
      case SecurityDefinition => 101
      case SecurityStatus => 102
      case MDUpdate => 103
      case MDFullBook => 104
      case NewOrder => 105
      case CancelOrder => 106
      case AmendOrder => 109
    }

    // Length of the root block without the string length slots at its end.
    function FixedLength(): nat {
      match this
      case ConnectionStatus => 9
      case SecurityDefinition => 76
      case SecurityStatus => 13
      case MDUpdate => 40
      case MDFullBook => 12
      case NewOrder => 32
      case CancelOrder => 12
      case AmendOrder => 32
    }

    function StringCount(): nat {
      match this
      case SecurityDefinition => 2
      case CancelOrder => 2
      case NewOrder => 1
      case AmendOrder => 1
      case _ => 0
    }

    function GroupCount(): nat {
      if MDFullBook? then 2 else 0
    }

    function BlockLength(): nat {
      FixedLength() + 4 * StringCount()
    }
  }

  function TemplateOf(id: nat): Option<Template> {
    if id == 100 then Some(ConnectionStatus)
    else if id == 101 then Some(SecurityDefinition)
    else if id == 102 then Some(SecurityStatus)
    else if id == 103 then Some(MDUpdate)
    else if id == 104 then Some(MDFullBook)
    else if id == 105 then Some(NewOrder)
    else if id == 106 then Some(CancelOrder)
    else if id == 109 then Some(AmendOrder)
    else None
  }

  // A group is the bytes of its levels, each a price and a quantity mantissa.
  datatype Message = Message(template: Template, fixed: bytes, strings: seq<bytes>, groups: seq<bytes>)

  predicate GroupOk(g: bytes) {
    |g| % LEVEL_LENGTH == 0
  }

  ghost predicate WellFormed(m: Message) {
    && |m.fixed| == m.template.FixedLength()
    && |m.strings| == m.template.StringCount()
    && |m.groups| == m.template.GroupCount()
    && (forall g :: g in m.groups ==> GroupOk(g))
  }

  // --- encoding -----------------------------------------------------------

  function Header(t: Template): (b: bytes)
    ensures |b| == HEADER_LENGTH
  {
    LE(t.BlockLength(), 2) + LE(t.Id(), 2) + LE(SCHEMA_ID, 2) + LE(SCHEMA_VERSION, 2)
  }

  function Lengths(strings: seq<bytes>): (b: bytes)
    ensures |b| == 4 * |strings|
  {
    if strings == [] then [] else LE(|strings[0]|, 4) + Lengths(strings[1..])
  }

  function Concat(parts: seq<bytes>): bytes {
    if parts == [] then [] else parts[0] + Concat(parts[1..])
  }

  function GroupBytes(g: bytes): bytes {
    LE(LEVEL_LENGTH, 2) + LE(|g| / LEVEL_LENGTH, 2) + g
  }

  function GroupsBytes(groups: seq<bytes>): bytes {
    if groups == [] then [] else GroupBytes(groups[0]) + GroupsBytes(groups[1..])
  }

  function Encode(m: Message): bytes {
    Header(m.template) + m.fixed + Lengths(m.strings) + GroupsBytes(m.groups) + Concat(m.strings)
  }

  // The writer refuses what does not fit its buffer.
  predicate Accepted(m: Message) {
    |Encode(m)| <= BUFFER_SIZE
  }

  // --- decoding -----------------------------------------------------------

  function ReadLengths(s: bytes, at: nat, n: nat): seq<nat>
    requires at + 4 * n <= |s|
    decreases n
  {
    if n == 0 then [] else [At(s, at, 4)] + ReadLengths(s, at + 4, n - 1)
  }

  function Sum(lengths: seq<nat>): nat {
    if lengths == [] then 0 else lengths[0] + Sum(lengths[1..])
  }

  function ReadStrings(s: bytes, at: nat, lengths: seq<nat>): seq<bytes>
    requires at + Sum(lengths) <= |s|
    decreases |lengths|
  {
    if lengths == [] then [] else [s[at..at + lengths[0]]] + ReadStrings(s, at + lengths[0], lengths[1..])
  }

  function GroupLength(s: bytes, at: nat): nat
    requires at + 4 <= |s|
  {
    At(s, at, 2) * At(s, at + 2, 2)
  }

  datatype GroupWalk = OverLimit | Walked(groups: seq<bytes>, end: nat)

  // Walk over `n` groups from `at`; OverLimit where the walk would leave the limit.
  function ReadGroups(s: bytes, at: nat, n: nat, limit: nat): GroupWalk
    requires limit <= |s|
    decreases n
  {
    if n == 0 then Walked([], at)
    else if at + 4 > limit then OverLimit
    else
      var end := at + 4 + GroupLength(s, at);
      if end > limit then OverLimit
      else
        match ReadGroups(s, end, n - 1, limit)
        case OverLimit => OverLimit
        case Walked(rest, stop) => Walked([s[at + 4..end]] + rest, stop)
  }

  // What a reader makes of its buffer: `limit` bytes of it are from the file.
  datatype Parsed =
    | Delivered(message: Message, length: nat)
    | Skipped(length: nat)
    | Incomplete
    | TooSmall

  function ParseBody(s: bytes, t: Template, block: nat, limit: nat): Parsed
    requires |s| == BUFFER_SIZE && HEADER_LENGTH + block <= limit <= |s|
  {
    var at := HEADER_LENGTH + block;
    match ReadGroups(s, at, t.GroupCount(), limit)
    case OverLimit => TooSmall
    case Walked(groups, end) =>
      var lengths := ReadLengths(s, HEADER_LENGTH + t.FixedLength(), t.StringCount());
      var total := end + Sum(lengths);
      if total - HEADER_LENGTH > BUFFER_SIZE || limit < total then TooSmall
      else
        var fixed := s[HEADER_LENGTH..HEADER_LENGTH + t.FixedLength()];
        Delivered(Message(t, fixed, ReadStrings(s, end, lengths), groups), total)
  }

  function Parse(s: bytes, limit: nat): Parsed
    requires |s| == BUFFER_SIZE && limit <= |s|
  {
    if limit < HEADER_LENGTH then Incomplete
    else
      var block := At(s, 0, 2);
      if limit < HEADER_LENGTH + block then Incomplete
      else
        match TemplateOf(At(s, 2, 2))
        case None => Skipped(HEADER_LENGTH + block)
        case Some(t) => ParseBody(s, t, block, limit)
  }

  // --- the round trip -----------------------------------------------------

  // `part` stands in `s` at `i`.
  predicate Holds(s: bytes, i: nat, part: bytes) {
    i + |part| <= |s| && forall k :: 0 <= k < |part| ==> s[i + k] == part[k]
  }

  lemma HoldsSlice(s: bytes, i: nat, part: bytes)
    requires Holds(s, i, part)
    ensures s[i..i + |part|] == part
  {
  }

  lemma HoldsSplit(s: bytes, i: nat, x: bytes, y: bytes)
    requires Holds(s, i, x + y)
    ensures Holds(s, i, x) && Holds(s, i + |x|, y)
  {
    assert forall k :: 0 <= k < |x| ==> (x + y)[k] == x[k];
    forall k | 0 <= k < |y| ensures s[i + |x| + k] == y[k] {
      assert (x + y)[|x| + k] == y[k];
    }
  }

  lemma HoldsLE(s: bytes, i: nat, n: nat, k: nat)
    requires Holds(s, i, LE(n, k)) && n < Pow256(k)
    ensures At(s, i, k) == n
  {
    LERoundTrip(n, k);
    HoldsSlice(s, i, LE(n, k));
  }

  lemma Widths()
    ensures Pow256(2) == 65536 && Pow256(4) == 4294967296
  {
    assert Pow256(1) == 256 * Pow256(0);
    assert Pow256(3) == 256 * Pow256(2);
  }

  function LengthsOf(strings: seq<bytes>): seq<nat> {
    if strings == [] then [] else [|strings[0]|] + LengthsOf(strings[1..])
  }

  lemma {:induction false} ReadLengthsBack(s: bytes, at: nat, strings: seq<bytes>)
    requires Holds(s, at, Lengths(strings)) && forall x :: x in strings ==> |x| < Pow256(4)
    ensures ReadLengths(s, at, |strings|) == LengthsOf(strings)
    decreases |strings|
  {
    if strings != [] {
      HoldsSplit(s, at, LE(|strings[0]|, 4), Lengths(strings[1..]));
      HoldsLE(s, at, |strings[0]|, 4);
      ReadLengthsBack(s, at + 4, strings[1..]);
      ReadLengthsStep(s, at, |strings|);
    }
  }

  lemma ReadLengthsStep(s: bytes, at: nat, n: nat)
    requires n > 0 && at + 4 * n <= |s|
    ensures ReadLengths(s, at, n) == [At(s, at, 4)] + ReadLengths(s, at + 4, n - 1)
  {
  }

  lemma {:induction false} ConcatLength(strings: seq<bytes>)
    ensures |Concat(strings)| == Sum(LengthsOf(strings))
    ensures forall x :: x in strings ==> |x| <= |Concat(strings)|
  {
    if strings != [] {
      ConcatLength(strings[1..]);
      assert LengthsOf(strings)[1..] == LengthsOf(strings[1..]);
    }
  }

  lemma {:induction false} ReadStringsBack(s: bytes, at: nat, strings: seq<bytes>)
    requires Holds(s, at, Concat(strings))
    ensures at + Sum(LengthsOf(strings)) <= |s|
    ensures ReadStrings(s, at, LengthsOf(strings)) == strings
    decreases |strings|
  {
    ConcatLength(strings);
    if strings != [] {
      var first, rest := strings[0], strings[1..];
      HoldsSplit(s, at, first, Concat(rest));
      HoldsSlice(s, at, first);
      ReadStringsBack(s, at + |first|, rest);
      assert LengthsOf(strings) == [|first|] + LengthsOf(rest);
      ReadStringsStep(s, at, |first|, LengthsOf(rest));
      assert strings == [first] + rest;
    }
  }

  lemma ReadStringsStep(s: bytes, at: nat, length: nat, lengths: seq<nat>)
    requires at + length + Sum(lengths) <= |s|
    ensures Sum([length] + lengths) == length + Sum(lengths)
    ensures ReadStrings(s, at, [length] + lengths) == [s[at..at + length]] + ReadStrings(s, at + length, lengths)
  {
    assert ([length] + lengths)[1..] == lengths;
  }

  predicate SmallGroup(g: bytes) {
    GroupOk(g) && |g| <= BUFFER_SIZE
  }

  lemma OneGroupBack(s: bytes, at: nat, g: bytes)
    requires Holds(s, at, GroupBytes(g)) && SmallGroup(g)
    ensures |GroupBytes(g)| == 4 + |g|
    ensures GroupLength(s, at) == |g|
    ensures s[at + 4..at + 4 + |g|] == g
  {
    Widths();
    var count := |g| / LEVEL_LENGTH;
    HoldsSplit(s, at, LE(LEVEL_LENGTH, 2) + LE(count, 2), g);
    HoldsSplit(s, at, LE(LEVEL_LENGTH, 2), LE(count, 2));
    HoldsLE(s, at, LEVEL_LENGTH, 2);
    HoldsLE(s, at + 2, count, 2);
    HoldsSlice(s, at + 4, g);
  }

  lemma {:induction false} ReadGroupsBack(s: bytes, at: nat, groups: seq<bytes>, limit: nat)
    requires limit <= |s| && at + |GroupsBytes(groups)| <= limit
    requires Holds(s, at, GroupsBytes(groups))
    requires forall g :: g in groups ==> SmallGroup(g)
    ensures ReadGroups(s, at, |groups|, limit) == Walked(groups, at + |GroupsBytes(groups)|)
    decreases |groups|
  {
    if groups != [] {
      FirstGroupHolds(s, at, groups);
      var end := at + 4 + |groups[0]|;
      OneGroupBack(s, at, groups[0]);
      ReadGroupsBack(s, end, groups[1..], limit);
      FirstGroupBack(s, at, groups, limit, end + |GroupsBytes(groups[1..])|);
    }
  }

  lemma FirstGroupBack(s: bytes, at: nat, groups: seq<bytes>, limit: nat, stop: nat)
    requires groups != [] && SmallGroup(groups[0]) && Holds(s, at, GroupBytes(groups[0]))
    requires at + 4 + |groups[0]| <= limit <= |s|
    requires ReadGroups(s, at + 4 + |groups[0]|, |groups| - 1, limit) == Walked(groups[1..], stop)
    ensures ReadGroups(s, at, |groups|, limit) == Walked(groups, stop)
  {
    OneGroupBack(s, at, groups[0]);
    ReadGroupsStep(s, at, |groups|, limit, at + 4 + |groups[0]|, groups[1..], stop);
    assert groups == [groups[0]] + groups[1..];
  }

  lemma FirstGroupHolds(s: bytes, at: nat, groups: seq<bytes>)
    requires groups != [] && Holds(s, at, GroupsBytes(groups))
    ensures |GroupsBytes(groups)| == |GroupBytes(groups[0])| + |GroupsBytes(groups[1..])|
    ensures Holds(s, at, GroupBytes(groups[0]))
    ensures Holds(s, at + |GroupBytes(groups[0])|, GroupsBytes(groups[1..]))
  {
    HoldsSplit(s, at, GroupBytes(groups[0]), GroupsBytes(groups[1..]));
  }

  lemma ReadGroupsStep(s: bytes, at: nat, n: nat, limit: nat, end: nat, rest: seq<bytes>, stop: nat)
    requires 0 < n && limit <= |s| && at + 4 <= limit && end == at + 4 + GroupLength(s, at) <= limit
    requires ReadGroups(s, end, n - 1, limit) == Walked(rest, stop)
    ensures ReadGroups(s, at, n, limit) == Walked([s[at + 4..end]] + rest, stop)
  {
  }

  lemma {:induction false} GroupSizes(groups: seq<bytes>)
    ensures forall g :: g in groups ==> |g| + 4 <= |GroupsBytes(groups)|
  {
    if groups != [] {
      GroupSizes(groups[1..]);
    }
  }

  lemma HeaderBack(s: bytes, t: Template)
    requires Holds(s, 0, Header(t))
    ensures At(s, 0, 2) == t.BlockLength() && At(s, 2, 2) == t.Id() && TemplateOf(t.Id()) == Some(t)
  {
    Widths();
    var a, b, c := LE(t.BlockLength(), 2), LE(t.Id(), 2), LE(SCHEMA_ID, 2) + LE(SCHEMA_VERSION, 2);
    assert Header(t) == a + (b + c);
    HoldsSplit(s, 0, a, b + c);
    HoldsSplit(s, 2, b, c);
    HoldsLE(s, 0, t.BlockLength(), 2);
    HoldsLE(s, 2, t.Id(), 2);
  }

  function StringsStart(m: Message): nat {
    HEADER_LENGTH + m.template.BlockLength() + |GroupsBytes(m.groups)|
  }

  // The pieces of a message, each at its place.
  predicate PiecesHold(s: bytes, m: Message) {
    && Holds(s, HEADER_LENGTH, m.fixed)
    && Holds(s, HEADER_LENGTH + m.template.FixedLength(), Lengths(m.strings))
    && Holds(s, HEADER_LENGTH + m.template.BlockLength(), GroupsBytes(m.groups))
    && Holds(s, StringsStart(m), Concat(m.strings))
  }

  lemma EncodeSplit(s: bytes, m: Message)
    requires Holds(s, 0, Encode(m)) && |m.fixed| == m.template.FixedLength() && |m.strings| == m.template.StringCount()
    ensures Holds(s, 0, Header(m.template)) && PiecesHold(s, m)
    ensures |Encode(m)| == StringsStart(m) + |Concat(m.strings)|
  {
    var h, l, g, c := Header(m.template), Lengths(m.strings), GroupsBytes(m.groups), Concat(m.strings);
    HoldsSplit(s, 0, h + m.fixed + l + g, c);
    HoldsSplit(s, 0, h + m.fixed + l, g);
    HoldsSplit(s, 0, h + m.fixed, l);
    HoldsSplit(s, 0, h, m.fixed);
  }

  // The pieces found, the message is put together.
  lemma ParseBodyStep(s: bytes, t: Template, block: nat, limit: nat, groups: seq<bytes>, end: nat, lengths: seq<nat>)
    requires |s| == BUFFER_SIZE && HEADER_LENGTH + block <= limit <= |s|
    requires ReadGroups(s, HEADER_LENGTH + block, t.GroupCount(), limit) == Walked(groups, end)
    requires ReadLengths(s, HEADER_LENGTH + t.FixedLength(), t.StringCount()) == lengths
    requires end + Sum(lengths) <= limit
    ensures ParseBody(s, t, block, limit) ==
            Delivered(Message(t, s[HEADER_LENGTH..HEADER_LENGTH + t.FixedLength()], ReadStrings(s, end, lengths),
                              groups),
                      end + Sum(lengths))
  {
  }

  lemma StringsBack(s: bytes, limit: nat, m: Message)
    requires |s| == BUFFER_SIZE && limit <= |s| && WellFormed(m) && PiecesHold(s, m)
    ensures ReadLengths(s, HEADER_LENGTH + m.template.FixedLength(), m.template.StringCount()) == LengthsOf(m.strings)
    ensures Sum(LengthsOf(m.strings)) == |Concat(m.strings)|
    ensures ReadStrings(s, StringsStart(m), LengthsOf(m.strings)) == m.strings
  {
    ConcatLength(m.strings);
    Widths();
    ReadLengthsBack(s, HEADER_LENGTH + m.template.FixedLength(), m.strings);
    ReadStringsBack(s, StringsStart(m), m.strings);
  }

  lemma GroupsBack(s: bytes, limit: nat, m: Message)
    requires |s| == BUFFER_SIZE && limit <= |s| && WellFormed(m) && PiecesHold(s, m) && StringsStart(m) <= limit
    ensures ReadGroups(s, HEADER_LENGTH + m.template.BlockLength(), m.template.GroupCount(), limit) ==
            Walked(m.groups, StringsStart(m))
  {
    GroupSizes(m.groups);
    ReadGroupsBack(s, HEADER_LENGTH + m.template.BlockLength(), m.groups, limit);
  }

  lemma ParseBodyBack(s: bytes, limit: nat, m: Message)
    requires |s| == BUFFER_SIZE && limit <= |s| && WellFormed(m) && PiecesHold(s, m)
    requires StringsStart(m) + |Concat(m.strings)| <= limit
    ensures ParseBody(s, m.template, m.template.BlockLength(), limit)
            == Delivered(m, StringsStart(m) + |Concat(m.strings)|)
  {
    FixedBack(s, m);
    StringsBack(s, limit, m);
    GroupsBack(s, limit, m);
    ParseBodyStep(s, m.template, m.template.BlockLength(), limit, m.groups, StringsStart(m), LengthsOf(m.strings));
  }

  lemma FixedBack(s: bytes, m: Message)
    requires WellFormed(m) && Holds(s, HEADER_LENGTH, m.fixed)
    ensures HEADER_LENGTH + m.template.FixedLength() <= |s|
    ensures s[HEADER_LENGTH..HEADER_LENGTH + m.template.FixedLength()] == m.fixed
  {
    HoldsSlice(s, HEADER_LENGTH, m.fixed);
  }

  // Whatever follows it in the buffer, an accepted message is read back whole,
  // and the reader advances by exactly the bytes the writer wrote.
  lemma ParseEncoded(s: bytes, limit: nat, m: Message)
    requires |s| == BUFFER_SIZE && limit <= |s|
    requires WellFormed(m) && |Encode(m)| <= limit && Holds(s, 0, Encode(m))
    ensures Parse(s, limit) == Delivered(m, |Encode(m)|)
  {
    EncodeSplit(s, m);
    HeaderBack(s, m.template);
    ParseBodyBack(s, limit, m);
  }
}
