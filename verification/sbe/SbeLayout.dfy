// The bytes of a frame, one by one, and the frames a reader passes over.
module SbeLayout {
  // Simple Binary Encoding 1.0 with the byte order little-endian: the message
  // header of section 3.2 and the group dimensions of section 3.4.

  import opened Common
  import opened SbeCodec
  import opened SbeQueue

  // --- the bytes of a frame -----------------------------------------------

  // Two bytes, the low one first.
  function Two(n: nat): bytes {
    [n % 256, n / 256 % 256]
  }

  function Four(n: nat): bytes {
    [n % 256, n / 256 % 256, n / 65536 % 256, n / 16777216 % 256]
  }

  lemma TwoIs(n: nat)
    ensures LE(n, 2) == Two(n)
  {
    assert LE(n / 256, 1) == [n / 256 % 256] + LE(n / 256 / 256, 0);
  }

  lemma FourIs(n: nat)
    ensures LE(n, 4) == Four(n)
  {
    assert LE(n, 4) == [n % 256] + LE(n / 256, 3);
    assert LE(n / 256, 3) == [n / 256 % 256] + LE(n / 256 / 256, 2);
    TwoIs(n / 256 / 256);
    assert n / 256 / 256 == n / 65536 && n / 65536 / 256 == n / 16777216;
  }

  // The number a template has on the wire and the length of its root block.
  function WireId(t: Template): nat {
    match t
    case ConnectionStatus => 100
    case SecurityDefinition => 101
    case SecurityStatus => 102
    case MDUpdate => 103
    case MDFullBook => 104
    case NewOrder => 105
    case CancelOrder => 106
    case AmendOrder => 109
  }

  function WireBlock(t: Template): nat {
    match t
    case ConnectionStatus => 9
    case SecurityDefinition => 84
    case SecurityStatus => 13
    case MDUpdate => 40
    case MDFullBook => 12
    case NewOrder => 36
    case CancelOrder => 20
    case AmendOrder => 36
  }

  // A frame starts with the length of the root block, the template, schema 1 and
  // version 1, in two bytes each.
  lemma HeaderBytes(m: Message)
    ensures Encode(m)[..8] == Two(WireBlock(m.template)) + Two(WireId(m.template)) + [1, 0] + [1, 0]
  {
    TwoIs(WireBlock(m.template));
    TwoIs(WireId(m.template));
    TwoIs(1);
    Assoc4(Header(m.template), m.fixed, Lengths(m.strings), GroupsBytes(m.groups), Concat(m.strings));
  }

  lemma Assoc4(a: bytes, b: bytes, c: bytes, d: bytes, e: bytes)
    ensures (a + b + c + d + e)[..|a|] == a
  {
  }

  // A string has its length in four bytes in the block, a group the length of a
  // level and the number of levels in two bytes each, before the levels.
  lemma {:induction false} SlotBytes(strings: seq<bytes>, i: nat)
    requires i < |strings|
    ensures Holds(Lengths(strings), 4 * i, Four(|strings[i]|))
  {
    var first, rest := LE(|strings[0]|, 4), Lengths(strings[1..]);
    if i == 0 {
      FourIs(|strings[0]|);
      HoldsFirst(first, rest);
    } else {
      SlotBytes(strings[1..], i - 1);
      HoldsLater(first, rest, 4 * (i - 1), Four(|strings[i]|));
    }
  }

  lemma HoldsFirst(first: bytes, rest: bytes)
    ensures Holds(first + rest, 0, first)
  {
  }

  lemma HoldsLater(first: bytes, rest: bytes, j: nat, part: bytes)
    requires Holds(rest, j, part)
    ensures Holds(first + rest, |first| + j, part)
  {
    forall k | 0 <= k < |part| ensures (first + rest)[|first| + j + k] == part[k] {
      assert (first + rest)[|first| + (j + k)] == rest[j + k];
    }
  }

  lemma DimensionBytes(g: bytes)
    ensures GroupBytes(g) == [16, 0] + Two(|g| / 16) + g
  {
    TwoIs(16);
    TwoIs(|g| / 16);
  }

  // --- frames of other templates ------------------------------------------

  // A frame of a template this reader does not know, with `block` bytes after
  // the header.
  predicate IsForeign(s: bytes, limit: nat, id: nat, block: nat) {
    && |s| == BUFFER_SIZE && limit <= |s| && 8 + block <= limit && block < 65536 && id < 65536
    && id !in {100, 101, 102, 103, 104, 105, 106, 109}
    && Holds(s, 0, Two(block) + Two(id))
  }

  // It is passed over, header and block, and nothing is delivered.
  lemma ForeignPassedOver(r: Reader, id: nat, block: nat)
    requires ReaderOk(r) && IsForeign(r.buffer, r.limit, id, block)
    ensures Advance(r) == (r.(position := r.position + 8 + block), true)
  {
    TwoIs(block);
    TwoIs(id);
    Widths();
    HoldsSplit(r.buffer, 0, LE(block, 2), LE(id, 2));
    HoldsLE(r.buffer, 0, block, 2);
    HoldsLE(r.buffer, 2, id, 2);
  }

  // --- polls that fail ----------------------------------------------------

  function StuckTimes(r: Reader, k: nat): Reader {
    if k == 0 then r else Stuck(StuckTimes(r, k - 1))
  }

  // Polls that fail at one place are counted from one, or from where the count
  // stood if the last failure was there too; nothing else changes.
  lemma {:induction false} FailuresAreCounted(r: Reader, k: nat)
    requires k > 0
    ensures StuckTimes(r, k) ==
            r.(lastStuckAt := r.position, failedPolls := k + if r.position == r.lastStuckAt then r.failedPolls else 0)
  {
    if k > 1 {
      FailuresAreCounted(r, k - 1);
    } else {
      assert StuckTimes(r, 0) == r;
    }
  }
}
