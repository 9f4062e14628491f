// Every well-formed market-data message, once printed, carries its event.
module PrintedMessages {
  // The groups the reader cuts out of it are its entries.

  import opened Common
  import opened Decimal
  import opened DeribitModel
  import opened FileModel
  import opened LightFix
  import opened Timestamp

  // --- messages -----------------------------------------------------------

  const TAG_MSG_TYPE := 35

  function Flat(gs: seq<seq<Field>>): seq<Field> {
    if gs == [] then [] else Flat(gs[..|gs| - 1]) + gs[|gs| - 1]
  }

  function MessageOf(header: seq<Field>, gs: seq<seq<Field>>, trailer: seq<Field>): seq<Field> {
    header + Flat(gs) + trailer
  }

  predicate HasTag(fs: seq<Field>, tag: int) {
    exists i :: 0 <= i < |fs| && fs[i].tag == tag
  }

  // The header announces the entries and does not look like one.
  ghost predicate HeaderOf(header: seq<Field>, delimiter: int, symbol: string, time: int, count: nat) {
    && AllPrintable(header) && !HasTag(header, delimiter)
    && HasTag(header, TAG_SYMBOL) && FieldValue(header, TAG_SYMBOL) == symbol
    && HasTag(header, TAG_ENTRIES) && FieldValue(header, TAG_ENTRIES) == Digits(count) && count < INT_LIMIT
    && HasTag(header, TAG_SENDING_TIME) && WellFormed(FieldValue(header, TAG_SENDING_TIME))
    && time == Parsed(FieldValue(header, TAG_SENDING_TIME))
  }

  // The trailer ends up in the last group, so it must not read as part of it.
  ghost predicate TrailerOf(trailer: seq<Field>) {
    && AllPrintable(trailer)
    && forall i :: 0 <= i < |trailer| ==>
         trailer[i].tag !in {TAG_TYPE, TAG_ACTION, TAG_PRICE, TAG_SIZE, TAG_SIDE, TAG_TRADE_ID}
  }

  // --- groups -------------------------------------------------------------

  lemma {:induction false} PositionsOfPlain(fs: seq<Field>, more: seq<Field>, tag: int)
    requires !HasTag(more, tag)
    ensures Positions(fs + more, tag) == Positions(fs, tag)
    decreases |more|
  {
    if more == [] {
      assert fs + more == fs;
    } else {
      var n := |more| - 1;
      assert (fs + more)[..|fs + more| - 1] == fs + more[..n];
      PositionsOfPlain(fs, more[..n], tag);
      assert more[n].tag != tag;
    }
  }

  // A group: it starts with the delimiter and holds no other.
  ghost predicate GroupOf(g: seq<Field>, delimiter: int) {
    g != [] && g[0].tag == delimiter && !HasTag(g[1..], delimiter)
  }

  lemma PositionsOfGroup(fs: seq<Field>, g: seq<Field>, delimiter: int)
    requires GroupOf(g, delimiter)
    ensures Positions(fs + g, delimiter) == Positions(fs, delimiter) + [|fs|]
  {
    assert fs + g == fs + [g[0]] + g[1..];
    PositionsOfPlain(fs + [g[0]], g[1..], delimiter);
    assert (fs + [g[0]])[..|fs|] == fs;
  }

  // Where the i-th group starts, counted from the end of the header.
  function Start(gs: seq<seq<Field>>, i: nat): nat
    requires i <= |gs|
  {
    |Flat(gs[..i])|
  }

  // The delimiters are where the groups start.
  ghost predicate StartsAt(fs: seq<Field>, delimiter: int, base: nat, gs: seq<seq<Field>>) {
    && |Positions(fs, delimiter)| == |gs|
    && forall k :: 0 <= k < |gs| ==> Positions(fs, delimiter)[k] == base + Start(gs, k)
  }

  lemma OneMoreGroup(fs: seq<Field>, delimiter: int, base: nat, gs: seq<seq<Field>>, n: nat)
    requires n + 1 == |gs| && StartsAt(fs, delimiter, base, gs[..n]) && |fs| == base + Start(gs, n)
    requires GroupOf(gs[n], delimiter)
    ensures StartsAt(fs + gs[n], delimiter, base, gs)
  {
    PositionsOfGroup(fs, gs[n], delimiter);
    forall k | 0 <= k < n ensures Start(gs[..n], k) == Start(gs, k) {
      assert gs[..n][..k] == gs[..k];
    }
  }

  lemma {:induction false} PositionsOfGroups(header: seq<Field>, gs: seq<seq<Field>>, delimiter: int)
    requires !HasTag(header, delimiter) && forall i :: 0 <= i < |gs| ==> GroupOf(gs[i], delimiter)
    ensures StartsAt(header + Flat(gs), delimiter, |header|, gs)
    decreases |gs|
  {
    if gs == [] {
      assert header + Flat(gs) == [] + header;
      PositionsOfPlain([], header, delimiter);
    } else {
      var n := |gs| - 1;
      PositionsOfGroups(header, gs[..n], delimiter);
      OneMoreGroup(header + Flat(gs[..n]), delimiter, |header|, gs, n);
      Assoc(header, Flat(gs[..n]), gs[n]);
    }
  }

  // What stands from position `s` up to `t`.
  ghost predicate Cut(fs: seq<Field>, s: nat, t: nat, g: seq<Field>) {
    s <= t <= |fs| && |g| == t - s && forall k :: 0 <= k < |g| ==> fs[s + k] == g[k]
  }

  lemma CutWithin(a: seq<Field>, b: seq<Field>, c: seq<Field>, s: nat, t: nat, g: seq<Field>)
    requires Cut(b, s, t, g)
    ensures Cut(a + b + c, |a| + s, |a| + t, g)
    ensures t == |b| ==> Cut(a + b + c, |a| + s, |a + b + c|, g + c)
  {
  }

  lemma {:induction false} Segment(gs: seq<seq<Field>>, i: nat)
    requires i < |gs|
    ensures Cut(Flat(gs), Start(gs, i), Start(gs, i + 1), gs[i])
    ensures i + 1 == |gs| ==> Start(gs, i + 1) == |Flat(gs)|
    decreases |gs|
  {
    var n := |gs| - 1;
    assert gs[..i + 1][..i] == gs[..i];
    if i == n {
      assert gs[..i + 1] == gs;
    } else {
      Segment(gs[..n], i);
      assert gs[..n][..i] == gs[..i] && gs[..n][..i + 1] == gs[..i + 1];
    }
  }

  lemma GroupBetween(fs: seq<Field>, delimiter: int, base: nat, gs: seq<seq<Field>>, i: nat)
    requires StartsAt(fs, delimiter, base, gs) && i < |gs|
    ensures base + Start(gs, i) <= GroupEnd(fs, delimiter, i) <= |fs|
    ensures GroupEnd(fs, delimiter, i) == if i + 1 < |gs| then base + Start(gs, i + 1) else |fs|
    ensures Group(fs, delimiter, i) == fs[base + Start(gs, i)..GroupEnd(fs, delimiter, i)]
  {
  }

  // The i-th group as the reader should find it: the last has the trailer on it.
  function Expected(gs: seq<seq<Field>>, trailer: seq<Field>, i: nat): seq<Field>
    requires i < |gs|
  {
    if i + 1 < |gs| then gs[i] else gs[i] + trailer
  }

  ghost predicate CutAt(fs: seq<Field>, base: nat, gs: seq<seq<Field>>, trailer: seq<Field>, i: nat)
    requires i < |gs|
  {
    var end := if i + 1 < |gs| then base + Start(gs, i + 1) else |fs|;
    Cut(fs, base + Start(gs, i), end, Expected(gs, trailer, i))
  }

  lemma GroupIs(fs: seq<Field>, delimiter: int, base: nat, gs: seq<seq<Field>>, trailer: seq<Field>, i: nat)
    requires StartsAt(fs, delimiter, base, gs) && i < |gs| && CutAt(fs, base, gs, trailer, i)
    ensures Group(fs, delimiter, i) == Expected(gs, trailer, i)
  {
    GroupBetween(fs, delimiter, base, gs, i);
  }

  lemma CutsOfMessage(header: seq<Field>, gs: seq<seq<Field>>, trailer: seq<Field>, i: nat)
    requires i < |gs|
    ensures CutAt(header + Flat(gs) + trailer, |header|, gs, trailer, i)
  {
    Segment(gs, i);
    CutWithin(header, Flat(gs), trailer, Start(gs, i), Start(gs, i + 1), gs[i]);
  }

  lemma PositionsOfMessage(header: seq<Field>, gs: seq<seq<Field>>, trailer: seq<Field>, delimiter: int)
    requires !HasTag(header, delimiter) && !HasTag(trailer, delimiter)
    requires forall k :: 0 <= k < |gs| ==> GroupOf(gs[k], delimiter)
    ensures StartsAt(header + Flat(gs) + trailer, delimiter, |header|, gs)
  {
    PositionsOfPlain(header + Flat(gs), trailer, delimiter);
    PositionsOfGroups(header, gs, delimiter);
  }

  // --- values -------------------------------------------------------------

  lemma {:induction false} ValueOfConcat(xs: seq<Field>, ys: seq<Field>, tag: int)
    requires HasTag(xs, tag) || !HasTag(ys, tag)
    ensures FieldValue(xs + ys, tag) == FieldValue(xs, tag)
  {
    if xs == [] {
      assert xs + ys == ys;
      NoValue(ys, tag);
    } else {
      TailOfConcat(xs, ys);
      if xs[0].tag != tag {
        assert HasTag(xs, tag) ==> HasTag(xs[1..], tag) by {
          if i :| 0 <= i < |xs| && xs[i].tag == tag {
            assert xs[1..][i - 1].tag == tag;
          }
        }
        ValueOfConcat(xs[1..], ys, tag);
      }
    }
  }

  lemma {:induction false} NoValue(fs: seq<Field>, tag: int)
    requires !HasTag(fs, tag)
    ensures FieldValue(fs, tag) == ""
  {
    if fs != [] {
      assert fs[0].tag != tag;
      assert forall i :: 0 <= i < |fs| - 1 ==> fs[1..][i] == fs[i + 1];
      NoValue(fs[1..], tag);
    }
  }

  lemma TrailerCarries(g: seq<Field>, trailer: seq<Field>, e: MdEntry)
    requires CarriesEntry(g, e) && TrailerOf(trailer)
    ensures CarriesEntry(g + trailer, e)
  {
    ValueOfConcat(g, trailer, TAG_TYPE);
    ValueOfConcat(g, trailer, TAG_ACTION);
    ValueOfConcat(g, trailer, TAG_PRICE);
    ValueOfConcat(g, trailer, TAG_SIZE);
    ValueOfConcat(g, trailer, TAG_SIDE);
    ValueOfConcat(g, trailer, TAG_TRADE_ID);
  }

  lemma HeaderValues(header: seq<Field>, rest: seq<Field>)
    requires HasTag(header, TAG_SYMBOL) && HasTag(header, TAG_ENTRIES) && HasTag(header, TAG_SENDING_TIME)
    ensures FieldValue(header + rest, TAG_SYMBOL) == FieldValue(header, TAG_SYMBOL)
    ensures FieldValue(header + rest, TAG_ENTRIES) == FieldValue(header, TAG_ENTRIES)
    ensures FieldValue(header + rest, TAG_SENDING_TIME) == FieldValue(header, TAG_SENDING_TIME)
  {
    ValueOfConcat(header, rest, TAG_SYMBOL);
    ValueOfConcat(header, rest, TAG_ENTRIES);
    ValueOfConcat(header, rest, TAG_SENDING_TIME);
  }

  // --- whole messages -----------------------------------------------------

  // A group for each entry: it starts with the delimiter, holds no other, and
  // carries the entry, in whatever order and beside whatever other fields.
  ghost predicate GroupsFor(gs: seq<seq<Field>>, delimiter: int, entries: seq<MdEntry>) {
    && |gs| == |entries|
    && forall i :: 0 <= i < |gs| ==> GroupOf(gs[i], delimiter) && AllPrintable(gs[i]) && CarriesEntry(gs[i], entries[i])
  }

  lemma GroupsCarry(fs: seq<Field>, delimiter: int, base: nat, gs: seq<seq<Field>>, entries: seq<MdEntry>,
                    trailer: seq<Field>)
    requires TrailerOf(trailer) && GroupsFor(gs, delimiter, entries) && StartsAt(fs, delimiter, base, gs)
    requires forall i :: 0 <= i < |gs| ==> CutAt(fs, base, gs, trailer, i)
    ensures CarriesEntries(fs, delimiter, entries)
  {
    forall i | 0 <= i < |entries| ensures CarriesEntry(Group(fs, delimiter, i), entries[i]) {
      GroupIs(fs, delimiter, base, gs, trailer, i);
      TrailerCarries(gs[i], trailer, entries[i]);
    }
  }

  // The groups the reader cuts out of the message are the entries, one each.
  lemma MessageCarriesEntries(header: seq<Field>, delimiter: int, gs: seq<seq<Field>>, entries: seq<MdEntry>,
                              trailer: seq<Field>)
    requires (delimiter == TAG_TYPE || delimiter == TAG_ACTION) && !HasTag(header, delimiter) && TrailerOf(trailer)
    requires GroupsFor(gs, delimiter, entries)
    ensures CarriesEntries(MessageOf(header, gs, trailer), delimiter, entries)
  {
    PositionsOfMessage(header, gs, trailer, delimiter);
    forall i | 0 <= i < |gs| ensures CutAt(MessageOf(header, gs, trailer), |header|, gs, trailer, i) {
      CutsOfMessage(header, gs, trailer, i);
    }
    GroupsCarry(MessageOf(header, gs, trailer), delimiter, |header|, gs, entries, trailer);
  }

  lemma {:induction false} FlatPrintable(gs: seq<seq<Field>>)
    requires forall i :: 0 <= i < |gs| ==> AllPrintable(gs[i])
    ensures AllPrintable(Flat(gs))
  {
    if gs != [] {
      FlatPrintable(gs[..|gs| - 1]);
    }
  }

  // A printed message of any entries, of at most 512 fields, is read back as
  // it was and carries the entries.
  lemma PrintedCarries(header: seq<Field>, delimiter: int, symbol: string, time: int,
                       gs: seq<seq<Field>>, entries: seq<MdEntry>, trailer: seq<Field>)
    requires delimiter == TAG_TYPE || delimiter == TAG_ACTION
    requires HeaderOf(header, delimiter, symbol, time, |entries|) && TrailerOf(trailer)
    requires GroupsFor(gs, delimiter, entries) && |MessageOf(header, gs, trailer)| <= MAX_FIELDS
    ensures Carries(ParseFields(PrintFields(MessageOf(header, gs, trailer)), MAX_FIELDS),
                    delimiter, symbol, time, entries)
  {
    FlatPrintable(gs);
    ParsePrinted(MessageOf(header, gs, trailer), MAX_FIELDS);
    MessageCarriesEntries(header, delimiter, gs, entries, trailer);
    Assoc(header, Flat(gs), trailer);
    HeaderValues(header, Flat(gs) + trailer);
  }

  // --- the message type ---------------------------------------------------

  lemma ThirtyFive(n: nat)
    ensures |Digits(n)| == 2 && Digits(n)[0] == '3' && Digits(n)[1] == '5' ==> n == 35
  {
    var d := Digits(n);
    if |d| == 2 && d[0] == '3' && d[1] == '5' {
      assert d[..1] == "3" && Val(d) == 10 * Val(d[..1]) + DigitValue(d[1]);
      assert d[..1][..0] == "";
    }
  }

  lemma NotHere(f: Field, more: string, i: nat)
    requires Printable(f) && f.tag != TAG_MSG_TYPE && i < |PrintField(f)| && i + 4 < |PrintField(f) + more|
    ensures !TypeAt(PrintField(f) + more, i)
  {
    var text, digits := PrintField(f) + more, Digits(f.tag);
    assert PrintField(f) == digits + ("=" + (f.value + [SOH]));
    assert forall k :: 0 <= k < |digits| ==> text[k] == digits[k] && IsDigit(digits[k]);
    assert text[|digits|] == '=';
    ThirtyFive(f.tag);
    if i > 0 {
      var k := i - 1;
      assert text[k] == PrintField(f)[k];
      if k > |digits| {
        assert text[k] == f.value[k - |digits| - 1];
      }
    }
  }

  lemma {:induction false} PrintedAppend(xs: seq<Field>, ys: seq<Field>)
    ensures PrintFields(xs + ys) == PrintFields(xs) + PrintFields(ys)
  {
    if xs == [] {
      assert xs + ys == ys;
    } else {
      assert Texts(xs)[1..] == Texts(xs[1..]);
      assert Texts(xs + ys)[1..] == Texts(xs[1..] + ys) by {
        TailOfConcat(xs, ys);
      }
      PrintedAppend(xs[1..], ys);
      Assoc(PrintField(xs[0]), PrintFields(xs[1..]), PrintFields(ys));
    }
  }

  lemma FirstPrinted(fs: seq<Field>)
    requires fs != []
    ensures PrintFields(fs) == PrintField(fs[0]) + PrintFields(fs[1..])
  {
    assert Texts(fs)[1..] == Texts(fs[1..]);
  }

  lemma {:induction false} NotWithin(before: seq<Field>, more: string, i: nat)
    requires AllPrintable(before) && !HasTag(before, TAG_MSG_TYPE)
    requires i < |PrintFields(before)| && i + 4 < |PrintFields(before) + more|
    ensures !TypeAt(PrintFields(before) + more, i)
  {
    if before != [] {
      var first, rest := PrintField(before[0]), PrintFields(before[1..]);
      FirstPrinted(before);
      Assoc(first, rest, more);
      assert before[0].tag != TAG_MSG_TYPE;
      if i < |first| {
        NotHere(before[0], rest + more, i);
      } else {
        assert forall k :: 0 <= k < |before| - 1 ==> before[1..][k] == before[k + 1];
        NotWithin(before[1..], more, i - |first|);
      }
    }
  }

  lemma {:induction false} EndsWithSeparator(fs: seq<Field>)
    requires fs != []
    ensures PrintFields(fs) != "" && PrintFields(fs)[|PrintFields(fs)| - 1] == SOH
  {
    FirstPrinted(fs);
    if |fs| > 1 {
      EndsWithSeparator(fs[1..]);
    } else {
      assert PrintFields(fs[1..]) == "";
    }
  }

  lemma {:induction false} SkipTo(text: string, i: nat, j: nat)
    requires i <= j && j + 4 < Min(|text|, 64) && forall k :: i <= k < j ==> !TypeAt(text, k)
    ensures MsgTypeFrom(text, i) == MsgTypeFrom(text, j)
    decreases j - i
  {
    if i < j {
      SkipTo(text, i + 1, j);
    }
  }

  lemma TypePrinted(c: char)
    ensures PrintField(Field(TAG_MSG_TYPE, [c])) == "35=" + [c] + [SOH]
  {
    assert Digits(35) == Digits(3) + [DigitChar(5)];
  }

  // The message type is found where it stands, within the first 64 characters,
  // if no field before it has its tag.
  lemma TypeFound(before: seq<Field>, c: char, more: seq<Field>)
    requires AllPrintable(before) && !HasTag(before, TAG_MSG_TYPE) && |PrintFields(before)| + 5 <= 64
    ensures MsgTypeFrom(PrintFields(before + [Field(TAG_MSG_TYPE, [c])] + more), 0) == c
  {
    var f := Field(TAG_MSG_TYPE, [c]);
    var j := |PrintFields(before)|;
    PrintedAppend(before + [f], more);
    PrintedAppend(before, [f]);
    FirstPrinted([f]);
    TypePrinted(c);
    var tail := "35=" + [c] + [SOH] + PrintFields(more);
    var text := PrintFields(before) + tail;
    assert PrintFields(before + [f] + more) == text;
    forall k | 0 <= k < j ensures !TypeAt(text, k) {
      NotWithin(before, tail, k);
    }
    SkipTo(text, 0, j);
    if before != [] {
      EndsWithSeparator(before);
    }
    assert text[j] == '3' && text[j + 1] == '5' && text[j + 2] == '=' && text[j + 3] == c && text[j + 4] == SOH;
  }

  // Refreshes are of type X and snapshots of type W.
  function TypeLetter(delimiter: int): char {
    if delimiter == TAG_ACTION then 'X' else 'W'
  }

  function HeaderFields(before: seq<Field>, delimiter: int, after: seq<Field>): seq<Field> {
    before + [Field(TAG_MSG_TYPE, [TypeLetter(delimiter)])] + after
  }

  function EventOf(delimiter: int, symbol: string, time: int, entries: seq<MdEntry>): Event {
    if delimiter == TAG_ACTION then Incremental(symbol, time, entries) else Snapshot(symbol, time, entries)
  }

  lemma MessageType(before: seq<Field>, delimiter: int, after: seq<Field>, rest: seq<Field>, trailer: seq<Field>)
    requires AllPrintable(before) && !HasTag(before, TAG_MSG_TYPE) && |PrintFields(before)| + 5 <= 64
    ensures MsgTypeFrom(PrintFields(HeaderFields(before, delimiter, after) + rest + trailer), 0)
            == TypeLetter(delimiter)
  {
    var f := Field(TAG_MSG_TYPE, [TypeLetter(delimiter)]);
    assert before + [f] + after + rest + trailer == before + [f] + (after + rest + trailer);
    TypeFound(before, TypeLetter(delimiter), after + rest + trailer);
  }

  lemma CarriedIsFaithful(text: string, delimiter: int, symbol: string, time: int, entries: seq<MdEntry>)
    requires delimiter == TAG_TYPE || delimiter == TAG_ACTION
    requires MsgTypeFrom(text, 0) == TypeLetter(delimiter)
    requires Carries(ParseFields(text, MAX_FIELDS), delimiter, symbol, time, entries)
    ensures Faithful(text, EventOf(delimiter, symbol, time, entries))
  {
  }

  // Printed refreshes and snapshots of any entries are what the fast path
  // takes them for.
  lemma PrintedFaithful(before: seq<Field>, delimiter: int, after: seq<Field>, symbol: string, time: int,
                        gs: seq<seq<Field>>, entries: seq<MdEntry>, trailer: seq<Field>)
    requires delimiter == TAG_TYPE || delimiter == TAG_ACTION
    requires AllPrintable(before) && !HasTag(before, TAG_MSG_TYPE) && |PrintFields(before)| + 5 <= 64
    requires HeaderOf(HeaderFields(before, delimiter, after), delimiter, symbol, time, |entries|) && TrailerOf(trailer)
    requires GroupsFor(gs, delimiter, entries)
    requires |MessageOf(HeaderFields(before, delimiter, after), gs, trailer)| <= MAX_FIELDS
    ensures Faithful(PrintFields(MessageOf(HeaderFields(before, delimiter, after), gs, trailer)),
                     EventOf(delimiter, symbol, time, entries))
  {
    var header := HeaderFields(before, delimiter, after);
    PrintedCarries(header, delimiter, symbol, time, gs, entries, trailer);
    MessageType(before, delimiter, after, Flat(gs), trailer);
    CarriedIsFaithful(PrintFields(MessageOf(header, gs, trailer)), delimiter, symbol, time, entries);
  }

  // --- a plain way to write entries ---------------------------------------

  // The fields of one entry, the delimiter of the message first. An entry of a
  // snapshot starts with its type, one of a refresh with its action.
  function Block(delimiter: int, e: MdEntry): seq<Field> {
    var kind, action := Field(TAG_TYPE, [TypeChar(e.kind)]), Field(TAG_ACTION, ActionText(e.action));
    (if delimiter == TAG_ACTION then [action, kind] else if e.action.Some? then [kind, action] else [kind])
    + [Field(TAG_PRICE, e.price), Field(TAG_SIZE, e.size)]
    + (if e.kind == Trade then [Field(TAG_SIDE, [e.side])] else [])
    + (if e.kind == Trade && e.tradeId.Some? then [Field(TAG_TRADE_ID, TradeIdText(e.tradeId))] else [])
  }

  function Blocks(delimiter: int, entries: seq<MdEntry>): seq<seq<Field>> {
    seq(|entries|, i requires 0 <= i < |entries| => Block(delimiter, entries[i]))
  }

  // What can be sent at all: no value holds the separator, an action is one
  // letter and a trade id has 64 bits.
  ghost predicate Sendable(e: MdEntry) {
    && SOH !in e.price && SOH !in e.size
    && (e.action.Some? ==> |e.action.value| == 1 && e.action.value[0] != SOH)
    && (e.kind == Trade ==> e.side != SOH && (e.tradeId.Some? ==> e.tradeId.value < TWO64))
  }

  lemma BlockIsGroup(delimiter: int, e: MdEntry)
    requires delimiter == TAG_TYPE || delimiter == TAG_ACTION
    ensures GroupOf(Block(delimiter, e), delimiter)
    ensures Sendable(e) ==> AllPrintable(Block(delimiter, e))
  {
  }

  lemma {:induction false} FirstWithTag(fs: seq<Field>, k: nat, tag: int)
    requires k < |fs| && fs[k].tag == tag && forall i :: 0 <= i < k ==> fs[i].tag != tag
    ensures FieldValue(fs, tag) == fs[k].value
  {
    if k > 0 {
      FirstWithTag(fs[1..], k - 1, tag);
    }
  }

  lemma RefreshCarries(e: MdEntry)
    requires Sendable(e)
    ensures CarriesEntry(Block(TAG_ACTION, e), e)
  {
    var g := Block(TAG_ACTION, e);
    FirstWithTag(g, 0, TAG_ACTION);
    FirstWithTag(g, 1, TAG_TYPE);
    FirstWithTag(g, 2, TAG_PRICE);
    FirstWithTag(g, 3, TAG_SIZE);
    TradeCarries(g, 4, e);
  }

  lemma SnapshotCarries(e: MdEntry)
    requires Sendable(e)
    ensures CarriesEntry(Block(TAG_TYPE, e), e)
  {
    var g, head := Block(TAG_TYPE, e), if e.action.Some? then 2 else 1;
    FirstWithTag(g, 0, TAG_TYPE);
    FirstWithTag(g, head, TAG_PRICE);
    FirstWithTag(g, head + 1, TAG_SIZE);
    if e.action.Some? {
      FirstWithTag(g, 1, TAG_ACTION);
    } else {
      NoValue(g, TAG_ACTION);
    }
    TradeCarries(g, head + 2, e);
  }

  // What a trade has beside: its side, and an id that may be missing.
  lemma TradeCarries(g: seq<Field>, k: nat, e: MdEntry)
    requires e.kind == Trade ==> k < |g| <= k + 2 && g[k] == Field(TAG_SIDE, [e.side])
    requires e.kind == Trade ==> forall i :: 0 <= i < k ==> g[i].tag != TAG_SIDE && g[i].tag != TAG_TRADE_ID
    requires e.kind == Trade && e.tradeId.Some? ==>
               |g| == k + 2 && g[k + 1] == Field(TAG_TRADE_ID, TradeIdText(e.tradeId))
    requires e.kind == Trade && e.tradeId.None? ==> |g| == k + 1
    ensures e.kind == Trade ==>
              FieldValue(g, TAG_SIDE) == [e.side] && FieldValue(g, TAG_TRADE_ID) == TradeIdText(e.tradeId)
  {
    if e.kind == Trade {
      FirstWithTag(g, k, TAG_SIDE);
      if e.tradeId.Some? {
        FirstWithTag(g, k + 1, TAG_TRADE_ID);
      } else {
        NoValue(g, TAG_TRADE_ID);
      }
    }
  }

  // Every sendable list of entries has such groups ...
  lemma BlocksAreGroups(delimiter: int, entries: seq<MdEntry>)
    requires delimiter == TAG_TYPE || delimiter == TAG_ACTION
    requires forall i :: 0 <= i < |entries| ==> Sendable(entries[i])
    ensures GroupsFor(Blocks(delimiter, entries), delimiter, entries)
  {
    forall i | 0 <= i < |entries|
      ensures GroupOf(Block(delimiter, entries[i]), delimiter) && AllPrintable(Block(delimiter, entries[i]))
      ensures CarriesEntry(Block(delimiter, entries[i]), entries[i])
    {
      BlockIsGroup(delimiter, entries[i]);
      RefreshCarries(entries[i]);
      SnapshotCarries(entries[i]);
    }
  }

  // ... and keeps them when fields of other tags are added to one.
  lemma FurtherFields(delimiter: int, g: seq<Field>, more: seq<Field>, e: MdEntry)
    requires delimiter == TAG_TYPE || delimiter == TAG_ACTION
    requires GroupOf(g, delimiter) && AllPrintable(g) && CarriesEntry(g, e) && TrailerOf(more)
    ensures GroupOf(g + more, delimiter) && AllPrintable(g + more) && CarriesEntry(g + more, e)
  {
    TrailerCarries(g, more, e);
    assert (g + more)[1..] == g[1..] + more;
  }

  // The same by the numbers the FIX 4.4 dictionary gives the fields.
  function EntryByNumber(e: MdEntry): seq<Field> {
    [Field(269, if e.kind == Bid then "0" else if e.kind == Offer then "1" else "2"),
     Field(270, e.price), Field(271, e.size)]
    + (if e.kind == Trade then [Field(54, [e.side])] else [])
    + (if e.kind == Trade && e.tradeId.Some? then [Field(278, Digits(e.tradeId.value))] else [])
  }

  // MDUpdateAction is field 279, MDEntryType 269, MDEntryPx 270, MDEntrySize 271,
  // Side 54 and MDEntryID 278.
  lemma NumberedEntry(e: MdEntry)
    requires Sendable(e)
    ensures e.action.Some? ==> CarriesEntry([Field(279, e.action.value)] + EntryByNumber(e), e)
    ensures e.action.None? ==> CarriesEntry(EntryByNumber(e), e)
  {
    if e.action.Some? {
      RefreshCarries(e);
      assert Block(TAG_ACTION, e) == [Field(279, e.action.value)] + EntryByNumber(e);
    } else {
      SnapshotCarries(e);
      assert Block(TAG_TYPE, e) == EntryByNumber(e);
    }
  }

  // Symbol is field 55, NoMDEntries 268, SendingTime 52 and MsgType 35.
  lemma NumberedHeader(symbol: string, sent: string, count: nat, delimiter: int)
    requires (delimiter == TAG_TYPE || delimiter == TAG_ACTION) && count < 0x8000_0000
    requires SOH !in symbol && SOH !in sent && WellFormed(sent)
    ensures HeaderOf([Field(35, if delimiter == 279 then "X" else "W"), Field(52, sent), Field(55, symbol),
                      Field(268, Digits(count))], delimiter, symbol, Parsed(sent), count)
  {
    var header := [Field(35, if delimiter == 279 then "X" else "W"), Field(52, sent), Field(55, symbol),
                   Field(268, Digits(count))];
    FirstWithTag(header, 1, TAG_SENDING_TIME);
    FirstWithTag(header, 2, TAG_SYMBOL);
    FirstWithTag(header, 3, TAG_ENTRIES);
    DigitsPlain(count);
  }

  lemma DigitsPlain(n: nat)
    ensures SOH !in Digits(n)
  {
    assert forall i :: 0 <= i < |Digits(n)| ==> IsDigit(Digits(n)[i]);
  }
}
