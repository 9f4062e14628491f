// Replaying a capture: which of its messages reach the Deribit processor, and
// what it means for the fields of a message to carry an event.
module FileModel {
  import opened Common
  import opened Decimal
  import opened DeribitModel
  import opened LightFix
  import opened Timestamp
  import Registry

  const TAG_SENDING_TIME := 52
  const TAG_SIDE := 54
  const TAG_SYMBOL := 55
  const TAG_ENTRIES := 268
  const TAG_TYPE := 269
  const TAG_PRICE := 270
  const TAG_SIZE := 271
  const TAG_TRADE_ID := 278
  const TAG_ACTION := 279

  const INT_LIMIT: nat := 0x8000_0000

  // --- which messages count -----------------------------------------------

  // The first occurrence of `field` ends a field.
  predicate HasField(text: string, field: string)
    requires field != []
  {
    var end := FindText(text, field) + |field|;
    Contains(text, field) && (end < |text| ==> text[end] == SOH)
  }

  // A logon, as seen without parsing.
  predicate IsLogon(text: string) {
    HasField(text, "35=A")
  }

  predicate TypeAt(text: string, i: nat)
    requires i + 4 < |text|
  {
    text[i] == '3' && text[i + 1] == '5' && text[i + 2] == '=' && (i == 0 || text[i - 1] == SOH) && text[i + 4] == SOH
  }

  // The one-letter message type within the first 64 characters, or '\0'.
  function MsgTypeFrom(text: string, i: nat): char
    decreases |text| - i
  {
    if i + 4 >= Min(|text|, 64) then 0 as char
    else if TypeAt(text, i) then text[i + 3]
    else MsgTypeFrom(text, i + 1)
  }

  datatype FileState = FileState(seenLogon: bool, deribit: Deribit)

  // Nothing happens before the first logon.
  function ProcessText(s: FileState, hash: string -> nat, text: string, e: Event): FileState {
    if !s.seenLogon && !IsLogon(text) then s else FileState(true, Step(s.deribit, hash, e))
  }

  // --- fields that carry an event -----------------------------------------

  // What std::from_chars reads: leading digits, none where they are too many.
  function Number(s: string, limit: nat): nat {
    var v := Val(s[..DigitRun(s)]);
    if v < limit then v else 0
  }

  function TypeChar(kind: Kind): char {
    match kind
    case Bid => '0'
    case Offer => '1'
    case Trade => '2'
  }

  function ActionText(action: Option<string>): string {
    if action.Some? then action.value else ""
  }

  function TradeIdText(tradeId: Option<nat>): string {
    if tradeId.Some? then Digits(tradeId.value) else ""
  }

  ghost predicate CarriesEntry(g: seq<Field>, e: MdEntry) {
    && FieldValue(g, TAG_TYPE) == [TypeChar(e.kind)]
    && FieldValue(g, TAG_PRICE) == e.price && FieldValue(g, TAG_SIZE) == e.size
    && FieldValue(g, TAG_ACTION) == ActionText(e.action) && (e.action.Some? ==> |e.action.value| == 1)
    && (e.kind == Trade ==>
          && FieldValue(g, TAG_SIDE) == [e.side]
          && FieldValue(g, TAG_TRADE_ID) == TradeIdText(e.tradeId) && (e.tradeId.Some? ==> e.tradeId.value < TWO64))
  }

  ghost predicate CarriesEntries(fs: seq<Field>, delimiter: int, entries: seq<MdEntry>) {
    && |Positions(fs, delimiter)| == |entries|
    && forall i :: 0 <= i < |entries| ==> CarriesEntry(Group(fs, delimiter, i), entries[i])
  }

  ghost predicate Carries(fs: seq<Field>, delimiter: int, symbol: string, time: int, entries: seq<MdEntry>) {
    && FieldValue(fs, TAG_SYMBOL) == symbol
    && FieldValue(fs, TAG_ENTRIES) == Digits(|entries|) && |entries| < INT_LIMIT
    && WellFormed(FieldValue(fs, TAG_SENDING_TIME))
    && time == Parsed(FieldValue(fs, TAG_SENDING_TIME))
    && CarriesEntries(fs, delimiter, entries)
  }

  // Where the fast path would be taken, the text carries the event that a full
  // parse makes of it.
  ghost predicate Faithful(text: string, e: Event) {
    var fs := ParseFields(text, MAX_FIELDS);
    && (MsgTypeFrom(text, 0) == 'X' ==> e.Incremental? && Carries(fs, TAG_ACTION, e.symbol, e.time, e.entries))
    && (MsgTypeFrom(text, 0) == 'W' ==> e.Snapshot? && Carries(fs, TAG_TYPE, e.symbol, e.time, e.entries))
  }
}
