// The allocation-free reader of tag=value messages used when replaying files.
module LightFix {
  // It fills a fixed table of fields and hands out slices of it as groups.

  import opened Common
  import opened Decimal

  const SOH: char := '\U{0001}'
  const MAX_FIELDS := 512

  datatype Field = Field(tag: int, value: string)

  // --- parsing ------------------------------------------------------------

  // The tag loop does not check that it reads digits.
  function TagOf(s: string): int {
    if s == [] then 0 else TagOf(s[..|s| - 1]) * 10 + (s[|s| - 1] as int - '0' as int)
  }

  // What is left after the separator at the end of a value.
  function AfterValue(rest: string): string {
    var end := Find(rest, SOH);
    if end < |rest| then rest[end + 1..] else []
  }

  // The first field, and what follows it; None when no '=' is left.
  function ReadField(s: string): Option<(Field, string)> {
    if Find(s, '=') == |s| then None
    else
      var eq := Find(s, '=');
      var rest := s[eq + 1..];
      Some((Field(TagOf(s[..eq]), rest[..Find(rest, SOH)]), AfterValue(rest)))
  }

  // At most `limit` fields, one after the other.
  function ReadAll(read: string -> Option<(Field, string)>, s: string, limit: nat): seq<Field>
    decreases limit
  {
    if limit == 0 || s == [] then []
    else
      match read(s)
      case None => []
      case Some((f, rest)) => [f] + ReadAll(read, rest, limit - 1)
  }

  function ParseFields(s: string, limit: nat): seq<Field> {
    ReadAll(ReadField, s, limit)
  }

  // --- printing, and back -------------------------------------------------

  ghost predicate Printable(f: Field) {
    f.tag >= 0 && SOH !in f.value
  }

  ghost predicate AllPrintable(fs: seq<Field>) {
    forall i :: 0 <= i < |fs| ==> Printable(fs[i])
  }

  function PrintField(f: Field): string {
    Digits(if f.tag >= 0 then f.tag else 0) + ("=" + (f.value + [SOH]))
  }

  function Texts(fs: seq<Field>): seq<string> {
    seq(|fs|, i requires 0 <= i < |fs| => PrintField(fs[i]))
  }

  function Joined(texts: seq<string>): string {
    if texts == [] then [] else texts[0] + Joined(texts[1..])
  }

  function PrintFields(fs: seq<Field>): string {
    Joined(Texts(fs))
  }

  lemma {:induction false} TagOfDigits(s: string)
    requires AllDigits(s)
    ensures TagOf(s) == Val(s)
  {
    if s != [] {
      TagOfDigits(s[..|s| - 1]);
    }
  }

  lemma {:induction false} FindIn(x: string, c: char, y: string)
    requires c !in x
    ensures Find(x + ([c] + y), c) == |x| && (x + ([c] + y))[..|x|] == x && (x + ([c] + y))[|x| + 1..] == y
  {
    if x == [] {
      assert x + ([c] + y) == [c] + y;
    } else {
      assert (x + ([c] + y))[1..] == x[1..] + ([c] + y);
      FindIn(x[1..], c, y);
    }
  }

  lemma ReadPrinted(f: Field, more: string)
    requires Printable(f)
    ensures ReadField(PrintField(f) + more) == Some((f, more))
  {
    var tag := Digits(f.tag);
    var rest := f.value + ([SOH] + more);
    assert PrintField(f) + more == tag + (['='] + rest);
    FindIn(tag, '=', rest);
    TagOfDigits(tag);
    FindIn(f.value, SOH, more);
  }

  function Take(fs: seq<Field>, n: nat): seq<Field> {
    if |fs| <= n then fs else fs[..n]
  }

  // A text that is read as one field, whatever follows it.
  ghost predicate Reads(read: string -> Option<(Field, string)>, text: string, f: Field) {
    text != [] && forall more: string {:trigger text + more} :: read(text + more) == Some((f, more))
  }

  lemma {:induction false} ReadJoined(read: string -> Option<(Field, string)>, texts: seq<string>, fs: seq<Field>,
                                      limit: nat)
    requires |texts| == |fs| && forall i :: 0 <= i < |fs| ==> Reads(read, texts[i], fs[i])
    ensures ReadAll(read, Joined(texts), limit) == Take(fs, limit)
    decreases |fs|
  {
    if fs != [] && limit > 0 {
      assert Reads(read, texts[0], fs[0]);
      ReadJoined(read, texts[1..], fs[1..], limit - 1);
      assert ReadAll(read, texts[0] + Joined(texts[1..]), limit) == [fs[0]] + Take(fs[1..], limit - 1);
    }
  }

  // Parsing a printed list of fields gives back its first `limit` fields, so
  // all of them when there are no more than that.
  lemma ParsePrinted(fs: seq<Field>, limit: nat)
    requires AllPrintable(fs)
    ensures ParseFields(PrintFields(fs), limit) == Take(fs, limit)
  {
    forall i | 0 <= i < |fs| ensures Reads(ReadField, Texts(fs)[i], fs[i]) {
      PrintedReads(fs[i]);
    }
    ReadJoined(ReadField, Texts(fs), fs, limit);
  }

  lemma PrintedReads(f: Field)
    requires Printable(f)
    ensures Reads(ReadField, PrintField(f), f)
  {
    forall more: string ensures ReadField(PrintField(f) + more) == Some((f, more)) {
      ReadPrinted(f, more);
    }
  }

  // --- looking things up --------------------------------------------------

  // The value of the first field with the tag, empty if there is none.
  function FieldValue(fs: seq<Field>, tag: int): string {
    if fs == [] then "" else if fs[0].tag == tag then fs[0].value else FieldValue(fs[1..], tag)
  }

  // The positions of a tag.
  function Positions(fs: seq<Field>, tag: int): (ps: seq<nat>)
    ensures forall k :: 0 <= k < |ps| ==> ps[k] < |fs| && fs[ps[k]].tag == tag
    ensures forall j, k :: 0 <= j < k < |ps| ==> ps[j] < ps[k]
  {
    if fs == [] then []
    else
      var n := |fs| - 1;
      Positions(fs[..n], tag) + (if fs[n].tag == tag then [n] else [])
  }

  // Where the k-th group of a delimiter ends: at the next delimiter, or with
  // the message.
  function GroupEnd(fs: seq<Field>, delimiter: int, k: nat): nat
    requires k < |Positions(fs, delimiter)|
  {
    if k + 1 < |Positions(fs, delimiter)| then Positions(fs, delimiter)[k + 1] else |fs|
  }

  function Group(fs: seq<Field>, delimiter: int, k: nat): seq<Field>
    requires k < |Positions(fs, delimiter)|
  {
    var ps := Positions(fs, delimiter);
    fs[ps[k]..GroupEnd(fs, delimiter, k)]
  }

  lemma {:induction false} PositionsComplete(fs: seq<Field>, tag: int, i: nat)
    requires i < |fs| && fs[i].tag == tag
    ensures i in Positions(fs, tag)
    decreases |fs|
  {
    var n := |fs| - 1;
    if i < n {
      PositionsComplete(fs[..n], tag, i);
    }
  }

  // A group starts with its delimiter and holds no other.
  lemma GroupShape(fs: seq<Field>, delimiter: int, k: nat)
    requires k < |Positions(fs, delimiter)|
    ensures var g := Group(fs, delimiter, k);
            g != [] && g[0].tag == delimiter && forall i :: 0 < i < |g| ==> g[i].tag != delimiter
  {
    var ps := Positions(fs, delimiter);
    var g := Group(fs, delimiter, k);
    forall i | 0 < i < |g| ensures g[i].tag != delimiter {
      forall j | 0 <= j < |ps| ensures ps[j] != ps[k] + i {
        if j <= k {
          assert ps[j] <= ps[k];
        } else {
          assert ps[k + 1] <= ps[j];
        }
      }
      if g[i].tag == delimiter {
        PositionsComplete(fs, delimiter, ps[k] + i);
      }
    }
  }

  function GroupsFrom(fs: seq<Field>, delimiter: int, k: nat): seq<Field>
    requires k <= |Positions(fs, delimiter)|
    decreases |Positions(fs, delimiter)| - k
  {
    if k == |Positions(fs, delimiter)| then [] else Group(fs, delimiter, k) + GroupsFrom(fs, delimiter, k + 1)
  }

  // The groups, one after another, are the message from the first delimiter on.
  lemma {:induction false} GroupsPartition(fs: seq<Field>, delimiter: int, k: nat)
    requires k < |Positions(fs, delimiter)|
    ensures GroupsFrom(fs, delimiter, k) == fs[Positions(fs, delimiter)[k]..]
    decreases |Positions(fs, delimiter)| - k
  {
    if k + 1 < |Positions(fs, delimiter)| {
      GroupsPartition(fs, delimiter, k + 1);
    } else {
      assert GroupsFrom(fs, delimiter, k + 1) == [];
    }
  }

  lemma {:induction false} PositionsOfPrefix(fs: seq<Field>, tag: int, i: nat)
    requires i <= |fs|
    ensures |Positions(fs[..i], tag)| <= |Positions(fs, tag)|
    ensures Positions(fs, tag)[..|Positions(fs[..i], tag)|] == Positions(fs[..i], tag)
    decreases |fs| - i
  {
    if i == |fs| {
      assert fs[..i] == fs;
    } else {
      PositionsStep(fs, tag, i);
      PositionsOfPrefix(fs, tag, i + 1);
    }
  }

  lemma PositionsStep(fs: seq<Field>, tag: int, i: nat)
    requires i < |fs|
    ensures Positions(fs[..i + 1], tag) == Positions(fs[..i], tag) + (if fs[i].tag == tag then [i] else [])
  {
    assert fs[..i + 1][..i] == fs[..i];
  }

  // Where the parser goes on after a value that ends at `end`.
  function Next(msg: string, end: nat): (p: nat)
    requires end <= |msg|
    ensures end <= p <= |msg|
  {
    if end < |msg| then end + 1 else end
  }

  lemma ValueAt(msg: string, start: nat, end: nat)
    requires start <= |msg| && end == start + Find(msg[start..], SOH)
    ensures msg[start..][..Find(msg[start..], SOH)] == msg[start..end]
    ensures AfterValue(msg[start..]) == msg[Next(msg, end)..]
  {
  }

  // One round of the parsing loop.
  lemma ParseStep(msg: string, p: nat, limit: nat, eq: nat, end: nat)
    requires p < |msg| && limit > 0 && eq == p + Find(msg[p..], '=') < |msg|
    requires end == eq + 1 + Find(msg[eq + 1..], SOH)
    ensures ParseFields(msg[p..], limit) ==
            [Field(TagOf(msg[p..eq]), msg[eq + 1..end])] + ParseFields(msg[Next(msg, end)..], limit - 1)
  {
    ReadAt(msg, p, eq, end);
    ReadThenRest(msg[p..], limit, Field(TagOf(msg[p..eq]), msg[eq + 1..end]), msg[Next(msg, end)..]);
  }

  lemma ReadThenRest(s: string, limit: nat, f: Field, rest: string)
    requires s != [] && limit > 0 && ReadField(s) == Some((f, rest))
    ensures ParseFields(s, limit) == [f] + ParseFields(rest, limit - 1)
  {
  }

  lemma ReadAt(msg: string, p: nat, eq: nat, end: nat)
    requires p < |msg| && eq == p + Find(msg[p..], '=') < |msg|
    requires end == eq + 1 + Find(msg[eq + 1..], SOH)
    ensures ReadField(msg[p..]) == Some((Field(TagOf(msg[p..eq]), msg[eq + 1..end]), msg[Next(msg, end)..]))
  {
    TagAt(msg, p, eq);
    ValueAt(msg, eq + 1, end);
  }

  lemma TagAt(msg: string, p: nat, eq: nat)
    requires p <= |msg| && eq == p + Find(msg[p..], '=') < |msg|
    ensures msg[p..][..Find(msg[p..], '=')] == msg[p..eq]
    ensures msg[p..][Find(msg[p..], '=') + 1..] == msg[eq + 1..]
  {
  }

  // --- the reader ---------------------------------------------------------

  class LightFixMessage {
    const fields: array<Field>
    var count: nat

    ghost predicate Valid()
      reads this
    {
      fields.Length == MAX_FIELDS && count <= MAX_FIELDS
    }

    function Contents(): seq<Field>
      requires Valid()
      reads this, fields
    {
      fields[..count]
    }

    constructor ()
      ensures Valid() && Contents() == [] && fresh(fields)
    {
      fields := new Field[MAX_FIELDS](_ => Field(0, ""));
      count := 0;
    }

    // Read one tag, up to the '=' or the end.
    static method ReadTag(msg: string, start: nat) returns (tag: int, p: nat)
      requires start <= |msg|
      ensures p == start + Find(msg[start..], '=') && tag == TagOf(msg[start..p])
    {
      tag, p := 0, start;
      Found(msg[start..], '=');
      while p < |msg| && msg[p] != '='
        invariant start <= p <= start + Find(msg[start..], '=')
        invariant tag == TagOf(msg[start..p])
      {
        assert msg[start..][p - start] == msg[p];
        assert msg[start..p + 1][..p - start] == msg[start..p];
        tag := tag * 10 + (msg[p] as int - '0' as int);
        p := p + 1;
      }
    }

    static method FindEnd(msg: string, start: nat) returns (p: nat)
      requires start <= |msg|
      ensures p == start + Find(msg[start..], SOH)
    {
      p := start;
      Found(msg[start..], SOH);
      while p < |msg| && msg[p] != SOH
        invariant start <= p <= start + Find(msg[start..], SOH)
      {
        assert msg[start..][p - start] == msg[p];
        p := p + 1;
      }
    }

    // Read one field; `ok` is false when there is no further '='.
    static method ReadField(msg: string, p: nat, ghost limit: nat) returns (ok: bool, f: Field, next: nat)
      requires p < |msg| && limit > 0
      ensures ok ==> p < next <= |msg| && ParseFields(msg[p..], limit) == [f] + ParseFields(msg[next..], limit - 1)
      ensures !ok ==> ParseFields(msg[p..], limit) == []
    {
      var tag, eq := ReadTag(msg, p);
      if eq >= |msg| {
        return false, Field(0, ""), p;
      }
      var end := FindEnd(msg, eq + 1);
      ParseStep(msg, p, limit, eq, end);
      return true, Field(tag, msg[eq + 1..end]), if end < |msg| then end + 1 else end;
    }

    method Append(f: Field)
      requires Valid() && count < MAX_FIELDS
      modifies this, fields
      ensures Valid() && Contents() == old(Contents()) + [f] && count == old(count) + 1
    {
      fields[count] := f;
      count := count + 1;
    }

    // One round of the loop: the fields read so far and those still to be read
    // stay the fields of the message.
    method ParseRound(msg: string, p: nat, ghost all: seq<Field>) returns (next: nat)
      requires Valid() && p < |msg| && count < MAX_FIELDS
      requires Contents() + ParseFields(msg[p..], MAX_FIELDS - count) == all
      modifies this, fields
      ensures Valid() && p < next <= |msg| + 1
      ensures next <= |msg| ==> Contents() + ParseFields(msg[next..], MAX_FIELDS - count) == all
      ensures next > |msg| ==> Contents() == all
    {
      var ok, f, after := ReadField(msg, p, MAX_FIELDS - count);
      if !ok {
        return |msg| + 1;
      }
      Assoc(Contents(), [f], ParseFields(msg[after..], MAX_FIELDS - count - 1));
      Append(f);
      return after;
    }

    method Parse(msg: string)
      requires Valid()
      modifies this, fields
      ensures Valid() && Contents() == ParseFields(msg, MAX_FIELDS)
    {
      count := 0;
      var p := 0;
      ghost var all := ParseFields(msg, MAX_FIELDS);
      assert msg[0..] == msg;
      while p < |msg| && count < MAX_FIELDS
        invariant Valid()
        invariant p <= |msg| ==> Contents() + ParseFields(msg[p..], MAX_FIELDS - count) == all
        invariant p > |msg| ==> Contents() == all
        decreases |msg| - p
      {
        p := ParseRound(msg, p, all);
      }
    }

    method GetField(tag: int) returns (value: string)
      requires Valid()
      ensures value == FieldValue(Contents(), tag)
    {
      var i := 0;
      while i < count
        invariant i <= count
        invariant FieldValue(fields[i..count], tag) == FieldValue(Contents(), tag)
      {
        assert fields[i..count][1..] == fields[i + 1..count];
        if fields[i].tag == tag {
          return fields[i].value;
        }
        i := i + 1;
      }
      return "";
    }

    // The same within one group.
    method GetGroupField(begin: nat, end: nat, tag: int) returns (value: string)
      requires Valid() && begin <= end <= count
      ensures value == FieldValue(fields[begin..end], tag)
    {
      var i := begin;
      while i < end
        invariant begin <= i <= end
        invariant FieldValue(fields[i..end], tag) == FieldValue(fields[begin..end], tag)
      {
        assert fields[i..end][1..] == fields[i + 1..end];
        if fields[i].tag == tag {
          return fields[i].value;
        }
        i := i + 1;
      }
      return "";
    }

    // A group as a pair of positions; `found` is false when there are not
    // that many.
    method GetGroup(delimiter: int, index: nat) returns (found: bool, begin: nat, end: nat)
      requires Valid()
      ensures found == (index < |Positions(Contents(), delimiter)|)
      ensures found ==> begin <= end <= count && fields[begin..end] == Group(Contents(), delimiter, index)
    {
      var seen, start := -1, -1;
      ghost var fs := Contents();
      ghost var ps := Positions(fs, delimiter);
      var i := 0;
      while i < count
        invariant i <= count
        invariant seen + 1 == |Positions(fs[..i], delimiter)| <= index + 1
        invariant if seen == index then seen < |ps| && start == ps[index] else start == -1
      {
        SeenStep(fs, delimiter, i);
        if fields[i].tag == delimiter {
          seen := seen + 1;
          if seen == index {
            start := i;
          } else if seen == index + 1 {
            assert fs[start..i] == fields[start..i];
            return true, start, i;
          }
        }
        i := i + 1;
      }
      assert fs[..count] == fs;
      if start >= 0 {
        assert fs[start..count] == fields[start..count];
        return true, start, count;
      }
      return false, 0, 0;
    }
  }

  // One more field looked at: a delimiter is the next of the positions.
  lemma SeenStep(fs: seq<Field>, delimiter: int, i: nat)
    requires i < |fs|
    ensures var seen := |Positions(fs[..i], delimiter)|;
            if fs[i].tag == delimiter
            then |Positions(fs[..i + 1], delimiter)| == seen + 1 && seen < |Positions(fs, delimiter)|
                && Positions(fs, delimiter)[seen] == i
            else |Positions(fs[..i + 1], delimiter)| == seen
  {
    PositionsStep(fs, delimiter, i);
    PositionsOfPrefix(fs, delimiter, i + 1);
    var ps, upTo := Positions(fs, delimiter), Positions(fs[..i + 1], delimiter);
    if fs[i].tag == delimiter {
      assert ps[..|upTo|][|upTo| - 1] == i;
    }
  }
}
