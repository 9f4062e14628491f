// Capture files as they are written: reading gives the messages back.
module CaptureFiles {
  import opened Common
  import opened DeribitModel
  import LightFix
  import opened FileModel
  import opened Capture
  import opened Priming

  // --- lines --------------------------------------------------------------

  // A line of a capture: a time stamp, the message, and carriage returns.
  datatype Line = Line(stamp: string, text: string, padding: nat)

  predicate Writable(l: Line) {
    && '|' !in l.stamp && '\n' !in l.stamp
    && '\n' !in l.text && (0 as char) !in l.text && (l.text == "" || l.text[|l.text| - 1] != '\r')
  }

  function Repeat(c: char, n: nat): string {
    if n == 0 then "" else Repeat(c, n - 1) + [c]
  }

  function Written(l: Line): string {
    l.stamp + ("|" + (l.text + Repeat('\r', l.padding)))
  }

  function File(lines: seq<Line>): string {
    if lines == [] then "" else Written(lines[0]) + ("\n" + File(lines[1..]))
  }

  function TextsOf(lines: seq<Line>): seq<string> {
    if lines == [] then [] else [lines[0].text] + TextsOf(lines[1..])
  }

  lemma {:induction false} RepeatIsReturns(n: nat)
    ensures Repeat('\r', n) == Returns(n) && forall i :: 0 <= i < |Repeat('\r', n)| ==> Repeat('\r', n)[i] == '\r'
  {
    if n > 0 {
      RepeatIsReturns(n - 1);
    }
  }

  lemma LineReadsBack(l: Line)
    requires Writable(l)
    ensures MessageOf(Written(l)) == [l.text]
  {
    RepeatIsReturns(l.padding);
    TrimmedReturns(l.text, l.padding);
    LightFix.FindIn(l.stamp, '|', l.text + Returns(l.padding));
    var rest := l.text + Returns(l.padding);
    assert Written(l) == l.stamp + (['|'] + rest);
  }

  lemma WrittenIsOneLine(l: Line)
    requires Writable(l)
    ensures '\n' !in Written(l)
  {
    RepeatIsReturns(l.padding);
  }

  // A line without a bar, or with a NUL after its first, gives no message.
  lemma OtherLines(line: string, i: nat)
    requires i <= |line| && forall k :: 0 <= k < i ==> line[k] != '|'
    requires i < |line| ==> line[i] == '|' && (0 as char) in line[i + 1..]
    ensures MessageOf(line) == []
  {
    Found(line, '|');
    if i < |line| {
      assert Find(line, '|') == i;
      TrimmedField(line[i + 1..], "35=A");
    } else {
      assert Find(line, '|') == |line|;
    }
  }

  // --- files --------------------------------------------------------------

  // From position `n` on, `f` is `rest`.
  predicate EndsWith(f: string, n: nat, rest: string) {
    |f| == n + |rest| && forall k :: 0 <= k < |rest| ==> f[n + k] == rest[k]
  }

  lemma SameLine(f: string, n: nat, rest: string, p: nat)
    requires EndsWith(f, n, rest) && p <= |rest|
    ensures LineEnd(f, n + p) == n + LineEnd(rest, p) && f[n + p..n + LineEnd(rest, p)] == rest[p..LineEnd(rest, p)]
  {
    assert f[n + p..] == rest[p..];
  }

  // The line at `p` ends at `e`.
  predicate IsLine(f: string, p: nat, e: nat, line: string) {
    p < |f| && p <= e <= |f| && e == LineEnd(f, p) && line == f[p..e]
  }

  lemma FirstIs(f: string, p: nat, e: nat, line: string, next: nat)
    requires IsLine(f, p, e, line) && next == e + 1
    ensures Messages(f, p) == MessageOf(line) + Messages(f, next)
  {
    FirstLineFirst(f, p);
  }

  lemma LineThere(f: string, n: nat, rest: string, p: nat) returns (e: nat, line: string)
    requires EndsWith(f, n, rest) && p < |rest|
    ensures IsLine(rest, p, e, line) && IsLine(f, n + p, n + e, line)
  {
    SameLine(f, n, rest, p);
    e, line := LineEnd(rest, p), rest[p..LineEnd(rest, p)];
  }

  lemma NothingPast(f: string, p: nat)
    requires p >= |f|
    ensures Messages(f, p) == []
  {
  }

  lemma SameFrom(f: string, at: nat, g: string, p: nat, line: string, rest: seq<string>)
    requires Messages(f, at) == MessageOf(line) + rest && Messages(g, p) == MessageOf(line) + rest
    ensures Messages(f, at) == Messages(g, p)
  {
  }

  lemma {:induction false} MessagesAfter(f: string, n: nat, rest: string, p: nat)
    requires EndsWith(f, n, rest)
    ensures Messages(f, n + p) == Messages(rest, p)
    decreases |rest| - p
  {
    if p >= |rest| {
      NothingPast(f, n + p);
      NothingPast(rest, p);
    } else {
      var e, line := LineThere(f, n, rest, p);
      var next: nat := e + 1;
      MessagesAfter(f, n, rest, next);
      FirstIs(f, n + p, n + e, line, n + next);
      FirstIs(rest, p, e, line, next);
      SameFrom(f, n + p, rest, p, line, Messages(rest, next));
    }
  }

  lemma FirstLineEnds(line: string, rest: string)
    requires '\n' !in line
    ensures var f := line + ("\n" + rest);
            f != "" && LineEnd(f, 0) == |line| && f[0..|line|] == line && EndsWith(f, |line| + 1, rest)
  {
    var f := line + ("\n" + rest);
    assert f[0..|line|] == line && f[|line|] == '\n';
    NoneWithin(f, '\n', 0, |line|);
    NoneWithin(f, '\n', 0, LineEnd(f, 0));
  }

  lemma FirstLineOf(line: string, rest: string)
    requires '\n' !in line
    ensures var f := line + ("\n" + rest); Messages(f, 0) == MessageOf(line) + Messages(rest, 0)
  {
    var f := line + ("\n" + rest);
    FirstLineEnds(line, rest);
    FirstIs(f, 0, |line|, line, |line| + 1);
    MessagesAfter(f, |line| + 1, rest, 0);
  }

  // Whatever messages are written, reading the file gives them back, in order.
  lemma {:induction false} FileReadsBack(lines: seq<Line>)
    requires forall i :: 0 <= i < |lines| ==> Writable(lines[i])
    ensures Messages(File(lines), 0) == TextsOf(lines)
  {
    if lines != [] {
      WrittenIsOneLine(lines[0]);
      LineReadsBack(lines[0]);
      FirstLineOf(Written(lines[0]), File(lines[1..]));
      FileReadsBack(lines[1..]);
    }
  }

  // --- what counts as a logon ---------------------------------------------

  predicate At(text: string, field: string, i: nat) {
    i + |field| <= |text| && text[i..i + |field|] == field
  }

  lemma AtIsPrefix(text: string, field: string, i: nat)
    requires i <= |text|
    ensures At(text, field, i) <==> field <= text[i..]
  {
    if field <= text[i..] {
      assert text[i..][..|field|] == text[i..i + |field|];
    }
    if At(text, field, i) {
      assert text[i..i + |field|] == text[i..][..|field|];
    }
  }

  // A message counts as a logon if its first "35=A" ends a field.
  lemma LogonIs(text: string)
    ensures IsLogon(text) <==>
              exists i :: 0 <= i && At(text, "35=A", i) && (forall k :: 0 <= k < i ==> !At(text, "35=A", k))
                          && (i + 4 < |text| ==> text[i + 4] == 1 as char)
  {
    var n := FindText(text, "35=A");
    FoundText(text, "35=A");
    forall k | 0 <= k <= |text| ensures At(text, "35=A", k) <==> "35=A" <= text[k..] {
      AtIsPrefix(text, "35=A", k);
    }
    if i :| 0 <= i && At(text, "35=A", i) && (forall k :: 0 <= k < i ==> !At(text, "35=A", k))
            && (i + 4 < |text| ==> text[i + 4] == 1 as char) {
      assert n <= i;
      assert Contains(text, "35=A");
      assert At(text, "35=A", n);
      assert n == i;
    }
    if IsLogon(text) {
      assert At(text, "35=A", n);
    }
  }

  // --- what is replayed ---------------------------------------------------

  // A replay is a run of the processor from the first logon on.
  lemma {:induction false} ReplayIsRun(s: FileState, hash: string -> nat, parse: string -> Event, texts: seq<string>,
                                       k: nat)
    requires k <= |texts| && !s.seenLogon && forall i :: 0 <= i < k ==> !IsLogon(texts[i])
    requires k < |texts| ==> IsLogon(texts[k])
    ensures var s' := Replay(s, hash, parse, texts);
            (s'.seenLogon <==> k < |texts|) && s'.deribit == Run(s.deribit, hash, Events(texts[k..], parse))
    decreases k
  {
    if k == 0 {
      assert texts[0..] == texts;
      if texts != [] {
        SeenReplayIsRun(ProcessText(s, hash, texts[0], parse(texts[0])), hash, parse, texts[1..]);
        assert Events(texts, parse)[1..] == Events(texts[1..], parse);
      }
    } else {
      assert !IsLogon(texts[0]);
      ReplayIsRun(s, hash, parse, texts[1..], k - 1);
      assert texts[1..][k - 1..] == texts[k..];
    }
  }

  lemma {:induction false} SeenReplayIsRun(s: FileState, hash: string -> nat, parse: string -> Event,
                                           texts: seq<string>)
    requires s.seenLogon
    ensures var s' := Replay(s, hash, parse, texts);
            s'.seenLogon && s'.deribit == Run(s.deribit, hash, Events(texts, parse))
    decreases |texts|
  {
    if texts != [] {
      SeenReplayIsRun(ProcessText(s, hash, texts[0], parse(texts[0])), hash, parse, texts[1..]);
      assert Events(texts, parse)[1..] == Events(texts[1..], parse);
    }
  }
}
