// A capture file: how its lines become messages, forward; and the backward scan
// for the last logon, which looks at the same lines with slightly different
// eyes.
module Capture {
  import opened Common
  import opened FileModel
  import opened LightFix

  const NEWLINE: char := '\n'
  const RETURN: char := '\r'
  const NUL: char := 0 as char

  // --- lines and messages -------------------------------------------------

  function LineEnd(f: string, p: nat): (e: nat)
    requires p <= |f|
    ensures p <= e <= |f| && NEWLINE !in f[p..e] && (e < |f| ==> f[e] == NEWLINE)
  {
    var e := p + Find(f[p..], NEWLINE);
    Found(f[p..], NEWLINE);
    assert f[p..e] == f[p..][..e - p];
    e
  }

  // What follows the first '|' of a line, if there is one.
  function AfterPipe(line: string): Option<string> {
    var i := Find(line, '|');
    if i < |line| then Some(line[i + 1..]) else None
  }

  function TrimReturns(s: string): string {
    if s != [] && s[|s| - 1] == RETURN then TrimReturns(s[..|s| - 1]) else s
  }

  // Zero or one message; a message with a NUL is dropped.
  function MessageOf(line: string): seq<string> {
    match AfterPipe(line)
    case None => []
    case Some(rest) => if NUL in TrimReturns(rest) then [] else [TrimReturns(rest)]
  }

  // The messages of the lines from position `p` on.
  function Messages(f: string, p: nat): seq<string>
    decreases |f| - p
  {
    if p >= |f| then []
    else MessageOf(f[p..LineEnd(f, p)]) + Messages(f, LineEnd(f, p) + 1)
  }

  predicate StartsLine(f: string, p: nat) {
    p <= |f| && (p == 0 || f[p - 1] == NEWLINE)
  }

  lemma NoneWithin(f: string, c: char, a: nat, b: nat)
    requires a <= b <= |f| && c !in f[a..b]
    ensures forall k :: a <= k < b ==> f[k] != c
  {
    forall k | a <= k < b ensures f[k] != c {
      assert f[k] == f[a..b][k - a];
    }
  }

  lemma LineWithin(f: string, p: nat, q: nat)
    requires StartsLine(f, q) && p < q <= |f|
    ensures LineEnd(f, p) < q && LineEnd(f[..q], p) == LineEnd(f, p)
    ensures f[..q][p..LineEnd(f[..q], p)] == f[p..LineEnd(f, p)]
  {
    NoneWithin(f, NEWLINE, p, LineEnd(f, p));
    NoneWithin(f[..q], NEWLINE, p, LineEnd(f[..q], p));
  }

  // Reading can be split at the start of any line.
  lemma {:induction false} ReadingSplits(f: string, p: nat, q: nat)
    requires StartsLine(f, q) && p <= q
    ensures Messages(f, p) == Messages(f[..q], p) + Messages(f, q)
    decreases q - p
  {
    if p < q {
      LineWithin(f, p, q);
      var e := LineEnd(f, p);
      ReadingSplits(f, e + 1, q);
      Assoc(MessageOf(f[p..e]), Messages(f[..q], e + 1), Messages(f, q));
    }
  }

  // --- the forward reader -------------------------------------------------

  // The lines from `start` on, handed over one by one.
  method ReadFrom(f: string, start: nat) returns (messages: seq<string>)
    requires start <= |f|
    ensures messages == Messages(f, start)
  {
    messages := [];
    var p := start;
    while p < |f|
      invariant messages + Messages(f, p) == Messages(f, start)
    {
      var read, next := ReadOne(f, p);
      Assoc(messages, read, Messages(f, next));
      messages := messages + read;
      p := next;
    }
  }

  lemma FirstLineFirst(f: string, p: nat)
    requires p < |f|
    ensures Messages(f, p) == MessageOf(f[p..LineEnd(f, p)]) + Messages(f, LineEnd(f, p) + 1)
  {
  }

  method ReadOne(f: string, p: nat) returns (read: seq<string>, next: nat)
    requires p < |f|
    ensures p < next && Messages(f, p) == read + Messages(f, next)
  {
    var e := LineEnd(f, p);
    FirstLineFirst(f, p);
    read := ReadLine(f[p..e]);
    next := e + 1;
  }

  method ReadLine(line: string) returns (messages: seq<string>)
    ensures messages == MessageOf(line)
  {
    var pipe := Find(line, '|');
    if pipe == |line| {
      return [];
    }
    var text := DropReturns(line[pipe + 1..]);
    return if NUL in text then [] else [text];
  }

  method DropReturns(s: string) returns (t: string)
    ensures t == TrimReturns(s)
  {
    var n := |s|;
    assert s[..n] == s;
    while n > 0 && s[n - 1] == RETURN
      invariant 0 <= n <= |s| && TrimReturns(s[..n]) == TrimReturns(s)
    {
      assert s[..n][..n - 1] == s[..n - 1];
      n := n - 1;
    }
    return s[..n];
  }

  // --- the backward scan --------------------------------------------------

  // What the scan takes for a logon line: carriage returns are not trimmed.
  predicate LogonLine(line: string) {
    match AfterPipe(line)
    case None => false
    case Some(rest) => rest != [] && NUL !in rest && IsLogon(rest)
  }

  predicate HasLogon(messages: seq<string>) {
    exists i :: 0 <= i < |messages| && IsLogon(messages[i])
  }

  // A message cut off right after its type, before carriage returns.
  predicate CutShort(line: string) {
    match AfterPipe(line)
    case None => false
    case Some(rest) => TrimReturns(rest) != rest && EndsWithField(TrimReturns(rest), "35=A")
  }

  predicate EndsWithField(s: string, field: string)
    requires field != []
  {
    FindText(s, field) + |field| == |s|
  }

  lemma {:induction false} FindBeforeReturn(s: string, t: string)
    requires t != [] && RETURN !in t
    ensures FindText(s + [RETURN], t) == if Contains(s, t) then FindText(s, t) else |s| + 1
  {
    var x := s + [RETURN];
    if t <= x {
      assert t[|t| - 1] == x[|t| - 1];
      assert t <= s;
    }
    if s != [] && !(t <= s) {
      assert x[1..] == s[1..] + [RETURN];
      FindBeforeReturn(s[1..], t);
    }
  }

  lemma FieldFits(s: string, t: string)
    requires t != [] && Contains(s, t)
    ensures FindText(s, t) + |t| <= |s| && s[FindText(s, t) + |t| - 1] == t[|t| - 1]
  {
    var i := FindText(s, t);
    FoundText(s, t);
    assert s[i..][|t| - 1] == t[|t| - 1];
  }

  lemma FieldBeforeReturn(s: string, t: string)
    requires t != [] && RETURN !in t
    ensures HasField(s + [RETURN], t) <==> HasField(s, t) && !EndsWithField(s, t)
  {
    FindBeforeReturn(s, t);
    if Contains(s, t) {
      FieldFits(s, t);
    }
  }

  lemma {:induction false} TrimmedField(s: string, t: string)
    requires t != [] && RETURN !in t
    ensures HasField(s, t) <==>
              HasField(TrimReturns(s), t) && (TrimReturns(s) != s ==> !EndsWithField(TrimReturns(s), t))
    ensures NUL in s <==> NUL in TrimReturns(s)
    decreases |s|
  {
    if s != [] && s[|s| - 1] == RETURN {
      var x := s[..|s| - 1];
      assert s == x + [RETURN];
      TrimmedField(x, t);
      FieldBeforeReturn(x, t);
      if TrimReturns(x) != x && HasField(x, t) {
        FieldFits(x, t);
      }
    }
  }

  // The scan takes a line for a logon exactly when it yields a logon message
  // and is not cut short.
  lemma ScanSeesLogons(line: string)
    ensures LogonLine(line) <==> HasLogon(MessageOf(line)) && !CutShort(line)
  {
    if AfterPipe(line).Some? {
      var rest := AfterPipe(line).value;
      TrimmedField(rest, "35=A");
      if NUL !in rest && IsLogon(TrimReturns(rest)) {
        assert IsLogon(MessageOf(line)[0]);
      }
    }
  }

  function Returns(n: nat): string {
    if n == 0 then "" else Returns(n - 1) + [RETURN]
  }

  lemma {:induction false} TrimmedReturns(text: string, n: nat)
    requires text == "" || text[|text| - 1] != RETURN
    ensures TrimReturns(text + Returns(n)) == text && (n > 0 ==> Returns(n) != "")
  {
    if n == 0 {
      assert text + Returns(0) == text;
    } else {
      assert (text + Returns(n))[..|text + Returns(n)| - 1] == text + Returns(n - 1);
      TrimmedReturns(text, n - 1);
    }
  }

  // A logon cut off right after its type is read forward but not seen backward,
  // whatever comes before it on its line and however many returns after it.
  lemma CutShortIsMissed(stamp: string, text: string, n: nat)
    requires '|' !in stamp && NUL !in text && EndsWithField(text, "35=A") && n > 0
    ensures var line := stamp + (['|'] + (text + Returns(n))); HasLogon(MessageOf(line)) && !LogonLine(line)
  {
    var rest := text + Returns(n);
    var line := stamp + (['|'] + rest);
    FindIn(stamp, '|', rest);
    FieldFits(text, "35=A");
    TrimmedReturns(text, n);
    assert rest != text;
    assert IsLogon(text);
    assert IsLogon(MessageOf(line)[0]);
    ScanSeesLogons(line);
  }

  // --- lines of a file ----------------------------------------------------

  function LineAt(f: string, p: nat): string
    requires p <= |f|
  {
    f[p..LineEnd(f, p)]
  }

  // What the scan takes for a logon, and what it takes for none though it
  // yields one.
  predicate SeenAt(f: string, p: nat) {
    StartsLine(f, p) && LogonLine(LineAt(f, p))
  }

  predicate MissedAt(f: string, p: nat) {
    StartsLine(f, p) && HasLogon(MessageOf(LineAt(f, p))) && CutShort(LineAt(f, p))
  }

  ghost predicate NoneSeenFrom(f: string, p: nat) {
    forall q: nat :: p <= q ==> !SeenAt(f, q)
  }

  ghost predicate NoneMissedFrom(f: string, p: nat) {
    forall q: nat :: p <= q ==> !MissedAt(f, q)
  }

  // The last line the scan takes for a logon.
  ghost predicate LastSeenAt(f: string, p: nat) {
    SeenAt(f, p) && NoneSeenFrom(f, p + 1)
  }

  lemma LineDone(f: string, start: nat, lineEnd: nat)
    requires start <= lineEnd <= |f| && NEWLINE !in f[start..lineEnd] && (lineEnd < |f| ==> f[lineEnd] == NEWLINE)
    ensures LineEnd(f, start) == lineEnd
            && Messages(f, start) == MessageOf(f[start..lineEnd]) + Messages(f, lineEnd + 1)
  {
    NoneWithin(f, NEWLINE, start, lineEnd);
    NoneWithin(f, NEWLINE, start, LineEnd(f, start));
    if start == |f| {
      assert Find([], '|') == 0;
    }
  }

  // The first message is a logon, and none of the others is.
  predicate StartsAtLastLogon(messages: seq<string>) {
    messages != [] && IsLogon(messages[0]) && !HasLogon(messages[1..])
  }

  lemma PipeAfter(c: char, line: string)
    requires c != '|'
    ensures AfterPipe([c] + line) == AfterPipe(line)
  {
    var x := [c] + line;
    assert x[1..] == line;
    var i := Find(line, '|');
    if i < |line| {
      assert x[i + 2..] == line[i + 1..];
    }
  }

  lemma OneMoreChar(f: string, pos: nat, lineEnd: nat)
    requires pos < lineEnd <= |f| && f[pos] != NEWLINE && NEWLINE !in f[pos + 1..lineEnd]
    ensures NEWLINE !in f[pos..lineEnd]
  {
    assert f[pos..lineEnd] == [f[pos]] + f[pos + 1..lineEnd];
  }

  lemma EmptyIsNoLogon(line: string)
    ensures LogonLine(line) ==> line != []
  {
  }

  lemma LogonAfter(c: char, line: string)
    requires c != '|'
    ensures LogonLine([c] + line) == LogonLine(line)
  {
    PipeAfter(c, line);
  }

  lemma LeadingNewline(f: string, lineEnd: nat)
    requires 0 < lineEnd <= |f| && f[0] == NEWLINE
    ensures LogonLine(f[0..lineEnd]) == LogonLine(f[1..lineEnd])
  {
    var line := f[1..lineEnd];
    assert f[0..lineEnd] == [f[0]] + line;
    LogonAfter(f[0], line);
  }

  lemma EmptyFirstLine(f: string)
    requires f != [] && f[0] == NEWLINE
    ensures Messages(f, 0) == Messages(f, 1)
  {
    var line := f[0..0];
    LineDone(f, 0, 0);
    assert MessageOf(line) == [];
  }

  // No line starts within another.
  lemma NextLineStarts(f: string, p: nat, q: nat)
    requires p <= |f| && p < q && StartsLine(f, q)
    ensures LineEnd(f, p) < q
  {
    NoneWithin(f, NEWLINE, p, LineEnd(f, p));
  }

  // A line that yields a logon, seen or missed.
  predicate LogonAt(f: string, p: nat) {
    SeenAt(f, p) || MissedAt(f, p)
  }

  lemma LogonAtIs(f: string, p: nat)
    requires StartsLine(f, p)
    ensures LogonAt(f, p) <==> HasLogon(MessageOf(LineAt(f, p)))
  {
    ScanSeesLogons(LineAt(f, p));
  }

  ghost predicate SomeLogonFrom(f: string, p: nat) {
    exists q: nat :: p <= q && LogonAt(f, q)
  }

  lemma SomeLogonLater(f: string, p: nat)
    requires StartsLine(f, p)
    ensures SomeLogonFrom(f, p) <==> LogonAt(f, p) || SomeLogonFrom(f, LineEnd(f, p) + 1)
  {
    if SomeLogonFrom(f, p) && !LogonAt(f, p) {
      var q: nat :| p <= q && LogonAt(f, q);
      NextLineStarts(f, p, q);
    }
  }

  // A file has a logon from a line on exactly if some line from there on is one.
  lemma {:induction false} LogonsAreLines(f: string, p: nat)
    requires p <= |f| ==> StartsLine(f, p)
    ensures HasLogon(Messages(f, p)) <==> SomeLogonFrom(f, p)
    decreases |f| + 1 - p
  {
    if p <= |f| {
      LogonAtIs(f, p);
      SomeLogonLater(f, p);
      LogonsAreLines(f, LineEnd(f, p) + 1);
      if p == |f| {
        EmptyIsNoMessage(f, p);
      } else {
        HasLogonOfBoth(MessageOf(LineAt(f, p)), Messages(f, LineEnd(f, p) + 1));
      }
    }
  }

  lemma EmptyIsNoMessage(f: string, p: nat)
    requires p == |f|
    ensures MessageOf(LineAt(f, p)) == [] && forall q: nat :: p < q ==> !StartsLine(f, q)
  {
    assert LineAt(f, p) == [];
  }

  lemma HasLogonOfBoth(one: seq<string>, rest: seq<string>)
    ensures HasLogon(one + rest) <==> HasLogon(one) || HasLogon(rest)
  {
    var both := one + rest;
    if HasLogon(one) {
      var i :| 0 <= i < |one| && IsLogon(one[i]);
      assert both[i] == one[i];
    }
    if HasLogon(rest) {
      var i :| 0 <= i < |rest| && IsLogon(rest[i]);
      assert both[|one| + i] == rest[i];
    }
  }

  // The last line seen starts the messages from the last logon on, exactly if
  // no later line was missed.
  lemma LastSeenIsLast(f: string, p: nat)
    requires LastSeenAt(f, p)
    ensures p < |f| && Messages(f, p) != [] && IsLogon(Messages(f, p)[0])
    ensures StartsAtLastLogon(Messages(f, p)) <==> NoneMissedFrom(f, p)
  {
    var line, next := LineAt(f, p), LineEnd(f, p) + 1;
    LogonAtIs(f, p);
    ScanSeesLogons(line);
    if p == |f| {
      EmptyIsNoMessage(f, p);
    } else {
      var one, rest := MessageOf(line), Messages(f, next);
      assert Messages(f, p) == one + rest && (one + rest)[0] == one[0] && (one + rest)[1..] == rest;
      LogonsAreLines(f, next);
      MissedLater(f, p);
    }
  }

  // Where none is seen a logon can only be missed.
  lemma OnlyMissed(f: string, p: nat)
    requires NoneSeenFrom(f, p)
    ensures SomeLogonFrom(f, p) <==> !NoneMissedFrom(f, p)
  {
    if SomeLogonFrom(f, p) {
      var q: nat :| p <= q && LogonAt(f, q);
      assert MissedAt(f, q);
    }
    if !NoneMissedFrom(f, p) {
      var q: nat :| p <= q && MissedAt(f, q);
      assert LogonAt(f, q);
    }
  }

  lemma MissedLater(f: string, p: nat)
    requires LastSeenAt(f, p)
    ensures SomeLogonFrom(f, LineEnd(f, p) + 1) <==> !NoneMissedFrom(f, p)
  {
    ScanSeesLogons(LineAt(f, p));
    OnlyMissed(f, LineEnd(f, p) + 1);
    if !NoneMissedFrom(f, p) {
      var q: nat :| p <= q && MissedAt(f, q);
      NextLineStarts(f, p, q);
    }
  }

  // --- the scan itself ----------------------------------------------------

  // Where the scan stops: at the last line it takes for a logon. A newline at
  // the very start of the file goes with the line after it.
  ghost predicate StopsAt(f: string, p: nat) {
    LastSeenAt(f, p) || (p == 0 && f != [] && f[0] == NEWLINE && LastSeenAt(f, 1))
  }

  lemma StopsAtLogon(f: string, p: nat)
    requires StopsAt(f, p)
    ensures p < |f| && StartsLine(f, p) && Messages(f, p) != [] && IsLogon(Messages(f, p)[0])
    ensures StartsAtLastLogon(Messages(f, p)) <==> NoneMissedFrom(f, p)
  {
    if LastSeenAt(f, p) {
      LastSeenIsLast(f, p);
    } else {
      LastSeenIsLast(f, 1);
      EmptyFirstLine(f);
      FirstLineIsEmpty(f);
    }
  }

  lemma FirstLineIsEmpty(f: string)
    requires f != [] && f[0] == NEWLINE
    ensures !SeenAt(f, 0) && !MissedAt(f, 0)
  {
    LineDone(f, 0, 0);
    assert LineAt(f, 0) == [];
  }

  // What the scan says is right: it is the last logon, or there is none.
  ghost predicate RightAnswer(f: string, found: bool, replayFrom: nat) {
    if found then StartsAtLastLogon(Messages(f, replayFrom)) else !HasLogon(Messages(f, 0))
  }

  // Going backwards from the end, the scan stops at the last line it takes for
  // a logon, or finds none. That is the last logon of the file, or there is
  // none, exactly if no line after it is missed.
  method FindLastLogon(f: string) returns (found: bool, replayFrom: nat)
    ensures found ==> StopsAt(f, replayFrom)
    ensures !found ==> NoneSeenFrom(f, 0)
    ensures RightAnswer(f, found, replayFrom) <==> NoneMissedFrom(f, if found then replayFrom else 0)
  {
    var lineEnd: nat, pos: nat := |f|, |f|;
    found, replayFrom := false, 0;
    NothingScanned(f);
    while pos > 0
      invariant Scanned(f, pos, lineEnd)
    {
      pos := pos - 1;
      if f[pos] == NEWLINE || pos == 0 {
        var lineStart := if pos == 0 then pos else pos + 1;
        if pos == 0 {
          FirstLineScanned(f, lineEnd);
        } else {
          LineScanned(f, pos, lineEnd);
        }
        var line := f[lineStart..lineEnd];
        if lineEnd > lineStart {
          if LogonLine(line) {
            StopsAtLogon(f, lineStart);
            return true, lineStart;
          }
        }
        lineEnd := pos;
      } else {
        CharScanned(f, pos, lineEnd);
      }
    }
    LogonsAreLines(f, 0);
    OnlyMissed(f, 0);
  }

  // The line that ends at `lineEnd` is looked at; none after it was a logon.
  ghost predicate Scanned(f: string, pos: nat, lineEnd: nat) {
    && pos <= lineEnd <= |f|
    && (pos > 0 ==>
          && NEWLINE !in f[pos..lineEnd] && (lineEnd < |f| ==> f[lineEnd] == NEWLINE)
          && NoneSeenFrom(f, lineEnd + 1))
    && (pos == 0 ==> NoneSeenFrom(f, 0))
  }

  lemma NothingScanned(f: string)
    ensures Scanned(f, |f|, |f|)
  {
    assert f[|f|..|f|] == [];
    if f == [] {
      assert forall q: nat :: StartsLine(f, q) ==> LineAt(f, q) == [];
    }
  }

  lemma CharScanned(f: string, pos: nat, lineEnd: nat)
    requires pos > 0 && pos < |f| && Scanned(f, pos + 1, lineEnd) && f[pos] != NEWLINE
    ensures Scanned(f, pos, lineEnd)
  {
    OneMoreChar(f, pos, lineEnd);
  }

  // A whole line was looked at: it is the last seen, or none is from it on.
  lemma WholeLine(f: string, start: nat, lineEnd: nat)
    requires StartsLine(f, start) && start <= lineEnd <= |f| && NoneSeenFrom(f, lineEnd + 1)
    requires NEWLINE !in f[start..lineEnd] && (lineEnd < |f| ==> f[lineEnd] == NEWLINE)
    ensures if LogonLine(f[start..lineEnd]) then start < lineEnd && LastSeenAt(f, start) else NoneSeenFrom(f, start)
  {
    LineDone(f, start, lineEnd);
    EmptyIsNoLogon(f[start..lineEnd]);
    forall q: nat | start < q && StartsLine(f, q) ensures lineEnd + 1 <= q {
      NextLineStarts(f, start, q);
    }
  }

  lemma LineScanned(f: string, pos: nat, lineEnd: nat)
    requires 0 < pos < |f| && Scanned(f, pos + 1, lineEnd) && f[pos] == NEWLINE
    ensures if LogonLine(f[pos + 1..lineEnd]) then pos + 1 < lineEnd && StopsAt(f, pos + 1) else Scanned(f, pos, pos)
  {
    WholeLine(f, pos + 1, lineEnd);
    assert f[pos..pos] == [];
  }

  // The line at the start of the file, which may begin with a newline.
  lemma FirstLineScanned(f: string, lineEnd: nat)
    requires f != [] && Scanned(f, 1, lineEnd)
    ensures if LogonLine(f[0..lineEnd]) then 0 < lineEnd && StopsAt(f, 0) else NoneSeenFrom(f, 0)
  {
    if f[0] == NEWLINE {
      LeadingNewline(f, lineEnd);
      WholeLine(f, 1, lineEnd);
      FirstLineIsEmpty(f);
    } else {
      OneMoreChar(f, 0, lineEnd);
      WholeLine(f, 0, lineEnd);
    }
  }
}
