// Priming a replay from the last logon of a capture.
module Priming {
  // With output off, that leaves the processor as replaying the whole capture
  // would.

  import opened Common
  import opened Registry
  import opened DeribitModel
  import opened DeribitProcessor
  import opened FileModel
  import opened FileProcessor
  import opened Capture

  // --- replaying ----------------------------------------------------------

  // `parse` is what a full parse makes of a message.
  function Replay(s: FileState, hash: string -> nat, parse: string -> Event, texts: seq<string>): FileState
    decreases |texts|
  {
    if texts == [] then s else Replay(ProcessText(s, hash, texts[0], parse(texts[0])), hash, parse, texts[1..])
  }

  // A processor that has seen nothing and writes nothing.
  function Silent(configured: set<string>): FileState {
    FileState(false, Initial(configured).(market := EMPTY.(output := false)))
  }

  function Events(texts: seq<string>, parse: string -> Event): seq<Event> {
    seq(|texts|, i requires 0 <= i < |texts| => parse(texts[i]))
  }

  lemma {:induction false} ReplayTwice(s: FileState, hash: string -> nat, parse: string -> Event, a: seq<string>,
                                       b: seq<string>)
    ensures Replay(s, hash, parse, a + b) == Replay(Replay(s, hash, parse, a), hash, parse, b)
    decreases |a|
  {
    if a == [] {
      assert a + b == b;
    } else {
      TailOfConcat(a, b);
      ReplayTwice(ProcessText(s, hash, a[0], parse(a[0])), hash, parse, a[1..], b);
    }
  }

  // --- silence ------------------------------------------------------------

  // Nothing is written while output is off, and the perpetual currencies are
  // the configured ones or none.
  predicate Quiet(d: Deribit) {
    !d.market.output && d.market.stream == [] && d.perpCurrencies in {{}, d.configured}
  }

  predicate SilentMarket(m: Market) {
    !m.output && m.stream == []
  }

  lemma {:induction false} SweepSilently(m: Market, time: int, order: seq<int>)
    requires SilentMarket(m)
    ensures SilentMarket(Sweep(m, time, order)) && Sweep(m, time, order).connection == m.connection
    decreases |order|
  {
    if order != [] {
      SweepSilently(SweepOne(m, time, order[0]), time, order[1..]);
    }
  }

  lemma {:induction false} DefineSilently(m: Market, hash: string -> nat, perpOnlyReq: bool,
                                          perpCurrencies: set<string>, time: int, listed: seq<Listed>)
    requires SilentMarket(m)
    ensures SilentMarket(DefineAll(m, hash, perpOnlyReq, perpCurrencies, time, listed))
    decreases |listed|
  {
    if listed != [] {
      var m' := if Wanted(perpOnlyReq, perpCurrencies, listed[0]) then Define(m, hash, listed[0].symbol, time) else m;
      DefineSilently(m', hash, perpOnlyReq, perpCurrencies, time, listed[1..]);
    }
  }

  lemma StepSilently(d: Deribit, hash: string -> nat, e: Event)
    requires Quiet(d) && !e.SetOutput?
    ensures Quiet(Step(d, hash, e)) && Step(d, hash, e).configured == d.configured
  {
    match e
    case SecurityList(reqId, time, listed) =>
      DefineSilently(d.market, hash, reqId in d.perpOnly, d.perpCurrencies, time, listed);
    case Logon(time, order) =>
      SweepSilently(d.market, time, order);
    case Logout(time, order) =>
      SweepSilently(d.market, time, order);
    case _ =>
  }

  lemma {:induction false} ReplaySilently(s: FileState, hash: string -> nat, parse: string -> Event, texts: seq<string>)
    requires Quiet(s.deribit) && forall t :: !parse(t).SetOutput?
    ensures Quiet(Replay(s, hash, parse, texts).deribit)
            && Replay(s, hash, parse, texts).deribit.configured == s.deribit.configured
    decreases |texts|
  {
    if texts != [] {
      StepSilently(s.deribit, hash, parse(texts[0]));
      ReplaySilently(ProcessText(s, hash, texts[0], parse(texts[0])), hash, parse, texts[1..]);
    }
  }

  // --- the same from the logon on -----------------------------------------

  // Everything but what is remembered of requests for perpetuals.
  predicate Same(whole: Deribit, part: Deribit) {
    && whole.market == part.market && whole.pending == part.pending && whole.configured == part.configured
    && part.perpOnly <= whole.perpOnly
    && (part.perpCurrencies != {} ==> whole.perpCurrencies == part.perpCurrencies)
  }

  // No response relies on a request that only the whole capture knows of.
  ghost predicate Reregisters(whole: Deribit, part: Deribit, es: seq<Event>) {
    forall k :: 0 <= k < |es| && es[k].SecurityList? ==>
                  && (es[k].reqId in whole.perpOnly - part.perpOnly ==>
                        exists j :: 0 <= j < k && IsPerpRequest(es[j], part.configured) && es[j].reqId == es[k].reqId)
                  && (whole.perpCurrencies != part.perpCurrencies ==>
                        exists j :: 0 <= j < k && IsPerpRequest(es[j], part.configured))
  }

  lemma StepSame(whole: Deribit, part: Deribit, hash: string -> nat, e: Event)
    requires Same(whole, part)
    requires e.SecurityList? ==>
               (e.reqId in whole.perpOnly <==> e.reqId in part.perpOnly) && whole.perpCurrencies == part.perpCurrencies
    ensures Same(Step(whole, hash, e), Step(part, hash, e))
  {
  }

  // A request the head of the events re-registers need not be in the tail.
  lemma ReregistersTail(whole: Deribit, part: Deribit, hash: string -> nat, es: seq<Event>)
    requires es != [] && Same(whole, part) && Reregisters(whole, part, es)
    ensures Reregisters(Step(whole, hash, es[0]), Step(part, hash, es[0]), es[1..])
  {
    var w, f, rest := Step(whole, hash, es[0]), Step(part, hash, es[0]), es[1..];
    forall k | 0 <= k < |rest| && rest[k].SecurityList?
      ensures rest[k].reqId in w.perpOnly - f.perpOnly ==>
                exists j :: 0 <= j < k && IsPerpRequest(rest[j], f.configured) && rest[j].reqId == rest[k].reqId
      ensures w.perpCurrencies != f.perpCurrencies ==> exists j :: 0 <= j < k && IsPerpRequest(rest[j], f.configured)
    {
      assert es[k + 1] == rest[k];
      if rest[k].reqId in w.perpOnly - f.perpOnly {
        var j :| 0 <= j < k + 1 && IsPerpRequest(es[j], part.configured) && es[j].reqId == es[k + 1].reqId;
        assert rest[j - 1] == es[j];
      }
      if w.perpCurrencies != f.perpCurrencies {
        var j :| 0 <= j < k + 1 && IsPerpRequest(es[j], part.configured);
        assert rest[j - 1] == es[j];
      }
    }
  }

  lemma {:induction false} ReplaySame(whole: Deribit, part: Deribit, hash: string -> nat, parse: string -> Event,
                                      texts: seq<string>)
    requires Same(whole, part) && Reregisters(whole, part, Events(texts, parse))
    ensures Same(Replay(FileState(true, whole), hash, parse, texts).deribit,
                 Replay(FileState(true, part), hash, parse, texts).deribit)
    decreases |texts|
  {
    if texts != [] {
      var es := Events(texts, parse);
      assert es[1..] == Events(texts[1..], parse);
      StepSame(whole, part, hash, es[0]);
      ReregistersTail(whole, part, hash, es);
      ReplaySame(Step(whole, hash, es[0]), Step(part, hash, es[0]), hash, parse, texts[1..]);
    }
  }

  // A logon leaves nothing of the session before, if that was online or had
  // no security.
  predicate StartsAnew(d: Deribit) {
    d.market.connection == ConnectionOnline || (d.market.securities == map[] && d.market.ids == map[])
  }

  // Right after a logon the whole replay and the primed one are the same if and
  // only if the session before leaves nothing.
  lemma LogonStartsAnew(whole: Deribit, configured: set<string>, hash: string -> nat, e: Event)
    requires e.Logon? && Quiet(whole) && whole.configured == configured
    ensures Same(Step(whole, hash, e), Step(Silent(configured).deribit, hash, e)) <==> StartsAnew(whole)
  {
    SweepSilently(whole.market, e.time, e.order);
  }

  // What is asked of the capture: the first message from `q` on parses as a
  // logon, the session before it leaves nothing, and no later response relies
  // on a request made in it.
  ghost predicate Suffices(f: string, q: nat, configured: set<string>, hash: string -> nat, parse: string -> Event)
    requires StartsLine(f, q) && Messages(f, q) != []
  {
    var before := Replay(Silent(configured), hash, parse, Messages(f[..q], 0)).deribit;
    && parse(Messages(f, q)[0]).Logon?
    && StartsAnew(before)
    && Reregisters(before, Silent(configured).deribit, Events(Messages(f, q)[1..], parse))
  }

  ghost predicate LikeWholeReplay(s: FileState, f: string, configured: set<string>, hash: string -> nat,
                                  parse: string -> Event) {
    var whole := Replay(Silent(configured), hash, parse, Messages(f, 0)).deribit;
    whole.market == s.deribit.market && whole.pending == s.deribit.pending
  }

  // Replaying from a logon at `q` gives the registry, the statuses, the
  // connection and the pending lists of replaying everything.
  lemma PrimingIsEnough(f: string, q: nat, configured: set<string>, hash: string -> nat, parse: string -> Event)
    requires forall t :: !parse(t).SetOutput?
    requires StartsLine(f, q) && Messages(f, q) != [] && IsLogon(Messages(f, q)[0])
    requires Suffices(f, q, configured, hash, parse)
    ensures LikeWholeReplay(Replay(Silent(configured), hash, parse, Messages(f, q)), f, configured, hash, parse)
  {
    var silent := Silent(configured);
    var texts := Messages(f, q);
    ReadingSplits(f, 0, q);
    ReplayTwice(silent, hash, parse, Messages(f[..q], 0), texts);
    ReplaySilently(silent, hash, parse, Messages(f[..q], 0));
    var before := Replay(silent, hash, parse, Messages(f[..q], 0)).deribit;
    var e := parse(texts[0]);
    LogonStartsAnew(before, configured, hash, e);
    ReregistersAfterLogon(before, silent.deribit, hash, e, Events(texts[1..], parse));
    ReplaySame(Step(before, hash, e), Step(silent.deribit, hash, e), hash, parse, texts[1..]);
  }

  lemma ReregistersAfterLogon(whole: Deribit, part: Deribit, hash: string -> nat, e: Event, es: seq<Event>)
    requires e.Logon? && Reregisters(whole, part, es)
    ensures Reregisters(Step(whole, hash, e), Step(part, hash, e), es)
  {
  }

  // --- the runner ---------------------------------------------------------

  // The free ids suffice for every response of the replay.
  ghost predicate Roomy(s: FileState, hash: string -> nat, parse: string -> Event, texts: seq<string>)
    decreases |texts|
  {
    texts == [] || (
      && (parse(texts[0]).SecurityList? ==> |s.deribit.market.securities| + |parse(texts[0]).listed| <= MAX_ID)
      && Roomy(ProcessText(s, hash, texts[0], parse(texts[0])), hash, parse, texts[1..]))
  }

  method ProcessAll(p: FileMessageProcessor, parse: string -> Event, texts: seq<string>)
    requires p.Valid() && forall i :: 0 <= i < |texts| ==> Faithful(texts[i], parse(texts[i]))
    requires Roomy(p.State(), p.processor.mp.hash, parse, texts)
    modifies p, p.lightMsg, p.lightMsg.fields, p.clock, p.processor, p.processor.mp
    ensures p.Valid() && p.State() == Replay(old(p.State()), p.processor.mp.hash, parse, texts)
  {
    var i := 0;
    assert texts[0..] == texts;
    while i < |texts|
      invariant i <= |texts| && p.Valid()
      invariant Roomy(p.State(), p.processor.mp.hash, parse, texts[i..])
      invariant Replay(p.State(), p.processor.mp.hash, parse, texts[i..])
                == Replay(old(p.State()), p.processor.mp.hash, parse, texts)
    {
      assert texts[i..][0] == texts[i] && texts[i..][1..] == texts[i + 1..];
      p.Process(texts[i], parse(texts[i]));
      i := i + 1;
    }
  }

  function Silenced(s: FileState): FileState {
    s.(deribit := s.deribit.(market := s.deribit.market.(output := false)))
  }

  ghost predicate AllFaithful(texts: seq<string>, parse: string -> Event) {
    forall i :: 0 <= i < |texts| ==> Faithful(texts[i], parse(texts[i]))
  }

  lemma {:induction false} NothingBeforeLogon(s: FileState, hash: string -> nat, parse: string -> Event,
                                              texts: seq<string>)
    requires !s.seenLogon && !HasLogon(texts)
    ensures Replay(s, hash, parse, texts) == s
    decreases |texts|
  {
    if texts != [] {
      assert !IsLogon(texts[0]);
      assert forall i :: 0 <= i < |texts| - 1 ==> texts[1..][i] == texts[i + 1];
      NothingBeforeLogon(s, hash, parse, texts[1..]);
    }
  }

  // The state of a processor that was just made.
  predicate Untouched(s: FileState) {
    s == FileState(false, Initial(s.deribit.configured))
  }

  lemma PrimedLikeWhole(s: FileState, s': FileState, f: string, primed: bool, q: nat, hash: string -> nat,
                        parse: string -> Event)
    requires primed ==> StopsAt(f, q)
    requires s' == if primed then Replay(Silenced(s), hash, parse, Messages(f, q)) else Silenced(s)
    ensures primed ==> StartsLine(f, q) && Messages(f, q) != []
    ensures Untouched(s) && (forall t :: !parse(t).SetOutput?)
            && (if primed then Suffices(f, q, s.deribit.configured, hash, parse) else !HasLogon(Messages(f, 0))) ==>
              LikeWholeReplay(s', f, s.deribit.configured, hash, parse)
  {
    if primed {
      StopsAtLogon(f, q);
    }
    if Untouched(s) && (forall t :: !parse(t).SetOutput?) {
      assert Silenced(s) == Silent(s.deribit.configured);
      if primed {
        if Suffices(f, q, s.deribit.configured, hash, parse) {
          PrimingIsEnough(f, q, s.deribit.configured, hash, parse);
        }
      } else if !HasLogon(Messages(f, 0)) {
        NothingBeforeLogon(Silenced(s), hash, parse, Messages(f, 0));
      }
    }
  }

  // Prime a processor, with output off, from the capture of the day before:
  // from the last line that the scan takes for a logon on, if there is one.
  // What comes before is never parsed, so nothing is asked of it.
  method Prime(f: string, p: FileMessageProcessor, parse: string -> Event) returns (primed: bool, replayFrom: nat)
    requires p.Valid()
    requires forall q: nat :: StopsAt(f, q) ==>
               && AllFaithful(Messages(f, q), parse)
               && Roomy(Silenced(p.State()), p.processor.mp.hash, parse, Messages(f, q))
    modifies p, p.lightMsg, p.lightMsg.fields, p.clock, p.processor, p.processor.mp
    ensures p.Valid()
    ensures if primed then StopsAt(f, replayFrom) else NoneSeenFrom(f, 0)
    ensures RightAnswer(f, primed, replayFrom) <==> NoneMissedFrom(f, if primed then replayFrom else 0)
    ensures p.State() == if primed
                         then Replay(Silenced(old(p.State())), p.processor.mp.hash, parse, Messages(f, replayFrom))
                         else Silenced(old(p.State()))
    ensures primed ==> StartsLine(f, replayFrom) && Messages(f, replayFrom) != []
    ensures Untouched(old(p.State())) && (forall t :: !parse(t).SetOutput?)
            && (if primed then Suffices(f, replayFrom, old(p.State()).deribit.configured, p.processor.mp.hash, parse)
                else NoneMissedFrom(f, 0)) ==>
              LikeWholeReplay(p.State(), f, old(p.State()).deribit.configured, p.processor.mp.hash, parse)
  {
    ghost var s0 := p.State();
    p.processor.mp.SetShouldOutput(false);
    primed, replayFrom := FindLastLogon(f);
    if primed {
      StopsAtLogon(f, replayFrom);
      var texts := ReadFrom(f, replayFrom);
      ProcessAll(p, parse, texts);
    }
    PrimedLikeWhole(s0, p.State(), f, primed, replayFrom, p.processor.mp.hash, parse);
  }
}
