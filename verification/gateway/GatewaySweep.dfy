// The IOC sweep: every overdue IOC order is cancelled once and forgotten, and
// no other order is touched.
module GatewaySweep {
  import opened Common
  import opened OrderBook
  import opened GatewayModel
  import opened GatewayRuns
  import opened GatewayCoherence

  predicate Distinct(cs: seq<string>) {
    forall i, j :: 0 <= i < j < |cs| ==> cs[i] != cs[j]
  }

  lemma {:induction false} DueOrdersAreTheDue(b: Book, timeoutSecs: int, order: seq<string>, now: int)
    requires Distinct(order)
    ensures Distinct(DueOrders(b, timeoutSecs, order, now))
    ensures forall c :: c in DueOrders(b, timeoutSecs, order, now) <==> c in order && IocDue(b, timeoutSecs, c, now)
  {
    if order != [] {
      DueOrdersAreTheDue(b, timeoutSecs, order[1..], now);
      assert order == [order[0]] + order[1..];
      assert order[0] !in order[1..];
    }
  }

  // The orders `cs` are gone from all six maps and every other order keeps its
  // entries: its client id in both directions, its state, its oids, its asset.
  ghost predicate Forgot(b: Book, b': Book, cs: set<string>) {
    && b'.cloidToState == b.cloidToState - cs
    && b'.cloidToClient == b.cloidToClient - cs
    && b'.cloidToOid == b.cloidToOid - cs
    && b'.cloidToAsset == b.cloidToAsset - cs
    && b'.clientToCloid == Without(b.clientToCloid, cs)
    && b'.oidToCloid == Without(b.oidToCloid, cs)
  }

  // The entries that lead to none of `cs`.
  function Without<K>(m: map<K, string>, cs: set<string>): map<K, string> {
    map k | k in m && m[k] !in cs :: m[k]
  }

  function TimeoutLog(b: Book, due: seq<string>): seq<Output> {
    if due == [] then [] else [TimeoutReport(b, due[0])] + TimeoutLog(b, due[1..])
  }

  lemma TimeoutLogAt(b: Book, due: seq<string>, i: nat)
    requires i < |due|
    ensures |TimeoutLog(b, due)| == |due| && TimeoutLog(b, due)[i] == TimeoutReport(b, due[i])
  {
    if |due| > 1 {
      TimeoutLogAt(b, due[1..], if i == 0 then 0 else i - 1);
    }
  }

  lemma TimeoutLogFrame(b: Book, b': Book, due: seq<string>)
    requires forall c :: c in due ==> b'.ClientOf(c) == b.ClientOf(c) && b'.StateOf(c) == b.StateOf(c)
    ensures TimeoutLog(b', due) == TimeoutLog(b, due)
  {
  }

  lemma ForgotTrans(b: Book, b': Book, b'': Book, c: string, cs: set<string>)
    requires Forgot(b, b', {c}) && Forgot(b', b'', cs)
    ensures Forgot(b, b'', {c} + cs)
  {
    assert b.cloidToState - {c} - cs == b.cloidToState - ({c} + cs);
    assert b.cloidToClient - {c} - cs == b.cloidToClient - ({c} + cs);
    assert b.cloidToOid - {c} - cs == b.cloidToOid - ({c} + cs);
    assert b.cloidToAsset - {c} - cs == b.cloidToAsset - ({c} + cs);
    assert Without(Without(b.clientToCloid, {c}), cs) == Without(b.clientToCloid, {c} + cs);
    assert Without(Without(b.oidToCloid, {c}), cs) == Without(b.oidToCloid, {c} + cs);
  }

  predicate Known(b: Book, c: string) {
    c in b.cloidToState && b.ClientOf(c) != ""
  }

  lemma TimeOutOrderForgets(w: World, c: string)
    requires Known(w.book, c) && MutualInverses(w.book)
    ensures Forgot(w.book, TimeOutOrder(w, c).book, {c}) && MutualInverses(TimeOutOrder(w, c).book)
  {
    var b, b' := w.book, TimeOutOrder(w, c).book;
    assert b'.clientToCloid == b.clientToCloid - {b.cloidToClient[c]};
    assert b'.clientToCloid == Without(b.clientToCloid, {c});
  }

  lemma TimeOutOrderReports(w: World, c: string)
    requires Known(w.book, c)
    ensures TimeOutOrder(w, c).log == w.log + [TimeoutReport(w.book, c)]
    ensures forall d :: d != c ==> TimeOutOrder(w, c).book.ClientOf(d) == w.book.ClientOf(d)
                                   && TimeOutOrder(w, c).book.StateOf(d) == w.book.StateOf(d)
                                   && (Known(w.book, d) ==> Known(TimeOutOrder(w, c).book, d))
  {
  }

  // Timing out distinct known orders removes exactly them ...
  lemma {:induction false} TimeOutOrdersForget(w: World, due: seq<string>)
    requires MutualInverses(w.book) && Distinct(due) && forall c :: c in due ==> Known(w.book, c)
    ensures Forgot(w.book, TimeOutOrders(w, due).book, set c | c in due)
    decreases |due|
  {
    if due != [] {
      var w1, rest := TimeOutOrder(w, due[0]), due[1..];
      assert (set c | c in due) == {due[0]} + (set c | c in rest);
      TimeOutOrderForgets(w, due[0]);
      TimeOutOrderReports(w, due[0]);
      TimeOutOrdersForget(w1, rest);
      ForgotTrans(w.book, w1.book, TimeOutOrders(w1, rest).book, due[0], set c | c in rest);
    }
  }

  // ... and writes for each the report made from the state it had before the
  // sweep.
  lemma {:induction false} TimeOutOrdersReport(w: World, due: seq<string>)
    requires Distinct(due) && forall c :: c in due ==> Known(w.book, c)
    ensures TimeOutOrders(w, due).log == w.log + TimeoutLog(w.book, due)
    decreases |due|
  {
    if due != [] {
      var w1, rest := TimeOutOrder(w, due[0]), due[1..];
      TimeOutOrderReports(w, due[0]);
      TimeOutOrdersReport(w1, rest);
      TimeoutLogFrame(w.book, w1.book, rest);
      var first, others := [TimeoutReport(w.book, due[0])], TimeoutLog(w.book, rest);
      calc {
        TimeOutOrders(w, due).log;
        w1.log + others;
        w.log + first + others;
        w.log + (first + others);
      }
    }
  }

  // After a sweep in any coherent state, over any traversal of the state map:
  // nothing overdue is left; the reports written are one CANCELLED per overdue
  // order, made from its own state; every other order is as it was.
  lemma SweepExact(w: World, seen: set<string>, now: int, order: seq<string>)
    requires Coherent(w.book, seen) && Enumerates(order, w.book.cloidToState.Keys)
    ensures var due := DueOrders(w.book, w.iocTimeoutSecs, order, now);
            var w' := CheckTimeouts(w, now, order);
            && Distinct(due)
            && (forall c :: c in due <==> IocDue(w.book, w.iocTimeoutSecs, c, now))
            && w'.log == w.log + ExpiredLog(w.buffered, now) + TimeoutLog(w.book, due)
            && Forgot(w.book, w'.book, set c | c in due)
            && (forall c :: !IocDue(w'.book, w.iocTimeoutSecs, c, now))
  {
    var due := DueOrders(w.book, w.iocTimeoutSecs, order, now);
    DueOrdersAreTheDue(w.book, w.iocTimeoutSecs, order, now);
    TimeOutOrdersForget(ExpireFills(w, now), due);
    TimeOutOrdersReport(ExpireFills(w, now), due);
    var w' := CheckTimeouts(w, now, order);
    forall c ensures !IocDue(w'.book, w.iocTimeoutSecs, c, now) {
      if IocDue(w.book, w.iocTimeoutSecs, c, now) {
        assert c in due;
      }
    }
  }

  // What an expired order's one report says.
  lemma TimeoutReportOfDue(w: World, seen: set<string>, now: int, order: seq<string>, i: nat)
    requires Coherent(w.book, seen) && Enumerates(order, w.book.cloidToState.Keys)
    requires i < |DueOrders(w.book, w.iocTimeoutSecs, order, now)|
    ensures var c := DueOrders(w.book, w.iocTimeoutSecs, order, now)[i];
            var start := |w.log| + |ExpiredLog(w.buffered, now)|;
            var log := CheckTimeouts(w, now, order).log;
            && start + i < |log| && log[start + i].Exec?
            && log[start + i].cloid == c && log[start + i].status == CANCELLED
            && c in w.book.cloidToClient && log[start + i].clientOrderId == w.book.cloidToClient[c] != ""
            && c in w.book.cloidToState && log[start + i].cumQty == w.book.cloidToState[c].cumQty
            && log[start + i].leavesQty == 0
  {
    SweepExact(w, seen, now, order);
    var due := DueOrders(w.book, w.iocTimeoutSecs, order, now);
    assert due[i] in due;
    TimeoutLogAt(w.book, due, i);
    var log := CheckTimeouts(w, now, order).log;
    assert log[|w.log| + |ExpiredLog(w.buffered, now)| + i] == TimeoutLog(w.book, due)[i];
  }
}
