// Runs of the gateway and what the environment guarantees about them.
module GatewayRuns {
  import opened Common
  import opened OrderBook
  import opened GatewayModel

  // The handler takes the order on: it will be given a cloid and sent.
  predicate Accepts(w: World, r: OrderRequest) {
    && !w.isReplay
    && w.connected
    && r.securityId in w.ref.securities
    && AssetOf(w.ref.securities[r.securityId]).Some?
  }

  // A traversal of a hash map visits every key exactly once.
  ghost predicate Enumerates(order: seq<string>, keys: set<string>) {
    && (forall i, j :: 0 <= i < j < |order| ==> order[i] != order[j])
    && (forall c :: c in order <==> c in keys)
  }

  // The assumptions on one event: an accepted order has a client id that is
  // non-empty and not in use, and a cloid never seen before; the exchange does
  // not report an oid under two cloids; a sweep visits the whole state map.
  ghost predicate Admissible(w: World, seen: set<string>, e: Event) {
    match e
    case NewOrder(r, cloid, now) =>
      Accepts(w, r) ==> r.clientOrderId != "" && r.clientOrderId !in w.book.clientToCloid && cloid !in seen
    case OrderUpdate(u, now, order) =>
      && (u.oid in w.book.oidToCloid ==> w.book.oidToCloid[u.oid] == u.cloid)
      && Enumerates(order, w.book.cloidToState.Keys)
    case UserFill(f, now, order) => Enumerates(order, w.book.cloidToState.Keys)
    case _ => true
  }

  function Mentions(e: Event): set<string> {
    match e
    case NewOrder(r, cloid, now) => {cloid}
    case OrderUpdate(u, now, order) => {u.cloid}
    case _ => {}
  }

  ghost predicate ValidRun(w: World, seen: set<string>, es: seq<Event>)
    decreases |es|
  {
    es == [] || (Admissible(w, seen, es[0]) && ValidRun(Step(w, es[0]), seen + Mentions(es[0]), es[1..]))
  }

  function AllMentions(es: seq<Event>): set<string> {
    if es == [] then {} else Mentions(es[0]) + AllMentions(es[1..])
  }

  // The empty string is no cloid: the code reads it as "none".
  const SEEN_INITIALLY: set<string> := {""}

  lemma {:induction false} RunAppend(w: World, xs: seq<Event>, ys: seq<Event>)
    ensures Run(w, xs + ys) == Run(Run(w, xs), ys)
    decreases |xs|
  {
    if xs == [] {
      assert xs + ys == ys;
    } else {
      assert (xs + ys)[0] == xs[0] && (xs + ys)[1..] == xs[1..] + ys;
      RunAppend(Step(w, xs[0]), xs[1..], ys);
    }
  }

  lemma {:induction false} ValidRunSplit(w: World, seen: set<string>, xs: seq<Event>, ys: seq<Event>)
    requires ValidRun(w, seen, xs + ys)
    ensures ValidRun(w, seen, xs)
    ensures ValidRun(Run(w, xs), seen + AllMentions(xs), ys)
    decreases |xs|
  {
    if xs == [] {
      assert xs + ys == ys;
      assert seen + AllMentions(xs) == seen;
    } else {
      assert (xs + ys)[0] == xs[0] && (xs + ys)[1..] == xs[1..] + ys;
      ValidRunSplit(Step(w, xs[0]), seen + Mentions(xs[0]), xs[1..], ys);
      assert seen + Mentions(xs[0]) + AllMentions(xs[1..]) == seen + AllMentions(xs);
    }
  }

  lemma {:induction false} ValidRunJoin(w: World, seen: set<string>, xs: seq<Event>, ys: seq<Event>)
    requires ValidRun(w, seen, xs) && ValidRun(Run(w, xs), seen + AllMentions(xs), ys)
    ensures ValidRun(w, seen, xs + ys)
    ensures AllMentions(xs + ys) == AllMentions(xs) + AllMentions(ys)
    decreases |xs|
  {
    if xs == [] {
      assert xs + ys == ys;
      assert seen + AllMentions(xs) == seen;
    } else {
      assert (xs + ys)[0] == xs[0] && (xs + ys)[1..] == xs[1..] + ys;
      assert seen + Mentions(xs[0]) + AllMentions(xs[1..]) == seen + AllMentions(xs);
      ValidRunJoin(Step(w, xs[0]), seen + Mentions(xs[0]), xs[1..], ys);
    }
  }

  // --- quiet times --------------------------------------------------------

  // At this time no waiting fill and no IOC order times out.
  ghost predicate Quiet(w: World, now: int) {
    && (forall b :: b in w.buffered ==> !Stale(b, now))
    && (forall c :: !IocDue(w.book, w.iocTimeoutSecs, c, now))
  }

  lemma AllFresh(buffered: seq<BufferedFill>, now: int)
    requires forall b :: b in buffered ==> !Stale(b, now)
    ensures FreshFills(buffered, now) == buffered && ExpiredLog(buffered, now) == []
  {
  }

  lemma NoneDue(b: Book, timeoutSecs: int, order: seq<string>, now: int)
    requires forall c :: !IocDue(b, timeoutSecs, c, now)
    ensures DueOrders(b, timeoutSecs, order, now) == []
  {
  }

  lemma QuietChangesNothing(w: World, now: int, order: seq<string>)
    requires Quiet(w, now)
    ensures CheckTimeouts(w, now, order) == w
  {
    AllFresh(w.buffered, now);
    NoneDue(w.book, w.iocTimeoutSecs, order, now);
    assert w.log + [] == w.log;
  }

  lemma EmitFillQuiet(w: World, f: Fill, client: string, cloid: string, now: int)
    requires Quiet(w, now) && cloid in w.book.cloidToState
    ensures Quiet(EmitFill(w, f, client, cloid), now)
  {
    var b := w.book.ApplyFill(cloid, f.sz);
    assert forall c :: c in b.cloidToState ==>
             c in w.book.cloidToState && b.cloidToState[c].isIoc == w.book.cloidToState[c].isIoc
                                               && b.cloidToState[c].createdAt == w.book.cloidToState[c].createdAt;
    assert forall c :: IocDue(b, w.iocTimeoutSecs, c, now) ==> IocDue(w.book, w.iocTimeoutSecs, c, now);
    assert forall c :: IocDue(b.RemoveOrder(cloid), w.iocTimeoutSecs, c, now) ==> IocDue(b, w.iocTimeoutSecs, c, now);
  }

  // A sweep brings no order to life.
  lemma {:induction false} StillNotLive(w: World, due: seq<string>, c: string)
    requires !w.book.Live(c)
    ensures !TimeOutOrders(w, due).book.Live(c)
    decreases |due|
  {
    if due != [] {
      StillNotLive(TimeOutOrder(w, due[0]), due[1..], c);
    }
  }
}
