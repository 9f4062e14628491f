// After the report that ends an order no other report is written for it.
module GatewayLastWord {
  // Unless its place request fails as a whole later still.

  import opened Common
  import opened OrderBook
  import opened GatewayModel
  import opened GatewayRuns
  import opened GatewayCoherence
  import opened GatewayTerminal
  import opened GatewayRequests
  import RefData

  // --- the log only grows -------------------------------------------------

  lemma {:induction false} ReplayGrows(w: World, fills: seq<Fill>, oid: nat)
    ensures w.log <= ReplayEach(w, fills, oid).log
    decreases |fills|
  {
    if fills != [] {
      ReplayGrows(EmitFill(w, fills[0], w.book.ClientOfOid(oid), w.book.CloidOfOid(oid)), fills[1..], oid);
    }
  }

  lemma {:induction false} TimeOutsGrow(w: World, due: seq<string>)
    ensures w.log <= TimeOutOrders(w, due).log
    decreases |due|
  {
    if due != [] {
      TimeOutsGrow(TimeOutOrder(w, due[0]), due[1..]);
    }
  }

  lemma CheckTimeoutsGrows(w: World, now: int, order: seq<string>)
    ensures w.log <= CheckTimeouts(w, now, order).log
  {
    TimeOutsGrow(ExpireFills(w, now), DueOrders(w.book, w.iocTimeoutSecs, order, now));
  }

  lemma {:induction false} RejectsGrow(w: World, p: Pending, items: seq<ReplyItem>)
    ensures w.log <= RejectPlaceItems(w, p, items).log
    decreases |items|
  {
    if items != [] {
      if items[0].ItemError? && w.book.ClientOf(p.cloid) != "" {
        RejectsGrow(RejectPlace(w, p, items[0].text), p, items[1..]);
      } else {
        RejectsGrow(w, p, items[1..]);
      }
    }
  }

  lemma ReportUpdateGrows(w: World, u: Update)
    ensures w.log <= ReportUpdate(w, u).log
  {
    var w' := Emit(w, UpdateReport(w, u));
    ReplayGrows(w'.(buffered := FillsNotOf(w'.buffered, u.oid)), FillsOf(w'.buffered, u.oid), u.oid);
  }

  lemma TakeOpenGrows(w: World, u: Update)
    ensures w.log <= TakeOpen(w, u).log
  {
    ReportUpdateGrows(w.(book := OpenedBook(w.book, u, RefData.SymbolId(w.ref, u.coin))), u);
  }

  lemma TakeOtherGrows(w: World, u: Update)
    ensures w.log <= TakeOther(w, u).log
  {
    ReportUpdateGrows(w.(book := w.book.RegisterOid(u.oid, u.cloid)), u);
  }

  lemma OrderUpdateGrows(w: World, u: Update, now: int, order: seq<string>)
    ensures w.log <= OnOrderUpdate(w, u, now, order).log
  {
    CheckTimeoutsGrows(w, now, order);
    TakeOpenGrows(CheckTimeouts(w, now, order), u);
    TakeOtherGrows(CheckTimeouts(w, now, order), u);
  }

  lemma PlaceReplyGrows(w: World, r: Reply, corr: Option<nat>)
    ensures w.log <= OnPlaceReply(w, r, corr).log
  {
    RejectsGrow(w.(pendingPlaces := Drop(w.pendingPlaces, corr)), Take(w.pendingPlaces, corr), r.items);
  }

  lemma UserFillGrows(w: World, f: Fill, now: int, order: seq<string>)
    ensures w.log <= OnUserFill(w, f, now, order).log
  {
    CheckTimeoutsGrows(w, now, order);
  }

  lemma RequestGrows(w: World, e: Event)
    requires e.NewOrder? || e.AmendOrder? || e.CancelOrder?
    ensures w.log <= Step(w, e).log
  {
  }

  lemma StepGrows(w: World, e: Event)
    ensures w.log <= Step(w, e).log
  {
    match e {
      case NewOrder(_, _, _) => RequestGrows(w, e);
      case AmendOrder(_, _) => RequestGrows(w, e);
      case CancelOrder(_) => RequestGrows(w, e);
      case OrderUpdate(u, now, order) => OrderUpdateGrows(w, u, now, order);
      case UserFill(f, now, order) => UserFillGrows(w, f, now, order);
      case PlaceReply(r, corr) => PlaceReplyGrows(w, r, corr);
      case _ =>
    }
  }

  lemma {:induction false} RunGrows(w: World, es: seq<Event>)
    ensures w.log <= Run(w, es).log
    decreases |es|
  {
    if es != [] {
      StepGrows(w, es[0]);
      RunGrows(Step(w, es[0]), es[1..]);
    }
  }

  // --- orders that ended --------------------------------------------------

  ghost predicate Ended(log: seq<Output>, c: string, filledEnds: bool) {
    exists i :: 0 <= i < |log| && Ends(log[i], c, filledEnds)
  }

  // A report for the order that comes after one that ended it.
  ghost predicate Stray(log: seq<Output>, j: nat, c: string, filledEnds: bool) {
    j < |log| && About(log[j], c) && Ended(log[..j], c, filledEnds)
  }

  // Some place request of the order fails as a whole after the order ended.
  ghost predicate LateFailure(w: World, es: seq<Event>, c: string, filledEnds: bool)
    decreases |es|
  {
    && es != []
    && (|| (Ended(w.log, c, filledEnds) && PlaceFails(w, es[0], c))
        || LateFailure(Step(w, es[0]), es[1..], c, filledEnds))
  }

  // What is known of an order at every moment of a run.
  ghost predicate OrderInv(w: World, seen: set<string>, c: string, filledEnds: bool) {
    && c != "" && Coherent(w.book, seen) && PlacedOnce(w, seen, c)
    && (c !in seen ==> NoReport(w.log, 0, c))
    && (Ended(w.log, c, filledEnds) ==> !w.book.Live(c))
  }

  lemma EndedWasSeen(w: World, seen: set<string>, c: string, filledEnds: bool)
    requires OrderInv(w, seen, c, filledEnds) && Ended(w.log, c, filledEnds)
    ensures c in seen
  {
  }

  lemma NotEndedInv(w: World, c: string, filledEnds: bool, dead: bool)
    requires c != "" && !Ended(w.log, c, filledEnds)
    requires dead ==> !w.book.Live(c) && NoReport(w.log, 0, c)
    ensures Inv(w, Watch(c, filledEnds, dead, []))
  {
  }

  // The report names the cloid but has no client id to give.
  predicate Nameless(o: Output, c: string) {
    About(o, c) && o.cause == PlaceReject && o.status == REJECTED && o.clientOrderId == "" && o.origClientOrderId == ""
  }

  lemma FailsWhenGone(w: World, e: Event, c: string)
    requires c != "" && PlaceFails(w, e, c) && !w.book.Live(c)
    ensures var o := RejectReport(w.book, PlaceReject, w.pendingPlaces[e.corr.value], e.reply.status);
            && Step(w, e).log == w.log + [o] && Nameless(o, c) && !Step(w, e).book.Live(c)
  {
  }

  // Any other event writes nothing for an order that is gone.
  lemma GoneStaysSilent(w: World, seen: set<string>, e: Event, c: string)
    requires c != "" && Coherent(w.book, seen) && Admissible(w, seen, e)
    requires c in seen && !w.book.Live(c) && !PlaceFails(w, e, c)
    ensures w.log <= Step(w, e).log && NoReport(Step(w, e).log, |w.log|, c) && !Step(w, e).book.Live(c)
  {
    StepInv(w, seen, e, Watch(c, false, true, w.log));
  }

  lemma NotGoneInv(w: World, seen: set<string>, e: Event, c: string, filledEnds: bool)
    requires OrderInv(w, seen, c, filledEnds) && Admissible(w, seen, e) && (filledEnds ==> NotIoc(w, c))
    requires !Ended(w.log, c, filledEnds) && (PlaceFails(w, e, c) ==> w.book.Live(c))
    ensures Inv(Step(w, e), Watch(c, filledEnds, c !in seen + Mentions(e), []))
  {
    NotEndedInv(w, c, filledEnds, c !in seen + Mentions(e));
    StepInv(w, seen, e, Watch(c, filledEnds, c !in seen + Mentions(e), []));
  }

  lemma StepOrderInv(w: World, seen: set<string>, e: Event, c: string, filledEnds: bool)
    requires OrderInv(w, seen, c, filledEnds) && Admissible(w, seen, e) && (filledEnds ==> NotIoc(w, c))
    ensures OrderInv(Step(w, e), seen + Mentions(e), c, filledEnds)
  {
    StepCoherent(w, seen, e);
    StepPlacedOnce(w, seen, e, c);
    if PlaceFails(w, e, c) && !w.book.Live(c) {
      assert PendingPlace(w, e.corr.value, c);
      FailsWhenGone(w, e, c);
    } else if Ended(w.log, c, filledEnds) {
      EndedWasSeen(w, seen, c, filledEnds);
      GoneStaysSilent(w, seen, e, c);
    } else {
      NotGoneInv(w, seen, e, c, filledEnds);
    }
  }

  lemma {:induction false} RunOrderInv(w: World, seen: set<string>, es: seq<Event>, c: string, filledEnds: bool)
    requires OrderInv(w, seen, c, filledEnds) && ValidRun(w, seen, es) && (filledEnds ==> NeverIoc(w, es, c))
    ensures OrderInv(Run(w, es), seen + AllMentions(es), c, filledEnds)
    decreases |es|
  {
    if es == [] {
      assert seen + AllMentions(es) == seen;
    } else {
      StepOrderInv(w, seen, es[0], c, filledEnds);
      RunOrderInv(Step(w, es[0]), seen + Mentions(es[0]), es[1..], c, filledEnds);
      assert seen + Mentions(es[0]) + AllMentions(es[1..]) == seen + AllMentions(es);
    }
  }

  lemma InitialOrderInv(iocTimeoutSecs: int, c: string, filledEnds: bool)
    requires c != ""
    ensures OrderInv(Initial(iocTimeoutSecs), SEEN_INITIALLY, c, filledEnds)
  {
  }

  // In every reachable state in which an order has ended, the next event writes
  // another report for it exactly when that event is the failure of a place
  // request still pending for it. Then this report is all that is written; it
  // is a PlaceReject without a client id.
  lemma OnlyLateFailures(iocTimeoutSecs: int, es: seq<Event>, e: Event, c: string, filledEnds: bool)
    requires ValidRun(Initial(iocTimeoutSecs), SEEN_INITIALLY, es + [e])
    requires c != "" && (filledEnds ==> NeverIoc(Initial(iocTimeoutSecs), es, c))
    requires Ended(Run(Initial(iocTimeoutSecs), es).log, c, filledEnds)
    ensures var w := Run(Initial(iocTimeoutSecs), es); var w' := Step(w, e);
            && w.log <= w'.log
            && ((exists j :: |w.log| <= j < |w'.log| && About(w'.log[j], c)) <==> PlaceFails(w, e, c))
            && (PlaceFails(w, e, c) ==> |w'.log| == |w.log| + 1 && Nameless(w'.log[|w.log|], c))
  {
    var w := Run(Initial(iocTimeoutSecs), es);
    var seen := SEEN_INITIALLY + AllMentions(es);
    ValidRunSplit(Initial(iocTimeoutSecs), SEEN_INITIALLY, es, [e]);
    InitialOrderInv(iocTimeoutSecs, c, filledEnds);
    RunOrderInv(Initial(iocTimeoutSecs), SEEN_INITIALLY, es, c, filledEnds);
    EndedWasSeen(w, seen, c, filledEnds);
    if PlaceFails(w, e, c) {
      FailsWhenGone(w, e, c);
      assert About(Step(w, e).log[|w.log|], c);
    } else {
      GoneStaysSilent(w, seen, e, c);
    }
  }

  // --- runs ---------------------------------------------------------------

  lemma StepNothingAfterEnd(w: World, seen: set<string>, e: Event, c: string, filledEnds: bool)
    requires OrderInv(w, seen, c, filledEnds) && Admissible(w, seen, e) && (filledEnds ==> NotIoc(w, c))
    requires NothingAfterEnd(w.log, 0, c, filledEnds)
    requires !(Ended(w.log, c, filledEnds) && PlaceFails(w, e, c))
    ensures NothingAfterEnd(Step(w, e).log, 0, c, filledEnds)
  {
    if Ended(w.log, c, filledEnds) {
      EndedWasSeen(w, seen, c, filledEnds);
      GoneStaysSilent(w, seen, e, c);
      StillNothingAfterEnd(w.log, Step(w, e).log, c, filledEnds);
    } else if PlaceFails(w, e, c) && !w.book.Live(c) {
      FailsWhenGone(w, e, c);
    } else {
      NotGoneInv(w, seen, e, c, filledEnds);
    }
  }

  lemma StillNothingAfterEnd(log: seq<Output>, longer: seq<Output>, c: string, filledEnds: bool)
    requires log <= longer && NothingAfterEnd(log, 0, c, filledEnds) && NoReport(longer, |log|, c)
    ensures NothingAfterEnd(longer, 0, c, filledEnds)
  {
    assert forall i :: 0 <= i < |log| ==> log[i] == longer[i];
  }

  // A report after an end stays in the log.
  lemma LateFailureShows(w: World, es: seq<Event>, c: string, filledEnds: bool)
    requires c != "" && es != [] && Ended(w.log, c, filledEnds) && PlaceFails(w, es[0], c) && !w.book.Live(c)
    ensures !NothingAfterEnd(Run(w, es).log, 0, c, filledEnds)
  {
    FailsWhenGone(w, es[0], c);
    RunGrows(Step(w, es[0]), es[1..]);
    var i :| 0 <= i < |w.log| && Ends(w.log[i], c, filledEnds);
    var log := Run(w, es).log;
    assert log[i] == w.log[i] && log[|w.log|] == Step(w, es[0]).log[|w.log|];
  }

  lemma {:induction false} RunLastWord(w: World, seen: set<string>, es: seq<Event>, c: string, filledEnds: bool)
    requires OrderInv(w, seen, c, filledEnds) && ValidRun(w, seen, es) && (filledEnds ==> NeverIoc(w, es, c))
    requires NothingAfterEnd(w.log, 0, c, filledEnds)
    ensures NothingAfterEnd(Run(w, es).log, 0, c, filledEnds) <==> !LateFailure(w, es, c, filledEnds)
    decreases |es|
  {
    if es != [] {
      if Ended(w.log, c, filledEnds) && PlaceFails(w, es[0], c) {
        LateFailureShows(w, es, c, filledEnds);
      } else {
        StepNothingAfterEnd(w, seen, es[0], c, filledEnds);
        StepOrderInv(w, seen, es[0], c, filledEnds);
        RunLastWord(Step(w, es[0]), seen + Mentions(es[0]), es[1..], c, filledEnds);
      }
    }
  }

  // There is at most one stray report, it has no client id, and the request it
  // answers was the last one pending for the order.
  ghost predicate FewStrays(w: World, c: string, filledEnds: bool) {
    && (forall j: nat :: Stray(w.log, j, c, filledEnds) ==> Nameless(w.log[j], c) && NoPendingPlace(w, c))
    && (forall i: nat, j: nat :: Stray(w.log, i, c, filledEnds) && Stray(w.log, j, c, filledEnds) ==> i == j)
  }

  lemma NothingAfterEndNoStrays(w: World, c: string, filledEnds: bool)
    requires NothingAfterEnd(w.log, 0, c, filledEnds)
    ensures FewStrays(w, c, filledEnds)
  {
    forall j: nat | j < |w.log| && About(w.log[j], c) ensures !Ended(w.log[..j], c, filledEnds) {
      assert forall i :: 0 <= i < j ==> w.log[..j][i] == w.log[i];
    }
  }

  lemma StraysBefore(log: seq<Output>, longer: seq<Output>, j: nat, c: string, filledEnds: bool)
    requires log <= longer && j < |log|
    ensures Stray(longer, j, c, filledEnds) <==> Stray(log, j, c, filledEnds)
  {
    assert longer[..j] == log[..j];
  }

  lemma StepFewStrays(w: World, seen: set<string>, e: Event, c: string, filledEnds: bool)
    requires OrderInv(w, seen, c, filledEnds) && Admissible(w, seen, e) && (filledEnds ==> NotIoc(w, c))
    requires FewStrays(w, c, filledEnds)
    ensures FewStrays(Step(w, e), c, filledEnds)
  {
    var w' := Step(w, e);
    if !Ended(w.log, c, filledEnds) {
      StepNothingAfterEnd(w, seen, e, c, filledEnds);
      NothingAfterEndNoStrays(w', c, filledEnds);
    } else {
      EndedWasSeen(w, seen, c, filledEnds);
      StepPlacedOnce(w, seen, e, c);
      StepGrows(w, e);
      forall j: nat | j < |w.log| ensures Stray(w'.log, j, c, filledEnds) <==> Stray(w.log, j, c, filledEnds) {
        StraysBefore(w.log, w'.log, j, c, filledEnds);
      }
      if PlaceFails(w, e, c) {
        FailsWhenGone(w, e, c);
        LastRequestTaken(w, seen, e, c);
        assert PendingPlace(w, e.corr.value, c);
      } else {
        GoneStaysSilent(w, seen, e, c);
      }
    }
  }

  lemma LastRequestTaken(w: World, seen: set<string>, e: Event, c: string)
    requires PlacedOnce(w, seen, c) && PlaceFails(w, e, c)
    ensures NoPendingPlace(Step(w, e), c)
  {
    StepSuccessor(w, e);
    assert PendingPlace(w, e.corr.value, c);
    assert forall id: nat :: PendingPlace(Step(w, e), id, c) ==> PendingPlace(w, id, c) && id != e.corr.value;
  }

  lemma {:induction false} RunFewStrays(w: World, seen: set<string>, es: seq<Event>, c: string, filledEnds: bool)
    requires OrderInv(w, seen, c, filledEnds) && ValidRun(w, seen, es) && (filledEnds ==> NeverIoc(w, es, c))
    requires FewStrays(w, c, filledEnds)
    ensures FewStrays(Run(w, es), c, filledEnds)
    decreases |es|
  {
    if es != [] {
      StepFewStrays(w, seen, es[0], c, filledEnds);
      StepOrderInv(w, seen, es[0], c, filledEnds);
      RunFewStrays(Step(w, es[0]), seen + Mentions(es[0]), es[1..], c, filledEnds);
    }
  }

  // Over any run: no report is written for an order after one that ended it,
  // exactly when no place request of it fails as a whole after that. If one
  // does there is one report too many, and it has no client id. A complete fill
  // may be taken as an end too if the order is never IOC.
  lemma LastWord(iocTimeoutSecs: int, es: seq<Event>, c: string, filledEnds: bool)
    requires ValidRun(Initial(iocTimeoutSecs), SEEN_INITIALLY, es)
    requires c != "" && (filledEnds ==> NeverIoc(Initial(iocTimeoutSecs), es, c))
    ensures var log := Run(Initial(iocTimeoutSecs), es).log;
            && (NothingAfterEnd(log, 0, c, filledEnds) <==> !LateFailure(Initial(iocTimeoutSecs), es, c, filledEnds))
            && (forall j: nat :: Stray(log, j, c, filledEnds) ==> Nameless(log[j], c))
            && (forall i: nat, j: nat :: Stray(log, i, c, filledEnds) && Stray(log, j, c, filledEnds) ==> i == j)
  {
    InitialOrderInv(iocTimeoutSecs, c, filledEnds);
    RunLastWord(Initial(iocTimeoutSecs), SEEN_INITIALLY, es, c, filledEnds);
    NothingAfterEndNoStrays(Initial(iocTimeoutSecs), c, filledEnds);
    RunFewStrays(Initial(iocTimeoutSecs), SEEN_INITIALLY, es, c, filledEnds);
  }

  // For an IOC order a complete fill is no last word: the fill leaves the order
  // tracked, and a cancel arriving then is reported after the FILLED.
  lemma IocFillIsNotLastWord(w: World, f: Fill, u: Update, fillTime: int, cancelTime: int, order: seq<string>)
    requires !f.isSnapshot && u.oid == f.oid && u.status == ExCanceled && u.cloid == w.book.CloidOfOid(f.oid)
    requires f.oid in w.book.oidToCloid && w.book.ClientOf(u.cloid) != "" && w.book.IsActiveOid(u.oid, u.cloid)
    requires u.cloid in w.book.cloidToState && w.book.StateOf(u.cloid).isIoc
    requires w.book.StateOf(u.cloid).cumQty + f.sz >= w.book.StateOf(u.cloid).origSz
    requires Quiet(w, fillTime) && Quiet(w, cancelTime)
    ensures var log := Step(Step(w, UserFill(f, fillTime, order)), OrderUpdate(u, cancelTime, order)).log;
            && w.log <= log && |log| == |w.log| + 2
            && About(log[|w.log|], u.cloid) && log[|w.log|].status == FILLED
            && About(log[|w.log| + 1], u.cloid) && log[|w.log| + 1].status == CANCELLED
  {
    QuietChangesNothing(w, fillTime, order);
    var client := w.book.ClientOf(u.cloid);
    var w1 := EmitFill(w, f, client, u.cloid);
    assert w1.book == w.book.ApplyFill(u.cloid, f.sz);
    EmitFillQuiet(w, f, client, u.cloid, cancelTime);
    QuietChangesNothing(w1, cancelTime, order);
  }
}
