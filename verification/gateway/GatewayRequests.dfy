// Requests to the exchange and their replies: correlation ids.
module GatewayRequests {
  import opened Common
  import opened OrderBook
  import opened GatewayModel
  import opened GatewayRuns
  import RefData

  // --- what is pending ----------------------------------------------------

  predicate IsPending(w: World, id: nat) {
    id in w.pendingPlaces || id in w.pendingModifies || id in w.pendingCancels
  }

  // Every pending id was given out, each to one kind of request.
  ghost predicate Numbered(w: World) {
    && (forall id: nat :: IsPending(w, id) ==> id < w.nextCorrelationId)
    && (forall id: nat :: id in w.pendingPlaces ==> id !in w.pendingModifies && id !in w.pendingCancels)
    && (forall id: nat :: id in w.pendingModifies ==> id !in w.pendingCancels)
  }

  predicate SamePending(w: World, w': World) {
    && w'.nextCorrelationId == w.nextCorrelationId && w'.pendingPlaces == w.pendingPlaces
    && w'.pendingModifies == w.pendingModifies && w'.pendingCancels == w.pendingCancels
  }

  // The reply takes the request with this id out of what is pending.
  predicate Takes(w: World, e: Event, id: nat) {
    || (e.PlaceReply? && e.corr == Some(id) && id in w.pendingPlaces)
    || (e.ModifyReply? && e.corr == Some(id) && id in w.pendingModifies)
    || (e.CancelReply? && e.corr == Some(id) && id in w.pendingCancels)
  }

  // --- what leaves it alone -----------------------------------------------

  lemma EmitFillKeepsPending(w: World, f: Fill, client: string, cloid: string)
    ensures SamePending(w, EmitFill(w, f, client, cloid))
  {
  }

  lemma {:induction false} ReplayKeepsPending(w: World, fills: seq<Fill>, oid: nat)
    ensures SamePending(w, ReplayEach(w, fills, oid))
    decreases |fills|
  {
    if fills != [] {
      EmitFillKeepsPending(w, fills[0], w.book.ClientOfOid(oid), w.book.CloidOfOid(oid));
      ReplayKeepsPending(EmitFill(w, fills[0], w.book.ClientOfOid(oid), w.book.CloidOfOid(oid)), fills[1..], oid);
    }
  }

  lemma {:induction false} TimeOutsKeepPending(w: World, due: seq<string>)
    ensures SamePending(w, TimeOutOrders(w, due))
    decreases |due|
  {
    if due != [] {
      TimeOutsKeepPending(TimeOutOrder(w, due[0]), due[1..]);
    }
  }

  lemma CheckTimeoutsKeepsPending(w: World, now: int, order: seq<string>)
    ensures SamePending(w, CheckTimeouts(w, now, order))
  {
    TimeOutsKeepPending(ExpireFills(w, now), DueOrders(w.book, w.iocTimeoutSecs, order, now));
  }

  lemma {:induction false} RejectsKeepPending(w: World, p: Pending, items: seq<ReplyItem>)
    ensures SamePending(w, RejectPlaceItems(w, p, items))
    decreases |items|
  {
    if items != [] {
      if items[0].ItemError? && w.book.ClientOf(p.cloid) != "" {
        RejectsKeepPending(RejectPlace(w, p, items[0].text), p, items[1..]);
      } else {
        RejectsKeepPending(w, p, items[1..]);
      }
    }
  }

  lemma ReportUpdateKeepsPending(w: World, u: Update)
    ensures SamePending(w, ReportUpdate(w, u))
  {
    var w' := Emit(w, UpdateReport(w, u));
    ReplayKeepsPending(w'.(buffered := FillsNotOf(w'.buffered, u.oid)), FillsOf(w'.buffered, u.oid), u.oid);
  }

  lemma TakeOpenKeepsPending(w: World, u: Update)
    ensures SamePending(w, TakeOpen(w, u))
  {
    ReportUpdateKeepsPending(w.(book := OpenedBook(w.book, u, RefData.SymbolId(w.ref, u.coin))), u);
  }

  lemma CloseFilledKeepsPending(w: World, u: Update)
    ensures SamePending(w, CloseFilled(w, u))
  {
  }

  lemma TakeOtherKeepsPending(w: World, u: Update)
    ensures SamePending(w, TakeOther(w, u))
  {
    var registered := w.(book := w.book.RegisterOid(u.oid, u.cloid));
    ReportUpdateKeepsPending(registered, u);
    CloseFilledKeepsPending(registered, u);
    assert SamePending(w, registered);
    if !registered.book.IsActiveOid(u.oid, u.cloid) {
      assert TakeOther(w, u) == registered;
    } else if u.status == ExFilled {
      assert TakeOther(w, u) == CloseFilled(registered, u);
    } else {
      assert TakeOther(w, u) == ReportUpdate(registered, u);
    }
  }

  lemma OrderUpdateKeepsPending(w: World, u: Update, now: int, order: seq<string>)
    ensures SamePending(w, OnOrderUpdate(w, u, now, order))
  {
    CheckTimeoutsKeepsPending(w, now, order);
    TakeOpenKeepsPending(CheckTimeouts(w, now, order), u);
    TakeOtherKeepsPending(CheckTimeouts(w, now, order), u);
  }

  lemma UserFillKeepsPending(w: World, f: Fill, now: int, order: seq<string>)
    ensures SamePending(w, OnUserFill(w, f, now, order))
  {
    CheckTimeoutsKeepsPending(w, now, order);
    var checked := CheckTimeouts(w, now, order);
    EmitFillKeepsPending(checked, f, checked.book.ClientOfOid(f.oid), checked.book.CloidOfOid(f.oid));
  }

  lemma PlaceReplyDrops(w: World, r: Reply, corr: Option<nat>)
    ensures SamePending(w.(pendingPlaces := Drop(w.pendingPlaces, corr)), OnPlaceReply(w, r, corr))
  {
    RejectsKeepPending(w.(pendingPlaces := Drop(w.pendingPlaces, corr)), Take(w.pendingPlaces, corr), r.items);
  }

  // --- one step -----------------------------------------------------------

  // A request is pending after a step if it was before and the step did not
  // take it, or if the step made it: then under the next id.
  ghost predicate Successor(w: World, e: Event, w': World) {
    && w.nextCorrelationId <= w'.nextCorrelationId
    && (forall id: nat :: id in w'.pendingPlaces ==>
          || (&& id in w.pendingPlaces && w'.pendingPlaces[id] == w.pendingPlaces[id]
              && !(e.PlaceReply? && e.corr == Some(id)))
          || (&& id == w.nextCorrelationId < w'.nextCorrelationId
              && e.NewOrder? && Accepts(w, e.request) && w'.pendingPlaces[id].cloid == e.cloid))
    && (forall id: nat :: id in w'.pendingModifies ==>
          || (id in w.pendingModifies && !(e.ModifyReply? && e.corr == Some(id)))
          || (id == w.nextCorrelationId < w'.nextCorrelationId && e.AmendOrder?))
    && (forall id: nat :: id in w'.pendingCancels ==>
          || (id in w.pendingCancels && !(e.CancelReply? && e.corr == Some(id)))
          || (id == w.nextCorrelationId < w'.nextCorrelationId && e.CancelOrder?))
  }

  lemma SamePendingSuccessor(w: World, e: Event, w': World)
    requires SamePending(w, w') && !e.PlaceReply? && !e.ModifyReply? && !e.CancelReply?
    ensures Successor(w, e, w')
  {
  }

  lemma RequestSuccessor(w: World, e: Event)
    requires e.NewOrder? || e.AmendOrder? || e.CancelOrder?
    ensures Successor(w, e, Step(w, e))
  {
  }

  lemma PlaceReplySuccessor(w: World, e: Event)
    requires e.PlaceReply?
    ensures Successor(w, e, Step(w, e))
  {
    PlaceReplyDrops(w, e.reply, e.corr);
  }

  lemma ModifyReplySuccessor(w: World, e: Event)
    requires e.ModifyReply?
    ensures Successor(w, e, Step(w, e))
  {
  }

  lemma CancelReplySuccessor(w: World, e: Event)
    requires e.CancelReply?
    ensures Successor(w, e, Step(w, e))
  {
  }

  lemma StepSuccessor(w: World, e: Event)
    ensures Successor(w, e, Step(w, e))
  {
    match e {
      case NewOrder(_, _, _) => RequestSuccessor(w, e);
      case AmendOrder(_, _) => RequestSuccessor(w, e);
      case CancelOrder(_) => RequestSuccessor(w, e);
      case OrderUpdate(u, now, order) =>
        OrderUpdateKeepsPending(w, u, now, order);
        SamePendingSuccessor(w, e, Step(w, e));
      case UserFill(f, now, order) =>
        UserFillKeepsPending(w, f, now, order);
        SamePendingSuccessor(w, e, Step(w, e));
      case PlaceReply(_, _) => PlaceReplySuccessor(w, e);
      case ModifyReply(_, _) => ModifyReplySuccessor(w, e);
      case CancelReply(_, _) => CancelReplySuccessor(w, e);
      case Disconnected =>
      case _ => SamePendingSuccessor(w, e, Step(w, e));
    }
  }

  // --- runs ---------------------------------------------------------------

  lemma StepNumbered(w: World, e: Event)
    requires Numbered(w)
    ensures Numbered(Step(w, e))
  {
    StepSuccessor(w, e);
    SuccessorNumbered(w, e, Step(w, e));
  }

  lemma SuccessorNumbered(w: World, e: Event, w': World)
    requires Numbered(w) && Successor(w, e, w')
    ensures Numbered(w')
  {
    assert forall id: nat :: id in w.pendingPlaces ==> IsPending(w, id);
    assert forall id: nat :: id in w.pendingModifies ==> IsPending(w, id);
    assert forall id: nat :: id in w.pendingCancels ==> IsPending(w, id);
  }

  lemma {:induction false} RunNumbered(w: World, es: seq<Event>)
    requires Numbered(w)
    ensures Numbered(Run(w, es))
    decreases |es|
  {
    if es != [] {
      StepNumbered(w, es[0]);
      RunNumbered(Step(w, es[0]), es[1..]);
    }
  }

  // Over every run a request goes out under an id that nothing pending has,
  // whatever its kind: the next one is above them all.
  lemma ReachableNumbered(iocTimeoutSecs: int, es: seq<Event>)
    ensures Numbered(Run(Initial(iocTimeoutSecs), es))
  {
    RunNumbered(Initial(iocTimeoutSecs), es);
  }

  // The id was given out and no request has it any more.
  predicate Done(w: World, id: nat) {
    id < w.nextCorrelationId && !IsPending(w, id)
  }

  lemma TakenIsDone(w: World, e: Event, id: nat)
    requires Numbered(w) && Takes(w, e, id)
    ensures Done(Step(w, e), id)
  {
    StepSuccessor(w, e);
    assert IsPending(w, id);
  }

  lemma {:induction false} DoneForGood(w: World, es: seq<Event>, id: nat)
    requires Done(w, id)
    ensures Done(Run(w, es), id)
    decreases |es|
  {
    if es != [] {
      StepSuccessor(w, es[0]);
      DoneForGood(Step(w, es[0]), es[1..], id);
    }
  }

  // Over every run a request is taken by at most one reply.
  lemma RequestTakenOnce(iocTimeoutSecs: int, es: seq<Event>, i: nat, j: nat, id: nat)
    requires i < j < |es|
    requires Takes(Run(Initial(iocTimeoutSecs), es[..i]), es[i], id)
    ensures !Takes(Run(Initial(iocTimeoutSecs), es[..j]), es[j], id)
  {
    var w := Run(Initial(iocTimeoutSecs), es[..i]);
    ReachableNumbered(iocTimeoutSecs, es[..i]);
    TakenIsDone(w, es[i], id);
    DoneForGood(Step(w, es[i]), es[i + 1..j], id);
    assert es[..j] == es[..i] + es[i..j] && es[i..j][1..] == es[i + 1..j];
    RunAppend(Initial(iocTimeoutSecs), es[..i], es[i..j]);
  }

  // --- the place requests of one order ------------------------------------

  predicate PendingPlace(w: World, id: nat, c: string) {
    id in w.pendingPlaces && w.pendingPlaces[id].cloid == c
  }

  ghost predicate NoPendingPlace(w: World, c: string) {
    forall id: nat :: !PendingPlace(w, id, c)
  }

  // At most one, and none before the cloid was seen.
  ghost predicate PlacedOnce(w: World, seen: set<string>, c: string) {
    && Numbered(w)
    && (forall i: nat, j: nat :: PendingPlace(w, i, c) && PendingPlace(w, j, c) ==> i == j)
    && (c !in seen ==> NoPendingPlace(w, c))
  }

  // A new place request for the order comes with a cloid never seen before.
  lemma StepPlacedOnce(w: World, seen: set<string>, e: Event, c: string)
    requires PlacedOnce(w, seen, c) && Admissible(w, seen, e)
    ensures PlacedOnce(Step(w, e), seen + Mentions(e), c)
    ensures c in seen && NoPendingPlace(w, c) ==> NoPendingPlace(Step(w, e), c)
  {
    StepNumbered(w, e);
    StepSuccessor(w, e);
    var w' := Step(w, e);
    assert forall id: nat :: PendingPlace(w', id, c) ==>
        PendingPlace(w, id, c) || (id == w.nextCorrelationId && c !in seen && NoPendingPlace(w, c) && c in Mentions(e));
  }
}
