// What each reply of the exchange brings about.
module GatewayReplies {
  import opened Common
  import opened OrderBook
  import opened GatewayModel
  import opened GatewayRuns
  import opened GatewayCoherence

  // --- errors in a reply --------------------------------------------------

  // The texts of the entries that are errors, in order.
  function ErrorTexts(items: seq<ReplyItem>): seq<string> {
    if items == [] then []
    else
      (match items[0]
       case ItemError(text) => [text]
       case _ => [])
      + ErrorTexts(items[1..])
  }

  lemma {:induction false} ErrorTextsComplete(items: seq<ReplyItem>)
    ensures ErrorTexts(items) == [] <==> forall i :: 0 <= i < |items| ==> !items[i].ItemError?
    ensures forall t :: t in ErrorTexts(items) <==> ItemError(t) in items
  {
    if items != [] {
      ErrorTextsComplete(items[1..]);
      assert items == [items[0]] + items[1..];
    }
  }

  predicate IsPendingIn(m: map<nat, Pending>, corr: Option<nat>) {
    corr.Some? && corr.value in m
  }

  // --- placing ------------------------------------------------------------

  // A REJECTED report for a place request, as the strategy sees it.
  predicate SaysRejected(o: Output, b: Book, p: Pending, text: string) {
    && o.Exec? && o.cause == PlaceReject && o.status == REJECTED && o.reason == OTHER
    && o.cloid == p.cloid && o.clientOrderId == o.origClientOrderId == b.ClientOf(p.cloid)
    && o.securityId == p.securityId && o.text == text && o.fill.None?
    && (b.Live(p.cloid) && p.cloid in b.cloidToState ==> o.side == b.cloidToState[p.cloid].side)
  }

  // The order is gone and no other order is touched.
  ghost predicate OnlyGone(b: Book, b': Book, c: string) {
    && !b'.Live(c)
    && (forall d :: d != c ==>
          (b'.Live(d) <==> b.Live(d)) && b'.ClientOf(d) == b.ClientOf(d) && b'.StateOf(d) == b.StateOf(d))
  }

  lemma {:induction false} DeadRejectsNothing(w: World, p: Pending, items: seq<ReplyItem>)
    requires w.book.ClientOf(p.cloid) == ""
    ensures RejectPlaceItems(w, p, items) == w
    decreases |items|
  {
    if items != [] {
      DeadRejectsNothing(w, p, items[1..]);
    }
  }

  lemma {:induction false} ItemsOutcome(w: World, p: Pending, items: seq<ReplyItem>)
    requires w.book.ClientOf(p.cloid) != ""
    ensures var w' := RejectPlaceItems(w, p, items);
            if ErrorTexts(items) == [] then w' == w
            else
              && w' == w.(book := w.book.RemoveOrder(p.cloid), log := w'.log)
              && |w'.log| == |w.log| + 1 && w.log <= w'.log
              && SaysRejected(w'.log[|w.log|], w.book, p, ErrorTexts(items)[0])
    decreases |items|
  {
    if items != [] {
      if items[0].ItemError? {
        var text := items[0].text;
        assert RejectPlaceItems(w, p, items) == RejectPlaceItems(RejectPlace(w, p, text), p, items[1..]);
        DeadRejectsNothing(RejectPlace(w, p, text), p, items[1..]);
        assert ErrorTexts(items)[0] == text;
      } else {
        ItemsOutcome(w, p, items[1..]);
        assert ErrorTexts(items) == ErrorTexts(items[1..]);
      }
    }
  }

  // A reply that has entries, to a place request of an order that has a client
  // id: if one of them is an error, one REJECTED report is written, with the text
  // of the first, and the order is gone. Otherwise the request is no longer
  // pending, and that is all.
  lemma PlaceReplyOutcome(w: World, r: Reply, corr: Option<nat>)
    requires IsPendingIn(w.pendingPlaces, corr) && w.book.ClientOf(w.pendingPlaces[corr.value].cloid) != ""
    requires r.items != []
    ensures var p := w.pendingPlaces[corr.value]; var w' := Step(w, PlaceReply(r, corr));
            var texts := ErrorTexts(r.items);
            && (texts != [] <==> exists i :: 0 <= i < |r.items| && r.items[i].ItemError?)
            && w'.pendingPlaces == w.pendingPlaces - {corr.value}
            && (if texts != []
                then && |w'.log| == |w.log| + 1 && w.log <= w'.log
                     && SaysRejected(w'.log[|w.log|], w.book, p, texts[0])
                     && OnlyGone(w.book, w'.book, p.cloid)
                else w' == w.(pendingPlaces := w'.pendingPlaces))
  {
    var p := w.pendingPlaces[corr.value];
    ItemsOutcome(w.(pendingPlaces := w.pendingPlaces - {corr.value}), p, r.items);
    ErrorTextsComplete(r.items);
  }

  // A reply without entries that is not "ok" rejects the order, known or not.
  lemma FailedPlaceOutcome(w: World, r: Reply, corr: Option<nat>)
    requires IsPendingIn(w.pendingPlaces, corr) && w.pendingPlaces[corr.value].cloid != ""
    requires r.items == []
    ensures var p := w.pendingPlaces[corr.value]; var w' := Step(w, PlaceReply(r, corr));
            && w'.pendingPlaces == w.pendingPlaces - {corr.value}
            && (if r.status != "ok"
                then && |w'.log| == |w.log| + 1 && w.log <= w'.log
                     && SaysRejected(w'.log[|w.log|], w.book, p, r.status) && OnlyGone(w.book, w'.book, p.cloid)
                else w' == w.(pendingPlaces := w'.pendingPlaces))
  {
  }

  // A reply to nothing that is pending, or with entries to a place request whose
  // order is gone, changes nothing else.
  lemma IdlePlaceReply(w: World, r: Reply, corr: Option<nat>)
    requires !w.book.Live("")
    requires IsPendingIn(w.pendingPlaces, corr) ==>
               r.items != [] && w.book.ClientOf(w.pendingPlaces[corr.value].cloid) == ""
    ensures var w' := Step(w, PlaceReply(r, corr)); w' == w.(pendingPlaces := w'.pendingPlaces)
  {
    var w1 := w.(pendingPlaces := Drop(w.pendingPlaces, corr));
    DeadRejectsNothing(w1, Take(w.pendingPlaces, corr), r.items);
  }

  // --- amending -----------------------------------------------------------

  // A failed amend is reported, with what the reply says, for an order that has
  // a client id, and changes no order. Nothing else is reported.
  lemma ModifyReplyOutcome(w: World, r: Reply, corr: Option<nat>)
    requires !w.book.Live("")
    ensures var w' := Step(w, ModifyReply(r, corr));
            && w' == w.(log := w'.log, pendingModifies := w'.pendingModifies)
            && (corr.Some? ==> corr.value !in w'.pendingModifies)
            && (if IsPendingIn(w.pendingModifies, corr) && r.status != "ok"
                   && w.book.ClientOf(w.pendingModifies[corr.value].cloid) != ""
                then && |w'.log| == |w.log| + 1 && w.log <= w'.log
                     && var o := w'.log[|w.log|]; var p := w.pendingModifies[corr.value];
                        && o.Exec? && o.cause == AmendReject && o.status == REJECTED && o.reason == OTHER
                        && o.cloid == p.cloid && o.clientOrderId == o.origClientOrderId == w.book.ClientOf(p.cloid)
                        && o.securityId == p.securityId && o.text == r.status && o.fill.None?
                else w'.log == w.log)
  {
  }

  // --- cancelling ---------------------------------------------------------

  predicate SaysCancelRejected(o: Output, b: Book, p: Pending, text: string) {
    && o.CancelRejected? && o.cloid == p.cloid && o.securityId == p.securityId && o.text == text
    && o.clientOrderId == o.origClientOrderId == b.ClientOf(p.cloid)
  }

  lemma {:induction false} CancelItemsOutcome(b: Book, p: Pending, items: seq<ReplyItem>)
    ensures var outs, texts := CancelItemRejects(b, p, items), ErrorTexts(items);
            |outs| == |texts| && forall i :: 0 <= i < |texts| ==> SaysCancelRejected(outs[i], b, p, texts[i])
  {
    if items != [] {
      CancelItemsOutcome(b, p, items[1..]);
    }
  }

  lemma CancelReplyFrame(w: World, r: Reply, corr: Option<nat>)
    requires IsPendingIn(w.pendingCancels, corr) && w.pendingCancels[corr.value].cloid != ""
    ensures var p := w.pendingCancels[corr.value];
            OnCancelReply(w, r, corr) == w.(
              pendingCancels := w.pendingCancels - {corr.value},
              log := w.log + if r.items != [] then CancelItemRejects(w.book, p, r.items)
                             else if r.status != "ok" then [CancelRejectReport(w.book, p, r.status)] else [])
  {
    assert w.log + [] == w.log;
  }

  // What a reply to a cancel request complains about.
  function Complaints(r: Reply): seq<string> {
    if r.items != [] then ErrorTexts(r.items) else if r.status != "ok" then [r.status] else []
  }

  // A reply to a cancel request is answered with one cancel reject for each of
  // its errors, in their order, or with one for the whole; the order stays.
  lemma CancelReplyOutcome(w: World, r: Reply, corr: Option<nat>)
    requires IsPendingIn(w.pendingCancels, corr) && w.pendingCancels[corr.value].cloid != ""
    ensures var p := w.pendingCancels[corr.value]; var w' := Step(w, CancelReply(r, corr)); var texts := Complaints(r);
            && w' == w.(log := w'.log, pendingCancels := w.pendingCancels - {corr.value})
            && w.log <= w'.log && |w'.log| == |w.log| + |texts|
            && forall i :: 0 <= i < |texts| ==> SaysCancelRejected(w'.log[|w.log| + i], w.book, p, texts[i])
  {
    CancelReplyFrame(w, r, corr);
    CancelItemsOutcome(w.book, w.pendingCancels[corr.value], r.items);
  }
}
