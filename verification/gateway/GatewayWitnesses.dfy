// Short runs from the initial state that show where a property stops.
module GatewayWitnesses {
  import opened Common
  import opened OrderBook
  import opened GatewayModel
  import opened GatewayRuns
  import opened GatewayCoherence
  import opened GatewayTerminal
  import opened GatewayRequests
  import opened GatewayLastWord
  import opened GatewayFills
  import opened GatewayFillOrder
  import RefData

  // --- one order placed ---------------------------------------------------

  const BTC := RefData.SecurityInfo("BTC", "BTC-PERP", false, None)

  function Request(t: OrderType): OrderRequest {
    OrderRequest("cl1", 7, Buy, t, false, 100, 5)
  }

  function Opening(t: OrderType): seq<Event> {
    [Connected, SecurityDefinition(RefData.Add(7, BTC)), NewOrder(Request(t), "0xc", 1)]
  }

  function Ready(): World {
    Initial(10).(connected := true, ref := RefData.Apply(RefData.EMPTY, RefData.Add(7, BTC)))
  }

  function Placed(t: OrderType): World {
    Ready().(book := EnteredBook(EMPTY_BOOK, Request(t), "0xc", Coin("BTC"), 1),
             nextCorrelationId := 2, pendingPlaces := map[1 := Pending("0xc", 7)],
             log := [PlaceSent(1, "0xc", Coin("BTC"), true, 100, 5, MapTif(t, false))])
  }

  ghost predicate Reaches(es: seq<Event>, w: World, seen: set<string>) {
    && ValidRun(Initial(10), SEEN_INITIALLY, es)
    && w == Run(Initial(10), es) && seen == SEEN_INITIALLY + AllMentions(es)
  }

  lemma ReachesNext(es: seq<Event>, w: World, seen: set<string>, e: Event)
    requires Reaches(es, w, seen) && Admissible(w, seen, e)
    ensures Reaches(es + [e], Step(w, e), seen + Mentions(e))
  {
    ValidRunJoin(Initial(10), SEEN_INITIALLY, es, [e]);
    RunAppend(Initial(10), es, [e]);
  }

  const SEEN: set<string> := {"", "0xc"}

  lemma PlacedIsReached(t: OrderType)
    ensures Reaches(Opening(t), Placed(t), SEEN)
  {
    var e0, e1, e2 := Connected, SecurityDefinition(RefData.Add(7, BTC)), NewOrder(Request(t), "0xc", 1);
    assert Reaches([], Initial(10), SEEN_INITIALLY);
    ReachesNext([], Initial(10), SEEN_INITIALLY, e0);
    ReachesNext([] + [e0], Step(Initial(10), e0), SEEN_INITIALLY + {}, e1);
    assert Step(Step(Initial(10), e0), e1) == Ready();
    ReachesNext([] + [e0] + [e1], Ready(), SEEN_INITIALLY + {} + {}, e2);
    assert [] + [e0] + [e1] + [e2] == Opening(t);
    assert Step(Ready(), e2) == Placed(t);
    assert SEEN_INITIALLY + {} + {} + Mentions(e2) == SEEN;
  }

  lemma Calm(w: World, now: int, order: seq<string>)
    requires w.buffered == [] && (forall c :: c in w.book.cloidToState ==> w.book.cloidToState[c].createdAt == 1)
    requires 1 <= now < 10 && w.iocTimeoutSecs == 10
    ensures CheckTimeouts(w, now, order) == w
  {
    QuietChangesNothing(w, now, order);
  }

  // --- a rejected order whose place request then fails --------------------

  const REJECTED_THEN := OrderUpdate(Update("BTC", 'B', ExRejected, 42, 5, 5, 100, "0xc"), 2, ["0xc"])
  const REPLY_FAILS := PlaceReply(Reply("err", []), Some(1))

  lemma RejectedFirst(w: World)
    requires w == Placed(Limit)
    ensures var w' := Step(w, REJECTED_THEN);
            && |w'.log| == 2 && Ends(w'.log[1], "0xc", false) && w'.log[1].clientOrderId == "cl1"
            && !w'.book.Live("0xc") && PlaceFails(w', REPLY_FAILS, "0xc")
  {
    Calm(w, 2, ["0xc"]);
  }

  // The order is reported REJECTED twice, the second time without a client id.
  lemma RejectedTwice()
    ensures var es := Opening(Limit) + [REJECTED_THEN] + [REPLY_FAILS]; var log := Run(Initial(10), es).log;
            && ValidRun(Initial(10), SEEN_INITIALLY, es)
            && |log| == 3 && Ends(log[1], "0xc", false) && log[1].clientOrderId == "cl1"
            && Ends(log[2], "0xc", false) && Nameless(log[2], "0xc")
  {
    var w := Placed(Limit);
    PlacedIsReached(Limit);
    ReachesNext(Opening(Limit), w, SEEN, REJECTED_THEN);
    RejectedFirst(w);
    var w' := Step(w, REJECTED_THEN);
    ReachesNext(Opening(Limit) + [REJECTED_THEN], w', SEEN + Mentions(REJECTED_THEN), REPLY_FAILS);
    FailsWhenGone(w', REPLY_FAILS, "0xc");
  }

  // --- a fill that overtakes another --------------------------------------

  function FillOf(oid: nat, size: int, time: nat): Fill {
    Fill("BTC", 'B', 100, size, oid, time, false)
  }

  const OPENED := OrderUpdate(Update("BTC", 'B', ExOpen, 1, 5, 5, 100, "0xc"), 2, ["0xc"])
  const FIRST_FILL := UserFill(FillOf(2, 1, 3), 3, ["0xc"])
  const FORMER_CANCELED := OrderUpdate(Update("BTC", 'B', ExCanceled, 2, 5, 5, 100, "0xc"), 4, ["0xc"])
  const SECOND_FILL := UserFill(FillOf(2, 2, 5), 5, ["0xc"])

  // The order is open under oid 1 and nothing was settled.
  ghost predicate Open(w: World, t: OrderType) {
    && w.buffered == [] && Settled(w.log) == [] && w.iocTimeoutSecs == 10
    && w.book.cloidToClient == map["0xc" := "cl1"] && w.book.oidToCloid == map[1 := "0xc"]
    && w.book.cloidToOid == map["0xc" := 1]
    && w.book.cloidToState.Keys == {"0xc"} && w.book.cloidToState["0xc"].createdAt == 1
    && w.book.cloidToState["0xc"].isIoc == (t == Market)
    && w.book.cloidToState["0xc"].cumQty == 0 && w.book.cloidToState["0xc"].origSz == 5
  }

  lemma OpenedFirst(w: World, t: OrderType)
    requires w == Placed(t)
    ensures Open(Step(w, OPENED), t)
  {
    Calm(w, 2, ["0xc"]);
    var w' := Step(w, OPENED);
    assert |w'.log| == 2 && w'.log == w.log + [w'.log[1]] && SettledBy(w'.log[1]) == [];
    SettledAppend(w.log, [w'.log[1]]);
    assert Settled([w'.log[1]]) == [];
    assert Settled(w.log) == [];
  }

  lemma OpenIsReached(t: OrderType)
    ensures Reaches(Opening(t) + [OPENED], Step(Placed(t), OPENED), SEEN) && Open(Step(Placed(t), OPENED), t)
  {
    PlacedIsReached(t);
    OpenedFirst(Placed(t), t);
    ReachesNext(Opening(t), Placed(t), SEEN, OPENED);
    assert SEEN + Mentions(OPENED) == SEEN;
  }

  lemma FirstWaits(w: World)
    requires Open(w, Limit)
    ensures Step(w, FIRST_FILL) == w.(buffered := [BufferedFill(FillOf(2, 1, 3), 3)])
  {
    Calm(w, 3, ["0xc"]);
  }

  lemma QuietWhileItWaits(w: World, now: int)
    requires w.buffered == [BufferedFill(FillOf(2, 1, 3), 3)] && 3 <= now < 10
    requires w.book.cloidToState.Keys == {"0xc"} && !w.book.cloidToState["0xc"].isIoc
    ensures CheckTimeouts(w, now, ["0xc"]) == w
  {
    QuietChangesNothing(w, now, ["0xc"]);
  }

  lemma FormerOidIsRegistered(w: World)
    requires w.buffered == [BufferedFill(FillOf(2, 1, 3), 3)] && Open(w.(buffered := []), Limit)
    ensures Step(w, FORMER_CANCELED) == w.(book := w.book.RegisterOid(2, "0xc"))
  {
    QuietWhileItWaits(w, 4);
  }

  lemma SecondOvertakes(w: World)
    requires w.buffered == [BufferedFill(FillOf(2, 1, 3), 3)] && Open(w.(buffered := []), Limit)
    ensures var w' := w.(book := w.book.RegisterOid(2, "0xc"));
            && Overtakes(w', SECOND_FILL, 2)
            && Settled(Step(w', SECOND_FILL).log) == [FillOf(2, 2, 5)]
            && Step(w', SECOND_FILL).buffered == w.buffered
  {
    var w', f := w.(book := w.book.RegisterOid(2, "0xc")), FillOf(2, 2, 5);
    QuietWhileItWaits(w', 5);
    EmitFillFrame(w', f, "cl1", "0xc");
    var r := FillReport(w', f, "cl1", "0xc", w'.book.ApplyFill("0xc", f.sz).StateOf("0xc"));
    SettledAppend(w'.log, [r]);
    assert Settled([r]) == [f];
    assert FillsOf(w'.buffered, 2) == [FillOf(2, 1, 3)];
    assert !AllAre([FillOf(2, 1, 3)], f) by {
      assert [FillOf(2, 1, 3)][0] != f;
    }
  }

  lemma OvertakesFrom(es0: seq<Event>, w0: World)
    requires Reaches(es0, w0, SEEN) && Open(w0, Limit)
    ensures var es := es0 + [FIRST_FILL] + [FORMER_CANCELED] + [SECOND_FILL]; var w := Run(Initial(10), es);
            && ValidRun(Initial(10), SEEN_INITIALLY, es) && !NeverOvertakes(Initial(10), es, 2)
            && Settled(w.log) == [FillOf(2, 2, 5)] && FillsOf(w.buffered, 2) == [FillOf(2, 1, 3)]
  {
    FirstWaits(w0);
    ReachesNext(es0, w0, SEEN, FIRST_FILL);
    var w1 := Step(w0, FIRST_FILL);
    FormerOidIsRegistered(w1);
    ReachesNext(es0 + [FIRST_FILL], w1, SEEN + {}, FORMER_CANCELED);
    SecondOvertakes(w1);
    var es2 := es0 + [FIRST_FILL] + [FORMER_CANCELED];
    ReachesNext(es2, Step(w1, FORMER_CANCELED), SEEN + {} + {"0xc"}, SECOND_FILL);
    OvertakingShows(Initial(10), es2, SECOND_FILL, 2);
    assert FillsOf(w1.buffered, 2) == [FillOf(2, 1, 3)];
  }

  // Of two fills of the former oid of a replaced order the second is settled
  // while the first still waits.
  lemma FormerOidOvertakes()
    ensures var es := Opening(Limit) + [OPENED] + [FIRST_FILL] + [FORMER_CANCELED] + [SECOND_FILL];
            var w := Run(Initial(10), es);
            && ValidRun(Initial(10), SEEN_INITIALLY, es) && !NeverOvertakes(Initial(10), es, 2)
            && Settled(w.log) == [FillOf(2, 2, 5)] && FillsOf(w.buffered, 2) == [FillOf(2, 1, 3)]
  {
    OpenIsReached(Limit);
    OvertakesFrom(Opening(Limit) + [OPENED], Step(Placed(Limit), OPENED));
  }

  lemma {:induction false} OvertakingShows(w: World, es: seq<Event>, e: Event, oid: nat)
    requires Overtakes(Run(w, es), e, oid)
    ensures !NeverOvertakes(w, es + [e], oid)
    decreases |es|
  {
    if es != [] {
      assert (es + [e])[0] == es[0] && (es + [e])[1..] == es[1..] + [e];
      OvertakingShows(Step(w, es[0]), es[1..], e, oid);
    }
  }

  // --- an IOC order cancelled after its complete fill ---------------------

  const WHOLE_FILL := UserFill(FillOf(1, 5, 3), 3, ["0xc"])
  const THEN_CANCELED := OrderUpdate(Update("BTC", 'B', ExCanceled, 1, 0, 5, 100, "0xc"), 4, ["0xc"])

  lemma WholeFillKeepsIoc(w: World)
    requires Open(w, Market)
    ensures Step(w, WHOLE_FILL).book == w.book.ApplyFill("0xc", 5)
  {
    Calm(w, 3, ["0xc"]);
  }

  lemma FilledThenCanceled(w: World)
    requires Open(w, Market)
    ensures Admissible(w, SEEN, WHOLE_FILL) && Admissible(Step(w, WHOLE_FILL), SEEN, THEN_CANCELED)
    ensures var log := Step(Step(w, WHOLE_FILL), THEN_CANCELED).log; var n := |log|;
            && n >= 2 && About(log[n - 2], "0xc") && log[n - 2].status == FILLED
            && About(log[n - 1], "0xc") && log[n - 1].status == CANCELLED
  {
    WholeFillKeepsIoc(w);
    IocFillIsNotLastWord(w, FillOf(1, 5, 3), THEN_CANCELED.update, 3, 4, ["0xc"]);
  }

  lemma ReachesTwo(es: seq<Event>, w: World, seen: set<string>, e: Event, e': Event)
    requires Reaches(es, w, seen) && Mentions(e) == {}
    requires Admissible(w, seen, e) && Admissible(Step(w, e), seen, e')
    ensures Reaches(es + [e] + [e'], Step(Step(w, e), e'), seen + Mentions(e'))
  {
    ReachesNext(es, w, seen, e);
    assert seen + Mentions(e) == seen;
    ReachesNext(es + [e], Step(w, e), seen, e');
  }

  lemma CanceledAfterFilledFrom(es: seq<Event>, w: World)
    requires Reaches(es, w, SEEN) && Open(w, Market)
    ensures var all := es + [WHOLE_FILL] + [THEN_CANCELED];
            var log := Run(Initial(10), all).log; var n := |log|;
            && ValidRun(Initial(10), SEEN_INITIALLY, all)
            && n >= 2 && About(log[n - 2], "0xc") && log[n - 2].status == FILLED
            && About(log[n - 1], "0xc") && log[n - 1].status == CANCELLED
  {
    FilledThenCanceled(w);
    ReachesTwo(es, w, SEEN, WHOLE_FILL, THEN_CANCELED);
  }

  // The order is reported FILLED, then CANCELLED.
  lemma IocCanceledAfterFilled()
    ensures var es := Opening(Market) + [OPENED] + [WHOLE_FILL] + [THEN_CANCELED];
            var log := Run(Initial(10), es).log; var n := |log|;
            && ValidRun(Initial(10), SEEN_INITIALLY, es)
            && n >= 2 && About(log[n - 2], "0xc") && log[n - 2].status == FILLED
            && About(log[n - 1], "0xc") && log[n - 1].status == CANCELLED
  {
    OpenIsReached(Market);
    CanceledAfterFilledFrom(Opening(Market) + [OPENED], Step(Placed(Market), OPENED));
  }
}
