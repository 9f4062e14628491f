// A producer that starts its files over, seen by a reader that does not.
module SbeRestart {
  // What the reader delivers after noticing is a prefix of what the new files
  // are given.

  import opened Common
  import opened SbeCodec
  import opened SbeQueue

  // --- what was delivered before does not matter --------------------------

  // The reader had delivered `before` in addition.
  function After(before: seq<Message>, r: Reader): Reader {
    r.(delivered := before + r.delivered)
  }

  lemma AdvanceAfter(before: seq<Message>, r: Reader)
    requires ReaderOk(r)
    ensures Advance(After(before, r)) == (After(before, Advance(r).0), Advance(r).1)
  {
    match Parse(r.buffer, r.limit)
    case Delivered(m, n) => Assoc(before, r.delivered, [m]);
    case _ =>
  }

  lemma LocatedAfter(before: seq<Message>, r: Reader, data: bytes, index: seq<nat>)
    ensures Located(After(before, r), data, index) == After(before, Located(r, data, index))
    ensures Initialize(After(before, r), data, index) == After(before, Initialize(r, data, index))
  {
  }

  lemma FillAfter(before: seq<Message>, r: Reader, data: bytes, index: seq<nat>)
    requires ReaderOk(r) && IndexBehindData(data, index)
    ensures ReaderOk(FillBuffer(r, data, index).0)
    ensures FillBuffer(After(before, r), data, index)
            == (After(before, FillBuffer(r, data, index).0), FillBuffer(r, data, index).1)
  {
    LocatedAfter(before, r, data, index);
  }

  lemma NextAfter(before: seq<Message>, r: Reader, data: bytes, index: seq<nat>)
    requires ReaderOk(r) && IndexBehindData(data, index)
    ensures Next(After(before, r), data, index) == (After(before, Next(r, data, index).0), Next(r, data, index).1)
  {
    var r1 := if r.valid then r else Initialize(r, data, index).(valid := true);
    LocatedAfter(before, r, data, index);
    FillAfter(before, r1, data, index);
    AdvanceAfter(before, FillBuffer(r1, data, index).0);
  }

  function SystemAfter(before: seq<Message>, s: System): System {
    s.(reader := After(before, s.reader))
  }

  lemma ActAfter(before: seq<Message>, s: System, a: Action)
    requires ReaderOk(s.reader) && Consistent(s.writer)
    ensures Act(SystemAfter(before, s), a) == SystemAfter(before, Act(s, a))
  {
    if a.Poll? {
      NextAfter(before, s.reader, s.writer.data[..s.writer.visibleData], s.writer.index[..s.writer.visibleIndex]);
    }
  }

  // --- the restart --------------------------------------------------------

  // The reader still stands where the old files left it. `ms` went into the new
  // ones, and their index is shorter than the one the reader knows.
  ghost predicate Noticeable(r: Reader, w: Writer, ms: seq<Message>) {
    && ReaderOk(r) && r.valid && r.failedPolls == 0 && 0 < r.position
    && WriterInv(w, ms) && w.visibleIndex < r.indexMapped
  }

  // A reader that has not opened the files yet.
  function Opening(r: Reader): Reader {
    r.(valid := false, position := 0, mapped := 0, indexMapped := 0, committed := 0, limit := 0, delivered := [])
  }

  lemma OpeningInv(r: Reader, w: Writer, ms: seq<Message>)
    requires Noticeable(r, w, ms)
    ensures ReaderInv(Opening(r), w, ms)
  {
    assert ms[..0] == [];
  }

  // The poll that notices leaves the reader as if it had polled the new files
  // for the first time, after what it delivered before.
  lemma NoticingPoll(r: Reader, w: Writer, ms: seq<Message>)
    requires Noticeable(r, w, ms)
    ensures Consistent(w)
    ensures exists anew :: ReaderInv(anew, w, ms) && PollFile(r, w).0 == After(r.delivered, anew)
  {
    InvConsistent(w, ms);
    OpeningInv(r, w, ms);
    var data, index := w.data[..w.visibleData], w.index[..w.visibleIndex];
    if data == [] {
      NothingThere(r, w, ms);
    } else {
      RestartIsNoticed(r, data, index);
      var opening := Opening(r);
      NextAfter(r.delivered, opening, data, index);
      assert r.(valid := false, position := 0, mapped := 0, indexMapped := 0, committed := 0, limit := 0)
          == After(r.delivered, opening);
      PollDelivers(opening, w, ms);
      assert ReaderInv(PollFile(opening, w).0, w, ms);
    }
  }

  // The new file is still empty: the reader waits at its start.
  lemma NothingThere(r: Reader, w: Writer, ms: seq<Message>)
    requires Noticeable(r, w, ms) && Consistent(w) && w.visibleData == 0
    ensures var waiting := Opening(r).(valid := true);
            ReaderInv(waiting, w, ms) && PollFile(r, w).0 == After(r.delivered, waiting)
  {
    OpeningInv(r, w, ms);
    StartMonotone(ms, 0, w.visibleIndex);
    assert w.index[..0] == [] && w.data[..0] == [];
  }

  // --- runs ---------------------------------------------------------------

  // Every step can be taken: what polls rely on holds along the way.
  ghost predicate Runs(s: System, actions: seq<Action>)
    decreases |actions|
  {
    actions == [] ||
    (ReaderOk(s.reader) && Consistent(s.writer) && Runs(Act(s, actions[0]), actions[1..]))
  }

  ghost function RunOf(s: System, actions: seq<Action>): System
    requires Runs(s, actions)
    decreases |actions|
  {
    if actions == [] then s else RunOf(Act(s, actions[0]), actions[1..])
  }

  lemma {:induction false} RunAfter(before: seq<Message>, s: System, actions: seq<Action>)
    requires Inv(s) && WellFormedActions(actions)
    ensures Runs(SystemAfter(before, s), actions)
    ensures RunOf(SystemAfter(before, s), actions) == SystemAfter(before, RunActions(s, actions))
    decreases |actions|
  {
    if actions != [] {
      assert actions[0] in actions;
      ActInv(s, actions[0]);
      ActAfter(before, s, actions[0]);
      RunAfter(before, Act(s, actions[0]), actions[1..]);
    }
  }

  // From the poll that notices on, under every interleaving with the writer of
  // the new files: the reader delivers, after what it had delivered, a prefix
  // of the messages these were given, and is never stuck on one.
  lemma RestartDeliversNewFile(w: Writer, ms: seq<Message>, r: Reader, actions: seq<Action>)
    requires Noticeable(r, w, ms) && WellFormedActions(actions)
    ensures Consistent(w)
    ensures var s := System(w, ms, PollFile(r, w).0);
            && Runs(s, actions)
            && var after := RunOf(s, actions);
               && r.delivered <= after.reader.delivered <= r.delivered + after.accepted
               && after.reader.failedPolls == 0 && ms <= after.accepted
  {
    NoticingPoll(r, w, ms);
    var anew :| ReaderInv(anew, w, ms) && PollFile(r, w).0 == After(r.delivered, anew);
    var s := System(w, ms, anew);
    assert Inv(s);
    assert System(w, ms, PollFile(r, w).0) == SystemAfter(r.delivered, s);
    RunAfter(r.delivered, s, actions);
    AcceptedGrows(s, actions);
    var end := RunActions(s, actions);
    PrefixAfter(r.delivered, end.reader.delivered, end.accepted);
  }

  lemma PrefixAfter(before: seq<Message>, delivered: seq<Message>, accepted: seq<Message>)
    requires delivered <= accepted
    ensures before <= before + delivered <= before + accepted
  {
  }

  lemma ActAccepts(s: System, a: Action)
    requires ReaderOk(s.reader) && Consistent(s.writer)
    ensures s.accepted <= Act(s, a).accepted
  {
  }

  lemma {:induction false} AcceptedGrows(s: System, actions: seq<Action>)
    requires Inv(s) && WellFormedActions(actions)
    ensures s.accepted <= RunActions(s, actions).accepted
    decreases |actions|
  {
    if actions != [] {
      var a := actions[0];
      assert a in actions;
      ActInv(s, a);
      ActAccepts(s, a);
      AcceptedGrows(Act(s, a), actions[1..]);
      var s1, end := Act(s, a).accepted, RunActions(Act(s, a), actions[1..]).accepted;
      PrefixTrans(s.accepted, s1, end);
    }
  }

  lemma PrefixTrans(a: seq<Message>, b: seq<Message>, c: seq<Message>)
    requires a <= b <= c
    ensures a <= c
  {
  }
}
