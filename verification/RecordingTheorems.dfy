/**
 What holds over every run of the recording-frame handle protocol.
 */
module RecordingTheorems {
  import opened Wrappers
  import opened RecordingFrames

  /** In every interleaving no process closes a handle twice, or one that is not its own, and
      every handle that is still open has exactly one owner, or was leaked. */
  lemma ClosedExactlyOnce(run: seq<Event>, h: Handle)
    requires RunFrom(INITIAL, run)
    ensures var s := After(INITIAL, run);
            && !s.ledger.fault
            && s.ledger.closed[h] <= 1
            && (h in s.ledger.open ==> s.ledger.closed[h] == 0 && Owners(s.tasks, h) + s.leaked[h] == 1)
            && (h in s.ledger.made && h !in s.ledger.open ==> s.ledger.closed[h] == 1 && Owners(s.tasks, h) == 0)
  {
    InitialInv();
    RunKeeps(INITIAL, run);
    assert HandleOk(After(INITIAL, run), h);
  }

  /** Every frame handed out comes back in at most one release transaction, and not while it
      is still under way. */
  lemma ReturnedAtMostOnce(run: seq<Event>, f: Frame)
    requires RunFrom(INITIAL, run)
    ensures var s := After(INITIAL, run);
            && s.returned[f] <= 1
            && (s.returned[f] == 1 ==> f < s.sent && Carriers(s.tasks, f) == 0 && s.lost[f] == 0)
  {
    InitialInv();
    RunKeeps(INITIAL, run);
    assert FrameOk(After(INITIAL, run), f);
  }

  // ----- What can go wrong, exactly -----

  /** The step drops a batch: a null handle is read, or the camera is not connected. */
  predicate Loses(s: State, e: Event)
    requires Enabled(s, e)
  {
    match e
    case Deliver(i, fail) =>
      !s.tasks[i].stage.ToService? && ReadCount(s.tasks[i].frames, fail) < |s.tasks[i].frames|
    case Advance(i) => s.tasks[i].stage.AppRelease? && s.tasks[i].hs != [] && !s.connected
    case _ => false
  }

  /** The dropped batch had handles in it: not so when the very first read failed. */
  predicate Leaks(s: State, e: Event)
    requires Enabled(s, e)
  {
    Loses(s, e) && (e.Deliver? ==> ReadCount(s.tasks[e.i].frames, e.fail) > 0)
  }

  predicate LossFree(s: State, run: seq<Event>)
    requires RunFrom(s, run)
    decreases |run|
  {
    run == [] || (!Loses(s, run[0]) && LossFree(Next(s, run[0]), run[1..]))
  }

  predicate LeakFree(s: State, run: seq<Event>)
    requires RunFrom(s, run)
    decreases |run|
  {
    run == [] || (!Leaks(s, run[0]) && LeakFree(Next(s, run[0]), run[1..]))
  }

  lemma AdvanceLedger(s: State, i: nat)
    requires Inv(s) && i < |s.tasks| && Running(s.tasks[i])
    ensures var e, r := Advance(i), AdvanceTask(s, i);
            && |r.lost| >= |s.lost| && (|r.lost| == |s.lost| <==> !Loses(s, e))
            && |r.leaked| >= |s.leaked| && (|r.leaked| == |s.leaked| <==> !Leaks(s, e))
  {
    var t := s.tasks[i];
    assert TaskOk(t);
  }

  lemma DeliverLedger(s: State, i: nat, fail: Option<nat>)
    requires Inv(s) && i < |s.tasks| && Transaction(s.tasks[i])
    ensures var e, r := Deliver(i, fail), DeliverTask(s, i, fail);
            && |r.lost| >= |s.lost| && (|r.lost| == |s.lost| <==> !Loses(s, e))
            && |r.leaked| >= |s.leaked| && (|r.leaked| == |s.leaked| <==> !Leaks(s, e))
  {
    var t := s.tasks[i];
    assert TaskOk(t);
    assert t.stage == MediaRelease(true) ==> |t.frames| == 1;
  }

  lemma StepLedger(s: State, e: Event)
    requires Inv(s) && Enabled(s, e)
    ensures |Next(s, e).lost| >= |s.lost| && (|Next(s, e).lost| == |s.lost| <==> !Loses(s, e))
    ensures |Next(s, e).leaked| >= |s.leaked| && (|Next(s, e).leaked| == |s.leaked| <==> !Leaks(s, e))
  {
    if e.Advance? {
      AdvanceLedger(s, e.i);
    } else if e.Deliver? {
      DeliverLedger(s, e.i, e.fail);
    }
  }

  lemma {:induction false} RunLedger(s: State, run: seq<Event>)
    requires Inv(s) && RunFrom(s, run)
    ensures var r := After(s, run);
            && |r.lost| >= |s.lost| && (|r.lost| == |s.lost| <==> LossFree(s, run))
            && |r.leaked| >= |s.leaked| && (|r.leaked| == |s.leaked| <==> LeakFree(s, run))
    decreases |run|
  {
    if run != [] {
      StepLedger(s, run[0]);
      StepKeeps(s, run[0]);
      RunLedger(Next(s, run[0]), run[1..]);
    }
  }

  /** A run loses a frame exactly if it has a step with `Loses`, and leaks a handle exactly if
      it has one with `Leaks`. */
  lemma LossExactly(run: seq<Event>)
    requires RunFrom(INITIAL, run)
    ensures After(INITIAL, run).lost == multiset{} <==> LossFree(INITIAL, run)
    ensures After(INITIAL, run).leaked == multiset{} <==> LeakFree(INITIAL, run)
  {
    InitialInv();
    RunLedger(INITIAL, run);
  }

  lemma {:induction false} LossFreeIsLeakFree(s: State, run: seq<Event>)
    requires RunFrom(s, run) && LossFree(s, run)
    ensures LeakFree(s, run)
    decreases |run|
  {
    if run != [] {
      LossFreeIsLeakFree(Next(s, run[0]), run[1..]);
    }
  }

  /** Without such a step, once nothing is in flight and no listener holds anything, every
      handle ever duplicated was closed exactly once and every frame came back exactly once. */
  lemma QuiescentExactlyOnce(run: seq<Event>)
    requires RunFrom(INITIAL, run) && LossFree(INITIAL, run)
    requires After(INITIAL, run).tasks == []
    ensures var s := After(INITIAL, run);
            && s.ledger.open == {}
            && (forall h :: h in s.ledger.made ==> s.ledger.closed[h] == 1)
            && (forall f :: 0 <= f < s.sent ==> s.returned[f] == 1)
  {
    var s := After(INITIAL, run);
    InitialInv();
    RunKeeps(INITIAL, run);
    LossFreeIsLeakFree(INITIAL, run);
    LossExactly(run);
    forall h ensures h !in s.ledger.open && (h in s.ledger.made ==> s.ledger.closed[h] == 1) {
      assert HandleOk(s, h);
    }
    forall f: Frame | f < s.sent ensures s.returned[f] == 1 {
      assert FrameOk(s, f);
    }
  }

  ghost predicate Leads(s: State, run: seq<Event>, r: State) {
    RunFrom(s, run) && After(s, run) == r
  }

  lemma LeadsFirst(s: State, run: seq<Event>, r: State)
    requires run != [] && Enabled(s, run[0]) && Leads(Next(s, run[0]), run[1..], r)
    ensures Leads(s, run, r)
  {
  }

  /** A frame that is under way while the camera is disconnected, with nobody to listen, is lost and
      its handle leaked. */
  lemma LossExample(run: seq<Event>)
    requires run == [SetConnected(true), Send([0], 1), SetConnected(false), Deliver(0, None),
                     Advance(0), Advance(0), Advance(0)]
    ensures RunFrom(INITIAL, run)
    ensures After(INITIAL, run).lost == multiset{0}
    ensures After(INITIAL, run).leaked == multiset{Handle(App, 0, 0)}
  {
    var s1 := Next(INITIAL, run[0]);
    var s2 := Next(s1, run[1]);
    assert Numbers(0, 1) == [0];
    assert s2.tasks == [Parcel(ToApp, [0], [0])];
    var s3 := Next(s2, run[2]);
    var r := DroppedAlone(s3, run[3..]);
    LeadsFirst(s2, run[2..], r);
    LeadsFirst(s1, run[1..], r);
    LeadsFirst(INITIAL, run, r);
  }

  lemma DroppedAlone(s: State, run: seq<Event>) returns (r: State)
    requires s.tasks == [Parcel(ToApp, [0], [0])] && s.ledger.next == 0
    requires !s.connected && !s.listener && !s.proxy && s.lost == multiset{} && s.leaked == multiset{}
    requires run == [Deliver(0, None), Advance(0), Advance(0), Advance(0)]
    ensures Leads(s, run, r) && r.lost == multiset{0} && r.leaked == multiset{Handle(App, 0, 0)}
  {
    var hs := [Handle(App, 0, 0)];
    var s1 := ArrivesAlone(s, run[0]);
    var s2 := Next(s1, run[1]);
    assert s2.tasks == [Thread(NoProxy, [0], hs)];
    var s3 := Next(s2, run[2]);
    assert s3.tasks == [Thread(AppRelease, [], hs)];
    assert FramesOf(hs) == [0];
    r := Next(s3, run[3]);
    assert Leads(r, run[4..], r);
    LeadsFirst(s3, run[3..], r);
    LeadsFirst(s2, run[2..], r);
    LeadsFirst(s1, run[1..], r);
    LeadsFirst(s, run, r);
  }

  lemma ArrivesAlone(s: State, e: Event) returns (r: State)
    requires s.tasks == [Parcel(ToApp, [0], [0])] && s.ledger.next == 0 && e == Deliver(0, None)
    ensures Enabled(s, e) && r == Next(s, e) && r.tasks == [Thread(Arrived, [0], [Handle(App, 0, 0)])]
    ensures r == s.(tasks := r.tasks, ledger := r.ledger)
  {
    r := Next(s, e);
    assert [0][..1] == [0];
    assert Dup(App, [0], 0) == [Handle(App, 0, 0)];
  }

  // ----- Every state can be drained -----

  /** An upper bound on the number of steps a task and its successors need. */
  function Rank(t: Task): nat {
    match t.stage
    case ToApp => 6 + 6 * |t.frames|
    case Arrived => 5 + 6 * |t.hs|
    case NoProxy => 4 + 6 * |t.hs|
    case Forward => 3 + 6 * |t.hs|
    case ToMedia => 1 + 6 * |t.frames|
    case Held(_) => 6
    case MediaRelease(_) => 4
    case AppRelease => 3
    case ToService => 1
    case Closing(_) => 1
  }

  function TotalRank(ts: seq<Task>): nat {
    if ts == [] then 0 else Rank(ts[0]) + TotalRank(ts[1..])
  }

  lemma {:induction false} RankAppend(a: seq<Task>, b: seq<Task>)
    ensures TotalRank(a + b) == TotalRank(a) + TotalRank(b)
  {
    if a == [] {
      assert a + b == b;
    } else {
      assert (a + b)[1..] == a[1..] + b;
      RankAppend(a[1..], b);
    }
  }

  lemma {:induction false} RankHeld(site: Site, hs: seq<Handle>)
    ensures TotalRank(HeldTasks(site, hs)) == 6 * |hs|
  {
    if hs != [] {
      RankHeld(site, hs[1..]);
      assert HeldTasks(site, hs)[1..] == HeldTasks(site, hs[1..]);
    }
  }

  lemma RankTwo(t: Task, u: Task)
    ensures TotalRank([t, u]) == Rank(t) + Rank(u)
  {
    assert [t] + [u] == [t, u];
    RankAppend([t], [u]);
  }

  /** The next step of the first task. */
  function FirstStep(s: State): (e: Event)
    requires s.tasks != [] && TaskOk(s.tasks[0])
    ensures Enabled(s, e)
  {
    var t := s.tasks[0];
    if Transaction(t) then Deliver(0, None)
    else if Running(t) then Advance(0)
    else Release(t.stage.site, [0], true)
  }

  lemma RankReceived(t: Task, hs: seq<Handle>)
    requires Transaction(t) && !t.stage.ToService? && |hs| == |t.frames|
    ensures TotalRank(Received(t, hs)) < Rank(t)
  {
    RankHeld(Media, hs);
  }

  lemma DeliverShrinks(s: State)
    requires s.tasks != [] && Transaction(s.tasks[0]) && TaskOk(s.tasks[0])
    ensures TotalRank(DeliverTask(s, 0, None).tasks) < TotalRank(s.tasks)
  {
    var t, rest := s.tasks[0], s.tasks[1..];
    if t.stage.ToService? {
      assert DeliverTask(s, 0, None).tasks == rest;
    } else {
      var hs := DeliveredTasks(s);
      RankReceived(t, hs);
      RankAppend(rest, Received(t, hs));
    }
  }

  lemma DeliveredTasks(s: State) returns (hs: seq<Handle>)
    requires s.tasks != [] && Transaction(s.tasks[0]) && !s.tasks[0].stage.ToService?
    ensures |hs| == |s.tasks[0].frames|
    ensures DeliverTask(s, 0, None).tasks == s.tasks[1..] + Received(s.tasks[0], hs)
  {
    var t := s.tasks[0];
    assert t.frames[..|t.frames|] == t.frames;
    hs := Dup(ReaderOf(t.stage), t.frames, s.ledger.next);
  }

  lemma CallbackShrinks(s: State)
    requires s.tasks != [] && (s.tasks[0].stage.Arrived? || s.tasks[0].stage.NoProxy?)
    ensures TotalRank(AdvanceTask(s, 0).tasks) < TotalRank(s.tasks)
  {
    var t, rest := s.tasks[0], s.tasks[1..];
    assert Without(s.tasks, 0) == rest;
    if t.stage.NoProxy? && s.listener {
      RankHeld(App, t.hs);
      RankAppend(rest, HeldTasks(App, t.hs));
    } else {
      var u := if t.stage.NoProxy? then Thread(AppRelease, [], t.hs)
               else Thread(if s.proxy then Forward else NoProxy, t.times, t.hs);
      RankAppend(rest, [u]);
    }
  }

  lemma AdvanceShrinks(s: State)
    requires s.tasks != [] && Running(s.tasks[0]) && TaskOk(s.tasks[0]) && s.connected
    ensures TotalRank(AdvanceTask(s, 0).tasks) < TotalRank(s.tasks)
  {
    var t, rest := s.tasks[0], s.tasks[1..];
    if t.stage.Closing? {
      assert AdvanceTask(s, 0).tasks == rest;
    } else if t.stage.Forward? || t.stage.AppRelease? {
      var stage := if t.stage.Forward? then ToMedia else ToService;
      assert AdvanceTask(s, 0).tasks == rest + PassOn(stage, t);
      RankTwo(Parcel(stage, t.times, FramesOf(t.hs)), CloseTask(App, t.hs));
      RankAppend(rest, PassOn(stage, t));
    } else {
      CallbackShrinks(s);
    }
  }

  lemma ReleaseShrinks(s: State)
    requires s.tasks != [] && s.tasks[0].stage.Held? && TaskOk(s.tasks[0])
    ensures TotalRank(Next(s, FirstStep(s)).tasks) < TotalRank(s.tasks)
  {
    var t, rest := s.tasks[0], s.tasks[1..];
    var site, picks: seq<nat> := t.stage.site, [0];
    assert Without(s.tasks, 0) == rest;
    assert PickedRest(rest, site, picks[1..]) == rest;
    assert PickedHandles(rest, site, picks[1..]) == [];
    assert PickedHandles(s.tasks, site, picks) == t.hs;
    RankTwo(Parcel(MediaRelease(true), [], FramesOf(t.hs)), CloseTask(Media, t.hs));
    RankAppend(rest, ReleaseTasks(site, t.hs, true));
  }

  /** The steps bring everything back without losing anything. */
  predicate Finishes(s: State, run: seq<Event>) {
    RunFrom(s, run) && After(s, run).tasks == [] && LossFree(s, run)
  }

  lemma {:induction false} Drains(s: State) returns (run: seq<Event>)
    requires Inv(s) && s.connected
    ensures Finishes(s, run)
    decreases TotalRank(s.tasks)
  {
    if s.tasks == [] {
      run := [];
    } else {
      assert TaskOk(s.tasks[0]);
      var e := FirstStep(s);
      if e.Deliver? {
        DeliverShrinks(s);
      } else if e.Advance? {
        AdvanceShrinks(s);
      } else {
        ReleaseShrinks(s);
      }
      StepKeeps(s, e);
      var rest := Drains(Next(s, e));
      run := [e] + rest;
      assert run[1..] == rest;
    }
  }

  /** After every run that leaves the camera connected there is a way to empty the protocol
      without losing anything. */
  lemma EveryRunCanFinish(run: seq<Event>)
    requires RunFrom(INITIAL, run) && After(INITIAL, run).connected
    ensures exists more :: Finishes(After(INITIAL, run), more)
  {
    InitialInv();
    RunKeeps(INITIAL, run);
    var more := Drains(After(INITIAL, run));
  }
}
